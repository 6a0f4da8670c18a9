/** native/scu_host.c, compact_text_rows: children that only repeat or complete their parent's text leave the tree,
    and what they held moves up. This module says what is decided for each row; TextSurgery does it in place. */
module TextCompaction {
  import opened Text
  import opened TextCover

  datatype Row = Row(parent: int, role: string, control: bool, name: Option<string>, value: Option<string>,
                     parts: Option<seq<string>>, partial: bool, truncated: bool)

  /** Every parent stands before its children. */
  ghost predicate Forest(rows: seq<Row>) {
    forall j :: 0 <= j < |rows| ==> -1 <= rows[j].parent < j
  }

  /** `j` stands somewhere below `k`. */
  ghost predicate Below(rows: seq<Row>, j: int, k: int)
    requires Forest(rows) && j < |rows|
    decreases j
  {
    j >= 0 && (rows[j].parent == k || (rows[j].parent > k && Below(rows, rows[j].parent, k)))
  }

  /** Rows come in preorder: the parent of a row is the row before it or an ancestor of that row. */
  ghost predicate Preorder(rows: seq<Row>) {
    && Forest(rows)
    && forall j :: 0 < j < |rows| ==>
         rows[j].parent == -1 || rows[j].parent == j - 1 || Below(rows, j - 1, rows[j].parent)
  }

  // ---- The text of one row ----

  predicate ProseRow(row: Row) {
    !row.control && (row.role == "static" || row.role == "paragraph" || row.role == "heading")
  }

  function Given(text: Option<string>): string {
    if text.Some? then text.value else ""
  }

  const ELLIPSIS: char := '\U{2026}'

  /** A shortened label is the beginning of the value it stands for. */
  predicate ValueCoversLabel(name: string, value: string, paragraph: bool) {
    var shown := if name != "" && name[|name| - 1] == ELLIPSIS then name[..|name| - 1] else name;
    value != "" && (paragraph || (shown != "" && shown <= value))
  }

  /** Two texts side by side, separated by a space if neither is empty. */
  function Beside(left: string, right: string): string {
    left + (if left != "" && right != "" then " " else "") + right
  }

  function ProseText(row: Row): string {
    var name, value := Given(row.name), Given(row.value);
    Beside(if ValueCoversLabel(name, value, row.role == "paragraph") then "" else name, value)
  }

  function Own(row: Row): string {
    if ProseRow(row) then ProseText(row) else Given(row.name)
  }

  // ---- Repetition ----

  /** What is left of `own` after the texts, spaces being skipped in front of every text but the first. */
  function Consume(own: string, texts: seq<string>, first: bool): Option<string>
    decreases |texts|
  {
    if texts == [] then Some(own)
    else
      var rest := if first then own else SkipSpaces(own);
      if texts[0] <= rest then Consume(rest[|texts[0]|..], texts[1..], false) else None
  }

  predicate Repeats(own: string, texts: seq<string>) {
    Consume(own, texts, true) == Some("")
  }

  function Spaces(n: nat): string {
    seq(n, _ => ' ')
  }

  /** `s` is the texts in order, each behind some number of spaces. */
  ghost predicate SpacedOut(s: string, texts: seq<string>)
    decreases |texts|
  {
    if texts == [] then s == ""
    else exists n: nat, tail: string :: s == Spaces(n) + texts[0] + tail && SpacedOut(tail, texts[1..])
  }

  /** `own` is the texts joined with spaces only. */
  ghost predicate Spells(own: string, texts: seq<string>) {
    if texts == [] then own == ""
    else texts[0] <= own && SpacedOut(own[|texts[0]|..], texts[1..])
  }

  lemma {:induction false} SkippedSpaces(s: string)
    ensures exists n: nat :: s == Spaces(n) + SkipSpaces(s)
  {
    if s != "" && s[0] == ' ' {
      SkippedSpaces(s[1..]);
      var n: nat :| s[1..] == Spaces(n) + SkipSpaces(s[1..]);
      assert s == Spaces(n + 1) + SkipSpaces(s);
    } else {
      assert s == Spaces(0) + SkipSpaces(s);
    }
  }

  lemma {:induction false} SkipMore(n: nat, s: string)
    ensures SkipSpaces(Spaces(n) + s) == SkipSpaces(s)
  {
    if n == 0 {
      assert Spaces(0) + s == s;
    } else {
      assert (Spaces(n) + s)[1..] == Spaces(n - 1) + s;
      SkipMore(n - 1, s);
    }
  }

  lemma {:induction false} SkipTwice(s: string)
    ensures SkipSpaces(SkipSpaces(s)) == SkipSpaces(s)
  {
    if s != "" && s[0] == ' ' {
      SkipTwice(s[1..]);
    }
  }

  lemma {:induction false} ConsumedSpells(s: string, texts: seq<string>)
    requires Consume(s, texts, false) == Some("")
    ensures SpacedOut(s, texts)
    decreases |texts|
  {
    hide SkipSpaces, Spaces, SpacedOut;
    if texts != [] {
      var rest := SkipSpaces(s);
      var tail := rest[|texts[0]|..];
      SkippedSpaces(s);
      var n: nat :| s == Spaces(n) + rest;
      ConsumedSpells(tail, texts[1..]);
      SpacedOutFrom(s, texts, n, tail);
    } else {
      NothingSpacedOut();
    }
  }

  lemma SpacedOutFrom(s: string, texts: seq<string>, n: nat, tail: string)
    requires texts != [] && s == Spaces(n) + (texts[0] + tail) && SpacedOut(tail, texts[1..])
    ensures SpacedOut(s, texts)
  {
    hide Spaces;
    Text.Regrouped(Spaces(n), texts[0], tail);
  }

  lemma NothingSpacedOut()
    ensures SpacedOut("", [])
  {
  }

  /** A run of children is dropped only if their texts, joined with spaces only, spell the parent's own text. */
  lemma RepeatsSpells(own: string, texts: seq<string>)
    requires Repeats(own, texts)
    ensures Spells(own, texts)
  {
    if texts != [] {
      ConsumedSpells(own[|texts[0]|..], texts[1..]);
    }
  }

  predicate NoLeadingSpace(text: string) {
    text == "" || text[0] != ' '
  }

  predicate Stripped(texts: seq<string>) {
    forall k :: 0 <= k < |texts| ==> NoLeadingSpace(texts[k])
  }

  lemma {:induction false} SkippedIsStripped(s: string)
    ensures NoLeadingSpace(SkipSpaces(s))
  {
    if s != "" && s[0] == ' ' {
      SkippedIsStripped(s[1..]);
    }
  }

  /** Behind the skipped spaces stands the text; behind an empty text more spaces are skipped. */
  lemma SkipToText(n: nat, text: string, tail: string)
    requires NoLeadingSpace(text)
    ensures var rest := SkipSpaces(Spaces(n) + text + tail);
      text <= rest && rest[|text|..] == if text == "" then SkipSpaces(tail) else tail
  {
    var both := text + tail;
    assert Spaces(n) + text + tail == Spaces(n) + both;
    SkipMore(n, both);
    hide Spaces;
    if text == "" {
      assert both == tail;
    } else {
      assert both[0] == text[0] && SkipSpaces(both) == both && both[|text|..] == tail;
    }
  }

  /** Spaces that are already skipped make no difference. */
  lemma ConsumeSkipped(s: string, texts: seq<string>)
    requires texts != [] || s == ""
    ensures Consume(SkipSpaces(s), texts, false) == Consume(s, texts, false)
  {
    SkipTwice(s);
  }

  lemma {:induction false} SpelledConsumes(s: string, texts: seq<string>)
    requires SpacedOut(s, texts) && Stripped(texts)
    ensures Consume(s, texts, false) == Some("")
    decreases |texts|
  {
    if texts != [] {
      var n: nat, tail: string :| s == Spaces(n) + texts[0] + tail && SpacedOut(tail, texts[1..]);
      assert NoLeadingSpace(texts[0]);
      assert Stripped(texts[1..]) by {
        assert forall k :: 0 <= k < |texts[1..]| ==> texts[1..][k] == texts[k + 1];
      }
      SpelledConsumes(tail, texts[1..]);
      SkipToText(n, texts[0], tail);
      ConsumeSkipped(tail, texts[1..]);
      hide SkipSpaces, Spaces, NoLeadingSpace, SpacedOut;
    }
  }

  lemma {:induction false} ConsumedIsStripped(s: string, texts: seq<string>)
    requires Consume(s, texts, false).Some?
    ensures Stripped(texts)
    decreases |texts|
  {
    if texts != [] {
      var rest := SkipSpaces(s);
      SkippedIsStripped(s);
      ConsumedIsStripped(rest[|texts[0]|..], texts[1..]);
      assert texts == [texts[0]] + texts[1..];
    }
  }

  /** What the greedy comparison accepts, exactly: a spelling in which no text behind the first begins with a space. */
  lemma RepeatsExactly(own: string, texts: seq<string>)
    requires texts != []
    ensures Repeats(own, texts) <==> Spells(own, texts) && Stripped(texts[1..])
  {
    if Spells(own, texts) && Stripped(texts[1..]) {
      SpelledConsumes(own[|texts[0]|..], texts[1..]);
    }
    if Repeats(own, texts) {
      RepeatsSpells(own, texts);
      ConsumedIsStripped(own[|texts[0]|..], texts[1..]);
    }
  }

  /** Labels and values of prose were stripped when the row was made. */
  predicate Tidy(row: Row) {
    NoLeadingSpace(Given(row.name)) && NoLeadingSpace(Given(row.value))
  }

  lemma ProseTextStripped(row: Row)
    requires Tidy(row)
    ensures NoLeadingSpace(ProseText(row))
  {
    var name, value := Given(row.name), Given(row.value);
    var shown := if ValueCoversLabel(name, value, row.role == "paragraph") then "" else name;
    assert shown == "" ==> Beside(shown, value) == value;
    assert shown != "" ==> Beside(shown, value)[0] == shown[0];
  }

  // ---- What happens to each row ----

  /** A row stays, or goes because its children complete it, or goes with a run of siblings that repeats `owner`. */
  datatype Fate = Kept | Covered | Repeated(owner: nat, run: seq<nat>)

  /** The pass visits rows from last to first. `kids` lists the rows that currently hang below each row. */
  datatype State = State(kids: seq<seq<nat>>, fates: seq<Fate>, rendered: seq<string>, truncated: seq<bool>)

  predicate Within(chain: seq<nat>, n: nat) {
    forall t :: 0 <= t < |chain| ==> chain[t] < n
  }

  ghost predicate Sized(rows: seq<Row>, st: State) {
    |st.fates| == |st.rendered| == |st.truncated| == |rows| && Sound(st.kids, |rows|)
  }

  /** The children of `p` among the rows from `i` on, in order. */
  function Children(rows: seq<Row>, p: nat, i: nat): (kids: seq<nat>)
    requires i <= |rows|
    ensures Within(kids, |rows|)
    decreases |rows| - i
  {
    if i == |rows| then []
    else (if rows[i].parent == p then [i] else []) + Children(rows, p, i + 1)
  }

  function Initial(rows: seq<Row>): State {
    State(seq(|rows|, p requires 0 <= p < |rows| => Children(rows, p, 0)), seq(|rows|, _ => Kept),
          seq(|rows|, _ => ""), seq(|rows|, j requires 0 <= j < |rows| => rows[j].truncated))
  }

  ghost predicate Sound(kids: seq<seq<nat>>, n: nat) {
    |kids| == n && forall k :: 0 <= k < n ==> Within(kids[k], n)
  }

  /** The children of a removed wrapper take its place. */
  function Splice(chain: seq<nat>, kids: seq<seq<nat>>, fates: seq<Fate>): (spliced: seq<nat>)
    requires Sound(kids, |fates|) && Within(chain, |fates|)
    ensures Within(spliced, |fates|)
  {
    if chain == [] then []
    else (if fates[chain[0]].Kept? then [chain[0]] else kids[chain[0]]) + Splice(chain[1..], kids, fates)
  }

  predicate LeafProse(rows: seq<Row>, st: State, j: nat)
    requires j < |rows| == |st.kids|
  {
    ProseRow(rows[j]) && st.kids[j] == []
  }

  /** How many leaf prose rows lead the chain. */
  function RunLength(rows: seq<Row>, st: State, chain: seq<nat>): (n: nat)
    requires |rows| == |st.kids| && Within(chain, |rows|)
    ensures n <= |chain| && forall t :: 0 <= t < n ==> LeafProse(rows, st, chain[t])
  {
    if chain == [] || !LeafProse(rows, st, chain[0]) then 0 else 1 + RunLength(rows, st, chain[1..])
  }

  lemma {:induction false} RunLengthStops(rows: seq<Row>, st: State, chain: seq<nat>)
    requires |rows| == |st.kids| && Within(chain, |rows|)
    ensures var n := RunLength(rows, st, chain); n < |chain| ==> !LeafProse(rows, st, chain[n])
  {
    if chain != [] && LeafProse(rows, st, chain[0]) {
      RunLengthStops(rows, st, chain[1..]);
    }
  }

  function Texts(rows: seq<Row>, run: seq<nat>): seq<string>
    requires Within(run, |rows|)
  {
    if run == [] then [] else [ProseText(rows[run[0]])] + Texts(rows, run[1..])
  }

  /** What is left of a chain when the maximal runs of leaf prose rows that repeat `own` are dropped, and those runs. */
  function Collapse(rows: seq<Row>, st: State, own: string, chain: seq<nat>): (r: (seq<nat>, seq<seq<nat>>))
    requires |rows| == |st.kids| && Within(chain, |rows|)
    ensures Within(r.0, |rows|) && forall run <- r.1 :: Within(run, |rows|)
    decreases |chain|
  {
    if chain == [] || own == "" then (chain, [])
    else
      var n := RunLength(rows, st, chain);
      if n == 0 then
        var (kept, runs) := Collapse(rows, st, own, chain[1..]);
        ([chain[0]] + kept, runs)
      else
        var (kept, runs) := Collapse(rows, st, own, chain[n..]);
        if Repeats(own, Texts(rows, chain[..n])) then (kept, [chain[..n]] + runs) else (chain[..n] + kept, runs)
  }

  function RunWith(runs: seq<seq<nat>>, j: nat): (r: Option<seq<nat>>)
    ensures r.Some? <==> exists run <- runs :: j in run
    ensures r.Some? ==> r.value in runs && j in r.value
  {
    if runs == [] then None else if j in runs[0] then Some(runs[0]) else RunWith(runs[1..], j)
  }

  function AfterRuns(fates: seq<Fate>, owner: nat, runs: seq<seq<nat>>): seq<Fate> {
    seq(|fates|, j requires 0 <= j < |fates| =>
      match RunWith(runs, j) case Some(run) => Repeated(owner, run) case None => fates[j])
  }

  function AnyTruncated(truncated: seq<bool>, runs: seq<seq<nat>>): bool {
    exists j :: 0 <= j < |truncated| && RunWith(runs, j).Some? && truncated[j]
  }

  /** The texts of a chain, side by side. */
  function Join(rendered: seq<string>, chain: seq<nat>, before: string): string
    requires Within(chain, |rendered|)
    decreases |chain|
  {
    if chain == [] then before
    else
      var text := rendered[chain[0]];
      Join(rendered, chain[1..], if text == "" then before else before + (if before != "" then " " else "") + text)
  }

  /** The runs dropped at row `i`. */
  ghost function Runs(rows: seq<Row>, st: State, i: nat): seq<seq<nat>>
    requires Sized(rows, st) && i < |rows|
  {
    Collapse(rows, st, Own(rows[i]), Splice(st.kids[i], st.kids, st.fates)).1
  }

  /** What the pass does at row `i`. */
  ghost function Step(rows: seq<Row>, st: State, i: nat): (next: State)
    requires Sized(rows, st) && i < |rows|
    ensures Sized(rows, next)
  {
    var row := rows[i];
    var (kept, runs) := Collapse(rows, st, Own(row), Splice(st.kids[i], st.kids, st.fates));
    var descendants := Join(st.rendered, kept, "");
    var covered := ProseRow(row) && descendants != "" && row.parts.Some?
                   && Covers(row.parts.value, row.partial, descendants);
    var fates := AfterRuns(st.fates, i, runs);
    State(st.kids[i := kept],
          if covered then fates[i := Covered] else fates,
          st.rendered[i := if covered then descendants else Beside(Own(row), descendants)],
          st.truncated[i := st.truncated[i] || AnyTruncated(st.truncated, runs)])
  }

  // ---- The rows that hang below a row ----

  /** Every row strictly between `j` and its ancestor `k` is gone. */
  ghost predicate Reaches(rows: seq<Row>, fates: seq<Fate>, j: nat, k: nat)
    requires Forest(rows) && j < |rows| == |fates|
    decreases j
  {
    var p := rows[j].parent;
    p == k || (p > k && !fates[p].Kept? && Reaches(rows, fates, p, k))
  }

  ghost predicate Ascending(chain: seq<nat>) {
    forall s, t :: 0 <= s < t < |chain| ==> chain[s] < chain[t]
  }

  /** `chain` lists, in order, the rows kept so far whose nearest row not passed over is `k`. */
  ghost predicate Hangs(rows: seq<Row>, fates: seq<Fate>, chain: seq<nat>, k: nat)
    requires Forest(rows) && |rows| == |fates|
  {
    && Ascending(chain)
    && forall j: nat :: j in chain <==> j < |rows| && fates[j].Kept? && Reaches(rows, fates, j, k)
  }

  ghost predicate Untouched(rows: seq<Row>, chain: seq<nat>, k: nat) {
    Ascending(chain) && forall j: nat :: j in chain <==> j < |rows| && rows[j].parent == k
  }

  /** A visited row that a visited parent has not yet replaced by its children. */
  predicate Live(rows: seq<Row>, fates: seq<Fate>, k: nat, i: nat)
    requires k < |rows| == |fates|
  {
    k >= i && (fates[k].Kept? || rows[k].parent < i)
  }

  /** When the rows from `i` on are visited. */
  ghost predicate Inv(rows: seq<Row>, st: State, i: nat) {
    && Forest(rows) && Sized(rows, st) && i <= |rows|
    && (forall k :: 0 <= k < i ==> st.fates[k].Kept? && Untouched(rows, st.kids[k], k))
    && (forall k :: 0 <= k < |rows| && Live(rows, st.fates, k, i) ==> Hangs(rows, st.fates, st.kids[k], k))
  }

  lemma AscendingAppend(low: seq<nat>, high: seq<nat>)
    requires Ascending(low) && Ascending(high) && forall x, y :: x in low && y in high ==> x < y
    ensures Ascending(low + high)
  {
    var all := low + high;
    forall s, t | 0 <= s < t < |all| ensures all[s] < all[t] {
      if s < |low| <= t {
        assert all[s] in low && all[t] in high;
      }
    }
  }

  lemma {:induction false} ChildrenUntouched(rows: seq<Row>, p: nat, i: nat)
    requires i <= |rows|
    ensures Ascending(Children(rows, p, i))
    ensures forall j: nat :: j in Children(rows, p, i) <==> i <= j < |rows| && rows[j].parent == p
    decreases |rows| - i
  {
    if i < |rows| {
      ChildrenUntouched(rows, p, i + 1);
      AscendingAppend(if rows[i].parent == p then [i] else [], Children(rows, p, i + 1));
    }
  }

  lemma InitialInv(rows: seq<Row>)
    requires Forest(rows)
    ensures Inv(rows, Initial(rows), |rows|)
  {
    forall k: nat | k < |rows| ensures Untouched(rows, Initial(rows).kids[k], k) {
      ChildrenUntouched(rows, k, 0);
    }
  }

  /** Subtrees are contiguous. */
  lemma {:induction false} Contiguous(rows: seq<Row>, c: nat, d: nat, j: nat)
    requires Preorder(rows) && c < d <= j < |rows| && Below(rows, j, c)
    ensures Below(rows, d, c)
    decreases j
  {
    if d < j {
      var p := rows[j].parent;
      if p == j - 1 || p == c {
        if p == j - 1 && j - 1 != c {
          assert Below(rows, j - 1, c);
        }
        if p == c && p != j - 1 {
          assert Below(rows, j - 1, c);
        }
        Contiguous(rows, c, d, j - 1);
      } else {
        BelowTrans(rows, j - 1, p, c);
        Contiguous(rows, c, d, j - 1);
      }
    }
  }

  lemma {:induction false} BelowTrans(rows: seq<Row>, j: nat, p: nat, c: nat)
    requires Forest(rows) && j < |rows| && Below(rows, j, p) && Below(rows, p, c)
    ensures Below(rows, j, c)
    decreases j
  {
    BelowSmaller(rows, p, c);
    if rows[j].parent != p {
      BelowTrans(rows, rows[j].parent, p, c);
    }
  }

  lemma {:induction false} BelowSmaller(rows: seq<Row>, j: nat, k: nat)
    requires Forest(rows) && j < |rows| && Below(rows, j, k)
    ensures k < j
    decreases j
  {
    if rows[j].parent != k {
      BelowSmaller(rows, rows[j].parent, k);
    }
  }

  lemma {:induction false} ReachesBelow(rows: seq<Row>, fates: seq<Fate>, j: nat, k: nat)
    requires Forest(rows) && j < |rows| == |fates| && Reaches(rows, fates, j, k)
    ensures Below(rows, j, k) && k < j
    decreases j
  {
    if rows[j].parent != k {
      ReachesBelow(rows, fates, rows[j].parent, k);
    }
  }

  /** One more row that is gone extends the way up. */
  lemma {:induction false} ReachesOn(rows: seq<Row>, fates: seq<Fate>, j: nat, c: nat, k: nat)
    requires Forest(rows) && j < |rows| == |fates| && c < |rows| && Reaches(rows, fates, j, c)
    requires !fates[c].Kept? && Reaches(rows, fates, c, k)
    ensures Reaches(rows, fates, j, k)
    decreases j
  {
    ReachesBelow(rows, fates, c, k);
    if rows[j].parent != c {
      ReachesOn(rows, fates, rows[j].parent, c, k);
    }
  }

  /** A row that reaches `i` is its child or reaches a child that is gone. */
  lemma {:induction false} ReachesVia(rows: seq<Row>, fates: seq<Fate>, j: nat, i: nat) returns (c: nat)
    requires Forest(rows) && j < |rows| == |fates| && Reaches(rows, fates, j, i) && rows[j].parent != i
    ensures c < |rows| && rows[c].parent == i && !fates[c].Kept? && Reaches(rows, fates, j, c)
    decreases j
  {
    var p := rows[j].parent;
    if rows[p].parent == i {
      c := p;
    } else {
      c := ReachesVia(rows, fates, p, i);
      ReachesBelow(rows, fates, p, c);
    }
  }

  /** Of two rows reached, the lower is gone and reaches the upper. */
  lemma {:induction false} ReachesBetween(rows: seq<Row>, fates: seq<Fate>, j: nat, i: nat, k: nat)
    requires Forest(rows) && j < |rows| == |fates| && i < k < |rows|
    requires Reaches(rows, fates, j, i) && Reaches(rows, fates, j, k)
    ensures !fates[k].Kept? && Reaches(rows, fates, k, i) && rows[k].parent >= i
    decreases j
  {
    if rows[j].parent != k {
      ReachesBelow(rows, fates, rows[j].parent, k);
      ReachesBetween(rows, fates, rows[j].parent, i, k);
    }
  }

  // ---- One visit keeps the invariant ----

  lemma {:induction false} SpliceMembers(chain: seq<nat>, kids: seq<seq<nat>>, fates: seq<Fate>)
    requires Sound(kids, |fates|) && Within(chain, |fates|)
    ensures forall x :: x in Splice(chain, kids, fates)
                   <==> exists c <- chain :: if fates[c].Kept? then x == c else x in kids[c]
  {
    if chain != [] {
      SpliceMembers(chain[1..], kids, fates);
      forall x ensures x in Splice(chain, kids, fates)
                  <==> exists c <- chain :: if fates[c].Kept? then x == c else x in kids[c]
      {
        assert forall c :: c in chain <==> c == chain[0] || c in chain[1..];
      }
    }
  }

  /** Spliced pieces stay in order because subtrees are contiguous. */
  lemma {:induction false} SpliceAscends(rows: seq<Row>, st: State, i: nat, chain: seq<nat>)
    requires Preorder(rows) && Inv(rows, st, i + 1) && i < |rows|
    requires Within(chain, |rows|) && Ascending(chain) && forall c <- chain :: rows[c].parent == i
    ensures Ascending(Splice(chain, st.kids, st.fates))
  {
    if chain != [] {
      var c, rest := chain[0], chain[1..];
      SpliceAscends(rows, st, i, rest);
      SpliceMembers(rest, st.kids, st.fates);
      var head := if st.fates[c].Kept? then [c] else st.kids[c];
      assert c in chain;
      assert !st.fates[c].Kept? ==> c > i && Live(rows, st.fates, c, i + 1) && Hangs(rows, st.fates, st.kids[c], c);
      forall x, y | x in head && y in Splice(rest, st.kids, st.fates) ensures x < y {
        var d :| d in rest && if st.fates[d].Kept? then y == d else y in st.kids[d];
        assert d in chain && c < d;
        if !st.fates[d].Kept? {
          assert Live(rows, st.fates, d, i + 1) && Hangs(rows, st.fates, st.kids[d], d);
          ReachesBelow(rows, st.fates, y, d);
        }
        if !st.fates[c].Kept? && x >= d {
          ReachesBelow(rows, st.fates, x, c);
          Contiguous(rows, c, d, x);
        }
      }
      AscendingAppend(head, Splice(rest, st.kids, st.fates));
    }
  }

  /** Splicing leaves exactly the kept rows that hang below `i`. */
  lemma SpliceHangs(rows: seq<Row>, st: State, i: nat)
    requires Preorder(rows) && i < |rows| && Inv(rows, st, i + 1)
    ensures Hangs(rows, st.fates, Splice(st.kids[i], st.kids, st.fates), i)
  {
    var chain := st.kids[i];
    var spliced := Splice(chain, st.kids, st.fates);
    assert Untouched(rows, chain, i);
    SpliceAscends(rows, st, i, chain);
    SpliceMembers(chain, st.kids, st.fates);
    forall j: nat ensures j in spliced <==> j < |rows| && st.fates[j].Kept? && Reaches(rows, st.fates, j, i) {
      if j in spliced {
        var c :| c in chain && if st.fates[c].Kept? then j == c else j in st.kids[c];
        if !st.fates[c].Kept? {
          assert Live(rows, st.fates, c, i + 1) && Hangs(rows, st.fates, st.kids[c], c);
          ReachesOn(rows, st.fates, j, c, i);
        }
      }
      if j < |rows| && st.fates[j].Kept? && Reaches(rows, st.fates, j, i) {
        if rows[j].parent == i {
          assert j in chain;
        } else {
          var c := ReachesVia(rows, st.fates, j, i);
          assert c in chain && Live(rows, st.fates, c, i + 1) && Hangs(rows, st.fates, st.kids[c], c);
        }
      }
    }
  }

  /** A dropped run: leaf prose rows of the chain whose texts repeat `own`. */
  ghost predicate DroppedRun(rows: seq<Row>, st: State, own: string, chain: seq<nat>, run: seq<nat>)
    requires |rows| == |st.kids|
  {
    && Within(run, |rows|) && (forall x <- run :: x in chain && LeafProse(rows, st, x))
    && Repeats(own, Texts(rows, run))
  }

  lemma CollapseFrom(rows: seq<Row>, st: State, own: string, rest: seq<nat>)
    requires |rows| == |st.kids| && Within(rest, |rows|) && rest != [] && own != ""
    ensures var n := RunLength(rows, st, rest);
            var cut := if n == 0 then 1 else n;
            var (kept, runs) := Collapse(rows, st, own, rest[cut..]);
            Collapse(rows, st, own, rest)
              == if n > 0 && Repeats(own, Texts(rows, rest[..n])) then (kept, [rest[..n]] + runs)
                 else (rest[..cut] + kept, runs)
  {
    assert rest[..1] == [rest[0]];
  }

  /** `kept` and the runs split a chain between them, and `kept` is in order. */
  ghost predicate Split(chain: seq<nat>, kept: seq<nat>, runs: seq<seq<nat>>) {
    Ascending(kept) && forall x: nat :: x in kept <==> x in chain && RunWith(runs, x).None?
  }

  lemma SplitMore(head: seq<nat>, rest: seq<nat>, kept: seq<nat>, runs: seq<seq<nat>>, drops: bool)
    requires Split(rest, kept, runs) && Ascending(head) && forall x, y :: x in head && y in rest ==> x < y
    requires forall run <- runs :: forall x <- run :: x in rest
    ensures Split(head + rest, if drops then kept else head + kept, if drops then [head] + runs else runs)
  {
    AscendingAppend(head, kept);
    forall x: nat ensures RunWith([head] + runs, x).None? <==> x !in head && RunWith(runs, x).None? {
      RunWithHead(head, runs, x);
    }
    forall x | x in head ensures RunWith(runs, x).None? && x !in rest {
    }
    hide RunWith, Ascending;
  }

  lemma RunWithHead(head: seq<nat>, later: seq<seq<nat>>, x: nat)
    ensures RunWith([head] + later, x) == if x in head then Some(head) else RunWith(later, x)
  {
    assert ([head] + later)[1..] == later;
  }

  /** What Collapse makes of a chain. */
  function Collapsed(rows: seq<Row>, st: State, own: string, chain: seq<nat>): (r: (seq<nat>, seq<seq<nat>>))
    requires |rows| == |st.kids| && Within(chain, |rows|)
  {
    Collapse(rows, st, own, chain)
  }

  /** One step over a chain: what is cut off in front, and whether it is dropped as a run that repeats `own`. */
  lemma FirstCut(rows: seq<Row>, st: State, own: string, chain: seq<nat>) returns (cut: nat, drops: bool)
    requires |rows| == |st.kids| && Within(chain, |rows|) && chain != [] && own != ""
    ensures 0 < cut <= |chain| && Within(chain[cut..], |rows|)
    ensures var later := Collapsed(rows, st, own, chain[cut..]);
      Collapsed(rows, st, own, chain)
      == if drops then (later.0, [chain[..cut]] + later.1) else (chain[..cut] + later.0, later.1)
    ensures drops ==> DroppedRun(rows, st, own, chain, chain[..cut])
    ensures var n := RunLength(rows, st, chain);
      cut == (if n == 0 then 1 else n) && drops == (n > 0 && RepeatedBy(rows, own, chain[..n]))
  {
    var n := RunLength(rows, st, chain);
    CollapseFrom(rows, st, own, chain);
    cut, drops := if n == 0 then 1 else n, n > 0 && Repeats(own, Texts(rows, chain[..n]));
    hide Repeats, LeafProse;
    assert drops ==> forall x <- chain[..n] :: x in chain && LeafProse(rows, st, x);
  }

  predicate RepeatedBy(rows: seq<Row>, own: string, run: seq<nat>)
    requires Within(run, |rows|)
  {
    Repeats(own, Texts(rows, run))
  }

  /** The kept rows and the dropped runs split the chain, and every run is dropped for its text. */
  ghost predicate SplitOf(rows: seq<Row>, st: State, own: string, chain: seq<nat>, r: (seq<nat>, seq<seq<nat>>))
    requires |rows| == |st.kids|
  {
    Split(chain, r.0, r.1) && forall run <- r.1 :: DroppedRun(rows, st, own, chain, run)
  }

  lemma SplitOfMore(rows: seq<Row>, st: State, own: string, chain: seq<nat>, cut: nat, drops: bool,
                    later: (seq<nat>, seq<seq<nat>>))
    requires |rows| == |st.kids| && cut <= |chain| && Ascending(chain) && SplitOf(rows, st, own, chain[cut..], later)
    requires drops ==> DroppedRun(rows, st, own, chain, chain[..cut])
    ensures SplitOf(rows, st, own, chain,
                    if drops then (later.0, [chain[..cut]] + later.1) else (chain[..cut] + later.0, later.1))
  {
    var head, rest := chain[..cut], chain[cut..];
    HeadApart(chain, cut);
    assert chain == head + rest;
    hide Repeats, LeafProse, Split, Ascending;
    forall run | run in later.1
      ensures DroppedRun(rows, st, own, chain, run) && forall x <- run :: x in rest
    {
      assert DroppedRun(rows, st, own, rest, run);
    }
    SplitMore(head, rest, later.0, later.1, drops);
  }

  lemma {:induction false} CollapsedSplits(rows: seq<Row>, st: State, own: string, chain: seq<nat>)
    requires |rows| == |st.kids| && Within(chain, |rows|) && Ascending(chain)
    ensures SplitOf(rows, st, own, chain, Collapsed(rows, st, own, chain))
    decreases |chain|
  {
    if chain != [] && own != "" {
      hide Collapsed, SplitOf, DroppedRun, RepeatedBy;
      var cut, drops := FirstCut(rows, st, own, chain);
      HeadApart(chain, cut);
      hide Ascending;
      CollapsedSplits(rows, st, own, chain[cut..]);
      SplitOfMore(rows, st, own, chain, cut, drops, Collapsed(rows, st, own, chain[cut..]));
    }
  }

  lemma CollapseSplits(rows: seq<Row>, st: State, own: string, chain: seq<nat>)
    requires |rows| == |st.kids| && Within(chain, |rows|) && Ascending(chain)
    ensures var (kept, runs) := Collapse(rows, st, own, chain);
            && Ascending(kept) && (forall x :: x in kept <==> x in chain && RunWith(runs, x).None?)
            && (forall run <- runs :: DroppedRun(rows, st, own, chain, run))
  {
    CollapsedSplits(rows, st, own, chain);
    hide DroppedRun, Ascending;
  }

  /** A run of leaf prose that neither its predecessor nor its successor continues. */
  predicate MaximalRun(rows: seq<Row>, st: State, chain: seq<nat>, a: nat, b: nat)
    requires |rows| == |st.kids| && Within(chain, |rows|)
  {
    && a < b <= |chain| && (forall t: nat :: a <= t < b ==> LeafProse(rows, st, chain[t]))
    && (a > 0 ==> !LeafProse(rows, st, chain[a - 1])) && (b < |chain| ==> !LeafProse(rows, st, chain[b]))
  }

  /** The dropped run of a chain that holds a row. */
  function RunAt(rows: seq<Row>, st: State, own: string, chain: seq<nat>, x: nat): Option<seq<nat>>
    requires |rows| == |st.kids| && Within(chain, |rows|)
  {
    RunWith(Collapsed(rows, st, own, chain).1, x)
  }

  /** A maximal run of a chain is one of what is left when rows in front of it are cut off. */
  lemma CutRun(rows: seq<Row>, st: State, chain: seq<nat>, a: nat, b: nat, cut: nat)
    requires |rows| == |st.kids| && Within(chain, |rows|) && MaximalRun(rows, st, chain, a, b) && cut <= a
    ensures Within(chain[cut..], |rows|) && MaximalRun(rows, st, chain[cut..], a - cut, b - cut)
    ensures chain[cut..][a - cut..b - cut] == chain[a..b]
  {
    hide LeafProse;
    var rest := chain[cut..];
    assert forall t :: 0 <= t < |rest| ==> rest[t] == chain[cut + t];
    forall t: nat | a - cut <= t < b - cut ensures LeafProse(rows, st, rest[t]) {
      assert LeafProse(rows, st, chain[cut + t]);
    }
    assert a > cut ==> rest[a - cut - 1] == chain[a - 1];
    assert b < |chain| ==> rest[b - cut] == chain[b];
  }

  /** The first step over a chain decides for the rows it takes. */
  lemma FirstStep(rows: seq<Row>, st: State, own: string, chain: seq<nat>, x: nat)
    returns (cut: nat, drops: bool)
    requires |rows| == |st.kids| && Within(chain, |rows|) && own != "" && chain != []
    ensures var n := RunLength(rows, st, chain);
      cut == (if n == 0 then 1 else n) && drops == (n > 0 && RepeatedBy(rows, own, chain[..n]))
    ensures RunAt(rows, st, own, chain, x)
         == if drops && x in chain[..cut] then Some(chain[..cut]) else RunAt(rows, st, own, chain[cut..], x)
  {
    hide Collapsed, RepeatedBy, DroppedRun;
    cut, drops := FirstCut(rows, st, own, chain);
    RunWithHead(chain[..cut], Collapsed(rows, st, own, chain[cut..]).1, x);
  }

  /** The leading run is the whole of a maximal run at the front, and ends before any other. */
  lemma LeadingRun(rows: seq<Row>, st: State, chain: seq<nat>, a: nat, b: nat)
    requires |rows| == |st.kids| && Within(chain, |rows|) && MaximalRun(rows, st, chain, a, b)
    ensures var n := RunLength(rows, st, chain); if a == 0 then n == b else n < a
  {
    RunLengthStops(rows, st, chain);
    hide LeafProse;
  }

  lemma NotInRuns(rows: seq<Row>, st: State, own: string, chain: seq<nat>, x: nat)
    requires |rows| == |st.kids| && Within(chain, |rows|) && Ascending(chain) && x !in chain
    ensures RunAt(rows, st, own, chain, x) == None
  {
    CollapsedSplits(rows, st, own, chain);
    hide Collapsed, Ascending, Split;
  }

  /** Every maximal run is dropped whole if it repeats the parent's text, and stays whole if not. */
  lemma {:induction false} CollapseRun(rows: seq<Row>, st: State, own: string, chain: seq<nat>, a: nat, b: nat, x: nat)
    requires |rows| == |st.kids| && Within(chain, |rows|) && Ascending(chain) && own != ""
    requires MaximalRun(rows, st, chain, a, b) && x in chain[a..b]
    ensures RunAt(rows, st, own, chain, x) == if RepeatedBy(rows, own, chain[a..b]) then Some(chain[a..b]) else None
    decreases |chain|
  {
    hide *;
    RunBounds(rows, st, chain, a, b);
    var cut, drops := FirstStep(rows, st, own, chain, x);
    LeadingRun(rows, st, chain, a, b);
    HeadApart(chain, cut);
    SlicesApart(chain, a, b, cut, x);
    WithinTail(chain, cut, |rows|);
    var rest := chain[cut..];
    if a == 0 {
      assert chain[a..b] == chain[..cut];
      NotInRuns(rows, st, own, rest, x);
    } else {
      CutRun(rows, st, chain, a, b, cut);
      CollapseRun(rows, st, own, rest, a - cut, b - cut, x);
    }
  }

  lemma RunBounds(rows: seq<Row>, st: State, chain: seq<nat>, a: nat, b: nat)
    requires |rows| == |st.kids| && Within(chain, |rows|) && MaximalRun(rows, st, chain, a, b)
    ensures a < b <= |chain|
  {
  }

  lemma WithinTail(chain: seq<nat>, cut: nat, n: nat)
    requires Within(chain, n) && cut <= |chain|
    ensures Within(chain[cut..], n)
  {
  }

  lemma SlicesApart(chain: seq<nat>, a: nat, b: nat, cut: nat, x: nat)
    requires a < b <= |chain| && x in chain[a..b] && Ascending(chain) && (if a == 0 then cut == b else cut <= a)
    ensures x in chain
    ensures if a == 0 then x in chain[..cut] && x !in chain[cut..] else x !in chain[..cut]
  {
    var t :| a <= t < b && chain[t] == x;
    assert a == 0 ==> chain[..cut][t] == x;
  }

  lemma HeadApart(chain: seq<nat>, cut: nat)
    requires cut <= |chain| && Ascending(chain)
    ensures Ascending(chain[..cut]) && Ascending(chain[cut..])
    ensures forall x, y :: x in chain[..cut] && y in chain[cut..] ==> x < y
    ensures forall x :: x in chain <==> x in chain[..cut] || x in chain[cut..]
  {
    assert chain == chain[..cut] + chain[cut..];
  }

  /** Dropping leaves with nothing below them opens no new way up. */
  lemma {:induction false} ReachesSame(rows: seq<Row>, fates: seq<Fate>, after: seq<Fate>, x: nat, y: nat, k: nat)
    requires Forest(rows) && |rows| == |fates| == |after| && x < |rows| && y < |rows|
    requires fates[x].Kept? && Reaches(rows, fates, x, y) && y > k
    requires forall d: nat | d < |rows| && fates[d].Kept? && !after[d].Kept? :: !Reaches(rows, fates, x, d)
    requires !after[y].Kept? && Reaches(rows, after, y, k)
    ensures Reaches(rows, fates, x, k)
    decreases y
  {
    var p := rows[y].parent;
    assert !fates[y].Kept?;
    if p == k {
      ReachesOn(rows, fates, x, y, k);
    } else {
      ReachesOn(rows, fates, x, y, p);
      ReachesSame(rows, fates, after, x, p, k);
    }
  }

  lemma {:induction false} ReachesMore(rows: seq<Row>, fates: seq<Fate>, after: seq<Fate>, x: nat, k: nat)
    requires Forest(rows) && |rows| == |fates| == |after| && x < |rows|
    requires forall d: nat | k < d < |rows| :: after[d].Kept? ==> fates[d].Kept?
    requires Reaches(rows, fates, x, k)
    ensures Reaches(rows, after, x, k)
    decreases x
  {
    if rows[x].parent != k {
      ReachesMore(rows, fates, after, rows[x].parent, k);
    }
  }

  /** The fates of rows up to `k` do not matter for reaching `k`. */
  lemma {:induction false} ReachesLocal(rows: seq<Row>, fates: seq<Fate>, after: seq<Fate>, x: nat, k: nat)
    requires Forest(rows) && |rows| == |fates| == |after| && x < |rows|
    requires forall d: nat | k < d < |rows| :: after[d].Kept? <==> fates[d].Kept?
    ensures Reaches(rows, fates, x, k) <==> Reaches(rows, after, x, k)
    decreases x
  {
    if rows[x].parent > k {
      ReachesLocal(rows, fates, after, rows[x].parent, k);
    }
  }

  /** After runs are dropped from the chain of `i`, a chain without dropped rows still hangs where it did. */
  lemma HangsAfterRuns(rows: seq<Row>, st: State, i: nat, runs: seq<seq<nat>>, chain: seq<nat>, left: seq<nat>, k: nat)
    requires Forest(rows) && Sized(rows, st) && i < |rows| && k < |rows| && Hangs(rows, st.fates, chain, k)
    requires Ascending(left) && forall x: nat :: x in left <==> x in chain && RunWith(runs, x).None?
    requires forall d: nat | d < |rows| && RunWith(runs, d).Some? ::
               forall x: nat | x < |rows| && st.fates[x].Kept? :: !Reaches(rows, st.fates, x, d)
    ensures Hangs(rows, AfterRuns(st.fates, i, runs), left, k)
  {
    var after := AfterRuns(st.fates, i, runs);
    forall j: nat ensures j in left <==> j < |rows| && after[j].Kept? && Reaches(rows, after, j, k) {
      if j < |rows| && st.fates[j].Kept? {
        if Reaches(rows, st.fates, j, k) {
          ReachesMore(rows, st.fates, after, j, k);
        } else if Reaches(rows, after, j, k) {
          var p := rows[j].parent;
          ReachesSame(rows, st.fates, after, j, p, k);
        }
      }
    }
  }

  /** Covering `i` itself changes nothing for the rows from `i` on. */
  lemma HangsAfterCovered(rows: seq<Row>, fates: seq<Fate>, after: seq<Fate>, i: nat, chain: seq<nat>, k: nat)
    requires Forest(rows) && |rows| == |fates| && i <= k < |rows| && Hangs(rows, fates, chain, k)
    requires after == fates || after == fates[i := Covered]
    ensures Hangs(rows, after, chain, k)
  {
    forall j: nat ensures j in chain <==> j < |rows| && after[j].Kept? && Reaches(rows, after, j, k) {
      if j < |rows| {
        ReachesLocal(rows, fates, after, j, k);
        if Reaches(rows, fates, j, k) {
          ReachesBelow(rows, fates, j, k);
        }
      }
    }
  }

  /** What a dropped row is: kept so far, below `i`, with nothing below itself. */
  lemma DroppedIsLeaf(rows: seq<Row>, st: State, i: nat, d: nat)
    requires Preorder(rows) && i < |rows| && Inv(rows, st, i + 1) && d < |rows|
    requires RunWith(Runs(rows, st, i), d).Some?
    ensures st.fates[d].Kept? && Reaches(rows, st.fates, d, i) && d > i
    ensures forall x: nat | x < |rows| && st.fates[x].Kept? :: !Reaches(rows, st.fates, x, d)
  {
    var chain := Splice(st.kids[i], st.kids, st.fates);
    var runs := Collapse(rows, st, Own(rows[i]), chain).1;
    SpliceHangs(rows, st, i);
    CollapseSplits(rows, st, Own(rows[i]), chain);
    var run := RunWith(runs, d).value;
    assert DroppedRun(rows, st, Own(rows[i]), chain, run);
    assert d in chain && LeafProse(rows, st, d);
    ReachesBelow(rows, st.fates, d, i);
    assert Live(rows, st.fates, d, i + 1) && Hangs(rows, st.fates, st.kids[d], d);
  }

  /** All that one visit needs to know about the chain, what stays of it and what is dropped. */
  lemma VisitFacts(rows: seq<Row>, st: State, i: nat)
    requires Preorder(rows) && i < |rows| && Inv(rows, st, i + 1)
    ensures var chain := Splice(st.kids[i], st.kids, st.fates);
            var (kept, runs) := Collapse(rows, st, Own(rows[i]), chain);
            && Hangs(rows, st.fates, chain, i)
            && Ascending(kept) && (forall x: nat :: x in kept <==> x in chain && RunWith(runs, x).None?)
    ensures forall d: nat | d < |rows| && RunWith(Runs(rows, st, i), d).Some? ::
              && st.fates[d].Kept? && Reaches(rows, st.fates, d, i) && d > i
              && forall x: nat | x < |rows| && st.fates[x].Kept? :: !Reaches(rows, st.fates, x, d)
  {
    SpliceHangs(rows, st, i);
    CollapseSplits(rows, st, Own(rows[i]), Splice(st.kids[i], st.kids, st.fates));
    forall d: nat | d < |rows| && RunWith(Runs(rows, st, i), d).Some?
      ensures st.fates[d].Kept? && Reaches(rows, st.fates, d, i) && d > i
      ensures forall x: nat | x < |rows| && st.fates[x].Kept? :: !Reaches(rows, st.fates, x, d)
    {
      DroppedIsLeaf(rows, st, i, d);
    }
  }

  lemma StepHangs(rows: seq<Row>, st: State, i: nat, k: nat)
    requires Preorder(rows) && i < |rows| && Inv(rows, st, i + 1)
    requires k < |rows| && Live(rows, Step(rows, st, i).fates, k, i)
    ensures Hangs(rows, Step(rows, st, i).fates, Step(rows, st, i).kids[k], k)
  {
    hide Collapse, Splice, Join, Covers, Preorder, Reaches;
    var next := Step(rows, st, i);
    var chain := Splice(st.kids[i], st.kids, st.fates);
    var (kept, runs) := Collapse(rows, st, Own(rows[i]), chain);
    VisitFacts(rows, st, i);
    if k == i {
      HangsAfterRuns(rows, st, i, runs, chain, kept, i);
    } else {
      assert Live(rows, st.fates, k, i + 1);
      forall x: nat | x in st.kids[k] ensures RunWith(runs, x).None? {
        if RunWith(runs, x).Some? {
          ReachesBetween(rows, st.fates, x, i, k);
        }
      }
      HangsAfterRuns(rows, st, i, runs, st.kids[k], st.kids[k], k);
    }
    HangsAfterCovered(rows, AfterRuns(st.fates, i, runs), next.fates, i, next.kids[k], k);
  }

  lemma StepInv(rows: seq<Row>, st: State, i: nat)
    requires Preorder(rows) && i < |rows| && Inv(rows, st, i + 1)
    ensures Inv(rows, Step(rows, st, i), i)
  {
    hide Hangs, Untouched, Collapse, Splice, Join, Covers, Preorder;
    var next := Step(rows, st, i);
    forall k: nat | k < |rows| && Live(rows, next.fates, k, i) ensures Hangs(rows, next.fates, next.kids[k], k) {
      StepHangs(rows, st, i, k);
    }
    forall k: nat | k < i ensures next.fates[k].Kept? && Untouched(rows, next.kids[k], k) {
      if RunWith(Runs(rows, st, i), k).Some? {
        DroppedIsLeaf(rows, st, i, k);
      }
    }
  }

  // ---- Why rows go ----

  ghost predicate Justified(rows: seq<Row>, st: State, j: nat)
    requires Sized(rows, st) && j < |rows|
  {
    match st.fates[j]
    case Kept => true
    case Covered =>
      ProseRow(rows[j]) && rows[j].parts.Some? && st.rendered[j] != ""
      && Covers(rows[j].parts.value, rows[j].partial, st.rendered[j])
    case Repeated(owner, run) =>
      && j in run && owner < j && owner < |rows| && Within(run, |rows|)
      && Spells(Own(rows[owner]), Texts(rows, run))
      && forall x <- run :: ProseRow(rows[x]) && st.fates[x] == st.fates[j]
  }

  lemma {:induction false} RunsApart(rows: seq<Row>, st: State, own: string, chain: seq<nat>, j: nat)
    requires |rows| == |st.kids| && Within(chain, |rows|) && Ascending(chain)
    ensures var runs := Collapse(rows, st, own, chain).1;
            RunWith(runs, j).Some? ==> forall x <- RunWith(runs, j).value :: RunWith(runs, x) == RunWith(runs, j)
    decreases |chain|
  {
    if chain != [] && own != "" {
      var n := RunLength(rows, st, chain);
      var cut := if n == 0 then 1 else n;
      var rest := chain[cut..];
      HeadApart(chain, cut);
      RunsApart(rows, st, own, rest, j);
      CollapseSplits(rows, st, own, rest);
      var runsRest := Collapse(rows, st, own, rest).1;
      if RunWith(runsRest, j).Some? {
        assert DroppedRun(rows, st, own, rest, RunWith(runsRest, j).value);
      }
    }
  }

  lemma DroppedJustified(rows: seq<Row>, st: State, i: nat, j: nat)
    requires Preorder(rows) && i < |rows| && j < |rows| && Inv(rows, st, i + 1)
    requires RunWith(Runs(rows, st, i), j).Some?
    ensures Justified(rows, Step(rows, st, i), j)
  {
    hide Collapse, Splice, Join, Covers, Preorder, Hangs, Untouched, Texts;
    var next := Step(rows, st, i);
    var chain := Splice(st.kids[i], st.kids, st.fates);
    var run := RunWith(Runs(rows, st, i), j).value;
    VisitFacts(rows, st, i);
    CollapseSplits(rows, st, Own(rows[i]), chain);
    RunsApart(rows, st, Own(rows[i]), chain, j);
    assert DroppedRun(rows, st, Own(rows[i]), chain, run);
    RepeatsSpells(Own(rows[i]), Texts(rows, run));
    forall x | x in run ensures ProseRow(rows[x]) && next.fates[x] == next.fates[j] {
      assert RunWith(Runs(rows, st, i), x) == Some(run);
    }
  }

  lemma VisitedJustified(rows: seq<Row>, st: State, i: nat)
    requires i < |rows| && Sized(rows, st) && st.fates[i].Kept? && RunWith(Runs(rows, st, i), i).None?
    ensures Justified(rows, Step(rows, st, i), i)
  {
    hide Splice, Collapse, Join, Covers;
  }

  lemma OthersJustified(rows: seq<Row>, st: State, i: nat, j: nat)
    requires i < |rows| && j < |rows| && j != i && Sized(rows, st) && st.fates[i].Kept? && Justified(rows, st, j)
    requires forall x: nat | x < |rows| && RunWith(Runs(rows, st, i), x).Some? :: st.fates[x].Kept?
    requires RunWith(Runs(rows, st, i), j).None?
    ensures Justified(rows, Step(rows, st, i), j)
  {
    hide Splice, Collapse, Join, Covers, Texts, Spells;
  }

  lemma StepJustified(rows: seq<Row>, st: State, i: nat)
    requires Preorder(rows) && i < |rows| && Inv(rows, st, i + 1)
    requires forall j: nat | j < |rows| :: Justified(rows, st, j)
    ensures forall j: nat | j < |rows| :: Justified(rows, Step(rows, st, i), j)
  {
    hide Preorder, Justified, Runs;
    forall x: nat | x < |rows| && RunWith(Runs(rows, st, i), x).Some? ensures st.fates[x].Kept? && x > i {
      DroppedIsLeaf(rows, st, i, x);
    }
    forall j: nat | j < |rows| ensures Justified(rows, Step(rows, st, i), j) {
      if RunWith(Runs(rows, st, i), j).Some? {
        DroppedJustified(rows, st, i, j);
      } else if j == i {
        VisitedJustified(rows, st, i);
      } else {
        OthersJustified(rows, st, i, j);
      }
    }
  }

  // ---- The whole pass ----

  /** After the rows from `i` on have been visited, last row first. */
  ghost function Visit(rows: seq<Row>, i: nat): (st: State)
    requires i <= |rows|
    ensures Sized(rows, st)
    decreases |rows| - i
  {
    if i == |rows| then Initial(rows) else Step(rows, Visit(rows, i + 1), i)
  }

  /** The text kept for row `k` is its own text beside that of the rows below it; a covered row leaves only theirs. */
  ghost predicate Renders(rows: seq<Row>, st: State, k: nat)
    requires Sized(rows, st) && k < |rows|
  {
    var below := Join(st.rendered, st.kids[k], "");
    && (forall t :: 0 <= t < |st.kids[k]| ==> st.kids[k][t] > k)
    && st.rendered[k] == if st.fates[k].Covered? then below else Beside(Own(rows[k]), below)
  }

  lemma {:induction false} JoinSame(rendered: seq<string>, after: seq<string>, chain: seq<nat>, before: string)
    requires Within(chain, |rendered|) && |rendered| == |after|
    requires forall t :: 0 <= t < |chain| ==> rendered[chain[t]] == after[chain[t]]
    ensures Join(rendered, chain, before) == Join(after, chain, before)
    decreases |chain|
  {
    if chain != [] {
      var text := rendered[chain[0]];
      JoinSame(rendered, after, chain[1..],
               if text == "" then before else before + (if before != "" then " " else "") + text);
    }
  }

  lemma StepRenders(rows: seq<Row>, st: State, i: nat, k: nat)
    requires Preorder(rows) && i <= k < |rows| && Inv(rows, st, i + 1) && (k > i ==> Renders(rows, st, k))
    ensures Renders(rows, Step(rows, st, i), k)
  {
    hide Collapse, Splice, Join, Covers, Preorder, Own, Beside;
    var next := Step(rows, st, i);
    VisitFacts(rows, st, i);
    if k == i {
      forall t | 0 <= t < |next.kids[i]| ensures next.kids[i][t] > i {
        var x := next.kids[i][t];
        assert x in next.kids[i];
        ReachesBelow(rows, st.fates, x, i);
      }
    }
    JoinSame(st.rendered, next.rendered, next.kids[k], "");
  }

  lemma {:induction false} VisitRenders(rows: seq<Row>, i: nat, k: nat)
    requires Preorder(rows) && i <= k < |rows|
    ensures Renders(rows, Visit(rows, i), k)
    decreases |rows| - i
  {
    hide Inv, Renders, Step;
    VisitKeeps(rows, i + 1);
    if k > i {
      VisitRenders(rows, i + 1, k);
    }
    StepRenders(rows, Visit(rows, i + 1), i, k);
  }

  lemma {:induction false} VisitKeeps(rows: seq<Row>, i: nat)
    requires Preorder(rows) && i <= |rows|
    ensures Inv(rows, Visit(rows, i), i)
    ensures forall j: nat | j < |rows| :: Justified(rows, Visit(rows, i), j)
    decreases |rows| - i
  {
    hide Inv, Justified, Step;
    if i == |rows| {
      InitialInv(rows);
      forall j: nat | j < |rows| ensures Justified(rows, Visit(rows, i), j) {
        KeptJustified(rows, Visit(rows, i), j);
      }
    } else {
      VisitKeeps(rows, i + 1);
      StepInv(rows, Visit(rows, i + 1), i);
      StepJustified(rows, Visit(rows, i + 1), i);
    }
  }

  lemma KeptJustified(rows: seq<Row>, st: State, j: nat)
    requires Sized(rows, st) && j < |rows| && st.fates[j].Kept?
    ensures Justified(rows, st, j)
  {
  }

  /** The nearest ancestor that stays, or -1. */
  function NearestKept(rows: seq<Row>, fates: seq<Fate>, j: nat): (k: int)
    requires j < |rows| == |fates| && forall x :: 0 <= x < |rows| ==> -1 <= rows[x].parent < x
    ensures -1 <= k < j && (k >= 0 ==> fates[k].Kept?)
    decreases j
  {
    var p := rows[j].parent;
    if p < 0 || fates[p].Kept? then p else NearestKept(rows, fates, p)
  }

  lemma {:induction false} ReachesNearest(rows: seq<Row>, fates: seq<Fate>, j: nat, k: nat)
    requires Forest(rows) && j < |rows| == |fates| && k < |rows| && fates[k].Kept?
    ensures Reaches(rows, fates, j, k) <==> NearestKept(rows, fates, j) == k
    decreases j
  {
    var p := rows[j].parent;
    if p > k && !fates[p].Kept? {
      ReachesNearest(rows, fates, p, k);
    }
  }

  /** The rewired chains are acyclic, ordered and complete: the chain of a kept row lists, in order, exactly the kept
      rows whose nearest kept ancestor it is. */
  lemma ChainsAreChildren(rows: seq<Row>, k: nat)
    requires Preorder(rows) && k < |rows| && Visit(rows, 0).fates[k].Kept?
    ensures var st := Visit(rows, 0);
            && Ascending(st.kids[k])
            && forall j: nat :: j in st.kids[k]
                 <==> j < |rows| && st.fates[j].Kept? && NearestKept(rows, st.fates, j) == k
  {
    hide Visit;
    VisitKeeps(rows, 0);
    var st := Visit(rows, 0);
    assert Live(rows, st.fates, k, 0) && Hangs(rows, st.fates, st.kids[k], k);
    forall j: nat | j < |rows| ensures Reaches(rows, st.fates, j, k) <==> NearestKept(rows, st.fates, j) == k {
      ReachesNearest(rows, st.fates, j, k);
    }
  }

  /** Only prose goes, and only for a reason: its parts are covered by what its children say, or its run of siblings
      spells the text of a row above. */
  lemma RowsGoForAReason(rows: seq<Row>, j: nat)
    requires Preorder(rows) && j < |rows|
    ensures var st := Visit(rows, 0);
            && Justified(rows, st, j)
            && (rows[j].control || rows[j].role !in {"static", "paragraph", "heading"} ==> st.fates[j].Kept?)
  {
    hide Visit;
    OwnTells(rows[j], Own(rows[j]));
    VisitKeeps(rows, 0);
    assert Justified(rows, Visit(rows, 0), j);
  }

  // ---- Which runs go ----

  /** From one visit on, a row that is gone stays gone as it went, and one that is kept can go later only as a covered
      row or with a run of a row above. */
  ghost predicate LaterFate(was: Fate, now: Fate, i: nat) {
    if was.Kept? then now.Repeated? ==> now.owner < i else now == was
  }

  /** The fate a visit gives to a row: that of its run, or Covered for the row visited, or the one it had. */
  lemma StepFateIs(rows: seq<Row>, st: State, i: nat, j: nat)
    requires Sized(rows, st) && i < |rows| && j < |rows|
    ensures var now, found := Step(rows, st, i).fates[j], RunWith(Runs(rows, st, i), j);
      (now == if found.Some? then Repeated(i, found.value) else st.fates[j]) || (j == i && now == Covered)
  {
    hide Splice, Collapse, Join, Covers, RunWith;
  }

  lemma StepFate(rows: seq<Row>, st: State, i: nat, j: nat)
    requires Preorder(rows) && i < |rows| && j < |rows| && Inv(rows, st, i + 1)
    ensures LaterFate(st.fates[j], Step(rows, st, i).fates[j], i + 1)
  {
    StepFateIs(rows, st, i, j);
    if RunWith(Runs(rows, st, i), j).Some? {
      DroppedIsLeaf(rows, st, i, j);
    }
    assert st.fates[i].Kept?;
    hide *;
    FateOfStep(st.fates[j], Step(rows, st, i).fates[j], RunWith(Runs(rows, st, i), j), i, j == i);
  }

  lemma FateOfStep(was: Fate, now: Fate, found: Option<seq<nat>>, i: nat, visited: bool)
    requires (now == if found.Some? then Repeated(i, found.value) else was) || (visited && now == Covered)
    requires found.Some? || visited ==> was.Kept?
    ensures LaterFate(was, now, i + 1)
  {
  }

  lemma LaterTwice(was: Fate, mid: Fate, now: Fate, i: nat, m: nat)
    requires LaterFate(was, mid, i) && LaterFate(mid, now, m) && m <= i
    ensures LaterFate(was, now, i)
  {
  }

  /** The state once the rows from `i` on are visited. */
  ghost function After(rows: seq<Row>, i: nat): (st: State)
    requires i <= |rows|
    ensures Sized(rows, st)
  {
    Visit(rows, i)
  }

  lemma AfterKeeps(rows: seq<Row>, i: nat)
    requires Preorder(rows) && i <= |rows|
    ensures Inv(rows, After(rows, i), i)
  {
    VisitKeeps(rows, i);
    hide Inv, Justified;
  }

  lemma AfterOne(rows: seq<Row>, i: nat)
    requires i < |rows|
    ensures After(rows, i) == Step(rows, After(rows, i + 1), i)
  {
  }

  /** The fate of row `j` once the rows from `i` on are visited. */
  ghost function FateAt(rows: seq<Row>, i: nat, j: nat): Fate
    requires i <= |rows| && j < |rows|
  {
    After(rows, i).fates[j]
  }

  lemma NextFate(rows: seq<Row>, m: nat, j: nat)
    requires Preorder(rows) && m < |rows| && j < |rows|
    ensures LaterFate(FateAt(rows, m + 1, j), FateAt(rows, m, j), m + 1)
  {
    hide After, Step, Inv, Preorder, LaterFate;
    AfterKeeps(rows, m + 1);
    AfterOne(rows, m);
    StepFate(rows, After(rows, m + 1), m, j);
  }

  lemma {:induction false} VisitFate(rows: seq<Row>, i: nat, m: nat, j: nat)
    requires Preorder(rows) && m < i <= |rows| && j < |rows|
    ensures LaterFate(FateAt(rows, i, j), FateAt(rows, m, j), i)
    decreases i - m
  {
    hide *;
    NextFate(rows, m, j);
    if m + 1 < i {
      VisitFate(rows, i, m + 1, j);
      LaterTwice(FateAt(rows, i, j), FateAt(rows, m + 1, j), FateAt(rows, m, j), i, m + 1);
    }
  }

  /** The rows that hang below `i` when it is visited. */
  ghost function ChainAt(rows: seq<Row>, i: nat): (chain: seq<nat>)
    requires i < |rows|
    ensures Within(chain, |rows|)
  {
    var st := After(rows, i + 1);
    Splice(st.kids[i], st.kids, st.fates)
  }

  /** When `i` is visited, row `j` is prose without an element, and nothing hangs below it. */
  ghost predicate LeafAt(rows: seq<Row>, i: nat, j: nat)
    requires i < |rows| && j < |rows|
  {
    !rows[j].control && rows[j].role in {"static", "paragraph", "heading"} && After(rows, i + 1).kids[j] == []
  }

  /** `a` up to `b` is a maximal run of leaf prose below `i` when it is visited. */
  ghost predicate RunBelow(rows: seq<Row>, i: nat, a: nat, b: nat)
    requires i < |rows|
  {
    var chain := ChainAt(rows, i);
    && a < b <= |chain| && (forall t: nat :: a <= t < b ==> LeafAt(rows, i, chain[t]))
    && (a > 0 ==> !LeafAt(rows, i, chain[a - 1])) && (b < |chain| ==> !LeafAt(rows, i, chain[b]))
  }

  lemma RunIsMaximal(rows: seq<Row>, i: nat, a: nat, b: nat)
    requires i < |rows|
    ensures RunBelow(rows, i, a, b) <==> MaximalRun(rows, After(rows, i + 1), ChainAt(rows, i), a, b)
  {
    hide After, ChainAt, ProseRow;
    forall j: nat | j < |rows| ensures LeafAt(rows, i, j) <==> LeafProse(rows, After(rows, i + 1), j) {
      OwnTells(rows[j], Own(rows[j]));
    }
    hide LeafAt, LeafProse;
  }

  predicate SpelledBy(rows: seq<Row>, own: string, run: seq<nat>)
    requires Within(run, |rows|)
  {
    own != "" && RepeatedBy(rows, own, run)
  }

  // ---- The pass, over the fields of the rows ----

  /** The label is cut short or not, and the value begins with what is left of it. */
  ghost predicate BeginsAsLabel(name: string, value: string) {
    exists shown: string ::
      shown != "" && shown <= value && (name == shown + [ELLIPSIS] || (name == shown && name[|name| - 1] != ELLIPSIS))
  }

  /** The text that a row gives: that of prose is its value alone if that stands for the label, and otherwise label and
      value, as far as there are any; any other row gives its label. */
  ghost predicate Tells(row: Row, text: string) {
    var name, value := Given(row.name), Given(row.value);
    if row.control || row.role !in {"static", "paragraph", "heading"} || value == "" then text == name
    else if name == "" || row.role == "paragraph" || BeginsAsLabel(name, value) then text == value
    else text == name + " " + value
  }

  lemma CoversLabel(name: string, value: string)
    requires value != ""
    ensures ValueCoversLabel(name, value, false) <==> BeginsAsLabel(name, value)
  {
    var shown := if name != "" && name[|name| - 1] == ELLIPSIS then name[..|name| - 1] else name;
    if ValueCoversLabel(name, value, false) {
      assert shown != "" && shown <= value;
      assert name == shown + [ELLIPSIS] || (name == shown && name[|name| - 1] != ELLIPSIS);
    }
    if BeginsAsLabel(name, value) {
      var other: string :| other != "" && other <= value
                           && (name == other + [ELLIPSIS] || (name == other && name[|name| - 1] != ELLIPSIS));
      assert other == shown;
    }
  }

  /** What a row's children are compared with, and what a row of a run is compared as. */
  lemma OwnTells(row: Row, text: string)
    ensures Own(row) == text <==> Tells(row, text)
    ensures ProseRow(row) <==> !row.control && row.role in {"static", "paragraph", "heading"}
  {
    var name, value := Given(row.name), Given(row.value);
    if value != "" {
      CoversLabel(name, value);
    }
    hide BeginsAsLabel, Given;
    assert "" + value == value && name + "" == name;
  }

  ghost predicate AllTell(rows: seq<Row>, run: seq<nat>, texts: seq<string>)
    requires Within(run, |rows|)
  {
    |texts| == |run| && forall t :: 0 <= t < |run| ==> Tells(rows[run[t]], texts[t])
  }

  lemma {:induction false} TextsTell(rows: seq<Row>, run: seq<nat>, texts: seq<string>)
    requires Within(run, |rows|) && AllTell(rows, run, texts) && forall t :: 0 <= t < |run| ==> ProseRow(rows[run[t]])
    ensures Texts(rows, run) == texts
    decreases |run|
  {
    hide Tells, ProseText, ProseRow;
    if run != [] {
      TextTells(rows[run[0]], texts[0]);
      TextsTell(rows, run[1..], texts[1..]);
      assert texts == [texts[0]] + texts[1..];
    }
  }

  lemma TextTells(row: Row, text: string)
    requires ProseRow(row) && Tells(row, text)
    ensures ProseText(row) == text
  {
    hide Tells, ProseText, ProseRow;
    OwnTells(row, text);
  }

  /** The pass drops a maximal run of leaf prose below a row exactly when the run's texts, joined with spaces only, spell
      the text that row gives and none but the first begins with a space, and it drops or keeps the run as a whole. If the
      rows of the run are tidy, no text begins with a space. */
  lemma RunGoesWhenSpelled(rows: seq<Row>, i: nat, a: nat, b: nat, own: string, texts: seq<string>)
    requires Preorder(rows) && i < |rows| && RunBelow(rows, i, a, b)
    requires Tells(rows[i], own) && a <= b <= |ChainAt(rows, i)|
    requires Within(ChainAt(rows, i)[a..b], |rows|) && AllTell(rows, ChainAt(rows, i)[a..b], texts)
    ensures var run := ChainAt(rows, i)[a..b];
      && texts != []
      && (forall x <- run ::
            FateAt(rows, 0, x) == Repeated(i, run) <==> own != "" && Spells(own, texts) && Stripped(texts[1..]))
      && ((forall x <- run :: Tidy(rows[x])) ==> Stripped(texts[1..]))
  {
    hide *;
    RunInside(rows, i, a, b);
    OwnTells(rows[i], own);
    var run := ChainAt(rows, i)[a..b];
    TextsTell(rows, run, texts);
    RunSpells(rows, own, run);
    forall x | x in run ensures FateAt(rows, 0, x) == Repeated(i, run) <==> SpelledBy(rows, own, run) {
      RunFate(rows, i, a, b, x);
    }
    if forall x <- run :: Tidy(rows[x]) {
      TextsStripped(rows, run);
      StrippedRest(texts);
    }
  }

  lemma RunInside(rows: seq<Row>, i: nat, a: nat, b: nat)
    requires i < |rows| && RunBelow(rows, i, a, b)
    ensures a < b <= |ChainAt(rows, i)| && Within(ChainAt(rows, i)[a..b], |rows|)
    ensures forall x <- ChainAt(rows, i)[a..b] :: x < |rows|
    ensures forall t :: 0 <= t < b - a ==> ProseRow(rows[ChainAt(rows, i)[a..b][t]])
  {
    hide After, ChainAt, ProseRow;
    RunIsMaximal(rows, i, a, b);
    assert forall t :: 0 <= t < b - a ==> ChainAt(rows, i)[a..b][t] == ChainAt(rows, i)[a + t];
  }

  lemma RunSpells(rows: seq<Row>, own: string, run: seq<nat>)
    requires Within(run, |rows|) && run != []
    ensures Texts(rows, run) != []
    ensures SpelledBy(rows, own, run) <==>
            own != "" && Spells(own, Texts(rows, run)) && Stripped(Texts(rows, run)[1..])
  {
    hide Repeats, Spells, Stripped;
    RepeatsExactly(own, Texts(rows, run));
  }

  lemma StrippedRest(texts: seq<string>)
    requires texts != [] && Stripped(texts)
    ensures Stripped(texts[1..])
  {
    hide NoLeadingSpace;
  }

  lemma {:induction false} TextsStripped(rows: seq<Row>, run: seq<nat>)
    requires Within(run, |rows|) && forall x <- run :: Tidy(rows[x])
    ensures |Texts(rows, run)| == |run| && Stripped(Texts(rows, run))
  {
    hide ProseText, Tidy, NoLeadingSpace;
    if run != [] {
      assert run[0] in run;
      ProseTextStripped(rows[run[0]]);
      TextsStripped(rows, run[1..]);
    }
  }

  /** The fate in the end of a row of a maximal run: it went with the run exactly if the run repeats the text above. */
  lemma RunFate(rows: seq<Row>, i: nat, a: nat, b: nat, x: nat)
    requires Preorder(rows) && i < |rows| && RunBelow(rows, i, a, b) && x in ChainAt(rows, i)[a..b]
    ensures x < |rows|
    ensures var run := ChainAt(rows, i)[a..b];
      FateAt(rows, 0, x) == Repeated(i, run) <==> SpelledBy(rows, Own(rows[i]), run)
  {
    var st, chain := VisitedChain(rows, i, a, b, x);
    RunFound(rows, st, Own(rows[i]), chain, a, b, x);
    RunsAt(rows, st, i, x);
    hide *;
    StepFateIs(rows, st, i, x);
    if i > 0 {
      VisitFate(rows, i, 0, x);
    } else {
      SameFate(FateAt(rows, 0, x));
    }
    FateInTheEnd(FateAt(rows, i, x), FateAt(rows, 0, x), RunWith(Runs(rows, st, i), x), i, chain[a..b]);
  }

  lemma SameFate(fate: Fate)
    ensures LaterFate(fate, fate, 0)
  {
  }

  lemma FateInTheEnd(now: Fate, end: Fate, found: Option<seq<nat>>, i: nat, run: seq<nat>)
    requires now == (if found.Some? then Repeated(i, found.value) else Kept) && LaterFate(now, end, i)
    ensures end == Repeated(i, run) <==> found == Some(run)
  {
  }

  lemma RunsAt(rows: seq<Row>, st: State, i: nat, x: nat)
    requires Sized(rows, st) && i < |rows|
    ensures RunWith(Runs(rows, st, i), x)
         == RunAt(rows, st, Own(rows[i]), Splice(st.kids[i], st.kids, st.fates), x)
  {
    hide Own;
  }

  lemma RunFound(rows: seq<Row>, st: State, own: string, chain: seq<nat>, a: nat, b: nat, x: nat)
    requires |rows| == |st.kids| && Within(chain, |rows|) && Ascending(chain)
    requires MaximalRun(rows, st, chain, a, b) && x in chain[a..b]
    ensures RunAt(rows, st, own, chain, x) == Some(chain[a..b]) <==> SpelledBy(rows, own, chain[a..b])
  {
    if own == "" {
      assert RunAt(rows, st, own, chain, x) == None;
    } else {
      CollapseRun(rows, st, own, chain, a, b, x);
    }
    hide RunAt, RepeatedBy, MaximalRun, Ascending;
  }

  /** The state in which `i` is visited: a row of a maximal run below it is still kept. */
  lemma VisitedChain(rows: seq<Row>, i: nat, a: nat, b: nat, x: nat) returns (st: State, chain: seq<nat>)
    requires Preorder(rows) && i < |rows| && RunBelow(rows, i, a, b) && x in ChainAt(rows, i)[a..b]
    ensures Sized(rows, st) && Inv(rows, st, i + 1) && chain == ChainAt(rows, i)
    ensures chain == Splice(st.kids[i], st.kids, st.fates)
    ensures Ascending(chain) && MaximalRun(rows, st, chain, a, b) && i < x < |rows| && st.fates[x].Kept?
    ensures FateAt(rows, i, x) == Step(rows, st, i).fates[x]
  {
    hide After, Inv, Step, RunBelow;
    RunIsMaximal(rows, i, a, b);
    AfterKeeps(rows, i + 1);
    AfterOne(rows, i);
    st := After(rows, i + 1);
    chain := ChainAt(rows, i);
    SpliceHangs(rows, st, i);
    InSlice(chain, a, b, x);
    ReachesBelow(rows, st.fates, x, i);
    hide MaximalRun, Reaches;
  }

  lemma InSlice(chain: seq<nat>, a: nat, b: nat, x: nat)
    requires a <= b <= |chain| && x in chain[a..b]
    ensures x in chain
  {
  }

  /** The rows that hang below a row at its visit: those still kept that no kept row parts from it, in order. */
  lemma ChainAtIs(rows: seq<Row>, i: nat)
    requires Preorder(rows) && i < |rows|
    ensures Ascending(ChainAt(rows, i))
    ensures var fates := After(rows, i + 1).fates;
      forall j: nat :: j in ChainAt(rows, i) <==> j < |rows| && fates[j].Kept? && Reaches(rows, fates, j, i)
  {
    hide After, Inv, Splice, Reaches, Preorder, Ascending;
    AfterKeeps(rows, i + 1);
    SpliceHangs(rows, After(rows, i + 1), i);
  }

  // ---- The texts in the end ----

  /** Texts side by side, those that are empty left out. */
  function Glued(texts: seq<string>): string {
    if texts == [] then ""
    else
      var rest := Glued(texts[1..]);
      if texts[0] == "" then rest else if rest == "" then texts[0] else texts[0] + " " + rest
  }

  function Picked(rendered: seq<string>, chain: seq<nat>): seq<string>
    requires Within(chain, |rendered|)
  {
    if chain == [] then [] else [rendered[chain[0]]] + Picked(rendered, chain[1..])
  }

  lemma GluedCons(text: string, more: seq<string>)
    ensures Glued([text] + more) == Beside(text, Glued(more))
  {
    assert ([text] + more)[1..] == more;
    assert text + "" == text && "" + "" + Glued(more) == Glued(more);
  }

  lemma BesideAgain(a: string, b: string, c: string)
    ensures Beside(Beside(a, b), c) == Beside(a, Beside(b, c))
  {
  }

  lemma {:induction false} JoinGlues(rendered: seq<string>, chain: seq<nat>, before: string)
    requires Within(chain, |rendered|)
    ensures Join(rendered, chain, before) == Beside(before, Glued(Picked(rendered, chain)))
    decreases |chain|
  {
    if chain == [] {
      assert before + "" == before;
    } else {
      var text := rendered[chain[0]];
      var rest := Glued(Picked(rendered, chain[1..]));
      var next := if text == "" then before else before + (if before != "" then " " else "") + text;
      JoinGlues(rendered, chain[1..], next);
      GluedCons(text, Picked(rendered, chain[1..]));
      NextBeside(before, text);
      BesideAgain(before, text, rest);
    }
  }

  lemma NextBeside(before: string, text: string)
    ensures Beside(before, text) == if text == "" then before else before + (if before != "" then " " else "") + text
  {
    assert before + "" + "" == before;
  }

  /** What the rows below a row say. */
  ghost function BelowText(rows: seq<Row>, i: nat): string
    requires i < |rows|
  {
    Glued(Picked(After(rows, 0).rendered, After(rows, 0).kids[i]))
  }

  /** The text kept for a row in the end is the one it gives and then those of the rows below it; a covered row leaves
      theirs alone. */
  lemma RowSays(rows: seq<Row>, i: nat, own: string)
    requires Preorder(rows) && i < |rows| && Tells(rows[i], own)
    ensures var st := After(rows, 0);
      st.rendered[i] == if st.fates[i].Covered? then BelowText(rows, i) else Glued([own, BelowText(rows, i)])
  {
    hide Visit, Preorder, Join, Glued, Picked, Tells, Beside, Own;
    VisitRenders(rows, 0, i);
    OwnTells(rows[i], own);
    var st := After(rows, 0);
    JoinGlues(st.rendered, st.kids[i], "");
    BesideNothing(BelowText(rows, i));
    GluedTwo(own, BelowText(rows, i));
  }

  lemma BesideNothing(text: string)
    ensures Beside("", text) == text
  {
  }

  lemma GluedTwo(one: string, other: string)
    ensures Glued([one, other]) == Beside(one, other)
  {
    GluedCons(one, [other]);
    GluedCons(other, []);
    assert [one] + [other] == [one, other] && [other] + [] == [other];
    assert other + "" + "" == other;
  }

  /** From its visit on, a row keeps what hangs below it, its text, and whether it is truncated. */
  ghost predicate Frozen(rows: seq<Row>, st: State, now: State, k: nat)
    requires Sized(rows, st) && Sized(rows, now) && k < |rows|
  {
    now.kids[k] == st.kids[k] && now.rendered[k] == st.rendered[k] && now.truncated[k] == st.truncated[k]
  }

  lemma StepFreezes(rows: seq<Row>, st: State, i: nat, k: nat)
    requires Sized(rows, st) && i < k < |rows|
    ensures Frozen(rows, st, Step(rows, st, i), k)
  {
    hide Splice, Collapse, Join, Covers, Own;
  }

  lemma {:induction false} StaysFrozen(rows: seq<Row>, i: nat, m: nat, k: nat)
    requires m <= i <= k < |rows|
    ensures Frozen(rows, After(rows, i), After(rows, m), k)
    decreases i - m
  {
    hide After, Step;
    if m < i {
      StaysFrozen(rows, i, m + 1, k);
      AfterOne(rows, m);
      StepFreezes(rows, After(rows, m + 1), m, k);
    }
  }

  lemma {:induction false} StaysCovered(rows: seq<Row>, i: nat, m: nat)
    requires Preorder(rows) && m <= i < |rows|
    ensures FateAt(rows, m, i).Covered? <==> FateAt(rows, i, i).Covered?
    decreases i - m
  {
    hide *;
    if m < i {
      StaysCovered(rows, i, m + 1);
      NextFateIs(rows, m, i);
      NextFate(rows, m, i);
      CoveredStays(FateAt(rows, m + 1, i), FateAt(rows, m, i), m + 1);
    }
  }

  lemma CoveredStays(was: Fate, now: Fate, i: nat)
    requires LaterFate(was, now, i) && (now.Covered? ==> was.Covered?)
    ensures was.Covered? <==> now.Covered?
  {
  }

  /** A visit covers no row but the one visited, and what goes with a run there is owned by that one. */
  lemma NextFateIs(rows: seq<Row>, m: nat, j: nat)
    requires m < |rows| && j < |rows|
    ensures var was, now := FateAt(rows, m + 1, j), FateAt(rows, m, j);
      (now.Covered? && j != m ==> was.Covered?)
      && (now.Repeated? ==> now.owner == m || (was.Repeated? && was.owner == now.owner))
  {
    hide After, Step, Runs, RunWith;
    AfterOne(rows, m);
    StepFateIs(rows, After(rows, m + 1), m, j);
  }

  lemma VisitCovers(rows: seq<Row>, st: State, i: nat)
    requires Preorder(rows) && i < |rows| && Inv(rows, st, i + 1)
    ensures var next := Step(rows, st, i);
      var below := Join(next.rendered, next.kids[i], "");
      next.fates[i].Covered? <==>
        ProseRow(rows[i]) && rows[i].parts.Some? && below != "" && Covers(rows[i].parts.value, rows[i].partial, below)
  {
    hide Collapse, Splice, Join, Covers, Preorder, Own, Beside, ProseRow;
    var next := Step(rows, st, i);
    StepRenders(rows, st, i, i);
    VisitFacts(rows, st, i);
    JoinSame(st.rendered, next.rendered, next.kids[i], "");
  }

  /** A row goes for the text of the rows below it exactly when it is prose without an element and they say every literal
      part of its text. */
  lemma RowIsCovered(rows: seq<Row>, i: nat)
    requires Preorder(rows) && i < |rows|
    ensures var row, below := rows[i], BelowText(rows, i);
      FateAt(rows, 0, i).Covered? <==>
        && !row.control && row.role in {"static", "paragraph", "heading"}
        && row.parts.Some? && below != "" && Covers(row.parts.value, row.partial, below)
  {
    hide *;
    AfterKeeps(rows, i + 1);
    AfterOne(rows, i);
    VisitCovers(rows, After(rows, i + 1), i);
    StaysCovered(rows, i, 0);
    BelowStays(rows, i);
    FatesAre(rows, i, i);
    OwnTells(rows[i], Own(rows[i]));
  }

  lemma FatesAre(rows: seq<Row>, m: nat, i: nat)
    requires m <= |rows| && i < |rows|
    ensures FateAt(rows, m, i) == After(rows, m).fates[i]
  {
    hide After;
  }

  lemma BelowStays(rows: seq<Row>, i: nat)
    requires Preorder(rows) && i < |rows|
    ensures var st := After(rows, i); Join(st.rendered, st.kids[i], "") == BelowText(rows, i)
  {
    hide Visit, Preorder, Join, Glued, Picked, Beside, Own;
    VisitRenders(rows, i, i);
    var st, end := After(rows, i), After(rows, 0);
    StaysFrozen(rows, i, 0, i);
    forall t | 0 <= t < |st.kids[i]| ensures st.rendered[st.kids[i][t]] == end.rendered[st.kids[i][t]] {
      StaysFrozen(rows, i, 0, st.kids[i][t]);
    }
    JoinSame(st.rendered, end.rendered, st.kids[i], "");
    JoinGlues(end.rendered, end.kids[i], "");
    BesideNothing(BelowText(rows, i));
  }

  // ---- Truncation ----

  lemma {:induction false} OwnersFrom(rows: seq<Row>, m: nat, j: nat)
    requires Preorder(rows) && m <= |rows| && j < |rows|
    ensures FateAt(rows, m, j).Repeated? ==> FateAt(rows, m, j).owner >= m
    decreases |rows| - m
  {
    hide *;
    if m < |rows| {
      OwnersFrom(rows, m + 1, j);
      NextFateIs(rows, m, j);
    } else {
      FatesAre(rows, m, j);
      AllKept(rows, j);
    }
  }

  lemma AllKept(rows: seq<Row>, j: nat)
    requires j < |rows|
    ensures After(rows, |rows|).fates[j].Kept?
  {
  }

  /** In the end a row is a repetition of row `i` exactly when a run that was dropped there holds it. */
  lemma RepeatedAt(rows: seq<Row>, i: nat, j: nat)
    requires Preorder(rows) && i < |rows| && j < |rows|
    ensures var end := FateAt(rows, 0, j);
      end.Repeated? && end.owner == i <==> RunWith(Runs(rows, After(rows, i + 1), i), j).Some?
  {
    hide *;
    var st := After(rows, i + 1);
    AfterKeeps(rows, i + 1);
    SizedByInv(rows, st, i + 1);
    AfterOne(rows, i);
    StepFateIs(rows, st, i, j);
    OwnersFrom(rows, i + 1, j);
    FatesAre(rows, i, j);
    FatesAre(rows, i + 1, j);
    if i > 0 {
      VisitFate(rows, i, 0, j);
    } else {
      SameFate(FateAt(rows, 0, j));
    }
    if RunWith(Runs(rows, st, i), j).Some? {
      DroppedIsLeaf(rows, st, i, j);
    }
    RepeatedInTheEnd(st.fates[j], FateAt(rows, i, j), FateAt(rows, 0, j), RunWith(Runs(rows, st, i), j), i, j == i);
  }

  lemma SizedByInv(rows: seq<Row>, st: State, i: nat)
    requires Inv(rows, st, i)
    ensures Sized(rows, st) && Forest(rows) && |st.fates| == |rows|
  {
  }

  lemma RepeatedInTheEnd(was: Fate, now: Fate, end: Fate, found: Option<seq<nat>>, i: nat, visited: bool)
    requires (now == if found.Some? then Repeated(i, found.value) else was) || (visited && now == Covered)
    requires LaterFate(now, end, i) && (was.Repeated? ==> was.owner >= i + 1) && (found.Some? ==> !visited)
    ensures end.Repeated? && end.owner == i <==> found.Some?
  {
  }

  /** A row is truncated in the end exactly if it was, or if a row was that went as a repetition of it. */
  lemma RowIsTruncated(rows: seq<Row>, i: nat)
    requires Preorder(rows) && i < |rows|
    ensures var end := After(rows, 0);
      end.truncated[i] <==>
        rows[i].truncated
        || exists j :: 0 <= j < |rows| && end.fates[j].Repeated? && end.fates[j].owner == i && end.truncated[j]
  {
    hide After, Step, Preorder, Runs, RunWith;
    var st, end := After(rows, i + 1), After(rows, 0);
    AfterKeeps(rows, i + 1);
    AfterOne(rows, i);
    StaysFrozen(rows, i, 0, i);
    VisitTruncates(rows, st, i);
    NotYetTruncated(rows, i, i + 1);
    forall j | 0 <= j < |rows|
      ensures end.fates[j].Repeated? && end.fates[j].owner == i <==> RunWith(Runs(rows, st, i), j).Some?
      ensures RunWith(Runs(rows, st, i), j).Some? ==> end.truncated[j] == st.truncated[j]
    {
      FatesAre(rows, 0, j);
      RepeatedAt(rows, i, j);
      if RunWith(Runs(rows, st, i), j).Some? {
        DroppedIsLeaf(rows, st, i, j);
        StaysFrozen(rows, i + 1, 0, j);
      }
    }
  }

  lemma VisitTruncates(rows: seq<Row>, st: State, i: nat)
    requires Sized(rows, st) && i < |rows|
    ensures Step(rows, st, i).truncated[i] <==>
            st.truncated[i]
            || exists j :: 0 <= j < |rows| && RunWith(Runs(rows, st, i), j).Some? && st.truncated[j]
  {
    hide Splice, Collapse, Join, Covers, Own, RunWith;
  }

  lemma {:induction false} NotYetTruncated(rows: seq<Row>, i: nat, m: nat)
    requires i < m <= |rows|
    ensures After(rows, m).truncated[i] == rows[i].truncated
    decreases |rows| - m
  {
    hide After, Step;
    if m < |rows| {
      NotYetTruncated(rows, i, m + 1);
      AfterOne(rows, m);
      StepTruncates(rows, After(rows, m + 1), m, i);
    } else {
      FirstTruncated(rows, i);
    }
  }

  lemma StepTruncates(rows: seq<Row>, st: State, m: nat, i: nat)
    requires Sized(rows, st) && m < |rows| && i < |rows| && i != m
    ensures Step(rows, st, m).truncated[i] == st.truncated[i]
  {
    hide Splice, Collapse, Join, Covers, Own;
  }

  lemma FirstTruncated(rows: seq<Row>, i: nat)
    requires i < |rows|
    ensures After(rows, |rows|).truncated[i] == rows[i].truncated
  {
  }
}
