/** native/scu_diff.h: a diff of two rendered trees, kept only when it is much shorter than the tree. */
module TreeDiff {
  import opened Text
  import opened EditScripts
  import opened Hunks

  /** The table's cells are guint32. */
  newtype Cell = x: int | 0 <= x < 0x1_0000_0000

  const MAX_CELLS: nat := 6_000_000

  // ---- The rows that take part: common prefix and suffix are trimmed ----

  /** The number of leading rows in common, `n` of which are known. */
  function CommonPrefix(a: seq<string>, b: seq<string>, n: nat): (length: nat)
    requires n <= |a| && n <= |b| && forall k :: 0 <= k < n ==> a[k] == b[k]
    ensures n <= length <= |a| && length <= |b| && forall k :: 0 <= k < length ==> a[k] == b[k]
    ensures length < |a| && length < |b| ==> a[length] != b[length]
    decreases |a| - n
  {
    if n < |a| && n < |b| && a[n] == b[n] then CommonPrefix(a, b, n + 1) else n
  }

  /** The number of trailing rows in common behind the first `p`, `n` of which are known. */
  function CommonSuffix(a: seq<string>, b: seq<string>, p: nat, n: nat): (length: nat)
    requires p + n <= |a| && p + n <= |b| && SuffixAgrees(a, b, n)
    ensures n <= length && p + length <= |a| && p + length <= |b| && SuffixAgrees(a, b, length)
    ensures p + length < |a| && p + length < |b| ==> FromEnd(a, length) != FromEnd(b, length)
    decreases |a| - n
  {
    if p + n < |a| && p + n < |b| && FromEnd(a, n) == FromEnd(b, n) then CommonSuffix(a, b, p, n + 1) else n
  }

  predicate SuffixAgrees(a: seq<string>, b: seq<string>, n: nat)
    requires n <= |a| && n <= |b|
  {
    forall k :: 0 <= k < n ==> FromEnd(a, k) == FromEnd(b, k)
  }

  function FromEnd(rows: seq<string>, k: nat): string
    requires k < |rows|
  {
    rows[|rows| - 1 - k]
  }

  datatype Middle = Middle(prefix: nat, before: seq<string>, after: seq<string>, suffix: seq<string>)

  function Trim(a: seq<string>, b: seq<string>): (m: Middle)
    ensures m.prefix <= |a| && m.prefix <= |b| && a[..m.prefix] == b[..m.prefix]
    ensures a[m.prefix..] == m.before + m.suffix && b[m.prefix..] == m.after + m.suffix
  {
    var p := CommonPrefix(a, b, 0);
    var s := CommonSuffix(a, b, p, 0);
    TrimmedParts(a, b, p, s);
    Middle(p, a[p..|a| - s], b[p..|b| - s], a[|a| - s..])
  }

  lemma TrimmedParts(a: seq<string>, b: seq<string>, p: nat, s: nat)
    requires p + s <= |a| && p + s <= |b| && SuffixAgrees(a, b, s)
    requires forall k :: 0 <= k < p ==> a[k] == b[k]
    ensures a[..p] == b[..p] && a[|a| - s..] == b[|b| - s..]
    ensures a[p..] == a[p..|a| - s] + a[|a| - s..] && b[p..] == b[p..|b| - s] + a[|a| - s..]
  {
    SuffixesAgree(a, b, s);
    CutTail(a, p, s);
    CutTail(b, p, s);
    PrefixesAgree(a, b, p);
  }

  lemma SuffixesAgree(a: seq<string>, b: seq<string>, s: nat)
    requires s <= |a| && s <= |b| && SuffixAgrees(a, b, s)
    ensures a[|a| - s..] == b[|b| - s..]
  {
    var ends, others := a[|a| - s..], b[|b| - s..];
    forall k | 0 <= k < s ensures ends[k] == others[k] {
      assert FromEnd(a, s - 1 - k) == FromEnd(b, s - 1 - k);
    }
  }

  lemma CutTail(rows: seq<string>, p: nat, s: nat)
    requires p + s <= |rows|
    ensures rows[p..] == rows[p..|rows| - s] + rows[|rows| - s..]
  {
  }

  lemma PrefixesAgree(a: seq<string>, b: seq<string>, p: nat)
    requires p <= |a| && p <= |b| && forall k :: 0 <= k < p ==> a[k] == b[k]
    ensures a[..p] == b[..p]
  {
  }

  /** And all of it goes: what is left of both sides neither begins nor ends with the same row. */
  lemma TrimIsMaximal(a: seq<string>, b: seq<string>)
    ensures var m := Trim(a, b);
      m.before != [] && m.after != [] ==>
        m.before[0] != m.after[0] && m.before[|m.before| - 1] != m.after[|m.after| - 1]
  {
    hide CommonPrefix, CommonSuffix;
    var p := CommonPrefix(a, b, 0);
    var s := CommonSuffix(a, b, p, 0);
    EndsOf(a, p, s);
    EndsOf(b, p, s);
  }

  lemma EndsOf(rows: seq<string>, p: nat, s: nat)
    requires p + s <= |rows|
    ensures var middle := rows[p..|rows| - s];
      |middle| > 0 ==> middle[0] == rows[p] && middle[|middle| - 1] == FromEnd(rows, s)
  {
  }

  /** Trimming loses nothing: the trimmed rows are all kept by some optimal script. */
  lemma TrimKeepsLcs(a: seq<string>, b: seq<string>)
    ensures var m := Trim(a, b); Lcs(a, b) == m.prefix + Lcs(m.before, m.after) + |m.suffix|
  {
    hide Lcs, Trim;
    var m := Trim(a, b);
    var common := a[..m.prefix];
    CutHead(a, m.prefix);
    CutHead(b, m.prefix);
    LcsSuffix(m.before, m.after, m.suffix);
    LcsPrefix(common, m.before + m.suffix, m.after + m.suffix);
  }

  lemma CutHead(rows: seq<string>, p: nat)
    requires p <= |rows|
    ensures rows == rows[..p] + rows[p..]
  {
  }

  // ---- The walk over the table ----

  /** One cell of the table: the LCS length of the suffixes from rows `i` and `j`. */
  function LcsFrom(a: seq<string>, b: seq<string>, i: nat, j: nat): (length: nat)
    requires i <= |a| && j <= |b|
    ensures length <= |b|
  {
    Lcs(a[i..], b[j..])
  }

  predicate AtMatch(a: seq<string>, b: seq<string>, i: nat, j: nat)
    requires i <= |a| && j <= |b|
  {
    i < |a| && j < |b| && a[i] == b[j]
  }

  /** How the table is filled, from the last row and column to the first. */
  lemma LcsRecurrence(a: seq<string>, b: seq<string>, i: nat, j: nat)
    requires i <= |a| && j <= |b|
    ensures LcsFrom(a, b, i, j)
         == if i == |a| || j == |b| then 0
            else if a[i] == b[j] then 1 + LcsFrom(a, b, i + 1, j + 1)
            else Max(LcsFrom(a, b, i + 1, j), LcsFrom(a, b, i, j + 1))
  {
    if i < |a| && j < |b| {
      assert a[i..][1..] == a[i + 1..] && b[j..][1..] == b[j + 1..];
    }
  }

  predicate TakesRemoval(a: seq<string>, b: seq<string>, i: nat, j: nat)
    requires i <= |a| && j <= |b|
  {
    i < |a| && (j == |b| || LcsFrom(a, b, i + 1, j) >= LcsFrom(a, b, i, j + 1))
  }

  /** One run of changes from `(i, j)`: where both sides agree again, or both end. */
  function Run(a: seq<string>, b: seq<string>, i: nat, j: nat): (end: (nat, nat))
    requires i <= |a| && j <= |b|
    ensures i <= end.0 <= |a| && j <= end.1 <= |b|
    ensures AtMatch(a, b, end.0, end.1) || (end.0 == |a| && end.1 == |b|)
    ensures LcsFrom(a, b, end.0, end.1) == LcsFrom(a, b, i, j)
    ensures !AtMatch(a, b, i, j) && (i < |a| || j < |b|) ==> i + j < end.0 + end.1
    decreases |a| + |b| - i - j
  {
    if AtMatch(a, b, i, j) || (i == |a| && j == |b|) then (i, j)
    else
      LcsRecurrence(a, b, i, j);
      if TakesRemoval(a, b, i, j) then
        LcsRecurrence(a, b, i + 1, j);
        Run(a, b, i + 1, j)
      else
        LcsRecurrence(a, b, i, j + 1);
        Run(a, b, i, j + 1)
  }

  /** Of two ways that lose nothing a run takes the removal: a row goes whenever the rows behind it have as long a common
      subsequence without it, and only otherwise a row is added. */
  lemma RemovalsComeFirst(a: seq<string>, b: seq<string>, i: nat, j: nat)
    requires i <= |a| && j <= |b| && (i < |a| || j < |b|) && (i < |a| && j < |b| ==> a[i] != b[j])
    ensures var free := i < |a| && Lcs(a[i + 1..], b[j..]) == Lcs(a[i..], b[j..]);
      && (!free ==> j < |b|) && Run(a, b, i, j) == if free then Run(a, b, i + 1, j) else Run(a, b, i, j + 1)
  {
    hide Lcs;
    LcsRecurrence(a, b, i, j);
    if i < |a| {
      LcsRecurrence(a, b, i + 1, j);
    }
  }

  /** The hunks from `(i, j)` on, for rows that stand `offset` rows into the texts. */
  function Walk(a: seq<string>, b: seq<string>, i: nat, j: nat, offset: nat): seq<Hunk>
    requires i <= |a| && j <= |b|
    decreases |a| + |b| - i - j
  {
    if i == |a| && j == |b| then []
    else if AtMatch(a, b, i, j) then Walk(a, b, i + 1, j + 1, offset)
    else
      var (endI, endJ) := Run(a, b, i, j);
      [Hunk(offset + i, a[i..endI], offset + j, b[j..endJ])] + Walk(a, b, endI, endJ, offset)
  }

  function DiffHunks(a: seq<string>, b: seq<string>): seq<Hunk> {
    var m := Trim(a, b);
    Walk(m.before, m.after, 0, 0, m.prefix)
  }

  lemma ChangedCons(h: Hunk, rest: seq<Hunk>)
    ensures Changed([h] + rest) == |h.removed| + |h.added| + Changed(rest)
  {
    assert ([h] + rest)[1..] == rest;
  }

  lemma {:induction false} WalkCost(a: seq<string>, b: seq<string>, i: nat, j: nat, offset: nat)
    requires i <= |a| && j <= |b|
    ensures Changed(Walk(a, b, i, j, offset)) == |a| - i + |b| - j - 2 * LcsFrom(a, b, i, j)
    decreases |a| + |b| - i - j
  {
    hide Lcs, LcsFrom, TakesRemoval, Run;
    LcsRecurrence(a, b, i, j);
    if i == |a| && j == |b| {
    } else if AtMatch(a, b, i, j) {
      WalkCost(a, b, i + 1, j + 1, offset);
    } else {
      var (endI, endJ) := Run(a, b, i, j);
      WalkCost(a, b, endI, endJ, offset);
      ChangedCons(Hunk(offset + i, a[i..endI], offset + j, b[j..endJ]), Walk(a, b, endI, endJ, offset));
    }
  }

  /** `rows` of a text stand from row `offset` of `text` on. */
  ghost predicate StandsAt(rows: seq<string>, text: seq<string>, offset: nat) {
    offset + |rows| <= |text| && forall k :: 0 <= k < |rows| ==> rows[k] == text[offset + k]
  }

  lemma HunkFits(a: seq<string>, b: seq<string>, i: nat, j: nat, endI: nat, endJ: nat, offset: nat,
                 before: seq<string>, after: seq<string>)
    requires i <= endI <= |a| && j <= endJ <= |b| && StandsAt(a, before, offset) && StandsAt(b, after, offset)
    ensures Fits(Hunk(offset + i, a[i..endI], offset + j, b[j..endJ]), before, offset + i, after, offset + j)
  {
    assert before[offset + i..offset + endI] == a[i..endI];
    assert after[offset + j..offset + endJ] == b[j..endJ];
  }

  lemma {:induction false} WalkDescribes(a: seq<string>, b: seq<string>, i: nat, j: nat, offset: nat,
                                         before: seq<string>, after: seq<string>)
    requires i <= |a| && j <= |b| && StandsAt(a, before, offset) && StandsAt(b, after, offset)
    requires before[offset + |a|..] == after[offset + |b|..]
    ensures Describes(Walk(a, b, i, j, offset), before, offset + i, after, offset + j)
    decreases |a| + |b| - i - j
  {
    hide Lcs, LcsFrom, Fits, TakesRemoval, Run, Walk;
    WalkNext(a, b, i, j, offset);
    if i == |a| && j == |b| {
    } else if AtMatch(a, b, i, j) {
      WalkDescribes(a, b, i + 1, j + 1, offset, before, after);
      DescribesEarlier(Walk(a, b, i, j, offset), before, offset + i, after, offset + j);
    } else {
      var (endI, endJ) := Run(a, b, i, j);
      WalkDescribes(a, b, endI, endJ, offset, before, after);
      var h := Hunk(offset + i, a[i..endI], offset + j, b[j..endJ]);
      HunkFits(a, b, i, j, endI, endJ, offset, before, after);
      DescribesCons(h, Walk(a, b, endI, endJ, offset), before, offset + i, after, offset + j);
    }
  }

  lemma {:induction false} WalkStart(a: seq<string>, b: seq<string>, i: nat, j: nat, offset: nat)
    requires i <= |a| && j <= |b| && Walk(a, b, i, j, offset) != []
    ensures var first := Walk(a, b, i, j, offset)[0];
            offset + i <= first.oldStart && offset + j <= first.newStart
            && (AtMatch(a, b, i, j) ==> offset + i < first.oldStart && offset + j < first.newStart)
    decreases |a| + |b| - i - j
  {
    if AtMatch(a, b, i, j) {
      WalkStart(a, b, i + 1, j + 1, offset);
    }
  }

  lemma {:induction false} WalkSeparated(a: seq<string>, b: seq<string>, i: nat, j: nat, offset: nat)
    requires i <= |a| && j <= |b|
    ensures Separated(Walk(a, b, i, j, offset))
    decreases |a| + |b| - i - j
  {
    if i == |a| && j == |b| {
    } else if AtMatch(a, b, i, j) {
      WalkSeparated(a, b, i + 1, j + 1, offset);
    } else {
      var (endI, endJ) := Run(a, b, i, j);
      var rest := Walk(a, b, endI, endJ, offset);
      WalkSeparated(a, b, endI, endJ, offset);
      if rest != [] {
        WalkStart(a, b, endI, endJ, offset);
      }
      SeparatedCons(Hunk(offset + i, a[i..endI], offset + j, b[j..endJ]), rest);
    }
  }

  // ---- What the hunks promise ----

  lemma DiffIsWalk(a: seq<string>, b: seq<string>)
    ensures var m := Trim(a, b); DiffHunks(a, b) == Walk(m.before, m.after, 0, 0, m.prefix)
  {
    hide Trim, Walk;
  }

  lemma DiffDescribes(a: seq<string>, b: seq<string>)
    ensures Describes(DiffHunks(a, b), a, 0, b, 0)
  {
    DiffIsWalk(a, b);
    hide *;
    var m := Trim(a, b);
    MiddleStands(a, m.prefix, m.before, m.suffix);
    MiddleStands(b, m.prefix, m.after, m.suffix);
    WalkDescribes(m.before, m.after, 0, 0, m.prefix, a, b);
    DescribesFromStart(DiffHunks(a, b), a, b, m.prefix);
  }

  lemma MiddleStands(text: seq<string>, offset: nat, rows: seq<string>, suffix: seq<string>)
    requires offset <= |text| && text[offset..] == rows + suffix
    ensures StandsAt(rows, text, offset) && text[offset + |rows|..] == suffix
  {
    assert |text[offset..]| == |rows| + |suffix|;
    forall k | 0 <= k < |rows| ensures rows[k] == text[offset + k] {
      assert text[offset..][k] == rows[k];
    }
    assert text[offset + |rows|..] == text[offset..][|rows|..];
  }

  lemma {:induction false} DescribesFromStart(hunks: seq<Hunk>, a: seq<string>, b: seq<string>, p: nat)
    requires p <= |a| && p <= |b| && a[..p] == b[..p] && Describes(hunks, a, p, b, p)
    ensures Describes(hunks, a, 0, b, 0)
  {
    if p > 0 {
      assert a[p - 1] == a[..p][p - 1] == b[..p][p - 1] == b[p - 1];
      assert a[..p - 1] == a[..p][..p - 1] == b[..p][..p - 1] == b[..p - 1];
      DescribesEarlier(hunks, a, p - 1, b, p - 1);
      DescribesFromStart(hunks, a, b, p - 1);
    }
  }

  /** The emitted script is minimal over the whole row lists: no edit script has fewer `-` and `+` lines, and one
      has exactly as many. */
  lemma DiffIsMinimal(a: seq<string>, b: seq<string>, script: seq<Op<string>>)
    requires Source(script) == a && Target(script) == b
    ensures Changed(DiffHunks(a, b)) <= Cost(script)
    ensures Changed(DiffHunks(a, b)) == Cost(Optimal(a, b))
  {
    var m := Trim(a, b);
    TrimmedLengths(a, b);
    TrimKeepsLcs(a, b);
    WalkCost(m.before, m.after, 0, 0, m.prefix);
    assert m.before[0..] == m.before && m.after[0..] == m.after;
    LcsBoundsCost(script, a, b);
    assert Changed(DiffHunks(a, b)) == |m.before| + |m.after| - 2 * Lcs(m.before, m.after);
  }

  lemma TrimmedLengths(a: seq<string>, b: seq<string>)
    ensures var m := Trim(a, b);
      |a| == m.prefix + |m.before| + |m.suffix| && |b| == m.prefix + |m.after| + |m.suffix|
  {
    var m := Trim(a, b);
    assert |a[m.prefix..]| == |m.before| + |m.suffix| && |b[m.prefix..]| == |m.after| + |m.suffix|;
  }

  lemma DiffIsSeparated(a: seq<string>, b: seq<string>)
    ensures Separated(DiffHunks(a, b))
  {
    var m := Trim(a, b);
    WalkSeparated(m.before, m.after, 0, 0, m.prefix);
  }

  lemma {:induction false} DescribedOneLine(hunks: seq<Hunk>, a: seq<string>, i: nat, b: seq<string>, j: nat)
    requires i <= |a| && j <= |b| && Describes(hunks, a, i, b, j) && OneLine(a) && OneLine(b)
    ensures forall h <- hunks :: OneLine(h.removed) && OneLine(h.added)
    decreases |hunks|
  {
    if hunks != [] {
      var h := hunks[0];
      DescribedOneLine(hunks[1..], a, h.oldStart + |h.removed|, b, h.newStart + |h.added|);
    }
  }

  /** Printing and applying undo each other: the text applied to `previous` gives `current`, and applied in
      reverse to `current` gives `previous`, up to the final newline that rows cannot record. */
  lemma DiffTextPatches(previous: string, current: string)
    ensures var script := Print(DiffHunks(Rows(previous), Rows(current)));
            Patch(previous, script) == Some(Unrows(Rows(current)))
            && Unpatch(current, script) == Some(Unrows(Rows(previous)))
  {
    var a, b := Rows(previous), Rows(current);
    var hunks := DiffHunks(a, b);
    DiffDescribes(a, b);
    DescribedOneLine(hunks, a, 0, b, 0);
    ReadOfPrint(hunks);
    DescribedApplies(hunks, a, 0, b, 0);
    DescribedReversed(hunks, a, 0, b, 0);
    DescribedApplies(Reversed(hunks), b, 0, a, 0);
    assert a[0..] == a && b[0..] == b;
  }

  /** What tree_diff returns: `sameText` for equal texts, None when a full read is cheaper. */
  function Diff(previous: string, current: string, sameText: string): Option<string> {
    if previous == current then Some(sameText)
    else
      var a, b := Rows(previous), Rows(current);
      var m := Trim(a, b);
      var script := Print(DiffHunks(a, b));
      if m.before != [] && |m.after| > MAX_CELLS / |m.before| then None
      else if 5 * |script| <= 3 * |current| then Some(script)
      else None
  }

  /** Equal texts give `sameText`. For any others there is a script exactly when the table of the rows between the common
      prefix and the common suffix has room for them, six million pairs at most, and the printed hunks are no longer
      than three fifths of `current`; it is the text of those hunks. */
  lemma DiffGivesScript(previous: string, current: string, sameText: string)
    ensures previous == current ==> Diff(previous, current, sameText) == Some(sameText)
    ensures previous != current ==>
      var m := Trim(Rows(previous), Rows(current));
      var script := Print(DiffHunks(Rows(previous), Rows(current)));
      Diff(previous, current, sameText) ==
      if |m.before| * |m.after| <= 6_000_000 && 5 * |script| <= 3 * |current| then Some(script) else None
  {
    hide Rows, Print, DiffHunks, Trim;
    var m := Trim(Rows(previous), Rows(current));
    if m.before != [] {
      FitsWhenDivided(|m.before|, |m.after|, 6_000_000);
    }
  }

  lemma FitsWhenDivided(n: nat, m: nat, most: nat)
    requires n > 0
    ensures m > most / n <==> n * m > most
  {
    var q := most / n;
    assert n * q <= most < n * q + n;
    if m > q {
      Grows(n, q + 1, m);
    } else {
      Grows(n, m, q);
    }
  }

  lemma Grows(n: nat, less: nat, more: nat)
    requires less <= more
    ensures n * less <= n * more
  {
  }

  /** A returned script rebuilds `current` exactly when `current` ends in a newline or is empty. */
  lemma DiffRoundTrips(previous: string, current: string, sameText: string)
    requires previous != current && Diff(previous, current, sameText).Some?
    ensures var script := Diff(previous, current, sameText).value;
            (Patch(previous, script) == Some(current) <==> Terminated(current))
            && (Unpatch(current, script) == Some(previous) <==> Terminated(previous))
  {
    DiffTextPatches(previous, current);
    UnrowsOfRows(previous);
    UnrowsOfRows(current);
  }

  /** Rows do not record the final newline, so callers give texts whose every row ends in one. Without it a text gets an
      empty script to and from the text with it, and that script gives the latter in both directions. */
  lemma UnterminatedTextIsLost(text: string, sameText: string)
    requires !Terminated(text)
    ensures var whole := text + NEWLINE;
      && Diff(whole, text, sameText) == Some("") && Patch(whole, "") == Some(whole) != Some(text)
      && Diff(text, whole, sameText) == Some("") && Unpatch(text, "") == Some(whole)
  {
    var whole, rows := text + NEWLINE, Rows(text);
    UnrowsOfRows(text);
    RowsOfUnrows(rows);
    SameRowsNoHunks(rows);
    DiffTextPatches(whole, text);
    hide Unrows, Rows, Patch, Unpatch;
  }

  lemma SameRowsNoHunks(rows: seq<string>)
    ensures Trim(rows, rows).before == [] && DiffHunks(rows, rows) == [] && Print([]) == ""
  {
    assert CommonPrefix(rows, rows, 0) == |rows|;
  }

  // ---- The procedure ----

  lemma RowsApart(i: nat, k: nat, width: nat)
    requires i < k
    ensures i * width + width <= k * width
  {
    if i + 1 < k {
      RowsApart(i, k - 1, width);
    }
  }

  /** Where row `i` of the flat table starts. */
  function Base(i: nat, width: nat): nat {
    i * width
  }

  /** Row `i` of the table. */
  ghost function LcsRow(a: seq<string>, b: seq<string>, i: nat): (row: seq<nat>)
    requires i <= |a|
    ensures |row| == |b| + 1
  {
    seq(|b| + 1, j requires 0 <= j <= |b| => LcsFrom(a, b, i, j))
  }

  ghost predicate Holds(lcs: array<Cell>, base: nat, row: seq<nat>)
    reads lcs
  {
    base + |row| <= lcs.Length && forall j :: 0 <= j < |row| ==> lcs[base + j] as int == row[j]
  }

  ghost predicate Filled(lcs: array<Cell>, a: seq<string>, b: seq<string>, from: nat, width: nat)
    reads lcs
  {
    forall i: nat | from <= i <= |a| :: Holds(lcs, Base(i, width), LcsRow(a, b, i))
  }

  method FillRow(lcs: array<Cell>, a: seq<string>, b: seq<string>, i: nat, base: nat)
    requires i < |a| && |b| <= MAX_CELLS
    requires Holds(lcs, base + |b| + 1, LcsRow(a, b, i + 1)) && lcs[base + |b|] == 0
    modifies lcs
    ensures Holds(lcs, base, LcsRow(a, b, i))
    ensures forall k :: 0 <= k < lcs.Length && !(base <= k <= base + |b|) ==> lcs[k] == old(lcs[k])
  {
    var m := |b|;
    LcsRecurrence(a, b, i, m);
    hide Lcs;
    ghost var row, below := LcsRow(a, b, i), LcsRow(a, b, i + 1);
    var j := m;
    while j > 0
      invariant 0 <= j <= m
      invariant forall k :: 0 <= k < lcs.Length && !(base <= k <= base + m) ==> lcs[k] == old(lcs[k])
      invariant Holds(lcs, base + m + 1, below)
      invariant forall k :: j <= k <= m ==> lcs[base + k] as int == row[k]
    {
      j := j - 1;
      var diagonal, down, right := lcs[base + m + 1 + (j + 1)], lcs[base + m + 1 + j], lcs[base + (j + 1)];
      LcsRecurrence(a, b, i, j);
      assert diagonal as int == below[j + 1] && down as int == below[j] && right as int == row[j + 1];
      lcs[base + j] := if a[i] == b[j] then 1 + diagonal else if down > right then down else right;
    }
  }

  ghost predicate HoldsIn(cells: seq<Cell>, base: nat, row: seq<nat>) {
    base + |row| <= |cells| && forall j :: 0 <= j < |row| ==> cells[base + j] as int == row[j]
  }

  /** The rows below the one just written are as they were. */
  lemma RowsBelowKept(lcs: array<Cell>, was: seq<Cell>, a: seq<string>, b: seq<string>, i: nat, width: nat)
    requires i < |a| && lcs.Length == |was| && width == |b| + 1
    requires forall k :: Base(i, width) + width <= k < lcs.Length ==> lcs[k] == was[k]
    requires forall k: nat | i < k <= |a| :: HoldsIn(was, Base(k, width), LcsRow(a, b, k))
    ensures Filled(lcs, a, b, i + 1, width)
  {
    forall k: nat | i + 1 <= k <= |a| ensures Holds(lcs, Base(k, width), LcsRow(a, b, k)) {
      RowsApart(i, k, width);
      assert HoldsIn(was, Base(k, width), LcsRow(a, b, k));
      hide LcsRow, Base;
    }
  }

  method FillTable(a: seq<string>, b: seq<string>) returns (lcs: array<Cell>)
    requires a == [] || |b| <= MAX_CELLS
    ensures fresh(lcs) && Filled(lcs, a, b, 0, |b| + 1)
  {
    var n, width := |a|, |b| + 1;
    RowsApart(n, n + 1, width);
    lcs := new Cell[(n + 1) * width](_ => 0);
    LastRowIsZero(a, b);
    assert Filled(lcs, a, b, n, width);
    var i := n;
    while i > 0
      invariant 0 <= i <= n && lcs.Length == (n + 1) * width
      invariant Filled(lcs, a, b, i, width)
      invariant forall k :: 0 <= k < Base(i, width) + width ==> k < lcs.Length && (k < Base(i, width) ==> lcs[k] == 0)
    {
      i := i - 1;
      FillNext(lcs, a, b, i);
    }
  }

  lemma LastRowIsZero(a: seq<string>, b: seq<string>)
    ensures forall j :: 0 <= j <= |b| ==> LcsRow(a, b, |a|)[j] == 0
  {
    forall j | 0 <= j <= |b| ensures LcsRow(a, b, |a|)[j] == 0 {
      LcsRecurrence(a, b, |a|, j);
    }
  }

  /** One turn of the outer loop. */
  method FillNext(lcs: array<Cell>, a: seq<string>, b: seq<string>, i: nat)
    requires i < |a| && |b| <= MAX_CELLS && lcs.Length == (|a| + 1) * (|b| + 1)
    requires Filled(lcs, a, b, i + 1, |b| + 1)
    requires forall k :: 0 <= k < Base(i + 1, |b| + 1) ==> k < lcs.Length && lcs[k] == 0
    modifies lcs
    ensures Filled(lcs, a, b, i, |b| + 1)
    ensures forall k :: 0 <= k < Base(i, |b| + 1) + |b| + 1 ==> k < lcs.Length && (k < Base(i, |b| + 1) ==> lcs[k] == 0)
  {
    var width := |b| + 1;
    RowsApart(i, i + 1, width);
    assert Base(i + 1, width) == Base(i, width) + width;
    ghost var was := lcs[..];
    forall k: nat | i < k <= |a| ensures HoldsIn(was, Base(k, width), LcsRow(a, b, k)) {
      assert Holds(lcs, Base(k, width), LcsRow(a, b, k));
    }
    assert Holds(lcs, Base(i + 1, width), LcsRow(a, b, i + 1));
    hide LcsRow;
    FillRow(lcs, a, b, i, Base(i, width));
    RowsBelowKept(lcs, was, a, b, i, width);
    forall k: nat | i <= k <= |a| ensures Holds(lcs, Base(k, width), LcsRow(a, b, k)) {
      assert k > i ==> Holds(lcs, Base(k, width), LcsRow(a, b, k));
    }
  }

  /** Another marked row at the end of a block of marked rows. */
  lemma MarkedBlockGrows(mark: char, rows: seq<string>, from: nat, to: nat)
    requires from <= to < |rows|
    ensures Unrows(Marked(mark, rows[from..to + 1]))
         == Unrows(Marked(mark, rows[from..to])) + [mark] + rows[to] + NEWLINE
  {
    assert rows[from..to + 1] == rows[from..to] + [rows[to]];
    MarkedSnoc(mark, rows[from..to], rows[to]);
    UnrowsSnoc(Marked(mark, rows[from..to]), [mark] + rows[to]);
    assert [mark] + rows[to] + NEWLINE == [mark] + (rows[to] + NEWLINE);
  }

  lemma NothingMarked(rows: seq<string>, at: nat)
    requires at <= |rows|
    ensures forall mark :: Unrows(Marked(mark, rows[at..at])) == ""
  {
    assert rows[at..at] == [];
  }

  method ReadTable(lcs: array<Cell>, ghost a: seq<string>, ghost b: seq<string>, i: nat, j: nat, width: nat)
    returns (length: Cell)
    requires i <= |a| && j <= |b| && width == |b| + 1 && Filled(lcs, a, b, 0, width)
    ensures length as int == LcsFrom(a, b, i, j)
  {
    assert Holds(lcs, Base(i, width), LcsRow(a, b, i));
    assert LcsRow(a, b, i)[j] == LcsFrom(a, b, i, j);
    length := lcs[i * width + j];
  }

  /** A run goes on past the row it takes. */
  lemma RunNext(a: seq<string>, b: seq<string>, i: nat, j: nat)
    requires i <= |a| && j <= |b| && !AtMatch(a, b, i, j) && (i < |a| || j < |b|)
    ensures Run(a, b, i, j) == if TakesRemoval(a, b, i, j) then Run(a, b, i + 1, j) else Run(a, b, i, j + 1)
  {
  }

  /** The inner loop: the rows of one hunk. */
  method ChangeRun(lcs: array<Cell>, a: seq<string>, b: seq<string>, startI: nat, startJ: nat)
    returns (i: nat, j: nat, removed: string, added: string)
    requires startI <= |a| && startJ <= |b| && Filled(lcs, a, b, 0, |b| + 1)
    ensures (i, j) == Run(a, b, startI, startJ)
    ensures removed == Unrows(Marked('-', a[startI..i])) && added == Unrows(Marked('+', b[startJ..j]))
  {
    hide Base, LcsFrom, Filled, Unrows, Marked;
    i, j, removed, added := startI, startJ, "", "";
    NothingMarked(a, startI);
    NothingMarked(b, startJ);
    while i < |a| || j < |b|
      invariant startI <= i <= |a| && startJ <= j <= |b|
      invariant Run(a, b, startI, startJ) == Run(a, b, i, j)
      invariant removed == Unrows(Marked('-', a[startI..i])) && added == Unrows(Marked('+', b[startJ..j]))
      decreases |a| + |b| - i - j
    {
      if i < |a| && j < |b| && a[i] == b[j] { break; }
      var takesRemoval := i < |a|;
      if i < |a| && j < |b| {
        var down := ReadTable(lcs, a, b, i + 1, j, |b| + 1);
        var right := ReadTable(lcs, a, b, i, j + 1, |b| + 1);
        takesRemoval := down >= right;
      }
      assert takesRemoval == TakesRemoval(a, b, i, j);
      RunNext(a, b, i, j);
      if takesRemoval {
        MarkedBlockGrows('-', a, startI, i);
        removed := removed + "-" + a[i] + NEWLINE;
        i := i + 1;
      } else {
        MarkedBlockGrows('+', b, startJ, j);
        added := added + "+" + b[j] + NEWLINE;
        j := j + 1;
      }
    }
  }

  lemma WalkNext(a: seq<string>, b: seq<string>, i: nat, j: nat, offset: nat)
    requires i <= |a| && j <= |b|
    ensures i == |a| && j == |b| ==> Walk(a, b, i, j, offset) == []
    ensures AtMatch(a, b, i, j) ==> Walk(a, b, i, j, offset) == Walk(a, b, i + 1, j + 1, offset)
    ensures var (endI, endJ) := Run(a, b, i, j);
      (i < |a| || j < |b|) && !AtMatch(a, b, i, j) ==>
        Walk(a, b, i, j, offset)
        == [Hunk(offset + i, a[i..endI], offset + j, b[j..endJ])] + Walk(a, b, endI, endJ, offset)
  {
    hide Run, LcsFrom;
  }

  /** The outer loop: all hunks of the trimmed rows, as text. */
  method WriteHunks(lcs: array<Cell>, a: seq<string>, b: seq<string>, prefix: nat) returns (script: string)
    requires Filled(lcs, a, b, 0, |b| + 1)
    ensures script == Print(Walk(a, b, 0, 0, prefix))
  {
    hide Walk, Run, Print, Unrows, Marked, HeaderText, Filled, Lcs, LcsFrom;
    PrintNone();
    WalkNext(a, b, |a|, |b|, prefix);
    script := "";
    var i, j := 0, 0;
    while i < |a| || j < |b|
      invariant 0 <= i <= |a| && 0 <= j <= |b|
      invariant script + Print(Walk(a, b, i, j, prefix)) == Print(Walk(a, b, 0, 0, prefix))
      decreases |a| + |b| - i - j
    {
      WalkNext(a, b, i, j, prefix);
      if i < |a| && j < |b| && a[i] == b[j] {
        i, j := i + 1, j + 1;
      } else {
        var endI, endJ, removed, added := ChangeRun(lcs, a, b, i, j);
        ghost var h := Hunk(prefix + i, a[i..endI], prefix + j, b[j..endJ]);
        PrintCons(script, h, Walk(a, b, endI, endJ, prefix));
        script := script
                  + (HeaderText(prefix + i, endI - i, prefix + j, endJ - j) + NEWLINE + removed + added);
        i, j := endI, endJ;
      }
    }
  }

  method PrefixLength(rows: seq<string>, now: seq<string>) returns (prefix: nat)
    ensures prefix == CommonPrefix(rows, now, 0)
  {
    prefix := 0;
    while prefix < |rows| && prefix < |now| && rows[prefix] == now[prefix]
      invariant prefix <= |rows| && prefix <= |now| && forall k :: 0 <= k < prefix ==> rows[k] == now[k]
      invariant CommonPrefix(rows, now, prefix) == CommonPrefix(rows, now, 0)
    {
      prefix := prefix + 1;
    }
  }

  method SuffixLength(rows: seq<string>, now: seq<string>, prefix: nat) returns (suffix: nat)
    requires prefix <= |rows| && prefix <= |now|
    ensures suffix == CommonSuffix(rows, now, prefix, 0)
  {
    suffix := 0;
    while suffix < |rows| - prefix && suffix < |now| - prefix
          && rows[|rows| - suffix - 1] == now[|now| - suffix - 1]
      invariant prefix + suffix <= |rows| && prefix + suffix <= |now|
      invariant SuffixAgrees(rows, now, suffix)
      invariant CommonSuffix(rows, now, prefix, suffix) == CommonSuffix(rows, now, prefix, 0)
    {
      assert FromEnd(rows, suffix) == FromEnd(now, suffix);
      suffix := suffix + 1;
    }
  }

  /** tree_diff. */
  method TreeDiff(previous: string, current: string, sameText: string) returns (result: Option<string>)
    ensures result == Diff(previous, current, sameText)
  {
    hide Rows, Walk, Print, CommonPrefix, CommonSuffix;
    if previous == current { return Some(sameText); }
    var rows, now := Rows(previous), Rows(current);
    var prefix := PrefixLength(rows, now);
    var suffix := SuffixLength(rows, now, prefix);
    var a, b := rows[prefix..|rows| - suffix], now[prefix..|now| - suffix];
    if a != [] && |b| > MAX_CELLS / |a| { return None; }
    assert a != [] ==> MAX_CELLS / |a| <= MAX_CELLS;
    var lcs := FillTable(a, b);
    var script := WriteHunks(lcs, a, b, prefix);
    result := if 5 * |script| <= 3 * |current| then Some(script) else None;
  }
}
