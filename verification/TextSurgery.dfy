/** native/scu_host.c, compact_text_rows: the pass on first-child and next-sibling links, rewired in place. */
module TextSurgery {
  import opened Text
  import opened TextCover
  import opened TextCompaction

  /** What follows place `t` of a chain; -1 at its end. */
  function Next(chain: seq<nat>, t: nat): int {
    if t + 1 < |chain| then chain[t + 1] else -1
  }

  /** From `head`, the sibling links run through `chain` and end; -1 is the end. */
  ghost predicate Linked(head: int, links: seq<int>, chain: seq<nat>) {
    && head == (if |chain| == 0 then -1 else chain[0])
    && forall t :: 0 <= t < |chain| ==>
         chain[t] < |links| && links[chain[t]] == Next(chain, t)
  }

  /** A link outside the chain may change. */
  lemma LinkedElsewhere(head: int, links: seq<int>, after: seq<int>, chain: seq<nat>)
    requires Linked(head, links, chain) && |after| == |links|
    requires forall x :: x in chain && x < |links| ==> after[x] == links[x]
    ensures Linked(head, after, chain)
  {
    forall t | 0 <= t < |chain| ensures after[chain[t]] == links[chain[t]] {
      assert chain[t] in chain;
    }
  }

  lemma LinkedCons(first: nat, links: seq<int>, chain: seq<nat>)
    requires first < |links| && Linked(links[first], links, chain)
    ensures Linked(first, links, [first] + chain)
  {
    var all: seq<nat> := [first] + chain;
    forall t | 0 <= t < |all|
      ensures all[t] < |links| && links[all[t]] == Next(all, t)
    {
      if t > 0 {
        assert all[t] == chain[t - 1];
      }
      assert t + 1 < |all| ==> all[t + 1] == chain[t];
    }
  }

  /** The chains that matter once the rows from `i` on are visited. */
  predicate Relevant(rows: seq<Row>, fates: seq<Fate>, k: nat, i: nat)
    requires k < |rows| == |fates|
  {
    k < i || Live(rows, fates, k, i)
  }

  ghost predicate AllLinked(rows: seq<Row>, st: State, i: nat, children: seq<int>, siblings: seq<int>)
    requires Sized(rows, st)
  {
    && |children| == |siblings| == |rows|
    && forall k: nat | k < |rows| && Relevant(rows, st.fates, k, i) :: Linked(children[k], siblings, st.kids[k])
  }

  /** Row `i` goes to the front of its parent's chain; the other chains are as before. */
  lemma ChildLinked(rows: seq<Row>, k: nat, i: nat, heads: seq<int>, links: seq<int>, heads': seq<int>, links': seq<int>)
    requires i < |rows| && k < |rows| == |heads| == |links| == |heads'| == |links'|
    requires Linked(heads[k], links, Children(rows, k, i + 1))
    requires forall x :: 0 <= x < |links| && x != i ==> links'[x] == links[x]
    requires if rows[i].parent == k then heads'[k] == i && links'[i] == heads[k] else heads'[k] == heads[k]
    ensures Linked(heads'[k], links', Children(rows, k, i))
  {
    hide Children, Linked;
    var chain := Children(rows, k, i + 1);
    ChildrenUntouched(rows, k, i + 1);
    LinkedElsewhere(heads[k], links, links', chain);
    ChildrenFrom(rows, k, i);
    if rows[i].parent == k {
      LinkedCons(i, links', chain);
    }
  }

  lemma ChildrenFrom(rows: seq<Row>, k: nat, i: nat)
    requires i < |rows|
    ensures var chain := Children(rows, k, i + 1);
      Children(rows, k, i) == if rows[i].parent == k then [i] + chain else chain
  {
  }

  method LinkChildren(rows: seq<Row>) returns (children: array<int>, siblings: array<int>)
    requires Forest(rows)
    ensures fresh(children) && fresh(siblings) && children != siblings
    ensures AllLinked(rows, Initial(rows), |rows|, children[..], siblings[..])
  {
    var count := |rows|;
    children, siblings := new int[count](_ => -1), new int[count](_ => -1);
    var i := count;
    while i > 0
      invariant 0 <= i <= count
      invariant forall k: nat | k < count :: Linked(children[k], siblings[..], Children(rows, k, i))
    {
      i := i - 1;
      var parent := rows[i].parent;
      ghost var heads, links := children[..], siblings[..];
      if parent >= 0 {
        siblings[i] := children[parent];
        children[parent] := i;
      }
      forall k: nat | k < count ensures Linked(children[k], siblings[..], Children(rows, k, i)) {
        ChildLinked(rows, k, i, heads, links, children[..], siblings[..]);
      }
    }
  }

  /** Rows of `done`, `fresh` and the rest of the old chain are all different. */
  ghost predicate Distinct(chain: seq<nat>) {
    forall s, t :: 0 <= s < t < |chain| ==> chain[s] != chain[t]
  }

  /** `*link = target`, the link being that of the parent or of the previous row. */
  method SetLink(children: array<int>, siblings: array<int>, i: nat, previous: int, target: int)
    requires i < children.Length && -1 <= previous < siblings.Length && children != siblings
    modifies children, siblings
    ensures previous < 0 ==> children[i] == target && siblings[..] == old(siblings[..])
    ensures previous < 0 ==> forall k :: 0 <= k < children.Length && k != i ==> children[k] == old(children[k])
    ensures previous >= 0 ==> siblings[previous] == target && children[..] == old(children[..])
    ensures previous >= 0 ==>
              forall x :: 0 <= x < siblings.Length && x != previous ==> siblings[x] == old(siblings[x])
  {
    if previous < 0 {
      children[i] := target;
    } else {
      siblings[previous] := target;
    }
  }

  // ---- Splicing out the wrappers that are gone ----

  /** What the links below `i` are before the visit, and that only `i`'s and `mine`'s links have changed since. */
  ghost predicate OnlyMine(rows: seq<Row>, i: nat, mine: seq<nat>, children: seq<int>, siblings: seq<int>,
                           childrenNow: seq<int>, siblingsNow: seq<int>)
  {
    && |children| == |siblings| == |childrenNow| == |siblingsNow| == |rows|
    && (forall k :: 0 <= k < |rows| && k != i ==> childrenNow[k] == children[k])
    && (forall x :: 0 <= x < |rows| && x !in mine ==> siblingsNow[x] == siblings[x])
  }

  /** Chains below other rows share no row with the chain below `i`. */
  lemma OthersApart(rows: seq<Row>, st: State, i: nat, mine: seq<nat>, k: nat, x: nat)
    requires i < |rows| && Inv(rows, st, i + 1) && Hangs(rows, st.fates, mine, i)
    requires k < |rows| && k != i && Relevant(rows, st.fates, k, i) && x in st.kids[k]
    ensures x !in mine
  {
    if x in mine {
      if k > i {
        assert Live(rows, st.fates, k, i + 1) && Hangs(rows, st.fates, st.kids[k], k);
        ReachesBetween(rows, st.fates, x, i, k);
      }
    }
  }

  /** Links that run through `done` and then `rest`, where `*link` is the link in front of `rest`. */
  ghost predicate Walking(i: nat, previous: int, heads: seq<int>, links: seq<int>, done: seq<nat>, rest: seq<nat>)
    requires i < |heads|
  {
    && Linked(heads[i], links, done + rest)
    && previous == if |done| == 0 then -1 else done[|done| - 1]
  }

  lemma WalkOn(i: nat, previous: int, heads: seq<int>, links: seq<int>, done: seq<nat>, rest: seq<nat>)
    requires i < |heads| && Walking(i, previous, heads, links, done, rest) && rest != []
    ensures Walking(i, rest[0], heads, links, done + [rest[0]], rest[1..])
  {
    assert done + rest == (done + [rest[0]]) + rest[1..];
  }

  /** Where `*link` leads. */
  lemma LinkLeads(i: nat, previous: int, heads: seq<int>, links: seq<int>, done: seq<nat>, rest: seq<nat>)
    requires i < |heads| && Walking(i, previous, heads, links, done, rest)
    ensures -1 <= previous < |links|
    ensures (if previous < 0 then heads[i] else links[previous]) == if |rest| == 0 then -1 else rest[0]
    ensures forall t :: 0 <= t < |rest| ==>
              rest[t] < |links| && links[rest[t]] == Next(rest, t)
  {
    var all := done + rest;
    assert done != [] ==> all[|done| - 1] == previous;
    forall t | 0 <= t < |rest| ensures rest[t] == all[|done| + t] {
    }
  }

  /** Setting `*link` to the head of another chain puts that chain in the place of `rest`. */
  lemma Relinked(i: nat, previous: int, heads: seq<int>, links: seq<int>, done: seq<nat>, rest: seq<nat>,
                 heads': seq<int>, links': seq<int>, target: int, rest': seq<nat>)
    requires i < |heads| == |heads'| && |links| == |links'| && Walking(i, previous, heads, links, done, rest)
    requires Linked(target, links', rest') && Distinct(done)
    requires previous < 0 ==> heads'[i] == target
    requires previous >= 0 ==> heads'[i] == heads[i] && previous < |links| && links'[previous] == target
    requires forall x :: x in done && x != previous ==> x < |links| && links'[x] == links[x]
    ensures Walking(i, previous, heads', links', done, rest')
  {
    var all, before := done + rest', done + rest;
    forall t | 0 <= t < |all|
      ensures all[t] < |links'| && links'[all[t]] == Next(all, t)
    {
      if t < |done| {
        assert before[t] == done[t] && done[t] in done;
        assert t + 1 < |done| ==> before[t + 1] == done[t + 1];
        assert t == |done| - 1 && rest' != [] ==> all[t + 1] == rest'[0];
      } else {
        assert all[t] == rest'[t - |done|];
        assert t + 1 < |all| ==> all[t + 1] == rest'[t - |done| + 1];
      }
    }
  }

  lemma AscendingParts(low: seq<nat>, high: seq<nat>)
    requires Ascending(low + high)
    ensures Ascending(low) && Distinct(low) && Ascending(high) && Distinct(high)
    ensures forall x :: x in low ==> x !in high
  {
    var all := low + high;
    assert forall t :: 0 <= t < |low| ==> low[t] == all[t];
    assert forall t :: 0 <= t < |high| ==> high[t] == all[|low| + t];
  }

  /** The last row of a chain: where the walk along its links ends. */
  method LastOf(siblings: array<int>, first: nat, ghost chain: seq<nat>) returns (tail: nat)
    requires chain != [] && Linked(first, siblings[..], chain)
    ensures tail == chain[|chain| - 1]
  {
    tail := first;
    ghost var t := 0;
    while siblings[tail] >= 0
      invariant 0 <= t < |chain| && tail == chain[t] && tail < siblings.Length
      decreases |chain| - t
    {
      assert siblings[tail] == Next(chain, t);
      tail := siblings[tail];
      t := t + 1;
    }
    assert siblings[tail] == Next(chain, t);
  }

  /** Two chains become one when the last link of the first leads to the second. */
  lemma LinkedAppend(head: int, links: seq<int>, links': seq<int>, chain: seq<nat>, more: seq<nat>, target: int)
    requires chain != [] && Linked(head, links, chain) && Distinct(chain) && |links| == |links'|
    requires Linked(target, links', more) && links' == links[chain[|chain| - 1] := target]
    ensures Linked(head, links', chain + more)
  {
    var all := chain + more;
    forall t | 0 <= t < |all| ensures all[t] < |links'| && links'[all[t]] == Next(all, t) {
      if t < |chain| {
        assert all[t] == chain[t] && links[chain[t]] == Next(chain, t);
        assert t + 1 < |chain| ==> all[t + 1] == chain[t + 1];
        assert t + 1 == |chain| && more != [] ==> all[t + 1] == more[0];
      } else {
        assert all[t] == more[t - |chain|];
        assert t + 1 < |all| ==> all[t + 1] == more[t - |chain| + 1];
      }
    }
  }

  /** Taking the next row of the old chain: its piece is kept, and shares no row with what is done or still ahead. */
  lemma SpliceAhead(rows: seq<Row>, st: State, i: nat, done: seq<nat>, more: seq<nat>)
    requires Preorder(rows) && i < |rows| && Inv(rows, st, i + 1) && more != []
    requires (forall c <- more :: c in st.kids[i])
    requires Within(more, |rows|) && done + Splice(more, st.kids, st.fates) == Splice(st.kids[i], st.kids, st.fates)
    ensures var c := more[0];
            var piece := if st.fates[c].Kept? then [c] else st.kids[c];
            && rows[c].parent == i
            && done + piece + Splice(more[1..], st.kids, st.fates) == Splice(st.kids[i], st.kids, st.fates)
            && Distinct(done) && Distinct(piece)
            && (forall x <- piece :: x < |rows| && st.fates[x].Kept? && x !in done)
            && (forall y <- more[1..] :: y !in done && y !in piece)
            && (!st.fates[c].Kept? ==> Relevant(rows, st.fates, c, i + 1))
  {
    hide Ascending, Distinct, Hangs, Inv, Preorder, Reaches, Relevant, Splice, Untouched, Within;
    InvParts(rows, st, i);
    WithinRest(more, |rows|);
    var c := more[0];
    var piece := if st.fates[c].Kept? then [c] else st.kids[c];
    var rest, spliced := Splice(more[1..], st.kids, st.fates), Splice(st.kids[i], st.kids, st.fates);
    assert c in more;
    ChildOf(rows, st, i, c);
    SpliceFirst(more, st.kids, st.fates);
    SpliceKept(rows, st, i);
    PiecesApart(done, piece, rest, spliced);
    forall y | y in more[1..] ensures y !in done && y !in piece {
      if st.fates[y].Kept? {
        SpliceHolds(more[1..], st.kids, st.fates, y);
      }
    }
  }

  lemma InvParts(rows: seq<Row>, st: State, i: nat)
    requires Inv(rows, st, i + 1)
    ensures Forest(rows) && Sized(rows, st) && i < |rows|
  {
  }

  /** A child of the row in question. */
  lemma ChildOf(rows: seq<Row>, st: State, i: nat, c: nat)
    requires Inv(rows, st, i + 1) && c in st.kids[i]
    ensures c < |rows| && rows[c].parent == i && (!st.fates[c].Kept? ==> Relevant(rows, st.fates, c, i + 1))
  {
    assert Untouched(rows, st.kids[i], i);
    hide Hangs, Sound, Ascending;
  }

  lemma WithinRest(more: seq<nat>, n: nat)
    requires Within(more, n) && more != []
    ensures more[0] < n && Within(more[1..], n) && forall y <- more[1..] :: y in more && y < n
  {
  }

  lemma SpliceKept(rows: seq<Row>, st: State, i: nat)
    requires Preorder(rows) && i < |rows| && Inv(rows, st, i + 1)
    ensures var spliced := Splice(st.kids[i], st.kids, st.fates);
      Ascending(spliced) && forall x <- spliced :: x < |rows| && st.fates[x].Kept?
  {
    hide Ascending, Preorder, Reaches, Splice;
    SpliceHangs(rows, st, i);
  }

  lemma SpliceHolds(chain: seq<nat>, kids: seq<seq<nat>>, fates: seq<Fate>, y: nat)
    requires Sound(kids, |fates|) && Within(chain, |fates|) && y in chain && fates[y].Kept?
    ensures y in Splice(chain, kids, fates)
  {
    hide Splice, Sound;
    SpliceMembers(chain, kids, fates);
  }

  lemma PiecesApart(done: seq<nat>, piece: seq<nat>, rest: seq<nat>, spliced: seq<nat>)
    requires done + (piece + rest) == spliced && Ascending(spliced)
    ensures done + piece + rest == spliced && Distinct(done) && Distinct(piece)
    ensures forall x <- done :: x in spliced
    ensures forall x <- piece :: x in spliced && x !in done
    ensures forall x <- rest :: x !in done && x !in piece
  {
    hide Ascending, Distinct;
    Text.Regrouped(done, piece, rest);
    AscendingParts(done, piece + rest);
    AscendingParts(piece, rest);
  }

  lemma SpliceFirst(more: seq<nat>, kids: seq<seq<nat>>, fates: seq<Fate>)
    requires Sound(kids, |fates|) && Within(more, |fates|) && more != []
    ensures Splice(more, kids, fates)
         == (if fates[more[0]].Kept? then [more[0]] else kids[more[0]]) + Splice(more[1..], kids, fates)
  {
  }

  /** Where a wrapper that is gone leads: to the rows below it, whose last link now leads to the wrapper's next row. */
  method JoinBelow(child: nat, children: array<int>, siblings: array<int>, ghost below: seq<nat>, ghost more: seq<nat>)
    returns (next: int)
    requires children != siblings && child < children.Length == siblings.Length
    requires Linked(children[child], siblings[..], below) && Linked(siblings[child], siblings[..], more)
    requires Distinct(below) && forall y <- more :: y !in below
    modifies siblings
    ensures Linked(next, siblings[..], below + more)
    ensures forall x :: 0 <= x < siblings.Length && x !in below ==> siblings[x] == old(siblings[x])
  {
    ghost var links := siblings[..];
    next := siblings[child];
    if children[child] >= 0 {
      var tail := LastOf(siblings, children[child], below);
      assert tail in below;
      siblings[tail] := siblings[child];
      LinkedElsewhere(next, links, siblings[..], more);
      LinkedAppend(children[child], links, siblings[..], below, more, next);
      next := children[child];
    } else {
      assert below + more == more;
    }
  }

  /** A wrapper that is gone is replaced in the chain by the rows below it, if there are any. */
  method Hoist(i: nat, previous: int, child: nat, children: array<int>, siblings: array<int>,
               ghost done: seq<nat>, ghost below: seq<nat>, ghost more: seq<nat>) returns (next: int)
    requires children != siblings && i < children.Length == siblings.Length && child < children.Length && child != i
    requires Walking(i, previous, children[..], siblings[..], done, [child] + more)
    requires Linked(children[child], siblings[..], below) && Distinct(done) && Distinct(below)
    requires (forall x <- below :: x !in done) && forall y <- more :: y !in done && y !in below
    modifies children, siblings
    ensures Walking(i, previous, children[..], siblings[..], done, below + more)
    ensures next == (if |below + more| == 0 then -1 else (below + more)[0]) < siblings.Length
    ensures forall k :: 0 <= k < children.Length && k != i ==> children[k] == old(children[k])
    ensures forall x :: 0 <= x < siblings.Length && x !in done && x !in below ==> siblings[x] == old(siblings[x])
  {
    hide Linked, Walking;
    ghost var heads, links := children[..], siblings[..];
    ghost var rest := [child] + more;
    LinkLeads(i, previous, heads, links, done, rest);
    MoreLinked(links, child, more);
    PreviousIsDone(i, previous, heads, links, done, rest);
    next := JoinBelow(child, children, siblings, below, more);
    ghost var joined := siblings[..];
    LinkedHead(next, joined, below + more);
    SetLink(children, siblings, i, previous, next);
    LinkedElsewhere(next, joined, siblings[..], below + more);
    Relinked(i, previous, heads, links, done, rest, children[..], siblings[..], next, below + more);
  }

  lemma PreviousIsDone(i: nat, previous: int, heads: seq<int>, links: seq<int>, done: seq<nat>, rest: seq<nat>)
    requires i < |heads| && Walking(i, previous, heads, links, done, rest)
    ensures previous >= 0 ==> previous in done
    ensures forall x <- done :: x < |links|
  {
    var all := done + rest;
    forall x | x in done ensures x < |links| {
      var t :| 0 <= t < |done| && done[t] == x;
      assert all[t] == x;
    }
  }

  lemma LinkedHead(head: int, links: seq<int>, chain: seq<nat>)
    requires Linked(head, links, chain)
    ensures head == if |chain| == 0 then -1 else chain[0]
    ensures |chain| > 0 ==> head < |links|
  {
  }

  lemma MoreLinked(links: seq<int>, child: nat, more: seq<nat>)
    requires forall t :: 0 <= t < |[child] + more| ==>
               ([child] + more)[t] < |links| && links[([child] + more)[t]] == Next([child] + more, t)
    ensures child < |links| && Linked(links[child], links, more)
  {
    var rest: seq<nat> := [child] + more;
    assert rest[0] == child && links[child] == Next(rest, 0);
    forall t | 0 <= t < |more| ensures more[t] < |links| && links[more[t]] == Next(more, t) {
      assert more[t] == rest[t + 1] && links[rest[t + 1]] == Next(rest, t + 1);
    }
  }

  /** How far the walk along the chain is: rows passed, rows just hoisted, and the rest of the old chain. */
  datatype Progress = Progress(done: seq<nat>, hoisted: seq<nat>, more: seq<nat>)

  ghost predicate Splicing(rows: seq<Row>, st: State, i: nat, g: Progress, previous: int, child: int,
                           heads: seq<int>, links: seq<int>, heads0: seq<int>, links0: seq<int>)
    requires Sized(rows, st) && i < |rows|
  {
    && |heads| == |links| == |heads0| == |links0| == |rows| && -1 <= child < |rows|
    && Within(g.more, |rows|) && (forall c <- g.more :: c in st.kids[i])
    && (forall x <- g.hoisted :: x < |rows| && st.fates[x].Kept?)
    && Walking(i, previous, heads, links, g.done, g.hoisted + g.more)
    && child == (if |g.hoisted + g.more| == 0 then -1 else (g.hoisted + g.more)[0])
    && g.done + g.hoisted + Splice(g.more, st.kids, st.fates) == Splice(st.kids[i], st.kids, st.fates)
    && (forall k :: 0 <= k < |rows| && k != i ==> heads[k] == heads0[k])
    && (forall x :: 0 <= x < |rows| && x !in g.done && x !in g.hoisted ==> links[x] == links0[x])
  }

  /** A row that stays is passed over. */
  lemma SplicingOn(rows: seq<Row>, st: State, i: nat, g: Progress, previous: int, child: nat,
                   heads: seq<int>, links: seq<int>, heads0: seq<int>, links0: seq<int>) returns (g': Progress)
    requires Sized(rows, st) && i < |rows| && Splicing(rows, st, i, g, previous, child, heads, links, heads0, links0)
    requires child < |rows| && st.fates[child].Kept?
    ensures |links| == |rows| && links[child] < |rows|
    ensures Splicing(rows, st, i, g', child, links[child], heads, links, heads0, links0)
    ensures |g'.more| < |g.more| || (g'.more == g.more && |g'.hoisted| < |g.hoisted|)
  {
    var rest := g.hoisted + g.more;
    WalkOn(i, previous, heads, links, g.done, rest);
    NextLeads(rows, i, previous, heads, links, g.done, rest);
    hide Walking;
    g' := Passed(g, child);
    if g.hoisted != [] {
      HoistedPassed(g, child, Splice(g.more, st.kids, st.fates));
    } else {
      SpliceFirst(g.more, st.kids, st.fates);
      MorePassed(g, child, Splice(g.more, st.kids, st.fates), Splice(g.more[1..], st.kids, st.fates));
    }
    hide Splice;
  }

  function Passed(g: Progress, child: nat): Progress
    requires g.hoisted != [] || g.more != []
  {
    if g.hoisted != [] then Progress(g.done + [child], g.hoisted[1..], g.more)
    else Progress(g.done + [child], [], g.more[1..])
  }

  lemma NextLeads(rows: seq<Row>, i: nat, previous: int, heads: seq<int>, links: seq<int>, done: seq<nat>, rest: seq<nat>)
    requires i < |heads| == |links| == |rows| && Walking(i, previous, heads, links, done, rest) && rest != []
    ensures rest[0] < |links| && links[rest[0]] == (if |rest[1..]| == 0 then -1 else rest[1..][0]) < |rows|
  {
    LinkLeads(i, previous, heads, links, done, rest);
    assert links[rest[0]] == Next(rest, 0);
    assert |rest| > 1 ==> rest[1] < |links|;
  }

  lemma HoistedPassed(g: Progress, child: nat, spliced: seq<nat>)
    requires g.hoisted != [] && child == g.hoisted[0]
    ensures var g' := Passed(g, child);
      && g'.done + g'.hoisted + spliced == g.done + g.hoisted + spliced
      && (g.hoisted + g.more)[1..] == g'.hoisted + g'.more
      && (forall x :: x in g'.done || x in g'.hoisted <==> x in g.done || x in g.hoisted)
      && forall x <- g'.hoisted :: x in g.hoisted
  {
    assert g.hoisted == [child] + g.hoisted[1..];
    assert (g.done + [child]) + g.hoisted[1..] == g.done + g.hoisted;
  }

  lemma MorePassed(g: Progress, child: nat, spliced: seq<nat>, later: seq<nat>)
    requires g.hoisted == [] && g.more != [] && child == g.more[0] && spliced == [child] + later
    ensures var g' := Passed(g, child);
      && g'.done + g'.hoisted + later == g.done + g.hoisted + spliced
      && (g.hoisted + g.more)[1..] == g'.hoisted + g'.more
      && (forall x :: x in g.done || x in g.hoisted ==> x in g'.done)
      && forall x <- g'.more :: x in g.more
  {
    assert g.hoisted + g.more == g.more && [] + g.more[1..] == g.more[1..];
    assert g.done + [] + ([child] + later) == (g.done + [child]) + [] + later;
  }

  /** A row that is gone gives way to the rows below it. */
  method SplicingOver(ghost rows: seq<Row>, ghost st: State, i: nat, ghost g: Progress, previous: int, child: nat,
                      children: array<int>, siblings: array<int>, ghost heads0: seq<int>, ghost links0: seq<int>)
    returns (next: int, ghost g': Progress)
    requires Preorder(rows) && i < |rows| && Inv(rows, st, i + 1) && children != siblings
    requires AllLinked(rows, st, i + 1, heads0, links0)
    requires Splicing(rows, st, i, g, previous, child, children[..], siblings[..], heads0, links0)
    requires child < |rows| && !st.fates[child].Kept?
    modifies children, siblings
    ensures next < |rows|
    ensures Splicing(rows, st, i, g', previous, next, children[..], siblings[..], heads0, links0)
    ensures |g'.more| < |g.more|
  {
    hide Splice, Linked, Walking, Preorder, Hangs, Untouched;
    ghost var rest := g.hoisted + g.more;
    assert rest == g.more == [child] + g.more[1..] && g.done + g.hoisted == g.done;
    SpliceAhead(rows, st, i, g.done, g.more);
    LinkedElsewhere(heads0[child], links0, siblings[..], st.kids[child]);
    g' := Progress(g.done, st.kids[child], g.more[1..]);
    next := Hoist(i, previous, child, children, siblings, g.done, g'.hoisted, g'.more);
  }

  method SpliceOmitted(ghost rows: seq<Row>, ghost st: State, i: nat, omitted: array<bool>,
                       children: array<int>, siblings: array<int>)
    requires Preorder(rows) && i < |rows| && Inv(rows, st, i + 1) && children != siblings
    requires AllLinked(rows, st, i + 1, children[..], siblings[..])
    requires omitted.Length == |rows| && forall j :: 0 <= j < |rows| ==> omitted[j] == !st.fates[j].Kept?
    modifies children, siblings
    ensures Linked(children[i], siblings[..], Splice(st.kids[i], st.kids, st.fates))
    ensures OnlyMine(rows, i, Splice(st.kids[i], st.kids, st.fates), old(children[..]), old(siblings[..]),
                     children[..], siblings[..])
  {
    ghost var g := Progress([], [], st.kids[i]);
    var previous, child := -1, children[i];
    SplicingStarts(rows, st, i, children[..], siblings[..]);
    hide Splicing, Preorder, Inv, AllLinked, Splice, Linked, OnlyMine;
    while child >= 0
      invariant children.Length == siblings.Length == |rows| && child < |rows|
      invariant Splicing(rows, st, i, g, previous, child, children[..], siblings[..],
                         old(children[..]), old(siblings[..]))
      decreases |g.more|, |g.hoisted|
    {
      if !omitted[child] {
        g := SplicingOn(rows, st, i, g, previous, child, children[..], siblings[..],
                        old(children[..]), old(siblings[..]));
        previous, child := child, siblings[child];
      } else {
        child, g := SplicingOver(rows, st, i, g, previous, child, children, siblings,
                                 old(children[..]), old(siblings[..]));
      }
    }
    SplicingEnds(rows, st, i, g, previous, child, children[..], siblings[..], old(children[..]), old(siblings[..]));
  }

  lemma SplicingStarts(rows: seq<Row>, st: State, i: nat, heads: seq<int>, links: seq<int>)
    requires Sized(rows, st) && i < |rows| && AllLinked(rows, st, i + 1, heads, links)
    ensures heads[i] < |rows|
    ensures Splicing(rows, st, i, Progress([], [], st.kids[i]), -1, heads[i], heads, links, heads, links)
  {
    assert Relevant(rows, st.fates, i, i + 1);
    assert [] + st.kids[i] == st.kids[i] && [] + ([] + st.kids[i]) == st.kids[i];
  }

  lemma SplicingEnds(rows: seq<Row>, st: State, i: nat, g: Progress, previous: int, child: int,
                     heads: seq<int>, links: seq<int>, heads0: seq<int>, links0: seq<int>)
    requires Sized(rows, st) && i < |rows| && Splicing(rows, st, i, g, previous, child, heads, links, heads0, links0)
    requires child < 0
    ensures Linked(heads[i], links, Splice(st.kids[i], st.kids, st.fates))
    ensures OnlyMine(rows, i, Splice(st.kids[i], st.kids, st.fates), heads0, links0, heads, links)
  {
    assert g.hoisted + g.more == [] && g.hoisted == [] && g.more == [];
    assert g.done + g.hoisted + [] == g.done == g.done + (g.hoisted + g.more);
  }

  // ---- Dropping runs that repeat the parent ----

  /** The links of a chain, and which of its rows are leaves. */
  ghost predicate Stands(st: State, heads: seq<int>, links: seq<int>, rest: seq<nat>) {
    && |heads| == |links| == |st.kids| && Within(rest, |st.kids|)
    && (forall t :: 0 <= t < |rest| ==> links[rest[t]] == Next(rest, t))
    && (forall t :: 0 <= t < |rest| ==> (heads[rest[t]] < 0 <==> st.kids[rest[t]] == []))
  }

  lemma {:induction false} TextsOf(rows: seq<Row>, run: seq<nat>)
    requires Within(run, |rows|)
    ensures |Texts(rows, run)| == |run|
    ensures forall t :: 0 <= t < |run| ==> Texts(rows, run)[t] == ProseText(rows[run[t]])
  {
    hide ProseText;
    if run != [] {
      TextsOf(rows, run[1..]);
      var texts := Texts(rows, run);
      assert texts == [ProseText(rows[run[0]])] + Texts(rows, run[1..]);
      hide Texts;
      forall t | 0 < t < |run| ensures texts[t] == ProseText(rows[run[t]]) {
        assert run[t] == run[1..][t - 1];
      }
    }
  }

  method SkipLeadingSpaces(s: string) returns (rest: string)
    ensures rest == SkipSpaces(s)
  {
    rest := s;
    while rest != "" && rest[0] == ' '
      invariant SkipSpaces(rest) == SkipSpaces(s)
      decreases |rest|
    {
      rest := rest[1..];
    }
  }

  /** After `m` of the texts: nothing has failed to match, and what is left of the parent's text is what the others
      repeat, just when all of them repeat all of it. */
  ghost predicate Matching(own: string, texts: seq<string>, m: nat, matches: bool, cursor: string)
    requires m <= |texts|
  {
    Repeats(own, texts) == (matches && Consume(cursor, texts[m..], m == 0) == Some(""))
  }

  lemma MatchingEnds(own: string, texts: seq<string>, matches: bool, cursor: string)
    ensures Matching(own, texts, 0, true, own)
    ensures Matching(own, texts, |texts|, matches, cursor) ==> Repeats(own, texts) == (matches && |cursor| == 0)
  {
    assert texts[0..] == texts && texts[|texts|..] == [];
  }

  lemma MatchFailed(own: string, texts: seq<string>, m: nat, cursor: string)
    requires m < |texts| && Matching(own, texts, m, false, cursor)
    ensures Matching(own, texts, m + 1, false, cursor)
  {
  }

  /** One text of a run is matched against what is left of the parent's. */
  method MatchText(ghost own: string, cursor: string, text: string, skip: bool, ghost texts: seq<string>, ghost m: nat)
    returns (matches: bool, rest: string)
    requires m < |texts| && text == texts[m] && skip == (m != 0) && Matching(own, texts, m, true, cursor)
    ensures Matching(own, texts, m + 1, matches, rest)
  {
    assert texts[m..][0] == texts[m] && texts[m..][1..] == texts[m + 1..];
    rest := cursor;
    if skip {
      rest := SkipLeadingSpaces(cursor);
    }
    matches := text <= rest;
    if matches {
      rest := rest[|text|..];
    }
  }

  /** `n` is the length of the leading run of leaf prose, and `texts` are its texts. */
  ghost predicate Leads(rows: seq<Row>, heads: seq<int>, links: seq<int>, rest: seq<nat>, n: nat, texts: seq<string>) {
    && |heads| == |links| == |rows| && 0 < n <= |rest| && |texts| == n && Within(rest, |rows|) && Distinct(rest)
    && (forall t :: 0 <= t < |rest| ==> links[rest[t]] == Next(rest, t))
    && (forall t :: 0 <= t < n ==> ProseRow(rows[rest[t]]) && heads[rest[t]] < 0 && texts[t] == ProseText(rows[rest[t]]))
    && (n < |rest| ==> !ProseRow(rows[rest[n]]) || heads[rest[n]] >= 0)
  }

  /** The walk along a run has passed `m` of its rows. */
  ghost predicate Scanning(rest: seq<nat>, n: nat, m: nat, last: nat, next: int) {
    m <= n <= |rest| && next == (if m < |rest| then rest[m] else -1) && (m > 0 ==> last == rest[m - 1])
  }

  lemma ScanOn(rows: seq<Row>, heads: seq<int>, links: seq<int>, rest: seq<nat>, n: nat, texts: seq<string>,
               m: nat, last: nat, next: int)
    requires Leads(rows, heads, links, rest, n, texts) && Scanning(rest, n, m, last, next)
    ensures |heads| == |links| == |rows| && |texts| == n && 0 < n <= |rest|
    ensures m <= n && -1 <= next < |rows| && (m < n <==> next >= 0 && ProseRow(rows[next]) && heads[next] < 0)
    ensures m < n ==> texts[m] == ProseText(rows[next]) && (next != rest[0] <==> m != 0)
                      && Scanning(rest, n, m + 1, next, links[next])
    ensures m == n ==> last == rest[n - 1] && next == Next(rest, n - 1)
  {
    hide ProseRow, ProseText;
  }

  lemma ScanStarts(rows: seq<Row>, heads: seq<int>, links: seq<int>, rest: seq<nat>, n: nat, texts: seq<string>,
                   last: nat, next: int)
    requires Leads(rows, heads, links, rest, n, texts)
    ensures rest != [] && 0 < n <= |rest| && (next == rest[0] ==> Scanning(rest, n, 0, last, next))
  {
  }

  lemma RunLeads(rows: seq<Row>, st: State, heads: seq<int>, links: seq<int>, rest: seq<nat>)
    requires |rows| == |st.kids| && Stands(st, heads, links, rest) && Distinct(rest) && RunLength(rows, st, rest) > 0
    ensures var n := RunLength(rows, st, rest); Leads(rows, heads, links, rest, n, Texts(rows, rest[..n]))
  {
    hide Texts, ProseText, ProseRow, Distinct, Next, RunLength;
    RunLengthStops(rows, st, rest);
    var n := RunLength(rows, st, rest);
    TextsOf(rows, rest[..n]);
    assert forall t :: 0 <= t < n ==> rest[..n][t] == rest[t];
    forall t | 0 <= t < n
      ensures ProseRow(rows[rest[t]]) && heads[rest[t]] < 0 && Texts(rows, rest[..n])[t] == ProseText(rows[rest[t]])
    {
      assert LeafProse(rows, st, rest[t]);
    }
  }

  /** The maximal run of leaf prose from `first` on: its last row, what follows it, and whether it repeats `own`. */
  method ScanRun(rows: seq<Row>, own: string, first: nat, children: array<int>, siblings: array<int>,
                 ghost rest: seq<nat>, ghost n: nat, ghost texts: seq<string>)
    returns (last: nat, next: int, repeats: bool)
    requires Leads(rows, children[..], siblings[..], rest, n, texts) && first == rest[0]
    ensures last == rest[n - 1] && next == Next(rest, n - 1) && repeats == Repeats(own, texts)
  {
    hide *;
    ghost var m, heads, links := 0, children[..], siblings[..];
    var cursor, matches := own, true;
    last, next := first, first;
    ScanStarts(rows, heads, links, rest, n, texts, last, next);
    MatchingEnds(own, texts, true, own);
    ScanOn(rows, heads, links, rest, n, texts, m, last, next);
    while next >= 0 && ProseRow(rows[next]) && children[next] < 0
      invariant children[..] == heads && siblings[..] == links && |heads| == |links| == |rows|
      invariant Scanning(rest, n, m, last, next)
      invariant next < |rows| && m <= n && (m < n <==> next >= 0 && ProseRow(rows[next]) && heads[next] < 0)
      invariant Matching(own, texts, m, matches, cursor)
      decreases n - m
    {
      ScanOn(rows, heads, links, rest, n, texts, m, last, next);
      if matches {
        matches, cursor := MatchText(own, cursor, ProseText(rows[next]), next != first, texts, m);
      } else {
        MatchFailed(own, texts, m, cursor);
      }
      last := next;
      next := siblings[next];
      m := m + 1;
      ScanOn(rows, heads, links, rest, n, texts, m, last, next);
    }
    ScanOn(rows, heads, links, rest, n, texts, m, last, next);
    MatchingEnds(own, texts, matches, cursor);
    repeats := matches && |cursor| == 0;
  }

  /** The rows of a run go, and the parent takes over their truncation. */
  method DropRun(i: nat, first: nat, next: int, siblings: array<int>, omitted: array<bool>, truncated: array<bool>,
                 ghost run: seq<nat>)
    requires run != [] && first == run[0] && Distinct(run) && forall t :: 0 <= t < |run| ==> run[t] != next
    requires siblings.Length == omitted.Length == truncated.Length && Within(run, siblings.Length)
    requires forall t :: 0 <= t < |run| ==> siblings[run[t]] == if t + 1 < |run| then run[t + 1] else next
    requires i < truncated.Length && i !in run && omitted != truncated
    modifies omitted, truncated
    ensures forall j :: 0 <= j < omitted.Length ==> omitted[j] == (old(omitted[j]) || j in run)
    ensures forall j :: 0 <= j < truncated.Length && j != i ==> truncated[j] == old(truncated[j])
    ensures truncated[i] == (old(truncated[i]) || exists t :: 0 <= t < |run| && old(truncated[..])[run[t]])
  {
    ghost var m, was := 0, truncated[..];
    var row: int := first;
    while row != next
      invariant 0 <= m <= |run| && row == (if m < |run| then run[m] else next)
      invariant forall j :: 0 <= j < omitted.Length ==>
                  omitted[j] == (old(omitted[j]) || exists t :: 0 <= t < m && run[t] == j)
      invariant forall j :: 0 <= j < truncated.Length && j != i ==> truncated[j] == was[j]
      invariant truncated[i] == (was[i] || exists t :: 0 <= t < m && was[run[t]])
      decreases |run| - m
    {
      assert run[m] in run;
      omitted[row] := true;
      if truncated[row] { truncated[i] := true; }
      row := siblings[row];
      m := m + 1;
    }
  }

  /** What the walk has kept and dropped so far, with what it will do with the rest, is what is to be done. */
  ghost predicate Remaining(rows: seq<Row>, st: State, own: string, chain: seq<nat>, done: seq<nat>, rest: seq<nat>,
                            runs: seq<seq<nat>>)
    requires |rows| == |st.kids| && Within(chain, |rows|) && Within(rest, |rows|)
  {
    Collapse(rows, st, own, chain) == (done + Collapse(rows, st, own, rest).0, runs + Collapse(rows, st, own, rest).1)
  }

  ghost predicate Collapsing(rows: seq<Row>, st: State, i: nat, chain: seq<nat>, done: seq<nat>, rest: seq<nat>,
                             runs: seq<seq<nat>>, previous: int, child: int,
                             heads: seq<int>, links: seq<int>, heads0: seq<int>, links0: seq<int>)
    requires Sized(rows, st) && i < |rows| && Within(chain, |rows|)
  {
    var own := Own(rows[i]);
    && |heads| == |links| == |heads0| == |links0| == |rows|
    && Walking(i, previous, heads, links, done, rest)
    && child == (if |rest| == 0 then -1 else rest[0])
    && Within(rest, |rows|) && Distinct(done + rest) && (forall x <- done + rest :: x in chain)
    && Remaining(rows, st, own, chain, done, rest, runs)
    && (forall k :: 0 <= k < |rows| && k != i ==> heads[k] == heads0[k])
    && (forall x :: 0 <= x < |rows| && x !in chain ==> links[x] == links0[x])
  }

  /** What dropping `runs` has marked: the rows that are gone, and whether the parent is truncated now. */
  ghost predicate MarkedGone(i: nat, runs: seq<seq<nat>>, gone: seq<bool>, cut: seq<bool>,
                             gone0: seq<bool>, cut0: seq<bool>)
  {
    && |gone| == |cut| == |gone0| == |cut0| && i < |cut|
    && (forall j :: 0 <= j < |gone| ==> gone[j] == (gone0[j] || RunWith(runs, j).Some?))
    && (forall j :: 0 <= j < |cut| && j != i ==> cut[j] == cut0[j])
    && cut[i] == (cut0[i] || AnyTruncated(cut0, runs))
  }

  /** Before the walk, for every row of the chain: it is not `i`, and no children link means nothing below it. */
  ghost predicate Leaves(st: State, i: nat, chain: seq<nat>, heads: seq<int>) {
    |heads| == |st.kids| && forall c <- chain :: c < |heads| && c != i && (heads[c] < 0 <==> st.kids[c] == [])
  }

  lemma {:induction false} RunWithSnoc(runs: seq<seq<nat>>, run: seq<nat>, j: nat)
    ensures RunWith(runs + [run], j).Some? <==> RunWith(runs, j).Some? || j in run
  {
    if runs == [] {
      assert runs + [run] == [run];
    } else {
      RunWithSnoc(runs[1..], run, j);
      assert (runs + [run])[1..] == runs[1..] + [run];
    }
  }

  /** Several rows are passed over at once. */
  lemma {:induction false} WalkFar(i: nat, previous: int, heads: seq<int>, links: seq<int>,
                                   done: seq<nat>, rest: seq<nat>, cut: nat)
    requires i < |heads| && Walking(i, previous, heads, links, done, rest) && 0 < cut <= |rest|
    ensures Walking(i, rest[cut - 1], heads, links, done + rest[..cut], rest[cut..])
  {
    assert done + rest == (done + rest[..cut]) + rest[cut..];
  }

  /** Rows that stay are passed over. */
  lemma CollapsingOn(rows: seq<Row>, st: State, i: nat, chain: seq<nat>, done: seq<nat>, rest: seq<nat>,
                     runs: seq<seq<nat>>, previous: int, child: int,
                     heads: seq<int>, links: seq<int>, heads0: seq<int>, links0: seq<int>, n: nat, cut: nat)
    requires Sized(rows, st) && i < |rows| && Within(chain, |rows|) && rest != [] && Own(rows[i]) != ""
    requires Collapsing(rows, st, i, chain, done, rest, runs, previous, child, heads, links, heads0, links0)
    requires n == RunLength(rows, st, rest) && cut == if n == 0 then 1 else n
    requires n > 0 ==> !Repeats(Own(rows[i]), Texts(rows, rest[..n]))
    ensures Collapsing(rows, st, i, chain, done + rest[..cut], rest[cut..], runs, rest[cut - 1],
                       Next(rest, cut - 1), heads, links, heads0, links0)
  {
    hide Repeats, Texts, Collapse, Linked, Own;
    CollapseFrom(rows, st, Own(rows[i]), rest);
    WalkFar(i, previous, heads, links, done, rest, cut);
    var kept := Collapse(rows, st, Own(rows[i]), rest[cut..]).0;
    assert done + (rest[..cut] + kept) == (done + rest[..cut]) + kept;
    assert done + rest == (done + rest[..cut]) + rest[cut..];
  }

  lemma AnyTruncatedSnoc(cut: seq<bool>, runs: seq<seq<nat>>, run: seq<nat>)
    requires Within(run, |cut|)
    ensures AnyTruncated(cut, runs + [run]) <==> AnyTruncated(cut, runs) || exists t :: 0 <= t < |run| && cut[run[t]]
  {
    forall j: nat ensures RunWith(runs + [run], j).Some? <==> RunWith(runs, j).Some? || j in run {
      RunWithSnoc(runs, run, j);
    }
    if t :| 0 <= t < |run| && cut[run[t]] {
      assert run[t] in run && RunWith(runs + [run], run[t]).Some?;
    }
  }

  lemma RestLinked(links: seq<int>, rest: seq<nat>, n: nat)
    requires 0 < n <= |rest|
    requires forall t :: 0 <= t < |rest| ==> rest[t] < |links| && links[rest[t]] == Next(rest, t)
    ensures Linked(Next(rest, n - 1), links, rest[n..])
  {
    var tail := rest[n..];
    forall t | 0 <= t < |tail| ensures tail[t] < |links| && links[tail[t]] == Next(tail, t) {
      assert tail[t] == rest[n + t] && links[rest[n + t]] == Next(rest, n + t);
      assert t + 1 < |tail| ==> tail[t + 1] == rest[n + t + 1];
    }
  }

  /** A run that repeats the parent is dropped from the chain. */
  lemma CollapsingOver(rows: seq<Row>, st: State, i: nat, chain: seq<nat>, done: seq<nat>, rest: seq<nat>,
                       runs: seq<seq<nat>>, previous: int, child: int, heads: seq<int>, links: seq<int>,
                       heads0: seq<int>, links0: seq<int>, heads': seq<int>, links': seq<int>, n: nat)
    requires Sized(rows, st) && i < |rows| && Within(chain, |rows|) && rest != [] && Own(rows[i]) != ""
    requires Collapsing(rows, st, i, chain, done, rest, runs, previous, child, heads, links, heads0, links0)
    requires n == RunLength(rows, st, rest) && n > 0 && Repeats(Own(rows[i]), Texts(rows, rest[..n]))
    requires |heads'| == |links'| == |rows|
    requires previous < 0 ==> heads' == heads[i := Next(rest, n - 1)] && links' == links
    requires previous >= 0 ==>
               previous < |rows| && heads' == heads && links' == links[previous := Next(rest, n - 1)]
    ensures Collapsing(rows, st, i, chain, done, rest[n..], runs + [rest[..n]], previous, Next(rest, n - 1),
                       heads', links', heads0, links0)
  {
    CollapseOver(rows, st, Own(rows[i]), chain, done, rest, runs, n);
    hide Remaining, Linked, Own, LeafProse, Distinct, Next, Repeats, Texts, RunLength;
    RestWalked(i, previous, heads, links, done, rest, heads', links', n);
    RestKept(done, rest, n, chain, |rows|);
    PreviousIsDone(i, previous, heads, links, done, rest);
    hide Walking;
    LinksOutside(chain, done, rest, previous, links, links0, links', Next(rest, n - 1));
  }

  lemma LinksOutside(chain: seq<nat>, done: seq<nat>, rest: seq<nat>, previous: int, links: seq<int>,
                     links0: seq<int>, links': seq<int>, target: int)
    requires |links| == |links0| == |links'| && (forall x <- done + rest :: x in chain)
    requires previous >= 0 ==> previous in done && previous < |links| && links' == links[previous := target]
    requires previous < 0 ==> links' == links
    requires forall x :: 0 <= x < |links| && x !in chain ==> links[x] == links0[x]
    ensures forall x :: 0 <= x < |links| && x !in chain ==> links'[x] == links0[x]
  {
    assert previous in done ==> previous in done + rest;
  }

  lemma CollapseOver(rows: seq<Row>, st: State, own: string, chain: seq<nat>, done: seq<nat>, rest: seq<nat>,
                     runs: seq<seq<nat>>, n: nat)
    requires |rows| == |st.kids| && Within(chain, |rows|) && Within(rest, |rows|) && rest != [] && own != ""
    requires n == RunLength(rows, st, rest) && n > 0 && Repeats(own, Texts(rows, rest[..n]))
    requires Remaining(rows, st, own, chain, done, rest, runs)
    ensures Remaining(rows, st, own, chain, done, rest[n..], runs + [rest[..n]])
  {
    var whole, tail, more := Collapse(rows, st, own, chain), Collapse(rows, st, own, rest), Collapse(rows, st, own, rest[n..]);
    assert whole == (done + tail.0, runs + tail.1);
    CollapseFrom(rows, st, own, rest);
    assert tail == (more.0, [rest[..n]] + more.1);
    Regrouped(whole, tail, more, done, runs, rest[..n]);
  }

  lemma Regrouped(whole: (seq<nat>, seq<seq<nat>>), tail: (seq<nat>, seq<seq<nat>>), more: (seq<nat>, seq<seq<nat>>),
                  done: seq<nat>, runs: seq<seq<nat>>, run: seq<nat>)
    requires whole == (done + tail.0, runs + tail.1) && tail == (more.0, [run] + more.1)
    ensures whole == (done + more.0, (runs + [run]) + more.1)
  {
    assert runs + ([run] + more.1) == (runs + [run]) + more.1;
  }

  lemma RestKept(done: seq<nat>, rest: seq<nat>, n: nat, chain: seq<nat>, bound: nat)
    requires n <= |rest| && Within(rest, bound) && Distinct(done + rest) && forall x <- done + rest :: x in chain
    ensures Within(rest[n..], bound) && Distinct(done + rest[n..]) && forall x <- done + rest[n..] :: x in chain
  {
    assert rest == rest[..n] + rest[n..];
    DistinctParts(done, rest[..n], rest[n..]);
    forall x | x in done + rest[n..] ensures x in chain {
      assert x in done + rest;
    }
  }

  /** Setting the link in front of a run to what follows it takes the run out of the chain. */
  lemma RestWalked(i: nat, previous: int, heads: seq<int>, links: seq<int>, done: seq<nat>, rest: seq<nat>,
                   heads': seq<int>, links': seq<int>, n: nat)
    requires i < |heads| == |heads'| && |links| == |links'| && Walking(i, previous, heads, links, done, rest)
    requires 0 < n <= |rest| && Distinct(done + rest)
    requires previous < 0 ==> heads' == heads[i := Next(rest, n - 1)] && links' == links
    requires previous >= 0 ==>
               previous < |links| && heads' == heads && links' == links[previous := Next(rest, n - 1)]
    ensures Walking(i, previous, heads', links', done, rest[n..])
    ensures Next(rest, n - 1) == if |rest[n..]| == 0 then -1 else rest[n..][0]
  {
    var run, more := rest[..n], rest[n..];
    assert rest == run + more;
    LinkLeads(i, previous, heads, links, done, rest);
    PreviousIsDone(i, previous, heads, links, done, rest);
    RestLinked(links, rest, n);
    DistinctParts(done, run, more);
    hide Linked;
    LinkedElsewhere(Next(rest, n - 1), links, links', more);
    Relinked(i, previous, heads, links, done, rest, heads', links', Next(rest, n - 1), more);
  }

  lemma MarkedMore(i: nat, runs: seq<seq<nat>>, run: seq<nat>, gone: seq<bool>, cut: seq<bool>,
                   gone0: seq<bool>, cut0: seq<bool>, gone': seq<bool>, cut': seq<bool>)
    requires MarkedGone(i, runs, gone, cut, gone0, cut0) && Within(run, |cut|) && i !in run
    requires |gone'| == |gone| == |cut'|
    requires forall j :: 0 <= j < |gone| ==> gone'[j] == (gone[j] || j in run)
    requires forall j :: 0 <= j < |cut| && j != i ==> cut'[j] == cut[j]
    requires cut'[i] == (cut[i] || exists t :: 0 <= t < |run| && cut[run[t]])
    ensures MarkedGone(i, runs + [run], gone', cut', gone0, cut0)
  {
    hide RunWith, AnyTruncated;
    forall j: nat ensures RunWith(runs + [run], j).Some? <==> RunWith(runs, j).Some? || j in run {
      RunWithSnoc(runs, run, j);
    }
    forall t | 0 <= t < |run| ensures cut[run[t]] == cut0[run[t]] {
      assert run[t] in run;
    }
    AnyTruncatedSnoc(cut0, runs, run);
  }

  lemma DistinctParts(done: seq<nat>, run: seq<nat>, more: seq<nat>)
    requires Distinct(done + (run + more))
    ensures Distinct(done) && Distinct(done + more)
    ensures forall x :: x in done ==> x !in more
    ensures Distinct(run) && Distinct(run + more) && forall x :: x in run ==> x !in more
  {
    var all := done + (run + more);
    assert forall t :: 0 <= t < |done| ==> done[t] == all[t];
    assert forall t :: 0 <= t < |run| ==> run[t] == all[|done| + t];
    assert forall t :: 0 <= t < |more| ==> more[t] == all[|done| + |run| + t];
  }

  lemma StandsNow(rows: seq<Row>, st: State, i: nat, chain: seq<nat>, done: seq<nat>, rest: seq<nat>,
                  runs: seq<seq<nat>>, previous: int, child: int,
                  heads: seq<int>, links: seq<int>, heads0: seq<int>, links0: seq<int>)
    requires Sized(rows, st) && i < |rows| && Within(chain, |rows|) && Leaves(st, i, chain, heads0)
    requires Collapsing(rows, st, i, chain, done, rest, runs, previous, child, heads, links, heads0, links0)
    ensures Stands(st, heads, links, rest) && Distinct(rest) && i !in rest && Within(rest, |rows|)
    ensures -1 <= previous < |rows| && child == if |rest| == 0 then -1 else rest[0]
    ensures forall t :: 0 <= t < |rest| ==> rest[t] < |rows| && links[rest[t]] == Next(rest, t)
  {
    hide Collapse, Own, Linked;
    LinkLeads(i, previous, heads, links, done, rest);
    DistinctTail(done, rest);
    forall t | 0 <= t < |rest| ensures rest[t] != i && (heads[rest[t]] < 0 <==> st.kids[rest[t]] == []) {
      assert (done + rest)[|done| + t] == rest[t];
      assert rest[t] in done + rest;
    }
  }

  lemma DistinctTail(done: seq<nat>, rest: seq<nat>)
    requires Distinct(done + rest)
    ensures Distinct(rest)
  {
    var all := done + rest;
    assert forall t :: 0 <= t < |rest| ==> rest[t] == all[|done| + t];
  }

  lemma CollapsingStarts(rows: seq<Row>, st: State, i: nat, chain: seq<nat>, heads: seq<int>, links: seq<int>)
    requires Sized(rows, st) && i < |rows| && Within(chain, |rows|) && Distinct(chain)
    requires |heads| == |links| == |rows| && Linked(heads[i], links, chain)
    ensures Collapsing(rows, st, i, chain, [], chain, [], -1, heads[i], heads, links, heads, links)
  {
    hide Own, Collapse, Distinct;
    assert [] + chain == chain;
    var (kept, runs) := Collapse(rows, st, Own(rows[i]), chain);
    assert [] + kept == kept && [] + runs == runs;
  }

  lemma CollapsingEnds(rows: seq<Row>, st: State, i: nat, chain: seq<nat>, done: seq<nat>, rest: seq<nat>,
                       runs: seq<seq<nat>>, previous: int, child: int,
                       heads: seq<int>, links: seq<int>, heads0: seq<int>, links0: seq<int>)
    requires Sized(rows, st) && i < |rows| && Within(chain, |rows|) && (child < 0 || Own(rows[i]) == "")
    requires Collapsing(rows, st, i, chain, done, rest, runs, previous, child, heads, links, heads0, links0)
    ensures Collapse(rows, st, Own(rows[i]), chain) == (done + rest, runs)
    ensures Linked(heads[i], links, done + rest) && OnlyMine(rows, i, chain, heads0, links0, heads, links)
  {
    hide Own;
    assert runs + [] == runs;
  }

  /** What DropRun needs of a run. */
  lemma RunStands(rest: seq<nat>, links: seq<int>, n: nat)
    requires 0 < n <= |rest| && Distinct(rest)
    requires forall t :: 0 <= t < |rest| ==> rest[t] < |links| && links[rest[t]] == Next(rest, t)
    ensures var run := rest[..n];
            && Distinct(run) && Within(run, |links|) && (forall t :: 0 <= t < n ==> run[t] != Next(rest, n - 1))
            && forall t :: 0 <= t < n ==> links[run[t]] == if t + 1 < n then run[t + 1] else Next(rest, n - 1)
  {
    var run := rest[..n];
    assert forall t :: 0 <= t < n ==> run[t] == rest[t];
    DistinctHead(rest, n);
    forall t | 0 <= t < n
      ensures run[t] < |links| && run[t] != Next(rest, n - 1)
      ensures links[run[t]] == if t + 1 < n then run[t + 1] else Next(rest, n - 1)
    {
      RunEnds(rest, n, t);
      assert links[rest[t]] == Next(rest, t);
    }
    hide Next, Distinct;
  }

  lemma DistinctHead(rest: seq<nat>, n: nat)
    requires Distinct(rest) && n <= |rest|
    ensures Distinct(rest[..n])
  {
    assert forall t :: 0 <= t < n ==> rest[..n][t] == rest[t];
  }

  lemma RunEnds(rest: seq<nat>, n: nat, t: nat)
    requires Distinct(rest) && t < n <= |rest|
    ensures rest[t] != Next(rest, n - 1) && Next(rest, t) == if t + 1 < n then rest[t + 1] else Next(rest, n - 1)
  {
    assert n < |rest| ==> rest[t] != rest[n];
  }

  /** The run is unlinked and its rows go. */
  method DropRepeat(ghost rows: seq<Row>, ghost st: State, i: nat, ghost chain: seq<nat>, ghost done: seq<nat>,
                    ghost rest: seq<nat>, ghost runs: seq<seq<nat>>, previous: int, first: nat, next: int, ghost n: nat,
                    children: array<int>, siblings: array<int>, omitted: array<bool>, truncated: array<bool>,
                    ghost heads0: seq<int>, ghost links0: seq<int>, ghost gone0: seq<bool>, ghost cut0: seq<bool>)
    requires Sized(rows, st) && i < |rows| && Within(chain, |rows|) && Leaves(st, i, chain, heads0)
    requires children.Length == siblings.Length == omitted.Length == truncated.Length == |rows|
    requires children != siblings && omitted != truncated
    requires Collapsing(rows, st, i, chain, done, rest, runs, previous, first, children[..], siblings[..], heads0, links0)
    requires MarkedGone(i, runs, omitted[..], truncated[..], gone0, cut0)
    requires rest != [] && first == rest[0] && n == RunLength(rows, st, rest) && n > 0 && next == Next(rest, n - 1)
    requires Own(rows[i]) != "" && Repeats(Own(rows[i]), Texts(rows, rest[..n]))
    modifies children, siblings, omitted, truncated
    ensures Collapsing(rows, st, i, chain, done, rest[n..], runs + [rest[..n]], previous, next,
                       children[..], siblings[..], heads0, links0)
    ensures MarkedGone(i, runs + [rest[..n]], omitted[..], truncated[..], gone0, cut0)
  {
    hide *;
    ghost var heads, links, gone, cut := children[..], siblings[..], omitted[..], truncated[..];
    StandsNow(rows, st, i, chain, done, rest, runs, previous, first, heads, links, heads0, links0);
    RunStands(rest, links, n);
    DropRun(i, first, next, siblings, omitted, truncated, rest[..n]);
    SetLink(children, siblings, i, previous, next);
    assert previous < 0 ==> children[..] == heads[i := next];
    assert previous >= 0 ==> siblings[..] == links[previous := next];
    CollapsingOver(rows, st, i, chain, done, rest, runs, previous, first, heads, links, heads0, links0,
                   children[..], siblings[..], n);
    MarkedMore(i, runs, rest[..n], gone, cut, gone0, cut0, omitted[..], truncated[..]);
  }

  method CollapseRuns(rows: seq<Row>, ghost st: State, i: nat, ghost chain: seq<nat>, children: array<int>,
                      siblings: array<int>, omitted: array<bool>, truncated: array<bool>)
    requires Sized(rows, st) && i < |rows| && Within(chain, |rows|) && Distinct(chain)
    requires children.Length == siblings.Length == omitted.Length == truncated.Length == |rows|
    requires children != siblings && omitted != truncated
    requires Linked(children[i], siblings[..], chain) && Leaves(st, i, chain, children[..])
    modifies children, siblings, omitted, truncated
    ensures var (kept, runs) := Collapse(rows, st, Own(rows[i]), chain);
            && Linked(children[i], siblings[..], kept)
            && MarkedGone(i, runs, omitted[..], truncated[..], old(omitted[..]), old(truncated[..]))
    ensures OnlyMine(rows, i, chain, old(children[..]), old(siblings[..]), children[..], siblings[..])
  {
    ghost var heads0, links0 := children[..], siblings[..];
    ghost var gone0, cut0 := omitted[..], truncated[..];
    ghost var done: seq<nat>, rest: seq<nat>, runs: seq<seq<nat>> := [], chain, [];
    var own := Own(rows[i]);
    var previous, first := -1, children[i];
    CollapsingStarts(rows, st, i, chain, heads0, links0);
    MarkedNone(i, gone0, cut0);
    hide *;
    while own != "" && first >= 0
      invariant Collapsing(rows, st, i, chain, done, rest, runs, previous, first, children[..], siblings[..], heads0, links0)
      invariant MarkedGone(i, runs, omitted[..], truncated[..], gone0, cut0)
      decreases |rest|
    {
      StandsNow(rows, st, i, chain, done, rest, runs, previous, first, children[..], siblings[..], heads0, links0);
      ghost var n := RunLength(rows, st, rest);
      if !ProseRow(rows[first]) || children[first] >= 0 {
        NoRun(rows, st, children[..], siblings[..], rest);
        CollapsingOn(rows, st, i, chain, done, rest, runs, previous, first, children[..], siblings[..],
                     heads0, links0, n, 1);
        done, rest := done + rest[..1], rest[1..];
        previous, first := first, siblings[first];
      } else {
        SomeRun(rows, st, children[..], siblings[..], rest);
        RunLeads(rows, st, children[..], siblings[..], rest);
        var last, next, repeats := ScanRun(rows, own, first, children, siblings, rest, n, Texts(rows, rest[..n]));
        if repeats {
          DropRepeat(rows, st, i, chain, done, rest, runs, previous, first, next, n, children, siblings, omitted,
                     truncated, heads0, links0, gone0, cut0);
          runs, rest := runs + [rest[..n]], rest[n..];
          first := next;
        } else {
          CollapsingOn(rows, st, i, chain, done, rest, runs, previous, first, children[..], siblings[..],
                       heads0, links0, n, n);
          done, rest := done + rest[..n], rest[n..];
          previous, first := last, next;
        }
      }
    }
    CollapsingEnds(rows, st, i, chain, done, rest, runs, previous, first, children[..], siblings[..], heads0, links0);
  }

  lemma NoRun(rows: seq<Row>, st: State, heads: seq<int>, links: seq<int>, rest: seq<nat>)
    requires |rows| == |st.kids| && Stands(st, heads, links, rest) && rest != []
    requires !ProseRow(rows[rest[0]]) || heads[rest[0]] >= 0
    ensures RunLength(rows, st, rest) == 0 && links[rest[0]] == Next(rest, 0)
  {
  }

  lemma SomeRun(rows: seq<Row>, st: State, heads: seq<int>, links: seq<int>, rest: seq<nat>)
    requires |rows| == |st.kids| && Stands(st, heads, links, rest) && rest != []
    requires ProseRow(rows[rest[0]]) && heads[rest[0]] < 0
    ensures LeafProse(rows, st, rest[0]) && RunLength(rows, st, rest) > 0
  {
  }

  lemma MarkedNone(i: nat, gone: seq<bool>, cut: seq<bool>)
    requires |gone| == |cut| && i < |cut|
    ensures MarkedGone(i, [], gone, cut, gone, cut)
  {
  }

  // ---- One row, and the whole pass ----

  method JoinTexts(first: int, siblings: array<int>, rendered: array<string>, ghost chain: seq<nat>)
    returns (descendants: string)
    requires siblings.Length == rendered.Length && Within(chain, siblings.Length) && Linked(first, siblings[..], chain)
    ensures descendants == Join(rendered[..], chain, "")
  {
    descendants := "";
    var child := first;
    ghost var t := 0;
    assert chain[0..] == chain;
    while child >= 0
      invariant 0 <= t <= |chain| && child == if t < |chain| then chain[t] else -1
      invariant Join(rendered[..], chain[t..], descendants) == Join(rendered[..], chain, "")
      decreases |chain| - t
    {
      assert chain[t..][0] == chain[t] && chain[t..][1..] == chain[t + 1..];
      if rendered[child] != "" {
        descendants := descendants + (if descendants != "" then " " else "") + rendered[child];
      }
      assert siblings[chain[t]] == Next(chain, t);
      child := siblings[child];
      t := t + 1;
    }
    assert chain[t..] == [];
  }

  ghost predicate Holds(rows: seq<Row>, st: State, i: nat, heads: seq<int>, links: seq<int>, gone: seq<bool>,
                        rendered: seq<string>, cut: seq<bool>)
    requires Sized(rows, st)
  {
    && AllLinked(rows, st, i, heads, links) && rendered == st.rendered && cut == st.truncated
    && |gone| == |rows| && forall j :: 0 <= j < |rows| ==> gone[j] == !st.fates[j].Kept?
  }

  /** After splicing, the rows of the chain are still linked to what hangs below them. */
  lemma LeavesAfterSplice(rows: seq<Row>, st: State, i: nat, heads0: seq<int>, links0: seq<int>,
                          heads: seq<int>, links: seq<int>)
    requires Preorder(rows) && i < |rows| && Inv(rows, st, i + 1) && AllLinked(rows, st, i + 1, heads0, links0)
    requires OnlyMine(rows, i, Splice(st.kids[i], st.kids, st.fates), heads0, links0, heads, links)
    ensures Leaves(st, i, Splice(st.kids[i], st.kids, st.fates), heads)
    ensures Distinct(Splice(st.kids[i], st.kids, st.fates))
  {
    hide Splice;
    var spliced := Splice(st.kids[i], st.kids, st.fates);
    SpliceHangs(rows, st, i);
    assert spliced + [] == spliced;
    AscendingParts(spliced, []);
    forall c | c in spliced ensures c < |heads| && c != i && (heads[c] < 0 <==> st.kids[c] == []) {
      ReachesBelow(rows, st.fates, c, i);
      assert Relevant(rows, st.fates, c, i + 1) && Linked(heads0[c], links0, st.kids[c]);
    }
  }

  lemma OthersLinked(rows: seq<Row>, st: State, i: nat, heads0: seq<int>, links0: seq<int>,
                     heads: seq<int>, links: seq<int>)
    requires Preorder(rows) && i < |rows| && Inv(rows, st, i + 1) && AllLinked(rows, st, i + 1, heads0, links0)
    requires OnlyMine(rows, i, Splice(st.kids[i], st.kids, st.fates), heads0, links0, heads, links)
    requires Linked(heads[i], links, Step(rows, st, i).kids[i])
    ensures AllLinked(rows, Step(rows, st, i), i, heads, links)
  {
    hide Splice, Collapse, Join, Covers, Linked, RunWith;
    var mine := Splice(st.kids[i], st.kids, st.fates);
    var next := Step(rows, st, i);
    SpliceHangs(rows, st, i);
    forall k: nat | k < |rows| && k != i && Relevant(rows, next.fates, k, i)
      ensures Linked(heads[k], links, next.kids[k])
    {
      KeptBefore(rows, st, i, k);
      assert Relevant(rows, st.fates, k, i) && Relevant(rows, st.fates, k, i + 1);
      forall x | x in st.kids[k] && x < |links0| ensures links[x] == links0[x] {
        OthersApart(rows, st, i, mine, k, x);
      }
      LinkedElsewhere(heads0[k], links0, links, st.kids[k]);
    }
  }

  lemma KeptBefore(rows: seq<Row>, st: State, i: nat, k: nat)
    requires Sized(rows, st) && i < |rows| && k < |rows| && k != i
    ensures Step(rows, st, i).fates[k].Kept? ==> st.fates[k].Kept?
    ensures Step(rows, st, i).kids[k] == st.kids[k]
  {
    hide Splice, Collapse, Join, Covers;
  }

  lemma OnlyMineTwice(rows: seq<Row>, i: nat, mine: seq<nat>, heads0: seq<int>, links0: seq<int>,
                      heads1: seq<int>, links1: seq<int>, heads2: seq<int>, links2: seq<int>)
    requires OnlyMine(rows, i, mine, heads0, links0, heads1, links1)
    requires OnlyMine(rows, i, mine, heads1, links1, heads2, links2)
    ensures OnlyMine(rows, i, mine, heads0, links0, heads2, links2)
  {
  }

  /** The new values of the pass at row `i`. */
  lemma StepValues(rows: seq<Row>, st: State, i: nat)
    requires Sized(rows, st) && i < |rows|
    ensures var chain := Splice(st.kids[i], st.kids, st.fates);
            var (kept, runs) := Collapse(rows, st, Own(rows[i]), chain);
            var below := Join(st.rendered, kept, "");
            var covered := ProseRow(rows[i]) && below != "" && rows[i].parts.Some?
                           && Covers(rows[i].parts.value, rows[i].partial, below);
            var next := Step(rows, st, i);
            && next.kids[i] == kept
            && next.rendered == st.rendered[i := if covered then below else Beside(Own(rows[i]), below)]
            && next.truncated == st.truncated[i := st.truncated[i] || AnyTruncated(st.truncated, runs)]
            && forall j :: 0 <= j < |rows| ==>
                 (next.fates[j].Kept? <==> st.fates[j].Kept? && RunWith(runs, j).None? && (j != i || !covered))
  {
    hide Splice, Collapse, Join, Covers, RunWith, AnyTruncated, Own, ProseRow;
  }

  /** The links after the visit of row `i`, and the rows that its runs take away. */
  method Rewire(rows: seq<Row>, ghost st: State, i: nat, children: array<int>, siblings: array<int>,
                omitted: array<bool>, truncated: array<bool>)
    requires Preorder(rows) && i < |rows| && Inv(rows, st, i + 1)
    requires children.Length == siblings.Length == omitted.Length == truncated.Length == |rows|
    requires children != siblings && omitted != truncated
    requires AllLinked(rows, st, i + 1, children[..], siblings[..])
    requires forall j :: 0 <= j < |rows| ==> omitted[j] == !st.fates[j].Kept?
    modifies children, siblings, omitted, truncated
    ensures AllLinked(rows, Step(rows, st, i), i, children[..], siblings[..])
    ensures Linked(children[i], siblings[..], Step(rows, st, i).kids[i])
    ensures MarkedGone(i, Runs(rows, st, i), omitted[..], truncated[..], old(omitted[..]), old(truncated[..]))
  {
    ghost var heads0, links0 := children[..], siblings[..];
    ghost var chain := Splice(st.kids[i], st.kids, st.fates);
    hide Splice, Collapse, Inv, Preorder, AllLinked, OnlyMine, Linked, Leaves, Distinct, Step, Own, MarkedGone;
    SpliceOmitted(rows, st, i, omitted, children, siblings);
    ghost var heads1, links1 := children[..], siblings[..];
    LeavesAfterSplice(rows, st, i, heads0, links0, heads1, links1);
    CollapseRuns(rows, st, i, chain, children, siblings, omitted, truncated);
    StepValues(rows, st, i);
    OnlyMineTwice(rows, i, chain, heads0, links0, heads1, links1, children[..], siblings[..]);
    OthersLinked(rows, st, i, heads0, links0, children[..], siblings[..]);
  }

  lemma StepSized(rows: seq<Row>, st: State, i: nat)
    requires Sized(rows, st) && i < |rows|
    ensures Sized(rows, Step(rows, st, i)) && Within(Step(rows, st, i).kids[i], |rows|)
  {
    hide Splice, Collapse, Join, Covers;
  }

  method VisitRow(rows: seq<Row>, ghost st: State, i: nat, children: array<int>, siblings: array<int>,
                  omitted: array<bool>, rendered: array<string>, truncated: array<bool>)
    requires Preorder(rows) && i < |rows| && Inv(rows, st, i + 1)
    requires children.Length == siblings.Length == omitted.Length == truncated.Length == rendered.Length == |rows|
    requires children != siblings && omitted != truncated
    requires Holds(rows, st, i + 1, children[..], siblings[..], omitted[..], rendered[..], truncated[..])
    modifies children, siblings, omitted, rendered, truncated
    ensures Holds(rows, Step(rows, st, i), i, children[..], siblings[..], omitted[..], rendered[..], truncated[..])
  {
    hide Splice, Collapse, Join, Covers, RunWith, AnyTruncated, Own, ProseRow, Hangs, Untouched, Preorder, AllLinked,
         Linked, Step, Beside;
    StepSized(rows, st, i);
    Rewire(rows, st, i, children, siblings, omitted, truncated);
    ghost var gone, cut := omitted[..], truncated[..];
    var row := rows[i];
    var descendants := JoinTexts(children[i], siblings, rendered, Step(rows, st, i).kids[i]);
    StepValues(rows, st, i);
    var covered := false;
    if ProseRow(row) && descendants != "" && row.parts.Some? {
      covered := ChildTextCovers(row.parts.value, row.partial, descendants);
    }
    if covered {
      omitted[i] := true;
      rendered[i] := descendants;
    } else {
      rendered[i] := Beside(Own(row), descendants);
    }
    assert truncated[..] == cut == Step(rows, st, i).truncated;
    assert omitted[..] == if covered then gone[i := true] else gone;
  }

  // ---- The compact tree ----

  /** A row of the compact tree: where it came from, its content, and its place in the new hierarchy. */
  datatype Placed = Placed(source: nat, row: Row, parent: int, depth: nat)

  /** The kept rows among the first `n`, in order. */
  function KeptRows(fates: seq<Fate>, n: nat): (kept: seq<nat>)
    requires n <= |fates|
  {
    if n == 0 then [] else KeptRows(fates, n - 1) + if fates[n - 1].Kept? then [n - 1] else []
  }

  /** The new hierarchy: every kept row in its old order, below its nearest kept ancestor, one level deeper. */
  ghost predicate Hierarchy(rows: seq<Row>, st: State, n: nat, compact: seq<Placed>)
    requires Forest(rows) && Sized(rows, st) && n <= |rows|
  {
    && |compact| == |KeptRows(st.fates, n)|
    && forall t :: 0 <= t < |compact| ==>
         var p := compact[t];
         && p.source == KeptRows(st.fates, n)[t] && p.source < n
         && p.row == rows[p.source].(truncated := st.truncated[p.source])
         && -1 <= p.parent < t
         && var above := NearestKept(rows, st.fates, p.source);
            if p.parent < 0 then above == -1 && p.depth == 0
            else above == compact[p.parent].source && p.depth == compact[p.parent].depth + 1
  }

  lemma {:induction false} KeptRowsAre(fates: seq<Fate>, n: nat)
    requires n <= |fates|
    ensures Ascending(KeptRows(fates, n))
    ensures forall j: nat :: j in KeptRows(fates, n) <==> j < n && fates[j].Kept?
  {
    if n > 0 {
      KeptRowsAre(fates, n - 1);
      AscendingAppend(KeptRows(fates, n - 1), if fates[n - 1].Kept? then [n - 1] else []);
    }
  }

  /** `place` is where row `j` went, or where its nearest kept ancestor went; -1 is outside. */
  ghost predicate PlaceOf(rows: seq<Row>, st: State, j: nat, place: int, compact: seq<Placed>)
    requires Forest(rows) && Sized(rows, st) && j < |rows|
  {
    var above := if st.fates[j].Kept? then j else NearestKept(rows, st.fates, j);
    if place < 0 then place == -1 && above == -1 else place < |compact| && compact[place].source == above
  }

  lemma PlacesGrow(rows: seq<Row>, st: State, i: nat, was: seq<Placed>, compact: seq<Placed>)
    requires Forest(rows) && Sized(rows, st) && i < |rows| && was <= compact
    ensures forall j: nat, place | j < i && PlaceOf(rows, st, j, place, was) :: PlaceOf(rows, st, j, place, compact)
  {
  }

  /** The nearest kept ancestor of a row is where its parent went. */
  lemma AboveIsPlaced(rows: seq<Row>, st: State, i: nat, place: int, compact: seq<Placed>)
    requires Forest(rows) && Sized(rows, st) && i < |rows|
    requires if rows[i].parent < 0 then place == -1 else PlaceOf(rows, st, rows[i].parent, place, compact)
    ensures var above := NearestKept(rows, st.fates, i);
      if place < 0 then place == -1 && above == -1 else place < |compact| && compact[place].source == above
  {
  }

  /** A row that is gone changes nothing, and its place is that of its parent. */
  lemma GoneIsPlaced(rows: seq<Row>, st: State, i: nat, place: int, compact: seq<Placed>)
    requires Forest(rows) && Sized(rows, st) && i < |rows| && !st.fates[i].Kept? && Hierarchy(rows, st, i, compact)
    requires if rows[i].parent < 0 then place == -1 else PlaceOf(rows, st, rows[i].parent, place, compact)
    ensures Hierarchy(rows, st, i + 1, compact) && PlaceOf(rows, st, i, place, compact)
  {
    AboveIsPlaced(rows, st, i, place, compact);
    hide NearestKept;
    assert KeptRows(st.fates, i + 1) == KeptRows(st.fates, i);
  }

  /** A kept row goes to the end, below the place of its parent. */
  lemma KeptIsPlaced(rows: seq<Row>, st: State, i: nat, place: int, compact: seq<Placed>, p: Placed)
    requires Forest(rows) && Sized(rows, st) && i < |rows| && st.fates[i].Kept? && Hierarchy(rows, st, i, compact)
    requires if rows[i].parent < 0 then place == -1 else PlaceOf(rows, st, rows[i].parent, place, compact)
    requires p.source == i && p.row == rows[i].(truncated := st.truncated[i]) && p.parent == place
    requires place < |compact| && p.depth == if place >= 0 then compact[place].depth + 1 else 0
    ensures Hierarchy(rows, st, i + 1, compact + [p]) && PlaceOf(rows, st, i, |compact|, compact + [p])
  {
    AboveIsPlaced(rows, st, i, place, compact);
    hide NearestKept;
    var kept, longer := KeptRows(st.fates, i), compact + [p];
    assert KeptRows(st.fates, i + 1) == kept + [i];
    forall t | 0 <= t < |compact| ensures longer[t] == compact[t] && (kept + [i])[t] == kept[t] {
    }
  }

  /** The second pass: `parents[j]` is the new place of row `j`, or that of its nearest kept ancestor if `j` is gone. */
  method Rebuild(rows: seq<Row>, ghost st: State, omitted: array<bool>, truncated: array<bool>)
    returns (compact: seq<Placed>)
    requires Forest(rows) && Sized(rows, st) && omitted.Length == truncated.Length == |rows|
    requires truncated[..] == st.truncated && forall j :: 0 <= j < |rows| ==> omitted[j] == !st.fates[j].Kept?
    ensures Hierarchy(rows, st, |rows|, compact)
  {
    compact := [];
    var parents := new int[|rows|];
    for i := 0 to |rows|
      invariant Hierarchy(rows, st, i, compact)
      invariant forall j :: 0 <= j < i ==> PlaceOf(rows, st, j, parents[j], compact)
    {
      var parent := rows[i].parent;
      ghost var was := compact;
      parent := if parent >= 0 then parents[parent] else -1;
      assert if rows[i].parent < 0 then parent == -1 else PlaceOf(rows, st, rows[i].parent, parent, compact);
      AboveIsPlaced(rows, st, i, parent, compact);
      parents[i] := parent;
      if omitted[i] {
        GoneIsPlaced(rows, st, i, parent, compact);
      } else {
        parents[i] := |compact|;
        var depth := if parent >= 0 then compact[parent].depth + 1 else 0;
        assert truncated[i] == st.truncated[i];
        var placed := Placed(i, rows[i].(truncated := truncated[i]), parent, depth);
        KeptIsPlaced(rows, st, i, parent, compact, placed);
        compact := compact + [placed];
      }
      hide Hierarchy, PlaceOf;
      PlacesGrow(rows, st, i, was, compact);
    }
  }

  /** The arrays before the first visit. */
  method Prepare(rows: seq<Row>)
    returns (children: array<int>, siblings: array<int>, omitted: array<bool>, rendered: array<string>,
             truncated: array<bool>)
    requires Forest(rows)
    ensures fresh(children) && fresh(siblings) && fresh(omitted) && fresh(rendered) && fresh(truncated)
    ensures children.Length == siblings.Length == omitted.Length == truncated.Length == rendered.Length == |rows|
    ensures children != siblings && omitted != truncated
    ensures Holds(rows, Visit(rows, |rows|), |rows|, children[..], siblings[..], omitted[..], rendered[..], truncated[..])
  {
    children, siblings := LinkChildren(rows);
    omitted := new bool[|rows|](_ => false);
    truncated := new bool[|rows|](j requires 0 <= j < |rows| => rows[j].truncated);
    rendered := new string[|rows|](_ => "");
    InitialHolds(rows, children[..], siblings[..], omitted[..], rendered[..], truncated[..]);
  }

  method CompactTextRows(rows: seq<Row>) returns (compact: seq<Placed>)
    requires Preorder(rows)
    ensures Hierarchy(rows, Visit(rows, 0), |rows|, compact)
  {
    var children, siblings, omitted, rendered, truncated := Prepare(rows);
    var i := |rows|;
    hide Holds, Step, Preorder, Inv, Hierarchy;
    while i > 0
      invariant 0 <= i <= |rows|
      invariant Holds(rows, Visit(rows, i), i, children[..], siblings[..], omitted[..], rendered[..], truncated[..])
    {
      i := i - 1;
      VisitKeeps(rows, i + 1);
      VisitRow(rows, Visit(rows, i + 1), i, children, siblings, omitted, rendered, truncated);
    }
    HoldsMarks(rows, Visit(rows, 0), children[..], siblings[..], omitted[..], rendered[..], truncated[..]);
    compact := Rebuild(rows, Visit(rows, 0), omitted, truncated);
  }

  lemma InitialHolds(rows: seq<Row>, heads: seq<int>, links: seq<int>, gone: seq<bool>, rendered: seq<string>,
                     cut: seq<bool>)
    requires Forest(rows) && AllLinked(rows, Initial(rows), |rows|, heads, links)
    requires |gone| == |rendered| == |cut| == |rows|
    requires forall j :: 0 <= j < |rows| ==> !gone[j] && rendered[j] == "" && cut[j] == rows[j].truncated
    ensures Holds(rows, Visit(rows, |rows|), |rows|, heads, links, gone, rendered, cut)
  {
    assert rendered == Initial(rows).rendered && cut == Initial(rows).truncated;
  }

  lemma HoldsMarks(rows: seq<Row>, st: State, heads: seq<int>, links: seq<int>, gone: seq<bool>,
                   rendered: seq<string>, cut: seq<bool>)
    requires Sized(rows, st) && Holds(rows, st, 0, heads, links, gone, rendered, cut)
    ensures |gone| == |rows| && (forall j :: 0 <= j < |rows| ==> gone[j] == !st.fates[j].Kept?) && cut == st.truncated
  {
  }

  /** Nothing but prose is lost, nothing is reordered and nothing appears twice: the compact rows stand in their old
      order, and among them is every row that is not prose. */
  lemma CompactKeepsRows(rows: seq<Row>, compact: seq<Placed>)
    requires Preorder(rows) && Hierarchy(rows, Visit(rows, 0), |rows|, compact)
    ensures forall s, t :: 0 <= s < t < |compact| ==> compact[s].source < compact[t].source
    ensures forall j: nat :: j < |rows| && (rows[j].control || rows[j].role !in {"static", "paragraph", "heading"}) ==>
              exists t :: 0 <= t < |compact| && compact[t].source == j
  {
    hide Visit, ProseRow, Preorder;
    var fates := Visit(rows, 0).fates;
    KeptRowsAre(fates, |rows|);
    var kept := KeptRows(fates, |rows|);
    assert forall t :: 0 <= t < |compact| ==> compact[t].source == kept[t];
    forall j: nat | j < |rows| && (rows[j].control || rows[j].role !in {"static", "paragraph", "heading"})
      ensures exists t :: 0 <= t < |compact| && compact[t].source == j
    {
      RowsGoForAReason(rows, j);
      assert j in kept;
      var t :| 0 <= t < |kept| && kept[t] == j;
      assert compact[t].source == j;
    }
  }
}
