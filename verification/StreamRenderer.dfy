/** src/spaces/logging.py: streamed output is redrawn in place on a terminal. A terminal has a fixed number of rows; CSI F
    and CSI 2K are CPL and EL of ECMA-48 (sections 8.3.13 and 8.3.41), and every line takes one row. */
module StreamRenderer {
  import opened Text

  const STREAM_HISTORY_LIMIT: nat := 15
  const TRUNCATED := "| ... <truncated>"

  /** What is written to the terminal; a line feed also returns to the first column. */
  datatype Op = PreviousLine | EraseLine | Write(text: string) | LineFeed

  /** The cursor stands in the first column of a row; rows that left at the top are in `scrolled`. */
  datatype Terminal = Terminal(scrolled: seq<string>, rows: seq<string>, cursor: nat)

  predicate Good(t: Terminal) {
    t.cursor < |t.rows|
  }

  /** Text replaces the start of the row. */
  function Overlay(row: string, text: string): string {
    if |text| < |row| then text + row[|text|..] else text
  }

  function Feed1(t: Terminal, op: Op): (u: Terminal)
    requires Good(t)
    ensures Good(u) && |u.rows| == |t.rows|
  {
    match op
    case PreviousLine => t.(cursor := if t.cursor == 0 then 0 else t.cursor - 1)
    case EraseLine => t.(rows := t.rows[t.cursor := ""])
    case Write(text) => t.(rows := t.rows[t.cursor := Overlay(t.rows[t.cursor], text)])
    case LineFeed =>
      if t.cursor + 1 < |t.rows| then t.(cursor := t.cursor + 1)
      else Terminal(t.scrolled + [t.rows[0]], t.rows[1..] + [""], t.cursor)
  }

  function Feed(t: Terminal, ops: seq<Op>): (u: Terminal)
    requires Good(t)
    ensures Good(u) && |u.rows| == |t.rows|
  {
    FeedAll(t, ops)
  }

  function FeedAll(t: Terminal, ops: seq<Op>): (u: Terminal)
    requires Good(t)
    ensures Good(u) && |u.rows| == |t.rows|
    decreases |ops|
  {
    if ops == [] then t else FeedAll(Feed1(t, ops[0]), ops[1..])
  }

  lemma {:induction false} FeedAppend(t: Terminal, ops: seq<Op>, more: seq<Op>)
    requires Good(t)
    ensures Feed(t, ops + more) == Feed(Feed(t, ops), more)
    decreases |ops|
  {
    if ops == [] {
      assert ops + more == more;
    } else {
      assert (ops + more)[1..] == ops[1..] + more;
      FeedAppend(Feed1(t, ops[0]), ops[1..], more);
    }
  }

  // ---- What the handler writes ----

  function Repeat(ops: seq<Op>, n: nat): seq<Op> {
    if n == 0 then [] else ops + Repeat(ops, n - 1)
  }

  function LineOps(lines: seq<string>): seq<Op> {
    if lines == [] then [] else [EraseLine, Write(lines[0]), LineFeed] + LineOps(lines[1..])
  }

  function Shared(shown: seq<string>, lines: seq<string>): (n: nat)
    ensures n <= |shown| && n <= |lines| && shown[..n] == lines[..n]
    ensures n < |shown| && n < |lines| ==> shown[n] != lines[n]
  {
    if shown == [] || lines == [] || shown[0] != lines[0] then 0
    else
      var n := Shared(shown[1..], lines[1..]);
      assert shown[..n + 1] == [shown[0]] + shown[1..][..n] && lines[..n + 1] == [lines[0]] + lines[1..][..n];
      n + 1
  }

  /** _render_stream */
  function RenderOps(shown: seq<string>, lines: seq<string>): seq<Op> {
    RedrawOps(|shown|, Shared(shown, lines), lines)
  }

  /** Up to the first line that differs, the lines from there, and blanks for what is left of the longer display. */
  function RedrawOps(m: nat, shared: nat, lines: seq<string>): seq<Op>
    requires shared <= m && shared <= |lines|
  {
    Repeat([PreviousLine], m - shared) + LineOps(lines[shared..]) + StaleOps(Excess(m, |lines|))
  }

  function Excess(m: nat, n: nat): nat {
    if m > n then m - n else 0
  }

  function StaleOps(stale: nat): seq<Op> {
    Repeat([EraseLine, LineFeed], stale) + Repeat([PreviousLine], stale)
  }

  /** _clear_stream_display */
  function ClearOps(n: nat): seq<Op> {
    Repeat([PreviousLine, EraseLine], n)
  }

  // ---- What the terminal does ----

  /** The snapshot stands above the cursor. */
  predicate Shows(t: Terminal, lines: seq<string>) {
    Good(t) && |lines| <= t.cursor && forall k :: 0 <= k < |lines| ==> t.rows[t.cursor - |lines| + k] == lines[k]
  }

  lemma {:induction false} FeedUp(t: Terminal, n: nat)
    requires Good(t) && n <= t.cursor
    ensures Feed(t, Repeat([PreviousLine], n)) == t.(cursor := t.cursor - n)
    decreases n
  {
    if n > 0 {
      FeedAppend(t, [PreviousLine], Repeat([PreviousLine], n - 1));
      FeedUp(t.(cursor := t.cursor - 1), n - 1);
    }
  }

  /** Rows from `from` on, `n` of them, blanked. */
  function Blanked(rows: seq<string>, from: nat, n: nat): seq<string>
    requires from + n <= |rows|
  {
    seq(|rows|, k requires 0 <= k < |rows| => if from <= k < from + n then "" else rows[k])
  }

  lemma {:induction false} FeedClear(t: Terminal, n: nat)
    requires Good(t) && n <= t.cursor
    ensures Feed(t, ClearOps(n)) == t.(cursor := t.cursor - n, rows := Blanked(t.rows, t.cursor - n, n))
    decreases n
  {
    if n == 0 {
      assert Blanked(t.rows, t.cursor, 0) == t.rows;
    } else {
      var op := [PreviousLine, EraseLine];
      FeedAppend(t, op, Repeat(op, n - 1));
      var u := t.(cursor := t.cursor - 1, rows := t.rows[t.cursor - 1 := ""]);
      assert Feed(t, op) == u by {
        assert op[1..] == [EraseLine] && [EraseLine][1..] == [];
      }
      FeedClear(u, n - 1);
      assert Blanked(u.rows, u.cursor - (n - 1), n - 1) == Blanked(t.rows, t.cursor - n, n);
    }
  }

  lemma {:induction false} FeedStale(t: Terminal, n: nat)
    requires Good(t) && t.cursor + n < |t.rows|
    ensures Feed(t, Repeat([EraseLine, LineFeed], n)) == t.(cursor := t.cursor + n, rows := Blanked(t.rows, t.cursor, n))
    decreases n
  {
    if n == 0 {
      assert Blanked(t.rows, t.cursor, 0) == t.rows;
    } else {
      var op := [EraseLine, LineFeed];
      FeedAppend(t, op, Repeat(op, n - 1));
      var u := t.(cursor := t.cursor + 1, rows := t.rows[t.cursor := ""]);
      assert Feed(t, op) == u by {
        assert op[1..] == [LineFeed] && [LineFeed][1..] == [];
      }
      FeedStale(u, n - 1);
      assert Blanked(u.rows, u.cursor, n - 1) == Blanked(t.rows, t.cursor, n);
    }
  }

  /** A line replaces its row, and the cursor goes on. */
  function Put(t: Terminal, line: string): (u: Terminal)
    requires Good(t)
    ensures Good(u) && |u.rows| == |t.rows|
  {
    Feed1(t.(rows := t.rows[t.cursor := line]), LineFeed)
  }

  lemma FeedLine(t: Terminal, line: string, more: seq<string>)
    requires Good(t)
    ensures Feed(t, LineOps([line] + more)) == Feed(Put(t, line), LineOps(more))
  {
    var ops := [EraseLine, Write(line), LineFeed];
    assert ([line] + more)[1..] == more && ([line] + more)[0] == line;
    FeedAppend(t, ops, LineOps(more));
    FeedThree(t, EraseLine, Write(line), LineFeed);
    assert Feed1(Feed1(t, EraseLine), Write(line)) == t.(rows := t.rows[t.cursor := line]);
    hide Feed, Feed1;
  }

  lemma FeedThree(t: Terminal, a: Op, b: Op, c: Op)
    requires Good(t)
    ensures Feed(t, [a, b, c]) == Feed1(Feed1(Feed1(t, a), b), c)
  {
    assert [a, b, c][1..] == [b, c] && [b, c][1..] == [c] && [c][1..] == [];
    var u := Feed1(Feed1(t, a), b);
    hide Feed1;
    assert FeedAll(Feed1(u, c), []) == Feed1(u, c);
    assert FeedAll(u, [c]) == Feed1(u, c);
    assert FeedAll(Feed1(t, a), [b, c]) == FeedAll(u, [c]);
  }

  /** Two screens agree but for `k` rows from the cursor on, which are blank on one of them. */
  predicate Agree(u: Terminal, t: Terminal, k: nat) {
    && Good(t) && t.cursor + k < |t.rows| && u.scrolled == t.scrolled && u.cursor == t.cursor
    && u.rows == Blanked(t.rows, t.cursor, k)
  }

  /** Lines written over the rows that differ make the screens agree there. */
  lemma {:induction false} LinesAgree(u: Terminal, t: Terminal, k: nat, lines: seq<string>)
    requires Agree(u, t, k)
    ensures Agree(Feed(u, LineOps(lines)), Feed(t, LineOps(lines)), Excess(k, |lines|))
    decreases |lines|
  {
    if k == 0 {
      assert Blanked(t.rows, t.cursor, 0) == t.rows;
      assert u == t;
      AgreeSelf(Feed(t, LineOps(lines)));
    } else if lines != [] {
      assert lines == [lines[0]] + lines[1..];
      FeedLine(u, lines[0], lines[1..]);
      FeedLine(t, lines[0], lines[1..]);
      var u1, t1 := Put(u, lines[0]), Put(t, lines[0]);
      assert u1.rows == Blanked(t1.rows, t1.cursor, k - 1);
      LinesAgree(u1, t1, k - 1, lines[1..]);
      hide Feed, Agree, LineOps;
    }
  }

  lemma AgreeSelf(t: Terminal)
    requires Good(t)
    ensures Agree(t, t, 0)
  {
    assert Blanked(t.rows, t.cursor, 0) == t.rows;
  }

  lemma AgreeAll(u: Terminal, t: Terminal, k: nat)
    requires Agree(u, t, k)
    ensures u == t.(rows := Blanked(t.rows, t.cursor, k))
  {
  }

  lemma SharedShown(t: Terminal, shown: seq<string>, lines: seq<string>)
    requires Shows(t, shown)
    ensures var shared := Shared(shown, lines);
      var top := t.cursor - |shown|;
      var cleared := t.(cursor := top, rows := Blanked(t.rows, top, |shown|));
      Agree(Feed(cleared, LineOps(lines[..shared])), t.(cursor := top + shared), |shown| - shared)
  {
    hide Feed, LineOps, Shared;
    var shared := Shared(shown, lines);
    var top := t.cursor - |shown|;
    var cleared := t.(cursor := top, rows := Blanked(t.rows, top, |shown|));
    WrittenRows(cleared, lines[..shared]);
    var u := Feed(cleared, LineOps(lines[..shared]));
    RowsRewritten(t.rows, top, shown, lines[..shared], u.rows);
  }

  /** Rows that are blanked and then partly written again as they were are blanked in the other part only. */
  lemma RowsRewritten(rows: seq<string>, top: nat, shown: seq<string>, again: seq<string>, now: seq<string>)
    requires top + |shown| <= |rows| == |now| && again <= shown
    requires forall k :: 0 <= k < |shown| ==> rows[top + k] == shown[k]
    requires forall k :: 0 <= k < |rows| ==>
               now[k] == if top <= k < top + |again| then again[k - top] else Blanked(rows, top, |shown|)[k]
    ensures now == Blanked(rows, top + |again|, |shown| - |again|)
  {
    forall k | 0 <= k < |rows| ensures now[k] == Blanked(rows, top + |again|, |shown| - |again|)[k] {
      if top <= k < top + |again| {
        assert rows[top + (k - top)] == shown[k - top] == again[k - top];
      }
    }
  }

  /** Lines that fit above the last row are just put there. */
  lemma {:induction false} WrittenRows(t: Terminal, lines: seq<string>)
    requires Good(t) && t.cursor + |lines| < |t.rows|
    ensures var u := Feed(t, LineOps(lines));
      && u.scrolled == t.scrolled && u.cursor == t.cursor + |lines| && |u.rows| == |t.rows|
      && forall k :: 0 <= k < |t.rows| ==>
           u.rows[k] == if t.cursor <= k < t.cursor + |lines| then lines[k - t.cursor] else t.rows[k]
    decreases |lines|
  {
    if lines != [] {
      assert lines == [lines[0]] + lines[1..];
      FeedLine(t, lines[0], lines[1..]);
      WrittenRows(Put(t, lines[0]), lines[1..]);
    }
  }

  lemma {:induction false} LineOpsAppend(lines: seq<string>, more: seq<string>)
    ensures LineOps(lines + more) == LineOps(lines) + LineOps(more)
  {
    if lines == [] {
      assert lines + more == more;
    } else {
      assert (lines + more)[1..] == lines[1..] + more;
      LineOpsAppend(lines[1..], more);
    }
  }

  /** The shared lines, cleared and written again, stand where they stood. */
  lemma SharedRewritten(t: Terminal, shown: seq<string>, lines: seq<string>, shared: nat)
    returns (u: Terminal, v: Terminal)
    requires Shows(t, shown) && shared == Shared(shown, lines)
    ensures Good(u) && u == Feed(Feed(t, ClearOps(|shown|)), LineOps(lines[..shared]))
    ensures Good(v) && v == t.(cursor := t.cursor - |shown| + shared)
    ensures Agree(u, v, |shown| - shared)
  {
    FeedClear(t, |shown|);
    SharedShown(t, shown, lines);
    u, v := Feed(Feed(t, ClearOps(|shown|)), LineOps(lines[..shared])), t.(cursor := t.cursor - |shown| + shared);
  }

  /** Clearing everything and writing it again differs from moving up only in the rows still to be written. */
  lemma RedrawAgrees(t: Terminal, shown: seq<string>, lines: seq<string>, shared: nat)
    returns (redrawn: Terminal, drawn: Terminal)
    requires Shows(t, shown) && shared == Shared(shown, lines)
    ensures Good(redrawn) && redrawn == Feed(Feed(t, ClearOps(|shown|)), LineOps(lines))
    ensures Good(drawn) && drawn == Feed(t.(cursor := t.cursor - |shown| + shared), LineOps(lines[shared..]))
    ensures Agree(redrawn, drawn, Excess(|shown|, |lines|))
  {
    hide Feed, ClearOps, Agree, Excess;
    var u, v := SharedRewritten(t, shown, lines, shared);
    redrawn, drawn := Feed(u, LineOps(lines[shared..])), Feed(v, LineOps(lines[shared..]));
    SuffixAgrees(u, v, |shown|, shared, lines);
    WrittenInTwo(Feed(t, ClearOps(|shown|)), lines, shared);
  }

  lemma SuffixAgrees(u: Terminal, t: Terminal, m: nat, shared: nat, lines: seq<string>)
    requires shared <= m && shared <= |lines| && Good(t) && Good(u) && Agree(u, t, m - shared)
    ensures Agree(Feed(u, LineOps(lines[shared..])), Feed(t, LineOps(lines[shared..])), Excess(m, |lines|))
  {
    hide Feed;
    LinesAgree(u, t, m - shared, lines[shared..]);
    assert Excess(m - shared, |lines[shared..]|) == Excess(m, |lines|);
  }

  lemma WrittenInTwo(t: Terminal, lines: seq<string>, n: nat)
    requires Good(t) && n <= |lines|
    ensures Feed(t, LineOps(lines)) == Feed(Feed(t, LineOps(lines[..n])), LineOps(lines[n..]))
  {
    hide *;
    Halves(lines, n);
    LineOpsAppend(lines[..n], lines[n..]);
    FeedAppend(t, LineOps(lines[..n]), LineOps(lines[n..]));
  }

  /** Blanking the stale rows and moving back up. */
  lemma StaleAgrees(u: Terminal, t: Terminal, stale: nat)
    requires Agree(u, t, stale)
    ensures Feed(t, StaleOps(stale)) == u
  {
    FeedAppend(t, Repeat([EraseLine, LineFeed], stale), Repeat([PreviousLine], stale));
    FeedStale(t, stale);
    FeedUp(t.(cursor := t.cursor + stale, rows := Blanked(t.rows, t.cursor, stale)), stale);
    AgreeAll(u, t, stale);
    hide Feed, Repeat, Blanked;
  }

  /** The parts of what is written. */
  lemma RedrawParts(t: Terminal, m: nat, shared: nat, lines: seq<string>, drawn: Terminal, end: Terminal)
    requires Good(t) && shared <= m <= t.cursor && shared <= |lines|
    requires Good(drawn) && drawn == Feed(t.(cursor := t.cursor - m + shared), LineOps(lines[shared..]))
    requires end == Feed(drawn, StaleOps(Excess(m, |lines|)))
    ensures Feed(t, RedrawOps(m, shared, lines)) == end
  {
    var a, b, c := Repeat([PreviousLine], m - shared), LineOps(lines[shared..]), StaleOps(Excess(m, |lines|));
    FeedUp(t, m - shared);
    hide Feed;
    FeedThreeParts(t, a, b, c, t.(cursor := t.cursor - m + shared), drawn, end);
    assert RedrawOps(m, shared, lines) == a + b + c;
  }

  lemma FeedThreeParts(t: Terminal, a: seq<Op>, b: seq<Op>, c: seq<Op>, u: Terminal, v: Terminal, w: Terminal)
    requires Good(t) && u == Feed(t, a) && v == Feed(u, b) && w == Feed(v, c)
    ensures Feed(t, a + b + c) == w
  {
    hide Feed;
    FeedAppend(t, a, b);
    FeedAppend(t, a + b, c);
  }

  lemma ShownAbove(t: Terminal, shown: seq<string>)
    requires Shows(t, shown)
    ensures Good(t) && |shown| <= t.cursor
  {
  }

  lemma RenderIsRedraw(shown: seq<string>, lines: seq<string>)
    ensures RenderOps(shown, lines) == RedrawOps(|shown|, Shared(shown, lines), lines)
  {
    hide RedrawOps, Shared;
  }

  /** A redraw that keeps the shared lines leaves the same screen as clearing the display and writing every line. */
  lemma RenderRedraws(t: Terminal, shown: seq<string>, lines: seq<string>)
    requires Shows(t, shown)
    ensures Feed(t, RenderOps(shown, lines)) == Feed(Feed(t, ClearOps(|shown|)), LineOps(lines))
  {
    hide *;
    ShownAbove(t, shown);
    RenderIsRedraw(shown, lines);
    var shared := Shared(shown, lines);
    var redrawn, drawn := RedrawAgrees(t, shown, lines, shared);
    StaleAgrees(redrawn, drawn, Excess(|shown|, |lines|));
    RedrawParts(t, |shown|, shared, lines, drawn, redrawn);
  }

  // ---- The cursor stays below what is not the display's ----

  /** The cursor `n` rows up. */
  function Raised(t: Terminal, n: nat): (u: Terminal)
    requires Good(t)
    ensures Good(u) && |u.rows| == |t.rows|
  {
    if n <= t.cursor then t.(cursor := t.cursor - n) else t
  }

  /** How many lines are above the cursor, including what scrolled away. */
  function Height(t: Terminal): nat {
    |t.scrolled| + t.cursor
  }

  /** At no point are there fewer than `floor` lines above the cursor. */
  predicate StaysBelow(t: Terminal, ops: seq<Op>, floor: int)
    requires Good(t)
    decreases |ops|
  {
    Height(t) >= floor && (ops != [] ==> StaysBelow(Feed1(t, ops[0]), ops[1..], floor))
  }

  lemma {:induction false} StaysAppend(t: Terminal, ops: seq<Op>, more: seq<Op>, floor: int)
    requires Good(t) && StaysBelow(t, ops, floor) && StaysBelow(Feed(t, ops), more, floor)
    ensures StaysBelow(t, ops + more, floor)
    decreases |ops|
  {
    if ops == [] {
      assert ops + more == more;
    } else {
      assert (ops + more)[1..] == ops[1..] + more;
      StaysAppend(Feed1(t, ops[0]), ops[1..], more, floor);
    }
  }

  lemma {:induction false} UpStays(t: Terminal, n: nat, floor: int)
    requires Good(t) && n <= t.cursor && Height(t) - n >= floor
    ensures StaysBelow(t, Repeat([PreviousLine], n), floor)
    decreases n
  {
    if n > 0 {
      assert ([PreviousLine] + Repeat([PreviousLine], n - 1))[1..] == Repeat([PreviousLine], n - 1);
      UpStays(t.(cursor := t.cursor - 1), n - 1, floor);
    }
  }

  predicate NoneUp(ops: seq<Op>) {
    forall k :: 0 <= k < |ops| ==> !ops[k].PreviousLine?
  }

  /** What moves no cursor up only adds lines above it. */
  lemma {:induction false} DownStays(t: Terminal, ops: seq<Op>, floor: int)
    requires Good(t) && Height(t) >= floor && NoneUp(ops)
    ensures StaysBelow(t, ops, floor) && Height(Feed(t, ops)) >= Height(t)
    decreases |ops|
  {
    if ops != [] {
      DownStays(Feed1(t, ops[0]), ops[1..], floor);
    }
  }

  lemma {:induction false} LinesGoDown(lines: seq<string>)
    ensures NoneUp(LineOps(lines))
  {
    if lines != [] {
      LinesGoDown(lines[1..]);
    }
  }

  lemma {:induction false} StaleGoesDown(n: nat)
    ensures NoneUp(Repeat([EraseLine, LineFeed], n))
  {
    if n > 0 {
      assert Repeat([EraseLine, LineFeed], n) == [EraseLine, LineFeed] + Repeat([EraseLine, LineFeed], n - 1);
      StaleGoesDown(n - 1);
    }
  }

  lemma StaleStays(t: Terminal, n: nat, floor: int)
    requires Good(t) && t.cursor + n < |t.rows| && Height(t) >= floor
    ensures StaysBelow(t, StaleOps(n), floor)
  {
    var down, up := Repeat([EraseLine, LineFeed], n), Repeat([PreviousLine], n);
    StaleGoesDown(n);
    DownStays(t, down, floor);
    FeedStale(t, n);
    UpStays(Feed(t, down), n, floor);
    StaysAppend(t, down, up, floor);
  }

  /** Where the cursor stands once the lines are written, the stale rows are still on the screen. */
  lemma DrawnHasRoom(t: Terminal, m: nat, shared: nat, lines: seq<string>)
    requires Good(t) && shared <= m <= t.cursor && shared <= |lines|
    ensures var drawn := Feed(Raised(t, m - shared), LineOps(lines[shared..]));
      drawn.cursor + Excess(m, |lines|) < |drawn.rows|
  {
    if m > |lines| {
      WrittenRows(Raised(t, m - shared), lines[shared..]);
    }
  }

  lemma UpRaises(t: Terminal, n: nat)
    requires Good(t) && n <= t.cursor
    ensures Feed(t, Repeat([PreviousLine], n)) == Raised(t, n) && Height(Raised(t, n)) == Height(t) - n
  {
    hide Feed, Repeat;
    FeedUp(t, n);
  }

  lemma RedrawStays(t: Terminal, m: nat, shared: nat, lines: seq<string>)
    requires Good(t) && shared <= m <= t.cursor && shared <= |lines|
    ensures StaysBelow(t, RedrawOps(m, shared, lines), Height(t) - m)
  {
    hide Excess, Feed, Height, LineOps, NoneUp, Raised, Repeat, StaleOps, StaysBelow;
    var floor := Height(t) - m;
    var up, text, stale := Repeat([PreviousLine], m - shared), LineOps(lines[shared..]), StaleOps(Excess(m, |lines|));
    var raised := Raised(t, m - shared);
    UpRaises(t, m - shared);
    UpStays(t, m - shared, floor);
    LinesGoDown(lines[shared..]);
    DrawnHasRoom(t, m, shared, lines);
    DownStays(raised, text, floor);
    StaysAppend(t, up, text, floor);
    FeedAppend(t, up, text);
    StaleStays(Feed(raised, text), Excess(m, |lines|), floor);
    StaysAppend(t, up + text, stale, floor);
  }

  /** A redraw never moves the cursor above the display. */
  lemma RenderStays(t: Terminal, shown: seq<string>, lines: seq<string>)
    requires Shows(t, shown)
    ensures StaysBelow(t, RenderOps(shown, lines), Height(t) - |shown|)
  {
    var shared := Shared(shown, lines);
    assert Good(t) && |shown| <= t.cursor;
    hide Good, Height, RedrawOps, Shared, Shows, StaysBelow;
    RedrawStays(t, |shown|, shared, lines);
  }

  // ---- The transcript ----

  /** Everything above the cursor, including what scrolled away. */
  function Transcript(t: Terminal): seq<string>
    requires Good(t)
  {
    t.scrolled + t.rows[..t.cursor]
  }

  predicate BlankBelow(t: Terminal) {
    forall k :: t.cursor <= k < |t.rows| ==> t.rows[k] == ""
  }

  lemma PutTranscript(t: Terminal, line: string)
    requires Good(t)
    ensures Transcript(Put(t, line)) == Transcript(t) + [line]
    ensures BlankBelow(t) ==> BlankBelow(Put(t, line))
    ensures Put(t, line).cursor == if t.cursor + 1 < |t.rows| then t.cursor + 1 else t.cursor
  {
    var rows := t.rows[t.cursor := line];
    if t.cursor + 1 < |t.rows| {
      assert rows[..t.cursor + 1] == t.rows[..t.cursor] + [line];
    } else {
      assert (rows[1..] + [""])[..t.cursor] == rows[1..];
      assert [rows[0]] + rows[1..] == t.rows[..t.cursor] + [line];
    }
  }

  lemma {:induction false} LinesTranscript(t: Terminal, lines: seq<string>)
    requires Good(t)
    ensures var u := Feed(t, LineOps(lines));
      && Transcript(u) == Transcript(t) + lines && (BlankBelow(t) ==> BlankBelow(u))
      && u.cursor == if t.cursor + |lines| < |t.rows| then t.cursor + |lines| else |t.rows| - 1
    decreases |lines|
  {
    if lines != [] {
      assert lines == [lines[0]] + lines[1..];
      FeedLine(t, lines[0], lines[1..]);
      PutTranscript(t, lines[0]);
      LinesTranscript(Put(t, lines[0]), lines[1..]);
      hide Transcript, Put, Feed;
      assert Transcript(t) + [lines[0]] + lines[1..] == Transcript(t) + lines;
    } else {
      assert Transcript(t) + lines == Transcript(t);
    }
  }

  lemma TranscriptShows(t: Terminal, base: seq<string>, lines: seq<string>)
    requires Good(t) && Transcript(t) == base + lines && |lines| <= t.cursor
    ensures Shows(t, lines)
  {
    var all := base + lines;
    forall k | 0 <= k < |lines| ensures t.rows[t.cursor - |lines| + k] == lines[k] {
      assert all[|base| + k] == lines[k];
    }
  }

  lemma ClearTranscript(t: Terminal, base: seq<string>, shown: seq<string>)
    requires Shows(t, shown) && BlankBelow(t) && Transcript(t) == base + shown
    ensures var u := Feed(t, ClearOps(|shown|));
      Transcript(u) == base && BlankBelow(u) && u.cursor == t.cursor - |shown|
  {
    FeedClear(t, |shown|);
    var u := Feed(t, ClearOps(|shown|));
    hide Feed;
    assert Transcript(u) == Transcript(t)[..|base|] by {
      assert u.rows[..u.cursor] == t.rows[..u.cursor];
    }
  }

  /** After a redraw the transcript is what it was without the display, then the new snapshot; and all of the snapshot is
      on the screen exactly if it is shorter than the screen. */
  lemma RenderShows(t: Terminal, base: seq<string>, shown: seq<string>, lines: seq<string>)
    requires Shows(t, shown) && BlankBelow(t) && Transcript(t) == base + shown
    ensures var u := Feed(t, RenderOps(shown, lines));
      && Transcript(u) == base + lines && BlankBelow(u)
      && (Shows(u, lines) <==> |lines| < |t.rows|)
  {
    RenderRedraws(t, shown, lines);
    ClearTranscript(t, base, shown);
    LinesTranscript(Feed(t, ClearOps(|shown|)), lines);
    if |lines| < |t.rows| {
      TranscriptShows(Feed(t, RenderOps(shown, lines)), base, lines);
    }
  }

  // ---- A terminal of one row ----

  function Blanks(n: nat): seq<string> {
    seq(n, _ => "")
  }

  lemma {:induction false} OneRowStays(t: Terminal, n: nat)
    requires Good(t) && |t.rows| == 1 && t.rows[0] == ""
    ensures Feed(t, Repeat([PreviousLine], n)) == t && Feed(t, ClearOps(n)) == t
    decreases n
  {
    if n > 0 {
      var up, clear := [PreviousLine], [PreviousLine, EraseLine];
      assert up[1..] == [] && clear[1..] == [EraseLine] && [EraseLine][1..] == [] && t.rows[0 := ""] == t.rows;
      FeedAppend(t, up, Repeat(up, n - 1));
      FeedAppend(t, clear, Repeat(clear, n - 1));
      OneRowStays(t, n - 1);
    }
  }

  lemma {:induction false} OneRowBlanks(t: Terminal, n: nat)
    requires Good(t) && |t.rows| == 1 && t.rows[0] == ""
    ensures Feed(t, Repeat([EraseLine, LineFeed], n)) == t.(scrolled := t.scrolled + Blanks(n))
    decreases n
  {
    if n > 0 {
      var blank, u := [EraseLine, LineFeed], t.(scrolled := t.scrolled + [""]);
      assert Feed(t, blank) == u by {
        assert blank[1..] == [LineFeed] && [LineFeed][1..] == [] && t.rows[0 := ""] == t.rows == [""];
        assert t.rows[1..] + [""] == t.rows;
      }
      FeedAppend(t, blank, Repeat(blank, n - 1));
      OneRowBlanks(u, n - 1);
      assert t.scrolled + [""] + Blanks(n - 1) == t.scrolled + Blanks(n);
    } else {
      assert t.scrolled + Blanks(0) == t.scrolled;
    }
  }

  /** On a terminal of one row nothing that was written can be taken back: a redraw adds its new lines, and a blank line
      for each that it meant to erase, and clearing changes nothing. */
  lemma OneRowAdds(t: Terminal, shown: seq<string>, lines: seq<string>)
    requires Good(t) && |t.rows| == 1 && BlankBelow(t)
    ensures var u := Feed(t, RenderOps(shown, lines));
      && Transcript(u) == Transcript(t) + lines[Shared(shown, lines)..] + Blanks(Excess(|shown|, |lines|))
      && |u.rows| == 1 && BlankBelow(u)
    ensures Feed(t, ClearOps(|shown|)) == t
  {
    var shared, stale := Shared(shown, lines), Excess(|shown|, |lines|);
    var up, text, erase := Repeat([PreviousLine], |shown| - shared), LineOps(lines[shared..]), StaleOps(stale);
    OneRowStays(t, |shown|);
    OneRowStays(t, |shown| - shared);
    LinesTranscript(t, lines[shared..]);
    var drawn := Feed(t, text);
    var end := OneRowErases(drawn, stale);
    assert RenderOps(shown, lines) == up + text + erase;
    assert Transcript(drawn) == Transcript(t) + lines[shared..];
    hide *;
    FeedThreeParts(t, up, text, erase, t, drawn, end);
  }

  lemma OneRowErases(t: Terminal, stale: nat) returns (end: Terminal)
    requires Good(t) && |t.rows| == 1 && BlankBelow(t)
    ensures Good(end) && end == Feed(t, StaleOps(stale)) && |end.rows| == 1 && BlankBelow(end)
    ensures Transcript(end) == Transcript(t) + Blanks(stale)
  {
    OneRowBlanks(t, stale);
    end := t.(scrolled := t.scrolled + Blanks(stale));
    OneRowStays(end, stale);
    FeedAppend(t, Repeat([EraseLine, LineFeed], stale), Repeat([PreviousLine], stale));
    hide Feed, Repeat;
  }

  // ---- The handler ----

  /** _stream_snapshot */
  function Snapshot(lines: seq<string>, limit: nat): (shown: seq<string>)
    requires limit > 0
    ensures |shown| <= limit
    ensures |lines| <= limit ==> shown == lines
    ensures |lines| > limit ==>
      |shown| == limit && shown[0] == TRUNCATED && shown[1..] == lines[|lines| - (limit - 1)..]
  {
    if |lines| <= limit then lines
    else if limit == 1 then [TRUNCATED]
    else [TRUNCATED] + lines[|lines| - (limit - 1)..]
  }

  /** When one line is shown at most, a new snapshot differs from the old one in that line. */
  lemma OneLine(lines: seq<string>, more: seq<string>)
    ensures var was, now := Snapshot(lines, 1), Snapshot(lines + more, 1);
      was != now ==> now[Shared(was, now)..] + Blanks(Excess(|was|, |now|)) == now
  {
    var was, now := Snapshot(lines, 1), Snapshot(lines + more, 1);
    assert |was| <= |now|;
    if was != now {
      assert Shared(was, now) == 0;
      assert now[0..] + Blanks(0) == now;
    }
  }

  function Limit(height: nat): nat {
    if height <= 2 then 1 else height - 1
  }

  /** What the display of a terminal shows: all lines if they are fewer than its rows, otherwise the marker and as many of
      the last lines as leave two rows; a terminal of one row still shows a single line. */
  lemma SnapshotFits(lines: seq<string>, height: nat)
    requires height > 0
    ensures |lines| < height || |lines| == 1 ==> Snapshot(lines, Limit(height)) == lines
    ensures |lines| >= height && |lines| > 1 ==>
      Snapshot(lines, Limit(height))
      == ["| ... <truncated>"] + if height > 2 then lines[|lines| - (height - 2)..] else []
  {
    var shown := Snapshot(lines, Limit(height));
    if |lines| >= height && |lines| > 1 {
      assert shown == [shown[0]] + shown[1..];
      assert height <= 2 ==> lines[|lines|..] == [];
    }
  }

  /** What a redraw of the next snapshot makes of a terminal that shows the last one. */
  lemma SnapshotShown(t: Terminal, base: seq<string>, lines: seq<string>, more: seq<string>, shown: seq<string>,
                      next: seq<string>)
    requires Good(t) && BlankBelow(t) && shown == Snapshot(lines, Limit(|t.rows|))
    requires next == Snapshot(lines + more, Limit(|t.rows|)) && (|t.rows| > 1 ==> Shows(t, shown))
    requires Transcript(t) == base + if |t.rows| == 1 then [] else shown
    ensures var u := if next == shown then t else Feed(t, RenderOps(shown, next));
      && Good(u) && BlankBelow(u) && |u.rows| == |t.rows| && (|u.rows| > 1 ==> Shows(u, next))
      && Transcript(u) == if |t.rows| > 1 then base + next else if next == shown then base else base + next
  {
    assert base + [] == base;
    if |t.rows| > 1 {
      RenderShows(t, base, shown, next);
    } else {
      OneRowAdds(t, shown, next);
      OneLine(lines, more);
    }
    hide Feed, RenderOps, Shows, Transcript, Shared;
  }

  function PlainOps(lines: seq<string>): seq<Op> {
    if lines == [] then [] else [Write(lines[0]), LineFeed] + PlainOps(lines[1..])
  }

  /** On blank rows there is nothing to erase. */
  lemma {:induction false} PlainIsLines(t: Terminal, lines: seq<string>)
    requires Good(t) && BlankBelow(t)
    ensures Feed(t, PlainOps(lines)) == Feed(t, LineOps(lines))
    decreases |lines|
  {
    if lines != [] {
      assert lines == [lines[0]] + lines[1..];
      var ops := [Write(lines[0]), LineFeed];
      FeedAppend(t, ops, PlainOps(lines[1..]));
      assert ops[1..] == [LineFeed] && [LineFeed][1..] == [];
      FeedLine(t, lines[0], lines[1..]);
      assert Feed1(t, Write(lines[0])) == t.(rows := t.rows[t.cursor := lines[0]]);
      var u := Put(t, lines[0]);
      assert Feed(Feed1(t, Write(lines[0])), [LineFeed]) == u;
      PutTranscript(t, lines[0]);
      PlainIsLines(u, lines[1..]);
    }
  }

  class SpacesHandler {
    var streamLines: seq<string>
    var rendered: seq<string>
    var renderedLines: nat
    var terminal: Terminal
    ghost var base: seq<string>

    /** Above the cursor stands what was there before the stream, then the snapshot of the streamed lines; on a terminal of
        one row there is no display, and what was drawn counts as there before. */
    ghost predicate Valid()
      reads this
    {
      && Good(terminal) && BlankBelow(terminal)
      && renderedLines == |rendered| && rendered == Snapshot(streamLines, Limit(|terminal.rows|))
      && Transcript(terminal) == base + Displayed()
      && (|terminal.rows| > 1 ==> Shows(terminal, rendered))
    }

    /** The part of the snapshot that can still be erased. */
    ghost function Displayed(): seq<string>
      reads this
    {
      if |terminal.rows| == 1 then [] else rendered
    }

    constructor (start: Terminal)
      requires Good(start) && BlankBelow(start)
      ensures Valid() && terminal == start && base == Transcript(start) && streamLines == []
    {
      streamLines, rendered, renderedLines := [], [], 0;
      terminal, base := start, Transcript(start);
    }

    method Print(ops: seq<Op>)
      requires Good(terminal)
      modifies this`terminal
      ensures terminal == Feed(old(terminal), ops)
    {
      terminal := Feed(terminal, ops);
    }

    /** _shared_prefix_length */
    method SharedPrefixLength(lines: seq<string>) returns (shared: nat)
      ensures shared == Shared(rendered, lines)
    {
      shared := 0;
      while shared < |rendered| && shared < |lines| && rendered[shared] == lines[shared]
        invariant shared <= |rendered| && shared <= |lines|
        invariant Shared(rendered, lines) == shared + Shared(rendered[shared..], lines[shared..])
      {
        assert rendered[shared..][1..] == rendered[shared + 1..] && lines[shared..][1..] == lines[shared + 1..];
        shared := shared + 1;
      }
    }

    /** _render_stream, on a terminal whose display limit is `limit`. */
    method RenderStream(limit: nat)
      requires limit > 0 && Good(terminal) && renderedLines == |rendered|
      modifies this`terminal, this`rendered, this`renderedLines
      ensures rendered == Snapshot(streamLines, limit) && renderedLines == |rendered|
      ensures terminal == if rendered == old(rendered) then old(terminal)
                          else Feed(old(terminal), RenderOps(old(rendered), rendered))
    {
      hide Excess, Feed, LineOps, Repeat, Shared, StaleOps, Snapshot;
      var lines := Snapshot(streamLines, limit);
      if lines == rendered {
        return;
      }
      var shared := SharedPrefixLength(lines);
      var output := Repeat([PreviousLine], |rendered| - shared) + LineOps(lines[shared..]);
      output := output + StaleOps(Excess(|rendered|, |lines|));
      Print(output);
      rendered := lines;
      renderedLines := |lines|;
    }

    /** _emit_stream: a record's lines join the display; on a terminal of one row a new snapshot follows the earlier
        ones, which cannot be erased. */
    method EmitStream(lines: seq<string>)
      requires Valid()
      modifies this
      ensures Valid() && streamLines == old(streamLines) + lines
      ensures |terminal.rows| == old(|terminal.rows|)
      ensures |terminal.rows| > 1 ==>
                base == old(base) && Transcript(terminal) == base + Snapshot(streamLines, Limit(|terminal.rows|))
      ensures |terminal.rows| > 1 && |streamLines| < |terminal.rows| ==> Transcript(terminal) == base + streamLines
      ensures |terminal.rows| == 1 ==>
                var now := Snapshot(streamLines, 1);
                base == Transcript(terminal) == old(base) + if now == Snapshot(old(streamLines), 1) then [] else now
    {
      ghost var was, height, shown := terminal, |terminal.rows|, rendered;
      ghost var next := Snapshot(streamLines + lines, Limit(height));
      SnapshotShown(was, base, streamLines, lines, shown, next);
      SnapshotFits(streamLines + lines, height);
      hide *;
      base := if height > 1 || next == shown then base else base + next;
      streamLines := streamLines + lines;
      RenderStream(Limit(|terminal.rows|));
    }

    /** _clear_stream_display */
    method ClearStreamDisplay()
      requires Valid()
      modifies this`terminal, this`rendered, this`renderedLines
      ensures Good(terminal) && BlankBelow(terminal) && |terminal.rows| == old(|terminal.rows|)
      ensures Transcript(terminal) == base && rendered == [] && renderedLines == 0
    {
      assert base + [] == base;
      if |terminal.rows| > 1 {
        ClearTranscript(terminal, base, rendered);
      } else {
        OneRowAdds(terminal, rendered, []);
      }
      if renderedLines > 0 {
        Print(ClearOps(renderedLines));
        renderedLines := 0;
        rendered := [];
      }
    }

    /** _bake_stream_history: the display becomes part of the output for good, cut to the last 15 lines. */
    method BakeStreamHistory()
      requires Valid()
      modifies this
      ensures Valid() && streamLines == [] && |terminal.rows| == old(|terminal.rows|)
      ensures base == old(base) + Snapshot(old(streamLines), 15) == Transcript(terminal)
    {
      if streamLines == [] {
        assert rendered == [] && base + [] == base;
        return;
      }
      ClearStreamDisplay();
      var lines := Snapshot(streamLines, STREAM_HISTORY_LIMIT);
      streamLines := [];
      EmitLines(lines);
    }

    /** _emit_lines, for lines that go to the same terminal. */
    method EmitLines(lines: seq<string>)
      requires Good(terminal) && BlankBelow(terminal) && Transcript(terminal) == base
      requires streamLines == [] && rendered == [] && renderedLines == 0
      modifies this`terminal, this`base
      ensures Valid() && base == old(base) + lines == Transcript(terminal) && |terminal.rows| == old(|terminal.rows|)
    {
      hide Feed, LineOps, PlainOps, Transcript, BlankBelow, Good;
      PlainIsLines(terminal, lines);
      LinesTranscript(terminal, lines);
      Print(PlainOps(lines));
      base := base + lines;
      assert base + [] == base;
    }

    /** emit, for an ordinary record: the history is baked first. */
    method EmitRecord(lines: seq<string>)
      requires Valid()
      modifies this
      ensures Valid() && streamLines == [] && |terminal.rows| == old(|terminal.rows|)
      ensures Transcript(terminal) == old(base) + Snapshot(old(streamLines), 15) + lines
    {
      BakeStreamHistory();
      assert rendered == [];
      EmitLines(lines);
    }
  }
}
