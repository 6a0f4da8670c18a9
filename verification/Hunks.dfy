/** Zero-context unified hunks: their meaning, their text, and a reader for that text. The range convention is
    the one of the `diff` utility in POSIX.1-2017, "Diff -u or -U Output Format". */
module Hunks {
  import opened Text

  /** `removed` stood at zero-based row `oldStart`; `added` stands at `newStart`. */
  datatype Hunk = Hunk(oldStart: nat, removed: seq<string>, newStart: nat, added: seq<string>)

  function Reversed(hunks: seq<Hunk>): seq<Hunk> {
    if hunks == [] then []
    else
      var h := hunks[0];
      [Hunk(h.newStart, h.added, h.oldStart, h.removed)] + Reversed(hunks[1..])
  }

  /** The number of `-` and `+` lines. */
  function Changed(hunks: seq<Hunk>): nat {
    if hunks == [] then 0 else |hunks[0].removed| + |hunks[0].added| + Changed(hunks[1..])
  }

  /** Applies hunks as a patch tool does: `cursor` rows of `before` are consumed and `produced` rows are out. Both
      coordinates and all removed rows are checked. */
  function Apply(hunks: seq<Hunk>, before: seq<string>, cursor: nat, produced: nat): Option<seq<string>>
    requires cursor <= |before|
  {
    if hunks == [] then Some(before[cursor..])
    else
      var h := hunks[0];
      var end := h.oldStart + |h.removed|;
      if cursor <= h.oldStart && end <= |before| && produced + (h.oldStart - cursor) == h.newStart
         && before[h.oldStart..end] == h.removed
      then
        match Apply(hunks[1..], before, end, h.newStart + |h.added|)
        case None => None
        case Some(tail) => Some(before[cursor..h.oldStart] + h.added + tail)
      else None
  }

  /** From row `i` of `before` and row `j` of `after`, equal rows lead to `h`, whose rows stand where it says. */
  ghost predicate Fits(h: Hunk, before: seq<string>, i: nat, after: seq<string>, j: nat) {
    && i <= h.oldStart <= h.oldStart + |h.removed| <= |before|
    && j <= h.newStart <= h.newStart + |h.added| <= |after|
    && before[i..h.oldStart] == after[j..h.newStart]
    && before[h.oldStart..h.oldStart + |h.removed|] == h.removed
    && after[h.newStart..h.newStart + |h.added|] == h.added
  }

  /** The hunks relate `before` from row `i` to `after` from row `j`: rows outside them are equal. */
  ghost predicate Describes(hunks: seq<Hunk>, before: seq<string>, i: nat, after: seq<string>, j: nat)
    requires i <= |before| && j <= |after|
    decreases |hunks|
  {
    if hunks == [] then before[i..] == after[j..]
    else
      var h := hunks[0];
      && Fits(h, before, i, after, j)
      && Describes(hunks[1..], before, h.oldStart + |h.removed|, after, h.newStart + |h.added|)
  }

  /** Every hunk changes something, and at least one unchanged row separates it from the next. */
  predicate Separated(hunks: seq<Hunk>) {
    hunks != [] ==>
      var h := hunks[0];
      && |h.removed| + |h.added| > 0
      && (|hunks| > 1 ==>
            h.oldStart + |h.removed| < hunks[1].oldStart && h.newStart + |h.added| < hunks[1].newStart)
      && Separated(hunks[1..])
  }

  lemma {:induction false} DescribedApplies(hunks: seq<Hunk>, before: seq<string>, i: nat, after: seq<string>, j: nat)
    requires i <= |before| && j <= |after| && Describes(hunks, before, i, after, j)
    ensures Apply(hunks, before, i, j) == Some(after[j..])
    decreases |hunks|
  {
    if hunks != [] {
      var h := hunks[0];
      DescribedApplies(hunks[1..], before, h.oldStart + |h.removed|, after, h.newStart + |h.added|);
      assert |before[i..h.oldStart]| == |after[j..h.newStart]|;
      assert after[j..] == after[j..h.newStart] + h.added + after[h.newStart + |h.added|..];
    }
  }

  lemma {:induction false} DescribedReversed(hunks: seq<Hunk>, before: seq<string>, i: nat, after: seq<string>, j: nat)
    requires i <= |before| && j <= |after| && Describes(hunks, before, i, after, j)
    ensures Describes(Reversed(hunks), after, j, before, i)
    decreases |hunks|
  {
    if hunks != [] {
      var h := hunks[0];
      DescribedReversed(hunks[1..], before, h.oldStart + |h.removed|, after, h.newStart + |h.added|);
      assert Reversed(hunks)[1..] == Reversed(hunks[1..]);
    }
  }

  /** A row common to both sides in front of the first hunk changes nothing. */
  lemma DescribesEarlier(hunks: seq<Hunk>, before: seq<string>, i: nat, after: seq<string>, j: nat)
    requires i < |before| && j < |after| && before[i] == after[j]
    requires Describes(hunks, before, i + 1, after, j + 1)
    ensures Describes(hunks, before, i, after, j)
  {
    if hunks == [] {
      assert before[i..] == [before[i]] + before[i + 1..] && after[j..] == [after[j]] + after[j + 1..];
    } else {
      var h := hunks[0];
      assert before[i..h.oldStart] == [before[i]] + before[i + 1..h.oldStart];
      assert after[j..h.newStart] == [after[j]] + after[j + 1..h.newStart];
    }
  }

  lemma DescribesCons(h: Hunk, rest: seq<Hunk>, before: seq<string>, i: nat, after: seq<string>, j: nat)
    requires Fits(h, before, i, after, j)
    requires Describes(rest, before, h.oldStart + |h.removed|, after, h.newStart + |h.added|)
    ensures Describes([h] + rest, before, i, after, j)
  {
    var hunks := [h] + rest;
    assert hunks[0] == h && hunks[1..] == rest;
  }

  lemma SeparatedCons(h: Hunk, rest: seq<Hunk>)
    requires |h.removed| + |h.added| > 0 && Separated(rest)
    requires rest != [] ==>
               h.oldStart + |h.removed| < rest[0].oldStart && h.newStart + |h.added| < rest[0].newStart
    ensures Separated([h] + rest)
  {
    assert ([h] + rest)[1..] == rest;
  }

  // ---- Text ----

  /** tree_diff_range: a range of rows, one-based unless it is empty, its count left out when it is 1. */
  function Range(start: nat, count: nat): string {
    Decimal(start + if count != 0 then 1 else 0) + if count != 1 then "," + Decimal(count) else ""
  }

  function HeaderText(oldStart: nat, oldCount: nat, newStart: nat, newCount: nat): string {
    "@@ -" + Range(oldStart, oldCount) + " +" + Range(newStart, newCount) + " @@"
  }

  function Header(h: Hunk): string {
    HeaderText(h.oldStart, |h.removed|, h.newStart, |h.added|)
  }

  function Marked(mark: char, rows: seq<string>): (marked: seq<string>)
    ensures |marked| == |rows| && forall k :: 0 <= k < |rows| ==> marked[k] == [mark] + rows[k]
  {
    if rows == [] then [] else [[mark] + rows[0]] + Marked(mark, rows[1..])
  }

  function HunkRows(hunks: seq<Hunk>): seq<string> {
    if hunks == [] then []
    else
      [Header(hunks[0])] + Marked('-', hunks[0].removed) + Marked('+', hunks[0].added) + HunkRows(hunks[1..])
  }

  function Print(hunks: seq<Hunk>): string {
    Unrows(HunkRows(hunks))
  }

  /** A range, as (zero-based start, count, rest of the line). */
  function ReadRange(s: string): Option<(nat, nat, string)> {
    if s == "" || !IsDigit(s[0]) then None
    else
      var (start, rest) := ReadDecimal(s, 0);
      if rest != "" && rest[0] == ',' then
        if |rest| == 1 || !IsDigit(rest[1]) then None
        else
          var (count, tail) := ReadDecimal(rest[1..], 0);
          if count == 0 then Some((start, 0, tail))
          else if start == 0 then None
          else Some((start - 1, count, tail))
      else if start == 0 then None
      else Some((start - 1, 1, rest))
  }

  function ReadHeader(s: string): Option<(nat, nat, nat, nat)> {
    if |s| < 4 || s[..4] != "@@ -" then None
    else
      match ReadRange(s[4..])
      case None => None
      case Some((oldStart, oldCount, middle)) =>
        if |middle| < 2 || middle[..2] != " +" then None
        else
          match ReadRange(middle[2..])
          case None => None
          case Some((newStart, newCount, tail)) =>
            if tail == " @@" then Some((oldStart, oldCount, newStart, newCount)) else None
  }

  predicate AllMarked(mark: char, rows: seq<string>) {
    forall k :: 0 <= k < |rows| ==> rows[k] != "" && rows[k][0] == mark
  }

  function Unmarked(rows: seq<string>): seq<string>
    requires forall k :: 0 <= k < |rows| ==> rows[k] != ""
  {
    if rows == [] then [] else [rows[0][1..]] + Unmarked(rows[1..])
  }

  lemma {:induction false} MarkedReads(mark: char, rows: seq<string>)
    ensures AllMarked(mark, Marked(mark, rows)) && Unmarked(Marked(mark, rows)) == rows
  {
    if rows != [] {
      MarkedReads(mark, rows[1..]);
      assert Marked(mark, rows)[1..] == Marked(mark, rows[1..]);
      assert ([mark] + rows[0])[1..] == rows[0];
    }
  }

  /** Reads printed rows back into hunks; None for anything that is not a zero-context hunk list. */
  function ReadHunks(rows: seq<string>): Option<seq<Hunk>>
    decreases |rows|
  {
    if rows == [] then Some([])
    else
      match ReadHeader(rows[0])
      case None => None
      case Some((oldStart, r, newStart, a)) =>
        if |rows| < 1 + r + a || !AllMarked('-', rows[1..1 + r]) || !AllMarked('+', rows[1 + r..1 + r + a]) then None
        else
          match ReadHunks(rows[1 + r + a..])
          case None => None
          case Some(more) =>
            Some([Hunk(oldStart, Unmarked(rows[1..1 + r]), newStart, Unmarked(rows[1 + r..1 + r + a]))] + more)
  }

  lemma PrintNone()
    ensures Print([]) == ""
  {
  }

  lemma PrintCons(done: string, h: Hunk, rest: seq<Hunk>)
    ensures done + Print([h] + rest)
         == done + (Header(h) + NEWLINE + Unrows(Marked('-', h.removed)) + Unrows(Marked('+', h.added))) + Print(rest)
  {
    var minus, plus := Marked('-', h.removed), Marked('+', h.added);
    assert ([h] + rest)[1..] == rest;
    assert Unrows([Header(h)]) == Header(h) + NEWLINE;
    hide Header, Marked, Unrows;
    UnrowsAppend([Header(h)] + minus + plus, HunkRows(rest));
    UnrowsAppend([Header(h)] + minus, plus);
    UnrowsAppend([Header(h)], minus);
    Regrouped(done, Header(h) + NEWLINE + Unrows(minus) + Unrows(plus), Print(rest));
  }

  lemma {:induction false} MarkedSnoc(mark: char, rows: seq<string>, last: string)
    ensures Marked(mark, rows + [last]) == Marked(mark, rows) + [[mark] + last]
  {
    if rows != [] {
      MarkedSnoc(mark, rows[1..], last);
      assert (rows + [last])[1..] == rows[1..] + [last];
    }
  }

  lemma ReadRangeOfRange(start: nat, count: nat, rest: string)
    requires rest != "" && !IsDigit(rest[0]) && rest[0] != ','
    ensures ReadRange(Range(start, count) + rest) == Some((start, count, rest))
  {
    var first := start + if count != 0 then 1 else 0;
    if count == 1 {
      ReadDecimalContinues(first, rest);
      assert Range(start, count) + rest == Decimal(first) + rest;
    } else {
      var comma := "," + (Decimal(count) + rest);
      ReadDecimalContinues(first, comma);
      ReadDecimalContinues(count, rest);
      assert Range(start, count) + rest == Decimal(first) + comma;
      assert comma[1..] == Decimal(count) + rest;
    }
  }

  lemma ReadHeaderOfHeader(h: Hunk)
    ensures ReadHeader(Header(h)) == Some((h.oldStart, |h.removed|, h.newStart, |h.added|))
  {
    var right := Range(h.newStart, |h.added|) + " @@";
    var middle := " +" + right;
    ReadRangeOfRange(h.oldStart, |h.removed|, middle);
    ReadRangeOfRange(h.newStart, |h.added|, " @@");
    assert Header(h) == "@@ -" + (Range(h.oldStart, |h.removed|) + middle);
    assert Header(h)[4..] == Range(h.oldStart, |h.removed|) + middle;
    assert middle[2..] == right;
  }

  lemma ReadHunksStep(head: string, minus: seq<string>, plus: seq<string>, rest: seq<string>,
                      oldStart: nat, newStart: nat, hunks: seq<Hunk>)
    requires ReadHeader(head) == Some((oldStart, |minus|, newStart, |plus|))
    requires AllMarked('-', minus) && AllMarked('+', plus)
    requires ReadHunks(rest) == Some(hunks)
    ensures ReadHunks([head] + minus + plus + rest)
         == Some([Hunk(oldStart, Unmarked(minus), newStart, Unmarked(plus))] + hunks)
  {
    var rows := [head] + minus + plus + rest;
    var r, a := |minus|, |plus|;
    assert rows[0] == head;
    assert rows[1..1 + r] == minus;
    assert rows[1 + r..1 + r + a] == plus;
    assert rows[1 + r + a..] == rest;
  }

  /** Reading the printed hunks gives the hunks back, 0-count and 1-count ranges included. */
  lemma {:induction false} ReadHunksOfRows(hunks: seq<Hunk>)
    ensures ReadHunks(HunkRows(hunks)) == Some(hunks)
  {
    hide Header, Marked, Unmarked, ReadHeader;
    if hunks != [] {
      var h := hunks[0];
      ReadHunksOfRows(hunks[1..]);
      ReadHeaderOfHeader(h);
      MarkedReads('-', h.removed);
      MarkedReads('+', h.added);
      ReadHunksStep(Header(h), Marked('-', h.removed), Marked('+', h.added), HunkRows(hunks[1..]),
                    h.oldStart, h.newStart, hunks[1..]);
      assert hunks == [h] + hunks[1..];
    }
  }

  ghost predicate OneLine(rows: seq<string>) {
    forall row <- rows :: '\n' !in row
  }

  lemma {:induction false} HunkRowsOneLine(hunks: seq<Hunk>)
    requires forall h <- hunks :: OneLine(h.removed) && OneLine(h.added)
    ensures OneLine(HunkRows(hunks))
  {
    if hunks != [] {
      var h := hunks[0];
      HunkRowsOneLine(hunks[1..]);
      HeaderOneLine(h);
      MarkedOneLine('-', h.removed);
      MarkedOneLine('+', h.added);
      OneLineAppend([Header(h)], Marked('-', h.removed));
      OneLineAppend([Header(h)] + Marked('-', h.removed), Marked('+', h.added));
      hide Header, Marked;
      OneLineAppend([Header(h)] + Marked('-', h.removed) + Marked('+', h.added), HunkRows(hunks[1..]));
    }
  }

  lemma OneLineAppend(rows: seq<string>, more: seq<string>)
    requires OneLine(rows) && OneLine(more)
    ensures OneLine(rows + more)
  {
  }

  lemma MarkedOneLine(mark: char, rows: seq<string>)
    requires OneLine(rows) && mark != '\n'
    ensures OneLine(Marked(mark, rows))
  {
    var marked := Marked(mark, rows);
    forall k | 0 <= k < |marked| ensures '\n' !in marked[k] {
      assert rows[k] in rows;
    }
  }

  lemma HeaderOneLine(h: Hunk)
    ensures '\n' !in Header(h)
  {
  }

  /** The printed text determines the hunks. */
  lemma ReadOfPrint(hunks: seq<Hunk>)
    requires forall h <- hunks :: OneLine(h.removed) && OneLine(h.added)
    ensures ReadHunks(Rows(Print(hunks))) == Some(hunks)
  {
    HunkRowsOneLine(hunks);
    RowsOfUnrows(HunkRows(hunks));
    ReadHunksOfRows(hunks);
  }

  /** Reads `script` as hunk text and applies it to `previous`. */
  function Patch(previous: string, script: string): Option<string> {
    match ReadHunks(Rows(script))
    case None => None
    case Some(hunks) =>
      match Apply(hunks, Rows(previous), 0, 0)
      case None => None
      case Some(rows) => Some(Unrows(rows))
  }

  /** The same in reverse, as `patch -R` does. */
  function Unpatch(current: string, script: string): Option<string> {
    match ReadHunks(Rows(script))
    case None => None
    case Some(hunks) =>
      match Apply(Reversed(hunks), Rows(current), 0, 0)
      case None => None
      case Some(rows) => Some(Unrows(rows))
  }

  /** A hunk as it is printed: row 3 of the old text became rows 3 and 4 of the new one. */
  lemma PrintedHunk()
    ensures Print([Hunk(2, ["a"], 2, ["b", "c"])]) == "@@ -3 +3,2 @@\n-a\n+b\n+c\n"
  {
    PrintedRows();
    hide HunkRows;
    var rows := ["@@ -3 +3,2 @@", "-a", "+b", "+c"];
    assert rows[1..] == ["-a", "+b", "+c"] && rows[1..][1..] == ["+b", "+c"] && rows[1..][1..][1..] == ["+c"];
    assert Unrows(["+c"]) == "+c\n" && Unrows(["+b", "+c"]) == "+b\n+c\n" && Unrows(rows[1..]) == "-a\n+b\n+c\n";
  }

  lemma PrintedRows()
    ensures HunkRows([Hunk(2, ["a"], 2, ["b", "c"])]) == ["@@ -3 +3,2 @@", "-a", "+b", "+c"]
  {
    var h := Hunk(2, ["a"], 2, ["b", "c"]);
    PrintedHeader();
    hide HeaderText;
    assert [h][1..] == [] && HunkRows([]) == [];
    assert HunkRows([h]) == [Header(h)] + Marked('-', h.removed) + Marked('+', h.added) + [];
    assert ['-'] + "a" == "-a" && ['+'] + "b" == "+b" && ['+'] + "c" == "+c";
    assert Marked('-', h.removed) == ["-a"] && Marked('+', h.added) == ["+b", "+c"];
  }

  lemma PrintedHeader()
    ensures HeaderText(2, 1, 2, 2) == "@@ -3 +3,2 @@"
  {
    assert Decimal(3) == "3" && Decimal(2) == "2";
    assert Range(2, 1) == "3" && Range(2, 2) == "3,2";
    hide Decimal, Range;
  }
}
