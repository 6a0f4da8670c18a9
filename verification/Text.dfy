/** Strings as the C and Python sources use them: splitting at a separator, newline-terminated rows and
    unsigned decimal numerals. */
module Text {
  datatype Option<+T> = None | Some(value: T)

  const NEWLINE: string := "\n"

  /** The pieces of `s` between separators; like g_strsplit, except that "" has one (empty) piece. */
  function Split(s: string, separator: char): (pieces: seq<string>)
    ensures |pieces| >= 1
    ensures forall piece <- pieces :: separator !in piece
  {
    if s == "" then [""]
    else
      var rest := Split(s[1..], separator);
      if s[0] == separator then [""] + rest else [[s[0]] + rest[0]] + rest[1..]
  }

  /** g_strsplit(s, separator, -1). */
  function Strsplit(s: string, separator: char): (pieces: seq<string>)
    ensures forall piece <- pieces :: separator !in piece
  {
    if s == "" then [] else Split(s, separator)
  }

  /** Split rows: the empty piece behind a final newline is not a row. */
  function Rows(s: string): (rows: seq<string>)
    ensures forall row <- rows :: '\n' !in row
  {
    var pieces := Strsplit(s, '\n');
    if pieces != [] && pieces[|pieces| - 1] == "" then pieces[..|pieces| - 1] else pieces
  }

  function Unrows(rows: seq<string>): string {
    if rows == [] then "" else rows[0] + NEWLINE + Unrows(rows[1..])
  }

  predicate Terminated(s: string) {
    s == "" || s[|s| - 1] == '\n'
  }

  lemma {:induction false} SplitLine(row: string, rest: string)
    requires '\n' !in row
    ensures Split(row + NEWLINE + rest, '\n') == [row] + Split(rest, '\n')
  {
    if row == "" {
      assert row + NEWLINE + rest == NEWLINE + rest;
    } else {
      var s := row + NEWLINE + rest;
      assert s[0] == row[0] && row[0] in row;
      assert s[1..] == row[1..] + NEWLINE + rest;
      SplitLine(row[1..], rest);
      assert [row[0]] + row[1..] == row;
      assert ([row[1..]] + Split(rest, '\n'))[1..] == Split(rest, '\n');
    }
  }

  lemma Regrouped<T>(a: seq<T>, b: seq<T>, c: seq<T>)
    ensures a + b + c == a + (b + c)
  {
  }

  lemma Halves<T>(s: seq<T>, n: nat)
    requires n <= |s|
    ensures s[..n] + s[n..] == s
  {
  }

  lemma {:induction false} SplitUnrows(rows: seq<string>, rest: string)
    requires forall row <- rows :: '\n' !in row
    ensures Split(Unrows(rows) + rest, '\n') == rows + Split(rest, '\n')
  {
    if rows == [] {
      assert Unrows(rows) + rest == rest;
    } else {
      var later := Unrows(rows[1..]);
      SplitUnrows(rows[1..], rest);
      SplitLine(rows[0], later + rest);
      Regrouped(rows[0] + NEWLINE, later, rest);
      assert rows == [rows[0]] + rows[1..];
      Regrouped([rows[0]], rows[1..], Split(rest, '\n'));
    }
  }

  /** Printing rows and splitting them again gives the same rows. */
  lemma RowsOfUnrows(rows: seq<string>)
    requires forall row <- rows :: '\n' !in row
    ensures Rows(Unrows(rows)) == rows
  {
    SplitUnrows(rows, "");
    assert Unrows(rows) + "" == Unrows(rows);
    assert Split("", '\n') == [""];
  }

  lemma {:induction false} UnrowsPieces(s: string)
    ensures Unrows(Split(s, '\n')) == s + NEWLINE
  {
    if s != "" {
      UnrowsPieces(s[1..]);
      var rest := Split(s[1..], '\n');
      var pieces := Split(s, '\n');
      if s[0] == '\n' {
        assert pieces[1..] == rest;
      } else {
        assert pieces[1..] == rest[1..];
        assert Unrows(pieces) == [s[0]] + (rest[0] + NEWLINE + Unrows(rest[1..]));
      }
    }
  }

  lemma {:induction false} UnrowsSnoc(rows: seq<string>, last: string)
    ensures Unrows(rows + [last]) == Unrows(rows) + last + NEWLINE
  {
    if rows != [] {
      UnrowsSnoc(rows[1..], last);
      assert (rows + [last])[1..] == rows[1..] + [last];
    }
  }

  lemma {:induction false} UnrowsAppend(rows: seq<string>, more: seq<string>)
    ensures Unrows(rows + more) == Unrows(rows) + Unrows(more)
  {
    if rows == [] {
      assert rows + more == more;
    } else {
      UnrowsAppend(rows[1..], more);
      assert (rows + more)[1..] == rows[1..] + more;
      Regrouped(rows[0] + NEWLINE, Unrows(rows[1..]), Unrows(more));
    }
  }

  lemma {:induction false} LastPiece(s: string)
    ensures var pieces := Split(s, '\n'); (pieces[|pieces| - 1] == "") == Terminated(s)
  {
    if s != "" {
      LastPiece(s[1..]);
    }
  }

  /** Splitting into rows and joining restores a text exactly when it ends in a newline or is empty; any other
      text comes back with the newline it lacked. */
  lemma UnrowsOfRows(s: string)
    ensures Unrows(Rows(s)) == if Terminated(s) then s else s + NEWLINE
  {
    if s != "" {
      var pieces := Split(s, '\n');
      UnrowsPieces(s);
      LastPiece(s);
      if Terminated(s) {
        var rows := pieces[..|pieces| - 1];
        UnrowsSnoc(rows, "");
        assert pieces == rows + [""];
        assert Unrows(rows) + "" + NEWLINE == s + NEWLINE;
        assert Unrows(rows) == (Unrows(rows) + "" + NEWLINE)[..|s|] == s;
      }
    }
  }

  function SkipSpaces(s: string): string {
    if s != "" && s[0] == ' ' then SkipSpaces(s[1..]) else s
  }

  predicate IsDigit(c: char) {
    '0' <= c <= '9'
  }

  function DigitValue(c: char): (d: nat)
    requires IsDigit(c)
    ensures d < 10
  {
    (c as int) - ('0' as int)
  }

  function DigitChar(d: nat): (c: char)
    requires d < 10
    ensures IsDigit(c) && DigitValue(c) == d
  {
    (('0' as int) + d) as char
  }

  /** printf "%u". */
  function Decimal(n: nat): (s: string)
    ensures |s| >= 1
    ensures forall c <- s :: IsDigit(c)
  {
    if n < 10 then [DigitChar(n)] else Decimal(n / 10) + [DigitChar(n % 10)]
  }

  /** Reads digits until another character, as strtoull does. */
  function ReadDecimal(s: string, value: nat): (r: (nat, string))
    ensures |r.1| <= |s|
  {
    if s != "" && IsDigit(s[0]) then ReadDecimal(s[1..], 10 * value + DigitValue(s[0])) else (value, s)
  }

  lemma {:induction false} ReadDecimalContinues(n: nat, rest: string)
    ensures ReadDecimal(Decimal(n) + rest, 0) == ReadDecimal(rest, n)
    decreases n
  {
    if n < 10 {
      assert (Decimal(n) + rest)[1..] == rest;
    } else {
      ReadDecimalContinues(n / 10, [DigitChar(n % 10)] + rest);
      assert Decimal(n) + rest == Decimal(n / 10) + ([DigitChar(n % 10)] + rest);
      assert ([DigitChar(n % 10)] + rest)[1..] == rest;
    }
  }
}
