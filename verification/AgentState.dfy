/** native/spaces.c: the shared polkit agent's state file, three numbers in text. */
module AgentState {
  import opened Text

  const INT_MAX: nat := 0x7FFF_FFFF
  const UINT_MAX: nat := 0xFFFF_FFFF
  const ULLONG_MAX: nat := 0xFFFF_FFFF_FFFF_FFFF
  const BUFFER: nat := 128

  /** A process that can be named again only by the same process: its ID and when it started. */
  datatype Identity = Identity(pid: int, start: nat)

  datatype Record = Record(agent: Identity, references: nat)

  const NO_RECORD := Record(Identity(-1, 0), 0)

  /** The value of a string of digits. */
  function Value(s: string): (n: nat)
    requires AllDigits(s)
  {
    if s == [] then 0 else 10 * Value(s[..|s| - 1]) + DigitValue(s[|s| - 1])
  }

  predicate AllDigits(s: string) {
    forall k :: 0 <= k < |s| ==> IsDigit(s[k])
  }

  lemma {:induction false} ValueGrows(s: string, n: nat)
    requires AllDigits(s) && n <= |s|
    ensures Value(s[..n]) <= Value(s)
    decreases |s|
  {
    if n < |s| {
      var before := s[..|s| - 1];
      assert before[..n] == s[..n];
      ValueGrows(before, n);
    } else {
      assert s[..n] == s;
    }
  }

  /** parse_unsigned accepts exactly the strings of digits whose value does not exceed the maximum, and never computes
      a larger number on the way. */
  method ParseUnsigned(s: string, maximum: nat) returns (parsed: Option<nat>)
    requires maximum >= 9
    ensures parsed == ParsedUnsigned(s, maximum)
  {
    if s == [] {
      return None;
    }
    var value := 0;
    var cursor := 0;
    while cursor < |s|
      invariant 0 <= cursor <= |s| && AllDigits(s[..cursor]) && value == Value(s[..cursor]) <= maximum
    {
      if !IsDigit(s[cursor]) {
        assert !AllDigits(s);
        return None;
      }
      assert s[..cursor + 1][..cursor] == s[..cursor];
      var digit := DigitValue(s[cursor]);
      if value > (maximum - digit) / 10 {
        if AllDigits(s) {
          ValueGrows(s, cursor + 1);
        }
        return None;
      }
      value := value * 10 + digit;
      cursor := cursor + 1;
    }
    assert s[..cursor] == s;
    parsed := Some(value);
  }

  function ParsedUnsigned(s: string, maximum: nat): Option<nat> {
    if s != [] && AllDigits(s) && Value(s) <= maximum then Some(Value(s)) else None
  }

  lemma {:induction false} DecimalValue(n: nat)
    ensures AllDigits(Decimal(n)) && Value(Decimal(n)) == n
    decreases n
  {
    if n < 10 {
      assert Decimal(n)[..0] == [];
    } else {
      DecimalValue(n / 10);
      var s := Decimal(n);
      assert s[..|s| - 1] == Decimal(n / 10) && s[|s| - 1] == DigitChar(n % 10);
    }
  }

  function Power(k: nat): nat {
    if k == 0 then 1 else 10 * Power(k - 1)
  }

  lemma {:induction false} DecimalLength(n: nat, k: nat)
    requires k > 0 && n < Power(k)
    ensures |Decimal(n)| <= k
    decreases k
  {
    if n >= 10 {
      DecimalLength(n / 10, k - 1);
    }
  }

  // ---- The text ----

  /** write_agent_state */
  function Written(r: Record): string
    requires r.agent.pid >= 0
  {
    Decimal(r.agent.pid) + " " + Decimal(r.agent.start) + " " + Decimal(r.references) + "\n"
  }

  /** The field at the start, up to a space, a line end or the end. */
  function Field(s: string): (field: string)
    ensures field <= s
  {
    if s == [] || s[0] == ' ' || s[0] == '\n' then []
    else
      var rest := Field(s[1..]);
      assert s == [s[0]] + s[1..];
      [s[0]] + rest
  }

  /** What pread gives and a C string keeps: at most 127 bytes, up to a NUL. */
  function Buffered(content: string): string {
    UpToNul(if |content| < BUFFER then content else content[..BUFFER - 1])
  }

  function UpToNul(s: string): string {
    if s == [] || s[0] == '\0' then [] else [s[0]] + UpToNul(s[1..])
  }

  /** The next field and what follows it. */
  function NextField(s: string): (string, string) {
    var s := SkipSpaces(s);
    (Field(s), s[|Field(s)|..])
  }

  /** read_agent_state: a start time that was read stays even when the count after it is bad. */
  function ReadBack(content: string): Record {
    var (first, rest) := NextField(Buffered(content));
    match ParsedUnsigned(first, INT_MAX)
    case None => NO_RECORD
    case Some(pid) =>
      var (second, rest) := NextField(rest);
      (match ParsedUnsigned(second, ULLONG_MAX)
       case None => NO_RECORD
       case Some(start) =>
         match ParsedUnsigned(NextField(rest).0, UINT_MAX)
         case None => Record(Identity(-1, start), 0)
         case Some(references) => Record(Identity(pid, start), references))
  }

  predicate Spaces(s: string) {
    forall k :: 0 <= k < |s| ==> s[k] == ' '
  }

  /** A word of the text, and what may follow it. */
  predicate Word(s: string, rest: string) {
    && s != [] && (forall k :: 0 <= k < |s| ==> s[k] != ' ' && s[k] != '\n')
    && (rest == [] || rest[0] == ' ' || rest[0] == '\n')
  }

  lemma {:induction false} WordIsField(spaces: string, word: string, rest: string)
    requires Spaces(spaces) && Word(word, rest)
    ensures NextField(spaces + word + rest) == (word, rest)
  {
    var s := spaces + word + rest;
    if spaces == [] {
      assert s == word + rest;
      FieldIsWord(word, rest);
      assert (word + rest)[|word|..] == rest;
    } else {
      assert s[1..] == spaces[1..] + word + rest;
      WordIsField(spaces[1..], word, rest);
    }
  }

  lemma {:induction false} FieldIsWord(word: string, rest: string)
    requires (forall k :: 0 <= k < |word| ==> word[k] != ' ' && word[k] != '\n')
    requires rest == [] || rest[0] == ' ' || rest[0] == '\n'
    ensures Field(word + rest) == word
  {
    if word == [] {
      assert word + rest == rest;
    } else {
      assert (word + rest)[1..] == word[1..] + rest;
      FieldIsWord(word[1..], rest);
    }
  }

  /** Three words are read as the process ID, its start time and the count. The first that is no number within its range
      ends the reading, and of a start time before a bad count the start time stays. */
  lemma WordsAreRead(content: string, p: string, a: string, q: string, b: string, r: string, c: string, rest: string)
    requires content == p + a + (q + b + (r + c + rest)) && |content| < 128 && NoNul(content)
    requires Spaces(p) && Spaces(q) && Spaces(r)
    requires Word(a, q + b + (r + c + rest)) && Word(b, r + c + rest) && Word(c, rest)
    ensures ReadBack(content) ==
            match (ParsedUnsigned(a, 0x7FFF_FFFF), ParsedUnsigned(b, 0xFFFF_FFFF_FFFF_FFFF))
            case (Some(pid), Some(start)) =>
              (match ParsedUnsigned(c, 0xFFFF_FFFF)
               case Some(references) => Record(Identity(pid, start), references)
               case None => Record(Identity(-1, start), 0))
            case _ => Record(Identity(-1, 0), 0)
  {
    UpToNulAll(content);
    WordIsField(p, a, q + b + (r + c + rest));
    WordIsField(q, b, r + c + rest);
    WordIsField(r, c, rest);
    hide ParsedUnsigned, NextField, UpToNul, Word, Spaces, NoNul;
  }

  /** Only 127 bytes are read, and of these what stands before a NUL. */
  lemma RestIsIgnored(content: string, more: string)
    ensures |content| >= 127 ==> ReadBack(content + more) == ReadBack(content[..127])
    ensures NoNul(content) ==> ReadBack(content + "\0" + more) == ReadBack(content)
  {
    hide NextField, ParsedUnsigned, Buffered, NoNul;
    LongIsCut(content, more);
    NulIsEnd(content, more);
  }

  lemma LongIsCut(content: string, more: string)
    ensures |content| >= 127 ==> Buffered(content + more) == Buffered(content[..127])
  {
    hide UpToNul;
    if |content| >= 127 {
      assert (content + more)[..127] == content[..127];
      assert |content + more| < 128 ==> content + more == content[..127];
    }
  }

  lemma NulIsEnd(content: string, more: string)
    ensures NoNul(content) ==> Buffered(content + "\0" + more) == Buffered(content)
  {
    hide UpToNul;
    if NoNul(content) {
      var s := content + "\0" + more;
      if |content| < 127 {
        UpToNulAll(content);
        var rest := if |s| < 128 then more else more[..126 - |content|];
        assert (if |s| < 128 then s else s[..127]) == content + "\0" + rest;
        NulEnds(content, rest);
      } else {
        assert s[..127] == content[..127] && (|content| == 127 ==> content[..127] == content);
      }
    }
  }

  lemma {:induction false} NulEnds(s: string, more: string)
    requires NoNul(s)
    ensures UpToNul(s + "\0" + more) == s
  {
    if s != [] {
      assert (s + "\0" + more)[1..] == s[1..] + "\0" + more;
      NulEnds(s[1..], more);
    }
  }

  predicate InRange(r: Record) {
    0 <= r.agent.pid <= INT_MAX && r.agent.start <= ULLONG_MAX && r.references <= UINT_MAX
  }

  /** Whatever the file holds, what is read fits the fields, or its process ID is -1. */
  lemma ReadBackInRange(content: string)
    ensures var r := ReadBack(content); InRange(r) || (r.agent.pid == -1 && r.references == 0)
  {
    hide NextField, Buffered;
  }

  lemma {:induction false} FieldIs(digits: string, rest: string)
    requires AllDigits(digits) && rest != [] && (rest[0] == ' ' || rest[0] == '\n')
    ensures Field(digits + rest) == digits
    ensures SkipSpaces(digits + rest) == if digits == [] then SkipSpaces(rest) else digits + rest
  {
    if digits == [] {
      assert digits + rest == rest;
    } else {
      assert (digits + rest)[1..] == digits[1..] + rest && digits == [digits[0]] + digits[1..];
      FieldIs(digits[1..], rest);
    }
  }

  predicate NoNul(s: string) {
    forall k :: 0 <= k < |s| ==> s[k] != '\0'
  }

  lemma {:induction false} UpToNulAll(s: string)
    requires NoNul(s)
    ensures UpToNul(s) == s
  {
    if s != [] {
      UpToNulAll(s[1..]);
    }
  }

  lemma WrittenFits(r: Record)
    requires InRange(r)
    ensures |Written(r)| < BUFFER && NoNul(Written(r))
  {
    var a, b, c := Decimal(r.agent.pid), Decimal(r.agent.start), Decimal(r.references);
    assert Power(5) == 100_000;
    assert Power(10) == 100_000 * Power(5) && Power(20) == Power(10) * Power(10) by {
      assert Power(10) == 10_000_000_000 by {
        assert Power(9) == 10_000 * Power(5);
      }
      assert Power(14) == 10_000 * Power(10) && Power(18) == 10_000 * Power(14);
    }
    DecimalLength(r.agent.pid, 10);
    DecimalLength(r.agent.start, 20);
    DecimalLength(r.references, 10);
    DecimalValue(r.agent.pid);
    DecimalValue(r.agent.start);
    DecimalValue(r.references);
  }

  lemma NextFieldIs(digits: string, rest: string)
    requires digits != [] && AllDigits(digits) && rest != [] && (rest[0] == ' ' || rest[0] == '\n')
    ensures NextField(digits + rest) == (digits, rest)
    ensures NextField(" " + (digits + rest)) == (digits, rest)
  {
    FieldIs(digits, rest);
    SpaceSkipped(digits + rest);
    hide Field, AllDigits;
    assert (digits + rest)[|digits|..] == rest;
  }

  lemma NumberRead(n: nat, maximum: nat)
    requires n <= maximum
    ensures Decimal(n) != [] && AllDigits(Decimal(n)) && ParsedUnsigned(Decimal(n), maximum) == Some(n)
  {
    DecimalValue(n);
  }

  lemma FieldsRead(r: Record, content: string, a: string, b: string, c: string, afterA: string, afterB: string)
    requires Buffered(content) == content
    requires NextField(content) == (a, afterA) && NextField(afterA) == (b, afterB) && NextField(afterB).0 == c
    requires r.agent.pid >= 0 && ParsedUnsigned(a, INT_MAX) == Some(r.agent.pid)
    requires ParsedUnsigned(b, ULLONG_MAX) == Some(r.agent.start) && ParsedUnsigned(c, UINT_MAX) == Some(r.references)
    ensures ReadBack(content) == r
  {
    hide NextField, ParsedUnsigned, Buffered;
  }

  lemma WrittenFields(a: string, b: string, c: string)
    requires a != [] && b != [] && c != [] && AllDigits(a) && AllDigits(b) && AllDigits(c)
    ensures var afterB := " " + (c + "\n");
      var afterA := " " + (b + afterB);
      && a + " " + b + " " + c + "\n" == a + afterA
      && NextField(a + afterA) == (a, afterA) && NextField(afterA) == (b, afterB) && NextField(afterB).0 == c
  {
    hide NextField, AllDigits;
    var afterB := " " + (c + "\n");
    var afterA := " " + (b + afterB);
    NextFieldIs(a, afterA);
    NextFieldIs(b, afterB);
    NextFieldIs(c, "\n");
  }

  /** What is written is read back. */
  lemma ReadBackWritten(r: Record)
    requires InRange(r)
    ensures ReadBack(Written(r)) == r
  {
    var a, b, c := Decimal(r.agent.pid), Decimal(r.agent.start), Decimal(r.references);
    WrittenFits(r);
    UpToNulAll(Written(r));
    NumberRead(r.agent.pid, INT_MAX);
    NumberRead(r.agent.start, ULLONG_MAX);
    NumberRead(r.references, UINT_MAX);
    assert Buffered(Written(r)) == Written(r);
    hide NextField, ParsedUnsigned, Buffered, AllDigits, NoNul, ReadBack;
    WrittenFields(a, b, c);
    var afterB := " " + (c + "\n");
    FieldsRead(r, Written(r), a, b, c, " " + (b + afterB), afterB);
  }

  lemma SpaceSkipped(s: string)
    ensures SkipSpaces(" " + s) == SkipSpaces(s)
  {
    assert (" " + s)[1..] == s;
  }
}
