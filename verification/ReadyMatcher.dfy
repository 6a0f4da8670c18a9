/** native/spaces.c: the agent's output is searched for a message while it arrives in chunks. */
module ReadyMatcher {
  import opened Text

  const READY_MESSAGE := "Authentication agent result: true"

  /** The text ends with the first `n` characters of the pattern. */
  predicate EndsWith(text: string, pattern: string, n: nat) {
    n <= |text| && n <= |pattern| && forall k :: 0 <= k < n ==> text[|text| - n + k] == pattern[k]
  }

  predicate OccursAt(text: string, pattern: string, at: nat) {
    at + |pattern| <= |text| && forall k :: 0 <= k < |pattern| ==> text[at + k] == pattern[k]
  }

  predicate Contains(text: string, pattern: string) {
    exists at: nat :: at <= |text| && OccursAt(text, pattern, at)
  }

  /** One character: the match goes on, or starts again at this character, or is lost. */
  function Next(pattern: string, matched: nat, c: char): nat
    requires matched < |pattern|
  {
    if c == pattern[matched] then matched + 1 else if c == pattern[0] then 1 else 0
  }

  /** The first character does not come again. */
  predicate StartsOnce(pattern: string) {
    pattern != "" && forall k :: 0 < k < |pattern| ==> pattern[k] != pattern[0]
  }

  /** What the matcher knows of the text so far: the only part of the pattern that it ends with. */
  ghost predicate Tracks(text: string, pattern: string, matched: nat) {
    && matched < |pattern| && EndsWith(text, pattern, matched) && !Contains(text, pattern)
    && forall n :: 0 < n <= |pattern| && EndsWith(text, pattern, n) ==> n == matched
  }

  lemma EndsWithSnoc(text: string, c: char, pattern: string, n: nat)
    requires 0 < n <= |pattern|
    ensures EndsWith(text + [c], pattern, n) <==> EndsWith(text, pattern, n - 1) && pattern[n - 1] == c
  {
    var longer := text + [c];
    if EndsWith(longer, pattern, n) {
      assert longer[|longer| - n + (n - 1)] == pattern[n - 1];
      forall k | 0 <= k < n - 1 ensures text[|text| - (n - 1) + k] == pattern[k] {
        assert longer[|longer| - n + k] == pattern[k];
      }
    }
  }

  lemma ContainsSnoc(text: string, c: char, pattern: string)
    requires pattern != ""
    ensures Contains(text + [c], pattern) <==> Contains(text, pattern) || EndsWith(text + [c], pattern, |pattern|)
  {
    var longer := text + [c];
    if Contains(longer, pattern) {
      var at: nat :| at <= |longer| && OccursAt(longer, pattern, at);
      if at + |pattern| <= |text| {
        assert OccursAt(text, pattern, at);
      }
    }
    if Contains(text, pattern) {
      var at: nat :| at <= |text| && OccursAt(text, pattern, at);
      assert OccursAt(longer, pattern, at);
    }
    if EndsWith(longer, pattern, |pattern|) {
      assert OccursAt(longer, pattern, |longer| - |pattern|);
    }
  }

  /** The simple reset is right for such a pattern: the match is complete exactly when the text now contains it. */
  lemma NextTracks(text: string, pattern: string, matched: nat, c: char)
    requires StartsOnce(pattern) && Tracks(text, pattern, matched)
    ensures var next := Next(pattern, matched, c);
      && (next == |pattern| <==> Contains(text + [c], pattern))
      && (next < |pattern| ==> Tracks(text + [c], pattern, next))
  {
    var longer, next := text + [c], Next(pattern, matched, c);
    ContainsSnoc(text, c, pattern);
    forall n: nat | 0 < n <= |pattern| ensures EndsWith(longer, pattern, n) <==> n == next {
      EndsWithSnoc(text, c, pattern, n);
      if n > 1 && EndsWith(text, pattern, n - 1) {
        assert n - 1 == matched;
      }
    }
  }

  // ---- The input ----

  /** One read: bytes, an interruption, or the end or an error. */
  datatype Read = Chunk(bytes: string) | Interrupted | Stop

  /** What was read until the end or an error. */
  function Stream(input: seq<Read>): string {
    if input == [] then ""
    else
      match input[0]
      case Chunk(bytes) => bytes + Stream(input[1..])
      case Interrupted => Stream(input[1..])
      case Stop => ""
  }

  /** relay_agent_output: however the output is cut into chunks, readiness is reported once if it contains the message,
      and never otherwise. */
  method RelayAgentOutput(input: seq<Read>) returns (reports: nat)
    ensures reports == if Contains(Stream(input), READY_MESSAGE) then 1 else 0
  {
    var matched: nat := 0;
    var reported := false;
    reports := 0;
    ghost var text := "";
    var turn := 0;
    MessageStartsOnce();
    NothingYet();
    assert input[0..] == input;
    while turn < |input|
      invariant 0 <= turn <= |input| && text + Stream(input[turn..]) == Stream(input)
      invariant reports == if reported then 1 else 0
      invariant if reported then Contains(text, READY_MESSAGE) else Tracks(text, READY_MESSAGE, matched)
    {
      assert input[turn..][1..] == input[turn + 1..];
      match input[turn] {
        case Stop =>
          assert Stream(input[turn..]) == "" && text == Stream(input);
          return;
        case Interrupted =>
          turn := turn + 1;
        case Chunk(bytes) =>
          ghost var before := text;
          var sent;
          matched, sent := Scan(bytes, matched, reported, text);
          if sent {
            reports := reports + 1;
            reported := true;
          }
          text := text + bytes;
          assert before + (bytes + Stream(input[turn + 1..])) == text + Stream(input[turn + 1..]);
          turn := turn + 1;
      }
    }
    assert input[turn..] == [] && text + "" == text;
  }

  /** The loop over one chunk; `sent` tells that the message was completed in it. */
  method Scan(bytes: string, start: nat, reported: bool, ghost text: string) returns (matched: nat, sent: bool)
    requires if reported then Contains(text, READY_MESSAGE) else Tracks(text, READY_MESSAGE, start)
    ensures sent == (!reported && Contains(text + bytes, READY_MESSAGE))
    ensures if reported || sent then Contains(text + bytes, READY_MESSAGE) else Tracks(text + bytes, READY_MESSAGE, matched)
  {
    matched, sent := start, false;
    MessageStartsOnce();
    var index := 0;
    assert text + bytes[..0] == text;
    while index < |bytes| && !reported && !sent
      invariant 0 <= index <= |bytes|
      invariant !reported && !sent ==> Tracks(text + bytes[..index], READY_MESSAGE, matched)
      invariant sent ==> !reported && Contains(text + bytes[..index], READY_MESSAGE)
    {
      NextTracks(text + bytes[..index], READY_MESSAGE, matched, bytes[index]);
      assert text + bytes[..index + 1] == (text + bytes[..index]) + [bytes[index]];
      matched := Next(READY_MESSAGE, matched, bytes[index]);
      sent := matched == |READY_MESSAGE|;
      index := index + 1;
    }
    if reported || sent {
      assert text + bytes == (text + bytes[..index]) + bytes[index..];
      ContainsMore(text, bytes);
      ContainsMore(text + bytes[..index], bytes[index..]);
    } else {
      assert bytes[..index] == bytes;
    }
  }

  lemma ContainsMore(text: string, more: string)
    ensures Contains(text, READY_MESSAGE) ==> Contains(text + more, READY_MESSAGE)
  {
    if Contains(text, READY_MESSAGE) {
      var at: nat :| at <= |text| && OccursAt(text, READY_MESSAGE, at);
      assert OccursAt(text + more, READY_MESSAGE, at);
    }
  }

  lemma MessageStartsOnce()
    ensures StartsOnce(READY_MESSAGE)
  {
  }

  lemma NothingYet()
    ensures Tracks("", READY_MESSAGE, 0)
  {
  }

  predicate Scanned(pattern: string, matched: nat, text: string)
    requires matched < |pattern|
    decreases |text|
  {
    if text == "" then false
    else
      var next := Next(pattern, matched, text[0]);
      next == |pattern| || Scanned(pattern, next, text[1..])
  }

  /** A pattern whose first character comes again can be missed by the simple reset. */
  lemma OtherPatternsAreMissed()
    ensures Contains("aaab", "aab") && !Scanned("aab", 0, "aaab")
  {
    assert OccursAt("aaab", "aab", 1);
    assert "aaab"[1..] == "aab" && "aab"[1..] == "ab" && "ab"[1..] == "b" && "b"[1..] == "";
  }
}
