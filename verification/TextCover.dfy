/** native/scu_host.c, child_text_covers: do the children's texts represent every literal part of an aggregate? */
module TextCover {
  /** Behind a matched part: the remaining parts occur in order, with arbitrary gaps in front of each, and nothing
      follows the last one unless the parts are only the beginning (`partial`). */
  ghost predicate Follows(parts: seq<string>, partial: bool, text: string)
    decreases |parts|
  {
    if parts == [] then partial || text == ""
    else exists gap: nat :: PartAt(parts[0], text, gap) && Follows(parts[1..], partial, text[gap + |parts[0]|..])
  }

  predicate PartAt(part: string, text: string, at: nat) {
    at + |part| <= |text| && text[at..at + |part|] == part
  }

  /** The text is the parts in order with arbitrary gaps between them, anchored at its start, and at its end exactly
      when not `partial`. */
  ghost predicate Covers(parts: seq<string>, partial: bool, text: string) {
    if parts == [] then partial || text == ""
    else PartAt(parts[0], text, 0) && Follows(parts[1..], partial, text[|parts[0]|..])
  }

  /** More text in front only widens the first gap. */
  lemma Widen(parts: seq<string>, partial: bool, text: string, cut: nat)
    requires cut <= |text| && (parts != [] || partial)
    requires Follows(parts, partial, text[cut..])
    ensures Follows(parts, partial, text)
  {
    if parts != [] {
      var part := parts[0];
      var gap: nat :| PartAt(part, text[cut..], gap) && Follows(parts[1..], partial, text[cut..][gap + |part|..]);
      assert text[cut..][gap..gap + |part|] == text[cut + gap..cut + gap + |part|];
      assert text[cut..][gap + |part|..] == text[cut + gap + |part|..];
      assert PartAt(part, text, cut + gap);
    }
  }

  /** Taking the first occurrence of a part loses no match, unless the part must end the text. */
  lemma FirstMatchSuffices(parts: seq<string>, partial: bool, text: string, first: nat)
    requires parts != [] && (|parts| > 1 || partial)
    requires PartAt(parts[0], text, first) && forall k: nat | k < first :: !PartAt(parts[0], text, k)
    ensures Follows(parts, partial, text) == Follows(parts[1..], partial, text[first + |parts[0]|..])
  {
    hide Follows;
    PartFits(parts[0], text, first);
    if Follows(parts, partial, text) {
      var gap := FollowsAt(parts, partial, text);
      EarlierMatch(parts[0], parts[1..], partial, text, first, gap);
    }
    if Follows(parts[1..], partial, text[first + |parts[0]|..]) {
      FirstFollows(parts, partial, text, first);
    }
  }

  lemma PartFits(part: string, text: string, at: nat)
    requires PartAt(part, text, at)
    ensures at + |part| <= |text|
  {
  }

  lemma FollowsAt(parts: seq<string>, partial: bool, text: string) returns (gap: nat)
    requires parts != [] && Follows(parts, partial, text)
    ensures PartAt(parts[0], text, gap) && Follows(parts[1..], partial, text[gap + |parts[0]|..])
  {
    gap :| PartAt(parts[0], text, gap) && Follows(parts[1..], partial, text[gap + |parts[0]|..]);
  }

  lemma EarlierMatch(part: string, rest: seq<string>, partial: bool, text: string, first: nat, gap: nat)
    requires (rest != [] || partial) && PartAt(part, text, first) && PartAt(part, text, gap)
    requires (forall k: nat | k < first :: !PartAt(part, text, k)) && Follows(rest, partial, text[gap + |part|..])
    ensures Follows(rest, partial, text[first + |part|..])
  {
    assert first <= gap;
    hide Follows;
    assert text[first + |part|..][gap - first..] == text[gap + |part|..];
    Widen(rest, partial, text[first + |part|..], gap - first);
  }

  lemma FirstFollows(parts: seq<string>, partial: bool, text: string, first: nat)
    requires parts != [] && PartAt(parts[0], text, first)
    requires Follows(parts[1..], partial, text[first + |parts[0]|..])
    ensures Follows(parts, partial, text)
  {
    hide PartAt;
  }

  /** strstr. */
  method Find(text: string, part: string, from: nat) returns (found: bool, at: nat)
    requires from <= |text|
    ensures found ==> PartAt(part, text[from..], at) && forall k: nat | k < at :: !PartAt(part, text[from..], k)
    ensures !found ==> forall k: nat :: !PartAt(part, text[from..], k)
  {
    at := 0;
    while from + at + |part| <= |text|
      invariant forall k: nat | k < at :: !PartAt(part, text[from..], k)
    {
      assert text[from..][at..at + |part|] == text[from + at..from + at + |part|];
      if text[from + at..from + at + |part|] == part { return true, at; }
      at := at + 1;
    }
    found := false;
  }

  lemma AtEnd(part: string, text: string)
    requires |part| <= |text| && text[|text| - |part|..] == part
    ensures Follows([part], false, text)
  {
    assert PartAt(part, text, |text| - |part|);
    assert [part][1..] == [] && text[|text|..] == "";
  }

  lemma MustEnd(part: string, text: string)
    requires Follows([part], false, text)
    ensures |part| <= |text| && text[|text| - |part|..] == part
  {
    assert [part][1..] == [];
    var gap: nat :| PartAt([part][0], text, gap) && Follows([], false, text[gap + |part|..]);
    assert gap + |part| == |text|;
  }

  /** The greedy matcher is sound and complete. */
  method ChildTextCovers(parts: seq<string>, partial: bool, text: string) returns (covers: bool)
    ensures covers == Covers(parts, partial, text)
  {
    if parts == [] { return partial || text == ""; }
    if !PartAt(parts[0], text, 0) { return false; }
    var cursor: nat := |parts[0]|;
    for i := 1 to |parts|
      invariant cursor <= |text|
      invariant Covers(parts, partial, text) == Follows(parts[i..], partial, text[cursor..])
    {
      var part, rest := parts[i], text[cursor..];
      assert parts[i..][0] == part && parts[i..][1..] == parts[i + 1..];
      if i + 1 == |parts| && !partial {
        assert parts[i..] == [part];
        assert |part| <= |rest| ==> rest[|rest| - |part|..] == text[|text| - |part|..];
        if |text| - cursor < |part| || text[|text| - |part|..] != part {
          if Follows([part], false, rest) { MustEnd(part, rest); }
          return false;
        }
        AtEnd(part, rest);
        cursor := |text|;
      } else {
        var found, at := Find(text, part, cursor);
        if !found { return false; }
        FirstMatchSuffices(parts[i..], partial, rest, at);
        assert rest[at + |part|..] == text[cursor + at + |part|..];
        cursor := cursor + at + |part|;
      }
    }
    assert parts[|parts|..] == [];
    return partial || cursor == |text|;
  }
}
