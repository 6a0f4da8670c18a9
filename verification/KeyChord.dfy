/** native/scu_host.c, keyboard_action: the physical keys of a chord. */
module KeyChord {
  /** What the keyboard map gives for a key's name: its code, and whether Shift is held for it. */
  datatype Stroke = Stroke(code: nat, shift: bool)

  const MAX_CODES := 8

  function Candidates(stroke: Stroke, shift: nat): seq<nat> {
    if stroke.shift then [shift, stroke.code] else [stroke.code]
  }

  function Chord(strokes: seq<Stroke>, shift: nat): seq<nat> {
    if strokes == [] then []
    else Distinct(Chord(strokes[..|strokes| - 1], shift), Candidates(strokes[|strokes| - 1], shift))
  }

  /** The codes followed by those of `more` that are new. */
  function Distinct(codes: seq<nat>, more: seq<nat>): seq<nat>
    decreases |more|
  {
    if more == [] then codes
    else Distinct(if more[0] in codes then codes else codes + [more[0]], more[1..])
  }

  lemma DistinctSnoc(codes: seq<nat>, more: seq<nat>, code: nat)
    ensures var before := Distinct(codes, more);
      Distinct(codes, more + [code]) == if code in before then before else before + [code]
    decreases |more|
  {
    if more == [] {
      assert [code][1..] == [];
    } else {
      assert (more + [code])[1..] == more[1..] + [code];
      DistinctSnoc(if more[0] in codes then codes else codes + [more[0]], more[1..], code);
    }
  }

  ghost predicate NoRepeats(codes: seq<nat>) {
    forall i, j :: 0 <= i < j < |codes| ==> codes[i] != codes[j]
  }

  /** A code is that of a key of the chord, or Shift if a key needs it. */
  ghost predicate Pressed(strokes: seq<Stroke>, shift: nat, code: nat) {
    exists k :: 0 <= k < |strokes| && (strokes[k].code == code || (strokes[k].shift && code == shift))
  }

  lemma PressedSnoc(strokes: seq<Stroke>, last: Stroke, shift: nat, code: nat)
    ensures Pressed(strokes + [last], shift, code)
            <==> Pressed(strokes, shift, code) || last.code == code || (last.shift && code == shift)
  {
    var all := strokes + [last];
    assert all[|strokes|] == last;
    assert forall k :: 0 <= k < |strokes| ==> all[k] == strokes[k];
  }

  lemma OneMore(codes: seq<nat>, last: Stroke, shift: nat)
    ensures var held := last.shift && shift !in codes;
      Distinct(codes, Candidates(last, shift))
      == codes + (if held then [shift] else []) + if last.code in codes || (held && last.code == shift) then []
                                                 else [last.code]
  {
    var more := Candidates(last, shift);
    DistinctSnoc(codes, [], more[0]);
    assert [] + [more[0]] == [more[0]];
    if last.shift {
      DistinctSnoc(codes, [more[0]], more[1]);
      assert [more[0]] + [more[1]] == more;
    }
  }

  lemma DistinctAdds(codes: seq<nat>, last: Stroke, shift: nat)
    requires NoRepeats(codes)
    ensures var all := Distinct(codes, Candidates(last, shift));
      && NoRepeats(all) && |all| <= |codes| + 1 + (if shift in all && shift !in codes then 1 else 0)
      && (forall c :: c in all <==> c in codes || c == last.code || (last.shift && c == shift))
  {
    hide Distinct, Candidates;
    OneMore(codes, last, shift);
  }

  /** Every key of the chord is pressed once, Shift counts once for all of them, and the order is kept. */
  lemma {:induction false} ChordHolds(strokes: seq<Stroke>, shift: nat)
    ensures var codes := Chord(strokes, shift);
      && NoRepeats(codes) && |codes| <= |strokes| + (if shift in codes then 1 else 0)
      && forall c :: c in codes <==> Pressed(strokes, shift, c)
  {
    if strokes != [] {
      var before, last := strokes[..|strokes| - 1], strokes[|strokes| - 1];
      ChordHolds(before, shift);
      DistinctAdds(Chord(before, shift), last, shift);
      assert strokes == before + [last];
      hide Distinct, NoRepeats, Pressed;
      forall c ensures c in Chord(strokes, shift) <==> Pressed(strokes, shift, c) {
        PressedSnoc(before, last, shift, c);
      }
    }
  }

  /** One more key adds Shift, if it needs that and no key before it did, and then its own code, unless that is pressed
      already. */
  lemma ChordGoesOn(strokes: seq<Stroke>, last: Stroke, shift: nat)
    ensures var held := last.shift && !Pressed(strokes, shift, shift);
      Chord(strokes + [last], shift)
      == Chord(strokes, shift) + (if held then [shift] else [])
         + if Pressed(strokes, shift, last.code) || (held && last.code == shift) then [] else [last.code]
  {
    var all, codes := strokes + [last], Chord(strokes, shift);
    assert all[..|all| - 1] == strokes;
    ChordHolds(strokes, shift);
    hide NoRepeats, Pressed;
    OneMore(codes, last, shift);
  }

  /** The keys named first are pressed first. */
  lemma {:induction false} ChordKeepsOrder(strokes: seq<Stroke>, shift: nat, n: nat)
    requires n <= |strokes|
    ensures Chord(strokes[..n], shift) <= Chord(strokes, shift)
  {
    if n == |strokes| {
      assert strokes[..n] == strokes;
    } else {
      var before := strokes[..|strokes| - 1];
      assert before[..n] == strokes[..n] && strokes == before + [strokes[|strokes| - 1]];
      ChordKeepsOrder(before, shift, n);
      ChordGoesOn(before, strokes[|strokes| - 1], shift);
      hide Chord, Pressed;
    }
  }

  /** So Shift is down before the first key that needs it, unless an earlier key pressed the same code without. */
  lemma ShiftComesFirst(strokes: seq<Stroke>, shift: nat, k: nat) returns (i: nat, j: nat)
    requires k < |strokes| && strokes[k].shift && strokes[k].code != shift
    requires !Pressed(strokes[..k], shift, strokes[k].code)
    ensures i < j < |Chord(strokes, shift)|
    ensures Chord(strokes, shift)[i] == shift && Chord(strokes, shift)[j] == strokes[k].code
  {
    var before, codes := strokes[..k], Chord(strokes[..k], shift);
    ChordHolds(before, shift);
    ChordGoesOn(before, strokes[k], shift);
    assert strokes[..k + 1] == before + [strokes[k]];
    ChordKeepsOrder(strokes, shift, k + 1);
    hide Chord, NoRepeats, Pressed;
    var next := Chord(strokes[..k + 1], shift);
    i := if shift in codes then IndexIn(codes, shift) else |codes|;
    j := |next| - 1;
    assert next <= Chord(strokes, shift);
  }

  ghost function IndexIn(codes: seq<nat>, code: nat): (i: nat)
    requires code in codes
    ensures i < |codes| && codes[i] == code
  {
    var i :| 0 <= i < |codes| && codes[i] == code; i
  }

  /** keyboard_action's codes: up to eight, checked before every write. */
  method CollectCodes(strokes: seq<Stroke>, shift: nat) returns (codes: array<nat>, count: nat, failed: bool)
    ensures fresh(codes) && count <= codes.Length == 8
    ensures failed <==> |Chord(strokes, shift)| > 8
    ensures !failed ==> codes[..count] == Chord(strokes, shift)
  {
    codes := new nat[MAX_CODES](_ => 0);
    count, failed := 0, false;
    var position := 0;
    while position < |strokes|
      invariant 0 <= position <= |strokes| && count <= MAX_CODES
      invariant codes[..count] == Chord(strokes[..position], shift)
    {
      assert strokes[..position + 1][..position] == strokes[..position];
      var candidates := Candidates(strokes[position], shift);
      ghost var before := Chord(strokes[..position], shift);
      count, failed := AddCandidates(codes, count, candidates);
      if failed {
        ChordGrows(strokes, shift, position);
        return;
      }
      position := position + 1;
    }
    assert strokes[..position] == strokes;
  }

  /** The codes that are not there yet are added as long as there is room. */
  method AddCandidates(codes: array<nat>, start: nat, candidates: seq<nat>) returns (count: nat, failed: bool)
    requires start <= codes.Length == MAX_CODES
    modifies codes
    ensures count <= MAX_CODES
    ensures failed <==> |Distinct(old(codes[..start]), candidates)| > MAX_CODES
    ensures !failed ==> codes[..count] == Distinct(old(codes[..start]), candidates)
  {
    hide Distinct;
    count, failed := start, false;
    ghost var first := codes[..start];
    DistinctGrows(first, [], []);
    var k := 0;
    while k < |candidates|
      invariant 0 <= k <= |candidates| && count <= MAX_CODES
      invariant codes[..count] == Distinct(first, candidates[..k])
    {
      DistinctSnoc(first, candidates[..k], candidates[k]);
      assert candidates[..k + 1] == candidates[..k] + [candidates[k]];
      if candidates[k] !in codes[..count] {
        if count >= MAX_CODES {
          DistinctGrows(first, candidates[..k + 1], candidates[k + 1..]);
          InTwo(candidates, k + 1);
          failed := true;
          return;
        }
        codes[count] := candidates[k];
        count := count + 1;
        assert codes[..count] == codes[..count - 1] + [candidates[k]];
      }
      k := k + 1;
    }
    assert candidates[..k] == candidates;
  }

  lemma InTwo(codes: seq<nat>, n: nat)
    requires n <= |codes|
    ensures codes[..n] + codes[n..] == codes
  {
  }

  lemma DistinctGrows(codes: seq<nat>, more: seq<nat>, rest: seq<nat>)
    ensures |codes| <= |Distinct(codes, more)| <= |Distinct(codes, more + rest)|
    ensures Distinct(codes, []) == codes
    decreases |more|, |rest|
  {
    if more != [] {
      assert (more + rest)[1..] == more[1..] + rest;
      DistinctGrows(if more[0] in codes then codes else codes + [more[0]], more[1..], rest);
    } else if rest != [] {
      assert more + rest == rest && [] + rest[1..] == rest[1..];
      DistinctGrows(if rest[0] in codes then codes else codes + [rest[0]], [], rest[1..]);
    } else {
      assert more + rest == [];
    }
  }

  lemma {:induction false} ChordGrows(strokes: seq<Stroke>, shift: nat, n: nat)
    requires n < |strokes|
    ensures |Distinct(Chord(strokes[..n], shift), Candidates(strokes[n], shift))| <= |Chord(strokes, shift)|
    decreases |strokes|
  {
    var before := strokes[..|strokes| - 1];
    if n < |strokes| - 1 {
      assert before[..n] == strokes[..n];
      ChordGrows(before, shift, n);
      var last := Candidates(strokes[|strokes| - 1], shift);
      DistinctGrows(Chord(before, shift), [], last);
      assert [] + last == last;
    }
  }
}
