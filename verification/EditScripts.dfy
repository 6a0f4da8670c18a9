/** Edit scripts between two row lists, and the longest common subsequence that bounds their cost. */
module EditScripts {
  datatype Op<T> = Keep(row: T) | Remove(row: T) | Add(row: T)

  function Source<T>(script: seq<Op<T>>): seq<T> {
    if script == [] then []
    else (if script[0].Add? then [] else [script[0].row]) + Source(script[1..])
  }

  function Target<T>(script: seq<Op<T>>): seq<T> {
    if script == [] then []
    else (if script[0].Remove? then [] else [script[0].row]) + Target(script[1..])
  }

  /** The number of `-` and `+` lines. */
  function Cost<T>(script: seq<Op<T>>): nat {
    if script == [] then 0 else (if script[0].Keep? then 0 else 1) + Cost(script[1..])
  }

  function Max(x: nat, y: nat): nat {
    if x >= y then x else y
  }

  /** The length of a longest common subsequence, by the recurrence the table is filled with. */
  function Lcs<T(==)>(a: seq<T>, b: seq<T>): (length: nat)
    ensures length <= |a| && length <= |b|
    decreases |a| + |b|
  {
    if a == [] || b == [] then 0
    else if a[0] == b[0] then 1 + Lcs(a[1..], b[1..])
    else Max(Lcs(a[1..], b), Lcs(a, b[1..]))
  }

  lemma {:induction false} LcsStep<T>(a: seq<T>, b: seq<T>)
    ensures a != [] ==> Lcs(a[1..], b) <= Lcs(a, b) <= 1 + Lcs(a[1..], b)
    ensures b != [] ==> Lcs(a, b[1..]) <= Lcs(a, b) <= 1 + Lcs(a, b[1..])
    decreases |a| + |b|
  {
    if a != [] && b != [] {
      LcsStep(a[1..], b);
      LcsStep(a, b[1..]);
      LcsStep(a[1..], b[1..]);
    }
  }

  /** No script from `a` to `b` is cheaper than removing and adding everything outside a longest common
      subsequence. */
  lemma {:induction false} LcsBoundsCost<T>(script: seq<Op<T>>, a: seq<T>, b: seq<T>)
    requires Source(script) == a && Target(script) == b
    ensures Cost(script) >= |a| + |b| - 2 * Lcs(a, b)
    decreases |script|
  {
    if script != [] {
      LcsStep(a, b);
      match script[0]
      case Keep(row) =>
        assert a[1..] == Source(script[1..]) && b[1..] == Target(script[1..]);
        LcsBoundsCost(script[1..], a[1..], b[1..]);
      case Remove(row) =>
        assert a[1..] == Source(script[1..]);
        LcsBoundsCost(script[1..], a[1..], b);
      case Add(row) =>
        assert b[1..] == Target(script[1..]);
        LcsBoundsCost(script[1..], a, b[1..]);
    }
  }

  /** A script that reaches the bound. */
  function Optimal<T(==)>(a: seq<T>, b: seq<T>): (script: seq<Op<T>>)
    ensures Source(script) == a && Target(script) == b
    ensures Cost(script) == |a| + |b| - 2 * Lcs(a, b)
    decreases |a| + |b|
  {
    if a == [] && b == [] then []
    else if a != [] && b != [] && a[0] == b[0] then [Keep(a[0])] + Optimal(a[1..], b[1..])
    else if a != [] && (b == [] || Lcs(a[1..], b) >= Lcs(a, b[1..])) then [Remove(a[0])] + Optimal(a[1..], b)
    else [Add(b[0])] + Optimal(a, b[1..])
  }

  lemma {:induction false} LcsPrefix<T>(common: seq<T>, a: seq<T>, b: seq<T>)
    ensures Lcs(common + a, common + b) == |common| + Lcs(a, b)
  {
    if common == [] {
      assert common + a == a && common + b == b;
    } else {
      LcsPrefix(common[1..], a, b);
      assert (common + a)[1..] == common[1..] + a && (common + b)[1..] == common[1..] + b;
    }
  }

  lemma {:induction false} LcsLast<T>(a: seq<T>, b: seq<T>, last: T)
    ensures Lcs(a + [last], b + [last]) == Lcs(a, b) + 1
    decreases |a| + |b|
  {
    assert a != [] ==> (a + [last])[1..] == a[1..] + [last] && (a + [last])[0] == a[0];
    assert b != [] ==> (b + [last])[1..] == b[1..] + [last] && (b + [last])[0] == b[0];
    if a == [] || b == [] {
      if a != [] && a[0] != last {
        LcsLast(a[1..], b, last);
      } else if b != [] && b[0] != last {
        LcsLast(a, b[1..], last);
      }
    } else if a[0] == b[0] {
      LcsLast(a[1..], b[1..], last);
    } else {
      LcsLast(a[1..], b, last);
      LcsLast(a, b[1..], last);
    }
  }

  lemma {:induction false} LcsSuffix<T>(a: seq<T>, b: seq<T>, common: seq<T>)
    ensures Lcs(a + common, b + common) == Lcs(a, b) + |common|
    decreases |common|
  {
    if common == [] {
      assert a + common == a && b + common == b;
    } else {
      LcsSuffix(a + [common[0]], b + [common[0]], common[1..]);
      LcsLast(a, b, common[0]);
      assert a + common == a + [common[0]] + common[1..];
      assert b + common == b + [common[0]] + common[1..];
    }
  }
}
