/** native/scu_host.c: the ring of elements that element IDs point into, refined to a plain log of insertions. */
module ElementRing {
  import opened Text

  const CAPACITY: nat := 20000

  /** What AT-SPI gives for an element: its endpoint and a reference, with the window it was seen in. */
  datatype Seen = Seen(key: string, node: nat, window: nat, pid: nat)

  datatype Element = Free | Held(seen: Seen)

  /** One insertion with the latest observation of its object; `gone` once the object was found defunct. */
  datatype Entry = Entry(seen: Seen, gone: bool)

  // ---- The log ----

  predicate Current(log: seq<Entry>, k: int) {
    0 <= k < |log| && |log| - k <= CAPACITY && !log[k].gone
  }

  /** The newest current entry for a key at or before `n`. */
  function Position(log: seq<Entry>, key: string, n: nat): (found: Option<nat>)
    requires n <= |log|
    ensures found.Some? ==> found.value < n && Current(log, found.value) && log[found.value].seen.key == key
    ensures found.None? ==> forall k :: 0 <= k < n && Current(log, k) ==> log[k].seen.key != key
  {
    if n == 0 then None
    else if Current(log, n - 1) && log[n - 1].seen.key == key then Some(n - 1)
    else Position(log, key, n - 1)
  }

  /** The log after an observation; `defunct` is what AT-SPI says of the object that is held for the key. */
  function Observed(log: seq<Entry>, seen: Seen, defunct: bool): seq<Entry> {
    match Position(log, seen.key, |log|)
    case Some(k) =>
      if defunct then log[k := log[k].(gone := true)] + [Entry(seen, false)] else log[k := Entry(seen, false)]
    case None => log + [Entry(seen, false)]
  }

  function ObservedAt(log: seq<Entry>, seen: Seen, defunct: bool): nat {
    match Position(log, seen.key, |log|)
    case Some(k) => if defunct then |log| else k
    case None => |log|
  }

  /** The newest insertion that took a slot. */
  function Latest(n: nat, slot: nat): int {
    n - 1 - (n - 1 - slot) % CAPACITY
  }

  function Content(entry: Entry): Element {
    if entry.gone then Free else Held(entry.seen)
  }

  function SlotOf(log: seq<Entry>, slot: nat): Element {
    var k := Latest(|log|, slot);
    if 0 <= k < |log| then Content(log[k]) else Free
  }

  ghost predicate UniqueKeys(log: seq<Entry>) {
    forall i, j :: 0 <= i < j < |log| && Current(log, i) && Current(log, j) ==> log[i].seen.key != log[j].seen.key
  }

  lemma LatestIs(n: nat, slot: nat)
    requires slot < CAPACITY
    ensures Latest(n, slot) < n && n - Latest(n, slot) <= CAPACITY
    ensures Latest(n, slot) >= 0 ==> Latest(n, slot) % CAPACITY == slot
    ensures Latest(n, slot) < 0 <==> n <= slot
  {
  }

  lemma LatestOf(n: nat, k: nat)
    requires k < n && n - k <= CAPACITY
    ensures Latest(n, k % CAPACITY) == k
  {
  }

  /** A slot's entry stays the latest until the slot's turn comes again. */
  lemma LatestNext(n: nat, slot: nat)
    requires slot < CAPACITY
    ensures Latest(n + 1, slot) == if slot == n % CAPACITY then n else Latest(n, slot)
  {
  }

  lemma NextSlot(n: nat)
    ensures (n % CAPACITY + 1) % CAPACITY == (n + 1) % CAPACITY
  {
  }

  lemma GoneUnique(log: seq<Entry>, k: nat)
    requires UniqueKeys(log) && k < |log|
    ensures UniqueKeys(log[k := log[k].(gone := true)])
  {
  }

  lemma SlotSnoc(log: seq<Entry>, entry: Entry, slot: nat)
    requires slot < CAPACITY
    ensures SlotOf(log + [entry], slot) == if slot == |log| % CAPACITY then Content(entry) else SlotOf(log, slot)
  {
    LatestNext(|log|, slot);
    LatestIs(|log|, slot);
    hide Latest, Content;
  }

  lemma SlotUpdate(log: seq<Entry>, k: nat, entry: Entry, slot: nat)
    requires slot < CAPACITY && Current(log, k)
    ensures SlotOf(log[k := entry], slot) == if slot == k % CAPACITY then Content(entry) else SlotOf(log, slot)
  {
    LatestOf(|log|, k);
    LatestIs(|log|, slot);
    hide Content;
  }

  lemma ObservedUnique(log: seq<Entry>, seen: Seen, defunct: bool)
    requires UniqueKeys(log)
    ensures UniqueKeys(Observed(log, seen, defunct))
  {
    var later := Observed(log, seen, defunct);
    forall i, j | 0 <= i < j < |later| && Current(later, i) && Current(later, j)
      ensures later[i].seen.key != later[j].seen.key
    {
      assert Current(log, i);
      if j < |log| {
        assert Current(log, j);
      }
    }
  }

  lemma SnocUnique(log: seq<Entry>, seen: Seen)
    requires UniqueKeys(log) && Position(log, seen.key, |log|).None?
    ensures UniqueKeys(log + [Entry(seen, false)])
  {
    var later := log + [Entry(seen, false)];
    forall i, j | 0 <= i < j < |later| && Current(later, i) && Current(later, j)
      ensures later[i].seen.key != later[j].seen.key
    {
      assert Current(log, i);
      if j < |log| {
        assert Current(log, j);
      }
    }
  }

  lemma UpdateUnique(log: seq<Entry>, k: nat, seen: Seen)
    requires UniqueKeys(log) && Current(log, k) && log[k].seen.key == seen.key
    ensures UniqueKeys(log[k := Entry(seen, false)])
  {
    var later := log[k := Entry(seen, false)];
    forall i, j | 0 <= i < j < |later| && Current(later, i) && Current(later, j)
      ensures later[i].seen.key != later[j].seen.key
    {
      assert Current(log, i) && Current(log, j);
    }
  }

  // ---- Runs ----

  datatype Observation = Observation(seen: Seen, defunct: bool)

  function Run(log: seq<Entry>, observations: seq<Observation>): seq<Entry> {
    if observations == [] then log
    else
      var last := observations[|observations| - 1];
      Observed(Run(log, observations[..|observations| - 1]), last.seen, last.defunct)
  }

  /** What lookup_element finds under an ID. */
  function Lookup(log: seq<Entry>, id: nat): Option<Seen> {
    if id < CAPACITY && SlotOf(log, id).Held? then Some(SlotOf(log, id).seen) else None
  }

  /** The observation that marks entry `k` as gone. */
  predicate Removes(log: seq<Entry>, observation: Observation, k: nat) {
    observation.defunct && Position(log, observation.seen.key, |log|) == Some(k)
  }

  ghost predicate Removed(log: seq<Entry>, observations: seq<Observation>, k: nat) {
    exists n :: 0 <= n < |observations| && Removes(Run(log, observations[..n]), observations[n], k)
  }

  lemma RemovedSnoc(log: seq<Entry>, observations: seq<Observation>, k: nat)
    requires observations != []
    ensures var n := |observations| - 1;
      Removed(log, observations, k) <==>
        Removed(log, observations[..n], k) || Removes(Run(log, observations[..n]), observations[n], k)
  {
    hide Run, Removes;
    var n := |observations| - 1;
    var before := observations[..n];
    forall m | 0 <= m < n ensures before[..m] == observations[..m] && before[m] == observations[m] {
    }
    if Removed(log, before, k) {
      var m :| 0 <= m < |before| && Removes(Run(log, before[..m]), before[m], k);
      assert Removes(Run(log, observations[..m]), observations[m], k);
    }
    if Removed(log, observations, k) {
      var m :| 0 <= m < |observations| && Removes(Run(log, observations[..m]), observations[m], k);
      if m < n {
        assert Removes(Run(log, before[..m]), before[m], k);
      }
    }
  }

  lemma ObservedKeeps(log: seq<Entry>, observation: Observation, k: nat)
    requires k < |log|
    ensures var later := Observed(log, observation.seen, observation.defunct);
      && |log| <= |later| <= |log| + 1 && later[k].seen.key == log[k].seen.key
      && (later[k].gone <==> log[k].gone || Removes(log, observation, k))
  {
  }

  /** The log only grows; an entry keeps its key, and is gone from then on when an observation removes it. */
  lemma {:induction false} RunKeeps(log: seq<Entry>, observations: seq<Observation>, k: nat)
    requires k < |log|
    ensures var later := Run(log, observations);
      && |log| <= |later| <= |log| + |observations| && later[k].seen.key == log[k].seen.key
      && (later[k].gone <==> log[k].gone || Removed(log, observations, k))
  {
    if observations != [] {
      var n := |observations| - 1;
      RunKeeps(log, observations[..n], k);
      RemovedSnoc(log, observations, k);
      ObservedKeeps(Run(log, observations[..n]), observations[n], k);
      hide Removed, Removes, Observed, Current;
    }
  }

  /** No run holds two entries for one object. */
  lemma {:induction false} RunUnique(log: seq<Entry>, observations: seq<Observation>)
    requires UniqueKeys(log)
    ensures UniqueKeys(Run(log, observations))
  {
    if observations != [] {
      var n := |observations| - 1;
      RunUnique(log, observations[..n]);
      ObservedUnique(Run(log, observations[..n]), observations[n].seen, observations[n].defunct);
    }
  }

  /** An ID that was given out finds its object, as last observed, until 20000 later insertions or until the object is
      removed as defunct. */
  lemma LookupUntilReplaced(log: seq<Entry>, observations: seq<Observation>, k: nat)
    requires Current(log, k)
    ensures var later := Run(log, observations);
      && k < |later| && later[k].seen.key == log[k].seen.key
      && (|later| <= k + 20000 && !Removed(log, observations, k) ==> Lookup(later, k % 20000) == Some(later[k].seen))
      && (|later| <= k + 20000 && Removed(log, observations, k) ==> Lookup(later, k % 20000) == None)
      && (|later| > k + 20000 ==> Latest(|later|, k % 20000) > k)
  {
    RunKeeps(log, observations, k);
    var later := Run(log, observations);
    if |later| <= k + CAPACITY {
      LatestOf(|later|, k);
    } else {
      LatestIs(|later|, k % CAPACITY);
    }
  }

  /** A new object takes the slot of its insertion's number; one that is held and alive keeps its ID and its place. Nothing
      else changes hands. */
  lemma ObservationGivesId(log: seq<Entry>, seen: Seen, defunct: bool)
    requires UniqueKeys(log)
    ensures var later, k := Observed(log, seen, defunct), ObservedAt(log, seen, defunct);
      && k < |later| && later[k] == Entry(seen, false) && Current(later, k)
      && Lookup(later, k % 20000) == Some(seen)
      && |later| == |log| + (if k == |log| then 1 else 0)
      && (k < |log| <==> !defunct && exists j :: 0 <= j < |log| && Current(log, j) && log[j].seen.key == seen.key)
      && (k < |log| ==> Current(log, k) && log[k].seen.key == seen.key)
      && forall j :: 0 <= j < |log| && j != k ==> later[j].seen == log[j].seen
  {
    var later, k := Observed(log, seen, defunct), ObservedAt(log, seen, defunct);
    LatestOf(|later|, k);
    hide Latest;
  }

  // ---- The ring in place ----

  class ElementTable {
    const slots: array<Element>
    var byObject: map<string, nat>
    var next: nat
    ghost var log: seq<Entry>

    ghost predicate Valid()
      reads this, slots
    {
      && slots.Length == CAPACITY && next == |log| % CAPACITY && UniqueKeys(log)
      && (forall slot :: 0 <= slot < CAPACITY ==> slots[slot] == SlotOf(log, slot))
      && Inverse()
    }

    /** The hash table and the occupied slots name each other. */
    ghost predicate Inverse()
      reads this, slots
      requires slots.Length == CAPACITY
    {
      && (forall key <- byObject :: byObject[key] < CAPACITY && slots[byObject[key]].Held?
                                    && slots[byObject[key]].seen.key == key)
      && (forall slot :: 0 <= slot < CAPACITY && slots[slot].Held? ==>
            slots[slot].seen.key in byObject && byObject[slots[slot].seen.key] == slot)
    }

    constructor ()
      ensures Valid() && fresh(slots) && log == []
    {
      slots := new Element[CAPACITY](_ => Free);
      byObject, next, log := map[], 0, [];
      new;
      forall slot: nat | slot < CAPACITY ensures SlotOf(log, slot) == Free {
        LatestIs(0, slot);
      }
    }

    /** The slot that the hash table gives for a key holds its newest current entry. */
    lemma FoundPosition(key: string)
      requires Valid()
      ensures key in byObject <==> Position(log, key, |log|).Some?
      ensures key in byObject ==> byObject[key] == Position(log, key, |log|).value % CAPACITY
    {
      var position := Position(log, key, |log|);
      if position.Some? {
        LatestOf(|log|, position.value);
        assert slots[position.value % CAPACITY] == Held(log[position.value].seen);
      }
      if key in byObject {
        var slot := byObject[key];
        LatestIs(|log|, slot);
        assert Current(log, Latest(|log|, slot));
      }
    }

    /** A defunct object's slot is cleared, and `next` stays where it is. */
    method Clear(slot: nat, ghost k: nat)
      requires Valid() && Current(log, k) && slot == k % CAPACITY
      modifies this`byObject, this`log, slots
      ensures Valid() && log == old(log)[k := old(log)[k].(gone := true)]
      ensures byObject == old(byObject) - {old(log)[k].seen.key}
    {
      LatestOf(|log|, k);
      assert slots[slot] == SlotOf(log, slot) == Held(log[k].seen);
      GoneUnique(log, k);
      hide UniqueKeys;
      byObject := byObject - {slots[slot].seen.key};
      slots[slot] := Free;
      ghost var was, cleared := log, log[k].(gone := true);
      log := log[k := cleared];
      hide SlotOf;
      forall s: nat | s < CAPACITY ensures slots[s] == SlotOf(log, s) {
        SlotUpdate(was, k, cleared, s);
      }
    }

    /** A new object takes the next slot from whatever held it. */
    method Insert(seen: Seen)
      requires Valid() && seen.key !in byObject
      modifies this`byObject, this`next, this`log, slots
      ensures Valid() && log == old(log) + [Entry(seen, false)]
    {
      FoundPosition(seen.key);
      SnocUnique(log, seen);
      hide Position, UniqueKeys;
      Occupy(seen);
      NextSlot(|log|);
      next := (next + 1) % CAPACITY;
      ghost var was := log;
      log := log + [Entry(seen, false)];
      hide SlotOf;
      forall s: nat | s < CAPACITY ensures slots[s] == SlotOf(log, s) {
        SlotSnoc(was, Entry(seen, false), s);
      }
    }

    /** The slot at `next` changes hands, in the array and in the hash table. */
    method Occupy(seen: Seen)
      requires slots.Length == CAPACITY && next < CAPACITY && Inverse() && seen.key !in byObject
      modifies this`byObject, slots
      ensures slots[..] == old(slots[..])[next := Held(seen)] && Inverse()
    {
      if slots[next].Held? {
        byObject := byObject - {slots[next].seen.key};
      }
      slots[next] := Held(seen);
      byObject := byObject[seen.key := next];
    }

    /** A held object keeps its slot and takes the newest observation. */
    method Update(slot: nat, seen: Seen, ghost k: nat)
      requires Valid() && Current(log, k) && slot == k % CAPACITY && log[k].seen.key == seen.key
      modifies this`log, slots
      ensures Valid() && log == old(log)[k := Entry(seen, false)]
    {
      LatestOf(|log|, k);
      UpdateUnique(log, k, seen);
      assert slots[slot] == SlotOf(log, slot) == Held(log[k].seen);
      slots[slot] := Held(seen);
      log := log[k := Entry(seen, false)];
      forall s: nat | s < CAPACITY ensures slots[s] == SlotOf(log, s) {
        LatestIs(|log|, s);
      }
    }

    /** cache_element; `defunct` is asked of the object that is held. */
    method CacheElement(seen: Seen, defunct: bool) returns (id: nat)
      requires Valid()
      modifies this`byObject, this`next, this`log, slots
      ensures Valid() && log == Observed(old(log), seen, defunct)
      ensures id == ObservedAt(old(log), seen, defunct) % CAPACITY < CAPACITY
    {
      FoundPosition(seen.key);
      ghost var k := if seen.key in byObject then Position(log, seen.key, |log|).value else 0;
      var found := if seen.key in byObject then Some(byObject[seen.key]) else None;
      if found.Some? && defunct {
        Clear(found.value, k);
        found := None;
      }
      if found.None? {
        FoundPosition(seen.key);
        id := next;
        Insert(seen);
      } else {
        id := found.value;
        Update(id, seen, k);
      }
    }

    /** lookup_element, for an integer ID. */
    method LookupElement(id: int) returns (found: Option<Seen>)
      requires Valid()
      ensures found == if id < 0 then None else Lookup(log, id)
    {
      if id < 0 || id >= CAPACITY || slots[id].Free? {
        return None;
      }
      return Some(slots[id].seen);
    }
  }
}
