/** native/spaces_portal.c: the portal's requests and sessions, found by the guest's and by the host's object path, and
    the translation of object paths between the two sides. */
module PortalTables {
  import opened Text

  type Path = string

  /** A request or session. A local request has no host path. */
  datatype Entry = Entry(owner: string, guest: Path, host: Option<Path>, cancelled: bool, persistent: bool)

  /** Two hash tables over the same objects; `objects` holds those that were not freed, by the order of creation. */
  datatype Table = Table(guest: map<Path, nat>, host: map<Path, nat>, objects: map<nat, Entry>, next: nat)

  datatype State = State(requests: Table, sessions: Table)

  const EMPTY := Table(map[], map[], map[], 0)

  // ---- One table ----

  /** register_request and register_session, once the object is exported. */
  function Insert(t: Table, entry: Entry): Table {
    Table(t.guest[entry.guest := t.next],
          if entry.host.Some? then t.host[entry.host.value := t.next] else t.host,
          t.objects[t.next := entry], t.next + 1)
  }

  /** The host's entry goes first, then the guest's with the object. */
  function Remove(t: Table, path: Path): Table
    requires path in t.guest && t.guest[path] in t.objects
  {
    var entry := t.objects[t.guest[path]];
    Table(t.guest - {path}, if entry.host.Some? then t.host - {entry.host.value} else t.host,
          t.objects - {t.guest[path]}, t.next)
  }

  /** A local request leaves the guest's table alone. */
  function RemoveLocal(t: Table, path: Path): Table
    requires path in t.guest
  {
    Table(t.guest - {path}, t.host, t.objects - {t.guest[path]}, t.next)
  }

  /** Nothing in either table points at a freed object, and the guest's table is one-to-one. */
  ghost predicate Kept(t: Table) {
    && (forall path <- t.guest :: t.guest[path] in t.objects && t.objects[t.guest[path]].guest == path)
    && (forall id <- t.objects :: id < t.next && t.objects[id].guest in t.guest && t.guest[t.objects[id].guest] == id)
    && (forall path <- t.host :: t.host[path] in t.objects && t.objects[t.host[path]].host == Some(path))
  }

  /** The host's table is one-to-one too. */
  ghost predicate OneToOne(t: Table) {
    forall id <- t.objects :: t.objects[id].host.Some? ==>
      t.objects[id].host.value in t.host && t.host[t.objects[id].host.value] == id
  }

  lemma InsertKept(t: Table, entry: Entry)
    requires Kept(t) && entry.guest !in t.guest
    ensures Kept(Insert(t, entry))
    ensures OneToOne(t) && (entry.host.Some? ==> entry.host.value !in t.host) ==> OneToOne(Insert(t, entry))
  {
  }

  lemma RemoveKept(t: Table, path: Path)
    requires Kept(t) && path in t.guest
    ensures Kept(Remove(t, path))
    ensures OneToOne(t) ==> OneToOne(Remove(t, path))
  {
  }

  lemma RemoveLocalKept(t: Table, path: Path)
    requires Kept(t) && path in t.guest && t.objects[t.guest[path]].host.None?
    ensures Kept(RemoveLocal(t, path))
    ensures OneToOne(t) ==> OneToOne(RemoveLocal(t, path))
  {
  }

  /** guest_name_changed: every entry of an owner that is gone leaves both tables. */
  function RemoveOwner(t: Table, owner: string): Table {
    RemovePaths(t, PathsOf(t, owner))
  }

  function PathsOf(t: Table, owner: string): set<Path> {
    set path | path in t.guest && t.guest[path] in t.objects && t.objects[t.guest[path]].owner == owner
  }

  function RemovePaths(t: Table, gone: set<Path>): Table {
    var ids := IdsOf(t, gone);
    Table(t.guest - gone, t.host - HostsOf(t, ids), t.objects - ids, t.next)
  }

  function IdsOf(t: Table, paths: set<Path>): set<nat> {
    set path | path in paths && path in t.guest :: t.guest[path]
  }

  function HostsOf(t: Table, ids: set<nat>): set<Path> {
    set id | id in ids && id in t.objects && t.objects[id].host.Some? :: t.objects[id].host.value
  }

  /** What is left is exactly what belongs to other owners. */
  lemma OwnerLeavesExactly(t: Table, owner: string)
    requires Kept(t)
    ensures var later := RemoveOwner(t, owner);
      && Kept(later) && later.next == t.next
      && (forall id :: id in later.objects <==> id in t.objects && t.objects[id].owner != owner)
      && (forall id <- later.objects :: later.objects[id] == t.objects[id])
      && (forall path :: path in later.guest <==> path in t.guest && t.objects[t.guest[path]].owner != owner)
      && (forall path <- later.guest :: later.guest[path] == t.guest[path])
      && (forall path <- later.host :: path in t.host && later.host[path] == t.host[path]
                                       && t.objects[t.host[path]].owner != owner)
      && (OneToOne(t) ==> OneToOne(later)
                          && forall path <- t.host :: t.objects[t.host[path]].owner != owner ==> path in later.host)
  {
    var later := RemoveOwner(t, owner);
    forall id ensures id in later.objects <==> id in t.objects && t.objects[id].owner != owner {
      assert id in t.objects ==> t.objects[id].guest in t.guest;
    }
    forall path | path in later.host
      ensures path in t.host && later.host[path] == t.host[path] && t.objects[t.host[path]].owner != owner
    {
      assert t.objects[t.host[path]].guest in t.guest;
    }
  }

  // ---- Runs ----

  /** Registrations (`exported` tells whether the bus took the object), Close from the guest, the host's Response and
      Closed signals, a USB request that is finished, a local request that is done, and a caller that is gone. */
  datatype Input =
    | RegisterRequest(entry: Entry, exported: bool)
    | RegisterSession(owner: string, guest: Path, host: Option<Path>, exported: bool)
    | Cancel(sender: string, guest: Path)
    | Response(path: Path)
    | Closed(path: Path)
    | Finished(guest: Path)
    | LocalDone(guest: Path)
    | OwnerGone(owner: string)

  ghost predicate Sound(s: State) {
    Kept(s.requests) && Kept(s.sessions)
  }

  function Step(s: State, input: Input): State
    requires Sound(s)
  {
    match input
    case RegisterRequest(entry, exported) =>
      if exported && entry.guest !in s.requests.guest then s.(requests := Insert(s.requests, entry)) else s
    case RegisterSession(owner, guest, host, exported) =>
      if host.Some? && exported && guest !in s.sessions.guest then
        s.(sessions := Insert(s.sessions, Entry(owner, guest, host, false, false)))
      else s
    case Cancel(sender, guest) =>
      if guest in s.requests.guest && s.requests.objects[s.requests.guest[guest]].owner == sender then
        var id := s.requests.guest[guest];
        s.(requests := s.requests.(objects := s.requests.objects[id := s.requests.objects[id].(cancelled := true)]))
      else s
    case Response(host) =>
      if host in s.requests.host then
        var entry := s.requests.objects[s.requests.host[host]];
        if entry.cancelled || !entry.persistent then s.(requests := Remove(s.requests, entry.guest)) else s
      else s
    case Closed(host) =>
      if host in s.sessions.host then
        s.(sessions := Remove(s.sessions, s.sessions.objects[s.sessions.host[host]].guest))
      else s
    case Finished(guest) =>
      if guest in s.requests.guest && s.requests.objects[s.requests.guest[guest]].host.Some? then
        s.(requests := Remove(s.requests, guest))
      else s
    case LocalDone(guest) =>
      if guest in s.requests.guest && s.requests.objects[s.requests.guest[guest]].host.None? then
        s.(requests := RemoveLocal(s.requests, guest))
      else s
    case OwnerGone(owner) => State(RemoveOwner(s.requests, owner), RemoveOwner(s.sessions, owner))
  }

  /** The host never hands out a path that is still in a table. */
  predicate Fresh(s: State, input: Input) {
    match input
    case RegisterRequest(entry, _) =>
      entry.host.Some? ==> entry.host.value !in s.requests.host && entry.host.value !in s.sessions.host
    case RegisterSession(_, _, host, _) => host.Some? ==> host.value !in s.requests.host && host.value !in s.sessions.host
    case _ => true
  }

  ghost predicate Exact(s: State) {
    && Sound(s) && OneToOne(s.requests) && OneToOne(s.sessions)
    && forall path <- s.requests.host :: path !in s.sessions.host
  }

  lemma CancelKept(t: Table, id: nat)
    requires Kept(t) && id in t.objects
    ensures var later := t.(objects := t.objects[id := t.objects[id].(cancelled := true)]);
      Kept(later) && (OneToOne(t) ==> OneToOne(later))
  {
  }

  lemma StepSound(s: State, input: Input)
    requires Sound(s)
    ensures Sound(Step(s, input))
    ensures Exact(s) && Fresh(s, input) ==> Exact(Step(s, input))
  {
    match input
    case RegisterRequest(entry, exported) =>
      if entry.guest !in s.requests.guest {
        InsertKept(s.requests, entry);
      }
      hide Kept, OneToOne;
    case RegisterSession(owner, guest, host, exported) =>
      if guest !in s.sessions.guest {
        InsertKept(s.sessions, Entry(owner, guest, host, false, false));
      }
      hide Kept, OneToOne;
    case Cancel(sender, guest) =>
      if guest in s.requests.guest {
        CancelKept(s.requests, s.requests.guest[guest]);
      }
      hide OneToOne;
    case Response(host) =>
      if host in s.requests.host {
        RemoveKept(s.requests, s.requests.objects[s.requests.host[host]].guest);
      }
      hide OneToOne;
    case Closed(host) =>
      if host in s.sessions.host {
        RemoveKept(s.sessions, s.sessions.objects[s.sessions.host[host]].guest);
      }
      hide OneToOne;
    case Finished(guest) =>
      if guest in s.requests.guest {
        RemoveKept(s.requests, guest);
      }
      hide OneToOne;
    case LocalDone(guest) =>
      if guest in s.requests.guest && s.requests.objects[s.requests.guest[guest]].host.None? {
        RemoveLocalKept(s.requests, guest);
      }
      hide OneToOne;
    case OwnerGone(owner) =>
      OwnerLeavesExactly(s.requests, owner);
      OwnerLeavesExactly(s.sessions, owner);
      hide Kept, OneToOne, RemoveOwner;
  }

  ghost function Run(inputs: seq<Input>): (s: State)
    ensures Sound(s)
  {
    if inputs == [] then State(EMPTY, EMPTY)
    else
      var before := Run(inputs[..|inputs| - 1]);
      StepSound(before, inputs[|inputs| - 1]);
      Step(before, inputs[|inputs| - 1])
  }

  // ---- Local requests ----

  /** A request without a host path, which some local call answers. */
  predicate Local(s: State, id: nat) {
    id in s.requests.objects && s.requests.objects[id].host.None?
  }

  /** Its own answer ends a local request, and the end of its owner. */
  predicate Ends(input: Input, guest: Path, owner: string) {
    input == LocalDone(guest) || input == OwnerGone(owner)
  }

  predicate NoneEnds(inputs: seq<Input>, guest: Path, owner: string) {
    inputs != [] ==> NoneEnds(inputs[..|inputs| - 1], guest, owner) && !Ends(inputs[|inputs| - 1], guest, owner)
  }

  /** The local request stands under its path for its owner. */
  predicate Stands(s: State, id: nat, guest: Path, owner: string) {
    Local(s, id) && s.requests.objects[id].guest == guest && s.requests.objects[id].owner == owner
  }

  /** It was there and is not any more. */
  predicate Gone(s: State, id: nat) {
    id < s.requests.next && id !in s.requests.objects
  }

  lemma LocalStays(s: State, input: Input, id: nat, guest: Path, owner: string)
    requires Sound(s)
    ensures Stands(s, id, guest, owner) ==>
      if Ends(input, guest, owner) then Gone(Step(s, input), id) else Stands(Step(s, input), id, guest, owner)
    ensures Gone(s, id) ==> Gone(Step(s, input), id)
  {
    hide RemoveOwner, OneToOne;
    if input.OwnerGone? {
      OwnerLeavesExactly(s.requests, input.owner);
    }
  }

  /** A local request is there, under the same paths and for the same owner, exactly until its own answer or until its
      owner is gone; a call that waits for the answer finds it if neither happened meanwhile. */
  lemma {:induction false} LocalRequestStays(inputs: seq<Input>, more: seq<Input>, id: nat)
    requires Local(Run(inputs), id)
    ensures var entry := Run(inputs).requests.objects[id];
      if NoneEnds(more, entry.guest, entry.owner) then Stands(Run(inputs + more), id, entry.guest, entry.owner)
      else Gone(Run(inputs + more), id)
  {
    hide Step, Ends;
    if more == [] {
      assert inputs + more == inputs;
    } else {
      var entry, before, last := Run(inputs).requests.objects[id], more[..|more| - 1], more[|more| - 1];
      LocalRequestStays(inputs, before, id);
      LocalStays(Run(inputs + before), last, id, entry.guest, entry.owner);
      RunSnoc(inputs + before, last);
      assert inputs + more == inputs + before + [last];
    }
  }

  lemma RunSnoc(inputs: seq<Input>, input: Input)
    ensures Run(inputs + [input]) == Step(Run(inputs), input)
  {
    hide Step;
    assert (inputs + [input])[..|inputs|] == inputs;
  }

  // ---- The pairing ----

  /** A registration that leaves the tables alone: the bus or a path that is already there refused it. */
  predicate Refused(s: State, input: Input) {
    match input
    case RegisterRequest(entry, exported) => !exported || entry.guest in s.requests.guest
    case RegisterSession(_, guest, host, exported) => host.None? || !exported || guest in s.sessions.guest
    case _ => false
  }

  /** A step keeps the pairing exactly when it is no registration, or one that is refused, or one under a host path that
      is in neither table. */
  lemma StaysExact(s: State, input: Input)
    requires Exact(s)
    ensures Exact(Step(s, input)) <==> Refused(s, input) || Fresh(s, input)
  {
    StepSound(s, input);
    if !Refused(s, input) && !Fresh(s, input) {
      var next := Step(s, input);
      match input
      case RegisterRequest(entry, _) => TakenTwice(s.requests, s.sessions, entry);
      case RegisterSession(owner, guest, host, _) =>
        TakenTwice(s.sessions, s.requests, Entry(owner, guest, host, false, false));
    }
    hide Kept;
  }

  /** Under a host path that is taken a new entry hides the one before it, or stands in both tables. */
  lemma TakenTwice(t: Table, other: Table, entry: Entry)
    requires Kept(t) && OneToOne(t) && entry.host.Some? && entry.guest !in t.guest
    requires entry.host.value in t.host || entry.host.value in other.host
    ensures var next := Insert(t, entry);
      !OneToOne(next) || (entry.host.value in next.host && entry.host.value in other.host)
  {
    var host, next := entry.host.value, Insert(t, entry);
    if host in t.host {
      var id := t.host[host];
      assert id in next.objects && next.objects[id].host == Some(host) && next.host[host] == t.next;
    }
  }

  /** The tables are paired after every step of a run. */
  ghost predicate ExactThroughout(inputs: seq<Input>) {
    Exact(Run(inputs)) && (inputs != [] ==> ExactThroughout(inputs[..|inputs| - 1]))
  }

  /** Every registration of a run was refused or found its host path in neither table. */
  ghost predicate NoneTaken(inputs: seq<Input>) {
    inputs != [] ==>
      var before, input := inputs[..|inputs| - 1], inputs[|inputs| - 1];
      NoneTaken(before) && (Refused(Run(before), input) || Fresh(Run(before), input))
  }

  /** Throughout a run each table pairs guest and host paths one-to-one, and no path is the host's for both a request and a
      session, exactly when every registration of the run was refused or found its host path in neither table. */
  lemma {:induction false} RunIsExact(inputs: seq<Input>)
    ensures ExactThroughout(inputs) <==> NoneTaken(inputs)
  {
    if inputs != [] {
      var before, input := inputs[..|inputs| - 1], inputs[|inputs| - 1];
      RunIsExact(before);
      if Exact(Run(before)) {
        StaysExact(Run(before), input);
      }
    }
    hide Exact, Refused, Fresh, Step;
  }

  /** Such a run: of two requests under one host path only the later one is found. */
  lemma RepeatedHostPath()
    ensures var one, other := Entry("a", "g1", Some("h"), false, false), Entry("b", "g2", Some("h"), false, false);
      var s := Run([RegisterRequest(one, true), RegisterRequest(other, true)]);
      !Exact(s) && ToHost(s, "g1") == "h" && ToGuest(s, "h") == "g2"
  {
    var one, other := Entry("a", "g1", Some("h"), false, false), Entry("b", "g2", Some("h"), false, false);
    var inputs := [RegisterRequest(one, true), RegisterRequest(other, true)];
    assert inputs[..1] == [inputs[0]] && inputs[..1][..0] == [] && Run([]) == State(EMPTY, EMPTY);
    assert Run(inputs[..1]) == Step(Run([]), inputs[0]);
    assert Run(inputs) == Step(Run(inputs[..1]), inputs[1]);
    assert "g1" != "g2";
    assert Run(inputs).requests.objects[0] == one && Run(inputs).requests.host["h"] == 1;
  }

  // ---- How long requests and sessions stay ----

  /** The accepted registrations, each with what it enters. */
  predicate Registers(s: State, input: Input, entry: Entry) {
    match input
    case RegisterRequest(given, exported) => exported && given == entry && entry.guest !in s.requests.guest
    case _ => false
  }

  predicate RegistersSession(s: State, input: Input, entry: Entry) {
    match input
    case RegisterSession(owner, guest, host, exported) =>
      exported && host.Some? && entry == Entry(owner, guest, host, false, false) && guest !in s.sessions.guest
    case _ => false
  }

  /** The entry stands in the table, where both its paths lead to it. */
  predicate Paired(t: Table, id: nat, entry: Entry) {
    && id in t.objects && t.objects[id] == entry && entry.guest in t.guest && t.guest[entry.guest] == id
    && (entry.host.Some? ==> entry.host.value in t.host && t.host[entry.host.value] == id)
  }

  /** It was there and is not any more. */
  predicate Left(t: Table, id: nat) {
    id < t.next && id !in t.objects
  }

  /** An accepted registration is entered under the next number, and nothing else enters a table. */
  lemma RegistrationsEnter(s: State, input: Input, entry: Entry)
    requires Sound(s)
    ensures var next := Step(s, input);
      && (s.requests.next in next.requests.objects && next.requests.objects[s.requests.next] == entry
          <==> Registers(s, input, entry))
      && (Registers(s, input, entry) ==> Paired(next.requests, s.requests.next, entry))
      && (forall id <- next.requests.objects :: id in s.requests.objects || id == s.requests.next)
      && (s.sessions.next in next.sessions.objects && next.sessions.objects[s.sessions.next] == entry
          <==> RegistersSession(s, input, entry))
      && (RegistersSession(s, input, entry) ==> Paired(next.sessions, s.sessions.next, entry))
      && (forall id <- next.sessions.objects :: id in s.sessions.objects || id == s.sessions.next)
  {
    hide RemoveOwner, OneToOne;
    if input.OwnerGone? {
      OwnerLeavesExactly(s.requests, input.owner);
      OwnerLeavesExactly(s.sessions, input.owner);
    }
  }

  /** A request is cancelled by the Close of its own owner only. */
  predicate CancelledBy(inputs: seq<Input>, entry: Entry) {
    entry.cancelled || Cancel(entry.owner, entry.guest) in inputs
  }

  /** A Response under its host path ends a request that is cancelled or answered once only; so do its own end and that of
      its owner. */
  predicate EndsRequest(before: seq<Input>, input: Input, entry: Entry) {
    || (input.Response? && entry.host == Some(input.path) && (CancelledBy(before, entry) || !entry.persistent))
    || input == Finished(entry.guest) || input == OwnerGone(entry.owner)
  }

  predicate NoneEndsRequest(inputs: seq<Input>, entry: Entry) {
    inputs != [] ==>
      var before, input := inputs[..|inputs| - 1], inputs[|inputs| - 1];
      NoneEndsRequest(before, entry) && !EndsRequest(before, input, entry)
  }

  predicate EndsSession(input: Input, entry: Entry) {
    (input.Closed? && entry.host == Some(input.path)) || input == OwnerGone(entry.owner)
  }

  predicate NoneEndsSession(inputs: seq<Input>, entry: Entry) {
    inputs != [] ==>
      NoneEndsSession(inputs[..|inputs| - 1], entry) && !EndsSession(inputs[|inputs| - 1], entry)
  }

  /** What one more input does to a request. */
  ghost predicate RequestGoesOn(s: State, input: Input, before: seq<Input>, id: nat, entry: Entry)
    requires Sound(s)
  {
    && (Paired(s.requests, id, entry.(cancelled := CancelledBy(before, entry))) ==>
          var next := Step(s, input).requests;
          if EndsRequest(before, input, entry) then Left(next, id)
          else id in next.objects && next.objects[id] == entry.(cancelled := CancelledBy(before + [input], entry)))
    && (Left(s.requests, id) ==> Left(Step(s, input).requests, id))
  }

  lemma RequestStep(s: State, input: Input, before: seq<Input>, id: nat, entry: Entry)
    requires Exact(s) && entry.host.Some?
    ensures RequestGoesOn(s, input, before, id, entry)
  {
    hide Exact, RequestGoesOn, Sound;
    ExactSound(s);
    match input
    case OwnerGone(owner) => RequestOwnerStep(s, owner, before, id, entry);
    case Response(host) => RequestResponseStep(s, host, before, id, entry);
    case _ => RequestOtherStep(s, input, before, id, entry);
  }

  lemma ExactSound(s: State)
    requires Exact(s)
    ensures Sound(s)
  {
  }

  lemma RequestOwnerStep(s: State, owner: string, before: seq<Input>, id: nat, entry: Entry)
    requires Sound(s) && entry.host.Some?
    ensures RequestGoesOn(s, OwnerGone(owner), before, id, entry)
  {
    hide RemoveOwner, OneToOne, Kept;
    SoundKept(s);
    OwnerLeavesExactly(s.requests, owner);
  }

  lemma SoundKept(s: State)
    requires Sound(s)
    ensures Kept(s.requests) && Kept(s.sessions)
  {
  }

  lemma RequestResponseStep(s: State, host: Path, before: seq<Input>, id: nat, entry: Entry)
    requires Sound(s) && entry.host.Some?
    ensures RequestGoesOn(s, Response(host), before, id, entry)
  {
    hide OneToOne;
  }

  lemma RequestOtherStep(s: State, input: Input, before: seq<Input>, id: nat, entry: Entry)
    requires Sound(s) && entry.host.Some? && !input.Response? && !input.OwnerGone?
    ensures RequestGoesOn(s, input, before, id, entry)
  {
    hide OneToOne, RemoveOwner;
  }

  lemma SessionStep(s: State, input: Input, id: nat, entry: Entry)
    requires Exact(s)
    ensures Paired(s.sessions, id, entry) ==>
      if EndsSession(input, entry) then Left(Step(s, input).sessions, id)
      else id in Step(s, input).sessions.objects && Step(s, input).sessions.objects[id] == entry
    ensures Left(s.sessions, id) ==> Left(Step(s, input).sessions, id)
  {
    hide RemoveOwner;
    if input.OwnerGone? {
      OwnerLeavesExactly(s.sessions, input.owner);
    }
  }

  lemma ExactPairs(s: State)
    requires Exact(s)
    ensures forall id <- s.requests.objects :: Paired(s.requests, id, s.requests.objects[id])
    ensures forall id <- s.sessions.objects :: Paired(s.sessions, id, s.sessions.objects[id])
  {
  }

  lemma NoneTakenExact(inputs: seq<Input>)
    requires NoneTaken(inputs)
    ensures Exact(Run(inputs))
  {
    hide Exact, Run, NoneTaken;
    RunIsExact(inputs);
  }

  /** In runs with fresh host paths a request that has one is there, under the same paths and for the same owner, exactly
      until a Response under its host path when it is cancelled or not persistent, its own end, or the end of its owner;
      and it is cancelled exactly by its own owner's Close. */
  lemma {:induction false} RequestStays(inputs: seq<Input>, more: seq<Input>, id: nat)
    requires NoneTaken(inputs) && NoneTaken(inputs + more)
    requires id in Run(inputs).requests.objects && Run(inputs).requests.objects[id].host.Some?
    ensures var entry, end := Run(inputs).requests.objects[id], Run(inputs + more).requests;
      if NoneEndsRequest(more, entry) then Paired(end, id, entry.(cancelled := CancelledBy(more, entry)))
      else Left(end, id)
  {
    hide Step, EndsRequest, Exact, Run, Paired, Left, CancelledBy, Refused, Fresh;
    var entry := Run(inputs).requests.objects[id];
    if more == [] {
      assert inputs + more == inputs;
      NoneTakenExact(inputs);
      ExactPairs(Run(inputs));
      NotYetCancelled(entry);
    } else {
      var before, last := more[..|more| - 1], more[|more| - 1];
      assert (inputs + more)[..|inputs + more| - 1] == inputs + before;
      assert inputs + more == inputs + before + [last] && more == before + [last];
      RequestStays(inputs, before, id);
      NoneTakenExact(inputs + before);
      RequestStep(Run(inputs + before), last, before, id, entry);
      assert RequestGoesOn(Run(inputs + before), last, before, id, entry);
      RunSnoc(inputs + before, last);
      NoneTakenExact(inputs + more);
      ExactPairs(Run(inputs + more));
    }
  }

  lemma NotYetCancelled(entry: Entry)
    ensures entry.(cancelled := CancelledBy([], entry)) == entry
  {
  }

  /** And a session is there exactly until Closed under its host path or the end of its owner. */
  lemma {:induction false} SessionStays(inputs: seq<Input>, more: seq<Input>, id: nat)
    requires NoneTaken(inputs) && NoneTaken(inputs + more)
    requires id in Run(inputs).sessions.objects
    ensures var entry, end := Run(inputs).sessions.objects[id], Run(inputs + more).sessions;
      if NoneEndsSession(more, entry) then Paired(end, id, entry) else Left(end, id)
  {
    hide Step, EndsSession, Exact, Run, Paired, Left, Refused, Fresh;
    var entry := Run(inputs).sessions.objects[id];
    if more == [] {
      assert inputs + more == inputs;
      NoneTakenExact(inputs);
      ExactPairs(Run(inputs));
    } else {
      var before, last := more[..|more| - 1], more[|more| - 1];
      assert (inputs + more)[..|inputs + more| - 1] == inputs + before;
      assert inputs + more == inputs + before + [last];
      SessionStays(inputs, before, id);
      NoneTakenExact(inputs + before);
      SessionStep(Run(inputs + before), last, id, entry);
      RunSnoc(inputs + before, last);
      NoneTakenExact(inputs + more);
      ExactPairs(Run(inputs + more));
    }
  }

  // ---- Object paths in values ----

  /** GVariant values as far as object paths go: every other basic type is a leaf of some type string. */
  datatype Value =
    | ObjectPath(path: Path)
    | Leaf(kind: string, content: string)
    | Variant(inner: Value)
    | Array(element: Type, items: seq<Value>)
    | Tuple(fields: seq<Value>)
    | DictEntry(key: Value, value: Value)
    | Maybe(element: Type, just: Option<Value>)

  datatype Type =
    | PathType
    | LeafType(kind: string)
    | VariantType
    | ArrayType(element: Type)
    | TupleType(fields: seq<Type>)
    | DictEntryType(key: Type, value: Type)
    | MaybeType(element: Type)

  function TypeOf(v: Value): Type {
    match v
    case ObjectPath(_) => PathType
    case Leaf(kind, _) => LeafType(kind)
    case Variant(_) => VariantType
    case Array(element, _) => ArrayType(element)
    case Tuple(fields) => TupleType(seq(|fields|, k requires 0 <= k < |fields| => TypeOf(fields[k])))
    case DictEntry(key, value) => DictEntryType(TypeOf(key), TypeOf(value))
    case Maybe(element, _) => MaybeType(element)
  }

  /** Items have the type their container says. */
  predicate WellTyped(v: Value) {
    match v
    case ObjectPath(_) => true
    case Leaf(_, _) => true
    case Variant(inner) => WellTyped(inner)
    case Array(element, items) => forall k :: 0 <= k < |items| ==> WellTyped(items[k]) && TypeOf(items[k]) == element
    case Tuple(fields) => forall k :: 0 <= k < |fields| ==> WellTyped(fields[k])
    case DictEntry(key, value) => WellTyped(key) && WellTyped(value)
    case Maybe(element, None) => true
    case Maybe(element, Some(value)) => WellTyped(value) && TypeOf(value) == element
  }

  function MappedTo(t: Table, id: nat, otherwise: Path): Path {
    if id in t.objects && t.objects[id].host.Some? then t.objects[id].host.value else otherwise
  }

  function ToHost(s: State, path: Path): Path {
    if path in s.requests.guest then MappedTo(s.requests, s.requests.guest[path], path)
    else if path in s.sessions.guest then MappedTo(s.sessions, s.sessions.guest[path], path)
    else path
  }

  function ToGuest(s: State, path: Path): Path {
    if path in s.requests.host && s.requests.host[path] in s.requests.objects then
      s.requests.objects[s.requests.host[path]].guest
    else if path in s.sessions.host && s.sessions.host[path] in s.sessions.objects then
      s.sessions.objects[s.sessions.host[path]].guest
    else path
  }

  function TranslatePath(s: State, path: Path, toHost: bool): Path {
    if toHost then ToHost(s, path) else ToGuest(s, path)
  }

  /** translate_object_paths */
  function Translate(s: State, v: Value, toHost: bool): Value {
    match v
    case ObjectPath(path) => ObjectPath(TranslatePath(s, path, toHost))
    case Leaf(_, _) => v
    case Variant(inner) => Variant(Translate(s, inner, toHost))
    case Array(element, items) =>
      Array(element, seq(|items|, k requires 0 <= k < |items| => Translate(s, items[k], toHost)))
    case Tuple(fields) => Tuple(seq(|fields|, k requires 0 <= k < |fields| => Translate(s, fields[k], toHost)))
    case DictEntry(key, value) => DictEntry(Translate(s, key, toHost), Translate(s, value, toHost))
    case Maybe(element, None) => v
    case Maybe(element, Some(value)) => Maybe(element, Some(Translate(s, value, toHost)))
  }

  /** Translation keeps the type of every value, so the containers stay well typed. */
  lemma {:induction false} TranslateKeepsType(s: State, v: Value, toHost: bool)
    ensures TypeOf(Translate(s, v, toHost)) == TypeOf(v)
    ensures WellTyped(v) ==> WellTyped(Translate(s, v, toHost))
  {
    match v
    case ObjectPath(_) =>
    case Leaf(_, _) =>
    case Variant(inner) => TranslateKeepsType(s, inner, toHost);
    case Array(_, items) =>
      forall k | 0 <= k < |items|
        ensures TypeOf(Translate(s, items[k], toHost)) == TypeOf(items[k])
        ensures WellTyped(items[k]) ==> WellTyped(Translate(s, items[k], toHost))
      {
        TranslateKeepsType(s, items[k], toHost);
      }
    case Tuple(fields) =>
      forall k | 0 <= k < |fields|
        ensures TypeOf(Translate(s, fields[k], toHost)) == TypeOf(fields[k])
        ensures WellTyped(fields[k]) ==> WellTyped(Translate(s, fields[k], toHost))
      {
        TranslateKeepsType(s, fields[k], toHost);
      }
    case DictEntry(key, value) =>
      TranslateKeepsType(s, key, toHost);
      TranslateKeepsType(s, value, toHost);
    case Maybe(_, None) =>
    case Maybe(_, Some(value)) => TranslateKeepsType(s, value, toHost);
  }

  /** The path of a request or session that has a host path; a request comes first. */
  predicate HasHost(s: State, path: Path) {
    if path in s.requests.guest then
      s.requests.guest[path] in s.requests.objects && s.requests.objects[s.requests.guest[path]].host.Some?
    else
      path in s.sessions.guest && s.sessions.guest[path] in s.sessions.objects
      && s.sessions.objects[s.sessions.guest[path]].host.Some?
  }

  /** The request or session that stands under a host path; a request comes first. */
  function FoundByHost(s: State, path: Path): Option<Entry> {
    if path in s.requests.host && s.requests.host[path] in s.requests.objects then
      Some(s.requests.objects[s.requests.host[path]])
    else if path in s.sessions.host && s.sessions.host[path] in s.sessions.objects then
      Some(s.sessions.objects[s.sessions.host[path]])
    else None
  }

  /** The guest's path of a request stands for its host path and the other way round, and those of a session unless a
      request has the same guest path; every other path stands for itself. */
  lemma PathsAreMapped(s: State, path: Path)
    requires Exact(s)
    ensures forall id <- s.requests.objects ::
      var entry := s.requests.objects[id];
      && (entry.guest == path ==> ToHost(s, path) == if entry.host.Some? then entry.host.value else path)
      && (entry.host == Some(path) ==> ToGuest(s, path) == entry.guest)
    ensures forall id <- s.sessions.objects ::
      var entry := s.sessions.objects[id];
      && (entry.guest == path && (forall other <- s.requests.objects :: s.requests.objects[other].guest != path) ==>
            ToHost(s, path) == if entry.host.Some? then entry.host.value else path)
      && (entry.host == Some(path) ==> ToGuest(s, path) == entry.guest)
    ensures (&& (forall id <- s.requests.objects :: s.requests.objects[id].guest != path)
             && (forall id <- s.sessions.objects :: s.sessions.objects[id].guest != path))
            ==> ToHost(s, path) == path
    ensures (&& (forall id <- s.requests.objects :: s.requests.objects[id].host != Some(path))
             && (forall id <- s.sessions.objects :: s.sessions.objects[id].host != Some(path)))
            ==> ToGuest(s, path) == path
  {
  }

  /** A path comes back if it has a host path of its own, or is not a host path, or is that of an entry which has it as
      its guest path too. */
  predicate ComesBack(s: State, path: Path) {
    HasHost(s, path) || FoundByHost(s, path).None? || FoundByHost(s, path).value.guest == path
  }

  lemma PathRoundTrip(s: State, path: Path)
    requires Exact(s)
    ensures ToGuest(s, ToHost(s, path)) == path <==> ComesBack(s, path)
  {
  }

  /** A host path that a guest uses as its own: it comes back as the guest path of the request that it belongs to. */
  lemma HostPathIsMistaken()
    ensures var s := Run([RegisterRequest(Entry("a", "g", Some("h"), false, false), true)]);
      Exact(s) && Translate(s, Translate(s, ObjectPath("h"), true), false) == ObjectPath("g") && !ComesBack(s, "h")
  {
    var input := RegisterRequest(Entry("a", "g", Some("h"), false, false), true);
    assert [input][..0] == [] && Run([]) == State(EMPTY, EMPTY);
    StaysExact(State(EMPTY, EMPTY), input);
    var s := Run([input]);
    assert s == Step(State(EMPTY, EMPTY), input);
    assert "h" != "g";
  }

  predicate AllComeBack(s: State, v: Value) {
    match v
    case ObjectPath(path) => ComesBack(s, path)
    case Leaf(_, _) => true
    case Variant(inner) => AllComeBack(s, inner)
    case Array(_, items) => forall k :: 0 <= k < |items| ==> AllComeBack(s, items[k])
    case Tuple(fields) => forall k :: 0 <= k < |fields| ==> AllComeBack(s, fields[k])
    case DictEntry(key, value) => AllComeBack(s, key) && AllComeBack(s, value)
    case Maybe(_, None) => true
    case Maybe(_, Some(value)) => AllComeBack(s, value)
  }

  /** Translating a value for the host and back gives the value exactly when every path in it comes back. */
  lemma {:induction false} TranslateRoundTrip(s: State, v: Value)
    requires Exact(s)
    ensures Translate(s, Translate(s, v, true), false) == v <==> AllComeBack(s, v)
  {
    hide Exact, ComesBack, ToHost, ToGuest;
    match v
    case ObjectPath(path) => PathRoundTrip(s, path);
    case Leaf(_, _) =>
    case Variant(inner) => TranslateRoundTrip(s, inner);
    case Array(element, items) =>
      forall k | 0 <= k < |items|
        ensures Translate(s, Translate(s, items[k], true), false) == items[k] <==> AllComeBack(s, items[k])
      {
        TranslateRoundTrip(s, items[k]);
      }
      ItemsRoundTrip(s, items);
    case Tuple(fields) =>
      forall k | 0 <= k < |fields|
        ensures Translate(s, Translate(s, fields[k], true), false) == fields[k] <==> AllComeBack(s, fields[k])
      {
        TranslateRoundTrip(s, fields[k]);
      }
      ItemsRoundTrip(s, fields);
    case DictEntry(key, value) =>
      TranslateRoundTrip(s, key);
      TranslateRoundTrip(s, value);
    case Maybe(_, None) =>
    case Maybe(_, Some(value)) => TranslateRoundTrip(s, value);
  }

  function TranslateAll(s: State, items: seq<Value>, toHost: bool): seq<Value> {
    seq(|items|, k requires 0 <= k < |items| => Translate(s, items[k], toHost))
  }

  lemma ItemsRoundTrip(s: State, items: seq<Value>)
    ensures TranslateAll(s, TranslateAll(s, items, true), false) == items <==>
            forall k :: 0 <= k < |items| ==> Translate(s, Translate(s, items[k], true), false) == items[k]
  {
    var there := TranslateAll(s, items, true);
    var back := TranslateAll(s, there, false);
    hide Translate;
    assert forall k :: 0 <= k < |items| ==> back[k] == Translate(s, Translate(s, items[k], true), false);
  }
}
