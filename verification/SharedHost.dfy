/** native/scu_service.h: the shared host's leases, their clients and one queue of events. Source callbacks may run at
    any moment, also nested in the call being handled; only the main loop takes events off the queue. */
module SharedHost {
  import opened Text

  const MAX_CLIENTS: nat := 32
  const MAX_PENDING: nat := 64
  const MAX_LEASES: nat := 64
  const IDLE_TIME: nat := 2_000_000

  /** `freed` marks memory that was given back; clients and leases are named by the order of their creation. */
  datatype Client = Client(lease: nat, closed: bool, pending: nat, freed: bool)

  /** `source` and `listening` tell whether the callbacks of the control and the listening socket are installed. */
  datatype Lease = Lease(control: bool, source: bool, listening: bool, registered: bool, revoked: bool,
                         acknowledged: bool, used: bool, idleSince: Option<int>, freed: bool)

  datatype Event = CallOf(client: nat) | Register(lease: nat) | Revoke(lease: nat)

  /** What the one thread is inside of: nothing, a call (`handled` unless its client had closed), or desktop_bind. */
  datatype Phase = Resting | Calling(client: nat, handled: bool) | Binding(lease: nat)

  /** What happened, for the statements about runs. */
  datatype Note = Handled(client: nat) | Returned(client: nat) | Ready(lease: nat) | Released(lease: nat)

  datatype State = State(clients: seq<Client>, leases: seq<Lease>, events: seq<Event>, phase: Phase, cancelled: bool,
                         log: seq<Note>)

  /** With a test socket one lease exists from the start, already registered and without a control socket. */
  function Initial(test: bool): State {
    State([], if test then [Lease(false, false, true, true, false, false, false, None, false)] else [], [], Resting, false,
          [])
  }

  // ---- Callbacks ----

  /** host_client_close */
  function CloseClient(s: State, client: nat): State
    requires client < |s.clients|
  {
    if s.clients[client].closed then s
    else
      s.(clients := s.clients[client := s.clients[client].(closed := true)],
         cancelled := s.cancelled || Current(s.phase, client))
  }

  function ClosedUnder(client: Client, lease: nat): Client {
    if client.lease == lease then client.(closed := true) else client
  }

  function CloseAll(clients: seq<Client>, lease: nat): (all: seq<Client>) {
    seq(|clients|, c requires 0 <= c < |clients| => ClosedUnder(clients[c], lease))
  }

  /** The running call belongs to an open client of this lease. */
  predicate RunsUnder(s: State, lease: nat) {
    && s.phase.Calling? && s.phase.client < |s.clients|
    && s.clients[s.phase.client].lease == lease && !s.clients[s.phase.client].closed
  }

  /** host_revoke */
  function RevokeLease(s: State, lease: nat): State
    requires lease < |s.leases|
  {
    if s.leases[lease].revoked then s
    else
      s.(leases := s.leases[lease := s.leases[lease].(revoked := true, listening := false, source := false)],
         clients := CloseAll(s.clients, lease),
         cancelled := s.cancelled || RunsUnder(s, lease),
         events := s.events + [Revoke(lease)])
  }

  /** host_line, for a line that asks for a call. */
  function QueueCall(s: State, client: nat): State
    requires client < |s.clients|
  {
    if |s.events| < MAX_PENDING then
      s.(clients := s.clients[client := s.clients[client].(pending := s.clients[client].pending + 1)],
         events := s.events + [CallOf(client)])
    else CloseClient(s, client)
  }

  function OpenCount(clients: seq<Client>): nat {
    if clients == [] then 0
    else OpenCount(clients[..|clients| - 1]) + if clients[|clients| - 1].closed then 0 else 1
  }

  function LiveCount(leases: seq<Lease>): nat {
    if leases == [] then 0
    else LiveCount(leases[..|leases| - 1]) + if leases[|leases| - 1].freed then 0 else 1
  }

  /** One connection that host_accept takes; `permitted` stands for the credentials check. */
  function Accept(s: State, lease: nat, permitted: bool): State
    requires lease < |s.leases|
  {
    if s.leases[lease].revoked || OpenCount(s.clients) >= MAX_CLIENTS || !permitted then s
    else
      s.(clients := s.clients + [Client(lease, false, 0, false)],
         leases := s.leases[lease := s.leases[lease].(used := true)])
  }

  /** What host_control_read finds: nothing whole yet, a valid registration, or anything else. */
  datatype Control = Again | Valid | Other

  function ReadControl(s: State, lease: nat, control: Control): State
    requires lease < |s.leases|
  {
    match control
    case Again => s
    case Valid =>
      if s.leases[lease].registered then RevokeLease(s, lease)
      else s.(leases := s.leases[lease := s.leases[lease].(registered := true)], events := s.events + [Register(lease)])
    case Other => RevokeLease(s, lease)
  }

  /** One connection that host_control_accept takes. */
  function AcceptControl(s: State, permitted: bool): State {
    if LiveCount(s.leases) >= MAX_LEASES || !permitted then s
    else s.(leases := s.leases + [Lease(true, true, false, false, false, false, false, None, false)])
  }

  // ---- The main loop ----

  /** Takes the first event and runs it up to the point where it may dispatch callbacks. */
  function Pop(s: State, cancelled: bool): State
    requires Named(s)
  {
    if s.events == [] then s
    else
      var rest := s.(events := s.events[1..]);
      match s.events[0]
      case CallOf(client) =>
        if s.clients[client].closed then rest.(phase := Calling(client, false))
        else rest.(phase := Calling(client, true), cancelled := cancelled, log := s.log + [Handled(client)])
      case Register(lease) =>
        if s.leases[lease].revoked then rest else rest.(phase := Binding(lease), cancelled := false)
      case Revoke(lease) =>
        rest.(leases := s.leases[lease := s.leases[lease].(acknowledged := true)],
              log := if s.leases[lease].control then s.log + [Released(lease)] else s.log)
  }

  /** The call returns. */
  function Finish(s: State, client: nat, handled: bool): State
    requires client < |s.clients|
  {
    var pending := s.clients[client].pending;
    s.(clients := s.clients[client := s.clients[client].(pending := if pending == 0 then 0xFFFF_FFFF else pending - 1)],
       phase := Resting,
       log := if handled then s.log + [Returned(client)] else s.log)
  }

  /** desktop_bind returns, and the reply to the controller is sent or not. */
  function Bound(s: State, lease: nat, bound: bool, sent: bool): State
    requires lease < |s.leases|
  {
    var rest := s.(phase := Resting);
    if !bound then RevokeLease(rest, lease)
    else
      var replied := if sent then rest.(log := s.log + [Ready(lease)]) else RevokeLease(rest, lease);
      if replied.leases[lease].revoked then replied
      else replied.(leases := replied.leases[lease := replied.leases[lease].(listening := true)])
  }

  /** Some client of the lease is connected. */
  predicate Connected(clients: seq<Client>, lease: nat) {
    exists c :: 0 <= c < |clients| && clients[c].lease == lease && !clients[c].closed
  }

  /** A lease that was used and then had no client for two seconds is returned. */
  function CheckIdle(s: State, lease: nat, now: int): State
    requires lease < |s.leases|
  {
    var l := s.leases[lease];
    if !l.control || !l.used || l.revoked then s
    else if Connected(s.clients, lease) then s.(leases := s.leases[lease := l.(idleSince := None)])
    else if l.idleSince.None? then s.(leases := s.leases[lease := l.(idleSince := Some(now))])
    else if now - l.idleSince.value >= IDLE_TIME then RevokeLease(s, lease)
    else s
  }

  predicate Referenced(clients: seq<Client>, lease: nat) {
    exists c :: 0 <= c < |clients| && clients[c].lease == lease && !clients[c].freed
  }

  function CollectedClient(client: Client): Client {
    if client.closed && client.pending == 0 then client.(freed := true) else client
  }

  function CollectedClients(clients: seq<Client>): seq<Client> {
    seq(|clients|, c requires 0 <= c < |clients| => CollectedClient(clients[c]))
  }

  function CollectedLease(clients: seq<Client>, leases: seq<Lease>, lease: nat): Lease
    requires lease < |leases|
  {
    if leases[lease].acknowledged && !Referenced(clients, lease) then leases[lease].(freed := true) else leases[lease]
  }

  /** host_collect, which the main loop calls between events. */
  function Collect(s: State): State {
    var clients := CollectedClients(s.clients);
    s.(clients := clients,
       leases := seq(|s.leases|, l requires 0 <= l < |s.leases| => CollectedLease(clients, s.leases, l)))
  }

  datatype Input =
    | Connect(lease: nat, permitted: bool)
    | Line(client: nat)
    | CancelNotice(client: nat)
    | Drop(client: nat)
    | OnControl(lease: nat, control: Control)
    | Attach(permitted: bool)
    | Take(cancelled: bool)
    | Return
    | Bind(bound: bool, sent: bool)
    | Idle(lease: nat, now: int)
    | Sweep

  /** A callback runs only while its source is installed, and the main loop goes on only when its call returned. */
  function Step(s: State, input: Input): State
    requires Named(s)
  {
    match input
    case Connect(lease, permitted) =>
      if lease < |s.leases| && s.leases[lease].listening then Accept(s, lease, permitted) else s
    case Line(client) => if client < |s.clients| && !s.clients[client].closed then QueueCall(s, client) else s
    case CancelNotice(client) =>
      if client < |s.clients| && !s.clients[client].closed && Current(s.phase, client) then
        s.(cancelled := true)
      else s
    case Drop(client) => if client < |s.clients| then CloseClient(s, client) else s
    case OnControl(lease, control) =>
      if lease < |s.leases| && s.leases[lease].source then ReadControl(s, lease, control) else s
    case Attach(permitted) => AcceptControl(s, permitted)
    case Take(cancelled) => if s.phase.Resting? then Pop(s, cancelled) else s
    case Return => if s.phase.Calling? then Finish(s, s.phase.client, s.phase.handled) else s
    case Bind(bound, sent) => if s.phase.Binding? then Bound(s, s.phase.lease, bound, sent) else s
    case Idle(lease, now) =>
      if s.phase.Resting? && lease < |s.leases| && !s.leases[lease].freed then CheckIdle(s, lease, now) else s
    case Sweep => if s.phase.Resting? then Collect(s) else s
  }

  // ---- Names ----

  predicate EventNamed(event: Event, clients: nat, leases: nat) {
    match event
    case CallOf(client) => client < clients
    case Register(lease) => lease < leases
    case Revoke(lease) => lease < leases
  }

  predicate PhaseNamed(phase: Phase, clients: nat, leases: nat) {
    match phase
    case Resting => true
    case Calling(client, _) => client < clients
    case Binding(lease) => lease < leases
  }

  ghost predicate Named(s: State) {
    && (forall c :: 0 <= c < |s.clients| ==> s.clients[c].lease < |s.leases|)
    && (forall e :: 0 <= e < |s.events| ==> EventNamed(s.events[e], |s.clients|, |s.leases|))
    && PhaseNamed(s.phase, |s.clients|, |s.leases|)
  }

  // ---- What every run keeps ----

  ghost function Count(events: seq<Event>, event: Event): nat {
    multiset(events)[event]
  }

  ghost function One(b: bool): nat {
    if b then 1 else 0
  }

  /** `pending` counts the client's queued calls and the current one, so a freed client has neither. */
  ghost predicate ClientKept(client: Client, queued: nat, current: bool, lease: Lease) {
    && client.pending == queued + One(current)
    && (client.freed ==> client.closed && client.pending == 0)
    && (lease.revoked ==> client.closed)
    && (!client.freed ==> !lease.freed)
    && lease.registered
  }

  /** A revoked lease has one REVOKE, queued or done, and no REGISTER behind it. */
  ghost predicate LeaseKept(lease: Lease, revokes: nat, registers: nat, binding: bool) {
    && revokes + One(lease.acknowledged) == One(lease.revoked)
    && registers + One(binding) <= One(lease.registered && !lease.acknowledged)
    && (lease.freed ==> lease.acknowledged)
    && (lease.revoked ==> !lease.source && !lease.listening)
    && (lease.listening ==> lease.registered)
  }

  predicate Current(phase: Phase, client: nat) {
    phase.Calling? && phase.client == client
  }

  ghost predicate NoRegisterBehind(events: seq<Event>) {
    forall i, j :: 0 <= i < j < |events| && events[i].Revoke? ==> events[j] != Register(events[i].lease)
  }

  /** The call that runs at the end of the log. */
  function Running(log: seq<Note>): Option<nat> {
    if log == [] then None
    else
      match log[|log| - 1]
      case Handled(client) => Some(client)
      case Returned(_) => None
      case _ => Running(log[..|log| - 1])
  }

  /** Calls do not nest, and none runs when a release is sent. */
  ghost predicate Alone(log: seq<Note>) {
    forall i :: 0 <= i < |log| ==>
      match log[i]
      case Handled(_) => Running(log[..i]).None?
      case Returned(client) => Running(log[..i]) == Some(client)
      case Ready(_) => Running(log[..i]).None?
      case Released(_) => Running(log[..i]).None?
  }

  /** After a release, no call of the lease's clients is handled and the lease is not released or made ready again. */
  ghost predicate Final(log: seq<Note>, clients: seq<Client>) {
    forall i, j :: 0 <= i < j < |log| && log[i].Released? ==> !Concerns(log[j], log[i].lease, clients)
  }

  predicate Concerns(note: Note, lease: nat, clients: seq<Client>) {
    match note
    case Handled(client) => client < |clients| ==> clients[client].lease == lease
    case Returned(client) => client < |clients| ==> clients[client].lease == lease
    case Ready(l) => l == lease
    case Released(l) => l == lease
  }

  ghost predicate History(log: seq<Note>, clients: seq<Client>, leases: seq<Lease>, phase: Phase) {
    && Alone(log) && Final(log, clients)
    && Running(log) == (if phase.Calling? && phase.handled then Some(phase.client) else None)
    && (phase.Calling? && phase.handled ==> Unreleased(phase.client, clients, leases))
    && (forall l :: 0 <= l < |leases| ==> (Released(l) in log <==> leases[l].acknowledged && leases[l].control))
    && (forall i :: 0 <= i < |log| && log[i].Released? ==> log[i].lease < |leases|)
  }

  predicate Unreleased(client: nat, clients: seq<Client>, leases: seq<Lease>) {
    client < |clients| && clients[client].lease < |leases| && !leases[clients[client].lease].acknowledged
  }

  ghost function Calls(events: seq<Event>): nat {
    if events == [] then 0 else Calls(events[1..]) + One(events[0].CallOf?)
  }

  ghost predicate Bounded(s: State) {
    OpenCount(s.clients) <= MAX_CLIENTS && LiveCount(s.leases) <= MAX_LEASES && Calls(s.events) <= MAX_PENDING
  }

  ghost predicate ClientsKept(clients: seq<Client>, leases: seq<Lease>, events: seq<Event>, phase: Phase) {
    forall c :: 0 <= c < |clients| ==>
      && clients[c].lease < |leases|
      && ClientKept(clients[c], Count(events, CallOf(c)), Current(phase, c), leases[clients[c].lease])
  }

  ghost predicate LeasesKept(leases: seq<Lease>, events: seq<Event>, phase: Phase) {
    forall l :: 0 <= l < |leases| ==>
      LeaseKept(leases[l], Count(events, Revoke(l)), Count(events, Register(l)), phase == Binding(l))
  }

  ghost predicate Kept(s: State) {
    && Named(s)
    && ClientsKept(s.clients, s.leases, s.events, s.phase) && LeasesKept(s.leases, s.events, s.phase)
    && NoRegisterBehind(s.events)
    && (s.phase.Calling? && s.phase.handled && s.clients[s.phase.client].closed ==> s.cancelled)
  }

  lemma CountSnoc(events: seq<Event>, event: Event, x: Event)
    ensures Count(events + [event], x) == Count(events, x) + One(x == event)
  {
  }

  lemma CountHead(events: seq<Event>, x: Event)
    requires events != []
    ensures Count(events, x) == Count(events[1..], x) + One(x == events[0])
  {
    assert events == [events[0]] + events[1..];
  }

  lemma CountNone(events: seq<Event>, x: Event)
    ensures Count(events, x) > 0 <==> x in events
  {
  }

  lemma NoRegisterSnoc(events: seq<Event>, event: Event)
    requires NoRegisterBehind(events) && (event.Register? ==> Revoke(event.lease) !in events)
    ensures NoRegisterBehind(events + [event])
  {
  }

  lemma NoRegisterTail(events: seq<Event>)
    requires NoRegisterBehind(events) && events != []
    ensures NoRegisterBehind(events[1..])
    ensures events[0].Revoke? ==> Register(events[0].lease) !in events[1..]
  {
  }

  lemma CloseKept(s: State, client: nat)
    requires Kept(s) && client < |s.clients|
    ensures Kept(CloseClient(s, client))
  {
    hide Count, EventNamed, NoRegisterBehind;
  }

  lemma CountsSnoc(events: seq<Event>, event: Event)
    ensures forall x :: Count(events + [event], x) == Count(events, x) + One(x == event)
  {
  }

  /** A REVOKE that joins the queue is the only one of its lease, and closes the lease's clients. */
  lemma LeasesRevoked(leases: seq<Lease>, events: seq<Event>, phase: Phase, lease: nat)
    requires LeasesKept(leases, events, phase) && lease < |leases| && !leases[lease].revoked
    ensures var revoked := leases[lease].(revoked := true, listening := false, source := false);
      LeasesKept(leases[lease := revoked], events + [Revoke(lease)], phase)
  {
    CountsSnoc(events, Revoke(lease));
    hide Count;
  }

  lemma ClientsRevoked(clients: seq<Client>, leases: seq<Lease>, events: seq<Event>, phase: Phase, lease: nat)
    requires ClientsKept(clients, leases, events, phase) && lease < |leases|
    ensures var revoked := leases[lease].(revoked := true, listening := false, source := false);
      ClientsKept(CloseAll(clients, lease), leases[lease := revoked], events + [Revoke(lease)], phase)
  {
    CountsSnoc(events, Revoke(lease));
    hide Count;
  }

  lemma RevokeKept(s: State, lease: nat)
    requires Kept(s) && lease < |s.leases|
    ensures Kept(RevokeLease(s, lease))
  {
    if !s.leases[lease].revoked {
      NoRegisterSnoc(s.events, Revoke(lease));
      LeasesRevoked(s.leases, s.events, s.phase, lease);
      ClientsRevoked(s.clients, s.leases, s.events, s.phase, lease);
      hide NoRegisterBehind, LeasesKept, ClientsKept;
    }
  }

  /** Another queued call changes nothing for the leases, and the pending calls of one client. */
  lemma LeasesQueued(leases: seq<Lease>, events: seq<Event>, phase: Phase, client: nat)
    requires LeasesKept(leases, events, phase)
    ensures LeasesKept(leases, events + [CallOf(client)], phase)
  {
    CountsSnoc(events, CallOf(client));
    hide Count;
  }

  lemma ClientsQueued(clients: seq<Client>, leases: seq<Lease>, events: seq<Event>, phase: Phase, client: nat)
    requires ClientsKept(clients, leases, events, phase) && client < |clients| && !clients[client].closed
    ensures var queued := clients[client].(pending := clients[client].pending + 1);
      ClientsKept(clients[client := queued], leases, events + [CallOf(client)], phase)
  {
    CountsSnoc(events, CallOf(client));
    hide Count;
  }

  lemma NamedQueued(s: State, client: nat)
    requires Named(s) && client < |s.clients|
    ensures Named(QueueCall(s, client))
  {
  }

  lemma QueueKept(s: State, client: nat)
    requires Kept(s) && client < |s.clients| && !s.clients[client].closed
    ensures Kept(QueueCall(s, client))
  {
    if |s.events| < MAX_PENDING {
      NamedQueued(s, client);
      hide Named, NoRegisterBehind, LeasesKept, ClientsKept;
      NoRegisterSnoc(s.events, CallOf(client));
      LeasesQueued(s.leases, s.events, s.phase, client);
      ClientsQueued(s.clients, s.leases, s.events, s.phase, client);
    } else {
      CloseKept(s, client);
      hide Kept;
    }
  }

  lemma AcceptKept(s: State, lease: nat, permitted: bool)
    requires Kept(s) && lease < |s.leases| && s.leases[lease].listening
    ensures Kept(Accept(s, lease, permitted))
  {
    CountNone(s.events, CallOf(|s.clients|));
    hide Count, NoRegisterBehind;
  }

  lemma ControlKept(s: State, lease: nat, control: Control)
    requires Kept(s) && lease < |s.leases| && s.leases[lease].source
    ensures Kept(ReadControl(s, lease, control))
  {
    if control == Valid && !s.leases[lease].registered {
      RegisterKept(s, lease);
    } else {
      RevokeKept(s, lease);
    }
  }

  lemma RegisterKept(s: State, lease: nat)
    requires Kept(s) && lease < |s.leases| && s.leases[lease].source && !s.leases[lease].registered
    ensures Kept(ReadControl(s, lease, Valid))
  {
    var next := ReadControl(s, lease, Valid);
    CountNone(s.events, Revoke(lease));
    assert Revoke(lease) !in s.events by {
      hide ClientsKept, NoRegisterBehind, Count;
    }
    NoRegisterSnoc(s.events, Register(lease));
    forall x: Event ensures Count(next.events, x) == Count(s.events, x) + One(x == Register(lease)) {
      CountSnoc(s.events, Register(lease), x);
    }
    hide Count, NoRegisterBehind;
    assert next.clients == s.clients && next.phase == s.phase;
    assert LeasesKept(next.leases, next.events, next.phase) by {
      hide ClientsKept, EventNamed;
    }
    assert ClientsKept(next.clients, next.leases, next.events, next.phase) by {
      hide LeasesKept, LeaseKept, EventNamed;
    }
    hide ClientsKept, LeasesKept;
  }

  lemma AttachKept(s: State, permitted: bool)
    requires Kept(s)
    ensures Kept(AcceptControl(s, permitted))
  {
    CountNone(s.events, Revoke(|s.leases|));
    CountNone(s.events, Register(|s.leases|));
    hide Count, NoRegisterBehind;
  }

  /** Taking the first event off leaves the counts of the others. */
  lemma CountsHead(events: seq<Event>)
    requires events != []
    ensures forall x :: Count(events, x) == Count(events[1..], x) + One(x == events[0])
  {
    forall x: Event ensures Count(events, x) == Count(events[1..], x) + One(x == events[0]) {
      CountHead(events, x);
    }
  }

  /** What is taken off the queue runs, so the counts of what is queued and what runs stay. */
  lemma LeasesPopped(leases: seq<Lease>, events: seq<Event>, next: Phase)
    requires LeasesKept(leases, events, Resting) && events != [] && !events[0].Revoke?
    requires next.Binding? ==> events[0] == Register(next.lease)
    ensures LeasesKept(leases, events[1..], next)
  {
    CountsHead(events);
    hide Count;
  }

  lemma ClientsPopped(clients: seq<Client>, leases: seq<Lease>, events: seq<Event>, next: Phase)
    requires ClientsKept(clients, leases, events, Resting) && events != []
    requires if events[0].CallOf? then next.Calling? && next.client == events[0].client else !next.Calling?
    ensures ClientsKept(clients, leases, events[1..], next)
  {
    CountsHead(events);
    hide Count;
  }

  lemma PopCallKept(s: State, cancelled: bool)
    requires Kept(s) && s.phase.Resting? && s.events != [] && s.events[0].CallOf?
    ensures Kept(Pop(s, cancelled))
  {
    var next := Pop(s, cancelled);
    NoRegisterTail(s.events);
    LeasesPopped(s.leases, s.events, next.phase);
    ClientsPopped(s.clients, s.leases, s.events, next.phase);
    hide NoRegisterBehind, LeasesKept, ClientsKept;
  }

  lemma PopRegisterKept(s: State, cancelled: bool)
    requires Kept(s) && s.phase.Resting? && s.events != [] && s.events[0].Register?
    ensures Kept(Pop(s, cancelled))
  {
    var next := Pop(s, cancelled);
    NoRegisterTail(s.events);
    LeasesPopped(s.leases, s.events, next.phase);
    ClientsPopped(s.clients, s.leases, s.events, next.phase);
    hide NoRegisterBehind, LeasesKept, ClientsKept;
  }

  lemma PopRevokeKept(s: State, cancelled: bool)
    requires Kept(s) && s.phase.Resting? && s.events != [] && s.events[0].Revoke?
    ensures Kept(Pop(s, cancelled))
  {
    var next := Pop(s, cancelled);
    NoRegisterTail(s.events);
    CountsHead(s.events);
    CountNone(next.events, Register(s.events[0].lease));
    hide Count, NoRegisterBehind;
    assert LeasesKept(next.leases, next.events, next.phase) by {
      hide ClientsKept, ClientKept;
    }
    assert ClientsKept(s.clients, next.leases, next.events, next.phase) by {
      hide LeasesKept, LeaseKept;
    }
    hide ClientsKept, LeasesKept;
  }

  lemma PopKept(s: State, cancelled: bool)
    requires Kept(s) && s.phase.Resting?
    ensures Kept(Pop(s, cancelled))
  {
    hide Kept;
    if s.events != [] {
      match s.events[0]
      case CallOf(_) => PopCallKept(s, cancelled);
      case Register(_) => PopRegisterKept(s, cancelled);
      case Revoke(_) => PopRevokeKept(s, cancelled);
    }
  }

  lemma FinishKept(s: State)
    requires Kept(s) && s.phase.Calling?
    ensures Kept(Finish(s, s.phase.client, s.phase.handled))
  {
    hide Count, NoRegisterBehind;
  }

  lemma BoundKept(s: State, bound: bool, sent: bool)
    requires Kept(s) && s.phase.Binding?
    ensures Kept(Bound(s, s.phase.lease, bound, sent))
  {
    var lease, rest := s.phase.lease, s.(phase := Resting);
    BindingFacts(s);
    UnbindKept(s);
    RevokeKept(rest, lease);
    ReadyKept(rest, lease, s.log + [Ready(lease)]);
    hide Kept, CloseAll, RunsUnder;
  }

  lemma UnbindKept(s: State)
    requires Kept(s) && s.phase.Binding?
    ensures Kept(s.(phase := Resting))
  {
    hide Count, NoRegisterBehind;
  }

  lemma ReadyKept(s: State, lease: nat, log: seq<Note>)
    requires Kept(s) && lease < |s.leases| && s.leases[lease].registered
    ensures Kept(s.(log := log))
    ensures !s.leases[lease].revoked ==>
      Kept(s.(log := log, leases := s.leases[lease := s.leases[lease].(listening := true)]))
  {
    hide Count, NoRegisterBehind;
  }

  lemma IdleKept(s: State, lease: nat, now: int)
    requires Kept(s) && lease < |s.leases|
    ensures Kept(CheckIdle(s, lease, now))
  {
    var l := s.leases[lease];
    RevokeKept(s, lease);
    IdleSinceKept(s, lease, None);
    IdleSinceKept(s, lease, Some(now));
  }

  lemma IdleSinceKept(s: State, lease: nat, since: Option<int>)
    requires Kept(s) && lease < |s.leases|
    ensures Kept(s.(leases := s.leases[lease := s.leases[lease].(idleSince := since)]))
  {
    hide Count, NoRegisterBehind;
  }

  lemma CollectKept(s: State)
    requires Kept(s) && s.phase.Resting?
    ensures Kept(Collect(s))
  {
    hide Count, NoRegisterBehind;
  }

  lemma KeptNamed(s: State)
    requires Kept(s)
    ensures Named(s)
  {
    hide Named, ClientsKept, LeasesKept, NoRegisterBehind;
  }

  lemma CancelKept(s: State)
    requires Kept(s)
    ensures Kept(s.(cancelled := true))
  {
    hide ClientsKept, LeasesKept, NoRegisterBehind;
  }

  lemma StepKept(s: State, input: Input)
    requires Kept(s)
    ensures Kept(Step(s, input))
  {
    hide *;
    KeptNamed(s);
    match input
    case Take(cancelled) => TakeKept(s, cancelled);
    case Return => ReturnKept(s);
    case Bind(bound, sent) => BindKept(s, bound, sent);
    case _ => CallbackKept(s, input);
  }

  lemma TakeKept(s: State, cancelled: bool)
    requires Kept(s) && Named(s)
    ensures Kept(Step(s, Take(cancelled)))
  {
    hide Kept, Named, Pop;
    if s.phase.Resting? {
      PopKept(s, cancelled);
    }
  }

  lemma ReturnKept(s: State)
    requires Kept(s) && Named(s)
    ensures Kept(Step(s, Return))
  {
    hide Kept, Finish;
    if s.phase.Calling? {
      FinishKept(s);
    }
  }

  lemma BindKept(s: State, bound: bool, sent: bool)
    requires Kept(s) && Named(s)
    ensures Kept(Step(s, Bind(bound, sent)))
  {
    hide Kept, Bound;
    if s.phase.Binding? {
      BoundKept(s, bound, sent);
    }
  }

  lemma CallbackKept(s: State, input: Input)
    requires Kept(s) && Named(s) && !input.Take? && !input.Return? && !input.Bind?
    ensures Kept(Step(s, input))
  {
    hide Accept, AcceptControl, CheckIdle, CloseClient, Collect, Current, Kept, Named, QueueCall, ReadControl;
    match input
    case Connect(lease, permitted) =>
      if lease < |s.leases| && s.leases[lease].listening {
        AcceptKept(s, lease, permitted);
      }
    case Line(client) =>
      if client < |s.clients| && !s.clients[client].closed {
        QueueKept(s, client);
      }
    case CancelNotice(client) => CancelKept(s);
    case Drop(client) =>
      if client < |s.clients| {
        CloseKept(s, client);
      }
    case OnControl(lease, control) =>
      if lease < |s.leases| && s.leases[lease].source {
        ControlKept(s, lease, control);
      }
    case Attach(permitted) => AttachKept(s, permitted);
    case Idle(lease, now) =>
      if lease < |s.leases| {
        IdleKept(s, lease, now);
      }
    case Sweep =>
      if s.phase.Resting? {
        CollectKept(s);
      }
  }

  // ---- Limits ----

  lemma {:induction false} OpenLess(clients: seq<Client>, later: seq<Client>)
    requires |clients| == |later| && forall c :: 0 <= c < |clients| && clients[c].closed ==> later[c].closed
    ensures OpenCount(later) <= OpenCount(clients)
  {
    if clients != [] {
      OpenLess(clients[..|clients| - 1], later[..|clients| - 1]);
    }
  }

  lemma {:induction false} LiveLess(leases: seq<Lease>, later: seq<Lease>)
    requires |leases| == |later| && forall l :: 0 <= l < |leases| && leases[l].freed ==> later[l].freed
    ensures LiveCount(later) <= LiveCount(leases)
  {
    if leases != [] {
      LiveLess(leases[..|leases| - 1], later[..|leases| - 1]);
    }
  }

  lemma {:induction false} CallsSnoc(events: seq<Event>, event: Event)
    ensures Calls(events + [event]) == Calls(events) + One(event.CallOf?) <= |events| + 1
  {
    if events != [] {
      assert (events + [event])[1..] == events[1..] + [event];
      CallsSnoc(events[1..], event);
    }
  }

  /** What a step does to the counts, except where it adds. */
  lemma BoundedLater(s: State, next: State)
    requires Bounded(s) && |next.clients| == |s.clients| && |next.leases| == |s.leases|
    requires forall c :: 0 <= c < |s.clients| && s.clients[c].closed ==> next.clients[c].closed
    requires forall l :: 0 <= l < |s.leases| && s.leases[l].freed ==> next.leases[l].freed
    requires next.events == s.events || (s.events != [] && next.events == s.events[1..])
             || exists e: Event :: next.events == s.events + [e] && (e.CallOf? ==> |s.events| < MAX_PENDING)
    ensures Bounded(next)
  {
    OpenLess(s.clients, next.clients);
    LiveLess(s.leases, next.leases);
    if next.events != s.events && !(s.events != [] && next.events == s.events[1..]) {
      var e: Event :| next.events == s.events + [e] && (e.CallOf? ==> |s.events| < MAX_PENDING);
      CallsSnoc(s.events, e);
    }
  }

  lemma RevokeBounded(s: State, lease: nat)
    requires Bounded(s) && lease < |s.leases|
    ensures Bounded(RevokeLease(s, lease))
  {
    var next := RevokeLease(s, lease);
    hide Bounded;
    if !s.leases[lease].revoked {
      assert next.events == s.events + [Revoke(lease)];
      BoundedLater(s, next);
    }
  }

  lemma CloseBounded(s: State, client: nat)
    requires Bounded(s) && client < |s.clients|
    ensures Bounded(CloseClient(s, client))
  {
    hide Bounded;
    BoundedLater(s, CloseClient(s, client));
  }

  lemma QueueBounded(s: State, client: nat)
    requires Bounded(s) && client < |s.clients|
    ensures Bounded(QueueCall(s, client))
  {
    hide Bounded;
    if |s.events| < MAX_PENDING {
      assert QueueCall(s, client).events == s.events + [CallOf(client)];
      BoundedLater(s, QueueCall(s, client));
    } else {
      CloseBounded(s, client);
    }
  }

  lemma AcceptBounded(s: State, lease: nat, permitted: bool)
    requires Bounded(s) && lease < |s.leases|
    ensures Bounded(Accept(s, lease, permitted))
  {
    var next := Accept(s, lease, permitted);
    LiveLess(s.leases, next.leases);
    if next.clients != s.clients {
      assert next.clients[..|s.clients|] == s.clients;
    }
  }

  lemma AttachBounded(s: State, permitted: bool)
    requires Bounded(s)
    ensures Bounded(AcceptControl(s, permitted))
  {
    var next := AcceptControl(s, permitted);
    if next.leases != s.leases {
      assert next.leases[..|s.leases|] == s.leases;
    }
  }

  lemma ControlBounded(s: State, lease: nat, control: Control)
    requires Bounded(s) && lease < |s.leases|
    ensures Bounded(ReadControl(s, lease, control))
  {
    hide Bounded;
    RevokeBounded(s, lease);
    if control == Valid && !s.leases[lease].registered {
      assert ReadControl(s, lease, control).events == s.events + [Register(lease)];
      BoundedLater(s, ReadControl(s, lease, control));
    }
  }

  lemma BoundBounded(s: State, lease: nat, bound: bool, sent: bool)
    requires Bounded(s) && lease < |s.leases|
    ensures Bounded(Bound(s, lease, bound, sent))
  {
    var rest := s.(phase := Resting);
    assert Bounded(rest);
    RevokeBounded(rest, lease);
    var replied := if bound && sent then rest.(log := s.log + [Ready(lease)]) else RevokeLease(rest, lease);
    assert Bounded(replied);
    hide Bounded;
    if bound && !replied.leases[lease].revoked {
      BoundedLater(replied, Bound(s, lease, bound, sent));
    }
  }

  lemma StepBounded(s: State, input: Input)
    requires Named(s) && Bounded(s)
    ensures Bounded(Step(s, input))
  {
    hide Bounded, Bound, CloseAll;
    match input
    case Connect(lease, permitted) =>
      if lease < |s.leases| {
        AcceptBounded(s, lease, permitted);
      }
    case Line(client) =>
      if client < |s.clients| {
        QueueBounded(s, client);
      }
    case CancelNotice(client) =>
      BoundedLater(s, Step(s, input));
    case Drop(client) =>
      if client < |s.clients| {
        CloseBounded(s, client);
      }
    case OnControl(lease, control) =>
      if lease < |s.leases| {
        ControlBounded(s, lease, control);
      }
    case Attach(permitted) => AttachBounded(s, permitted);
    case Take(cancelled) =>
      BoundedLater(s, Pop(s, cancelled));
    case Return =>
      if s.phase.Calling? {
        BoundedLater(s, Step(s, input));
      }
    case Bind(bound, sent) =>
      if s.phase.Binding? {
        BoundBounded(s, s.phase.lease, bound, sent);
      }
    case Idle(lease, now) =>
      if lease < |s.leases| {
        RevokeBounded(s, lease);
        if CheckIdle(s, lease, now) != RevokeLease(s, lease) {
          hide Connected, RevokeLease;
          BoundedLater(s, CheckIdle(s, lease, now));
        }
      }
    case Sweep =>
      BoundedLater(s, Collect(s));
  }

  // ---- What the log shows ----

  ghost predicate SameOwners(clients: seq<Client>, later: seq<Client>) {
    |clients| <= |later| && forall c :: 0 <= c < |clients| ==> later[c].lease == clients[c].lease
  }

  ghost predicate SameReleases(leases: seq<Lease>, later: seq<Lease>) {
    && |leases| <= |later|
    && (forall l :: 0 <= l < |leases| ==>
          later[l].acknowledged == leases[l].acknowledged && later[l].control == leases[l].control)
    && (forall l :: |leases| <= l < |later| ==> !later[l].acknowledged)
  }

  lemma HistoryLater(log: seq<Note>, clients: seq<Client>, leases: seq<Lease>, phase: Phase, later: seq<Client>,
                     laterLeases: seq<Lease>)
    requires History(log, clients, leases, phase) && SameOwners(clients, later) && SameReleases(leases, laterLeases)
    ensures History(log, later, laterLeases, phase)
  {
    hide Alone, Running;
    forall i, j | 0 <= i < j < |log| && log[i].Released? ensures !Concerns(log[j], log[i].lease, later) {
      assert !Concerns(log[j], log[i].lease, clients);
    }
  }

  lemma RunningSnoc(log: seq<Note>, note: Note)
    ensures Running(log + [note]) ==
            match note
            case Handled(client) => Some(client)
            case Returned(_) => None
            case _ => Running(log)
  {
    assert (log + [note])[..|log|] == log;
  }

  lemma AloneSnoc(log: seq<Note>, note: Note)
    requires Alone(log)
    requires if note.Returned? then Running(log) == Some(note.client) else Running(log).None?
    ensures Alone(log + [note])
  {
    var longer := log + [note];
    forall i | 0 <= i < |longer|
      ensures match longer[i]
              case Handled(_) => Running(longer[..i]).None?
              case Returned(client) => Running(longer[..i]) == Some(client)
              case Ready(_) => Running(longer[..i]).None?
              case Released(_) => Running(longer[..i]).None?
    {
      assert longer[..i] == if i < |log| then log[..i] else log;
    }
  }

  lemma FinalSnoc(log: seq<Note>, clients: seq<Client>, note: Note)
    requires Final(log, clients)
    requires forall i :: 0 <= i < |log| && log[i].Released? ==> !Concerns(note, log[i].lease, clients)
    ensures Final(log + [note], clients)
  {
  }

  ghost predicate Good(s: State) {
    Kept(s) && Bounded(s) && History(s.log, s.clients, s.leases, s.phase)
  }

  ghost predicate Quiet(s: State, next: State) {
    && next.log == s.log && next.phase == s.phase
    && SameOwners(s.clients, next.clients) && SameReleases(s.leases, next.leases)
  }

  lemma RevokeQuiet(s: State, lease: nat)
    requires lease < |s.leases|
    ensures Quiet(s, RevokeLease(s, lease))
  {
  }

  lemma CallbackQuiet(s: State, input: Input)
    requires Named(s) && !input.Take? && !input.Return? && !input.Bind?
    ensures Quiet(s, Step(s, input))
  {
    assert Quiet(s, s);
    hide Named, OpenCount, LiveCount, RunsUnder, EventNamed, Connected, Referenced, CloseAll;
    match input
    case OnControl(lease, _) =>
      if lease < |s.leases| {
        RevokeQuiet(s, lease);
        hide RevokeLease;
      }
    case Idle(lease, _) =>
      if lease < |s.leases| {
        RevokeQuiet(s, lease);
        hide RevokeLease;
      }
    case _ =>
  }

  /** A note about a lease that was not released leaves the history as it should be. */
  lemma Noted(log: seq<Note>, clients: seq<Client>, leases: seq<Lease>, note: Note)
    requires History(log, clients, leases, Resting) && !note.Returned?
    requires forall l :: 0 <= l < |leases| && leases[l].acknowledged ==> !Concerns(note, l, clients)
    ensures Alone(log + [note]) && Final(log + [note], clients)
    ensures Running(log + [note]) == if note.Handled? then Some(note.client) else None
    ensures forall l :: Released(l) in log + [note] <==> Released(l) in log || note == Released(l)
  {
    RunningSnoc(log, note);
    AloneSnoc(log, note);
    hide Alone, Running, Concerns;
    forall i | 0 <= i < |log| && log[i].Released? ensures !Concerns(note, log[i].lease, clients) {
      assert log[i] == Released(log[i].lease) && log[i] in log;
    }
    FinalSnoc(log, clients, note);
  }

  lemma HandledNoted(log: seq<Note>, clients: seq<Client>, leases: seq<Lease>, client: nat)
    requires History(log, clients, leases, Resting) && Unreleased(client, clients, leases)
    ensures History(log + [Handled(client)], clients, leases, Calling(client, true))
  {
    hide Alone, Running, Final;
    Noted(log, clients, leases, Handled(client));
    hide Concerns;
  }

  lemma ReadyNoted(log: seq<Note>, clients: seq<Client>, leases: seq<Lease>, lease: nat)
    requires History(log, clients, leases, Resting) && lease < |leases| && !leases[lease].acknowledged
    ensures History(log + [Ready(lease)], clients, leases, Resting)
  {
    hide Alone, Running, Final;
    Noted(log, clients, leases, Ready(lease));
    hide Concerns;
  }

  lemma ReleaseNoted(log: seq<Note>, clients: seq<Client>, leases: seq<Lease>, lease: nat)
    requires History(log, clients, leases, Resting) && lease < |leases| && !leases[lease].acknowledged
    ensures var later := leases[lease := leases[lease].(acknowledged := true)];
      if leases[lease].control then History(log + [Released(lease)], clients, later, Resting)
      else History(log, clients, later, Resting)
  {
    hide Alone, Running, Final;
    if leases[lease].control {
      Noted(log, clients, leases, Released(lease));
    }
    hide Concerns;
  }

  /** The event at the head names what exists; an open client's lease is not released, nor one with a REVOKE queued. */
  lemma HeadFacts(s: State)
    requires Kept(s) && s.events != []
    ensures EventNamed(s.events[0], |s.clients|, |s.leases|)
    ensures s.events[0].CallOf? && !s.clients[s.events[0].client].closed ==>
      Unreleased(s.events[0].client, s.clients, s.leases)
    ensures s.events[0].Revoke? ==> !s.leases[s.events[0].lease].acknowledged
  {
    CountNone(s.events, s.events[0]);
    hide NoRegisterBehind, Count;
    assert EventNamed(s.events[0], |s.clients|, |s.leases|);
    if s.events[0].CallOf? {
      var lease := s.clients[s.events[0].client].lease;
      assert LeaseKept(s.leases[lease], Count(s.events, Revoke(lease)), Count(s.events, Register(lease)),
                       s.phase == Binding(lease));
    }
  }

  lemma CallTaken(s: State, cancelled: bool)
    requires Good(s) && s.phase.Resting? && s.events != [] && s.events[0].CallOf?
    ensures var next := Pop(s, cancelled); History(next.log, next.clients, next.leases, next.phase)
  {
    var client := s.events[0].client;
    HeadFacts(s);
    assert Named(s);
    if !s.clients[client].closed {
      HandledNoted(s.log, s.clients, s.leases, client);
    }
    hide Kept, Bounded, Named, Alone, Running, Final;
  }

  lemma ReleaseTaken(s: State, cancelled: bool)
    requires Good(s) && s.phase.Resting? && s.events != [] && s.events[0].Revoke?
    ensures var next := Pop(s, cancelled); History(next.log, next.clients, next.leases, next.phase)
  {
    HeadFacts(s);
    assert Named(s);
    ReleaseNoted(s.log, s.clients, s.leases, s.events[0].lease);
    hide Kept, Bounded, Named, History;
  }

  lemma RegisterTaken(s: State, cancelled: bool)
    requires Good(s) && s.phase.Resting? && (s.events == [] || s.events[0].Register?)
    ensures var next := Pop(s, cancelled); History(next.log, next.clients, next.leases, next.phase)
  {
  }

  lemma FinishHistory(s: State)
    requires Good(s) && s.phase.Calling?
    ensures var next := Finish(s, s.phase.client, s.phase.handled);
      History(next.log, next.clients, next.leases, next.phase)
  {
    hide Bounded;
    var client := s.phase.client;
    var next := Finish(s, client, s.phase.handled);
    if s.phase.handled {
      RunningSnoc(s.log, Returned(client));
      AloneSnoc(s.log, Returned(client));
      hide Alone, Running;
      FinalSnoc(s.log, s.clients, Returned(client));
      assert History(next.log, s.clients, s.leases, Resting);
    } else {
      assert History(next.log, s.clients, s.leases, Resting);
    }
    HistoryLater(next.log, s.clients, s.leases, Resting, next.clients, next.leases);
  }

  lemma BoundHistory(s: State, bound: bool, sent: bool)
    requires Good(s) && s.phase.Binding?
    ensures var next := Bound(s, s.phase.lease, bound, sent);
      History(next.log, next.clients, next.leases, next.phase)
  {
    hide *;
    var lease := s.phase.lease;
    HistoryUnbound(s);
    BindingFacts(s);
    var next := Bound(s, lease, bound, sent);
    BoundQuiet(s, lease, bound, sent);
    if bound && sent {
      ReadyNoted(s.log, s.clients, s.leases, lease);
    }
    HistoryLater(next.log, s.clients, s.leases, Resting, next.clients, next.leases);
  }

  lemma HistoryUnbound(s: State)
    requires Good(s) && s.phase.Binding?
    ensures Kept(s) && History(s.log, s.clients, s.leases, Resting)
  {
    hide Kept, Bounded, Alone, Running, Final;
  }

  lemma BindingFacts(s: State)
    requires Kept(s) && s.phase.Binding?
    ensures s.phase.lease < |s.leases|
    ensures !s.leases[s.phase.lease].acknowledged && s.leases[s.phase.lease].registered
  {
    hide NoRegisterBehind, Count, ClientsKept;
  }

  lemma BoundQuiet(s: State, lease: nat, bound: bool, sent: bool)
    requires lease < |s.leases|
    ensures var next := Bound(s, lease, bound, sent);
      && next.phase == Resting && next.log == (if bound && sent then s.log + [Ready(lease)] else s.log)
      && SameOwners(s.clients, next.clients) && SameReleases(s.leases, next.leases)
  {
    RevokeQuiet(s.(phase := Resting), lease);
    hide RevokeLease;
  }

  lemma StepGood(s: State, input: Input)
    requires Good(s)
    ensures Good(Step(s, input))
  {
    hide *;
    GoodParts(s);
    StepKept(s, input);
    StepBounded(s, input);
    StepHistory(s, input);
    PartsGood(Step(s, input));
  }

  lemma GoodParts(s: State)
    requires Good(s)
    ensures Named(s) && Kept(s) && Bounded(s) && History(s.log, s.clients, s.leases, s.phase)
  {
    hide Named, Bounded, History;
  }

  lemma PartsGood(s: State)
    requires Kept(s) && Bounded(s) && History(s.log, s.clients, s.leases, s.phase)
    ensures Good(s)
  {
    hide Kept, Bounded, History;
  }

  lemma StepHistory(s: State, input: Input)
    requires Good(s) && Named(s)
    ensures var next := Step(s, input); History(next.log, next.clients, next.leases, next.phase)
  {
    hide Accept, AcceptControl, Bound, Bounded, CheckIdle, CloseClient, Collect, Current, Finish, History, Kept,
         Named, Pop, QueueCall, ReadControl, SameOwners, SameReleases;
    if input.Take? && s.phase.Resting? {
      if s.events == [] || s.events[0].Register? {
        RegisterTaken(s, input.cancelled);
      } else if s.events[0].CallOf? {
        CallTaken(s, input.cancelled);
      } else {
        ReleaseTaken(s, input.cancelled);
      }
    } else if input.Return? && s.phase.Calling? {
      FinishHistory(s);
    } else if input.Bind? && s.phase.Binding? {
      BoundHistory(s, input.bound, input.sent);
    } else if !input.Take? && !input.Return? && !input.Bind? {
      CallbackQuiet(s, input);
      HistoryLater(s.log, s.clients, s.leases, s.phase, Step(s, input).clients, Step(s, input).leases);
    }
  }

  // ---- Runs ----

  /** The state after a run, from a start with or without a test socket. */
  ghost function Run(test: bool, inputs: seq<Input>): (s: State)
    ensures Good(s)
  {
    hide *;
    if inputs == [] then
      InitialGood(test);
      Initial(test)
    else
      var before := Run(test, inputs[..|inputs| - 1]);
      GoodParts(before);
      StepGood(before, inputs[|inputs| - 1]);
      Step(before, inputs[|inputs| - 1])
  }

  lemma InitialGood(test: bool)
    ensures Good(Initial(test))
  {
  }

  lemma RunSnoc(test: bool, inputs: seq<Input>, input: Input)
    ensures Named(Run(test, inputs)) && Run(test, inputs + [input]) == Step(Run(test, inputs), input)
  {
    assert (inputs + [input])[..|inputs|] == inputs;
  }

  /** When `released` is sent no call runs at all, and from then on no call of a client of that lease is handled, nor
      is the lease made ready or released again. */
  lemma ReleaseIsFinal(test: bool, inputs: seq<Input>, i: nat, j: nat)
    requires i < j < |Run(test, inputs).log| && Run(test, inputs).log[i].Released?
    ensures var s := Run(test, inputs);
      && Running(s.log[..i]).None?
      && !Concerns(s.log[j], s.log[i].lease, s.clients)
  {
    var s := Run(test, inputs);
  }

  /** Calls never nest: one is handled only when none runs, and what returns is what was handled. */
  lemma CallsDoNotNest(test: bool, inputs: seq<Input>, i: nat)
    requires i < |Run(test, inputs).log|
    ensures var s := Run(test, inputs);
      && (s.log[i].Handled? ==> Running(s.log[..i]).None?)
      && (s.log[i].Returned? ==> Running(s.log[..i]) == Some(s.log[i].client))
  {
    var s := Run(test, inputs);
  }

  /** Nothing that can still be reached was given back: what an event names, what the thread is inside of, the owner of
      an installed callback, and the lease of a client that is still there. */
  ghost predicate Alive(s: State)
    requires Named(s)
  {
    && (forall e :: 0 <= e < |s.events| ==>
          match s.events[e]
          case CallOf(client) => !s.clients[client].freed
          case Register(lease) => !s.leases[lease].freed
          case Revoke(lease) => !s.leases[lease].freed)
    && (s.phase.Calling? ==> !s.clients[s.phase.client].freed)
    && (s.phase.Binding? ==> !s.leases[s.phase.lease].freed)
    && (forall c :: 0 <= c < |s.clients| ==>
          && (!s.clients[c].closed ==> !s.clients[c].freed)
          && (!s.clients[c].freed ==> !s.leases[s.clients[c].lease].freed))
    && (forall l :: 0 <= l < |s.leases| && (s.leases[l].source || s.leases[l].listening) ==> !s.leases[l].freed)
  }

  lemma ReachedIsAlive(test: bool, inputs: seq<Input>)
    ensures Named(Run(test, inputs)) && Alive(Run(test, inputs))
  {
    KeptAlive(Run(test, inputs));
  }

  lemma KeptAlive(s: State)
    requires Kept(s)
    ensures Named(s) && Alive(s)
  {
    forall x: Event ensures Count(s.events, x) > 0 <==> x in s.events {
      CountNone(s.events, x);
    }
    forall e | 0 <= e < |s.events|
      ensures match s.events[e]
              case CallOf(client) => !s.clients[client].freed
              case Register(lease) => !s.leases[lease].freed
              case Revoke(lease) => !s.leases[lease].freed
    {
      assert s.events[e] in s.events && EventNamed(s.events[e], |s.clients|, |s.leases|);
    }
  }

  /** A lease has one REVOKE once it is revoked, queued or acknowledged, and no REGISTER behind it. */
  lemma OneRevokeAfterRegister(test: bool, inputs: seq<Input>, lease: nat)
    requires lease < |Run(test, inputs).leases|
    ensures var s := Run(test, inputs);
      && Count(s.events, Revoke(lease)) + One(s.leases[lease].acknowledged) == One(s.leases[lease].revoked)
      && Count(s.events, Register(lease)) <= 1
      && (s.leases[lease].acknowledged ==> Register(lease) !in s.events)
      && forall i, j :: 0 <= i < j < |s.events| && s.events[i] == Revoke(lease) ==> s.events[j] != Register(lease)
  {
    var s := Run(test, inputs);
    CountNone(s.events, Register(lease));
  }

  /** A client's `pending` is its queued calls and the one being run. */
  lemma PendingIsQueued(test: bool, inputs: seq<Input>, client: nat)
    requires client < |Run(test, inputs).clients|
    ensures var s := Run(test, inputs);
      s.clients[client].pending == Count(s.events, CallOf(client)) + One(Current(s.phase, client))
  {
    var s := Run(test, inputs);
  }

  /** The limits, and a call whose client went away is cancelled. */
  lemma LimitsHold(test: bool, inputs: seq<Input>)
    ensures var s := Run(test, inputs);
      && OpenCount(s.clients) <= 32 && LiveCount(s.leases) <= 64 && Calls(s.events) <= 64
      && Named(s) && (s.phase.Calling? && s.phase.handled && s.clients[s.phase.client].closed ==> s.cancelled)
  {
    var s := Run(test, inputs);
  }

  // ---- Which calls are handled ----

  /** What the log says of calls. */
  function CallNotes(log: seq<Note>): seq<Note> {
    if log == [] then []
    else
      CallNotes(log[..|log| - 1])
      + if log[|log| - 1].Handled? || log[|log| - 1].Returned? then [log[|log| - 1]] else []
  }

  lemma CallNotesSnoc(log: seq<Note>, note: Note)
    ensures CallNotes(log + [note]) == CallNotes(log) + if note.Handled? || note.Returned? then [note] else []
  {
    assert (log + [note])[..|log|] == log;
  }

  /** The call that runs is the one handled last, if it did not return. */
  lemma {:induction false} RunningIsLast(log: seq<Note>)
    ensures var made := CallNotes(log);
      Running(log) == if made != [] && made[|made| - 1].Handled? then Some(made[|made| - 1].client) else None
  {
    if log != [] {
      RunningIsLast(log[..|log| - 1]);
    }
  }

  /** A call is handled when it is taken off the queue while its client is open, and returns when what was handled last
      does. */
  function CallNote(s: State, input: Input, made: seq<Note>): seq<Note> {
    match input
    case Take(_) =>
      if s.phase.Resting? && s.events != [] && s.events[0].CallOf? && s.events[0].client < |s.clients|
         && !s.clients[s.events[0].client].closed
      then [Handled(s.events[0].client)] else []
    case Return =>
      if s.phase.Calling? && made != [] && made[|made| - 1].Handled? then [Returned(made[|made| - 1].client)] else []
    case _ => []
  }

  ghost function CallsMade(test: bool, inputs: seq<Input>): seq<Note> {
    if inputs == [] then []
    else
      var before := inputs[..|inputs| - 1];
      CallsMade(test, before) + CallNote(Run(test, before), inputs[|inputs| - 1], CallsMade(test, before))
  }

  lemma NoteOf(s: State, input: Input)
    requires Good(s) && Named(s)
    ensures var log := Step(s, input).log;
      var note := CallNote(s, input, CallNotes(s.log));
      log == s.log + note || (note == [] && exists more: Note :: !more.Handled? && !more.Returned? && log == s.log + [more])
  {
    hide *;
    match input
    case Take(cancelled) => TakeNote(s, cancelled);
    case Return => ReturnNote(s);
    case Bind(bound, sent) => BindNote(s, bound, sent);
    case _ =>
      CallbackQuiet(s, input);
      NoCallNote(s, input);
  }

  lemma NoCallNote(s: State, input: Input)
    requires !input.Take? && !input.Return?
    ensures CallNote(s, input, CallNotes(s.log)) == [] && s.log + [] == s.log
    ensures forall next: State :: Quiet(s, next) ==> next.log == s.log
  {
  }

  lemma TakeNote(s: State, cancelled: bool)
    requires Named(s)
    ensures var log, note := Step(s, Take(cancelled)).log, CallNote(s, Take(cancelled), CallNotes(s.log));
      log == s.log + note || (note == [] && exists more: Note :: !more.Handled? && !more.Returned? && log == s.log + [more])
  {
    hide CallNotes;
    assert s.log + [] == s.log;
    var log := Step(s, Take(cancelled)).log;
    if |log| > |s.log| {
      assert log == s.log + [log[|s.log|]];
    }
  }

  lemma ReturnNote(s: State)
    requires Good(s) && Named(s)
    ensures Step(s, Return).log == s.log + CallNote(s, Return, CallNotes(s.log))
  {
    hide CallNotes, EventNamed, Kept, Bounded, Alone, Final, Running;
    assert s.log + [] == s.log;
    RunningIsLast(s.log);
  }

  lemma BindNote(s: State, bound: bool, sent: bool)
    requires Named(s)
    ensures var log, note := Step(s, Bind(bound, sent)).log, CallNote(s, Bind(bound, sent), CallNotes(s.log));
      note == [] && (log == s.log || exists more: Note :: !more.Handled? && !more.Returned? && log == s.log + [more])
    ensures s.log + [] == s.log
  {
    hide CallNotes, EventNamed, Bound;
    if s.phase.Binding? {
      BoundQuiet(s, s.phase.lease, bound, sent);
    }
  }

  lemma CallNotesStep(s: State, input: Input)
    requires Good(s) && Named(s)
    ensures CallNotes(Step(s, input).log) == CallNotes(s.log) + CallNote(s, input, CallNotes(s.log))
  {
    hide Good, Named, Step, CallNotes;
    NoteOf(s, input);
    var log, note := Step(s, input).log, CallNote(s, input, CallNotes(s.log));
    assert CallNotes(s.log) + [] == CallNotes(s.log) && s.log + [] == s.log;
    if note != [] {
      CallNotesSnoc(s.log, note[0]);
    } else if log != s.log {
      var more: Note :| !more.Handled? && !more.Returned? && log == s.log + [more];
      CallNotesSnoc(s.log, more);
    }
  }

  /** In every run exactly the calls whose clients were open when they were taken off the queue were handled, in the order
      of the queue, and each of them returned before the next. */
  lemma {:induction false} OpenCallsAreHandled(test: bool, inputs: seq<Input>)
    ensures CallNotes(Run(test, inputs).log) == CallsMade(test, inputs)
  {
    hide Run, Step, CallNote, Good, Named;
    if inputs == [] {
      NothingLogged(test);
    } else {
      var before, input := inputs[..|inputs| - 1], inputs[|inputs| - 1];
      OpenCallsAreHandled(test, before);
      RunSnoc(test, before, input);
      CallNotesStep(Run(test, before), input);
      assert inputs == before + [input];
    }
  }

  lemma NothingLogged(test: bool)
    ensures CallNotes(Run(test, []).log) == []
  {
    hide Good;
  }

  /** With a test socket there is a lease that listens from the start, and its first client is served. */
  lemma TestSocketServes()
    ensures Run(true, [Connect(0, true), Line(0), Take(false), Return]).log == [Handled(0), Returned(0)]
    ensures Run(false, []).leases == []
  {
    hide Run, Good;
    var inputs := [Connect(0, true), Line(0), Take(false), Return];
    StartsAt(true);
    StartsAt(false);
    assert [] + [inputs[0]] == [inputs[0]] && [inputs[0]] + [inputs[1]] == [inputs[0], inputs[1]];
    assert [inputs[0], inputs[1]] + [inputs[2]] + [inputs[3]] == inputs;
    RunSnoc(true, [], inputs[0]);
    RunSnoc(true, [inputs[0]], inputs[1]);
    RunSnoc(true, [inputs[0], inputs[1]], inputs[2]);
    RunSnoc(true, [inputs[0], inputs[1]] + [inputs[2]], inputs[3]);
    FirstIsServed();
  }

  lemma StartsAt(test: bool)
    ensures Run(test, []) == Initial(test)
  {
    hide Good;
  }

  lemma FirstIsServed()
    ensures var s0 := Initial(true);
      && Named(s0)
      && (var s1 := Step(s0, Connect(0, true));
          && Named(s1)
          && (var s2 := Step(s1, Line(0));
              && Named(s2)
              && (var s3 := Step(s2, Take(false));
                  Named(s3) && Step(s3, Return).log == [Handled(0), Returned(0)])))
  {
  }

  // ---- What each step does ----

  /** What a revocation does to each client and lease. */
  lemma RevokeIs(s: State, lease: nat)
    requires lease < |s.leases|
    ensures RevocationIs(s, lease)
  {
    hide RunsUnder, ClosedUnder;
  }

  /** The same for the lease that a step may revoke. */
  lemma StepRevokeIs(s: State, input: Input)
    requires Named(s)
    ensures input.OnControl? && input.lease < |s.leases| ==> RevocationIs(s, input.lease)
    ensures input.Idle? && input.lease < |s.leases| ==> RevocationIs(s, input.lease)
    ensures s.phase.Binding? ==> s.phase.lease < |s.leases| && RevocationIs(s.(phase := Resting), s.phase.lease)
  {
    hide RevokeLease, EventNamed, ClosedUnder;
    if input.OnControl? && input.lease < |s.leases| {
      RevokeIs(s, input.lease);
    }
    if input.Idle? && input.lease < |s.leases| {
      RevokeIs(s, input.lease);
    }
    if s.phase.Binding? {
      RevokeIs(s.(phase := Resting), s.phase.lease);
    }
  }

  ghost predicate RevocationIs(s: State, lease: nat)
    requires lease < |s.leases|
  {
    var next, revoked := RevokeLease(s, lease), s.leases[lease].revoked;
    && |next.clients| == |s.clients| && |next.leases| == |s.leases| && next.phase == s.phase && next.log == s.log
    && next.events == (if revoked then s.events else s.events + [Revoke(lease)])
    && (forall c :: 0 <= c < |s.clients| ==>
          next.clients[c] == if revoked then s.clients[c] else ClosedUnder(s.clients[c], lease))
    && forall l :: 0 <= l < |s.leases| ==>
         next.leases[l] == if l != lease || revoked then s.leases[l]
                           else s.leases[l].(revoked := true, listening := false, source := false)
  }

  /** The lease that a step revokes: its controller sent something else than one registration, or went away; it could not
      be bound, or its controller not be told; or nobody used it for two seconds. */
  function Revokes(s: State, input: Input): Option<nat> {
    match input
    case OnControl(lease, control) =>
      if lease < |s.leases| && s.leases[lease].source && !s.leases[lease].revoked
         && (control.Other? || (control.Valid? && s.leases[lease].registered))
      then Some(lease) else None
    case Bind(bound, sent) =>
      if s.phase.Binding? && s.phase.lease < |s.leases| && !s.leases[s.phase.lease].revoked && !(bound && sent)
      then Some(s.phase.lease) else None
    case Idle(lease, now) =>
      if s.phase.Resting? && lease < |s.leases| && IsIdle(s, lease, now) then Some(lease) else None
    case _ => None
  }

  predicate IsIdle(s: State, lease: nat, now: int)
    requires lease < |s.leases|
  {
    var l := s.leases[lease];
    && !l.freed && l.control && l.used && !l.revoked && l.idleSince.Some? && now - l.idleSince.value >= 2_000_000
    && forall c :: 0 <= c < |s.clients| ==> s.clients[c].lease != lease || s.clients[c].closed
  }

  function RevokeEvents(lease: Option<nat>): seq<Event> {
    if lease.Some? then [Revoke(lease.value)] else []
  }

  /** What joins the queue. */
  function NewEvents(s: State, input: Input): seq<Event> {
    match input
    case Line(client) =>
      if client < |s.clients| && !s.clients[client].closed && |s.events| < 64 then [CallOf(client)] else []
    case OnControl(lease, Valid) =>
      if lease < |s.leases| && s.leases[lease].source && !s.leases[lease].registered then [Register(lease)]
      else RevokeEvents(Revokes(s, input))
    case _ => RevokeEvents(Revokes(s, input))
  }

  predicate Takes(s: State, input: Input, event: Event) {
    input.Take? && s.phase.Resting? && s.events != [] && s.events[0] == event
  }

  /** What the inputs that may revoke a lease come to. */
  lemma ControlIs(s: State, lease: nat, control: Control)
    requires Named(s)
    ensures Step(s, OnControl(lease, control)) ==
            if Revokes(s, OnControl(lease, control)) == Some(lease) then RevokeLease(s, lease)
            else if lease < |s.leases| && s.leases[lease].source && control.Valid? && !s.leases[lease].registered then
              s.(leases := s.leases[lease := s.leases[lease].(registered := true)], events := s.events + [Register(lease)])
            else s
  {
    hide CloseAll, RunsUnder, EventNamed, IsIdle;
  }

  lemma BindIs(s: State, bound: bool, sent: bool)
    requires Named(s)
    ensures Step(s, Bind(bound, sent)) ==
            if !s.phase.Binding? || s.phase.lease >= |s.leases| then s
            else
              var lease, rest := s.phase.lease, s.(phase := Resting);
              if Revokes(s, Bind(bound, sent)) == Some(lease) then RevokeLease(rest, lease)
              else if !bound || !sent then rest
              else if s.leases[lease].revoked then rest.(log := s.log + [Ready(lease)])
              else rest.(log := s.log + [Ready(lease)], leases := s.leases[lease := s.leases[lease].(listening := true)])
  {
    hide CloseAll, RunsUnder, EventNamed, IsIdle;
  }

  lemma IdleIs(s: State, lease: nat, now: int)
    requires Named(s)
    ensures Step(s, Idle(lease, now)) ==
            if Revokes(s, Idle(lease, now)) == Some(lease) then RevokeLease(s, lease)
            else if s.phase.Resting? && lease < |s.leases| then
              s.(leases := s.leases[lease := s.leases[lease].(idleSince := SinceWhen(s, lease, now))])
            else s
  {
    hide RevokeLease, EventNamed;
    assert forall l :: 0 <= l < |s.leases| ==> s.leases[l := s.leases[l]] == s.leases;
  }

  /** A lease that has a client is not idle; one that has none is idle since the first check that found it so. */
  ghost function SinceWhen(s: State, lease: nat, now: int): Option<int>
    requires lease < |s.leases|
  {
    var l := s.leases[lease];
    if l.freed || !l.control || !l.used || l.revoked then l.idleSince
    else if exists c :: 0 <= c < |s.clients| && s.clients[c].lease == lease && !s.clients[c].closed then None
    else if l.idleSince.None? then Some(now)
    else l.idleSince
  }

  /** The queue loses its head when the main loop takes it, and grows at its end. */
  ghost predicate QueueChanges(s: State, next: State, input: Input) {
    next.events == (if input.Take? && s.phase.Resting? && s.events != [] then s.events[1..] else s.events)
                   + NewEvents(s, input)
  }

  lemma EventsChange(s: State, input: Input)
    requires Named(s)
    ensures QueueChanges(s, Step(s, input), input)
  {
    hide *;
    match input
    case OnControl(lease, control) => ControlQueues(s, lease, control);
    case Bind(bound, sent) => BindQueues(s, bound, sent);
    case Idle(lease, now) => IdleQueues(s, lease, now);
    case _ => OthersQueue(s, input);
  }

  lemma ControlQueues(s: State, lease: nat, control: Control)
    requires Named(s)
    ensures QueueChanges(s, Step(s, OnControl(lease, control)), OnControl(lease, control))
  {
    hide Step, CloseAll, RunsUnder, Named, IsIdle;
    ControlIs(s, lease, control);
    assert s.events + [] == s.events;
  }

  lemma BindQueues(s: State, bound: bool, sent: bool)
    requires Named(s)
    ensures QueueChanges(s, Step(s, Bind(bound, sent)), Bind(bound, sent))
  {
    hide Step, CloseAll, RunsUnder, Named, IsIdle;
    BindIs(s, bound, sent);
    assert s.events + [] == s.events;
  }

  lemma IdleQueues(s: State, lease: nat, now: int)
    requires Named(s)
    ensures QueueChanges(s, Step(s, Idle(lease, now)), Idle(lease, now))
  {
    hide Step, CloseAll, RunsUnder, Named, SinceWhen;
    IdleIs(s, lease, now);
    assert s.events + [] == s.events;
  }

  lemma OthersQueue(s: State, input: Input)
    requires Named(s) && !input.OnControl? && !input.Bind? && !input.Idle?
    ensures QueueChanges(s, Step(s, input), input)
  {
    hide OpenCount, LiveCount, Referenced, ReadControl, Bound, CheckIdle, IsIdle, CollectedClients, CollectedLease;
    var none: seq<Event> := [];
    assert s.events + none == s.events && (s.events != [] ==> s.events[1..] + none == s.events[1..]);
  }

  /** The number of open clients, and of leases that were not given back. */
  lemma {:induction false} OpenCountIs(clients: seq<Client>)
    ensures OpenCount(clients) == |set c | 0 <= c < |clients| && !clients[c].closed|
  {
    if clients != [] {
      var last := |clients| - 1;
      var fewer := set c | 0 <= c < last && !clients[c].closed;
      OpenCountIs(clients[..last]);
      assert fewer == set c | 0 <= c < last && !clients[..last][c].closed;
      assert (set c | 0 <= c < |clients| && !clients[c].closed) == if clients[last].closed then fewer else fewer + {last};
    }
  }

  lemma {:induction false} LiveCountIs(leases: seq<Lease>)
    ensures LiveCount(leases) == |set l | 0 <= l < |leases| && !leases[l].freed|
  {
    if leases != [] {
      var last := |leases| - 1;
      var fewer := set l | 0 <= l < last && !leases[l].freed;
      LiveCountIs(leases[..last]);
      assert fewer == set l | 0 <= l < last && !leases[..last][l].freed;
      assert (set l | 0 <= l < |leases| && !leases[l].freed) == if leases[last].freed then fewer else fewer + {last};
    }
  }

  ghost predicate Admits(s: State, input: Input) {
    && input.Connect? && input.lease < |s.leases| && s.leases[input.lease].listening && !s.leases[input.lease].revoked
    && |set c | 0 <= c < |s.clients| && !s.clients[c].closed| < 32 && input.permitted
  }

  ghost predicate ClientsCome(s: State, next: State, input: Input) {
    && |next.clients| == |s.clients| + (if Admits(s, input) then 1 else 0)
    && (Admits(s, input) ==> next.clients[|s.clients|] == Client(input.lease, false, 0, false))
    && (forall c :: 0 <= c < |s.clients| ==> next.clients[c].lease == s.clients[c].lease)
    && |s.leases| <= |next.leases|
    && forall l :: 0 <= l < |s.leases| ==>
         (next.leases[l].used <==> s.leases[l].used || (Admits(s, input) && input.lease == l))
  }

  /** A connection becomes an open client of a listening lease that is not revoked, if it is permitted and fewer than 32
      clients are open; nothing else does. */
  lemma ConnectionsBecomeClients(s: State, input: Input)
    requires Named(s)
    ensures ClientsCome(s, Step(s, input), input)
  {
    hide *;
    match input
    case Connect(lease, permitted) => ConnectAdmits(s, lease, permitted);
    case OnControl(lease, control) => ControlConnects(s, lease, control);
    case Bind(bound, sent) => BindConnects(s, bound, sent);
    case Idle(lease, now) => IdleConnects(s, lease, now);
    case _ => NoneConnects(s, input);
  }

  lemma ConnectAdmits(s: State, lease: nat, permitted: bool)
    requires Named(s)
    ensures ClientsCome(s, Step(s, Connect(lease, permitted)), Connect(lease, permitted))
  {
    OpenCountIs(s.clients);
    hide EventNamed, OpenCount;
  }

  lemma RevokeConnects(s: State, lease: nat, input: Input)
    requires lease < |s.leases| && !input.Connect?
    ensures ClientsCome(s, RevokeLease(s, lease), input)
  {
    RevokeIs(s, lease);
    hide RevokeLease;
  }

  lemma ControlConnects(s: State, lease: nat, control: Control)
    requires Named(s)
    ensures ClientsCome(s, Step(s, OnControl(lease, control)), OnControl(lease, control))
  {
    hide Step, RevokeLease, Named, IsIdle;
    ControlIs(s, lease, control);
    if lease < |s.leases| {
      RevokeConnects(s, lease, OnControl(lease, control));
    }
  }

  lemma BindConnects(s: State, bound: bool, sent: bool)
    requires Named(s)
    ensures ClientsCome(s, Step(s, Bind(bound, sent)), Bind(bound, sent))
  {
    hide Step, RevokeLease, Named, IsIdle;
    BindIs(s, bound, sent);
    if s.phase.Binding? && s.phase.lease < |s.leases| {
      RevokeConnects(s.(phase := Resting), s.phase.lease, Bind(bound, sent));
    }
  }

  lemma IdleConnects(s: State, lease: nat, now: int)
    requires Named(s)
    ensures ClientsCome(s, Step(s, Idle(lease, now)), Idle(lease, now))
  {
    hide Step, RevokeLease, Named, IsIdle, SinceWhen;
    IdleIs(s, lease, now);
    if lease < |s.leases| {
      RevokeConnects(s, lease, Idle(lease, now));
    }
  }

  lemma NoneConnects(s: State, input: Input)
    requires Named(s) && !input.Connect? && !input.OnControl? && !input.Bind? && !input.Idle?
    ensures ClientsCome(s, Step(s, input), input)
  {
    hide LiveCount, Referenced, Accept, ReadControl, Bound, CheckIdle;
  }

  /** A client closes when its connection does, when it asks for more than the queue holds, or when its lease is revoked;
      it is given back by a sweep once it is closed and has no calls. */
  ghost predicate ClientCloses(s: State, end: State, input: Input, client: nat)
    requires client < |s.clients|
  {
    && client < |end.clients|
    && var was, next := s.clients[client], end.clients[client];
       && (next.closed <==>
             || was.closed || input == Drop(client) || (input == Line(client) && |s.events| >= 64)
             || Revokes(s, input) == Some(was.lease))
       && (next.freed <==> was.freed || (input.Sweep? && s.phase.Resting? && was.closed && was.pending == 0))
  }

  lemma ClientsClose(s: State, input: Input, client: nat)
    requires Named(s) && client < |s.clients|
    ensures ClientCloses(s, Step(s, input), input, client)
  {
    hide *;
    match input
    case OnControl(lease, control) => ControlCloses(s, lease, control, client);
    case Bind(bound, sent) => BindCloses(s, bound, sent, client);
    case Idle(lease, now) => IdleCloses(s, lease, now, client);
    case _ => OthersClose(s, input, client);
  }

  lemma ControlCloses(s: State, lease: nat, control: Control, client: nat)
    requires Named(s) && client < |s.clients|
    ensures ClientCloses(s, Step(s, OnControl(lease, control)), OnControl(lease, control), client)
  {
    hide Step, RevokeLease, Named, IsIdle;
    ControlIs(s, lease, control);
    if lease < |s.leases| {
      RevokeIs(s, lease);
    }
  }

  lemma BindCloses(s: State, bound: bool, sent: bool, client: nat)
    requires Named(s) && client < |s.clients|
    ensures ClientCloses(s, Step(s, Bind(bound, sent)), Bind(bound, sent), client)
  {
    hide Step, RevokeLease, Named, IsIdle;
    BindIs(s, bound, sent);
    if s.phase.Binding? && s.phase.lease < |s.leases| {
      RevokeIs(s.(phase := Resting), s.phase.lease);
    }
  }

  lemma IdleCloses(s: State, lease: nat, now: int, client: nat)
    requires Named(s) && client < |s.clients|
    ensures ClientCloses(s, Step(s, Idle(lease, now)), Idle(lease, now), client)
  {
    hide Step, RevokeLease, Named, SinceWhen;
    IdleIs(s, lease, now);
    if lease < |s.leases| {
      RevokeIs(s, lease);
    }
  }

  lemma OthersClose(s: State, input: Input, client: nat)
    requires Named(s) && client < |s.clients| && !input.OnControl? && !input.Bind? && !input.Idle?
    ensures ClientCloses(s, Step(s, input), input, client)
  {
    hide OpenCount, LiveCount, Referenced, ReadControl, Bound, CheckIdle, IsIdle, CollectedLease;
  }

  /** A lease is revoked as said, and loses its sources with it; it listens from its binding on. It is registered by the
      first valid message of its controller, acknowledged when its REVOKE is taken off the queue, and given back by a
      sweep once it is acknowledged and none of its clients is left. */
  ghost predicate LeaseChanges(s: State, input: Input, lease: nat)
    requires Named(s) && lease < |s.leases|
  {
    var was, end := s.leases[lease], Step(s, input);
    && lease < |end.leases|
    && var next := end.leases[lease];
       && next.control == was.control
       && (next.revoked <==> was.revoked || Revokes(s, input) == Some(lease))
       && (next.source <==> was.source && Revokes(s, input) != Some(lease))
       && (next.listening <==>
             (was.listening && Revokes(s, input) != Some(lease))
             || (s.phase == Binding(lease) && input == Bind(true, true) && !was.revoked))
       && (next.registered <==> was.registered || (input == OnControl(lease, Valid) && was.source))
       && (next.acknowledged <==> was.acknowledged || Takes(s, input, Revoke(lease)))
       && (next.freed <==>
             || was.freed
             || (input.Sweep? && s.phase.Resting? && was.acknowledged
                 && forall c :: 0 <= c < |end.clients| && end.clients[c].lease == lease ==> end.clients[c].freed))
  }

  lemma LeasesChange(s: State, input: Input, lease: nat)
    requires Named(s) && lease < |s.leases|
    ensures LeaseChanges(s, input, lease)
  {
    hide Named, LeaseChanges;
    match input
    case OnControl(_, _) => ControlChanges(s, input, lease);
    case Bind(_, _) => BindChanges(s, input, lease);
    case Idle(_, _) => IdleChanges(s, input, lease);
    case Take(_) => TakeChanges(s, input, lease);
    case Sweep => SweepChanges(s, lease);
    case _ => OtherChanges(s, input, lease);
  }

  lemma ControlChanges(s: State, input: Input, lease: nat)
    requires Named(s) && lease < |s.leases| && input.OnControl?
    ensures LeaseChanges(s, input, lease)
  {
    hide Step, RevokeLease, Named, IsIdle, ClosedUnder;
    ControlIs(s, input.lease, input.control);
    if input.lease < |s.leases| {
      RevokeIs(s, input.lease);
    }
  }

  lemma BindChanges(s: State, input: Input, lease: nat)
    requires Named(s) && lease < |s.leases| && input.Bind?
    ensures LeaseChanges(s, input, lease)
  {
    hide Step, RevokeLease, Named, IsIdle, ClosedUnder;
    BindIs(s, input.bound, input.sent);
    if s.phase.Binding? && s.phase.lease < |s.leases| {
      RevokeIs(s.(phase := Resting), s.phase.lease);
    }
  }

  lemma IdleChanges(s: State, input: Input, lease: nat)
    requires Named(s) && lease < |s.leases| && input.Idle?
    ensures LeaseChanges(s, input, lease)
  {
    hide Step, RevokeLease, Named, ClosedUnder, SinceWhen;
    IdleIs(s, input.lease, input.now);
    if input.lease < |s.leases| {
      RevokeIs(s, input.lease);
    }
  }

  lemma TakeChanges(s: State, input: Input, lease: nat)
    requires Named(s) && lease < |s.leases| && input.Take?
    ensures LeaseChanges(s, input, lease)
  {
    hide Referenced;
  }

  lemma SweepChanges(s: State, lease: nat)
    requires Named(s) && lease < |s.leases|
    ensures LeaseChanges(s, Sweep, lease)
  {
    hide CollectedClients, EventNamed;
  }

  lemma OtherChanges(s: State, input: Input, lease: nat)
    requires Named(s) && lease < |s.leases|
    requires !input.OnControl? && !input.Bind? && !input.Idle? && !input.Take? && !input.Sweep?
    ensures LeaseChanges(s, input, lease)
  {
    hide RevokeLease, Referenced, EventNamed, OpenCount, LiveCount, Pop, Bound, CheckIdle, Collect, ReadControl;
  }

  /** A controller that connects becomes a lease, if it is permitted and fewer than 64 are there. */
  lemma ControllersBecomeLeases(s: State, input: Input)
    requires Named(s)
    ensures var next := Step(s, input).leases;
      var attaches := input == Attach(true) && |set l | 0 <= l < |s.leases| && !s.leases[l].freed| < 64;
      && |next| == |s.leases| + (if attaches then 1 else 0)
      && (attaches ==> next[|s.leases|] == Lease(true, true, false, false, false, false, false, None, false))
  {
    hide RevokeLease, OpenCount, LiveCount, RunsUnder, CloseAll, Connected, Referenced;
    LiveCountIs(s.leases);
    StepRevokeIs(s, input);
  }

  /** Only a check changes since when a lease is idle. */
  lemma IdleSince(s: State, input: Input, lease: nat)
    requires Named(s) && lease < |s.leases|
    ensures SinceChanges(s, Step(s, input), input, lease)
  {
    hide *;
    match input
    case OnControl(other, control) => ControlIdles(s, other, control, lease);
    case Bind(bound, sent) => BindIdles(s, bound, sent, lease);
    case Idle(other, now) => IdleIdles(s, other, now, lease);
    case _ => OthersIdle(s, input, lease);
  }

  ghost predicate SinceChanges(s: State, end: State, input: Input, lease: nat)
    requires lease < |s.leases|
  {
    && lease < |end.leases|
    && end.leases[lease].idleSince ==
       if input.Idle? && input.lease == lease && s.phase.Resting? then SinceWhen(s, lease, input.now)
       else s.leases[lease].idleSince
  }

  lemma ControlIdles(s: State, other: nat, control: Control, lease: nat)
    requires Named(s) && lease < |s.leases|
    ensures SinceChanges(s, Step(s, OnControl(other, control)), OnControl(other, control), lease)
  {
    hide Step, CloseAll, RunsUnder, Named, IsIdle, SinceWhen;
    ControlIs(s, other, control);
  }

  lemma BindIdles(s: State, bound: bool, sent: bool, lease: nat)
    requires Named(s) && lease < |s.leases|
    ensures SinceChanges(s, Step(s, Bind(bound, sent)), Bind(bound, sent), lease)
  {
    hide Step, CloseAll, RunsUnder, Named, IsIdle, SinceWhen;
    BindIs(s, bound, sent);
  }

  lemma IdleIdles(s: State, other: nat, now: int, lease: nat)
    requires Named(s) && lease < |s.leases|
    ensures SinceChanges(s, Step(s, Idle(other, now)), Idle(other, now), lease)
  {
    hide Step, CloseAll, RunsUnder, Named;
    IdleIs(s, other, now);
  }

  lemma OthersIdle(s: State, input: Input, lease: nat)
    requires Named(s) && lease < |s.leases| && !input.OnControl? && !input.Bind? && !input.Idle?
    ensures SinceChanges(s, Step(s, input), input, lease)
  {
    hide OpenCount, LiveCount, Referenced, ReadControl, Bound, CheckIdle, CollectedClients;
  }

  /** What the thread is inside of. */
  lemma PhaseChanges(s: State, input: Input)
    requires Named(s)
    ensures var next := Step(s, input).phase;
      && (forall c: nat :: next.Calling? && next.client == c <==>
            (s.phase.Calling? && s.phase.client == c && !input.Return?) || Takes(s, input, CallOf(c)))
      && (forall l: nat :: next == Binding(l) <==>
            (s.phase == Binding(l) && !input.Bind?)
            || (Takes(s, input, Register(l)) && l < |s.leases| && !s.leases[l].revoked))
  {
    hide OpenCount, LiveCount, RunsUnder, CloseAll, Connected, Referenced;
  }

  /** A controller is told that its lease is ready when it was bound and can be told, and that it is released when its
      REVOKE is taken off the queue. */
  lemma ControllersAreTold(s: State, input: Input, lease: nat)
    requires Named(s)
    ensures var log := Step(s, input).log;
      && (log == s.log + [Ready(lease)] <==> s.phase == Binding(lease) && input == Bind(true, true))
      && (log == s.log + [Released(lease)] <==>
            Takes(s, input, Revoke(lease)) && lease < |s.leases| && s.leases[lease].control)
  {
    hide OpenCount, LiveCount, RunsUnder, CloseAll, Connected, Referenced;
    if |Step(s, input).log| == |s.log| + 1 {
      assert Step(s, input).log[|s.log|] in Step(s, input).log;
    }
  }

  /** The current call is cancelled when its client says so or closes; a new one starts as its source says. */
  lemma CancelChanges(s: State, input: Input)
    requires Named(s)
    ensures var next := Step(s, input);
      next.cancelled <==>
      if input.Take? && next.phase.Calling? && s.phase.Resting? && !s.clients[next.phase.client].closed then
        input.cancelled
      else if input.Take? && next.phase.Binding? && s.phase.Resting? then false
      else
        || s.cancelled
        || (s.phase.Calling? && !s.clients[s.phase.client].closed
            && (input == CancelNotice(s.phase.client) || next.clients[s.phase.client].closed))
  {
    hide OpenCount, LiveCount, Connected, Referenced;
  }

  // ---- A revoked lease is given back ----

  ghost predicate Lasts(leases: seq<Lease>, later: seq<Lease>) {
    && |leases| <= |later|
    && forall l :: 0 <= l < |leases| ==>
         (leases[l].revoked ==> later[l].revoked) && later[l].control == leases[l].control
  }

  predicate Internal(input: Input) {
    input.Take? || input.Return? || input == Bind(true, true) || input.Sweep?
  }

  lemma InternalLasts(s: State, input: Input)
    requires Named(s) && Internal(input)
    ensures var next := Step(s, input);
      && Lasts(s.leases, next.leases) && |next.clients| == |s.clients|
      && forall c :: 0 <= c < |s.clients| ==> next.clients[c].lease == s.clients[c].lease
  {
  }

  /** An open client is still open, and all its calls that were queued have been handled. */
  ghost predicate Served(s: State, later: State, client: nat) {
    && client < |later.clients| && !later.clients[client].closed
    && multiset(later.log)[Handled(client)] == multiset(s.log)[Handled(client)] + multiset(s.events)[CallOf(client)]
  }

  /** A step on the way there: what was handled and what is queued stay as many together. */
  lemma ServesStep(s: State, input: Input, client: nat)
    requires Named(s) && client < |s.clients| && !s.clients[client].closed
    requires match s.phase
             case Resting => input.Take? && s.events != []
             case Calling(_, _) => input.Return?
             case Binding(_) => input == Bind(true, true)
    ensures var next := Step(s, input);
      && client < |next.clients| && !next.clients[client].closed
      && multiset(next.log)[Handled(client)] + multiset(next.events)[CallOf(client)]
         == multiset(s.log)[Handled(client)] + multiset(s.events)[CallOf(client)]
  {
    hide Step, Pop, Finish, Bound;
    match s.phase
    case Resting => TakeServes(s, input, client);
    case Calling(_, _) => ReturnServes(s, client);
    case Binding(_) => BindServes(s, client);
  }

  lemma TakeServes(s: State, input: Input, client: nat)
    requires Named(s) && client < |s.clients| && !s.clients[client].closed
    requires s.phase.Resting? && input.Take? && s.events != []
    ensures var next := Step(s, input);
      && client < |next.clients| && !next.clients[client].closed
      && multiset(next.log)[Handled(client)] + multiset(next.events)[CallOf(client)]
         == multiset(s.log)[Handled(client)] + multiset(s.events)[CallOf(client)]
  {
    CountHead(s.events, CallOf(client));
    var next := Step(s, input);
    if next.log != s.log {
      assert next.log == s.log + [next.log[|s.log|]];
    }
    hide EventNamed;
  }

  lemma ReturnServes(s: State, client: nat)
    requires Named(s) && client < |s.clients| && !s.clients[client].closed && s.phase.Calling?
    ensures var next := Step(s, Return);
      && client < |next.clients| && !next.clients[client].closed && next.events == s.events
      && multiset(next.log)[Handled(client)] == multiset(s.log)[Handled(client)]
  {
    hide EventNamed;
  }

  lemma BindServes(s: State, client: nat)
    requires Named(s) && client < |s.clients| && !s.clients[client].closed && s.phase.Binding?
    ensures var next := Step(s, Bind(true, true));
      && client < |next.clients| && !next.clients[client].closed && next.events == s.events
      && multiset(next.log)[Handled(client)] == multiset(s.log)[Handled(client)]
  {
    hide EventNamed, RevokeLease;
  }

  lemma ServedOn(s: State, mid: State, end: State, client: nat)
    requires multiset(mid.log)[Handled(client)] + multiset(mid.events)[CallOf(client)]
             == multiset(s.log)[Handled(client)] + multiset(s.events)[CallOf(client)]
    requires Served(mid, end, client)
    ensures Served(s, end, client)
  {
  }

  /** The main loop alone empties the queue, and handles every queued call of an open client. */
  lemma Drain(test: bool, inputs: seq<Input>) returns (more: seq<Input>)
    ensures forall k :: 0 <= k < |more| ==> Internal(more[k])
    ensures var s, t := Run(test, inputs), Run(test, inputs + more);
      && t.events == [] && t.phase.Resting? && Lasts(s.leases, t.leases) && |t.clients| == |s.clients|
      && (forall c :: 0 <= c < |s.clients| ==> t.clients[c].lease == s.clients[c].lease)
      && forall c :: 0 <= c < |s.clients| && !s.clients[c].closed ==> Served(s, t, c)
    decreases |Run(test, inputs).events|, One(!Run(test, inputs).phase.Resting?)
  {
    var s := Run(test, inputs);
    hide Run, Good;
    if s.events == [] && s.phase.Resting? {
      assert inputs + [] == inputs;
      return [];
    }
    var input :=
      match s.phase
      case Resting => Take(false)
      case Calling(_, _) => Return
      case Binding(_) => Bind(true, true);
    RunSnoc(test, inputs, input);
    InternalLasts(s, input);
    InternalDrains(s, input);
    forall c | 0 <= c < |s.clients| && !s.clients[c].closed
      ensures var next := Step(s, input);
        && !next.clients[c].closed
        && multiset(next.log)[Handled(c)] + multiset(next.events)[CallOf(c)]
           == multiset(s.log)[Handled(c)] + multiset(s.events)[CallOf(c)]
    {
      ServesStep(s, input, c);
    }
    hide Step, Served;
    var rest := Drain(test, inputs + [input]);
    more := [input] + rest;
    assert inputs + more == inputs + [input] + rest;
    forall c | 0 <= c < |s.clients| && !s.clients[c].closed ensures Served(s, Run(test, inputs + more), c) {
      ServedOn(s, Run(test, inputs + [input]), Run(test, inputs + more), c);
    }
  }

  lemma InternalDrains(s: State, input: Input)
    requires Named(s)
    requires match s.phase
             case Resting => input.Take? && s.events != []
             case Calling(_, _) => input.Return?
             case Binding(_) => input == Bind(true, true)
    ensures var next := Step(s, input);
      |next.events| < |s.events| || (next.events == s.events && !s.phase.Resting? && next.phase.Resting?)
  {
  }

  /** `later` has released and given back every lease that `s` has revoked, with its clients. */
  ghost predicate GivenBack(s: State, later: State) {
    forall l :: 0 <= l < |s.leases| && s.leases[l].revoked ==>
      && l < |later.leases| && later.leases[l].freed && (s.leases[l].control ==> Released(l) in later.log)
      && forall c :: 0 <= c < |s.clients| && s.clients[c].lease == l ==> c < |later.clients| && later.clients[c].freed
  }

  lemma Swept(s: State, mid: State)
    requires Good(mid) && mid.events == [] && mid.phase.Resting? && Lasts(s.leases, mid.leases)
    requires |mid.clients| == |s.clients|
    requires forall c :: 0 <= c < |s.clients| ==> mid.clients[c].lease == s.clients[c].lease
    ensures GivenBack(s, Collect(mid))
  {
    hide Good;
    forall l | 0 <= l < |mid.leases| && mid.leases[l].revoked
      ensures Collect(mid).leases[l].freed && (mid.leases[l].control ==> Released(l) in mid.log)
      ensures forall c :: 0 <= c < |mid.clients| && mid.clients[c].lease == l ==> Collect(mid).clients[c].freed
    {
      SweptLease(mid, l);
    }
  }

  lemma SweptLease(s: State, lease: nat)
    requires Good(s) && s.events == [] && s.phase.Resting? && lease < |s.leases| && s.leases[lease].revoked
    ensures Collect(s).leases[lease].freed && (s.leases[lease].control ==> Released(lease) in s.log)
    ensures forall c :: 0 <= c < |s.clients| && s.clients[c].lease == lease ==> Collect(s).clients[c].freed
  {
    hide NoRegisterBehind, Alone, Final, Bounded, Running;
  }

  /** Whatever happened so far, the main loop can release every revoked lease and give back its memory and that of
      its clients. */
  lemma RevokedIsGivenBack(test: bool, inputs: seq<Input>) returns (more: seq<Input>)
    ensures forall k :: 0 <= k < |more| ==> Internal(more[k])
    ensures GivenBack(Run(test, inputs), Run(test, inputs + more))
  {
    var first := Drain(test, inputs);
    hide Run, Good, GivenBack, Lasts;
    var mid := Run(test, inputs + first);
    more := first + [Sweep];
    RunSnoc(test, inputs + first, Sweep);
    assert inputs + more == inputs + first + [Sweep];
    Swept(Run(test, inputs), mid);
  }
}
