/** native/spaces_system_broker.c: one client's requests, replies and signals, with the two ways a reply is
    completed. GLib dispatches a lower priority only when nothing of a higher one is ready, and GDBus runs filters
    before it schedules the completion callback of the same reply. The program runs as the broker on the host and as
    the relay in the guest, whose own bus has a filter that queues method calls only. */
module SystemBroker {
  import opened Text

  const MAX_OUTSTANDING: nat := 64
  const MAX_QUEUED: nat := 1024

  /** The connection between relay and broker, and the system bus: the host's for the broker, the guest's for the relay. */
  datatype Bus = Peer | Host

  /** What the policy decides about a message is given with it. */
  datatype Message =
    | Request(bounded: bool, allowed: bool)
    | Signal(bounded: bool, relayed: bool)
    | Reply(serial: nat, bounded: bool)

  datatype Received = Received(bus: Bus, message: Message)

  datatype Call = Call(request: nat, origin: Bus, target: Bus, serial: nat, delivered: bool)

  /** A completion callback that is due: with the reply received as `tag`, or with an error. */
  datatype Completion = Completion(call: nat, tag: Option<nat>)

  /** What leaves: the broker's own answer to a request, a forwarded request, a relayed signal, or the answer to a forwarded
      request. A tag is the position of a message in the order of receipt. */
  datatype Sent =
    | OwnAnswer(tag: nat)
    | Forwarded(tag: nat, call: nat)
    | Relayed(tag: nat)
    | Answered(call: nat, to: Bus, reply: Option<nat>, usable: bool)

  /** `received`, `calls` and `log` are histories; a pending call is named by its place in `calls`. `high` holds
      queued events, `low` the callbacks that are due, `batch` those being dispatched in this iteration; `lost` tells
      that a reply that some call waited for found the queue full. */
  datatype State = State(relay: bool, closed: bool, lost: bool, received: seq<Received>, high: seq<nat>,
                         low: seq<Completion>, batch: seq<Completion>, calls: seq<Call>, pending: seq<nat>,
                         outstanding: nat, awaiting: set<nat>, expired: set<nat>, serials: map<Bus, nat>,
                         log: seq<Sent>)

  function Initial(relay: bool): State {
    State(relay, false, false, [], [], [], [], [], [], 0, {}, {}, map[Peer := 1, Host := 1], [])
  }

  function Other(bus: Bus): Bus {
    if bus == Peer then Host else Peer
  }

  // ---- The handlers ----

  /** deliver_reply: the answer carries the reply if it is within bounds, an error otherwise. */
  function DeliverReply(s: State, call: nat, tag: Option<nat>): State
    requires call < |s.calls| && (tag.Some? ==> tag.value < |s.received| && s.received[tag.value].message.Reply?)
  {
    var usable := tag.Some? && s.received[tag.value].message.bounded;
    s.(calls := s.calls[call := s.calls[call].(delivered := true)],
       log := s.log + [Answered(call, s.calls[call].origin, tag, usable)])
  }

  /** forward: at most 64 calls are outstanding. */
  function Forward(s: State, origin: Bus, tag: nat): State
    requires s.serials.Keys == {Peer, Host}
  {
    if s.outstanding >= MAX_OUTSTANDING then s.(log := s.log + [OwnAnswer(tag)])
    else
      var call, target := |s.calls|, Other(origin);
      s.(calls := s.calls + [Call(tag, origin, target, s.serials[target], false)],
         pending := [call] + s.pending,
         outstanding := s.outstanding + 1,
         awaiting := s.awaiting + {call},
         serials := s.serials[target := s.serials[target] + 1],
         log := s.log + [Forwarded(tag, call)])
  }

  /** The first pending call that waits for this serial on this bus. */
  function FindCall(calls: seq<Call>, pending: seq<nat>, bus: Bus, serial: nat): (found: Option<nat>)
    requires Below(pending, |calls|)
    ensures found.Some? ==> found.value in pending && found.value < |calls|
    ensures found.Some? ==> var c := calls[found.value]; !c.delivered && c.target == bus && c.serial == serial
  {
    if pending == [] then None
    else
      var c := calls[pending[0]];
      if !c.delivered && c.target == bus && c.serial == serial then Some(pending[0])
      else FindCall(calls, pending[1..], bus, serial)
  }

  /** process_event, for the event at the head of the queue. */
  function ProcessEvent(s: State): State
    requires Sane(s)
  {
    if s.high == [] then s
    else
      var tag := s.high[0];
      var event := s.received[tag];
      var rest := s.(high := s.high[1..]);
      if s.closed then rest
      else
        match event.message
        case Reply(serial, _) =>
          (match FindCall(s.calls, s.pending, event.bus, serial)
           case Some(call) => DeliverReply(rest, call, Some(tag))
           case None => rest)
        case Request(bounded, allowed) =>
          if bounded && allowed then Forward(rest, event.bus, tag) else rest.(log := s.log + [OwnAnswer(tag)])
        case Signal(bounded, relayed) =>
          if bounded && relayed then rest.(log := s.log + [Relayed(tag)]) else rest
  }

  function Without(pending: seq<nat>, call: nat): seq<nat> {
    if pending == [] then [] else if pending[0] == call then pending[1..] else [pending[0]] + Without(pending[1..], call)
  }

  /** A guint wraps around. */
  function Decremented(n: nat): nat {
    if n == 0 then 0xFFFF_FFFF else n - 1
  }

  /** forward_finished, for the callback at the head of the batch. */
  function ForwardFinished(s: State): State
    requires Sane(s)
  {
    if s.batch == [] then s
    else
      var done := s.batch[0];
      var s := s.(batch := s.batch[1..]);
      var s := if s.calls[done.call].delivered then s else DeliverReply(s, done.call, done.tag);
      s.(pending := Without(s.pending, done.call), outstanding := Decremented(s.outstanding))
  }

  /** client_filter queues whatever arrives, guest_filter method calls only. */
  predicate Queues(relay: bool, received: Received) {
    !relay || received.bus == Peer || received.message.Request?
  }

  /** A message arrives and its filter queues an event, unless the queue is full: `others` events belong to other
      clients. */
  function Filtered(s: State, received: Received, others: nat): State
    requires Sane(s)
  {
    var tag := |s.received|;
    var next := s.(received := s.received + [received]);
    if !Queues(s.relay, received) then next
    else if |s.high| + others < MAX_QUEUED then next.(high := s.high + [tag])
    else if received.message.Request? then next.(log := s.log + [OwnAnswer(tag)])
    else next.(lost := s.lost || AwaitedBy(s, received).Some?)
  }

  function Arrive(s: State, received: Received, others: nat): State
    requires Sane(s)
  {
    Completed(Filtered(s, received, others), AwaitedBy(s, received), |s.received|)
  }

  /** Then GDBus completes the call that waits for it. */
  function Completed(s: State, call: Option<nat>, tag: nat): State {
    match call
    case Some(call) => s.(awaiting := s.awaiting - {call}, low := s.low + [Completion(call, Some(tag))])
    case None => s
  }

  /** The call that a message is the reply to. */
  function AwaitedBy(s: State, received: Received): (found: Option<nat>)
    ensures found.Some? ==> received.message.Reply? && found.value in s.awaiting && found.value < |s.calls|
    ensures found.Some? ==> var c := s.calls[found.value]; c.target == received.bus && c.serial == received.message.serial
  {
    if received.message.Reply? then Waiting(s.calls, s.awaiting, received.bus, received.message.serial, 0) else None
  }

  /** The call GDBus still waits for under this serial. */
  function Waiting(calls: seq<Call>, awaiting: set<nat>, bus: Bus, serial: nat, from: nat): (found: Option<nat>)
    requires from <= |calls|
    ensures found.Some? ==> found.value in awaiting && from <= found.value < |calls|
    ensures found.Some? ==> calls[found.value].target == bus && calls[found.value].serial == serial
    decreases |calls| - from
  {
    if from == |calls| then None
    else if from in awaiting && calls[from].target == bus && calls[from].serial == serial then Some(from)
    else Waiting(calls, awaiting, bus, serial, from + 1)
  }

  datatype Input =
    | Receive(received: Received, others: nat)
    | Expire(call: nat)
    | RunEvent
    | Select(ready: nat)
    | RunCallback
    | Close
    | OtherSent(bus: Bus, count: nat)

  /** `OtherSent` stands for the serials that other messages use up. */
  function Step(s: State, input: Input): State
    requires Sane(s)
  {
    match input
    case Receive(received, others) => Arrive(s, received, others)
    case Expire(call) =>
      if call in s.awaiting then
        s.(awaiting := s.awaiting - {call}, expired := s.expired + {call}, low := s.low + [Completion(call, None)])
      else s
    case RunEvent => if s.batch == [] then ProcessEvent(s) else s
    case Select(ready) =>
      if s.batch == [] && s.high == [] && ready <= |s.low| then s.(batch := s.low[..ready], low := s.low[ready..])
      else s
    case RunCallback => ForwardFinished(s)
    case Close => s.(closed := true)
    case OtherSent(bus, count) =>
      assert bus == Peer || bus == Host;
      s.(serials := s.serials[bus := s.serials[bus] + count])
  }

  // ---- Names that are in use ----

  predicate Below(names: seq<nat>, n: nat) {
    forall k :: 0 <= k < |names| ==> names[k] < n
  }

  ghost predicate CompletionsSane(s: State, due: seq<Completion>) {
    forall k :: 0 <= k < |due| ==>
      && due[k].call < |s.calls|
      && (due[k].tag.Some? ==> due[k].tag.value < |s.received| && s.received[due[k].tag.value].message.Reply?)
  }

  ghost predicate Sane(s: State) {
    && Below(s.high, |s.received|) && Below(s.pending, |s.calls|)
    && CompletionsSane(s, s.low) && CompletionsSane(s, s.batch)
    && s.serials.Keys == {Peer, Host}
  }

  // ---- What every run keeps ----

  ghost predicate Distinct(names: seq<nat>) {
    forall i, j :: 0 <= i < j < |names| ==> names[i] != names[j]
  }

  ghost predicate Ascending(tags: seq<nat>) {
    forall i, j :: 0 <= i < j < |tags| ==> tags[i] < tags[j]
  }

  /** Serials name the calls sent on one bus, and a call goes to the other one. */
  ghost predicate Numbered(calls: seq<Call>, serials: map<Bus, nat>) {
    && (forall c :: 0 <= c < |calls| ==> calls[c].target in serials && calls[c].serial < serials[calls[c].target])
    && (forall c :: 0 <= c < |calls| ==> calls[c].target == Other(calls[c].origin))
    && (forall c, d :: 0 <= c < d < |calls| && calls[c].target == calls[d].target ==> calls[c].serial != calls[d].serial)
  }

  /** Every pending call is either awaited by GDBus or completed by exactly one callback that is due. */
  ghost predicate OnePath(due: seq<Completion>, pending: seq<nat>, awaiting: set<nat>) {
    && (forall c <- awaiting :: c in pending)
    && (forall i :: 0 <= i < |due| ==> due[i].call in pending && due[i].call !in awaiting)
    && (forall i, j :: 0 <= i < j < |due| ==> due[i].call != due[j].call)
    && (forall c <- pending :: c in awaiting || exists i :: 0 <= i < |due| && due[i].call == c)
  }

  function Answers(log: seq<Sent>, call: nat): nat {
    if log == [] then 0
    else Answers(log[..|log| - 1], call) + if log[|log| - 1].Answered? && log[|log| - 1].call == call then 1 else 0
  }

  lemma AnswersSnoc(log: seq<Sent>, out: Sent, call: nat)
    ensures Answers(log + [out], call) == Answers(log, call) + if out.Answered? && out.call == call then 1 else 0
  {
    assert (log + [out])[..|log|] == log;
  }

  /** A call has one answer from the moment it is delivered, and none before; only delivered calls leave the list. */
  ghost predicate AnsweredOnce(log: seq<Sent>, calls: seq<Call>, pending: seq<nat>) {
    && (forall c: nat :: Answers(log, c) == if c < |calls| && calls[c].delivered then 1 else 0)
    && (forall c :: 0 <= c < |calls| && !calls[c].delivered ==> c in pending)
  }

  ghost predicate Core(s: State) {
    && Sane(s)
    && s.outstanding == |s.pending| <= MAX_OUTSTANDING && Distinct(s.pending)
    && Numbered(s.calls, s.serials)
    && OnePath(s.batch + s.low, s.pending, s.awaiting)
    && AnsweredOnce(s.log, s.calls, s.pending)
  }

  lemma DeliverCore(s: State, call: nat, tag: Option<nat>)
    requires Core(s) && call < |s.calls| && !s.calls[call].delivered
    requires tag.Some? ==> tag.value < |s.received| && s.received[tag.value].message.Reply?
    ensures Core(DeliverReply(s, call, tag))
  {
    hide Below, CompletionsSane, Distinct, OnePath, Numbered, AnsweredOnce;
    var next := DeliverReply(s, call, tag);
    NumberedDelivered(s.calls, s.serials, call);
    OnceDelivered(s.log, s.calls, s.pending, call, next.log[|s.log|]);
    SaneDelivered(s, call, next);
  }

  lemma NumberedDelivered(calls: seq<Call>, serials: map<Bus, nat>, call: nat)
    requires Numbered(calls, serials) && call < |calls|
    ensures Numbered(calls[call := calls[call].(delivered := true)], serials)
  {
  }

  lemma OnceDelivered(log: seq<Sent>, calls: seq<Call>, pending: seq<nat>, call: nat, out: Sent)
    requires AnsweredOnce(log, calls, pending) && call < |calls| && !calls[call].delivered
    requires out.Answered? && out.call == call
    ensures AnsweredOnce(log + [out], calls[call := calls[call].(delivered := true)], pending)
  {
    hide Answers;
    var later := calls[call := calls[call].(delivered := true)];
    forall c: nat ensures Answers(log + [out], c) == if c < |later| && later[c].delivered then 1 else 0 {
      AnswersSnoc(log, out, c);
    }
  }

  lemma SaneDelivered(s: State, call: nat, next: State)
    requires Sane(s) && call < |s.calls|
    requires next == s.(calls := s.calls[call := s.calls[call].(delivered := true)], log := next.log)
    ensures Sane(next)
  {
  }

  lemma LoggedCore(s: State, out: Sent)
    requires Core(s) && !out.Answered?
    ensures Core(s.(log := s.log + [out]))
  {
    hide OnePath, Distinct, Numbered, AnsweredOnce, Below;
    AnsweredLogged(s.log, s.calls, s.pending, out);
  }

  lemma AnsweredLogged(log: seq<Sent>, calls: seq<Call>, pending: seq<nat>, out: Sent)
    requires AnsweredOnce(log, calls, pending) && !out.Answered?
    ensures AnsweredOnce(log + [out], calls, pending)
  {
    forall c: nat ensures Answers(log + [out], c) == Answers(log, c) {
      AnswersSnoc(log, out, c);
    }
    hide Answers;
  }

  lemma ForwardCore(s: State, origin: Bus, tag: nat)
    requires Core(s) && s.outstanding < MAX_OUTSTANDING
    ensures Core(Forward(s, origin, tag))
  {
    var next := Forward(s, origin, tag);
    var call := |s.calls|;
    forall c: nat ensures Answers(next.log, c) == Answers(s.log, c) {
      AnswersSnoc(s.log, next.log[|s.log|], c);
    }
    assert next.batch + next.low == s.batch + s.low;
    PathForward(s.batch + s.low, s.pending, s.awaiting, call);
    assert AnsweredOnce(next.log, next.calls, next.pending);
  }

  lemma PathForward(due: seq<Completion>, pending: seq<nat>, awaiting: set<nat>, call: nat)
    requires OnePath(due, pending, awaiting) && call !in pending
    ensures OnePath(due, [call] + pending, awaiting + {call})
  {
    var p := [call] + pending;
    assert forall c :: c in p <==> c == call || c in pending;
  }

  lemma PathComplete(s: State, call: nat, tag: Option<nat>)
    requires OnePath(s.batch + s.low, s.pending, s.awaiting) && call in s.awaiting
    ensures OnePath(s.batch + (s.low + [Completion(call, tag)]), s.pending, s.awaiting - {call})
  {
    hide OnePath;
    Regrouped(s.batch, s.low, [Completion(call, tag)]);
    PathSnoc(s.batch + s.low, s.pending, s.awaiting, Completion(call, tag));
  }

  lemma PathSnoc(due: seq<Completion>, pending: seq<nat>, awaiting: set<nat>, one: Completion)
    requires OnePath(due, pending, awaiting) && one.call in awaiting
    ensures OnePath(due + [one], pending, awaiting - {one.call})
  {
    var now := due + [one];
    forall c <- pending ensures c in awaiting - {one.call} || exists i :: 0 <= i < |now| && now[i].call == c {
      if c == one.call {
        assert now[|due|].call == c;
      } else if c !in awaiting {
        var i :| 0 <= i < |due| && due[i].call == c;
        assert now[i].call == c;
      }
    }
  }

  lemma WithoutHas(pending: seq<nat>, call: nat)
    requires Distinct(pending) && call in pending
    ensures |Without(pending, call)| == |pending| - 1 && Distinct(Without(pending, call))
    ensures forall c :: c in Without(pending, call) <==> c in pending && c != call
  {
    if pending[0] == call {
      assert forall c :: c in pending <==> c == call || c in pending[1..];
    } else {
      assert forall c :: c in pending <==> c == pending[0] || c in pending[1..];
      assert Distinct(pending[1..]) && pending[0] !in pending[1..];
      WithoutHas(pending[1..], call);
      var rest := Without(pending[1..], call);
      assert forall c :: c in [pending[0]] + rest <==> c == pending[0] || c in rest;
    }
  }

  lemma PathFinish(due: seq<Completion>, pending: seq<nat>, awaiting: set<nat>, rest: seq<nat>)
    requires OnePath(due, pending, awaiting) && |due| > 0
    requires forall c :: c in rest <==> c in pending && c != due[0].call
    ensures OnePath(due[1..], rest, awaiting)
  {
    forall c <- rest ensures c in awaiting || exists i :: 0 <= i < |due[1..]| && due[1..][i].call == c {
      if c !in awaiting {
        var i :| 0 <= i < |due| && due[i].call == c;
        assert due[1..][i - 1].call == c;
      }
    }
  }

  lemma FinishCore(s: State)
    requires Core(s)
    ensures Core(ForwardFinished(s))
  {
    if s.batch != [] {
      var done := s.batch[0];
      assert (s.batch + s.low)[0] == done;
      var mid := if s.calls[done.call].delivered then s else DeliverReply(s, done.call, done.tag);
      if !s.calls[done.call].delivered {
        DeliverCore(s, done.call, done.tag);
      }
      assert Core(mid) && mid.batch == s.batch && mid.low == s.low && mid.calls[done.call].delivered;
      assert ForwardFinished(s) == Retired(mid);
      RetireCore(mid);
    }
  }

  /** The callback at the head of the batch removes its call. */
  function Retired(s: State): State
    requires s.batch != []
  {
    s.(batch := s.batch[1..], pending := Without(s.pending, s.batch[0].call),
       outstanding := Decremented(s.outstanding))
  }

  lemma RetireCore(s: State)
    requires Core(s) && s.batch != [] && s.batch[0].call < |s.calls| && s.calls[s.batch[0].call].delivered
    ensures Core(Retired(s))
  {
    hide Numbered, Answers;
    var next := Retired(s);
    var due := s.batch + s.low;
    assert due[0] == s.batch[0] && due[1..] == next.batch + next.low;
    WithoutHas(s.pending, s.batch[0].call);
    PathFinish(due, s.pending, s.awaiting, next.pending);
    assert Below(next.pending, |next.calls|) by {
      forall k | 0 <= k < |next.pending| ensures next.pending[k] < |next.calls| {
        assert next.pending[k] in s.pending;
      }
    }
  }

  lemma CompleteCore(s: State, call: nat, tag: Option<nat>, expired: set<nat>)
    requires Core(s) && call in s.awaiting
    requires tag.Some? ==> tag.value < |s.received| && s.received[tag.value].message.Reply?
    ensures Core(s.(awaiting := s.awaiting - {call}, expired := expired, low := s.low + [Completion(call, tag)]))
  {
    hide Numbered, Answers;
    PathComplete(s, call, tag);
    assert call in s.pending;
    hide OnePath, Distinct;
  }

  lemma QueuedCore(s: State, received: Received, high: seq<nat>, lost: bool)
    requires Core(s) && Below(high, |s.received| + 1)
    ensures Core(s.(received := s.received + [received], high := high, lost := lost))
  {
    hide OnePath, Distinct, Numbered, Answers;
  }

  lemma ArriveCore(s: State, received: Received, others: nat)
    requires Core(s)
    ensures Core(Arrive(s, received, others))
  {
    var tag, awaited, room := |s.received|, AwaitedBy(s, received), |s.high| + others < MAX_QUEUED;
    var queues := Queues(s.relay, received);
    var high := if queues && room then s.high + [tag] else s.high;
    var lost := s.lost || (queues && !room && awaited.Some?);
    QueuedCore(s, received, high, lost);
    var queued := s.(received := s.received + [received], high := high, lost := lost);
    if queues && !room && received.message.Request? {
      LoggedCore(queued, OwnAnswer(tag));
    } else if awaited.Some? {
      CompleteCore(queued, awaited.value, Some(tag), queued.expired);
    }
    hide Core, Queues;
  }

  lemma EventCore(s: State)
    requires Core(s)
    ensures Core(ProcessEvent(s))
  {
    hide OnePath, Distinct, Numbered, Answers;
    if s.high != [] && !s.closed {
      var tag := s.high[0];
      var event := s.received[tag];
      var rest := s.(high := s.high[1..]);
      assert Core(rest);
      match event.message
      case Reply(serial, _) =>
        var found := FindCall(s.calls, s.pending, event.bus, serial);
        if found.Some? {
          DeliverCore(rest, found.value, Some(tag));
        }
      case Request(bounded, allowed) =>
        if bounded && allowed && rest.outstanding < MAX_OUTSTANDING {
          ForwardCore(rest, event.bus, tag);
        } else {
          LoggedCore(rest, OwnAnswer(tag));
        }
      case Signal(bounded, relayed) =>
        LoggedCore(rest, Relayed(tag));
    }
  }

  lemma StepCore(s: State, input: Input)
    requires Core(s)
    ensures Core(Step(s, input))
  {
    assert Sane(s);
    match input
    case Receive(received, others) =>
      hide Core, Sane;
      ArriveCore(s, received, others);
    case Expire(call) =>
      if call in s.awaiting {
        hide Core, Sane;
        CompleteCore(s, call, None, s.expired + {call});
      }
    case RunEvent =>
      hide Core, Sane;
      EventCore(s);
    case Select(ready) =>
      SelectCore(s, ready);
    case RunCallback =>
      hide Core, Sane;
      FinishCore(s);
    case Close =>
      hide Below, CompletionsSane, Distinct, Numbered, OnePath, AnsweredOnce;
    case OtherSent(bus, count) =>
      OtherSentCore(s, bus, count);
  }

  lemma SelectCore(s: State, ready: nat)
    requires Core(s)
    ensures Core(Step(s, Select(ready)))
  {
    hide Distinct, Numbered, OnePath, AnsweredOnce;
    var next := Step(s, Select(ready));
    assert next.batch + next.low == s.batch + s.low;
  }

  lemma OtherSentCore(s: State, bus: Bus, count: nat)
    requires Core(s)
    ensures Core(Step(s, OtherSent(bus, count)))
  {
    hide Distinct, OnePath, AnsweredOnce;
    assert bus == Peer || bus == Host;
    SerialsGrow(s.calls, s.serials, bus, count);
    hide Numbered, Below, CompletionsSane;
  }

  lemma SerialsGrow(calls: seq<Call>, serials: map<Bus, nat>, bus: Bus, count: nat)
    requires bus in serials && Numbered(calls, serials)
    ensures Numbered(calls, serials[bus := serials[bus] + count])
  {
  }

  // ---- Order ----

  /** The messages whose relaying the log shows, in the order they left. Apart are the answers that reach the relay from
      the guest's bus, which queues no replies. */
  function Tags(relay: bool, log: seq<Sent>): seq<nat> {
    if log == [] then [] else Tags(relay, log[..|log| - 1]) + TagOf(relay, log[|log| - 1])
  }

  function TagOf(relay: bool, out: Sent): seq<nat> {
    match out
    case Relayed(tag) => [tag]
    case Answered(_, to, Some(tag), _) => if relay && to == Peer then [] else [tag]
    case _ => []
  }

  lemma TagsSnoc(relay: bool, log: seq<Sent>, out: Sent)
    ensures Tags(relay, log + [out]) == Tags(relay, log) + TagOf(relay, out)
  {
    assert (log + [out])[..|log|] == log;
  }

  predicate Answering(received: seq<Received>, calls: seq<Call>, call: nat, tag: nat) {
    && call < |calls| && tag < |received| && received[tag].message.Reply?
    && calls[call].target == received[tag].bus && calls[call].serial == received[tag].message.serial
  }

  /** A callback that carries a reply carries the one its call waits for. */
  ghost predicate Matched(received: seq<Received>, calls: seq<Call>, due: seq<Completion>) {
    forall k :: 0 <= k < |due| && due[k].tag.Some? ==> Answering(received, calls, due[k].call, due[k].tag.value)
  }

  /** A reply whose callback is due was delivered already, or its event is still queued, or it never had one. */
  ghost predicate Ahead(relay: bool, calls: seq<Call>, due: seq<Completion>, high: seq<nat>) {
    forall k :: 0 <= k < |due| && due[k].tag.Some? ==>
      due[k].call < |calls|
      && (calls[due[k].call].delivered || due[k].tag.value in high || (relay && calls[due[k].call].origin == Peer))
  }

  ghost predicate Ordered(s: State) {
    && Ascending(Tags(s.relay, s.log) + s.high) && Below(Tags(s.relay, s.log) + s.high, |s.received|)
    && Ahead(s.relay, s.calls, s.batch, []) && Ahead(s.relay, s.calls, s.low, s.high)
  }

  ghost predicate InOrder(s: State) {
    && Core(s)
    && Matched(s.received, s.calls, s.batch + s.low)
    && Ascending(s.high)
    && (!s.lost && !s.closed ==> Ordered(s))
  }

  /** The pending call that waits for a serial is unique, so the search finds it. */
  lemma FindsIt(calls: seq<Call>, serials: map<Bus, nat>, pending: seq<nat>, call: nat)
    requires Below(pending, |calls|) && Numbered(calls, serials) && call in pending && !calls[call].delivered
    ensures FindCall(calls, pending, calls[call].target, calls[call].serial) == Some(call)
  {
    if pending[0] != call {
      assert call in pending[1..];
      var c := calls[pending[0]];
      assert c.target == calls[call].target ==> c.serial != calls[call].serial;
      FindsIt(calls, serials, pending[1..], call);
    }
  }

  /** Calls are appended and marked delivered; nothing else about them changes. */
  ghost predicate Grows(calls: seq<Call>, later: seq<Call>) {
    |calls| <= |later| && forall c :: 0 <= c < |calls| ==> Same(calls[c], later[c])
  }

  predicate Same(call: Call, later: Call) {
    later == call || later == call.(delivered := true)
  }

  /** The one message that an event may send. */
  lemma EventLogs(s: State)
    requires Sane(s) && s.high != []
    ensures var next := ProcessEvent(s);
      next.log == s.log
      || exists out :: next.log == s.log + [out]
                       && (TagOf(s.relay, out) == [] || TagOf(s.relay, out) == [s.high[0]])
  {
    EventOwns(s);
    hide FindCall, Below, CompletionsSane;
    var next := ProcessEvent(s);
    if next.log != s.log {
      var out := next.log[|s.log|];
      assert next.log == s.log + [out];
    }
  }

  /** And what it leaves alone. */
  lemma EventShape(s: State)
    requires Sane(s) && s.high != []
    ensures var next := ProcessEvent(s);
      && next.received == s.received && next.low == s.low && next.batch == s.batch && next.high == s.high[1..]
      && next.relay == s.relay && next.lost == s.lost && next.closed == s.closed && next.expired == s.expired
      && Grows(s.calls, next.calls)
      && (next.log == s.log
          || exists out :: next.log == s.log + [out]
                           && (TagOf(s.relay, out) == [] || TagOf(s.relay, out) == [s.high[0]]))
  {
    EventLogs(s);
    var tag, rest := s.high[0], s.(high := s.high[1..]);
    match s.received[tag].message
    case Reply(serial, _) =>
      var found := FindCall(s.calls, s.pending, s.received[tag].bus, serial);
      if found.Some? {
        DeliverShape(rest, found.value, Some(tag));
      }
      hide FindCall, Below, CompletionsSane, TagOf, DeliverReply, Grows;
    case Request(_, _) =>
      ForwardShape(rest, s.received[tag].bus, tag);
      hide FindCall, Below, CompletionsSane, TagOf, Forward, Grows;
    case Signal(_, _) =>
      hide FindCall, Below, CompletionsSane, TagOf;
  }

  lemma DeliverShape(s: State, call: nat, tag: Option<nat>)
    requires call < |s.calls| && (tag.Some? ==> tag.value < |s.received| && s.received[tag.value].message.Reply?)
    ensures var next := DeliverReply(s, call, tag);
      && next == s.(calls := next.calls, log := next.log) && Grows(s.calls, next.calls)
  {
  }

  lemma ForwardShape(s: State, origin: Bus, tag: nat)
    requires s.serials.Keys == {Peer, Host}
    ensures var next := Forward(s, origin, tag);
      && next.received == s.received && next.low == s.low && next.batch == s.batch && next.high == s.high
      && next.relay == s.relay && next.lost == s.lost && next.closed == s.closed && next.expired == s.expired
      && Grows(s.calls, next.calls) && Grows(s.calls, s.calls)
  {
  }

  lemma ReplyDelivers(s: State)
    requires Sane(s) && s.high != [] && !s.closed && s.received[s.high[0]].message.Reply?
    ensures var event := s.received[s.high[0]];
      var found := FindCall(s.calls, s.pending, event.bus, event.message.serial);
      found.Some? ==> found.value < |ProcessEvent(s).calls| && ProcessEvent(s).calls[found.value].delivered
  {
  }

  lemma MatchedLater(received: seq<Received>, more: seq<Received>, calls: seq<Call>, later: seq<Call>,
                     due: seq<Completion>)
    requires Matched(received, calls, due) && Grows(calls, later)
    ensures Matched(received + more, later, due)
  {
  }

  lemma MatchedSnoc(received: seq<Received>, calls: seq<Call>, due: seq<Completion>, one: Completion)
    requires Matched(received, calls, due)
    requires one.tag.Some? ==> Answering(received, calls, one.call, one.tag.value)
    ensures Matched(received, calls, due + [one])
  {
  }

  lemma AheadLater(relay: bool, calls: seq<Call>, later: seq<Call>, due: seq<Completion>, high: seq<nat>,
                   more: seq<nat>)
    requires Ahead(relay, calls, due, high) && Grows(calls, later)
    ensures Ahead(relay, later, due, high + more)
  {
  }

  /** Once the event of a reply has run, a callback that carries the reply finds its call delivered. */
  lemma AheadAfterEvent(s: State, later: seq<Call>)
    requires InOrder(s) && s.high != [] && Ahead(s.relay, s.calls, s.low, s.high) && Grows(s.calls, later)
    requires var event := s.received[s.high[0]];
      event.message.Reply? ==>
        var found := FindCall(s.calls, s.pending, event.bus, event.message.serial);
        found.Some? ==> later[found.value].delivered
    ensures Ahead(s.relay, later, s.low, s.high[1..])
  {
    hide Ordered, OnePath, Answers, Numbered, Ascending;
    var tag := s.high[0];
    forall k | 0 <= k < |s.low| && s.low[k].tag.Some?
      ensures s.low[k].call < |later|
      ensures later[s.low[k].call].delivered || s.low[k].tag.value in s.high[1..]
              || (s.relay && later[s.low[k].call].origin == Peer)
    {
      var call := s.low[k].call;
      assert (s.batch + s.low)[|s.batch| + k] == s.low[k];
      assert Answering(s.received, s.calls, call, s.low[k].tag.value);
      assert Same(s.calls[call], later[call]);
      if s.low[k].tag.value == tag && !s.calls[call].delivered {
        assert call in s.pending;
        FindsIt(s.calls, s.serials, s.pending, call);
      }
    }
  }

  lemma AscendingDrop(tags: seq<nat>, high: seq<nat>, n: nat)
    requires high != [] && Ascending(tags + high) && Below(tags + high, n)
    ensures Ascending(tags + high[1..]) && Below(tags + high[1..], n)
  {
    var whole, rest := tags + high, tags + high[1..];
    assert forall k :: 0 <= k < |rest| ==> rest[k] == whole[if k < |tags| then k else k + 1];
  }

  /** The head of the queue leaves, as the tag of what was sent or not. */
  lemma TagsShift(relay: bool, log: seq<Sent>, later: seq<Sent>, high: seq<nat>, n: nat)
    requires high != [] && Ascending(Tags(relay, log) + high) && Below(Tags(relay, log) + high, n)
    requires later == log || exists out :: later == log + [out] && (TagOf(relay, out) == [] || TagOf(relay, out) == [high[0]])
    ensures Ascending(Tags(relay, later) + high[1..]) && Below(Tags(relay, later) + high[1..], n)
  {
    var tags := Tags(relay, log);
    AscendingDrop(tags, high, n);
    hide Tags, Ascending, Below;
    if later != log {
      var out :| later == log + [out] && (TagOf(relay, out) == [] || TagOf(relay, out) == [high[0]]);
      TagsSnoc(relay, log, out);
      hide TagOf;
      Advance(tags, high);
    }
  }

  lemma Advance(tags: seq<nat>, high: seq<nat>)
    requires high != []
    ensures tags + [] == tags && (tags + [high[0]]) + high[1..] == tags + high
  {
    assert [high[0]] + high[1..] == high;
    Regrouped(tags, [high[0]], high[1..]);
  }

  lemma EventInOrder(s: State)
    requires InOrder(s) && s.batch == []
    ensures InOrder(ProcessEvent(s))
  {
    EventCore(s);
    if s.high != [] {
      var next := ProcessEvent(s);
      EventShape(s);
      MatchedLater(s.received, [], s.calls, next.calls, s.batch + s.low);
      assert s.received + [] == s.received;
      if !s.lost && !s.closed {
        TagsShift(s.relay, s.log, next.log, s.high, |s.received|);
        assert Sane(s);
        if s.received[s.high[0]].message.Reply? {
          ReplyDelivers(s);
        }
        AheadAfterEvent(s, next.calls);
      }
    }
  }

  /** A filter queues the message, answers it, or neither; the event of an awaited reply is only missing if it was lost
      or never had one. */
  lemma FilteredShape(s: State, received: Received, others: nat)
    requires Sane(s)
    ensures var next, tag := Filtered(s, received, others), |s.received|;
      && next == s.(received := s.received + [received], high := next.high, log := next.log, lost := next.lost)
      && (s.lost ==> next.lost)
      && ((next.high == s.high + [tag] && next.log == s.log)
          || (next.high == s.high && next.log == s.log && !received.message.Request?)
          || (next.high == s.high && next.log == s.log + [OwnAnswer(tag)] && received.message.Request?))
      && (AwaitedBy(s, received).Some? ==> next.high != s.high || next.lost || (s.relay && received.bus == Host))
  {
    hide AwaitedBy, Sane;
  }

  lemma ArriveShape(s: State, received: Received, others: nat)
    requires Sane(s)
    ensures var next, tag := Arrive(s, received, others), |s.received|;
      && next.received == s.received + [received] && next.calls == s.calls && next.batch == s.batch
      && next.relay == s.relay && next.closed == s.closed && next.expired == s.expired && (s.lost ==> next.lost)
      && ((next.high == s.high + [tag] && next.log == s.log)
          || (next.high == s.high && next.log == s.log && !received.message.Request?)
          || (next.high == s.high && next.log == s.log + [OwnAnswer(tag)] && received.message.Request?))
      && (next.low == s.low
          || exists call :: && next.low == s.low + [Completion(call, Some(tag))]
                            && Answering(next.received, s.calls, call, tag)
                            && (next.high != s.high || next.lost || (s.relay && received.bus == Host)))
  {
    FilteredShape(s, received, others);
    hide AwaitedBy, Sane, Filtered;
    var next, tag := Arrive(s, received, others), |s.received|;
    var awaited := AwaitedBy(s, received);
    if awaited.Some? {
      assert next.low == s.low + [Completion(awaited.value, Some(tag))];
      assert Answering(next.received, s.calls, awaited.value, tag);
    }
  }

  lemma AscendingSnoc(tags: seq<nat>, tag: nat)
    requires Ascending(tags) && Below(tags, tag)
    ensures Ascending(tags + [tag]) && Below(tags + [tag], tag + 1)
  {
  }

  lemma AheadSnoc(relay: bool, calls: seq<Call>, due: seq<Completion>, high: seq<nat>, one: Completion)
    requires Ahead(relay, calls, due, high) && one.tag.Some? && one.call < |calls|
    requires one.tag.value in high || (relay && calls[one.call].origin == Peer)
    ensures Ahead(relay, calls, due + [one], high)
  {
  }

  lemma AscendingMore(tags: seq<nat>, n: nat)
    requires Below(tags, n)
    ensures Below(tags, n + 1)
  {
  }

  lemma ArriveMatched(s: State, received: Received, others: nat)
    requires InOrder(s)
    ensures var next := Arrive(s, received, others); Matched(next.received, next.calls, next.batch + next.low)
  {
    assert Sane(s);
    hide Core, Sane, Ordered;
    ArriveShape(s, received, others);
    var next, tag := Arrive(s, received, others), |s.received|;
    assert Grows(s.calls, s.calls);
    hide Arrive, Matched, Answering, Grows;
    MatchedLater(s.received, [received], s.calls, s.calls, s.batch + s.low);
    if next.low != s.low {
      var call :| next.low == s.low + [Completion(call, Some(tag))] && Answering(next.received, s.calls, call, tag);
      assert next.batch + next.low == (s.batch + s.low) + [Completion(call, Some(tag))];
      MatchedSnoc(next.received, s.calls, s.batch + s.low, Completion(call, Some(tag)));
    }
  }

  lemma ArriveOrdered(s: State, received: Received, others: nat)
    requires InOrder(s)
    ensures var next := Arrive(s, received, others); Ascending(next.high) && (!next.lost && !next.closed ==> Ordered(next))
  {
    ArriveShape(s, received, others);
    var next, tag := Arrive(s, received, others), |s.received|;
    assert Below(s.high, tag) && Grows(s.calls, s.calls) && Numbered(s.calls, s.serials);
    hide Arrive, Core, Matched, Tags, Below, Ascending, Numbered, Ahead;
    AscendingSnoc(s.high, tag);
    if !next.lost && !next.closed {
      var more := next.high[|s.high|..];
      ArrivedTags(s, next, received);
      AheadLater(s.relay, s.calls, s.calls, s.low, s.high, more);
      assert s.high + more == next.high;
      if next.low != s.low {
        var call :| && next.low == s.low + [Completion(call, Some(tag))]
                    && Answering(next.received, s.calls, call, tag)
                    && (next.high != s.high || next.lost || (s.relay && received.bus == Host));
        CrossesOver(s, call);
        assert next.high != s.high ==> next.high[|s.high|] == tag;
        AheadSnoc(s.relay, s.calls, s.low, next.high, Completion(call, Some(tag)));
      }
    }
  }

  lemma CrossesOver(s: State, call: nat)
    requires call < |s.calls| && Numbered(s.calls, s.serials)
    ensures s.calls[call].target == Host <==> s.calls[call].origin == Peer
  {
  }

  /** An arrival adds its tag at the end of what is queued, or nothing. */
  lemma ArrivedTags(s: State, next: State, received: Received)
    requires Ascending(Tags(s.relay, s.log) + s.high) && Below(Tags(s.relay, s.log) + s.high, |s.received|)
    requires next.relay == s.relay && next.received == s.received + [received]
    requires var tag := |s.received|;
      || (next.high == s.high + [tag] && next.log == s.log)
      || (next.high == s.high && (next.log == s.log || next.log == s.log + [OwnAnswer(tag)]))
    ensures Ascending(Tags(next.relay, next.log) + next.high)
    ensures Below(Tags(next.relay, next.log) + next.high, |next.received|)
  {
    var tag, whole := |s.received|, Tags(s.relay, s.log) + s.high;
    AscendingSnoc(whole, tag);
    AscendingMore(whole, tag);
    TagsSnoc(s.relay, s.log, OwnAnswer(tag));
    hide Tags, Ascending, Below;
    assert Tags(s.relay, s.log) + [] == Tags(s.relay, s.log);
    assert Tags(s.relay, s.log) + (s.high + [tag]) == whole + [tag];
  }

  lemma ArriveInOrder(s: State, received: Received, others: nat)
    requires InOrder(s)
    ensures InOrder(Arrive(s, received, others))
  {
    ArriveCore(s, received, others);
    ArriveMatched(s, received, others);
    ArriveOrdered(s, received, others);
    hide Arrive, Core, Matched, Ascending, Ordered;
  }

  /** A callback sends nothing, or the answer of a call that was not delivered yet. */
  lemma CallbackShape(s: State)
    requires Sane(s) && s.batch != []
    ensures var next := ForwardFinished(s);
      && next.received == s.received && next.high == s.high && next.closed == s.closed
      && next.relay == s.relay && next.lost == s.lost && next.batch == s.batch[1..] && next.low == s.low
      && Grows(s.calls, next.calls)
      && (next.log == s.log
          || (!s.calls[s.batch[0].call].delivered
              && exists out :: && next.log == s.log + [out] && out.Answered? && out.reply == s.batch[0].tag
                               && out.to == s.calls[s.batch[0].call].origin))
  {
    hide Below, Without;
    var next := ForwardFinished(s);
    if next.log != s.log {
      var out := next.log[|s.log|];
      assert next.log == s.log + [out];
    }
  }

  lemma MatchedRest(received: seq<Received>, calls: seq<Call>, later: seq<Call>, batch: seq<Completion>,
                    low: seq<Completion>)
    requires Matched(received, calls, batch + low) && Grows(calls, later) && batch != []
    ensures Matched(received, later, batch[1..] + low)
  {
    assert batch[1..] + low == (batch + low)[1..];
    MatchedLater(received, [], calls, later, batch + low);
    assert received + [] == received;
  }

  /** What a callback answers has no place in the order: it carries no reply, or one that no event came before. */
  lemma CallbackTags(s: State)
    requires Sane(s) && s.batch != [] && Ahead(s.relay, s.calls, s.batch, [])
    ensures Tags(s.relay, ForwardFinished(s).log) == Tags(s.relay, s.log)
  {
    CallbackShape(s);
    var next := ForwardFinished(s);
    hide ForwardFinished, Grows;
    if next.log != s.log {
      var out :| && next.log == s.log + [out] && out.Answered? && out.reply == s.batch[0].tag
                 && out.to == s.calls[s.batch[0].call].origin;
      assert TagOf(s.relay, out) == [];
      TagsSnoc(s.relay, s.log, out);
      assert Tags(s.relay, s.log) + [] == Tags(s.relay, s.log);
    }
  }

  lemma CallbackInOrder(s: State)
    requires InOrder(s) && s.batch != []
    ensures InOrder(ForwardFinished(s))
  {
    FinishCore(s);
    CallbackShape(s);
    var next := ForwardFinished(s);
    assert Sane(s);
    hide ForwardFinished, Core, Sane, Answering, Tags, Below, Ascending, Grows, Ahead;
    MatchedRest(s.received, s.calls, next.calls, s.batch, s.low);
    hide Matched;
    if !s.lost && !s.closed {
      CallbackTags(s);
      AheadLater(s.relay, s.calls, next.calls, s.low, s.high, []);
      var none: seq<nat> := [];
      assert s.high + none == s.high && none + none == none;
      AheadLater(s.relay, s.calls, next.calls, s.batch, none, none);
      AheadRest(s.relay, next.calls, s.batch);
    }
  }

  lemma AheadRest(relay: bool, calls: seq<Call>, batch: seq<Completion>)
    requires Ahead(relay, calls, batch, []) && batch != []
    ensures Ahead(relay, calls, batch[1..], [])
  {
  }

  lemma ExpireInOrder(s: State, call: nat)
    requires InOrder(s) && call in s.awaiting
    ensures InOrder(Step(s, Expire(call)))
  {
    StepCore(s, Expire(call));
    var next := Step(s, Expire(call));
    hide Core, Answering, Ascending, Tags, Matched;
    assert next.batch + next.low == (s.batch + s.low) + [Completion(call, None)];
    MatchedSnoc(s.received, s.calls, s.batch + s.low, Completion(call, None));
  }

  lemma SelectInOrder(s: State, ready: nat)
    requires InOrder(s) && s.batch == [] && s.high == [] && ready <= |s.low|
    ensures InOrder(Step(s, Select(ready)))
  {
    assert Sane(s);
    hide Core, Sane, Matched, Answering, Ascending, Below, Tags, Ahead;
    SelectCore(s, ready);
    Resplit(s.batch, s.low, ready);
    if !s.lost && !s.closed {
      AheadSlices(s.relay, s.calls, s.low, ready, s.high);
    }
  }

  lemma AheadSlices(relay: bool, calls: seq<Call>, low: seq<Completion>, ready: nat, high: seq<nat>)
    requires Ahead(relay, calls, low, high) && ready <= |low|
    ensures Ahead(relay, calls, low[..ready], high) && Ahead(relay, calls, low[ready..], high)
  {
  }

  lemma Resplit(batch: seq<Completion>, low: seq<Completion>, ready: nat)
    requires batch == [] && ready <= |low|
    ensures low[..ready] + low[ready..] == batch + low
  {
  }

  lemma OtherSentInOrder(s: State, bus: Bus, count: nat)
    requires InOrder(s)
    ensures InOrder(Step(s, OtherSent(bus, count)))
  {
    StepCore(s, OtherSent(bus, count));
    hide Core, Ahead, Tags, Ascending, Below, Matched;
  }

  lemma StepInOrder(s: State, input: Input)
    requires InOrder(s)
    ensures InOrder(Step(s, input))
  {
    StepCore(s, input);
    match input
    case Receive(received, others) =>
      ArriveInOrder(s, received, others);
    case Expire(call) =>
      if call in s.awaiting {
        ExpireInOrder(s, call);
      }
    case RunEvent =>
      if s.batch == [] {
        EventInOrder(s);
      }
    case Select(ready) =>
      if s.batch == [] && s.high == [] && ready <= |s.low| {
        SelectInOrder(s, ready);
      }
    case RunCallback =>
      if s.batch != [] {
        CallbackInOrder(s);
      }
    case Close =>
    case OtherSent(bus, count) => OtherSentInOrder(s, bus, count);
  }

  // ---- What is sent ----

  /** An answer goes to where its request came from and carries the reply to it; an answer without a reply means
      that GDBus gave the call up. Only what was asked for or may be relayed leaves. */
  ghost predicate Right(out: Sent, received: seq<Received>, calls: seq<Call>, expired: set<nat>) {
    match out
    case OwnAnswer(tag) => tag < |received| && received[tag].message.Request?
    case Forwarded(tag, call) =>
      && tag < |received| && received[tag].message.Request? && call < |calls| && calls[call].request == tag
      && received[tag].message.bounded && received[tag].message.allowed
    case Relayed(tag) =>
      tag < |received| && received[tag].message.Signal? && received[tag].message.bounded && received[tag].message.relayed
    case Answered(call, to, None, usable) =>
      call < |calls| && call in expired && to == calls[call].origin && !usable
    case Answered(call, to, Some(tag), usable) =>
      Answering(received, calls, call, tag) && to == calls[call].origin && usable == received[tag].message.bounded
  }

  ghost predicate Truthful(log: seq<Sent>, received: seq<Received>, calls: seq<Call>, expired: set<nat>) {
    forall k :: 0 <= k < |log| ==> Right(log[k], received, calls, expired)
  }

  /** A call is made for a request that was received, crosses to the other bus, and the log shows it. */
  ghost predicate Made(log: seq<Sent>, received: seq<Received>, calls: seq<Call>) {
    forall c :: 0 <= c < |calls| ==>
      && calls[c].request < |received| && received[calls[c].request].message.Request?
      && calls[c].origin == received[calls[c].request].bus && calls[c].target == Other(calls[c].origin)
      && Forwarded(calls[c].request, c) in log
  }

  ghost predicate GivenUp(due: seq<Completion>, expired: set<nat>) {
    forall k :: 0 <= k < |due| && due[k].tag.None? ==> due[k].call in expired
  }

  ghost predicate Faithful(s: State) {
    && InOrder(s)
    && Truthful(s.log, s.received, s.calls, s.expired) && Made(s.log, s.received, s.calls)
    && GivenUp(s.batch + s.low, s.expired)
  }

  lemma TruthfulLater(log: seq<Sent>, received: seq<Received>, calls: seq<Call>, expired: set<nat>,
                      more: seq<Received>, later: seq<Call>, given: set<nat>)
    requires Truthful(log, received, calls, expired) && Grows(calls, later) && expired <= given
    ensures Truthful(log, received + more, later, given)
  {
    forall k | 0 <= k < |log| ensures Right(log[k], received + more, later, given) {
      assert Right(log[k], received, calls, expired);
      RightLater(log[k], received, calls, expired, more, later, given);
    }
  }

  lemma RightLater(out: Sent, received: seq<Received>, calls: seq<Call>, expired: set<nat>,
                   more: seq<Received>, later: seq<Call>, given: set<nat>)
    requires Right(out, received, calls, expired) && Grows(calls, later) && expired <= given
    ensures Right(out, received + more, later, given)
  {
    if (out.Answered? || out.Forwarded?) && out.call < |calls| {
      assert Same(calls[out.call], later[out.call]);
    }
  }

  /** At most one message leaves at an event, and it is right. */
  lemma EventSends(s: State)
    requires Sane(s) && s.high != []
    ensures var next := ProcessEvent(s);
      next.log == s.log
      || exists out :: next.log == s.log + [out] && Right(out, s.received, next.calls, s.expired)
  {
    hide CompletionsSane;
    var tag := s.high[0];
    var next := ProcessEvent(s);
    if next.log != s.log {
      var out := next.log[|s.log|];
      assert next.log == s.log + [out];
      assert tag < |s.received|;
      assert Right(out, s.received, next.calls, s.expired);
    }
  }

  /** A call is made for the request at the head of the queue, at most one at a time. */
  lemma EventMakes(s: State)
    requires Sane(s) && s.high != []
    ensures var next := ProcessEvent(s);
      |next.calls| == |s.calls|
      || (&& !s.closed && s.received[s.high[0]].message.Request?
          && next.calls == s.calls + [Call(s.high[0], s.received[s.high[0]].bus, Other(s.received[s.high[0]].bus),
                                           s.serials[Other(s.received[s.high[0]].bus)], false)]
          && next.log == s.log + [Forwarded(s.high[0], |s.calls|)])
  {
  }

  lemma MadeLater(log: seq<Sent>, out: seq<Sent>, received: seq<Received>, more: seq<Received>, calls: seq<Call>,
                  later: seq<Call>)
    requires Made(log, received, calls) && Grows(calls, later) && |later| == |calls|
    ensures Made(log + out, received + more, later)
  {
    forall c | 0 <= c < |later|
      ensures later[c].request < |received| && received[later[c].request].message.Request?
      ensures later[c].origin == received[later[c].request].bus && later[c].target == Other(later[c].origin)
      ensures Forwarded(later[c].request, c) in log + out
    {
      assert Same(calls[c], later[c]);
    }
  }

  lemma MadeSnoc(log: seq<Sent>, received: seq<Received>, calls: seq<Call>, call: Call)
    requires Made(log, received, calls)
    requires call.request < |received| && received[call.request].message.Request?
    requires call.origin == received[call.request].bus && call.target == Other(call.origin)
    ensures Made(log + [Forwarded(call.request, |calls|)], received, calls + [call])
  {
  }

  lemma EventFaithful(s: State)
    requires Faithful(s) && s.batch == []
    ensures Faithful(ProcessEvent(s))
  {
    EventInOrder(s);
    if s.high != [] {
      assert Sane(s);
      EventShape(s);
      EventSends(s);
      EventMakes(s);
      var next := ProcessEvent(s);
      assert s.received + [] == s.received;
      TruthfulLater(s.log, s.received, s.calls, s.expired, [], next.calls, s.expired);
      if next.log != s.log {
        var out :| next.log == s.log + [out] && Right(out, s.received, next.calls, s.expired);
        TruthfulSnoc(s.log, out, s.received, next.calls, s.expired);
      }
      if |next.calls| == |s.calls| {
        MadeLater(s.log, next.log[|s.log|..], s.received, [], s.calls, next.calls);
        assert s.log + next.log[|s.log|..] == next.log;
      } else {
        MadeSnoc(s.log, s.received, s.calls, next.calls[|s.calls|]);
      }
    }
  }

  lemma TruthfulSnoc(log: seq<Sent>, out: Sent, received: seq<Received>, calls: seq<Call>, expired: set<nat>)
    requires Truthful(log, received, calls, expired) && Right(out, received, calls, expired)
    ensures Truthful(log + [out], received, calls, expired)
  {
  }

  lemma ArriveFaithful(s: State, received: Received, others: nat)
    requires Faithful(s)
    ensures Faithful(Arrive(s, received, others))
  {
    ArriveInOrder(s, received, others);
    assert Sane(s);
    ArriveShape(s, received, others);
    var next := Arrive(s, received, others);
    TruthfulLater(s.log, s.received, s.calls, s.expired, [received], s.calls, s.expired);
    if next.log != s.log {
      TruthfulSnoc(s.log, OwnAnswer(|s.received|), next.received, s.calls, s.expired);
    }
    MadeLater(s.log, next.log[|s.log|..], s.received, [received], s.calls, s.calls);
    assert s.log + next.log[|s.log|..] == next.log;
    GivenUpNext(s.batch, s.low, next.low, s.expired, |s.received|);
  }

  lemma GivenUpNext(batch: seq<Completion>, low: seq<Completion>, later: seq<Completion>, expired: set<nat>, tag: nat)
    requires GivenUp(batch + low, expired)
    requires later == low || exists call :: later == low + [Completion(call, Some(tag))]
    ensures GivenUp(batch + later, expired)
  {
    if later != low {
      var call :| later == low + [Completion(call, Some(tag))];
      assert batch + later == (batch + low) + [Completion(call, Some(tag))];
    }
  }

  lemma GivenUpRest(batch: seq<Completion>, low: seq<Completion>, expired: set<nat>)
    requires GivenUp(batch + low, expired) && batch != []
    ensures GivenUp(batch[1..] + low, expired)
  {
    assert batch[1..] + low == (batch + low)[1..];
  }

  lemma CallbackSends(s: State)
    requires Faithful(s) && s.batch != []
    ensures var next := ForwardFinished(s);
      && next.expired == s.expired && |next.calls| == |s.calls|
      && (next.log == s.log
          || exists out :: next.log == s.log + [out] && Right(out, s.received, next.calls, s.expired))
  {
    var done := s.batch[0];
    var next := ForwardFinished(s);
    assert (s.batch + s.low)[0] == done;
    assert done.tag.Some? ==> Answering(s.received, s.calls, done.call, done.tag.value);
    assert done.tag.None? ==> done.call in s.expired;
    assert Sane(s);
    hide Faithful, Matched, GivenUp, Truthful, Made, InOrder, Core, Without;
    if next.log != s.log {
      var out := next.log[|s.log|];
      assert next.log == s.log + [out];
      assert Right(out, s.received, next.calls, s.expired);
    }
  }

  lemma CallbackFaithful(s: State)
    requires Faithful(s) && s.batch != []
    ensures Faithful(ForwardFinished(s))
  {
    CallbackInOrder(s);
    assert Sane(s);
    CallbackShape(s);
    CallbackSends(s);
    var next := ForwardFinished(s);
    assert s.received + [] == s.received;
    TruthfulLater(s.log, s.received, s.calls, s.expired, [], next.calls, s.expired);
    if next.log != s.log {
      var out :| next.log == s.log + [out] && Right(out, s.received, next.calls, s.expired);
      TruthfulSnoc(s.log, out, s.received, next.calls, s.expired);
    }
    MadeLater(s.log, next.log[|s.log|..], s.received, [], s.calls, next.calls);
    assert s.log + next.log[|s.log|..] == next.log;
    GivenUpRest(s.batch, s.low, s.expired);
  }

  lemma ExpireFaithful(s: State, call: nat)
    requires Faithful(s) && call in s.awaiting
    ensures Faithful(Step(s, Expire(call)))
  {
    ExpireInOrder(s, call);
    var next := Step(s, Expire(call));
    assert next.batch + next.low == (s.batch + s.low) + [Completion(call, None)];
    hide InOrder, Truthful, Made, Right;
    assert s.received + [] == s.received && Grows(s.calls, s.calls);
    TruthfulLater(s.log, s.received, s.calls, s.expired, [], s.calls, next.expired);
  }

  lemma SelectFaithful(s: State, ready: nat)
    requires Faithful(s) && s.batch == [] && s.high == [] && ready <= |s.low|
    ensures Faithful(Step(s, Select(ready)))
  {
    SelectInOrder(s, ready);
    Resplit(s.batch, s.low, ready);
  }

  lemma OtherSentFaithful(s: State, bus: Bus, count: nat)
    requires Faithful(s)
    ensures Faithful(Step(s, OtherSent(bus, count)))
  {
    OtherSentInOrder(s, bus, count);
    assert Sane(s);
    hide InOrder, Truthful, Made, GivenUp, Sane;
  }

  lemma StepFaithful(s: State, input: Input)
    requires Faithful(s)
    ensures Faithful(Step(s, input))
  {
    StepInOrder(s, input);
    match input
    case Receive(received, others) =>
      ArriveFaithful(s, received, others);
    case Expire(call) =>
      if call in s.awaiting {
        ExpireFaithful(s, call);
      }
    case RunEvent =>
      if s.batch == [] {
        EventFaithful(s);
      }
    case Select(ready) =>
      if s.batch == [] && s.high == [] && ready <= |s.low| {
        SelectFaithful(s, ready);
      }
    case RunCallback =>
      if s.batch != [] {
        CallbackFaithful(s);
      }
    case Close =>
    case OtherSent(bus, count) => OtherSentFaithful(s, bus, count);
  }

  // ---- What becomes of a request ----

  /** A request is queued, answered by the broker, or forwarded: at most one of these, and at most once. */
  ghost predicate Fates(log: seq<Sent>, calls: seq<Call>, high: seq<nat>) {
    && (forall k :: 0 <= k < |high| ==> OwnAnswer(high[k]) !in log)
    && (forall c :: 0 <= c < |calls| ==> calls[c].request !in high && OwnAnswer(calls[c].request) !in log)
    && (forall c, d :: 0 <= c < d < |calls| ==> calls[c].request != calls[d].request)
    && (forall i, j :: 0 <= i < j < |log| && log[i].OwnAnswer? && log[j].OwnAnswer? ==> log[i] != log[j])
  }

  ghost predicate Held(calls: seq<Call>, tag: nat) {
    exists c :: 0 <= c < |calls| && calls[c].request == tag
  }

  /** And while the client is open no request is dropped. */
  ghost predicate Attended(received: seq<Received>, log: seq<Sent>, calls: seq<Call>, high: seq<nat>) {
    forall t :: 0 <= t < |received| && received[t].message.Request? ==>
      t in high || OwnAnswer(t) in log || Held(calls, t)
  }

  ghost predicate Settled(s: State) {
    && Faithful(s) && Fates(s.log, s.calls, s.high)
    && (!s.closed ==> Attended(s.received, s.log, s.calls, s.high))
  }

  lemma FatesOwn(log: seq<Sent>, calls: seq<Call>, high: seq<nat>, rest: seq<nat>, tag: nat)
    requires Fates(log, calls, high) && OwnAnswer(tag) !in log && !Held(calls, tag)
    requires forall k :: 0 <= k < |rest| ==> rest[k] in high && rest[k] != tag
    ensures Fates(log + [OwnAnswer(tag)], calls, rest)
  {
  }

  lemma FatesHeld(log: seq<Sent>, calls: seq<Call>, high: seq<nat>, rest: seq<nat>, call: Call)
    requires Fates(log, calls, high) && call.request in high && !Held(calls, call.request)
    requires forall k :: 0 <= k < |rest| ==> rest[k] in high && rest[k] != call.request
    ensures Fates(log + [Forwarded(call.request, |calls|)], calls + [call], rest)
  {
  }

  lemma FatesOther(log: seq<Sent>, out: seq<Sent>, calls: seq<Call>, later: seq<Call>, high: seq<nat>, rest: seq<nat>)
    requires Fates(log, calls, high) && |later| == |calls| && Grows(calls, later)
    requires |out| <= 1 && (out != [] ==> !out[0].OwnAnswer?)
    requires forall k :: 0 <= k < |rest| ==> rest[k] in high
    ensures Fates(log + out, later, rest)
  {
    assert forall c :: 0 <= c < |calls| ==> Same(calls[c], later[c]);
  }

  lemma FatesQueued(log: seq<Sent>, calls: seq<Call>, high: seq<nat>, tag: nat)
    requires Fates(log, calls, high) && OwnAnswer(tag) !in log && !Held(calls, tag)
    ensures Fates(log, calls, high + [tag])
  {
  }

  lemma HeldLater(calls: seq<Call>, later: seq<Call>, tag: nat)
    requires Grows(calls, later) && Held(calls, tag)
    ensures Held(later, tag)
  {
    var c :| 0 <= c < |calls| && calls[c].request == tag;
    assert Same(calls[c], later[c]);
  }

  /** Each request finds its place when the one at `tag` does. */
  lemma AttendedLater(received: seq<Received>, more: seq<Received>, log: seq<Sent>, out: seq<Sent>, calls: seq<Call>,
                      later: seq<Call>, high: seq<nat>, rest: seq<nat>, tag: nat)
    requires Attended(received, log, calls, high) && Grows(calls, later)
    requires forall k :: 0 <= k < |high| && high[k] != tag ==> high[k] in rest
    requires |more| <= 1 && (more != [] ==> tag == |received|)
    requires tag < |received + more| && (received + more)[tag].message.Request? ==>
      tag in rest || OwnAnswer(tag) in out || Held(later, tag)
    ensures Attended(received + more, log + out, later, rest)
  {
    forall t | 0 <= t < |received + more| && (received + more)[t].message.Request?
      ensures t in rest || OwnAnswer(t) in log + out || Held(later, t)
    {
      if t < |received| && t != tag && Held(calls, t) {
        HeldLater(calls, later, t);
      }
    }
  }

  /** An event answers its own request or none, and an open client's request is answered or forwarded. */
  lemma EventOwns(s: State)
    requires Sane(s) && s.high != []
    ensures var next := ProcessEvent(s);
      var out := next.log[|s.log|..];
      && |s.log| <= |next.log| <= |s.log| + 1 && next.log == s.log + out
      && (out != [] && out[0].OwnAnswer? ==> out[0].tag == s.high[0])
      && (!s.closed && s.received[s.high[0]].message.Request? && |next.calls| == |s.calls| ==>
            out == [OwnAnswer(s.high[0])])
  {
  }

  /** The tag at the head of the queue is queued once and its request has no other fate yet. */
  lemma HeadIsNew(s: State)
    requires Settled(s) && s.high != []
    ensures var tag, rest := s.high[0], s.high[1..];
      && tag in s.high && !Held(s.calls, tag) && OwnAnswer(tag) !in s.log
      && (forall k :: 0 <= k < |rest| ==> rest[k] in s.high && rest[k] != tag)
      && (forall k :: 0 <= k < |s.high| && s.high[k] != tag ==> s.high[k] in rest)
  {
    hide Core, Matched, Ordered, Truthful, Made, GivenUp, Attended;
    var rest := s.high[1..];
    assert forall k :: 0 < k < |s.high| ==> s.high[k] == rest[k - 1];
  }

  lemma EventSettled(s: State)
    requires Settled(s) && s.batch == []
    ensures Settled(ProcessEvent(s))
  {
    hide *;
    SettledCore(s);
    SettledParts(s);
    EventFaithful(s);
    if s.high == [] {
      NoEvent(s);
    } else {
      EventShape(s);
      EventFates(s);
      if !s.closed {
        EventAttends(s);
      }
      PartsSettled(ProcessEvent(s));
    }
  }

  lemma SettledParts(s: State)
    requires Settled(s)
    ensures Faithful(s) && Fates(s.log, s.calls, s.high) && (!s.closed ==> Attended(s.received, s.log, s.calls, s.high))
  {
    hide Faithful, Fates, Attended;
  }

  lemma PartsSettled(s: State)
    requires Faithful(s) && Fates(s.log, s.calls, s.high)
    requires !s.closed ==> Attended(s.received, s.log, s.calls, s.high)
    ensures Settled(s)
  {
    hide Faithful, Fates, Attended;
  }

  lemma NoEvent(s: State)
    requires Sane(s) && s.high == []
    ensures ProcessEvent(s) == s
  {
    hide Sane;
  }

  lemma EventFates(s: State)
    requires Settled(s) && Sane(s) && s.high != []
    ensures var next := ProcessEvent(s); Fates(next.log, next.calls, next.high)
  {
    hide Sane, Settled, Fates, Grows, Other, ProcessEvent, TagOf, Attended, Faithful;
    SettledParts(s);
    EventShape(s);
    EventMakes(s);
    EventOwns(s);
    HeadIsNew(s);
    var next := ProcessEvent(s);
    var tag := s.high[0];
    var out := next.log[|s.log|..];
    if |next.calls| > |s.calls| {
      FatesHeld(s.log, s.calls, s.high, next.high, next.calls[|s.calls|]);
    } else if out == [OwnAnswer(tag)] {
      FatesOwn(s.log, s.calls, s.high, next.high, tag);
      FatesCalls(next.log, s.calls, next.calls, next.high);
    } else {
      FatesOther(s.log, out, s.calls, next.calls, s.high, next.high);
    }
  }

  lemma EventAttends(s: State)
    requires Settled(s) && Sane(s) && s.high != [] && !s.closed
    ensures var next := ProcessEvent(s); Attended(next.received, next.log, next.calls, next.high)
  {
    hide Sane, Settled, Fates, Grows, Other, ProcessEvent, TagOf, Attended, Faithful;
    SettledParts(s);
    EventShape(s);
    EventMakes(s);
    EventOwns(s);
    HeadIsNew(s);
    var next := ProcessEvent(s);
    var tag := s.high[0];
    if |next.calls| > |s.calls| {
      assert Held(next.calls, tag) by {
        assert next.calls[|s.calls|].request == tag;
      }
    }
    assert s.received + [] == s.received;
    AttendedLater(s.received, [], s.log, next.log[|s.log|..], s.calls, next.calls, s.high, next.high, tag);
  }

  lemma FatesCalls(log: seq<Sent>, calls: seq<Call>, later: seq<Call>, high: seq<nat>)
    requires Fates(log, calls, high) && |later| == |calls| && Grows(calls, later)
    ensures Fates(log, later, high)
  {
    FatesOther(log, [], calls, later, high, high);
    assert log + [] == log;
  }

  /** No message has this tag yet. */
  lemma NewTag(s: State)
    requires Faithful(s)
    ensures OwnAnswer(|s.received|) !in s.log && !Held(s.calls, |s.received|)
    ensures forall k :: 0 <= k < |s.high| ==> s.high[k] in s.high && s.high[k] != |s.received|
  {
    assert Below(s.high, |s.received|);
    hide InOrder, GivenUp;
  }

  lemma ArriveSettled(s: State, received: Received, others: nat)
    requires Settled(s)
    ensures Settled(Arrive(s, received, others))
  {
    SettledCore(s);
    NewTag(s);
    hide Sane, Faithful, Attended, Held, Fates;
    ArriveFaithful(s, received, others);
    ArriveShape(s, received, others);
    var next, tag := Arrive(s, received, others), |s.received|;
    hide Arrive;
    var out := if next.log == s.log then [] else [OwnAnswer(tag)];
    assert next.log == s.log + out;
    if out == [OwnAnswer(tag)] {
      FatesOwn(s.log, s.calls, s.high, s.high, tag);
    } else if next.high != s.high {
      FatesQueued(s.log, s.calls, s.high, tag);
    }
    if !s.closed {
      assert Grows(s.calls, s.calls);
      QueuedIn(s.high, next.high, tag);
      AttendedLater(s.received, [received], s.log, out, s.calls, s.calls, s.high, next.high, tag);
    }
  }

  lemma QueuedIn(high: seq<nat>, later: seq<nat>, tag: nat)
    requires later == high || later == high + [tag]
    ensures (forall k :: 0 <= k < |high| ==> high[k] in later) && (later != high ==> tag in later)
  {
    assert later != high ==> later[|high|] == tag;
  }

  lemma CallbackSettled(s: State)
    requires Settled(s) && s.batch != []
    ensures Settled(ForwardFinished(s))
  {
    SettledCore(s);
    hide Sane, Faithful, Fates, Attended, Held, Right;
    CallbackFaithful(s);
    CallbackShape(s);
    CallbackSends(s);
    var next := ForwardFinished(s);
    hide ForwardFinished, Grows;
    var out := next.log[|s.log|..];
    assert next.log == s.log + out;
    FatesOther(s.log, out, s.calls, next.calls, s.high, s.high);
    if !s.closed {
      assert s.received + [] == s.received;
      AttendedLater(s.received, [], s.log, out, s.calls, next.calls, s.high, s.high, |s.received|);
    }
  }

  lemma OtherSentSettled(s: State, bus: Bus, count: nat)
    requires Settled(s)
    ensures Settled(Step(s, OtherSent(bus, count)))
  {
    OtherSentFaithful(s, bus, count);
    assert Sane(s);
    hide Faithful, Fates, Attended, Sane;
  }

  lemma StepSettled(s: State, input: Input)
    requires Settled(s)
    ensures Settled(Step(s, input))
  {
    hide Arrive, ForwardFinished, ProcessEvent, Sane, Settled;
    SettledCore(s);
    match input
    case Receive(received, others) => ArriveSettled(s, received, others);
    case RunEvent =>
      if s.batch == [] {
        EventSettled(s);
      }
    case RunCallback =>
      if s.batch != [] {
        CallbackSettled(s);
      } else {
        NothingFinished(s);
      }
    case OtherSent(bus, count) => OtherSentSettled(s, bus, count);
    case _ => QuietSettled(s, input);
  }

  lemma NothingFinished(s: State)
    requires Sane(s) && s.batch == []
    ensures ForwardFinished(s) == s
  {
  }

  lemma QuietSettled(s: State, input: Input)
    requires Settled(s) && Sane(s) && (input.Expire? || input.Select? || input.Close?)
    ensures Settled(Step(s, input))
  {
    hide Attended, Faithful, Fates, Sane;
    StepFaithful(s, input);
  }

  // ---- Runs ----

  /** The state after a run: any messages, timeouts and closings, in any interleaving with the main loop. */
  ghost function Run(relay: bool, inputs: seq<Input>): (s: State)
    ensures Settled(s)
  {
    hide *;
    if inputs == [] then
      InitialSettled(relay);
      Initial(relay)
    else
      var before := Run(relay, inputs[..|inputs| - 1]);
      SettledCore(before);
      StepSettled(before, inputs[|inputs| - 1]);
      Step(before, inputs[|inputs| - 1])
  }

  lemma InitialSettled(relay: bool)
    ensures Settled(Initial(relay))
  {
    hide InOrder, GivenUp;
    InitialInOrder(relay);
    assert Initial(relay).batch + Initial(relay).low == [];
    NoneGivenUp(Initial(relay).expired);
  }

  lemma NoneGivenUp(expired: set<nat>)
    ensures GivenUp([], expired)
  {
  }

  lemma InitialInOrder(relay: bool)
    ensures InOrder(Initial(relay))
  {
    hide Core, Tags;
    InitialCore(relay);
    NoTags(relay);
  }

  lemma NoTags(relay: bool)
    ensures Tags(relay, []) == [] && Tags(relay, []) + [] == []
  {
  }

  lemma InitialCore(relay: bool)
    ensures Core(Initial(relay))
  {
  }

  lemma RunSnoc(relay: bool, inputs: seq<Input>, input: Input)
    ensures Run(relay, inputs + [input]) == Step(Run(relay, inputs), input)
  {
    assert (inputs + [input])[..|inputs|] == inputs;
  }

  /** A client is closed from its Close on. */
  lemma {:induction false} ClosedByClose(relay: bool, inputs: seq<Input>)
    ensures Run(relay, inputs).closed <==> Close in inputs
  {
    hide Settled, Step, Run;
    if inputs == [] {
      StartsOpen(relay);
    } else {
      var before, input := inputs[..|inputs| - 1], inputs[|inputs| - 1];
      ClosedByClose(relay, before);
      RunSnoc(relay, before, input);
      RunSane(relay, before);
      FlagsChange(Run(relay, before), input);
      assert inputs == before + [input];
    }
  }

  lemma StartsOpen(relay: bool)
    ensures Run(relay, []) == Initial(relay) && !Run(relay, []).closed && !Run(relay, []).lost
  {
    hide Settled;
  }

  lemma RunSane(relay: bool, inputs: seq<Input>)
    ensures Sane(Run(relay, inputs))
  {
    hide Run, Sane, Step;
    SettledCore(Run(relay, inputs));
  }

  /** A reply that some call waits for finds 1024 events in the queue. */
  predicate Loses(s: State, input: Input) {
    && input.Receive? && input.received.message.Reply? && |s.high| + input.others >= 1024
    && (s.relay ==> input.received.bus == Peer)
    && exists call :: 0 <= call < |s.calls| && call in s.awaiting && s.calls[call].target == input.received.bus
                      && s.calls[call].serial == input.received.message.serial
  }

  ghost predicate NoneLost(relay: bool, inputs: seq<Input>) {
    inputs != [] ==>
      NoneLost(relay, inputs[..|inputs| - 1]) && !Loses(Run(relay, inputs[..|inputs| - 1]), inputs[|inputs| - 1])
  }

  /** `lost` tells whether that happened. */
  lemma {:induction false} LostWhenFull(relay: bool, inputs: seq<Input>)
    ensures Run(relay, inputs).lost <==> !NoneLost(relay, inputs)
  {
    hide Settled, Step, Run, Loses;
    if inputs == [] {
      StartsOpen(relay);
    } else {
      var before, input := inputs[..|inputs| - 1], inputs[|inputs| - 1];
      LostWhenFull(relay, before);
      RunSnoc(relay, before, input);
      RunSane(relay, before);
      FlagsChange(Run(relay, before), input);
      assert inputs == before + [input];
    }
  }

  lemma FlagsChange(s: State, input: Input)
    requires Sane(s)
    ensures var next := Step(s, input);
      (next.closed <==> s.closed || input == Close) && (next.lost <==> s.lost || Loses(s, input))
  {
    hide FindCall, Waiting, Sane, Without;
    if input.Receive? && input.received.message.Reply? {
      WaitingIs(s.calls, s.awaiting, input.received.bus, input.received.message.serial, 0);
    }
  }

  lemma {:induction false} WaitingIs(calls: seq<Call>, awaiting: set<nat>, bus: Bus, serial: nat, from: nat)
    requires from <= |calls|
    ensures Waiting(calls, awaiting, bus, serial, from).Some? <==>
            exists call :: from <= call < |calls| && call in awaiting && calls[call].target == bus
                           && calls[call].serial == serial
    decreases |calls| - from
  {
    if from < |calls| {
      WaitingIs(calls, awaiting, bus, serial, from + 1);
    }
  }

  /** The answers a request got: the broker's own, or those of the call made for it. */
  function Replies(log: seq<Sent>, calls: seq<Call>, tag: nat): nat {
    if log == [] then 0
    else Replies(log[..|log| - 1], calls, tag) + if IsReplyTo(log[|log| - 1], calls, tag) then 1 else 0
  }

  predicate IsReplyTo(out: Sent, calls: seq<Call>, tag: nat) {
    out == OwnAnswer(tag) || (out.Answered? && out.call < |calls| && calls[out.call].request == tag)
  }

  lemma {:induction false} RepliesForwarded(log: seq<Sent>, calls: seq<Call>, call: nat)
    requires call < |calls| && OwnAnswer(calls[call].request) !in log
    requires forall c, d :: 0 <= c < d < |calls| ==> calls[c].request != calls[d].request
    ensures Replies(log, calls, calls[call].request) == Answers(log, call)
  {
    if log != [] {
      assert log[|log| - 1] in log;
      RepliesForwarded(log[..|log| - 1], calls, call);
    }
  }

  lemma {:induction false} RepliesOwn(log: seq<Sent>, calls: seq<Call>, tag: nat)
    requires !Held(calls, tag)
    requires forall i, j :: 0 <= i < j < |log| && log[i].OwnAnswer? && log[j].OwnAnswer? ==> log[i] != log[j]
    ensures Replies(log, calls, tag) == if OwnAnswer(tag) in log then 1 else 0
  {
    if log != [] {
      var before := log[..|log| - 1];
      RepliesOwn(before, calls, tag);
      assert log == before + [log[|log| - 1]];
    }
  }

  /** At most 64 calls are outstanding and the count is the length of the list, however the run interleaves. */
  lemma OutstandingIsPending(relay: bool, inputs: seq<Input>)
    ensures var s := Run(relay, inputs); s.outstanding == |s.pending| <= 64
  {
    var s := Run(relay, inputs);
  }

  /** A forwarded request has at most one answer, and exactly one once its call is off the list: after a reply, a
      timeout or an error, with the client closed or not, with the queue full or not. */
  lemma ForwardedIsAnsweredOnce(relay: bool, inputs: seq<Input>, call: nat)
    requires call < |Run(relay, inputs).calls|
    ensures var s := Run(relay, inputs);
      && Replies(s.log, s.calls, s.calls[call].request) <= 1
      && (call !in s.pending ==> Replies(s.log, s.calls, s.calls[call].request) == 1)
      && (call in s.pending ==>
            call in s.awaiting || exists k :: 0 <= k < |s.batch + s.low| && (s.batch + s.low)[k].call == call)
  {
    var s := Run(relay, inputs);
    RepliesForwarded(s.log, s.calls, call);
  }

  /** No request of any kind gets two answers, and when nothing is queued or pending every request an open client
      made has exactly one. */
  lemma OneReplyPerRequest(relay: bool, inputs: seq<Input>, tag: nat)
    requires tag < |Run(relay, inputs).received| && Run(relay, inputs).received[tag].message.Request?
    ensures var s := Run(relay, inputs);
      && Replies(s.log, s.calls, tag) <= 1
      && (!s.closed && s.high == [] && s.pending == [] ==> Replies(s.log, s.calls, tag) == 1)
  {
    var s := Run(relay, inputs);
    if Held(s.calls, tag) {
      var call :| 0 <= call < |s.calls| && s.calls[call].request == tag;
      ForwardedIsAnsweredOnce(relay, inputs, call);
    } else {
      RepliesOwn(s.log, s.calls, tag);
      if !s.closed && s.high == [] {
        assert tag !in s.high;
      }
    }
  }

  /** Relayed replies and signals leave in the order of their receipt while the client is open and no reply that a call
      waited for was lost to a full queue. For the relay this is said of what comes over the connection to the broker. */
  lemma RelayedInOrder(relay: bool, inputs: seq<Input>)
    requires !Run(relay, inputs).lost && !Run(relay, inputs).closed
    ensures Ascending(Tags(relay, Run(relay, inputs).log))
  {
    var s := Run(relay, inputs);
    RunRelays(relay, inputs);
    hide Run, Core, Matched, Ahead, Truthful, Made, GivenUp, Fates, Attended;
    assert Ascending(Tags(s.relay, s.log) + s.high);
    AscendingFront(Tags(relay, s.log), s.high);
  }

  lemma AscendingFront(tags: seq<nat>, more: seq<nat>)
    requires Ascending(tags + more)
    ensures Ascending(tags)
  {
    assert forall k :: 0 <= k < |tags| ==> tags[k] == (tags + more)[k];
  }

  lemma {:induction false} RunRelays(relay: bool, inputs: seq<Input>)
    ensures Run(relay, inputs).relay == relay
  {
    if inputs != [] {
      var before := Run(relay, inputs[..|inputs| - 1]);
      RunRelays(relay, inputs[..|inputs| - 1]);
      SettledCore(before);
      hide Sane, Settled, Step;
      StepRelays(before, inputs[|inputs| - 1]);
    }
  }

  lemma StepRelays(s: State, input: Input)
    requires Sane(s)
    ensures Step(s, input).relay == s.relay
  {
    match input
    case Receive(received, others) =>
      ArriveShape(s, received, others);
      hide Sane, Arrive;
    case RunEvent =>
      if s.high != [] {
        EventShape(s);
      }
      hide Sane, ProcessEvent;
    case RunCallback =>
      if s.batch != [] {
        CallbackShape(s);
      }
      hide Sane, ForwardFinished;
    case _ =>
      hide Sane;
  }

  // ---- What must leave ----

  /** The messages that a step queues: those that find room, except what the guest's own bus sends beside requests. */
  function Queued(s: State, input: Input): set<nat> {
    if input.Receive? && |s.high| + input.others < 1024
       && (!s.relay || input.received.bus == Peer || input.received.message.Request?)
    then {|s.received|} else {}
  }

  /** The message whose event a step runs for an open client. */
  function Ran(s: State, input: Input): set<nat> {
    if input.RunEvent? && s.batch == [] && s.high != [] && !s.closed then {s.high[0]} else {}
  }

  /** The same, if as many calls are pending then as may be. */
  function AtLimit(s: State, input: Input): set<nat> {
    if |s.pending| >= 64 then Ran(s, input) else {}
  }

  /** All messages that a run queued, whose events it ran, and whose events it ran at the limit. */
  ghost function AllQueued(relay: bool, inputs: seq<Input>): set<nat> {
    if inputs == [] then {}
    else
      var before := inputs[..|inputs| - 1];
      AllQueued(relay, before) + Queued(Run(relay, before), inputs[|inputs| - 1])
  }

  ghost function AllRan(relay: bool, inputs: seq<Input>): set<nat> {
    if inputs == [] then {}
    else
      var before := inputs[..|inputs| - 1];
      AllRan(relay, before) + Ran(Run(relay, before), inputs[|inputs| - 1])
  }

  ghost function AllAtLimit(relay: bool, inputs: seq<Input>): set<nat> {
    if inputs == [] then {}
    else
      var before := inputs[..|inputs| - 1];
      AllAtLimit(relay, before) + AtLimit(Run(relay, before), inputs[|inputs| - 1])
  }

  /** What becomes of one message: it is relayed, forwarded or answered by the program itself exactly as it should. */
  ghost predicate Handled(message: Message, tag: nat, log: seq<Sent>, calls: seq<Call>, queued: bool, ran: bool,
                          limit: bool)
  {
    && (Relayed(tag) in log <==> ran && message.Signal? && message.bounded && message.relayed)
    && (Held(calls, tag) <==> ran && message.Request? && message.bounded && message.allowed && !limit)
    && (OwnAnswer(tag) in log <==>
          message.Request? && (!queued || (ran && (!message.bounded || !message.allowed || limit))))
  }

  ghost predicate AllHandled(s: State, queued: set<nat>, ran: set<nat>, limit: set<nat>) {
    forall t :: 0 <= t < |s.received| ==>
      Handled(s.received[t].message, t, s.log, s.calls, t in queued, t in ran, t in limit)
  }

  ghost predicate Placed(n: nat, closed: bool, high: seq<nat>, queued: set<nat>, ran: set<nat>, limit: set<nat>) {
    && (forall t <- queued :: t < n) && ran <= queued && limit <= ran
    && (forall t <- high :: t in queued && t !in ran)
    && (!closed ==> forall t <- queued :: t in ran || t in high)
  }

  ghost predicate Booked(s: State, queued: set<nat>, ran: set<nat>, limit: set<nat>) {
    Placed(|s.received|, s.closed, s.high, queued, ran, limit) && AllHandled(s, queued, ran, limit)
  }

  /** What one event does. */
  lemma EventHandles(s: State)
    requires Sane(s) && s.high != [] && !s.closed
    ensures var next, tag := ProcessEvent(s), s.high[0];
      match s.received[tag].message
      case Signal(bounded, relayed) =>
        next.calls == s.calls && next.log == s.log + if bounded && relayed then [Relayed(tag)] else []
      case Request(bounded, allowed) =>
        if bounded && allowed && s.outstanding < 64 then
          && next.log == s.log + [Forwarded(tag, |s.calls|)]
          && |next.calls| == |s.calls| + 1 && next.calls[..|s.calls|] == s.calls && next.calls[|s.calls|].request == tag
        else next.calls == s.calls && next.log == s.log + [OwnAnswer(tag)]
      case Reply(_, _) =>
        |next.calls| == |s.calls| && (next.log == s.log || exists out: Sent :: out.Answered? && next.log == s.log + [out])
  {
    hide FindCall, Below, CompletionsSane;
    var next := ProcessEvent(s);
    if next.log != s.log {
      var out := next.log[|s.log|];
      assert next.log == s.log + [out];
    } else {
      assert s.log + [] == s.log;
    }
  }

  /** A message keeps what became of it while nothing is said of it. */
  lemma HandledStill(message: Message, tag: nat, log: seq<Sent>, out: seq<Sent>, calls: seq<Call>, later: seq<Call>,
                     queued: bool, ran: bool, limit: bool)
    requires Handled(message, tag, log, calls, queued, ran, limit)
    requires Relayed(tag) !in out && OwnAnswer(tag) !in out && (Held(later, tag) <==> Held(calls, tag))
    ensures Handled(message, tag, log + out, later, queued, ran, limit)
  {
    hide Held;
  }

  lemma HeldSame(calls: seq<Call>, later: seq<Call>, tag: nat)
    requires Grows(calls, later)
    requires forall c :: |calls| <= c < |later| ==> later[c].request != tag
    ensures Held(later, tag) <==> Held(calls, tag)
  {
    if Held(calls, tag) {
      HeldLater(calls, later, tag);
    }
    if Held(later, tag) {
      var c :| 0 <= c < |later| && later[c].request == tag;
      assert c < |calls| && Same(calls[c], later[c]);
    }
  }

  /** A step that says nothing of any message, but for answers to calls. */
  lemma AllHandledStill(s: State, out: seq<Sent>, next: State, queued: set<nat>, ran: set<nat>, limit: set<nat>)
    requires AllHandled(s, queued, ran, limit) && next.received == s.received
    requires next.log == s.log + out && forall k :: 0 <= k < |out| ==> out[k].Answered?
    requires Grows(s.calls, next.calls) && |next.calls| == |s.calls|
    ensures AllHandled(next, queued, ran, limit)
  {
    hide Grows, Handled;
    forall t | 0 <= t < |next.received|
      ensures Handled(next.received[t].message, t, next.log, next.calls, t in queued, t in ran, t in limit)
    {
      HeldSame(s.calls, next.calls, t);
      HandledStill(s.received[t].message, t, s.log, out, s.calls, next.calls, t in queued, t in ran, t in limit);
    }
  }

  /** The head of the queue is not among the others. */
  lemma BookedHead(s: State, queued: set<nat>, ran: set<nat>, limit: set<nat>)
    requires Settled(s) && s.high != [] && Booked(s, queued, ran, limit)
    ensures var tag, rest := s.high[0], s.high[1..];
      && tag in queued && tag !in ran && tag !in limit && tag < |s.received|
      && Relayed(tag) !in s.log && OwnAnswer(tag) !in s.log && !Held(s.calls, tag)
      && (forall t <- rest :: t in s.high && t != tag)
      && (forall t <- s.high :: t == tag || t in rest)
  {
    HeadIsNew(s);
    hide Settled, Held;
    assert s.high[0] in s.high;
  }

  lemma HeadHandled(s: State, limited: bool)
    requires Settled(s) && Sane(s) && s.high != [] && !s.closed && (limited <==> |s.pending| >= 64)
    requires var tag := s.high[0]; Relayed(tag) !in s.log && OwnAnswer(tag) !in s.log && !Held(s.calls, tag)
    ensures var next, tag := ProcessEvent(s), s.high[0];
      Handled(s.received[tag].message, tag, next.log, next.calls, true, true, limited)
  {
    SettledCount(s);
    hide Settled, Sane, ProcessEvent, Held;
    EventHandles(s);
    EventShape(s);
    var next, tag := ProcessEvent(s), s.high[0];
    if |next.calls| == |s.calls| {
      HeldSame(s.calls, next.calls, tag);
    } else {
      HeldLast(next.calls);
    }
  }

  lemma HeldLast(calls: seq<Call>)
    requires calls != []
    ensures Held(calls, calls[|calls| - 1].request)
  {
  }

  lemma SettledCount(s: State)
    requires Settled(s)
    ensures s.outstanding == |s.pending|
  {
    hide Sane, Numbered, OnePath, AnsweredOnce, Distinct, Matched, Ordered, Truthful, Made, GivenUp, Fates, Attended;
  }

  lemma OthersHandled(s: State, t: nat, queued: bool, ran: bool, limit: bool)
    requires Sane(s) && s.high != [] && !s.closed && t < |s.received| && t != s.high[0]
    requires Handled(s.received[t].message, t, s.log, s.calls, queued, ran, limit)
    ensures var next := ProcessEvent(s);
      Handled(s.received[t].message, t, next.log, next.calls, queued, ran, limit)
  {
    hide Sane, ProcessEvent, Held, Handled;
    EventHandles(s);
    EventShape(s);
    var next := ProcessEvent(s);
    var out := next.log[|s.log|..];
    assert next.log == s.log + out;
    HeldSame(s.calls, next.calls, t);
    HandledStill(s.received[t].message, t, s.log, out, s.calls, next.calls, queued, ran, limit);
  }

  lemma PlacedEvent(s: State, queued: set<nat>, ran: set<nat>, limit: set<nat>)
    requires s.high != [] && s.batch == [] && Placed(|s.received|, s.closed, s.high, queued, ran, limit)
    requires s.high[0] !in s.high[1..]
    ensures Placed(|s.received|, s.closed, s.high[1..], queued, ran + Ran(s, RunEvent), limit + AtLimit(s, RunEvent))
  {
    assert s.high == [s.high[0]] + s.high[1..];
  }

  lemma EventBooked(s: State, queued: set<nat>, ran: set<nat>, limit: set<nat>)
    requires Settled(s) && s.high != [] && s.batch == [] && Booked(s, queued, ran, limit)
    ensures Booked(ProcessEvent(s), queued, ran + Ran(s, RunEvent), limit + AtLimit(s, RunEvent))
  {
    SettledCore(s);
    hide Settled, Sane, ProcessEvent, Handled, Held, Placed, Grows;
    BookedHead(s, queued, ran, limit);
    EventShape(s);
    PlacedEvent(s, queued, ran, limit);
    if s.closed {
      ClosedEvent(s);
      assert ran + {} == ran && limit + {} == limit;
    } else {
      EventAllHandled(s, queued, ran, limit);
    }
  }

  lemma EventAllHandled(s: State, queued: set<nat>, ran: set<nat>, limit: set<nat>)
    requires Settled(s) && s.high != [] && s.batch == [] && !s.closed && Booked(s, queued, ran, limit)
    ensures Sane(s) && AllHandled(ProcessEvent(s), queued, ran + Ran(s, RunEvent), limit + AtLimit(s, RunEvent))
  {
    SettledCore(s);
    hide Settled, Sane, ProcessEvent, Handled, Held, Placed, Grows;
    BookedHead(s, queued, ran, limit);
    EventShape(s);
    var next, tag, limited := ProcessEvent(s), s.high[0], |s.pending| >= 64;
    HeadHandled(s, limited);
    forall t | 0 <= t < |s.received| && t != tag
      ensures Handled(s.received[t].message, t, next.log, next.calls, t in queued, t in ran, t in limit)
    {
      OthersHandled(s, t, t in queued, t in ran, t in limit);
    }
  }

  lemma ClosedEvent(s: State)
    requires Sane(s) && s.high != [] && s.closed
    ensures ProcessEvent(s).log == s.log && ProcessEvent(s).calls == s.calls
  {
  }

  lemma ArriveBooked(s: State, received: Received, others: nat, queued: set<nat>, ran: set<nat>, limit: set<nat>)
    requires Settled(s) && Sane(s) && Booked(s, queued, ran, limit)
    ensures Booked(Arrive(s, received, others), queued + Queued(s, Receive(received, others)), ran, limit)
  {
    hide Settled, Sane, Arrive, Held, Handled, Queued;
    NothingYet(s);
    ArriveShape(s, received, others);
    ArriveQueues(s, received, others);
    var next, tag := Arrive(s, received, others), |s.received|;
    var more := Queued(s, Receive(received, others));
    PlacedArrival(tag, s.closed, s.high, next.high, queued, ran, limit, more);
    var out := if next.log == s.log then [] else [OwnAnswer(tag)];
    assert next.log == s.log + out;
    ArrivedHandled(received.message, tag, s.log, out, s.calls, tag in queued + more, tag in ran, tag in limit);
    hide Placed;
    forall t | 0 <= t < |s.received|
      ensures Handled(s.received[t].message, t, next.log, next.calls, t in queued + more, t in ran, t in limit)
    {
      HandledStill(s.received[t].message, t, s.log, out, s.calls, s.calls, t in queued, t in ran, t in limit);
    }
  }

  lemma PlacedArrival(n: nat, closed: bool, high: seq<nat>, later: seq<nat>, queued: set<nat>, ran: set<nat>,
                      limit: set<nat>, more: set<nat>)
    requires Placed(n, closed, high, queued, ran, limit)
    requires (more == {} && later == high) || (more == {n} && later == high + [n])
    ensures Placed(n + 1, closed, later, queued + more, ran, limit) && n !in queued && n !in ran && n !in limit
  {
  }

  lemma ArrivedHandled(message: Message, tag: nat, log: seq<Sent>, out: seq<Sent>, calls: seq<Call>, queued: bool,
                       ran: bool, limit: bool)
    requires Relayed(tag) !in log && OwnAnswer(tag) !in log && !Held(calls, tag) && !ran
    requires out == if message.Request? && !queued then [OwnAnswer(tag)] else []
    ensures Handled(message, tag, log + out, calls, queued, ran, limit)
  {
    hide Held;
  }

  lemma NothingYet(s: State)
    requires Settled(s)
    ensures var tag := |s.received|; Relayed(tag) !in s.log && OwnAnswer(tag) !in s.log && !Held(s.calls, tag)
  {
    hide InOrder, GivenUp, Made, Fates, Attended, Held;
    NewTag(s);
  }

  /** An arriving message is queued, or its request answered, or neither. */
  lemma ArriveQueues(s: State, received: Received, others: nat)
    requires Sane(s)
    ensures var next, tag := Arrive(s, received, others), |s.received|;
      var queued := Queued(s, Receive(received, others));
      || (queued == {tag} && next.high == s.high + [tag] && next.log == s.log)
      || (queued == {} && next.high == s.high
          && next.log == s.log + if received.message.Request? then [OwnAnswer(tag)] else [])
  {
    hide AwaitedBy, Sane;
    assert s.log + [] == s.log;
  }

  lemma CallbackBooked(s: State, queued: set<nat>, ran: set<nat>, limit: set<nat>)
    requires Settled(s) && Sane(s) && s.batch != [] && Booked(s, queued, ran, limit)
    ensures Booked(ForwardFinished(s), queued, ran, limit)
  {
    hide Settled, Sane, ForwardFinished, Handled, Held;
    CallbackShape(s);
    CallbackKeepsCalls(s);
    var next := ForwardFinished(s);
    var out := next.log[|s.log|..];
    assert next.log == s.log + out;
    AllHandledStill(s, out, next, queued, ran, limit);
    hide AllHandled;
  }

  lemma CallbackKeepsCalls(s: State)
    requires Sane(s) && s.batch != []
    ensures |ForwardFinished(s).calls| == |s.calls|
  {
    hide Below, Without;
  }

  lemma QuietBooked(s: State, input: Input, queued: set<nat>, ran: set<nat>, limit: set<nat>)
    requires Sane(s) && Booked(s, queued, ran, limit)
    requires input.Expire? || input.Select? || input.Close? || input.OtherSent?
    ensures Booked(Step(s, input), queued, ran, limit)
  {
    hide Below, CompletionsSane, Handled;
  }

  lemma StepBooked(s: State, input: Input, queued: set<nat>, ran: set<nat>, limit: set<nat>)
    requires Settled(s) && Booked(s, queued, ran, limit)
    ensures Booked(Step(s, input), queued + Queued(s, input), ran + Ran(s, input), limit + AtLimit(s, input))
  {
    hide Settled, Sane, Booked, Arrive, ProcessEvent, ForwardFinished;
    SettledCore(s);
    assert queued + {} == queued && ran + {} == ran && limit + {} == limit;
    match input
    case Receive(received, others) => ArriveBooked(s, received, others, queued, ran, limit);
    case RunEvent =>
      if s.batch == [] {
        if s.high != [] {
          EventBooked(s, queued, ran, limit);
        } else {
          NothingQueued(s);
        }
      }
    case RunCallback =>
      if s.batch != [] {
        CallbackBooked(s, queued, ran, limit);
      } else {
        NothingFinished(s);
      }
    case _ => QuietBooked(s, input, queued, ran, limit);
  }

  lemma NothingBooked(relay: bool)
    ensures Booked(Initial(relay), {}, {}, {})
  {
  }

  lemma {:induction false} RunBooked(relay: bool, inputs: seq<Input>)
    ensures Booked(Run(relay, inputs), AllQueued(relay, inputs), AllRan(relay, inputs), AllAtLimit(relay, inputs))
  {
    hide Booked, Settled, Step, Run, Queued, Ran, AtLimit;
    if inputs == [] {
      RunNothing(relay);
      NothingBooked(relay);
    } else {
      var before, input := inputs[..|inputs| - 1], inputs[|inputs| - 1];
      RunBooked(relay, before);
      StepBooked(Run(relay, before), input, AllQueued(relay, before), AllRan(relay, before), AllAtLimit(relay, before));
      RunSnoc(relay, before, input);
      assert inputs == before + [input];
    }
  }

  /** In every run, of all messages received: exactly the bounded and permitted signals whose events ran for an open
      client were relayed; exactly the bounded and allowed requests whose events ran so while fewer than 64 calls were
      pending were forwarded; and exactly the other requests whose events ran, and those that found no room in the queue,
      were answered by the program itself. */
  lemma EventsDecide(relay: bool, inputs: seq<Input>, tag: nat)
    requires tag < |Run(relay, inputs).received|
    ensures var s, message := Run(relay, inputs), Run(relay, inputs).received[tag].message;
      var queued, ran := tag in AllQueued(relay, inputs), tag in AllRan(relay, inputs);
      var limit := tag in AllAtLimit(relay, inputs);
      && (Relayed(tag) in s.log <==> ran && message.Signal? && message.bounded && message.relayed)
      && ((exists call :: Forwarded(tag, call) in s.log) <==>
            ran && message.Request? && message.bounded && message.allowed && !limit)
      && (OwnAnswer(tag) in s.log <==>
            message.Request? && (!queued || (ran && (!message.bounded || !message.allowed || limit))))
  {
    RunBooked(relay, inputs);
    HeldIsForwarded(Run(relay, inputs), tag);
    hide Run, AllQueued, AllRan, AllAtLimit, Settled, Held;
  }

  /** And for an open client the event of every message that was queued has run once it is off the queue. */
  lemma QueuedRuns(relay: bool, inputs: seq<Input>, tag: nat)
    requires !Run(relay, inputs).closed
    ensures tag in AllRan(relay, inputs) <==> tag in AllQueued(relay, inputs) && tag !in Run(relay, inputs).high
  {
    RunBooked(relay, inputs);
    hide Run, AllQueued, AllRan, AllAtLimit, AllHandled;
  }

  lemma HeldIsForwarded(s: State, tag: nat)
    requires Settled(s)
    ensures Held(s.calls, tag) <==> exists call :: Forwarded(tag, call) in s.log
  {
    hide InOrder, GivenUp, Fates, Attended;
    if Held(s.calls, tag) {
      var c :| 0 <= c < |s.calls| && s.calls[c].request == tag;
      assert Forwarded(tag, c) in s.log;
    }
    if call :| Forwarded(tag, call) in s.log {
      var k :| 0 <= k < |s.log| && s.log[k] == Forwarded(tag, call);
      assert Right(s.log[k], s.received, s.calls, s.expired);
    }
  }

  // ---- When the order breaks ----

  ghost predicate AllBefore(tags: seq<nat>, more: seq<nat>) {
    forall i, j :: 0 <= i < |tags| && 0 <= j < |more| ==> tags[i] < more[j]
  }

  ghost predicate DueBefore(due: seq<Completion>, high: seq<nat>) {
    forall k, j :: 0 <= k < |due| && due[k].tag.Some? && 0 <= j < |high| ==> due[k].tag.value < high[j]
  }

  /** What is queued came after all that left and after the replies of the callbacks that run now, lost or not. With
      `apart` the answers to the peer are left out. */
  ghost predicate Lined(apart: bool, s: State) {
    && Ascending(s.high) && Below(s.high, |s.received|) && Below(Tags(apart, s.log), |s.received|)
    && AllBefore(Tags(apart, s.log), s.high) && DueBefore(s.batch, s.high)
  }

  /** The callback that runs next sends a reply whose event sent none, and a later message has left already. */
  ghost predicate Overtaken(apart: bool, s: State, input: Input) {
    && input.RunCallback? && s.batch != [] && SendsReply(apart, s)
    && exists i :: 0 <= i < |Tags(apart, s.log)| && Tags(apart, s.log)[i] > s.batch[0].tag.value
  }

  predicate SendsReply(apart: bool, s: State)
    requires s.batch != []
  {
    && s.batch[0].call < |s.calls| && !s.calls[s.batch[0].call].delivered && s.batch[0].tag.Some?
    && !(apart && s.calls[s.batch[0].call].origin == Peer)
  }

  lemma EventTags(apart: bool, s: State)
    requires Sane(s) && s.high != []
    ensures var tags, later := Tags(apart, s.log), Tags(apart, ProcessEvent(s).log);
      later == tags || later == tags + [s.high[0]]
  {
    hide Tags, FindCall, Below, CompletionsSane;
    var next := ProcessEvent(s);
    if next.log != s.log {
      var out := next.log[|s.log|];
      assert next.log == s.log + [out];
      TagsSnoc(apart, s.log, out);
      assert Tags(apart, s.log) + [] == Tags(apart, s.log);
    }
  }

  lemma CallbackAnswers(s: State)
    requires Sane(s) && s.batch != []
    ensures var next, done := ForwardFinished(s), s.batch[0];
      if s.calls[done.call].delivered then next.log == s.log
      else exists usable :: next.log == s.log + [Answered(done.call, s.calls[done.call].origin, done.tag, usable)]
  {
    hide Below, Without;
    var next, done := ForwardFinished(s), s.batch[0];
    if !s.calls[done.call].delivered {
      var out := next.log[|s.log|];
      assert next.log == s.log + [Answered(done.call, s.calls[done.call].origin, done.tag, out.usable)];
    }
  }

  lemma CallbackSendsTag(apart: bool, s: State)
    requires Sane(s) && s.batch != []
    ensures Tags(apart, ForwardFinished(s).log)
            == if SendsReply(apart, s) then Tags(apart, s.log) + [s.batch[0].tag.value] else Tags(apart, s.log)
  {
    hide Tags, ForwardFinished;
    CallbackAnswers(s);
    var next, done := ForwardFinished(s), s.batch[0];
    if !s.calls[done.call].delivered {
      var usable :| next.log == s.log + [Answered(done.call, s.calls[done.call].origin, done.tag, usable)];
      TagsSnoc(apart, s.log, Answered(done.call, s.calls[done.call].origin, done.tag, usable));
      assert Tags(apart, s.log) + [] == Tags(apart, s.log);
    }
  }

  /** The log shows each tag as that of a signal, or of a reply that answered a call. */
  lemma {:induction false} TagFrom(apart: bool, log: seq<Sent>, tag: nat) returns (k: nat)
    requires tag in Tags(apart, log)
    ensures k < |log|
    ensures log[k] == Relayed(tag) || (log[k].Answered? && log[k].reply == Some(tag))
  {
    if tag in Tags(apart, log[..|log| - 1]) {
      k := TagFrom(apart, log[..|log| - 1], tag);
    } else {
      k := |log| - 1;
    }
  }

  lemma {:induction false} AnsweredCounts(log: seq<Sent>, k: nat)
    requires k < |log| && log[k].Answered?
    ensures Answers(log, log[k].call) >= 1
  {
    if k < |log| - 1 {
      AnsweredCounts(log[..|log| - 1], k);
    }
  }

  /** A reply answers one call only, so while that call waits for an answer the log does not show the reply. */
  lemma ReplyNotSent(apart: bool, s: State)
    requires Settled(s) && s.batch != [] && SendsReply(apart, s)
    ensures s.batch[0].tag.value !in Tags(apart, s.log)
  {
    var done := s.batch[0];
    DueAnswers(s);
    UndeliveredHasNone(s, done.call);
    hide *;
    if done.tag.value in Tags(apart, s.log) {
      var k := TagFrom(apart, s.log, done.tag.value);
      SentForOne(s, k, done.call, done.tag.value);
    }
  }

  lemma DueAnswers(s: State)
    requires Settled(s) && s.batch != [] && s.batch[0].tag.Some?
    ensures Answering(s.received, s.calls, s.batch[0].call, s.batch[0].tag.value)
  {
    assert (s.batch + s.low)[0] == s.batch[0];
    hide Core, Ordered, Truthful, Made, GivenUp, Fates, Attended, Answering;
  }

  lemma UndeliveredHasNone(s: State, call: nat)
    requires Settled(s) && call < |s.calls| && !s.calls[call].delivered
    ensures Answers(s.log, call) == 0
  {
    hide Answers, Matched, Ordered, Truthful, Made, GivenUp, Fates, Attended, OnePath, Numbered, Distinct, Sane;
  }

  /** An entry of the log for a reply is the answer of the call that the reply belongs to. */
  lemma SentForOne(s: State, k: nat, call: nat, tag: nat)
    requires Settled(s) && k < |s.log| && Answering(s.received, s.calls, call, tag)
    requires s.log[k] == Relayed(tag) || (s.log[k].Answered? && s.log[k].reply == Some(tag))
    ensures Answers(s.log, call) >= 1
  {
    assert Right(s.log[k], s.received, s.calls, s.expired) && Numbered(s.calls, s.serials);
    hide Settled, Numbered, Answers;
    OneCall(s.calls, s.serials, call, if s.log[k].Answered? then s.log[k].call else call);
    if s.log[k].Answered? {
      AnsweredCounts(s.log, k);
    }
  }

  lemma OneCall(calls: seq<Call>, serials: map<Bus, nat>, call: nat, other: nat)
    requires Numbered(calls, serials) && call < |calls| && other < |calls|
    ensures calls[call].target == calls[other].target && calls[call].serial == calls[other].serial ==> call == other
  {
  }

  lemma LinedEvent(apart: bool, s: State, next: State)
    requires Lined(apart, s) && s.high != [] && next.high == s.high[1..] && next.batch == s.batch
    requires next.received == s.received
    requires Tags(apart, next.log) == Tags(apart, s.log) || Tags(apart, next.log) == Tags(apart, s.log) + [s.high[0]]
    ensures Lined(apart, next) && (Ascending(Tags(apart, next.log)) <==> Ascending(Tags(apart, s.log)))
  {
    var tags, later := Tags(apart, s.log), Tags(apart, next.log);
    hide Tags;
    AscendingFrom(tags, s.high[0]);
  }

  /** A tag at the end of an ascending list. */
  lemma AscendingFrom(tags: seq<nat>, tag: nat)
    ensures Ascending(tags + [tag]) <==> Ascending(tags) && forall i :: 0 <= i < |tags| ==> tags[i] < tag
  {
    var all := tags + [tag];
    assert forall i :: 0 <= i < |tags| ==> all[i] == tags[i];
    assert all[|tags|] == tag;
  }

  lemma LinedArrival(apart: bool, s: State, next: State, tag: nat)
    requires Lined(apart, s) && tag == |s.received| && |next.received| == tag + 1 && next.batch == s.batch
    requires Tags(apart, next.log) == Tags(apart, s.log) && (next.high == s.high || next.high == s.high + [tag])
    requires CompletionsSane(s, s.batch)
    ensures Lined(apart, next)
  {
    hide Tags;
  }

  lemma LinedCallback(apart: bool, s: State, next: State, sends: bool)
    requires Lined(apart, s) && s.batch != [] && CompletionsSane(s, s.batch) && (sends ==> s.batch[0].tag.Some?)
    requires next.high == s.high && next.received == s.received && next.batch == s.batch[1..]
    requires Tags(apart, next.log)
             == if sends then Tags(apart, s.log) + [s.batch[0].tag.value] else Tags(apart, s.log)
    ensures Lined(apart, next)
  {
    hide Tags;
  }

  lemma ArriveLined(apart: bool, s: State, received: Received, others: nat)
    requires Sane(s) && Lined(apart, s)
    ensures var next := Arrive(s, received, others); Lined(apart, next) && Tags(apart, next.log) == Tags(apart, s.log)
  {
    hide Arrive, Lined, Tags, Below, CompletionsSane;
    ArriveShape(s, received, others);
    var next := Arrive(s, received, others);
    TagsSnoc(apart, s.log, OwnAnswer(|s.received|));
    assert Tags(apart, s.log) + [] == Tags(apart, s.log);
    LinedArrival(apart, s, next, |s.received|);
  }

  lemma EventLined(apart: bool, s: State)
    requires Sane(s) && s.high != [] && Lined(apart, s)
    ensures var next := ProcessEvent(s);
      Lined(apart, next) && (Ascending(Tags(apart, next.log)) <==> Ascending(Tags(apart, s.log)))
  {
    hide *;
    EventShape(s);
    EventTags(apart, s);
    LinedEvent(apart, s, ProcessEvent(s));
  }

  lemma CallbackLined(apart: bool, s: State)
    requires Settled(s) && Sane(s) && s.batch != [] && Lined(apart, s)
    ensures var next := ForwardFinished(s);
      && Lined(apart, next)
      && (Ascending(Tags(apart, next.log)) <==>
            Ascending(Tags(apart, s.log)) && !Overtaken(apart, s, RunCallback))
  {
    hide Ascending, CompletionsSane, ForwardFinished, Lined, SendsReply, Settled, Tags;
    CallbackShape(s);
    CallbackSendsTag(apart, s);
    SendsATag(apart, s);
    var next, tags := ForwardFinished(s), Tags(apart, s.log);
    LinedCallback(apart, s, next, SendsReply(apart, s));
    if SendsReply(apart, s) {
      var tag := s.batch[0].tag.value;
      ReplyNotSent(apart, s);
      AscendingFrom(tags, tag);
      assert forall i :: 0 <= i < |tags| ==> tags[i] != tag;
    }
  }

  lemma SendsATag(apart: bool, s: State)
    requires s.batch != []
    ensures SendsReply(apart, s) ==> s.batch[0].tag.Some?
  {
  }

  /** Any other step sends nothing and queues nothing. */
  lemma QuietLined(apart: bool, s: State, input: Input)
    requires Sane(s) && Lined(apart, s) && (input.Expire? || input.Select? || input.Close? || input.OtherSent?)
    ensures var next := Step(s, input); Lined(apart, next) && next.log == s.log
  {
    hide Tags, CompletionsSane;
  }

  lemma StepLined(apart: bool, s: State, input: Input)
    requires Settled(s) && Sane(s) && Lined(apart, s)
    ensures var next := Step(s, input);
      && Lined(apart, next)
      && (Ascending(Tags(apart, next.log)) <==> Ascending(Tags(apart, s.log)) && !Overtaken(apart, s, input))
  {
    hide Ascending, Arrive, ForwardFinished, Lined, ProcessEvent, Sane, SendsReply, Settled, Tags;
    match input
    case Receive(received, others) => ArriveLined(apart, s, received, others);
    case RunEvent =>
      if s.batch == [] {
        if s.high != [] {
          EventLined(apart, s);
        } else {
          NothingQueued(s);
        }
      }
    case RunCallback =>
      if s.batch != [] {
        CallbackLined(apart, s);
      } else {
        NothingFinished(s);
      }
    case _ => QuietLined(apart, s, input);
  }

  lemma NothingQueued(s: State)
    requires Sane(s) && s.high == []
    ensures ProcessEvent(s) == s
  {
  }

  ghost predicate NoneOvertaken(relay: bool, apart: bool, inputs: seq<Input>) {
    inputs != [] ==>
      var before, input := inputs[..|inputs| - 1], inputs[|inputs| - 1];
      NoneOvertaken(relay, apart, before) && !Overtaken(apart, Run(relay, before), input)
  }

  /** In every run, with the client closed or not and whatever was lost, relayed replies and signals leave in the order
      of their receipt exactly when no callback sends a reply that a later message has overtaken: all of them, or without
      the answers to the peer. */
  lemma {:induction false} OrderHoldsUnlessOvertaken(relay: bool, apart: bool, inputs: seq<Input>)
    ensures Ascending(Tags(apart, Run(relay, inputs).log)) <==> NoneOvertaken(relay, apart, inputs)
    ensures Lined(apart, Run(relay, inputs))
  {
    hide Ascending, Lined, Overtaken, Run, Sane, Settled, Step, Tags;
    if inputs == [] {
      RunNothing(relay);
      InitialLined(relay, apart);
    } else {
      var before, input := inputs[..|inputs| - 1], inputs[|inputs| - 1];
      OrderHoldsUnlessOvertaken(relay, apart, before);
      SettledCore(Run(relay, before));
      StepLined(apart, Run(relay, before), input);
      RunSnoc(relay, before, input);
      assert inputs == before + [input];
    }
  }

  lemma InitialLined(relay: bool, apart: bool)
    ensures Lined(apart, Initial(relay)) && Ascending(Tags(apart, Initial(relay).log))
  {
  }

  const REQUEST := Received(Peer, Request(true, true))
  const REPLY := Received(Host, Reply(1, true))
  const SIGNAL := Received(Peer, Signal(true, true))

  /** A request over the connection to the other side, the reply of this side's bus, then a signal over the connection. */
  function Late(others: nat): seq<Input> {
    [] + [Receive(REQUEST, 0)] + [RunEvent] + [Receive(REPLY, others)] + [Receive(SIGNAL, 0)] + [RunEvent] + [Select(1)]
    + [RunCallback]
  }

  function Asked(relay: bool): State {
    State(relay, false, false, [REQUEST], [], [], [], [Call(0, Peer, Host, 1, false)], [0], 1, {0}, {},
          map[Peer := 1, Host := 2], [Forwarded(0, 0)])
  }

  function Unqueued(relay: bool): State {
    Asked(relay).(lost := !relay, received := [REQUEST, REPLY, SIGNAL], high := [2], low := [Completion(0, Some(1))],
                  awaiting := {})
  }

  lemma LateReceived(relay: bool)
    ensures Sane(Initial(relay))
    ensures Step(Initial(relay), Receive(REQUEST, 0)) == Initial(relay).(received := [REQUEST], high := [0])
  {
  }

  lemma LateStart(relay: bool)
    ensures Sane(Initial(relay)) && Sane(Step(Initial(relay), Receive(REQUEST, 0)))
    ensures Step(Step(Initial(relay), Receive(REQUEST, 0)), RunEvent) == Asked(relay)
  {
    LateReceived(relay);
    hide Arrive;
  }

  function Replied(relay: bool): State {
    Asked(relay).(lost := !relay, received := [REQUEST, REPLY], low := [Completion(0, Some(1))], awaiting := {})
  }

  lemma LateAnswered(relay: bool, others: nat)
    requires relay || others >= MAX_QUEUED
    ensures Sane(Asked(relay))
    ensures Step(Asked(relay), Receive(REPLY, others)) == Replied(relay)
  {
    var s := Asked(relay);
    assert Waiting(s.calls, s.awaiting, Host, 1, 0) == Some(0);
    assert s.awaiting - {0} == {};
  }

  lemma LateSignal(relay: bool)
    ensures Sane(Replied(relay)) && Step(Replied(relay), Receive(SIGNAL, 0)) == Unqueued(relay)
  {
  }

  lemma LateMiddle(relay: bool, others: nat)
    requires relay || others >= MAX_QUEUED
    ensures Sane(Asked(relay)) && Sane(Step(Asked(relay), Receive(REPLY, others)))
    ensures Step(Step(Asked(relay), Receive(REPLY, others)), Receive(SIGNAL, 0)) == Unqueued(relay)
  {
    hide *;
    LateAnswered(relay, others);
    LateSignal(relay);
  }

  lemma LateEnd(s: State)
    requires s == Unqueued(s.relay)
    ensures Sane(s) && Sane(Step(s, RunEvent)) && Sane(Step(Step(s, RunEvent), Select(1)))
    ensures var t := Step(Step(Step(s, RunEvent), Select(1)), RunCallback);
      t.lost == s.lost && !t.closed && t.log == [Forwarded(0, 0)] + [Relayed(2)] + [Answered(0, Peer, Some(1), true)]
  {
    var relayed := s.(high := [], log := [Forwarded(0, 0)] + [Relayed(2)]);
    assert Step(s, RunEvent) == relayed;
    var selected := relayed.(batch := [Completion(0, Some(1))], low := []);
    assert Step(relayed, Select(1)) == selected;
  }

  lemma LateRun(relay: bool, others: nat)
    requires relay || others >= MAX_QUEUED
    ensures var s := Run(relay, Late(others));
      s.lost == !relay && !s.closed && s.log == [Forwarded(0, 0)] + [Relayed(2)] + [Answered(0, Peer, Some(1), true)]
  {
    RunNothing(relay);
    hide Run, Step, Sane, Settled;
    var none: seq<Input> := [];
    var one := none + [Receive(REQUEST, 0)];
    var two := one + [RunEvent];
    var three := two + [Receive(REPLY, others)];
    var four := three + [Receive(SIGNAL, 0)];
    var five := four + [RunEvent];
    RunSnoc(relay, none, Receive(REQUEST, 0));
    RunSnoc(relay, one, RunEvent);
    LateStart(relay);
    RunSnoc(relay, two, Receive(REPLY, others));
    RunSnoc(relay, three, Receive(SIGNAL, 0));
    LateMiddle(relay, others);
    RunSnoc(relay, four, RunEvent);
    RunSnoc(relay, five, Select(1));
    RunSnoc(relay, five + [Select(1)], RunCallback);
    LateEnd(Run(relay, four));
    assert Late(others) == five + [Select(1)] + [RunCallback];
  }

  lemma RunNothing(relay: bool)
    ensures Run(relay, []) == Initial(relay)
  {
  }

  /** In the broker a full queue does break the order: the event of the reply is lost, and the signal after it overtakes
      it. */
  lemma OverflowBreaksOrder()
    ensures var s := Run(false, Late(MAX_QUEUED)); s.lost && !s.closed && Tags(false, s.log) == [2, 1]
  {
    hide Run, Settled, Late;
    LateRun(false, MAX_QUEUED);
    LateTags();
  }

  /** In the relay the answer of the guest's own bus comes late with nothing lost at all. */
  lemma GuestAnswersComeLate()
    ensures var s := Run(true, Late(0)); !s.lost && !s.closed && Tags(false, s.log) == [2, 1] && Tags(true, s.log) == [2]
  {
    hide Run, Settled, Late;
    LateRun(true, 0);
    LateTags();
  }

  lemma LateTags()
    ensures var log := [Forwarded(0, 0)] + [Relayed(2)] + [Answered(0, Peer, Some(1), true)];
      Tags(false, log) == [2, 1] && Tags(true, log) == [2]
  {
    var one := [Forwarded(0, 0)];
    var two := one + [Relayed(2)];
    assert [] + one == one;
    forall relay ensures Tags(relay, two + [Answered(0, Peer, Some(1), true)]) == if relay then [2] else [2, 1] {
      assert Tags(relay, []) == [];
      TagsSnoc(relay, [], Forwarded(0, 0));
      TagsSnoc(relay, one, Relayed(2));
      TagsSnoc(relay, two, Answered(0, Peer, Some(1), true));
    }
  }

  /** What leaves is what arrived for it: see Right. */
  lemma SentIsRight(relay: bool, inputs: seq<Input>, k: nat)
    requires k < |Run(relay, inputs).log|
    ensures var s := Run(relay, inputs); Right(s.log[k], s.received, s.calls, s.expired)
  {
    var s := Run(relay, inputs);
  }

  predicate Less(later: State, s: State) {
    || |later.high| < |s.high|
    || (later.high == s.high
        && (|| |later.awaiting| < |s.awaiting|
            || (later.awaiting == s.awaiting
                && (|later.low| < |s.low| || (later.low == s.low && |later.batch| < |s.batch|)))))
  }

  lemma CallbackProgress(s: State)
    requires Sane(s) && s.batch != []
    ensures Less(Step(s, RunCallback), s)
    ensures Step(s, RunCallback).closed == s.closed && Step(s, RunCallback).received == s.received
  {
  }

  lemma EventProgress(s: State)
    requires Sane(s) && s.batch == [] && s.high != []
    ensures Less(Step(s, RunEvent), s)
    ensures Step(s, RunEvent).closed == s.closed && Step(s, RunEvent).received == s.received
  {
    EventShape(s);
    hide ProcessEvent, Sane;
  }

  lemma ExpireProgress(s: State, call: nat)
    requires Sane(s) && call in s.awaiting
    ensures Less(Step(s, Expire(call)), s)
    ensures Step(s, Expire(call)).closed == s.closed && Step(s, Expire(call)).received == s.received
  {
    hide Sane;
    assert |s.awaiting - {call}| < |s.awaiting|;
  }

  lemma SelectProgress(s: State)
    requires Sane(s) && OnePath(s.batch + s.low, s.pending, s.awaiting)
    requires s.batch == [] && s.high == [] && s.awaiting == {} && s.pending != []
    ensures Less(Step(s, Select(|s.low|)), s)
    ensures Step(s, Select(|s.low|)).closed == s.closed && Step(s, Select(|s.low|)).received == s.received
  {
    hide Sane;
    assert s.pending[0] in s.pending;
  }

  lemma SettledCore(s: State)
    requires Settled(s)
    ensures Sane(s) && OnePath(s.batch + s.low, s.pending, s.awaiting)
  {
  }

  /** A timeout or the main loop brings any unfinished state closer to rest. */
  lemma Progress(s: State) returns (input: Input)
    requires Settled(s) && (s.high != [] || s.pending != [])
    ensures !input.Receive? && !input.Close?
    ensures Less(Step(s, input), s)
    ensures Step(s, input).closed == s.closed && Step(s, input).received == s.received
  {
    SettledCore(s);
    hide Settled, Sane, Less, Step;
    if s.batch != [] {
      input := RunCallback;
      CallbackProgress(s);
    } else if s.high != [] {
      input := RunEvent;
      EventProgress(s);
    } else if s.awaiting != {} {
      var call :| call in s.awaiting;
      input := Expire(call);
      ExpireProgress(s, call);
    } else {
      input := Select(|s.low|);
      SelectProgress(s);
    }
  }

  /** Nothing gets stuck: with no further message, timeouts and the main loop empty the queue and the list. */
  lemma Drain(relay: bool, inputs: seq<Input>) returns (more: seq<Input>)
    ensures forall k :: 0 <= k < |more| ==> !more[k].Receive? && !more[k].Close?
    ensures Run(relay, inputs + more).high == [] && Run(relay, inputs + more).pending == []
    ensures Run(relay, inputs + more).closed == Run(relay, inputs).closed
    ensures Run(relay, inputs + more).received == Run(relay, inputs).received
    decreases |Run(relay, inputs).high|, |Run(relay, inputs).awaiting|, |Run(relay, inputs).low|,
              |Run(relay, inputs).batch|
  {
    hide Run, Step, Settled;
    var s := Run(relay, inputs);
    if s.high == [] && s.pending == [] {
      assert inputs + [] == inputs;
      return [];
    }
    var input := Progress(s);
    RunSnoc(relay, inputs, input);
    var rest := Drain(relay, inputs + [input]);
    more := [input] + rest;
    assert inputs + more == inputs + [input] + rest;
  }

  /** So an open client's requests can always still be answered, each once. */
  lemma EveryRequestCanBeAnswered(relay: bool, inputs: seq<Input>) returns (more: seq<Input>)
    requires !Run(relay, inputs).closed
    ensures forall k :: 0 <= k < |more| ==> !more[k].Receive? && !more[k].Close?
    ensures var s := Run(relay, inputs + more);
      && s.received == Run(relay, inputs).received
      && forall t :: 0 <= t < |s.received| && s.received[t].message.Request? ==> Replies(s.log, s.calls, t) == 1
  {
    more := Drain(relay, inputs);
    var s := Run(relay, inputs + more);
    forall t | 0 <= t < |s.received| && s.received[t].message.Request? ensures Replies(s.log, s.calls, t) == 1 {
      OneReplyPerRequest(relay, inputs + more, t);
    }
  }
}
