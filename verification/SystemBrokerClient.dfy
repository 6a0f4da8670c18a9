/** native/spaces_system_broker.c: the handlers that update a Client in place, each proved against its step in
    SystemBroker. A Call is named by its place in `calls`; the fields after `serials` stand for GLib and GDBus. */
module SystemBrokerClient {
  import opened Text
  import opened B = SystemBroker

  class Client {
    const relay: bool
    var closed: bool
    var outstanding: nat
    var pending: seq<nat>
    var calls: seq<Call>
    var received: seq<Received>
    var log: seq<Sent>
    var serials: map<Bus, nat>
    var high: seq<nat>
    var low: seq<Completion>
    var batch: seq<Completion>
    var awaiting: set<nat>
    var expired: set<nat>
    ghost var lost: bool

    constructor (relay: bool)
      ensures Model() == Initial(relay)
    {
      this.relay := relay;
      closed, lost, outstanding := false, false, 0;
      pending, calls, received, log := [], [], [], [];
      serials := map[Peer := 1, Host := 1];
      high, low, batch, awaiting, expired := [], [], [], {}, {};
    }

    ghost function Model(): State
      reads this
    {
      State(relay, closed, lost, received, high, low, batch, calls, pending, outstanding, awaiting, expired, serials,
            log)
    }

    method Send(out: Sent)
      modifies this`log
      ensures log == old(log) + [out]
    {
      log := log + [out];
    }

    method DeliverReply(call: nat, tag: Option<nat>)
      requires call < |calls| && (tag.Some? ==> tag.value < |received| && received[tag.value].message.Reply?)
      modifies this`calls, this`log
      ensures Model() == B.DeliverReply(old(Model()), call, tag)
    {
      calls := calls[call := calls[call].(delivered := true)];
      if tag.None? || !received[tag.value].message.bounded {
        Send(Answered(call, calls[call].origin, tag, false));
      } else {
        Send(Answered(call, calls[call].origin, tag, true));
      }
    }

    /** GDBus numbers the message, sends it and waits for the reply. */
    method SendWithReply(origin: Bus, tag: nat)
      requires Other(origin) in serials
      modifies this`calls, this`serials, this`awaiting, this`log
      ensures calls == old(calls) + [Call(tag, origin, Other(origin), old(serials[Other(origin)]), false)]
      ensures serials == old(serials)[Other(origin) := old(serials[Other(origin)]) + 1]
      ensures awaiting == old(awaiting) + {|old(calls)|} && log == old(log) + [Forwarded(tag, |old(calls)|)]
    {
      var target := Other(origin);
      log := log + [Forwarded(tag, |calls|)];
      awaiting := awaiting + {|calls|};
      calls := calls + [Call(tag, origin, target, serials[target], false)];
      serials := serials[target := serials[target] + 1];
    }

    method Forward(origin: Bus, tag: nat)
      requires serials.Keys == {Peer, Host}
      modifies this
      ensures Model() == B.Forward(old(Model()), origin, tag)
    {
      if outstanding >= MAX_OUTSTANDING {
        Send(OwnAnswer(tag));
        return;
      }
      pending := [|calls|] + pending;
      outstanding := outstanding + 1;
      SendWithReply(origin, tag);
    }

    /** Walks the list of pending calls for the one the reply belongs to. */
    method DeliverToPending(bus: Bus, serial: nat, tag: nat)
      requires Below(pending, |calls|) && tag < |received| && received[tag].message.Reply?
      modifies this`calls, this`log
      ensures Model() == match FindCall(old(calls), pending, bus, serial)
                         case Some(call) => B.DeliverReply(old(Model()), call, Some(tag))
                         case None => old(Model())
    {
      var item := 0;
      while item < |pending|
        invariant 0 <= item <= |pending|
        invariant calls == old(calls) && log == old(log)
        invariant FindCall(calls, pending, bus, serial) == FindCall(calls, pending[item..], bus, serial)
      {
        var call := pending[item];
        assert pending[item..][1..] == pending[item + 1..];
        if !calls[call].delivered && calls[call].target == bus && calls[call].serial == serial {
          DeliverReply(call, Some(tag));
          return;
        }
        item := item + 1;
      }
    }

    method ProcessEvent()
      requires Sane(Model())
      modifies this
      ensures Model() == B.ProcessEvent(old(Model()))
    {
      if high == [] {
        return;
      }
      var tag := high[0];
      var event := received[tag];
      high := high[1..];
      if closed {
        return;
      }
      match event.message
      case Reply(serial, _) =>
        DeliverToPending(event.bus, serial, tag);
      case Request(bounded, allowed) =>
        if !bounded || !allowed {
          Send(OwnAnswer(tag));
        } else {
          Forward(event.bus, tag);
        }
      case Signal(bounded, relayed) =>
        if bounded && relayed {
          Send(Relayed(tag));
        }
    }

    /** Takes the first node that holds the call off the list. */
    method RemovePending(call: nat)
      modifies this`pending
      ensures pending == Without(old(pending), call)
    {
      var item := 0;
      while item < |pending| && pending[item] != call
        invariant 0 <= item <= |pending| && pending == old(pending)
        invariant Without(pending, call) == pending[..item] + Without(pending[item..], call)
      {
        assert pending[item..][1..] == pending[item + 1..];
        item := item + 1;
      }
      if item < |pending| {
        assert pending[item..][1..] == pending[item + 1..];
        pending := pending[..item] + pending[item + 1..];
      }
    }

    method ForwardFinished()
      requires Sane(Model())
      modifies this
      ensures Model() == B.ForwardFinished(old(Model()))
    {
      if batch == [] {
        return;
      }
      var done := batch[0];
      batch := batch[1..];
      if !calls[done.call].delivered {
        DeliverReply(done.call, done.tag);
      }
      RemovePending(done.call);
      outstanding := Decremented(outstanding);
    }

    /** queue_message: a full queue drops the message, and answers it if it is a request. */
    method QueueMessage(message: Message, tag: nat, others: nat, ghost awaited: bool)
      modifies this`high, this`lost, this`log
      ensures old(|high|) + others < MAX_QUEUED ==>
        high == old(high) + [tag] && lost == old(lost) && log == old(log)
      ensures old(|high|) + others >= MAX_QUEUED ==>
        && high == old(high) && log == old(log) + (if message.Request? then [OwnAnswer(tag)] else [])
        && lost == (old(lost) || (awaited && !message.Request?))
    {
      if |high| + others >= MAX_QUEUED {
        if message.Request? {
          Send(OwnAnswer(tag));
        } else {
          lost := lost || awaited;
        }
      } else {
        high := high + [tag];
      }
    }

    /** The filter of the connection, which queues the message or not; `others` events are queued for other clients. */
    method Filter(message: Received, others: nat)
      requires Sane(Model())
      modifies this`received, this`high, this`lost, this`log
      ensures Model() == Filtered(old(Model()), message, others)
    {
      ghost var awaited := AwaitedBy(Model(), message);
      received := received + [message];
      if Queues(relay, message) {
        QueueMessage(message.message, |received| - 1, others, awaited.Some?);
      }
    }

    /** GDBus schedules the callback of a call. */
    method Complete(waiting: Option<nat>, tag: nat)
      modifies this`awaiting, this`low
      ensures Model() == Completed(old(Model()), waiting, tag)
    {
      if waiting.Some? {
        awaiting := awaiting - {waiting.value};
        low := low + [Completion(waiting.value, Some(tag))];
      }
    }

    /** A message is queued before the call that waits for it is completed. */
    method Receive(message: Received, others: nat)
      requires Sane(Model())
      modifies this
      ensures Model() == B.Arrive(old(Model()), message, others)
    {
      var tag := |received|;
      Filter(message, others);
      if message.message.Reply? {
        Complete(Waiting(calls, awaiting, message.bus, message.message.serial, 0), tag);
      }
    }

    method Close()
      modifies this`closed
      ensures Model() == old(Model()).(closed := true)
    {
      closed := true;
    }
  }
}
