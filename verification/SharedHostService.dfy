/** native/scu_service.h: the same service in place. `hostClients` and `hostLeases` are the two pointer arrays, which
    lose elements by moving their last one; each method is proved against its step in SharedHost. */
module SharedHostService {
  import opened Text
  import opened H = SharedHost

  /** An array holds each thing that was not given back once. */
  ghost predicate Lists(items: seq<nat>, n: nat, live: set<nat>) {
    && (forall k :: 0 <= k < |items| ==> items[k] in live && items[k] < n)
    && (forall i, j :: 0 <= i < j < |items| ==> items[i] != items[j])
    && (forall x <- live :: x in items)
  }

  ghost function LiveClients(clients: seq<Client>): set<nat> {
    set c: nat | c < |clients| && !clients[c].freed
  }

  /** The elements of `items` from `i` on were collected. */
  ghost predicate ClientsDone(was: seq<Client>, now: seq<Client>, items: seq<nat>, i: nat)
    requires i <= |items|
  {
    && |now| == |was|
    && forall c :: 0 <= c < |now| ==> now[c] == if c in items[i..] then CollectedClient(was[c]) else was[c]
  }

  lemma NoneCollected(was: seq<Client>, items: seq<nat>)
    ensures ClientsDone(was, was, items, |items|)
  {
  }

  lemma NextClient(was: seq<Client>, now: seq<Client>, items: seq<nat>, i: nat, live: set<nat>)
    requires i < |items| && Lists(items, |was|, live) && ClientsDone(was, now, items, i + 1)
    ensures items[i] < |now| && now[items[i]] == was[items[i]]
    ensures ClientsDone(was, now[items[i] := CollectedClient(was[items[i]])], items, i)
    ensures now[items[i] := now[items[i]]] == now
  {
    hide CollectedClient;
    assert items[i..] == [items[i]] + items[i + 1..];
    assert items[i] !in items[i + 1..];
  }

  lemma AllCollected(was: seq<Client>, now: seq<Client>, items: seq<nat>)
    requires Lists(items, |was|, LiveClients(was)) && ClientsDone(was, now, items, 0)
    requires forall c :: 0 <= c < |was| && was[c].freed ==> was[c].closed
    ensures now == CollectedClients(was)
  {
    forall c | 0 <= c < |now| ensures now[c] == CollectedClients(was)[c] {
      assert items[0..] == items;
      if c !in items {
        assert c !in LiveClients(was);
      }
    }
  }

  ghost function OpenClients(clients: seq<Client>): set<nat> {
    set c: nat | c < |clients| && !clients[c].closed
  }

  ghost function LiveLeases(leases: seq<Lease>): set<nat> {
    set l: nat | l < |leases| && !leases[l].freed
  }

  lemma {:induction false} OpenCountIsSize(clients: seq<Client>)
    ensures OpenCount(clients) == |OpenClients(clients)|
  {
    if clients != [] {
      var n := |clients| - 1;
      OpenCountIsSize(clients[..n]);
      var before := OpenClients(clients[..n]);
      assert OpenClients(clients) == if clients[n].closed then before else before + {n};
    }
  }

  lemma {:induction false} LiveCountIsSize(leases: seq<Lease>)
    ensures LiveCount(leases) == |LiveLeases(leases)|
  {
    if leases != [] {
      var n := |leases| - 1;
      LiveCountIsSize(leases[..n]);
      var before := LiveLeases(leases[..n]);
      assert LiveLeases(leases) == if leases[n].freed then before else before + {n};
    }
  }

  lemma {:induction false} ListSize(items: seq<nat>, n: nat, live: set<nat>)
    requires Lists(items, n, live)
    ensures |items| == |live|
    decreases |items|
  {
    if items == [] {
      assert live == {};
    } else {
      var last := items[|items| - 1];
      var rest := items[..|items| - 1];
      assert forall x <- live - {last} :: x in rest;
      ListSize(rest, n, live - {last});
    }
  }

  function OpenIn(items: seq<nat>, clients: seq<Client>): nat
    requires forall k :: 0 <= k < |items| ==> items[k] < |clients|
  {
    if items == [] then 0
    else OpenIn(items[..|items| - 1], clients) + if clients[items[|items| - 1]].closed then 0 else 1
  }

  lemma {:induction false} OpenInSize(items: seq<nat>, clients: seq<Client>, counted: set<nat>)
    requires forall k :: 0 <= k < |items| ==> items[k] < |clients|
    requires forall i, j :: 0 <= i < j < |items| ==> items[i] != items[j]
    requires forall c :: c in counted <==> c in items && !clients[c].closed
    ensures OpenIn(items, clients) == |counted|
    decreases |items|
  {
    if items == [] {
      assert counted == {};
    } else {
      var last, rest := items[|items| - 1], items[..|items| - 1];
      assert forall c :: c in items <==> c in rest || c == last;
      OpenInSize(rest, clients, counted - {last});
      assert last in counted ==> |counted - {last}| == |counted| - 1;
      assert last !in counted ==> counted - {last} == counted;
    }
  }

  /** Clients that are open are still listed. */
  lemma OpenIsListed(items: seq<nat>, clients: seq<Client>)
    requires Lists(items, |clients|, LiveClients(clients))
    requires forall c :: 0 <= c < |clients| && clients[c].freed ==> clients[c].closed
    ensures OpenIn(items, clients) == OpenCount(clients)
  {
    var open := OpenClients(clients);
    OpenCountIsSize(clients);
    forall c ensures c in open <==> c in items && !clients[c].closed {
      if c in open {
        assert c in LiveClients(clients);
      }
    }
    OpenInSize(items, clients, open);
  }

  class Host {
    var clients: seq<Client>
    var leases: seq<Lease>
    var events: seq<Event>
    var phase: Phase
    var cancelled: bool
    var log: seq<Note>
    var hostClients: seq<nat>
    var hostLeases: seq<nat>

    ghost function Model(): State
      reads this
    {
      State(clients, leases, events, phase, cancelled, log)
    }

    ghost predicate Valid()
      reads this
    {
      && Lists(hostClients, |clients|, LiveClients(clients)) && Lists(hostLeases, |leases|, LiveLeases(leases))
      && forall c :: 0 <= c < |clients| && clients[c].freed ==> clients[c].closed
    }

    /** host_client_close */
    method ClientClose(client: nat)
      requires client < |clients|
      modifies this`clients, this`cancelled
      ensures Model() == H.CloseClient(old(Model()), client)
      ensures old(Valid()) ==> Valid()
    {
      if clients[client].closed {
        return;
      }
      clients := clients[client := clients[client].(closed := true)];
      if Current(phase, client) {
        cancelled := true;
      }
      assert LiveClients(clients) == LiveClients(old(clients));
    }

    /** host_queue */
    method Queue(event: Event)
      requires event.CallOf? ==> event.client < |clients|
      modifies this`clients, this`events
      ensures events == old(events) + [event]
      ensures clients == if event.CallOf? then
                old(clients)[event.client := old(clients[event.client]).(pending := old(clients[event.client].pending) + 1)]
              else old(clients)
    {
      if event.CallOf? {
        clients := clients[event.client := clients[event.client].(pending := clients[event.client].pending + 1)];
      }
      events := events + [event];
    }

    /** host_client_count */
    method ClientCount() returns (count: nat)
      requires Valid()
      ensures count == OpenCount(clients)
    {
      count := 0;
      var i := 0;
      while i < |hostClients|
        invariant 0 <= i <= |hostClients| && count == OpenIn(hostClients[..i], clients)
      {
        assert hostClients[..i + 1][..i] == hostClients[..i];
        if !clients[hostClients[i]].closed {
          count := count + 1;
        }
        i := i + 1;
      }
      assert hostClients[..i] == hostClients;
      OpenIsListed(hostClients, clients);
    }

    /** host_revoke */
    method RevokeLease(lease: nat)
      requires Valid() && lease < |leases|
      modifies this`leases, this`clients, this`cancelled, this`events
      ensures Valid() && Model() == H.RevokeLease(old(Model()), lease)
    {
      if leases[lease].revoked {
        return;
      }
      leases := leases[lease := leases[lease].(revoked := true, listening := false, source := false)];
      assert LiveLeases(leases) == LiveLeases(old(leases));
      CloseClientsOf(lease);
      Queue(Revoke(lease));
    }

    /** The loop in host_revoke; clients that were given back are closed already. */
    method CloseClientsOf(lease: nat)
      requires Valid()
      modifies this`clients, this`cancelled
      ensures Valid() && clients == CloseAll(old(clients), lease)
      ensures cancelled == (old(cancelled) || RunsUnder(old(Model()), lease))
    {
      var i := 0;
      while i < |hostClients|
        invariant 0 <= i <= |hostClients| && Valid() && |clients| == old(|clients|)
        invariant forall c :: 0 <= c < |clients| ==>
                    clients[c] == if c in hostClients[..i] then ClosedUnder(old(clients)[c], lease) else old(clients)[c]
        invariant cancelled == (old(cancelled)
                                || (RunsUnder(old(Model()), lease) && phase.client in hostClients[..i]))
      {
        var client := hostClients[i];
        assert client !in hostClients[..i];
        if clients[client].lease == lease {
          ClientClose(client);
        }
        i := i + 1;
        assert hostClients[..i] == hostClients[..i - 1] + [client];
      }
      assert hostClients[..i] == hostClients;
      forall c | 0 <= c < |clients| ensures clients[c] == CloseAll(old(clients), lease)[c] {
        if c !in hostClients {
          assert c !in LiveClients(old(clients));
        }
      }
      if RunsUnder(old(Model()), lease) {
        assert phase.client in LiveClients(old(clients));
      }
    }

    /** host_line, for a line that asks for a call. */
    method QueueCall(client: nat)
      requires Valid() && client < |clients|
      modifies this`clients, this`events, this`cancelled
      ensures Valid() && Model() == H.QueueCall(old(Model()), client)
    {
      if |events| < MAX_PENDING {
        Queue(CallOf(client));
        assert LiveClients(clients) == LiveClients(old(clients));
      } else {
        ClientClose(client);
      }
    }

    /** The body of host_accept's loop. */
    method Accept(lease: nat, permitted: bool)
      requires Valid() && lease < |leases|
      modifies this`clients, this`leases, this`hostClients
      ensures Valid() && Model() == H.Accept(old(Model()), lease, permitted)
    {
      var count := ClientCount();
      if leases[lease].revoked || count >= MAX_CLIENTS || !permitted {
        return;
      }
      hostClients := hostClients + [|clients|];
      clients := clients + [Client(lease, false, 0, false)];
      leases := leases[lease := leases[lease].(used := true)];
      assert LiveClients(clients) == LiveClients(old(clients)) + {old(|clients|)};
      assert LiveLeases(leases) == LiveLeases(old(leases));
      assert hostClients[|hostClients| - 1] == old(|clients|);
    }

    /** The body of host_control_accept's loop. */
    method AcceptControl(permitted: bool)
      requires Valid()
      modifies this`leases, this`hostLeases
      ensures Valid() && Model() == H.AcceptControl(old(Model()), permitted)
    {
      ListSize(hostLeases, |leases|, LiveLeases(leases));
      LiveCountIsSize(leases);
      if |hostLeases| >= MAX_LEASES || !permitted {
        return;
      }
      hostLeases := hostLeases + [|leases|];
      leases := leases + [Lease(true, true, false, false, false, false, false, None, false)];
      assert LiveLeases(leases) == LiveLeases(old(leases)) + {old(|leases|)};
      assert hostLeases[|hostLeases| - 1] == old(|leases|);
    }

    /** The closed client at `i` leaves the array and is freed. */
    method FreeClient(i: nat)
      requires Valid() && i < |hostClients| && hostClients[i] < |clients| && clients[hostClients[i]].closed
      modifies this`clients, this`hostClients
      ensures Valid()
      ensures clients == old(clients[hostClients[i] := clients[hostClients[i]].(freed := true)])
      ensures |hostClients| == old(|hostClients|) - 1 && hostClients[..i] == old(hostClients)[..i]
    {
      var client := hostClients[i];
      ghost var live := LiveClients(clients);
      clients := clients[client := clients[client].(freed := true)];
      assert LiveClients(clients) == live - {client};
      hostClients := RemoveFast(hostClients, i, |clients|, live);
    }

    /** host_collect's first loop: from the last element down, so that the element moved in was seen already. */
    method CollectClients()
      requires Valid() && phase.Resting?
      modifies this`clients, this`hostClients
      ensures Valid() && clients == CollectedClients(old(clients))
    {
      ghost var was, items, live := clients, hostClients, LiveClients(clients);
      NoneCollected(was, items);
      var i := |hostClients|;
      while i > 0
        invariant 0 <= i <= |hostClients| && i <= |items| && hostClients[..i] == items[..i]
        invariant Valid() && ClientsDone(was, clients, items, i)
      {
        i := i - 1;
        var client := hostClients[i];
        assert client == items[i];
        NextClient(was, clients, items, i, live);
        if clients[client].closed && clients[client].pending == 0 {
          FreeClient(i);
        }
      }
      AllCollected(was, clients, items);
    }

    method IsReferenced(lease: nat) returns (referenced: bool)
      requires Valid()
      ensures referenced == Referenced(clients, lease)
    {
      referenced := false;
      var j := 0;
      while j < |hostClients|
        invariant 0 <= j <= |hostClients|
        invariant referenced == exists k :: 0 <= k < j && clients[hostClients[k]].lease == lease
      {
        referenced := referenced || clients[hostClients[j]].lease == lease;
        j := j + 1;
      }
      if Referenced(clients, lease) {
        var c :| 0 <= c < |clients| && clients[c].lease == lease && !clients[c].freed;
        assert c in LiveClients(clients);
        assert c in hostClients;
      }
    }

    /** The lease at `i` leaves the array and is freed. */
    method FreeLease(i: nat)
      requires Valid() && i < |hostLeases|
      modifies this`leases, this`hostLeases
      ensures Valid() && old(hostLeases[i] < |leases|)
      ensures leases == old(leases[hostLeases[i] := leases[hostLeases[i]].(freed := true)])
      ensures |hostLeases| == old(|hostLeases|) - 1 && hostLeases[..i] == old(hostLeases)[..i]
    {
      var lease := hostLeases[i];
      ghost var live := LiveLeases(leases);
      leases := leases[lease := leases[lease].(freed := true)];
      assert LiveLeases(leases) == live - {lease};
      hostLeases := RemoveFast(hostLeases, i, |leases|, live);
    }

    /** host_collect's second loop. */
    method CollectLeases()
      requires Valid()
      modifies this`leases, this`hostLeases
      ensures Valid() && |leases| == old(|leases|)
      ensures forall l :: 0 <= l < |leases| ==>
                leases[l] == if l in old(hostLeases) then CollectedLease(clients, old(leases), l) else old(leases)[l]
    {
      var i := |hostLeases|;
      while i > 0
        invariant 0 <= i <= |hostLeases| && Valid() && |leases| == old(|leases|)
        invariant hostLeases[..i] == old(hostLeases)[..i] && i <= old(|hostLeases|)
        invariant forall l :: 0 <= l < |leases| ==>
                    leases[l] == if l in old(hostLeases)[i..] then CollectedLease(clients, old(leases), l)
                                 else old(leases)[l]
      {
        i := i - 1;
        var lease := hostLeases[i];
        assert lease == old(hostLeases)[i] && lease !in old(hostLeases)[i + 1..];
        assert old(hostLeases)[i..] == [lease] + old(hostLeases)[i + 1..];
        var referenced := IsReferenced(lease);
        if leases[lease].acknowledged && !referenced {
          FreeLease(i);
        }
      }
      assert old(hostLeases)[0..] == old(hostLeases);
    }

    /** host_collect */
    method Collect()
      requires Valid() && phase.Resting?
      modifies this`clients, this`leases, this`hostClients, this`hostLeases
      ensures Valid() && Model() == H.Collect(old(Model()))
    {
      CollectClients();
      CollectLeases();
      forall l | 0 <= l < |leases| ensures leases[l] == CollectedLease(clients, old(leases), l) {
        if l !in old(hostLeases) {
          assert l !in LiveLeases(old(leases));
        }
      }
    }

    /** host_control_read */
    method ReadControl(lease: nat, control: Control)
      requires Valid() && lease < |leases|
      modifies this`leases, this`clients, this`cancelled, this`events
      ensures Valid() && Model() == H.ReadControl(old(Model()), lease, control)
    {
      if control == Again {
        return;
      }
      if leases[lease].registered || control == Other {
        RevokeLease(lease);
        return;
      }
      leases := leases[lease := leases[lease].(registered := true)];
      assert LiveLeases(leases) == LiveLeases(old(leases));
      Queue(Register(lease));
    }

    /** The start of a turn of the main loop, up to handle_request or desktop_bind. */
    method TakeEvent(cancelledBefore: bool)
      requires Valid() && Named(Model())
      modifies this`events, this`phase, this`cancelled, this`leases, this`log
      ensures Valid() && Model() == Pop(old(Model()), cancelledBefore)
    {
      if |events| == 0 {
        return;
      }
      var event := events[0];
      assert EventNamed(event, |clients|, |leases|);
      events := events[1..];
      match event
      case CallOf(client) =>
        phase := Calling(client, !clients[client].closed);
        if !clients[client].closed {
          cancelled := cancelledBefore;
          log := log + [Handled(client)];
        }
      case Register(lease) =>
        if !leases[lease].revoked {
          phase := Binding(lease);
          cancelled := false;
        }
      case Revoke(lease) =>
        if leases[lease].control {
          log := log + [Released(lease)];
        }
        leases := leases[lease := leases[lease].(acknowledged := true)];
        assert LiveLeases(leases) == LiveLeases(old(leases));
    }

    /** The rest of that turn after desktop_bind. */
    method BindReturned(lease: nat, bound: bool, sent: bool)
      requires Valid() && lease < |leases| && phase == Binding(lease)
      modifies this
      ensures Valid() && Model() == Bound(old(Model()), lease, bound, sent)
    {
      phase := Resting;
      if !bound {
        RevokeLease(lease);
        return;
      }
      if sent {
        log := log + [Ready(lease)];
      } else {
        RevokeLease(lease);
      }
      if !leases[lease].revoked {
        ghost var live := LiveLeases(leases);
        leases := leases[lease := leases[lease].(listening := true)];
        assert LiveLeases(leases) == live;
      }
    }
  }

  /** g_ptr_array_remove_index_fast: the last element takes the place of the removed one. */
  method RemoveFast(items: seq<nat>, index: nat, n: nat, ghost live: set<nat>) returns (rest: seq<nat>)
    requires index < |items| && Lists(items, n, live)
    ensures |rest| == |items| - 1 && rest[..index] == items[..index]
    ensures Lists(rest, n, live - {items[index]})
  {
    var last := items[|items| - 1];
    rest := items[index := last][..|items| - 1];
    forall x <- live - {items[index]} ensures x in rest {
      var k :| 0 <= k < |items| && items[k] == x;
      assert x == if k == |items| - 1 then rest[index] else rest[k];
    }
  }
}
