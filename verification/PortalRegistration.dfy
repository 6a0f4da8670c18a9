/** native/spaces_broker.c: the broker registers its identity with each owner of the host portal. A watch reports owners,
    Register calls are answered later or never, and a failed one is repeated after a growing delay. */
module PortalRegistration {
  import opened Text

  const MAX_DELAY: nat := 30

  /** How a Register call ends: accepted, refused, or lost with an outcome that nobody knows. */
  datatype Outcome = Accepted | Failed | Unknown

  /** A Register call: the owner it was sent to, and which of the portal's appearances that was. */
  datatype Attempt = Attempt(owner: string, presence: nat)

  /** The broker's fields, then histories: the attempts, how those that were answered in time ended, how often the
      portal appeared, and the failures since. An attempt is named by its place, as its cancellable is by address. */
  datatype State = State(owner: Option<string>, registered: bool, retry: Option<nat>, delay: nat, current: Option<nat>,
                         exiting: bool, attempts: seq<Attempt>, outcomes: map<nat, Outcome>, presence: nat,
                         failures: nat)

  const INITIAL := State(None, false, None, 1, None, false, [], map[], 0, 0)

  /** register_portal_identity */
  function Register(s: State): State
    requires s.owner.Some?
  {
    s.(retry := None, current := Some(|s.attempts|), attempts := s.attempts + [Attempt(s.owner.value, s.presence)])
  }

  /** clear_portal_identity */
  function Clear(s: State): State {
    s.(current := None, retry := None, registered := false, delay := 1, owner := None, failures := 0)
  }

  function Doubled(delay: nat): nat {
    if delay * 2 < MAX_DELAY then delay * 2 else MAX_DELAY
  }

  /** portal_registration_done */
  function Done(s: State, attempt: nat, outcome: Outcome): State {
    if s.current != Some(attempt) then s
    else
      var s := s.(current := None, outcomes := s.outcomes[attempt := outcome]);
      match outcome
      case Accepted => s.(registered := true)
      case Unknown => s.(exiting := true)
      case Failed => s.(retry := Some(s.delay), delay := Doubled(s.delay), failures := s.failures + 1)
  }

  datatype Input = Appeared(owner: string) | Vanished | Reply(attempt: nat, outcome: Outcome) | RetryFires

  /** Once the main loop was left nothing more is dispatched. */
  function Step(s: State, input: Input): State {
    if s.exiting then s
    else
      match input
      case Appeared(owner) => Register(Clear(s).(owner := Some(owner), presence := s.presence + 1))
      case Vanished => Clear(s)
      case Reply(attempt, outcome) => Done(s, attempt, outcome)
      case RetryFires => if s.retry.Some? && s.owner.Some? then Register(s) else s
  }

  /** portal_destination, for the owner that the bus names at the time of the call. */
  function Destination(s: State, queried: Option<string>): Option<string> {
    if queried.Some? && s.registered && queried == s.owner then queried else None
  }

  function Power(k: nat): nat {
    if k == 0 then 1 else 2 * Power(k - 1)
  }

  function Delay(failures: nat): nat {
    if Power(failures) < MAX_DELAY then Power(failures) else MAX_DELAY
  }

  function One(b: bool): nat {
    if b then 1 else 0
  }

  /** The attempt that certifies the present owner. */
  ghost predicate Certified(s: State, owner: string) {
    exists a :: 0 <= a < |s.attempts| && s.attempts[a] == Attempt(owner, s.presence) && Ended(s, a, Accepted)
  }

  predicate Ended(s: State, attempt: nat, outcome: Outcome) {
    attempt in s.outcomes && s.outcomes[attempt] == outcome
  }

  ghost predicate Kept(s: State) {
    && (s.owner.None? ==> !s.registered && s.retry.None? && s.current.None?)
    && (s.owner.Some? && !s.exiting ==> One(s.registered) + One(s.retry.Some?) + One(s.current.Some?) == 1)
    && (s.exiting ==> !s.registered && s.retry.None? && s.current.None?)
    && (s.registered ==> s.owner.Some? && Certified(s, s.owner.value))
    && (s.current.Some? ==> s.current.value == |s.attempts| - 1 && s.owner.Some?
                            && s.attempts[s.current.value] == Attempt(s.owner.value, s.presence)
                            && s.current.value !in s.outcomes)
    && s.delay == Delay(s.failures)
    && (s.retry.Some? ==> s.failures > 0 && s.retry == Some(Delay(s.failures - 1)))
    && History(s)
  }

  /** Within one presence every attempt but the newest has failed for certain, and only an answered one is gone from
      flight. */
  ghost predicate History(s: State) {
    && (forall a <- s.outcomes :: a < |s.attempts|)
    && (forall a <- s.outcomes :: s.outcomes[a] == Unknown ==> s.exiting && a == |s.attempts| - 1)
    && (s.exiting ==> |s.attempts| > 0 && Ended(s, |s.attempts| - 1, Unknown))
    && (s.owner.Some? && !s.exiting && s.current.None? && |s.attempts| > 0 ==> |s.attempts| - 1 in s.outcomes)
    && (s.owner.Some? ==> |s.attempts| > 0 && s.attempts[|s.attempts| - 1] == Attempt(s.owner.value, s.presence))
    && (forall a :: 0 <= a < |s.attempts| ==> s.attempts[a].presence <= s.presence)
    && (forall a, b :: 0 <= a < b < |s.attempts| && s.attempts[a].presence == s.attempts[b].presence ==> Ended(s, a, Failed))
    && (s.retry.Some? ==> forall a :: 0 <= a < |s.attempts| && s.attempts[a].presence == s.presence ==> Ended(s, a, Failed))
  }

  lemma DelayNext(failures: nat)
    ensures Doubled(Delay(failures)) == Delay(failures + 1)
  {
  }

  lemma RegisterKept(s: State)
    requires Kept(s) && !s.exiting && s.owner.Some? && s.retry.Some?
    ensures Kept(Register(s))
  {
  }

  lemma AppearedKept(s: State, owner: string)
    requires Kept(s) && !s.exiting
    ensures Kept(Step(s, Appeared(owner)))
  {
  }

  lemma DoneKept(s: State, attempt: nat, outcome: Outcome)
    requires Kept(s) && !s.exiting
    ensures Kept(Done(s, attempt, outcome))
  {
    if s.current == Some(attempt) {
      DelayNext(s.failures);
      var next := Done(s, attempt, outcome);
      if outcome.Accepted? {
        assert next.attempts[attempt] == Attempt(s.owner.value, s.presence) && Ended(next, attempt, Accepted);
      }
    }
  }

  lemma StepKept(s: State, input: Input)
    requires Kept(s)
    ensures Kept(Step(s, input))
  {
    if !s.exiting {
      match input
      case Appeared(owner) => AppearedKept(s, owner);
      case Vanished =>
      case Reply(attempt, outcome) => DoneKept(s, attempt, outcome);
      case RetryFires =>
        if s.retry.Some? && s.owner.Some? {
          RegisterKept(s);
        }
    }
  }

  function Run(inputs: seq<Input>): State {
    if inputs == [] then INITIAL else Step(Run(inputs[..|inputs| - 1]), inputs[|inputs| - 1])
  }

  lemma {:induction false} RunKept(inputs: seq<Input>)
    ensures Kept(Run(inputs))
  {
    if inputs != [] {
      RunKept(inputs[..|inputs| - 1]);
      StepKept(Run(inputs[..|inputs| - 1]), inputs[|inputs| - 1]);
    }
  }

  /** Whatever portal_destination gives out has accepted a Register call that was sent to it since it appeared. */
  lemma DestinationIsCertified(inputs: seq<Input>, queried: Option<string>)
    ensures var s := Run(inputs);
      Destination(s, queried).Some? ==> queried == Destination(s, queried) == s.owner && Certified(s, queried.value)
  {
    RunKept(inputs);
  }

  /** The owner that the bus last reported, if it has not vanished since. */
  function LastSeen(inputs: seq<Input>): Option<string> {
    if inputs == [] then None
    else
      match inputs[|inputs| - 1]
      case Appeared(owner) => Some(owner)
      case Vanished => None
      case _ => LastSeen(inputs[..|inputs| - 1])
  }

  /** How the newest call ended, if it was answered. */
  function Newest(s: State): Option<Outcome> {
    if |s.attempts| > 0 && |s.attempts| - 1 in s.outcomes then Some(s.outcomes[|s.attempts| - 1]) else None
  }

  /** While the portal has an owner, the newest call was sent to its present appearance. It is in flight until it is
      answered; then a retry is due if it failed, and the identity is registered if it was accepted. */
  lemma {:induction false} NewestCallDecides(inputs: seq<Input>)
    ensures var s := Run(inputs);
      && (!s.exiting ==> s.owner == LastSeen(inputs))
      && (s.owner.Some? && !s.exiting ==>
            && |s.attempts| > 0 && s.attempts[|s.attempts| - 1] == Attempt(s.owner.value, s.presence)
            && s.current == (if Newest(s).None? then Some(|s.attempts| - 1) else None)
            && (s.retry.Some? <==> Newest(s) == Some(Failed))
            && (s.registered <==> Newest(s) == Some(Accepted)))
  {
    RunKept(inputs);
    if inputs != [] {
      NewestCallDecides(inputs[..|inputs| - 1]);
    }
    if Run(inputs).owner.Some? && !Run(inputs).exiting {
      KeptDecides(Run(inputs));
    }
    hide Kept, Newest;
  }

  lemma KeptDecides(s: State)
    requires Kept(s) && s.owner.Some? && !s.exiting
    ensures |s.attempts| > 0 && s.attempts[|s.attempts| - 1] == Attempt(s.owner.value, s.presence)
    ensures s.current == if Newest(s).None? then Some(|s.attempts| - 1) else None
    ensures s.retry.Some? <==> Newest(s) == Some(Failed)
    ensures s.registered <==> Newest(s) == Some(Accepted)
  {
    var last := |s.attempts| - 1;
    assert s.retry.Some? ==> Ended(s, last, Failed);
    if s.registered {
      var a :| 0 <= a < |s.attempts| && s.attempts[a] == Attempt(s.owner.value, s.presence) && Ended(s, a, Accepted);
      assert a < last ==> Ended(s, a, Failed);
    }
    hide Delay;
  }

  /** portal_destination gives the owner that the bus names exactly when that is the present owner and the newest call, sent
      to its present appearance, was accepted. */
  lemma DestinationIsGiven(inputs: seq<Input>, queried: Option<string>)
    ensures var s := Run(inputs);
      Destination(s, queried)
      == if queried.Some? && queried == s.owner && Newest(s) == Some(Accepted) then queried else None
  {
    RunKept(inputs);
    var s := Run(inputs);
    if s.exiting {
      ExitingIsLost(s);
    } else if s.owner.Some? {
      KeptDecides(s);
    }
    hide Kept, Newest, Run;
  }

  lemma ExitingIsLost(s: State)
    requires Kept(s) && s.exiting
    ensures !s.registered && Newest(s) == Some(Unknown)
  {
  }

  /** A call is sent to an owner that appears, as a new appearance, and again to the present one when a retry fires;
      nothing else sends one, and nothing at all once the broker has given up. */
  lemma CallsAreSent(inputs: seq<Input>, input: Input)
    ensures var s, next := Run(inputs), Step(Run(inputs), input);
      if s.exiting then next == s
      else
        match input
        case Appeared(owner) =>
          next.presence == s.presence + 1 && next.attempts == s.attempts + [Attempt(owner, s.presence + 1)]
        case RetryFires =>
          && next.presence == s.presence && (s.retry.Some? ==> s.owner.Some?)
          && next.attempts == s.attempts + if s.retry.Some? then [Attempt(s.owner.value, s.presence)] else []
        case _ => next.presence == s.presence && next.attempts == s.attempts
  {
    RunKept(inputs);
    hide Run, History;
  }

  /** An attempt that nobody waits for: the portal is gone, or appeared again since, or it was answered before. */
  predicate Stale(s: State, attempt: nat)
    requires attempt < |s.attempts|
  {
    s.owner.None? || s.attempts[attempt].presence != s.presence || attempt in s.outcomes
  }

  /** The reply to the call in flight is how that call ended: the broker is registered, gives up, or tries again after the
      delay. */
  lemma RepliesAreTaken(inputs: seq<Input>, attempt: nat, outcome: Outcome)
    requires attempt < |Run(inputs).attempts| && !Run(inputs).exiting && !Stale(Run(inputs), attempt)
    ensures var s, next := Run(inputs), Step(Run(inputs), Reply(attempt, outcome));
      && next.outcomes == s.outcomes[attempt := outcome] && attempt !in s.outcomes && Newest(next) == Some(outcome)
      && next.owner == s.owner && (next.registered <==> outcome.Accepted?) && (next.exiting <==> outcome.Unknown?)
      && next.retry == if outcome.Failed? then Some(s.delay) else None
  {
    RunKept(inputs);
    hide Run;
  }

  /** The calls to one appearance that failed. */
  ghost function FailedTo(presence: nat, attempts: seq<Attempt>, outcomes: map<nat, Outcome>): set<nat> {
    set a: nat | a < |attempts| && attempts[a].presence == presence && a in outcomes && outcomes[a] == Failed
  }

  ghost function FailedCalls(s: State): set<nat> {
    FailedTo(s.presence, s.attempts, s.outcomes)
  }

  lemma NoneFailed(presence: nat, attempts: seq<Attempt>, outcomes: map<nat, Outcome>)
    requires forall a :: 0 <= a < |attempts| && a in outcomes ==> attempts[a].presence < presence
    ensures FailedTo(presence, attempts, outcomes) == {}
  {
  }

  lemma FailedBySending(presence: nat, attempts: seq<Attempt>, outcomes: map<nat, Outcome>, attempt: Attempt)
    requires |attempts| !in outcomes
    ensures FailedTo(presence, attempts + [attempt], outcomes) == FailedTo(presence, attempts, outcomes)
  {
  }

  lemma FailedByReply(presence: nat, attempts: seq<Attempt>, outcomes: map<nat, Outcome>, attempt: nat, outcome: Outcome)
    requires attempt < |attempts| && attempts[attempt].presence == presence && attempt !in outcomes
    ensures |FailedTo(presence, attempts, outcomes[attempt := outcome])|
            == |FailedTo(presence, attempts, outcomes)| + One(outcome.Failed?)
  {
    var before := FailedTo(presence, attempts, outcomes);
    assert attempt !in before;
    assert FailedTo(presence, attempts, outcomes[attempt := outcome])
           == if outcome.Failed? then before + {attempt} else before;
  }

  lemma {:induction false} FailuresAreCounted(inputs: seq<Input>)
    ensures var s := Run(inputs); s.failures == if s.owner.Some? then |FailedCalls(s)| else 0
  {
    if inputs != [] {
      var before, input := inputs[..|inputs| - 1], inputs[|inputs| - 1];
      FailuresAreCounted(before);
      RunKept(before);
      FailuresStep(Run(before), input);
    }
  }

  lemma FailureFacts(s: State)
    requires Kept(s)
    ensures forall a <- s.outcomes :: a < |s.attempts|
    ensures forall a :: 0 <= a < |s.attempts| ==> s.attempts[a].presence <= s.presence
    ensures s.owner.None? ==> s.current.None?
    ensures s.current.Some? ==>
      && s.current.value == |s.attempts| - 1 && s.attempts[|s.attempts| - 1].presence == s.presence
      && s.current.value !in s.outcomes
  {
    hide Delay;
  }

  lemma FailuresStep(s: State, input: Input)
    requires Kept(s) && s.failures == if s.owner.Some? then |FailedCalls(s)| else 0
    ensures var next := Step(s, input); next.failures == if next.owner.Some? then |FailedCalls(next)| else 0
  {
    hide Kept, FailedTo;
    FailureFacts(s);
    match input
    case Appeared(owner) =>
      NoneFailed(s.presence + 1, s.attempts + [Attempt(owner, s.presence + 1)], s.outcomes);
    case RetryFires =>
      if s.owner.Some? {
        FailedBySending(s.presence, s.attempts, s.outcomes, Attempt(s.owner.value, s.presence));
      }
    case Reply(attempt, outcome) =>
      if s.current == Some(attempt) {
        FailedByReply(s.presence, s.attempts, s.outcomes, attempt, outcome);
      }
    case Vanished =>
  }

  /** While the portal has an owner, exactly one of these holds: a call is in flight, a retry is due, or the identity is
      registered. */
  lemma OneOfThree(inputs: seq<Input>)
    ensures var s := Run(inputs);
      s.owner.Some? && !s.exiting ==> One(s.current.Some?) + One(s.retry.Some?) + One(s.registered) == 1
  {
    RunKept(inputs);
  }

  /** Of all the calls that were ever sent, exactly the replies to stale ones change nothing. */
  lemma StaleReplyChangesNothing(inputs: seq<Input>, attempt: nat, outcome: Outcome)
    requires attempt < |Run(inputs).attempts| && !Run(inputs).exiting
    ensures Step(Run(inputs), Reply(attempt, outcome)) == Run(inputs) <==> Stale(Run(inputs), attempt)
  {
    RunKept(inputs);
    StaleIsNotCurrent(Run(inputs), attempt);
    hide Run, Kept, Stale;
  }

  lemma StaleIsNotCurrent(s: State, attempt: nat)
    requires Kept(s) && attempt < |s.attempts| && !s.exiting
    ensures Stale(s, attempt) <==> s.current != Some(attempt)
    ensures s.current == Some(attempt) ==> attempt !in s.outcomes
  {
  }

  /** The k-th call to an appearance that failed is followed by a retry after min(2^(k-1), 30) seconds. */
  lemma RetriesBackOff(inputs: seq<Input>)
    ensures var s := Run(inputs);
      s.retry.Some? ==>
        var k := |FailedCalls(s)|;
        k > 0 && s.retry == Some(if Power(k - 1) < 30 then Power(k - 1) else 30)
  {
    RunKept(inputs);
    FailuresAreCounted(inputs);
    hide Run, FailedCalls, History;
  }

  /** Register is repeated to one appearance of the portal only after every earlier call has failed for certain. */
  lemma RegisterIsOneShot(inputs: seq<Input>, a: nat, b: nat)
    requires a < b < |Run(inputs).attempts| && Run(inputs).attempts[a].presence == Run(inputs).attempts[b].presence
    ensures Ended(Run(inputs), a, Failed)
  {
    RunKept(inputs);
  }

  /** The broker gives up exactly when some call, the newest, was lost with an outcome that nobody knows. */
  lemma GivesUpWhenUnknown(inputs: seq<Input>)
    ensures var s := Run(inputs);
      && (s.exiting <==> exists a: nat :: Ended(s, a, Unknown))
      && (forall a: nat :: Ended(s, a, Unknown) ==> a == |s.attempts| - 1)
  {
    RunKept(inputs);
    hide Run;
  }

  // ---- The callbacks in place ----

  class Broker {
    var portalOwner: Option<string>
    var portalRegistered: bool
    var portalRetry: Option<nat>
    var portalRetryDelay: nat
    var portalRegistration: Option<nat>
    var exiting: bool
    ghost var attempts: seq<Attempt>
    ghost var outcomes: map<nat, Outcome>
    ghost var presence: nat
    ghost var failures: nat
    var made: nat

    ghost function Model(): State
      reads this
    {
      State(portalOwner, portalRegistered, portalRetry, portalRetryDelay, portalRegistration, exiting, attempts, outcomes,
            presence, failures)
    }

    /** `made` numbers the cancellables. */
    ghost predicate Valid()
      reads this
    {
      made == |attempts| && Kept(Model())
    }

    constructor ()
      ensures Valid() && Model() == INITIAL
    {
      portalOwner, portalRegistered, portalRetry, portalRetryDelay := None, false, None, 1;
      portalRegistration, exiting, made := None, false, 0;
      attempts, outcomes, presence, failures := [], map[], 0, 0;
    }

    method RegisterIdentity()
      requires portalOwner.Some? && made == |attempts|
      modifies this
      ensures Model() == Register(old(Model())) && made == |attempts|
    {
      portalRetry := None;
      portalRegistration := Some(made);
      made := made + 1;
      attempts := attempts + [Attempt(portalOwner.value, presence)];
    }

    method ClearIdentity()
      modifies this
      ensures Model() == Clear(old(Model())) && made == old(made)
    {
      if portalRegistration.Some? {
        portalRegistration := None;
      }
      if portalRetry.Some? {
        portalRetry := None;
      }
      portalRegistered := false;
      portalRetryDelay := 1;
      portalOwner := None;
      failures := 0;
    }

    method OnAppeared(owner: string)
      requires Valid() && !exiting
      modifies this
      ensures Valid() && Model() == Step(old(Model()), Appeared(owner))
    {
      StepKept(Model(), Appeared(owner));
      ClearIdentity();
      portalOwner := Some(owner);
      presence := presence + 1;
      RegisterIdentity();
    }

    method OnVanished()
      requires Valid() && !exiting
      modifies this
      ensures Valid() && Model() == Step(old(Model()), Vanished)
    {
      StepKept(Model(), Vanished);
      ClearIdentity();
    }

    method RegistrationDone(attempt: nat, outcome: Outcome)
      requires Valid() && !exiting
      modifies this
      ensures Valid() && Model() == Step(old(Model()), Reply(attempt, outcome))
    {
      StepKept(Model(), Reply(attempt, outcome));
      if portalRegistration != Some(attempt) {
        return;
      }
      portalRegistration := None;
      outcomes := outcomes[attempt := outcome];
      if outcome.Accepted? {
        portalRegistered := true;
      } else if outcome.Unknown? {
        exiting := true;
      } else {
        portalRetry := Some(portalRetryDelay);
        portalRetryDelay := if portalRetryDelay * 2 < 30 then portalRetryDelay * 2 else 30;
        failures := failures + 1;
      }
    }

    method OnRetry()
      requires Valid() && !exiting && portalRetry.Some?
      modifies this
      ensures Valid() && Model() == Step(old(Model()), RetryFires)
    {
      StepKept(Model(), RetryFires);
      RegisterIdentity();
    }

    method PortalDestination(queried: Option<string>) returns (owner: Option<string>)
      requires Valid()
      ensures owner == Destination(Model(), queried)
      ensures owner.Some? ==> Certified(Model(), owner.value)
    {
      if queried.Some? && portalRegistered && queried == portalOwner {
        return queried;
      }
      return None;
    }
  }
}
