/** native/spaces.c: processes share one polkit agent by counting references to it in a file under a lock. */
module AgentReference {
  import opened Text
  import opened AgentState

  const ZERO := Record(Identity(0, 0), 0)

  /** An agent that a process has a reference to, and whether the reference knows its start time. */
  datatype Holding = Holding(agent: Identity, timed: bool)

  /** What the fields of a reference say; a start time that is not known is 0. */
  function Stated(holding: Holding): Identity {
    if holding.timed then holding.agent else Identity(holding.agent.pid, 0)
  }

  /** The file, what each process holds, who took the lock to start which agent, which agents run and ever ran, and the
      references in the file that were never given back because their holder died or could not take the lock. */
  datatype State = State(file: Record, held: map<nat, Holding>, starting: Option<(nat, Identity)>, alive: set<Identity>,
                         born: set<Identity>, lost: multiset<Identity>)

  const INITIAL := State(NO_RECORD, map[], None, {}, {}, multiset{})

  /** agent_state_is_live; `seen` tells whether the process could be looked up. */
  predicate Live(s: State, seen: bool) {
    seen && s.file.agent.pid > 1 && s.file.references > 0 && s.file.agent in s.alive
  }

  /** acquire_agent_reference; `child` is the agent that start_agent starts if it has to, which runs from then on. */
  function Acquire(s: State, process: nat, seen: bool, child: Option<Identity>): State {
    if Live(s, seen) && s.file.references < UINT_MAX then
      s.(file := s.file.(references := s.file.references + 1), held := s.held[process := Holding(s.file.agent, true)])
    else
      match child
      case None => s.(file := ZERO)
      case Some(agent) =>
        s.(file := ZERO, held := s.held[process := Holding(agent, false)], starting := Some((process, agent)),
           alive := s.alive + {agent}, born := s.born + {agent})
  }

  /** What finish_agent_reference finds: an agent that exited, one whose start time it could not read, or one that it
      records. */
  datatype Outcome = Exited | Unread | Recorded

  /** finish_agent_reference */
  function Finish(s: State, process: nat, agent: Identity, outcome: Outcome): State {
    match outcome
    case Exited => s.(file := ZERO, held := s.held - {process}, starting := None, alive := s.alive - {agent})
    case Unread => s.(starting := None)
    case Recorded => s.(file := Record(agent, 1), held := s.held[process := Holding(agent, true)], starting := None)
  }

  /** release_agent_reference, with the lock. */
  function Release(s: State, process: nat): State
    requires process in s.held
  {
    var agent := Stated(s.held[process]);
    var s := s.(held := s.held - {process});
    if s.file.agent == agent && s.file.references > 0 then
      if s.file.references == 1 then s.(file := ZERO, alive := s.alive - {agent})
      else s.(file := s.file.(references := s.file.references - 1))
    else s
  }

  /** A holder that dies, or cannot take the lock, leaves its reference in the file. The agent that it was starting runs
      on, and has the lock as long as it does. */
  function Lose(s: State, process: nat): State
    requires process in s.held
  {
    var holding := s.held[process];
    s.(held := s.held - {process},
       starting := if Starts(s, process) && s.starting.value.1 !in s.alive then None else s.starting,
       lost := if holding.timed then s.lost + multiset{holding.agent} else s.lost)
  }

  predicate Starts(s: State, process: nat) {
    s.starting.Some? && s.starting.value.0 == process
  }

  datatype Input =
    | AcquireBy(process: nat, seen: bool, child: Option<Identity>)
    | FinishStart(outcome: Outcome)
    | ReleaseBy(process: nat)
    | LoseBy(process: nat)
    | AgentDies(agent: Identity)

  /** An identity is never given to a second process, and no agent starts at time 0, when the machine did. */
  predicate New(s: State, child: Option<Identity>) {
    child.Some? ==> child.value.pid > 0 && child.value.start > 0 && child.value !in s.born
  }

  predicate Acquires(s: State, process: nat, child: Option<Identity>) {
    s.starting.None? && process !in s.held && New(s, child)
  }

  /** The process that starts an agent is still there. */
  predicate Attends(s: State) {
    s.starting.Some? && s.starting.value.0 in s.held
  }

  /** From the start of an agent until its start is finished the lock is taken, and if the starter dies until the agent
      ends. */
  function Step(s: State, input: Input): State {
    match input
    case AcquireBy(process, seen, child) => if Acquires(s, process, child) then Acquire(s, process, seen, child) else s
    case FinishStart(outcome) =>
      if Attends(s) then Finish(s, s.starting.value.0, s.starting.value.1, outcome) else s
    case ReleaseBy(process) => if s.starting.None? && process in s.held then Release(s, process) else s
    case LoseBy(process) => if process in s.held then Lose(s, process) else s
    case AgentDies(agent) =>
      s.(alive := s.alive - {agent},
         starting := if s.starting.Some? && s.starting.value.1 == agent && !Attends(s) then None else s.starting)
  }

  // ---- The count ----

  /** The processes whose references name the agent with its start time, as its record does. */
  function Holders(held: map<nat, Holding>, agent: Identity): set<nat> {
    set process | process in held && held[process] == Holding(agent, true)
  }

  lemma HoldersAdd(held: map<nat, Holding>, process: nat, holding: Holding, other: Identity)
    requires process in held ==> !held[process].timed
    ensures |Holders(held[process := holding], other)|
            == |Holders(held, other)| + if holding == Holding(other, true) then 1 else 0
  {
    var now := Holders(held[process := holding], other);
    if holding == Holding(other, true) {
      assert now == Holders(held, other) + {process};
    } else {
      assert now == Holders(held, other);
    }
  }

  lemma HoldersRemove(held: map<nat, Holding>, process: nat, other: Identity)
    requires process in held
    ensures |Holders(held - {process}, other)|
            == |Holders(held, other)| - if held[process] == Holding(other, true) then 1 else 0
  {
    var now := Holders(held - {process}, other);
    if held[process] == Holding(other, true) {
      assert now == Holders(held, other) - {process};
    } else {
      assert now == Holders(held, other);
    }
  }

  ghost predicate Kept(s: State) {
    && (s.file.references > 0 ==>
          && s.file.references == |Holders(s.held, s.file.agent)| + s.lost[s.file.agent]
          && s.file.references <= UINT_MAX && s.file.agent in s.born)
    && (s.starting.Some? ==> s.file == ZERO && Unrecorded(s, s.starting.value.0, s.starting.value.1))
    && (forall process <- s.held :: s.held[process].agent in s.born)
    && (forall agent <- s.lost :: agent in s.born)
    && (forall agent <- s.born :: agent.pid > 0 && agent.start > 0)
    && s.alive <= s.born
  }

  /** Nobody but its starter has a reference to an agent that is being started. */
  ghost predicate Unrecorded(s: State, process: nat, agent: Identity) {
    && agent in s.born && |Holders(s.held, agent)| == 0 && s.lost[agent] == 0
    && (process in s.held ==> s.held[process] == Holding(agent, false))
  }

  lemma AcquireKept(s: State, process: nat, seen: bool, child: Option<Identity>)
    requires Kept(s) && Acquires(s, process, child)
    ensures Kept(Acquire(s, process, seen, child))
  {
    if Live(s, seen) && s.file.references < UINT_MAX {
      HoldersAdd(s.held, process, Holding(s.file.agent, true), s.file.agent);
    } else if child.Some? {
      assert Holders(s.held, child.value) == {};
      HoldersAdd(s.held, process, Holding(child.value, false), child.value);
    }
  }

  lemma FinishKept(s: State, outcome: Outcome)
    requires Kept(s) && Attends(s)
    ensures Kept(Finish(s, s.starting.value.0, s.starting.value.1, outcome))
  {
    var (process, agent) := s.starting.value;
    HoldersAdd(s.held, process, Holding(agent, true), agent);
  }

  lemma ReleaseKept(s: State, process: nat)
    requires Kept(s) && s.starting.None? && process in s.held
    ensures Kept(Release(s, process))
  {
    HoldersRemove(s.held, process, s.file.agent);
  }

  lemma LoseKept(s: State, process: nat)
    requires Kept(s) && process in s.held
    ensures Kept(Lose(s, process))
  {
    HoldersRemove(s.held, process, s.file.agent);
    if s.starting.Some? {
      HoldersRemove(s.held, process, s.starting.value.1);
    }
  }

  lemma StepKept(s: State, input: Input)
    requires Kept(s)
    ensures Kept(Step(s, input))
  {
    match input
    case AcquireBy(process, seen, child) =>
      if Acquires(s, process, child) {
        AcquireKept(s, process, seen, child);
      }
    case FinishStart(outcome) =>
      if Attends(s) {
        FinishKept(s, outcome);
      }
    case ReleaseBy(process) =>
      if s.starting.None? && process in s.held {
        ReleaseKept(s, process);
      }
    case LoseBy(process) =>
      if process in s.held {
        LoseKept(s, process);
      }
    case AgentDies(_) =>
  }

  /** While an agent is being started nobody else gets the lock. It is given back when the start is finished, or once both
      the starter and the agent are gone. */
  lemma StartsEnd(s: State, input: Input)
    requires s.starting.Some?
    ensures var next, starter, agent := Step(s, input), s.starting.value.0, s.starting.value.1;
      && (next.starting.None? <==>
            || (input.FinishStart? && starter in s.held)
            || (input == LoseBy(starter) && starter in s.held && agent !in s.alive)
            || (input == AgentDies(agent) && starter !in s.held))
      && (next.starting.Some? ==> next.starting == s.starting && next.file == s.file)
      && (input.AcquireBy? || input.ReleaseBy? ==> next == s)
  {
  }

  function Run(inputs: seq<Input>): State {
    if inputs == [] then INITIAL else Step(Run(inputs[..|inputs| - 1]), inputs[|inputs| - 1])
  }

  lemma {:induction false} RunKept(inputs: seq<Input>)
    ensures Kept(Run(inputs))
  {
    if inputs != [] {
      RunKept(inputs[..|inputs| - 1]);
      StepKept(Run(inputs[..|inputs| - 1]), inputs[|inputs| - 1]);
    }
  }

  ghost predicate NoneDies(inputs: seq<Input>) {
    inputs != [] ==> NoneDies(inputs[..|inputs| - 1]) && !inputs[|inputs| - 1].LoseBy?
  }

  lemma {:induction false} NothingLost(inputs: seq<Input>)
    requires NoneDies(inputs)
    ensures Run(inputs).lost == multiset{}
  {
    if inputs != [] {
      NothingLost(inputs[..|inputs| - 1]);
    }
  }

  /** The count in the file is the number of processes that hold the agent it names, as long as every holder gives its
      reference back; those that do not stay counted. */
  lemma CountIsHolders(inputs: seq<Input>)
    ensures var s := Run(inputs);
      s.file.references > 0 ==>
        && s.file.references == |Holders(s.held, s.file.agent)| + s.lost[s.file.agent]
        && (NoneDies(inputs) ==> s.file.references == |Holders(s.held, s.file.agent)|)
  {
    RunKept(inputs);
    if NoneDies(inputs) {
      NothingLost(inputs);
    }
  }

  /** An agent that is not the one in the file and cannot become it. */
  predicate Former(s: State, agent: Identity) {
    agent != s.file.agent && agent in s.born && (s.starting.Some? ==> agent != s.starting.value.1)
  }

  lemma FormerKept(s: State, input: Input, agent: Identity)
    requires Kept(s) && Former(s, agent)
    ensures Former(Step(s, input), agent)
  {
  }

  ghost predicate FormerAfter(inputs: seq<Input>, agent: Identity) {
    Former(Run(inputs), agent)
  }

  lemma FormerNext(inputs: seq<Input>, input: Input, agent: Identity)
    requires FormerAfter(inputs, agent)
    ensures FormerAfter(inputs + [input], agent)
  {
    RunKept(inputs);
    FormerKept(Run(inputs), input, agent);
    assert (inputs + [input])[..|inputs|] == inputs;
    hide Step, Kept, Former;
  }

  lemma {:induction false} FormerStays(inputs: seq<Input>, more: seq<Input>, agent: Identity)
    requires FormerAfter(inputs, agent)
    ensures FormerAfter(inputs + more, agent)
  {
    hide FormerAfter;
    if more == [] {
      assert inputs + more == inputs;
    } else {
      var before, last := more[..|more| - 1], more[|more| - 1];
      FormerStays(inputs, before, agent);
      FormerNext(inputs + before, last, agent);
      assert inputs + more == inputs + before + [last];
    }
  }

  /** An agent that is neither in the file nor being started never comes into the file again, so from then on no release
      of a process that holds it changes the file or ends any agent. */
  lemma FormerHolderChangesNothing(inputs: seq<Input>, more: seq<Input>, process: nat, agent: Identity)
    requires Former(Run(inputs), agent)
    requires process in Run(inputs + more).held && Run(inputs + more).held[process].agent == agent
    ensures var s, t := Run(inputs + more), Step(Run(inputs + more), ReleaseBy(process));
      s.file.agent != agent && t.file == s.file && t.alive == s.alive && t.lost == s.lost
  {
    FormerStays(inputs, more, agent);
    RunKept(inputs + more);
    assert FormerAfter(inputs + more, agent);
    hide Run;
  }

  /** And what a process holds is former unless it stands in the file or is being started. */
  lemma HeldIsKnown(inputs: seq<Input>, process: nat)
    requires process in Run(inputs).held
    ensures var s, agent := Run(inputs), Run(inputs).held[process].agent;
      Former(s, agent) <==> agent != s.file.agent && (s.starting.Some? ==> agent != s.starting.value.1)
  {
    RunKept(inputs);
    hide Run;
  }

  /** A release ends an agent exactly when the agent is the one in the file and no other holder is left, none that died
      included; then it ends that one alone. */
  lemma LastReleaseEndsTheAgent(inputs: seq<Input>, process: nat)
    requires process in Run(inputs).held && Run(inputs).starting.None?
    ensures var s, t := Run(inputs), Step(Run(inputs), ReleaseBy(process));
      var agent := s.held[process].agent;
      var last := s.file.agent == agent && s.file.references > 0 && Holders(s.held, agent) == {process}
                  && s.lost[agent] == 0;
      && t.alive == (if last then s.alive - {agent} else s.alive)
      && (last ==> t.file == ZERO && Holders(t.held, agent) == {})
  {
    RunKept(inputs);
    hide Run;
    ReleaseEnds(Run(inputs), process);
  }

  lemma ReleaseEnds(s: State, process: nat)
    requires Kept(s) && process in s.held && s.starting.None?
    ensures var t, agent := Release(s, process), s.held[process].agent;
      var last := s.file.agent == agent && s.file.references > 0 && Holders(s.held, agent) == {process}
                  && s.lost[agent] == 0;
      && t.alive == (if last then s.alive - {agent} else s.alive)
      && (last ==> t.file == ZERO && Holders(t.held, agent) == {})
  {
    var agent := s.held[process].agent;
    HoldersRemove(s.held, process, agent);
    var others := Holders(s.held - {process}, agent);
    if s.held[process].timed {
      assert Holders(s.held, agent) == others + {process};
      if s.file.agent == agent && s.file.references > 0 {
        assert s.file.references == 1 <==> others == {} && s.lost[agent] == 0;
        assert others == {} <==> Holders(s.held, agent) == {process};
      }
    } else {
      assert process !in Holders(s.held, agent);
    }
  }

  // ---- Agents without holders ----

  /** Every running agent is held by some process, be it the one that starts it. */
  ghost predicate Attended(s: State) {
    forall agent <- s.alive :: Held(s.held, agent)
  }

  ghost predicate Held(held: map<nat, Holding>, agent: Identity) {
    exists process :: process in held && held[process].agent == agent
  }

  /** No other process holds the running agent that this one does. */
  ghost predicate LastHolder(s: State, process: nat) {
    && process in s.held && s.held[process].agent in s.alive
    && !Held(s.held - {process}, s.held[process].agent)
  }

  /** The last holder of a running agent goes without ending it: it dies, perhaps while it starts the agent, or it gives
      its reference back while the file does not name that agent with one reference. */
  ghost predicate Leaves(s: State, input: Input) {
    match input
    case LoseBy(process) => LastHolder(s, process)
    case ReleaseBy(process) =>
      s.starting.None? && LastHolder(s, process) && s.file != Record(Stated(s.held[process]), 1)
    case _ => false
  }

  /** A step leaves some agent without a holder exactly when the last holder goes without ending it. */
  lemma StaysAttended(s: State, input: Input)
    requires Kept(s) && Attended(s)
    ensures Attended(Step(s, input)) <==> !Leaves(s, input)
  {
    match input
    case AcquireBy(process, seen, child) => AcquireAttended(s, process, seen, child);
    case FinishStart(outcome) => FinishAttended(s, outcome);
    case ReleaseBy(process) =>
      if s.starting.None? && process in s.held {
        ReleaseAttended(s, process);
      }
    case LoseBy(process) =>
      if process in s.held {
        GoneHolder(s, process);
      }
    case AgentDies(_) =>
  }

  lemma HeldStill(held: map<nat, Holding>, process: nat, holding: Holding, agent: Identity)
    requires process in held ==> held[process].agent == holding.agent
    ensures Held(held[process := holding], agent) <==> Held(held, agent) || holding.agent == agent
  {
    var later := held[process := holding];
    if Held(held, agent) {
      var holder :| holder in held && held[holder].agent == agent;
      assert holder in later && later[holder].agent == agent;
    }
    assert process in later && later[process] == holding;
  }

  lemma HeldWithout(held: map<nat, Holding>, process: nat, agent: Identity)
    requires process in held && held[process].agent != agent
    ensures Held(held - {process}, agent) <==> Held(held, agent)
  {
    if Held(held, agent) {
      var holder :| holder in held && held[holder].agent == agent;
      assert holder in held - {process} && (held - {process})[holder].agent == agent;
    }
  }

  lemma AcquireAttended(s: State, process: nat, seen: bool, child: Option<Identity>)
    requires Kept(s) && Attended(s)
    ensures Attended(Step(s, AcquireBy(process, seen, child)))
  {
    hide Held, Kept;
    var next := Step(s, AcquireBy(process, seen, child));
    if Acquires(s, process, child) {
      forall agent <- next.alive ensures Held(next.held, agent) {
        if process in next.held {
          HeldStill(s.held, process, next.held[process], agent);
        }
      }
    }
  }

  lemma FinishAttended(s: State, outcome: Outcome)
    requires Kept(s) && Attended(s)
    ensures Attended(Step(s, FinishStart(outcome)))
  {
    hide Held;
    var next := Step(s, FinishStart(outcome));
    if Attends(s) {
      var (process, started) := s.starting.value;
      forall agent <- next.alive ensures Held(next.held, agent) {
        if outcome.Recorded? {
          HeldStill(s.held, process, Holding(started, true), agent);
        } else if outcome.Exited? {
          HeldWithout(s.held, process, agent);
        }
      }
    }
  }

  /** Without a process exactly the agent that only it holds has no holder. */
  lemma GoneHolder(s: State, process: nat)
    requires Attended(s) && process in s.held
    ensures forall agent <- s.alive ::
      Held(s.held - {process}, agent) <==> !(LastHolder(s, process) && agent == s.held[process].agent)
  {
    hide Held;
    forall agent <- s.alive
      ensures Held(s.held - {process}, agent) <==> !(LastHolder(s, process) && agent == s.held[process].agent)
    {
      if agent != s.held[process].agent {
        HeldWithout(s.held, process, agent);
      }
    }
  }

  lemma ReleaseAttended(s: State, process: nat)
    requires Kept(s) && Attended(s) && s.starting.None? && process in s.held
    ensures Attended(Release(s, process)) <==> !Leaves(s, ReleaseBy(process))
  {
    GoneHolder(s, process);
    hide Held;
    var next, agent := Release(s, process), s.held[process].agent;
    if next.alive != s.alive {
      assert s.file.agent in s.born && s.file.agent == agent;
    }
    if LastHolder(s, process) && next.alive == s.alive {
      assert agent in next.alive && !Held(next.held, agent);
    }
  }

  ghost predicate AttendedThroughout(inputs: seq<Input>) {
    Attended(Run(inputs)) && (inputs != [] ==> AttendedThroughout(inputs[..|inputs| - 1]))
  }

  ghost predicate NoneLeft(inputs: seq<Input>) {
    inputs != [] ==>
      NoneLeft(inputs[..|inputs| - 1]) && !Leaves(Run(inputs[..|inputs| - 1]), inputs[|inputs| - 1])
  }

  /** An agent runs only while some process holds it, throughout a run, exactly when no last holder goes without ending
      it. */
  lemma {:induction false} AgentsAreAttended(inputs: seq<Input>)
    ensures AttendedThroughout(inputs) <==> NoneLeft(inputs)
  {
    hide Attended, Leaves, Step, Kept;
    if inputs != [] {
      var before, input := inputs[..|inputs| - 1], inputs[|inputs| - 1];
      AgentsAreAttended(before);
      RunKept(before);
      if Attended(Run(before)) {
        StaysAttended(Run(before), input);
      }
    } else {
      NoAgents();
    }
  }

  lemma NoAgents()
    ensures Attended(INITIAL) && Accounted(INITIAL)
  {
  }

  // ---- Agents without a record ----

  /** Every running agent is the one in the file, or its starter is there to put it in. */
  ghost predicate Accounted(s: State) {
    forall agent <- s.alive ::
      (s.file.agent == agent && s.file.references > 0) || (Attends(s) && s.starting.value.1 == agent)
  }

  /** A process resets the file although the agent in it runs: it does not see that agent, or the agent has the process ID
      that the reader takes for none, or the count is full. Or the starter of a running agent cannot read its start time,
      or dies. */
  predicate Abandons(s: State, input: Input) {
    match input
    case AcquireBy(process, seen, child) =>
      && Acquires(s, process, child) && s.alive != {}
      && (!seen || s.file.agent.pid <= 1 || s.file.references >= UINT_MAX)
    case FinishStart(Unread) => Attends(s) && s.starting.value.1 in s.alive
    case LoseBy(process) => process in s.held && Starts(s, process) && s.starting.value.1 in s.alive
    case _ => false
  }

  /** A step takes a running agent off the record exactly when it abandons it. */
  lemma StaysAccounted(s: State, input: Input)
    requires Kept(s) && Accounted(s)
    ensures Accounted(Step(s, input)) <==> !Abandons(s, input)
  {
    hide Holders;
    match input
    case AcquireBy(process, seen, child) =>
      AcquireAccounted(s, process, seen, child);
    case FinishStart(outcome) =>
      if Attends(s) {
        assert s.alive <= {s.starting.value.1};
      }
    case ReleaseBy(process) =>
      ReleaseAccounted(s, process);
    case LoseBy(process) =>
      LoseAccounted(s, process);
    case AgentDies(agent) =>
  }

  lemma AcquireAccounted(s: State, process: nat, seen: bool, child: Option<Identity>)
    requires Kept(s) && Accounted(s)
    ensures Accounted(Step(s, AcquireBy(process, seen, child))) <==> !Abandons(s, AcquireBy(process, seen, child))
  {
    hide Holders;
    if Acquires(s, process, child) && s.alive != {} {
      var agent :| agent in s.alive;
      assert s.file.agent == agent && s.file.references > 0;
      assert agent.start > 0 && child != Some(agent);
    }
  }

  lemma ReleaseAccounted(s: State, process: nat)
    requires Kept(s) && Accounted(s)
    ensures Accounted(Step(s, ReleaseBy(process)))
  {
    hide Holders;
  }

  lemma LoseAccounted(s: State, process: nat)
    requires Kept(s) && Accounted(s)
    ensures Accounted(Step(s, LoseBy(process))) <==> !Abandons(s, LoseBy(process))
  {
    hide Holders;
  }

  ghost predicate AccountedThroughout(inputs: seq<Input>) {
    Accounted(Run(inputs)) && (inputs != [] ==> AccountedThroughout(inputs[..|inputs| - 1]))
  }

  ghost predicate NoneAbandoned(inputs: seq<Input>) {
    inputs != [] ==>
      NoneAbandoned(inputs[..|inputs| - 1]) && !Abandons(Run(inputs[..|inputs| - 1]), inputs[|inputs| - 1])
  }

  /** Every running agent is on record, or its starter is there to record it, throughout a run exactly when no step
      abandons one. */
  lemma {:induction false} AgentsAreAccounted(inputs: seq<Input>)
    ensures AccountedThroughout(inputs) <==> NoneAbandoned(inputs)
  {
    hide Accounted, Abandons, Step, Kept;
    if inputs != [] {
      var before, input := inputs[..|inputs| - 1], inputs[|inputs| - 1];
      AgentsAreAccounted(before);
      RunKept(before);
      if Accounted(Run(before)) {
        StaysAccounted(Run(before), input);
      }
    } else {
      NoAgents();
    }
  }

  /** The last holder of an agent on record gives back its only reference, if none was lost. */
  lemma AccountedIsEnded(s: State, process: nat)
    requires Kept(s) && Accounted(s) && s.lost == multiset{}
    ensures !Leaves(s, ReleaseBy(process))
    ensures s.starting.None? && LastHolder(s, process) ==> s.held[process].agent !in Step(s, ReleaseBy(process)).alive
  {
    if s.starting.None? && LastHolder(s, process) {
      var agent := s.held[process].agent;
      assert s.file.agent == agent && s.file.references > 0;
      OneOrMore(s.held, process, agent);
      NoneOrOne(Holders(s.held, agent), process);
    }
  }

  lemma OneOrMore(held: map<nat, Holding>, process: nat, agent: Identity)
    ensures Holders(held, agent) <= {process} || Held(held - {process}, agent)
  {
    if other :| other in Holders(held, agent) && other != process {
      assert other in held - {process} && (held - {process})[other].agent == agent;
    }
  }

  lemma NoneOrOne(processes: set<nat>, process: nat)
    requires processes <= {process}
    ensures processes == {} || processes == {process}
  {
  }

  /** So if no agent is abandoned and no holder dies, an agent runs only while some process holds it. */
  lemma {:induction false} HoldersEndTheirAgents(inputs: seq<Input>)
    requires NoneAbandoned(inputs) && NoneDies(inputs)
    ensures NoneLeft(inputs)
  {
    hide Accounted, Abandons, Kept, Step;
    if inputs != [] {
      var before, input := inputs[..|inputs| - 1], inputs[|inputs| - 1];
      HoldersEndTheirAgents(before);
      AgentsAreAccounted(before);
      RunKept(before);
      NothingLost(before);
      if input.ReleaseBy? {
        AccountedIsEnded(Run(before), input.process);
      }
    }
  }

  /** An agent whose start time could not be read is in no record: its only holder gives it back, and it runs on. */
  lemma UnreadAgentIsLeft(agent: Identity)
    requires agent.pid > 0 && agent.start > 0
    ensures var s := Run([AcquireBy(0, true, Some(agent)), FinishStart(Unread), ReleaseBy(0)]);
      s.held == map[] && s.file == ZERO && s.alive == {agent}
  {
    var one, two, three := AcquireBy(0, true, Some(agent)), FinishStart(Unread), ReleaseBy(0);
    assert [one, two, three][..2] == [one, two] && [one, two][..1] == [one] && [one][..0] == [];
    var s := INITIAL.(file := ZERO, held := map[0 := Holding(agent, false)], alive := {agent}, born := {agent});
    assert Run([one]) == s.(starting := Some((0, agent)));
    assert Run([one, two]) == s;
    assert s.held - {0} == map[];
  }

  /** The starter of an agent dies: nobody holds the agent, it runs on, and nobody else gets the lock. */
  lemma StartedAgentIsLeft(agent: Identity)
    requires agent.pid > 0 && agent.start > 0
    ensures var s := Run([AcquireBy(0, true, Some(agent)), LoseBy(0)]);
      s.held == map[] && s.file == ZERO && s.alive == {agent} && s.starting.Some?
  {
    var one, two := AcquireBy(0, true, Some(agent)), LoseBy(0);
    assert [one, two][..1] == [one] && [one][..0] == [];
    var s := INITIAL.(file := ZERO, held := map[0 := Holding(agent, false)], starting := Some((0, agent)),
                      alive := {agent}, born := {agent});
    assert Run([one]) == s;
    assert s.held - {0} == map[];
  }

  // ---- One process, with the file as text ----

  /** The file and this process's reference. */
  class Reference {
    var content: string
    var pid: int
    var startTime: nat
    var held: bool
    var starting: bool

    ghost predicate Valid()
      reads this
    {
      && (held ==> 0 < pid <= INT_MAX && startTime <= ULLONG_MAX) && (!held ==> pid == -1 && startTime == 0)
    }

    /** The text is the file of `s`, and the reference is what `s` knows of this process. */
    ghost predicate Mirrors(s: State, process: nat)
      reads this
    {
      ReadBack(content) == s.file && Knows(held, starting, pid, startTime, s, process)
    }

    constructor (content: string)
      ensures Valid() && this.content == content && !held && !starting
    {
      this.content := content;
      pid, startTime, held, starting := -1, 0, false, false;
    }

    /** acquire_agent_reference, under the lock; `live` is what the kernel says of the recorded process: it is seen and
        its agent runs. */
    method AcquireReference(live: bool, child: int, ghost s: State, ghost process: nat, ghost seen: bool,
                            ghost start: nat)
      requires Valid() && !held && !starting && child <= INT_MAX
      requires Mirrors(s, process) && process !in s.held && s.starting.None?
      requires live == (seen && s.file.agent in s.alive)
      modifies this
      ensures Valid()
      ensures var r := ReadBack(old(content));
        if live && r.agent.pid > 1 && 0 < r.references < UINT_MAX then
          && held && !starting && Identity(pid, startTime) == r.agent
          && content == Written(r.(references := r.references + 1))
        else
          content == Written(ZERO) && held == starting == (child > 0) && (held ==> pid == child)
      ensures Mirrors(Acquire(s, process, seen, if child > 0 then Some(Identity(child, start)) else None), process)
    {
      hide ReadBack, Written, Acquire, Knows, Live, Starts;
      AcquireKnows(s, process, seen, child, start);
      ReadBackInRange(content);
      ReadBackWritten(ZERO);
      var state := ReadBack(content);
      if live && state.agent.pid > 1 && 0 < state.references < UINT_MAX {
        state := state.(references := state.references + 1);
        ReadBackWritten(state);
        content := Written(state);
        pid, startTime, held := state.agent.pid, state.agent.start, true;
        return;
      }
      content := Written(ZERO);
      if child > 0 {
        pid, held, starting := child, true, true;
      }
    }

    /** finish_agent_reference; `started` tells that the agent did not exit, `start` is its start time if it is known.
        A reference that is not starting, or whose agent's start time is not known, stays as it is. */
    method FinishReference(started: bool, start: Option<nat>, ghost s: State, ghost process: nat)
      requires Valid() && (starting ==> held) && (start.Some? ==> start.value <= ULLONG_MAX)
      requires Mirrors(s, process) && (starting ==> Starts(s, process) && Kept(s))
      requires starting && started && start.Some? ==> start.value == s.starting.value.1.start
      modifies this
      ensures Valid()
      ensures !old(starting) || (started && start.None?) ==>
                content == old(content) && pid == old(pid) && startTime == old(startTime) && held == old(held)
                && starting == old(starting)
      ensures old(starting) && !started ==> content == Written(ZERO) && !held && !starting
      ensures old(starting) && started && start.Some? ==>
                && content == Written(Record(Identity(old(pid), start.value), 1))
                && held && !starting && Identity(pid, startTime) == Identity(old(pid), start.value)
      ensures old(starting) ==>
                Mirrors(Finish(s, process, s.starting.value.1, OutcomeOf(started, start)), process)
    {
      hide ReadBack, Written, Finish, Kept, Knows;
      if !starting {
        return;
      }
      KnowsStarted(held, starting, pid, startTime, s, process);
      FinishKnows(s, process);
      if started && start.Some? {
        startTime := start.value;
        ReadBackWritten(Record(Identity(pid, startTime), 1));
        content := Written(Record(Identity(pid, startTime), 1));
        starting := false;
      }
      if !started {
        ReadBackWritten(ZERO);
        content := Written(ZERO);
        pid, startTime, held, starting := -1, 0, false, false;
      }
    }

    /** release_agent_reference, under the lock; `ended` tells whether the agent is to be terminated. */
    method ReleaseReference(ghost s: State, ghost process: nat) returns (ended: bool)
      requires Valid() && held && Mirrors(s, process) && s.starting.None?
      modifies this
      ensures Valid() && !held && starting == old(starting)
      ensures var r, agent := ReadBack(old(content)), Identity(old(pid), old(startTime));
        && ended == (r.agent == agent && r.references == 1)
        && content == if r.agent == agent && r.references > 0 then
                        Written(if r.references == 1 then ZERO else r.(references := r.references - 1))
                      else old(content)
      ensures var agent, next := Identity(old(pid), old(startTime)), Release(s, process);
        Mirrors(next, process) && next.alive == if ended then s.alive - {agent} else s.alive
    {
      hide ReadBack, Written, Release, Knows, Starts;
      KnowsHeld(held, starting, pid, startTime, s, process);
      ReleaseKnows(s, process, starting);
      ReadBackInRange(content);
      ReadBackWritten(ZERO);
      var state := ReadBack(content);
      ended := false;
      if state.agent == Identity(pid, startTime) && state.references > 0 {
        if state.references == 1 {
          content := Written(ZERO);
          ended := true;
        } else {
          ReadBackWritten(state.(references := state.references - 1));
          content := Written(state.(references := state.references - 1));
        }
      }
      pid, startTime, held := -1, 0, false;
    }
  }

  /** A reference is what `s` knows of the process: an agent that it holds, one that it is starting included, or none. */
  predicate Knows(held: bool, starting: bool, pid: int, startTime: nat, s: State, process: nat) {
    && (Starts(s, process) && held ==> starting)
    && if held then process in s.held && Stated(s.held[process]) == Identity(pid, startTime) else process !in s.held
  }

  lemma KnowsStarted(held: bool, starting: bool, pid: int, startTime: nat, s: State, process: nat)
    requires Knows(held, starting, pid, startTime, s, process) && held && Starts(s, process) && Kept(s)
    ensures Attends(s) && s.starting.value.1.pid == pid && startTime == 0
    ensures s.held[process] == Holding(s.starting.value.1, false) && s.file == ZERO
  {
  }

  lemma KnowsHeld(held: bool, starting: bool, pid: int, startTime: nat, s: State, process: nat)
    requires Knows(held, starting, pid, startTime, s, process) && held && s.starting.None?
    ensures process in s.held && Stated(s.held[process]) == Identity(pid, startTime)
  {
  }

  /** What acquire_agent_reference makes of the file and of the process. */
  lemma AcquireKnows(s: State, process: nat, seen: bool, child: int, start: nat)
    requires s.starting.None? && process !in s.held
    ensures var next := Acquire(s, process, seen, if child > 0 then Some(Identity(child, start)) else None);
      if Live(s, seen) && s.file.references < UINT_MAX then
        && next.file == s.file.(references := s.file.references + 1)
        && Knows(true, false, s.file.agent.pid, s.file.agent.start, next, process)
      else
        next.file == ZERO && Knows(child > 0, child > 0, if child > 0 then child else -1, 0, next, process)
    ensures Live(s, seen) <==> (seen && s.file.agent in s.alive) && s.file.agent.pid > 1 && s.file.references > 0
    ensures !Starts(s, process)
  {
  }

  lemma FinishKnows(s: State, process: nat)
    requires Attends(s) && Starts(s, process) && s.held[process] == Holding(s.starting.value.1, false) && s.file == ZERO
    ensures var agent := s.starting.value.1;
      && (var next := Finish(s, process, agent, Recorded);
          next.file == Record(agent, 1) && Knows(true, false, agent.pid, agent.start, next, process))
      && (var next := Finish(s, process, agent, Unread);
          next.file == s.file && Knows(true, true, agent.pid, 0, next, process))
      && (var next := Finish(s, process, agent, Exited);
          next.file == ZERO && Knows(false, false, -1, 0, next, process))
  {
  }

  lemma ReleaseKnows(s: State, process: nat, starting: bool)
    requires s.starting.None? && process in s.held
    ensures var next, agent := Release(s, process), Stated(s.held[process]);
      && Knows(false, starting, -1, 0, next, process)
      && next.file == (if s.file.agent == agent && s.file.references > 0 then
                         if s.file.references == 1 then ZERO else s.file.(references := s.file.references - 1)
                       else s.file)
      && next.alive == if s.file.agent == agent && s.file.references == 1 then s.alive - {agent} else s.alive
  {
  }

  function OutcomeOf(started: bool, start: Option<nat>): Outcome {
    if !started then Exited else if start.None? then Unread else Recorded
  }
}
