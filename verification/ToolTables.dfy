/** native/scu_mcp.h and native/scu_host.c: the tables themselves, the way each accepted step takes, and the arrays that
    rely on the validator. */
module ToolTables {
  import opened Text
  import opened Json
  import opened ToolSchema
  import opened ToolBatch
  import opened KeyChord

  function Plain(name: string, kind: Kind): Argument {
    Argument(name, kind, [], 0, 0, false, false)
  }

  function Ranged(name: string, kind: Kind, minimum: int, maximum: int): Argument {
    Argument(name, kind, [], minimum, maximum, false, false)
  }

  const BUTTONS := ["left", "right", "middle"]
  const DIRECTIONS := ["up", "down", "left", "right"]
  const BUTTON := Argument("button", StringKind, BUTTONS, 0, 0, false, false)
  const CLICK_ARGUMENTS := [BUTTON, Ranged("count", IntegerKind, 1, 3)]
  const DURATION := Ranged("duration_ms", IntegerKind, 0, 10000)
  const DRAG_ARGUMENTS := [Plain("from_x", NumberKind), Plain("from_y", NumberKind), Plain("to_x", NumberKind),
                           Plain("to_y", NumberKind), DURATION, BUTTON]
  const SCROLL_ARGUMENTS := [Argument("direction", StringKind, DIRECTIONS, 0, 0, false, false),
                             Ranged("amount", IntegerKind, 1, 700)]
  const KEYS := Ranged("keys", StringArray, 1, 5)
  const DELAY_ARGUMENTS := [Ranged("ms", IntegerKind, 0, 30000)]
  const STEPS_LINE := Ranged("steps", ObjectArray, 0, 64)
  const VISION_ARGUMENTS := [STEPS_LINE, Argument("observations", Observation, [], 0, 0, true, false)]
  const ACCESSIBILITY_ARGUMENTS := [STEPS_LINE, Plain("observations", Observation)]

  const VISION := Tool("vision", false, false, VISION_ARGUMENTS, [], Vision, {}, None)
  const ACCESSIBILITY := Tool("accessibility", false, false, ACCESSIBILITY_ARGUMENTS, [], Accessibility, {}, None)

  const CLICK := Tool("click", false, true, CLICK_ARGUMENTS, ["x", "y"], NoBatch, {Vision}, None)
  const MOVE_CURSOR := Tool("move_cursor", false, true, [], ["x", "y"], NoBatch, {Vision}, None)
  const DRAG := Tool("drag", false, false, DRAG_ARGUMENTS, ["from_x", "from_y", "to_x", "to_y"], NoBatch, {Vision}, None)
  const SCROLL := Tool("scroll", false, true, SCROLL_ARGUMENTS, ["x", "y", "direction"], NoBatch, {Vision}, None)
  const PRESS_KEYS := Tool("press_keys", false, false, [KEYS], ["keys"], NoBatch, {Vision}, None)
  const ACTIVATE := Tool("activate", true, false, [], ["element_id"], NoBatch, {Accessibility}, None)
  const OPEN_CONTEXT_MENU := Tool("open_context_menu", true, false, [], ["element_id"], NoBatch, {Accessibility}, None)
  const TYPE_TEXT := Tool("type_text", false, false, [Plain("text", StringKind)], ["text"], NoBatch,
                          {Vision, Accessibility}, Some(["element_id", "text"]))
  const SET_VALUE := Tool("set_value", true, false, [Plain("value", StringKind)], ["element_id", "value"], NoBatch,
                          {Accessibility}, None)
  const DELAY_MS := Tool("delay_ms", false, false, DELAY_ARGUMENTS, ["ms"], NoBatch, {Vision, Accessibility}, None)
  const ACTION_TOOLS := [CLICK, MOVE_CURSOR, DRAG, SCROLL, PRESS_KEYS, ACTIVATE, OPEN_CONTEXT_MENU, TYPE_TEXT, SET_VALUE,
                         DELAY_MS]

  predicate ActionName(name: string) {
    name != "status" && name != "search_applications" && name != "launch_application"
  }

  /** What the theorems below need of a line of the action table. A vision action has no element, and an accessibility
      action asks for one unless it is a delay. */
  predicate StepAction(action: Tool) {
    && action.batch == NoBatch && NUL !in action.name && ActionName(action.name)
    && (Vision in action.modes ==>
          && action.name != "set_value" && !action.withElement
          && forall k :: 0 <= k < |action.arguments| ==> action.arguments[k].name != "element_id")
    && (Accessibility in action.modes && action.name != "delay_ms" ==>
          |Targeted(action, Accessibility).required| > 0 && Targeted(action, Accessibility).required[0] == "element_id")
  }

  lemma ClickIsAction()
    ensures StepAction(CLICK)
  {
  }

  lemma MoveCursorIsAction()
    ensures StepAction(MOVE_CURSOR)
  {
  }

  lemma DragIsAction()
    ensures StepAction(DRAG)
  {
  }

  lemma ScrollIsAction()
    ensures StepAction(SCROLL)
  {
  }

  lemma PressKeysIsAction()
    ensures StepAction(PRESS_KEYS)
  {
  }

  lemma ActivateIsAction()
    ensures StepAction(ACTIVATE)
  {
  }

  lemma OpenContextMenuIsAction()
    ensures StepAction(OPEN_CONTEXT_MENU)
  {
  }

  lemma TypeTextIsAction()
    ensures StepAction(TYPE_TEXT)
  {
  }

  lemma SetValueIsAction()
    ensures StepAction(SET_VALUE)
  {
  }

  lemma DelayMsIsAction()
    ensures StepAction(DELAY_MS)
  {
  }

  lemma ListedAction(k: nat)
    requires k < |ACTION_TOOLS|
    ensures StepAction(ACTION_TOOLS[k])
  {
    hide StepAction, CLICK, MOVE_CURSOR, DRAG, SCROLL, PRESS_KEYS, ACTIVATE, OPEN_CONTEXT_MENU, TYPE_TEXT, SET_VALUE, DELAY_MS;
    ClickIsAction();
    MoveCursorIsAction();
    DragIsAction();
    ScrollIsAction();
    PressKeysIsAction();
    ActivateIsAction();
    OpenContextMenuIsAction();
    TypeTextIsAction();
    SetValueIsAction();
    DelayMsIsAction();
  }

  lemma ActionsAreSteps()
    ensures Steps(ACTION_TOOLS) && PlainNames(ACTION_TOOLS)
  {
    forall k | 0 <= k < |ACTION_TOOLS| ensures ACTION_TOOLS[k].batch == NoBatch && NUL !in ACTION_TOOLS[k].name {
      ListedAction(k);
      hide ACTION_TOOLS, ActionName;
    }
    hide ACTION_TOOLS;
  }

  /** The two batches meet what the theorems about batches ask of tables. */
  lemma VisionIsBatch(noVision: bool)
    ensures IsBatch(VISION, noVision) && Line(TakenArguments(VISION, noVision), "steps") == Some(STEPS_LINE)
  {
    TwoLines(STEPS_LINE, VISION_ARGUMENTS[1]);
    assert TakenArguments(VISION, noVision) == VISION_ARGUMENTS == [STEPS_LINE, VISION_ARGUMENTS[1]];
  }

  lemma AccessibilityIsBatch(noVision: bool)
    ensures IsBatch(ACCESSIBILITY, noVision) && Line(TakenArguments(ACCESSIBILITY, noVision), "steps") == Some(STEPS_LINE)
  {
    TwoLines(STEPS_LINE, ACCESSIBILITY_ARGUMENTS[1]);
    assert TakenArguments(ACCESSIBILITY, noVision) == ACCESSIBILITY_ARGUMENTS
           == [STEPS_LINE, ACCESSIBILITY_ARGUMENTS[1]];
  }

  lemma TwoLines(one: Argument, other: Argument)
    requires other.name != one.name
    ensures Line([one, other], one.name) == Some(one)
  {
    assert [one, other][1..] == [other] && [other][1..] == [];
    assert Line([], one.name) == None;
    assert Line([other], one.name) == None;
  }

  // ---- Where execute_tool sends a step ----

  datatype Route = ToStatus | ToBatch | ToSearch | ToLaunch | ToDelay | ToAccessibility | ToVisual

  function Routed(tool: Tool, args: Json): Route {
    if tool.name == "status" then ToStatus
    else if tool.batch != NoBatch then ToBatch
    else if tool.name == "search_applications" then ToSearch
    else if tool.name == "launch_application" then ToLaunch
    else if tool.name == "delay_ms" then ToDelay
    else if tool.name == "set_value" || Member(args, "element_id").Some? then ToAccessibility
    else ToVisual
  }

  /** An action that a batch finds is one of the table, perhaps with its target. */
  lemma FoundIsListed(actions: seq<Tool>, batch: Batch, name: string)
    requires FindAction(actions, batch, name).Some?
    ensures exists k :: 0 <= k < |actions| && batch in actions[k].modes
                        && FindAction(actions, batch, name) == Some(Targeted(actions[k], batch))
  {
    if batch in actions[0].modes && actions[0].name == name {
      assert FindAction(actions, batch, name) == Some(Targeted(actions[0], batch));
    } else {
      FoundIsListed(actions[1..], batch, name);
      var k :| 0 <= k < |actions[1..]| && batch in actions[1..][k].modes
               && FindAction(actions, batch, name) == Some(Targeted(actions[1..][k], batch));
      assert actions[k + 1] == actions[1..][k];
    }
  }

  lemma NoLine(arguments: seq<Argument>, name: string)
    requires forall k :: 0 <= k < |arguments| ==> arguments[k].name != name
    ensures Line(arguments, name).None?
  {
    if arguments != [] {
      assert forall k :: 0 <= k < |arguments[1..]| ==> arguments[1..][k] == arguments[k + 1];
      NoLine(arguments[1..], name);
    }
  }

  lemma NoElementLine(action: Tool, noVision: bool)
    requires StepAction(action) && Vision in action.modes
    ensures Line(TakenArguments(action, noVision), "element_id").None?
  {
    var arguments := TakenArguments(action, noVision);
    forall k | 0 <= k < |arguments| ensures arguments[k].name != "element_id" {
    }
    NoLine(arguments, "element_id");
  }

  /** Accepted arguments have no member that the table has no line for. */
  lemma NoMember(arguments: seq<Argument>, required: seq<string>, args: Json, name: string)
    requires MembersFit(arguments, required, args) && Line(arguments, name).None? && NUL !in name
    ensures Member(args, name).None?
  {
    assert CString(name) == name;
    NotFound(args.members, name);
    forall k | 0 <= k < |args.members| ensures args.members[k].0 != name {
      assert Line(arguments, CString(args.members[k].0)).Some?;
    }
  }

  lemma NoElement(action: Tool, noVision: bool, args: Json)
    requires StepAction(action) && Vision in action.modes
    requires MembersFit(TakenArguments(action, noVision), action.required, args)
    ensures Member(args, "element_id").None?
  {
    NoElementLine(action, noVision);
    assert NUL !in "element_id";
    NoMember(TakenArguments(action, noVision), action.required, args, "element_id");
  }

  /** A vision step goes to scu_visual and an accessibility step to scu_atspi, unless it is a delay. */
  lemma StepsAreRouted(batch: Batch, noVision: bool, step: (Tool, Json))
    requires batch != NoBatch && Usable(ACTION_TOOLS, batch, noVision, step)
    ensures Routed(step.0, step.1) ==
            if step.0.name == "delay_ms" then ToDelay else if batch == Vision then ToVisual else ToAccessibility
  {
    FoundIsListed(ACTION_TOOLS, batch, step.0.name);
    var k :| 0 <= k < |ACTION_TOOLS| && batch in ACTION_TOOLS[k].modes && step.0 == Targeted(ACTION_TOOLS[k], batch);
    ListedAction(k);
    RouteOf(ACTION_TOOLS[k], batch, noVision, step.1);
  }

  lemma RouteOf(action: Tool, batch: Batch, noVision: bool, args: Json)
    requires StepAction(action) && batch in action.modes && batch != NoBatch
    requires MembersFit(TakenArguments(Targeted(action, batch), noVision), Targeted(action, batch).required, args)
    ensures Routed(Targeted(action, batch), args) ==
            if action.name == "delay_ms" then ToDelay else if batch == Vision then ToVisual else ToAccessibility
  {
    var tool := Targeted(action, batch);
    if batch == Vision {
      NoElement(action, noVision, args);
    } else if action.name != "delay_ms" {
      ElementGiven(action, args);
    }
    hide MembersFit, TakenArguments, Member;
  }

  /** An accessibility action asks for an element, unless it is a delay. */
  lemma ElementGiven(action: Tool, args: Json)
    requires StepAction(action) && Accessibility in action.modes && action.name != "delay_ms" && args.Obj?
    requires forall name <- Targeted(action, Accessibility).required :: Find(args.members, CString(name)).Some?
    ensures Member(args, "element_id").Some?
  {
    assert CString("element_id") == "element_id";
    hide Find, CString;
    assert Targeted(action, Accessibility).required[0] in Targeted(action, Accessibility).required;
  }

  /** Every step of an accepted batch with distinct keys reaches its own backend or waits. */
  lemma AcceptedStepsAreRouted(tool: Tool, noVision: bool, args: Json, k: nat)
    requires tool == VISION || tool == ACCESSIBILITY
    requires Steps(ACTION_TOOLS) && Validate(args, BuildToolSchema(tool, ACTION_TOOLS, noVision))
    requires CheckSteps(ACTION_TOOLS, tool.batch, noVision, StepsOf(args)).Ready? && k < |StepsOf(args)|
    ensures |StepsOf(args)| <= 64
    ensures var steps := CheckSteps(ACTION_TOOLS, tool.batch, noVision, StepsOf(args)).steps;
      && |steps| == |StepsOf(args)| && AsGiven(ACTION_TOOLS, tool.batch, StepsOf(args)[k], steps[k])
      && Routed(steps[k].0, steps[k].1) ==
         if steps[k].0.name == "delay_ms" then ToDelay
         else if tool == VISION then ToVisual else ToAccessibility
  {
    ActionsAreSteps();
    VisionIsBatch(noVision);
    AccessibilityIsBatch(noVision);
    assert VISION.batch == Vision && ACCESSIBILITY.batch == Accessibility && STEPS_LINE.maximum == 64;
    AcceptedBatchChecks(tool, ACTION_TOOLS, noVision, args);
    var checked := CheckSteps(ACTION_TOOLS, tool.batch, noVision, StepsOf(args));
    StepsAreRouted(tool.batch, noVision, checked.steps[k]);
  }

  const STATUS := Tool("status", false, false, [Plain("observation", BooleanKind)], [], NoBatch, {}, None)
  const SEARCH := Tool("search_applications", false, false, [Argument("pattern", StringKind, [], 0, 0, false, true)], [],
                       NoBatch, {}, None)
  const LAUNCH_ARGUMENTS := [Plain("application", StringKind), Argument("arg", StringKind, [], 0, 0, false, true),
                             Argument("action", StringKind, [], 0, 0, false, true)]
  const LAUNCH := Tool("launch_application", false, false, LAUNCH_ARGUMENTS, ["application"], NoBatch, {}, None)
  const TOOLS := [STATUS, VISION, ACCESSIBILITY, SEARCH, LAUNCH]

  /** Each tool of the table has a place of its own to go to, whatever its arguments, and none is taken for a step. */
  lemma ToolsAreRouted(k: nat, args: Json)
    requires k < |TOOLS|
    ensures Routed(TOOLS[k], args) == [ToStatus, ToBatch, ToBatch, ToSearch, ToLaunch][k]
    ensures Routed(SET_VALUE, args) == ToAccessibility && Routed(DELAY_MS, args) == ToDelay
  {
    assert k == 0 || k == 1 || k == 2 || k == 3 || k == 4;
    hide Member;
  }

  // ---- The arrays that rely on the validator ----

  const MAX_SAMPLES := 626

  function Samples(drag: bool, duration: nat): nat {
    if !drag then 0 else if duration / 16 < 1 then 1 else duration / 16
  }

  function Between(x: real, to: real, i: nat, count: nat): real {
    x + (to - x) * (if count == 0 then 0.0 else i as real / count as real)
  }

  /** The first loop of pointer_action: the route from one point to the other, both included, in a fixed array. */
  method SampleRoute(drag: bool, x: real, y: real, toX: real, toY: real, duration: nat)
    returns (samples: array<(real, real)>, count: nat)
    requires drag ==> duration <= 10000
    ensures fresh(samples) && samples.Length == 626 && count == Samples(drag, duration) < 626
    ensures forall i :: 0 <= i <= count ==> samples[i] == (Between(x, toX, i, count), Between(y, toY, i, count))
  {
    samples := new (real, real)[MAX_SAMPLES](_ => (0.0, 0.0));
    count := Samples(drag, duration);
    var i := 0;
    hide Between;
    while i <= count
      invariant 0 <= i <= count + 1
      invariant forall k :: 0 <= k < i ==> samples[k] == (Between(x, toX, k, count), Between(y, toY, k, count))
    {
      samples[i] := (Between(x, toX, i, count), Between(y, toY, i, count));
      i := i + 1;
    }
  }

  /** The samples of a drag are evenly spaced, one for every whole 16 milliseconds and at least one; other actions have
      one at their point. */
  lemma RouteIsEven(x: real, to: real, duration: nat, i: nat)
    requires i < Samples(true, duration)
    ensures var n := Samples(true, duration);
      && (n == 1 || 16 * n <= duration < 16 * (n + 1)) && (duration < 16 ==> n == 1)
      && (Between(x, to, i + 1, n) - Between(x, to, i, n)) * n as real == to - x
    ensures Samples(false, duration) == 0 && Between(x, to, 0, 0) == x
  {
    hide Samples, Between;
    SampleCount(duration);
    EvenRoute(x, to, i, Samples(true, duration));
  }

  lemma EvenRoute(x: real, to: real, i: nat, n: nat)
    requires n > 0
    ensures (Between(x, to, i + 1, n) - Between(x, to, i, n)) * n as real == to - x
    ensures Between(x, to, 0, 0) == x
  {
    EvenParts(x, to - x, i as real, n as real);
  }

  lemma EvenParts(start: real, whole: real, i: real, n: real)
    requires n != 0.0
    ensures ((start + whole * ((i + 1.0) / n)) - (start + whole * (i / n))) * n == whole
  {
    var part, next := i / n, (i + 1.0) / n;
    assert part * n == i && next * n == i + 1.0;
    PartsOf(whole, part, next, n);
    hide *;
  }

  lemma SampleCount(duration: nat)
    ensures var n := Samples(true, duration); (n == 1 || 16 * n <= duration < 16 * (n + 1)) && (duration < 16 ==> n == 1)
    ensures Samples(false, duration) == 0
  {
  }

  lemma PartsOf(whole: real, part: real, next: real, n: real)
    requires next * n == part * n + 1.0
    ensures (whole * next - whole * part) * n == whole
  {
    assert (whole * next - whole * part) * n == whole * (next * n - part * n);
  }

  /** A drag starts and ends where it should. */
  lemma RouteEnds(x: real, to: real, duration: nat)
    ensures Between(x, to, 0, Samples(true, duration)) == x
    ensures Between(x, to, Samples(true, duration), Samples(true, duration)) == to
  {
    OneWhole(Samples(true, duration) as real);
  }

  lemma OneWhole(n: real)
    requires n != 0.0
    ensures n / n == 1.0
  {
  }

  /** The value of an argument that the table bounds. */
  lemma BoundedArgument(arguments: seq<Argument>, required: seq<string>, args: Json, line: Argument, fallback: int)
    requires MembersFit(arguments, required, args) && NUL !in line.name && Line(arguments, line.name) == Some(line)
    requires line.kind.IntegerKind? && !line.allowNull && !line.allowFalse && line.maximum != 0
    requires line.minimum <= fallback <= line.maximum
    ensures var n := NumberMember(args, line.name, fallback as real);
      line.minimum as real <= n <= line.maximum as real && n == n.Floor as real
  {
    if Member(args, line.name).Some? {
      var k := Found(args.members, line.name);
      assert CString(line.name) == line.name;
      assert Line(arguments, CString(args.members[k].0)) == Some(line);
    }
  }

  lemma DragLine(noVision: bool)
    ensures Line(TakenArguments(DRAG, noVision), "duration_ms") == Some(DURATION)
  {
    assert TakenArguments(DRAG, noVision) == DRAG_ARGUMENTS;
    assert DRAG_ARGUMENTS[4..] == [DURATION, BUTTON];
    TwoLines(DURATION, BUTTON);
    SkipLines(DRAG_ARGUMENTS, 4, "duration_ms");
  }

  lemma SkipLines(arguments: seq<Argument>, n: nat, name: string)
    requires n <= |arguments| && Line(arguments[n..], name).Some?
    ensures Line(arguments, name) == Line(arguments[n..], name)
  {
    if n == 0 {
      assert arguments[0..] == arguments;
    } else {
      assert arguments[1..][n - 1..] == arguments[n..];
      SkipLines(arguments[1..], n - 1, name);
    }
  }

  /** So an accepted drag never writes behind its 626 samples. */
  lemma AcceptedDragFits(noVision: bool, args: Json)
    requires MembersFit(TakenArguments(DRAG, noVision), DRAG.required, args)
    ensures var duration := NumberMember(args, "duration_ms", 500.0).Floor;
      0 <= duration <= 10000 && Samples(true, duration) < 626
  {
    DragLine(noVision);
    assert NUL !in DURATION.name;
    assert DURATION.name == "duration_ms" && DURATION.minimum == 0 && DURATION.maximum == 10000 && DURATION.kind.IntegerKind?
           && !DURATION.allowNull && !DURATION.allowFalse;
    BoundedArgument(TakenArguments(DRAG, noVision), DRAG.required, args, DURATION, 500) by {
      hide *;
    }
    hide MembersFit, DRAG, NumberMember, TakenArguments;
  }

  // ---- Key chords ----

  lemma KeysLine(noVision: bool)
    ensures Line(TakenArguments(PRESS_KEYS, noVision), "keys") == Some(KEYS)
  {
    assert TakenArguments(PRESS_KEYS, noVision) == [KEYS] && [KEYS][1..] == [];
    assert Line([], "keys") == None;
  }

  /** An accepted chord has one to five names, which fit the array of six, and its codes never exceed the eight. */
  lemma AcceptedChordFits(noVision: bool, args: Json, strokes: seq<Stroke>, shift: nat)
    requires MembersFit(TakenArguments(PRESS_KEYS, noVision), PRESS_KEYS.required, args)
    requires Member(args, "keys").Some? ==> Member(args, "keys").value.Arr? ==> |strokes| <= |Member(args, "keys").value.items|
    ensures Member(args, "keys").Some? && Member(args, "keys").value.Arr?
    ensures 1 <= |Member(args, "keys").value.items| <= 5 < 6
    ensures forall k :: 0 <= k < |Member(args, "keys").value.items| ==> PlainString(Member(args, "keys").value.items[k])
    ensures |Chord(strokes, shift)| <= 8
  {
    KeysLine(noVision);
    assert PRESS_KEYS.required[0] == "keys" && CString("keys") == "keys";
    assert Find(args.members, CString(PRESS_KEYS.required[0])).Some?;
    var k := Found(args.members, "keys");
    assert Fits(KEYS, args.members[k].1);
    ChordHolds(strokes, shift);
    hide Find, CString, MembersFit, Chord;
  }

  // ---- A key with a NUL ----

  /** A step that fits still fits when its arguments are repeated under a key that continues after a NUL, because the
      validator looks properties up by C string; the check before the first step counts three members. */
  lemma NulKeyIsBad(actions: seq<Tool>, batch: Batch, noVision: bool, step: Json)
    requires Steps(actions) && PlainNames(actions) && SomeStepFits(actions, batch, noVision, step)
    requires step.Obj? && |step.members| == 2
    ensures Member(step, "args").Some?
    ensures var longer := Obj(step.members + [("args" + [NUL], Member(step, "args").value)]);
      SomeStepFits(actions, batch, noVision, longer) && CheckStep(actions, batch, noVision, longer) == BadStep
  {
    var i :| 0 <= i < |actions| && NamedStepFits(actions, batch, noVision, actions[i].name, step);
    var action := FindAction(actions, batch, actions[i].name).value;
    StepRead(action, noVision, step);
    var longer := Obj(step.members + [("args" + [NUL], Member(step, "args").value)]);
    NulKeyFits(action, noVision, step);
    assert NamedStepFits(actions, batch, noVision, actions[i].name, longer);
    FittingStep(actions, batch, noVision, longer);
  }

  lemma FindInLonger(members: seq<(string, Json)>, more: seq<(string, Json)>, key: string)
    requires Find(members, key).Some?
    ensures Find(members + more, key) == Find(members, key)
  {
    if members[0].0 != key {
      assert (members + more)[1..] == members[1..] + more;
      FindInLonger(members[1..], more, key);
    }
  }

  lemma CStringStops(s: string)
    requires NUL !in s
    ensures CString(s + [NUL]) == s
  {
    if s != [] {
      assert (s + [NUL])[1..] == s[1..] + [NUL];
      CStringStops(s[1..]);
    }
  }

  lemma NulKeyFits(action: Tool, noVision: bool, step: Json)
    requires StepFits(action, noVision, step) && Member(step, "args").Some?
    requires MembersFit(TakenArguments(action, noVision), action.required, Member(step, "args").value)
    ensures StepFits(action, noVision, Obj(step.members + [("args" + [NUL], Member(step, "args").value)]))
  {
    var more := [("args" + [NUL], Member(step, "args").value)];
    FindInLonger(step.members, more, "tool");
    FindInLonger(step.members, more, "args");
    CStringStops("args");
    hide MembersFit, Find, CString;
  }

  const ORIGIN := Obj([("x", Int(0)), ("y", Int(0))])
  const CLICK_STEP := Obj([("tool", Str("click")), ("args", ORIGIN)])

  /** There is such a step: a click at the origin. */
  lemma ClickAtOrigin(noVision: bool)
    ensures SomeStepFits(ACTION_TOOLS, Vision, noVision, CLICK_STEP) && |CLICK_STEP.members| == 2
  {
    ClickLines(noVision);
    OriginFits(noVision);
    ClickIsFirst();
    assert CString("tool") == "tool" && CString("args") == "args";
    assert Find(CLICK_STEP.members, "tool").Some? && Find(CLICK_STEP.members, "args").Some? by {
      NotFound(CLICK_STEP.members, "tool");
      NotFound(CLICK_STEP.members, "args");
    }
    assert CLICK.name == "click";
    hide MembersFit, Find, CString, FindAction, ACTION_TOOLS, CLICK;
    assert StepFits(CLICK, noVision, CLICK_STEP);
    assert NamedStepFits(ACTION_TOOLS, Vision, noVision, ACTION_TOOLS[0].name, CLICK_STEP);
  }

  lemma ClickIsFirst()
    ensures FindAction(ACTION_TOOLS, Vision, "click") == Some(CLICK) && ACTION_TOOLS[0].name == "click"
  {
    assert ACTION_TOOLS[0] == CLICK;
  }

  lemma ClickLines(noVision: bool)
    ensures Line(TakenArguments(CLICK, noVision), "x") == Some(POINT_ARGUMENTS[0])
    ensures Line(TakenArguments(CLICK, noVision), "y") == Some(POINT_ARGUMENTS[1])
  {
    var arguments := TakenArguments(CLICK, noVision);
    assert arguments == CLICK_ARGUMENTS + POINT_ARGUMENTS && arguments[2..] == POINT_ARGUMENTS;
    TwoLines(POINT_ARGUMENTS[0], POINT_ARGUMENTS[1]);
    assert POINT_ARGUMENTS == [POINT_ARGUMENTS[0], POINT_ARGUMENTS[1]];
    assert POINT_ARGUMENTS[1..] == [POINT_ARGUMENTS[1]];
    assert Line([POINT_ARGUMENTS[1]], "y") == Some(POINT_ARGUMENTS[1]) by {
      assert [POINT_ARGUMENTS[1]][1..] == [] && Line([], "y") == None;
    }
    SkipLines(arguments, 2, "x");
    SkipLines(arguments, 2, "y");
  }

  lemma OriginFits(noVision: bool)
    ensures MembersFit(TakenArguments(CLICK, noVision), CLICK.required, ORIGIN)
  {
    ClickLines(noVision);
    assert CString("x") == "x" && CString("y") == "y";
    NotFound(ORIGIN.members, "x");
    NotFound(ORIGIN.members, "y");
    assert ORIGIN.members[0].0 == "x" && ORIGIN.members[1].0 == "y";
    hide Find, CString, Line, TakenArguments;
  }
}
