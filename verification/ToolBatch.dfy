/** native/scu_mcp.h and run_batch of native/scu_host.c: a batch's schema describes its steps, and what it accepts
    passes the check that run_batch makes before the first step has an effect. */
module ToolBatch {
  import opened Text
  import opened Json
  import opened ToolSchema

  /** A step names the action and holds the arguments its table describes, and nothing else. */
  predicate StepFits(action: Tool, noVision: bool, step: Json) {
    && step.Obj? && Find(step.members, "tool").Some? && Find(step.members, "args").Some?
    && forall k :: 0 <= k < |step.members| ==>
         StepMemberFits(action, noVision, CString(step.members[k].0), step.members[k].1)
  }

  /** A member of a step, under a key as the validator sees it. */
  predicate StepMemberFits(action: Tool, noVision: bool, key: string, v: Json) {
    (key == "tool" && v == Str(action.name))
    || (key == "args" && MembersFit(TakenArguments(action, noVision), action.required, v))
  }

  /** The action under a name that the batch can take, which is how the alternatives are listed too. */
  predicate SomeStepFits(actions: seq<Tool>, batch: Batch, noVision: bool, step: Json) {
    exists i :: 0 <= i < |actions| && NamedStepFits(actions, batch, noVision, actions[i].name, step)
  }

  predicate NamedStepFits(actions: seq<Tool>, batch: Batch, noVision: bool, name: string, step: Json) {
    match FindAction(actions, batch, name)
    case Some(action) => StepFits(action, noVision, step)
    case None => false
  }

  predicate StepsFit(line: Argument, actions: seq<Tool>, batch: Batch, noVision: bool, v: Json) {
    && v.Arr? && Counted(|v.items|, line)
    && forall k :: 0 <= k < |v.items| ==> SomeStepFits(actions, batch, noVision, v.items[k])
  }

  /** What a batch takes: its steps, and any other argument as its line describes it. */
  predicate BatchFits(tool: Tool, actions: seq<Tool>, noVision: bool, args: Json) {
    && args.Obj?
    && (forall k :: 0 <= k < |tool.required| ==> Find(args.members, CString(tool.required[k])).Some?)
    && BatchMembersFit(tool, actions, noVision, args.members)
  }

  predicate BatchMembersFit(tool: Tool, actions: seq<Tool>, noVision: bool, members: seq<(string, Json)>) {
    forall k :: 0 <= k < |members| ==>
      BatchMemberFits(TakenArguments(tool, noVision), actions, tool.batch, noVision, CString(members[k].0), members[k].1)
  }

  predicate BatchMemberFits(arguments: seq<Argument>, actions: seq<Tool>, batch: Batch, noVision: bool, name: string,
                            v: Json)
  {
    match Line(arguments, name)
    case Some(line) => if name == "steps" then StepsFit(line, actions, batch, noVision, v) else Fits(line, v)
    case None => false
  }

  predicate PlainNames(actions: seq<Tool>) {
    forall k :: 0 <= k < |actions| ==> NUL !in actions[k].name
  }

  /** A batch has an array of steps that is not switched off. */
  predicate IsBatch(tool: Tool, noVision: bool) {
    && tool.batch != NoBatch
    && Line(TakenArguments(tool, noVision), "steps").Some?
    && var line := Line(TakenArguments(tool, noVision), "steps").value;
       line.kind.ObjectArray? && line.choices == [] && !line.allowFalse && !line.allowNull
  }

  // ---- Steps ----

  function NameSchema(name: string): Json {
    Obj(Put(Put([], "type", Str("string")), "enum", Arr([Str(name)])))
  }

  lemma NameMembers(name: string)
    ensures var schema := NameSchema(name);
      && Member(schema, "anyOf") == None && Member(schema, "type") == Some(Str("string"))
      && Member(schema, "enum") == Some(Arr([Str(name)]))
      && Member(schema, "minimum") == None && Member(schema, "maximum") == None
  {
    assert forall key :: Find([], key) == None;
    hide Find, Put;
  }

  lemma NameFits(name: string, v: Json)
    requires NUL !in name
    ensures Validate(v, NameSchema(name)) <==> v == Str(name)
  {
    NameMembers(name);
    OfNames(v);
    hide OfType, NameSchema, Member, Validate;
    ScalarValidated(v, NameSchema(name), "string");
  }

  function StepProperties(name: string, input: Json): seq<(string, Json)> {
    Put(Put([], "tool", NameSchema(name)), "args", input)
  }

  lemma StepMembers(name: string, input: Json)
    ensures var schema := StepSchema(name, input);
      && Member(schema, "anyOf") == None && Member(schema, "type") == Some(Str("object")) && Member(schema, "enum") == None
      && Member(schema, "required") == Some(Arr([Str("tool"), Str("args")]))
      && Member(schema, "additionalProperties") == Some(Bool(false))
      && Member(schema, "properties") == Some(Obj(StepProperties(name, input)))
  {
    assert forall key :: Find([], key) == None;
    hide Find, Put;
  }

  lemma StepPropertiesHold(name: string, input: Json, key: string)
    ensures Find(StepProperties(name, input), key) ==
            if key == "args" then Some(input) else if key == "tool" then Some(NameSchema(name)) else None
  {
    assert Find([], key) == None;
    hide Find, Put;
  }

  lemma RequiresTwo(v: Json, one: string, other: string)
    requires NUL !in one && NUL !in other
    ensures RequiredPresent(v, Some(Arr([Str(one), Str(other)]))) <==> Member(v, one).Some? && Member(v, other).Some?
  {
    assert CString(one) == one && CString(other) == other;
    hide Find, Member, CString;
    assert [Str(one), Str(other)][0] == Str(one) && [Str(one), Str(other)][1] == Str(other);
  }

  lemma StepMembersAgree(action: Tool, noVision: bool, key: string, v: Json)
    requires NUL !in action.name
    ensures MemberValidates(StepProperties(action.name, PlainToolSchema(action, noVision)), key, v)
            <==> StepMemberFits(action, noVision, key, v)
  {
    assert "tool" != "args";
    hide Find, MembersFit, NameSchema, PlainToolSchema, StepProperties, TakenArguments, Validate;
    StepPropertiesHold(action.name, PlainToolSchema(action, noVision), key);
    NameFits(action.name, v);
    PlainToolSchemaFits(action, noVision, v);
  }

  /** The schema of a step asks for both members, and for nothing else in any of them. */
  lemma StepValidated(action: Tool, noVision: bool, step: Json)
    ensures Validate(step, StepSchema(action.name, PlainToolSchema(action, noVision))) <==>
            && step.Obj? && Member(step, "tool").Some? && Member(step, "args").Some?
            && MembersValidate(StepProperties(action.name, PlainToolSchema(action, noVision)), step.members)
  {
    hide Member, MembersValid, MembersValidate, PlainToolSchema, RequiredPresent, StepProperties, StepSchema,
         Validate;
    var input := PlainToolSchema(action, noVision);
    var schema, properties := StepSchema(action.name, input), StepProperties(action.name, input);
    RequiresTwo(step, "tool", "args");
    StepMembers(action.name, input);
    ObjectValidated(step, schema);
    if step.Obj? {
      ClosedMembers(step.members, schema, properties);
    }
  }

  /** The alternative for an action accepts exactly the steps that name it with arguments its table describes. */
  lemma StepSchemaFits(action: Tool, noVision: bool, step: Json)
    requires NUL !in action.name
    ensures Validate(step, StepSchema(action.name, PlainToolSchema(action, noVision))) <==> StepFits(action, noVision, step)
  {
    StepValidated(action, noVision, step);
    hide CString, Find, MembersFit, PlainToolSchema, MemberValidates, StepMemberFits, StepSchema, TakenArguments, Validate;
    if step.Obj? {
      var properties := StepProperties(action.name, PlainToolSchema(action, noVision));
      hide StepProperties;
      forall k | 0 <= k < |step.members|
        ensures MemberValidates(properties, CString(step.members[k].0), step.members[k].1)
                <==> StepMemberFits(action, noVision, CString(step.members[k].0), step.members[k].1)
      {
        StepMembersAgree(action, noVision, CString(step.members[k].0), step.members[k].1);
      }
    }
  }

  predicate SomeValidates(step: Json, options: seq<Json>) {
    exists k :: 0 <= k < |options| && Validate(step, options[k])
  }

  lemma SomeValidatesSnoc(step: Json, options: seq<Json>, option: Json)
    ensures SomeValidates(step, options + [option]) <==> SomeValidates(step, options) || Validate(step, option)
  {
    hide Validate;
    var all := options + [option];
    assert all[|options|] == option;
    assert forall k :: 0 <= k < |options| ==> all[k] == options[k];
  }

  /** One of the first `n` actions is what the step describes. */
  predicate SomeOfFits(actions: seq<Tool>, n: nat, batch: Batch, noVision: bool, step: Json)
    requires n <= |actions|
  {
    exists i :: 0 <= i < n && NamedStepFits(actions, batch, noVision, actions[i].name, step)
  }

  lemma SomeOfFitsNext(actions: seq<Tool>, n: nat, batch: Batch, noVision: bool, step: Json)
    requires n < |actions|
    ensures SomeOfFits(actions, n + 1, batch, noVision, step) <==>
            SomeOfFits(actions, n, batch, noVision, step) || NamedStepFits(actions, batch, noVision, actions[n].name, step)
  {
    hide NamedStepFits;
  }

  /** The alternatives accept what some action of the batch describes. */
  lemma {:induction false} AlternativesFit(actions: seq<Tool>, batch: Batch, noVision: bool, n: nat, step: Json)
    requires n <= |actions| && PlainNames(actions)
    ensures SomeValidates(step, Alternatives(actions, batch, noVision, n)) <==> SomeOfFits(actions, n, batch, noVision, step)
  {
    hide FindAction, NamedStepFits, PlainNames, PlainToolSchema, StepSchema, Steps, Validate;
    if n == 0 {
    } else {
      AlternativesFit(actions, batch, noVision, n - 1, step);
      SomeOfFitsNext(actions, n - 1, batch, noVision, step);
      NextAlternativeFits(actions, batch, noVision, n - 1, step);
    }
  }

  lemma NextAlternativeFits(actions: seq<Tool>, batch: Batch, noVision: bool, n: nat, step: Json)
    requires n < |actions| && PlainNames(actions)
    ensures SomeValidates(step, Alternatives(actions, batch, noVision, n + 1)) <==>
            SomeValidates(step, Alternatives(actions, batch, noVision, n))
            || NamedStepFits(actions, batch, noVision, actions[n].name, step)
  {
    var found := FindAction(actions, batch, actions[n].name);
    assert NUL !in actions[n].name;
    assert found.Some? ==> found.value.name == actions[n].name;
    hide FindAction, PlainNames, PlainToolSchema, SomeValidates, StepFits, StepSchema, Validate;
    if found.Some? {
      StepSchemaFits(found.value, noVision, step);
      SomeValidatesSnoc(step, Alternatives(actions, batch, noVision, n),
                        StepSchema(found.value.name, PlainToolSchema(found.value, noVision)));
    }
  }

  // ---- Batches ----

  function StepsSchema(line: Argument, actions: seq<Tool>, batch: Batch, noVision: bool): Json
    requires line.kind.ObjectArray?
  {
    Obj(Put(PlainSchema(line).members, "items", StepItems(actions, batch, noVision)))
  }

  function StepItems(actions: seq<Tool>, batch: Batch, noVision: bool): Json {
    Obj(Put([], "anyOf", Arr(Alternatives(actions, batch, noVision, |actions|))))
  }

  lemma StepItemsFit(actions: seq<Tool>, batch: Batch, noVision: bool, step: Json)
    requires PlainNames(actions)
    ensures Validate(step, StepItems(actions, batch, noVision)) <==> SomeStepFits(actions, batch, noVision, step)
  {
    var options := Alternatives(actions, batch, noVision, |actions|);
    AlternativesFit(actions, batch, noVision, |actions|, step);
    assert Member(StepItems(actions, batch, noVision), "anyOf") == Some(Arr(options));
    hide Alternatives, StepItems, Find, Member, NamedStepFits;
  }

  lemma StepsMembers(line: Argument, actions: seq<Tool>, batch: Batch, noVision: bool)
    requires line.kind.ObjectArray?
    ensures var schema := StepsSchema(line, actions, batch, noVision);
      && Member(schema, "items") == Some(StepItems(actions, batch, noVision))
      && Member(schema, "anyOf") == Member(PlainSchema(line), "anyOf")
      && Member(schema, "type") == Member(PlainSchema(line), "type")
      && Member(schema, "enum") == Member(PlainSchema(line), "enum")
      && Member(schema, "minItems") == Member(PlainSchema(line), "minItems")
      && Member(schema, "maxItems") == Member(PlainSchema(line), "maxItems")
  {
    hide BoundMembers, ChoiceMembers, Find, ObservationMembers, Put, StepItems, TypeMembers;
  }

  lemma StepsSchemaFits(line: Argument, actions: seq<Tool>, batch: Batch, noVision: bool, v: Json)
    requires line.kind.ObjectArray? && line.choices == [] && PlainNames(actions)
    ensures Validate(v, StepsSchema(line, actions, batch, noVision)) <==> StepsFit(line, actions, batch, noVision, v)
  {
    assert TypeName(line.kind) == "array" && IsArray(line.kind);
    var schema := StepsSchema(line, actions, batch, noVision);
    hide IsArray, MOST_ITEMS, Member, Numeric, PlainNames, PlainSchema, SomeStepFits, StepItems, StepsSchema, Strings,
         TypeName, Validate;
    StepsMembers(line, actions, batch, noVision);
    TypeMember(line);
    EnumMember(line);
    ArrayValidated(v, schema, StepItems(actions, batch, noVision));
    CountRead(line);
    assert NumberMember(schema, "minItems", 0.0) == NumberMember(PlainSchema(line), "minItems", 0.0)
           && NumberMember(schema, "maxItems", MOST_ITEMS) == NumberMember(PlainSchema(line), "maxItems", MOST_ITEMS);
    if v.Arr? {
      AllStepItemsFit(actions, batch, noVision, v.items);
    }
  }

  lemma AllStepItemsFit(actions: seq<Tool>, batch: Batch, noVision: bool, items: seq<Json>)
    requires PlainNames(actions)
    ensures (forall k :: 0 <= k < |items| ==> Validate(items[k], StepItems(actions, batch, noVision)))
            <==> (forall k :: 0 <= k < |items| ==> SomeStepFits(actions, batch, noVision, items[k]))
  {
    hide *;
    forall k | 0 <= k < |items|
      ensures Validate(items[k], StepItems(actions, batch, noVision)) <==> SomeStepFits(actions, batch, noVision, items[k])
    {
      StepItemsFit(actions, batch, noVision, items[k]);
    }
  }

  /** The properties of a batch, with the actions as the items of its steps. */
  function BatchProperties(tool: Tool, actions: seq<Tool>, noVision: bool): seq<(string, Json)>
    requires IsBatch(tool, noVision)
  {
    var arguments := TakenArguments(tool, noVision);
    Put(AddArgumentSchemas([], arguments), "steps",
        StepsSchema(Line(arguments, "steps").value, actions, tool.batch, noVision))
  }

  lemma BatchCompiles(tool: Tool, actions: seq<Tool>, noVision: bool)
    requires IsBatch(tool, noVision) && Steps(actions)
    ensures BuildToolSchema(tool, actions, noVision) == ToolObject(BatchProperties(tool, actions, noVision), tool.required)
  {
    var arguments := TakenArguments(tool, noVision);
    var line := Line(arguments, "steps").value;
    PropertiesHold([], arguments, "steps");
    assert ArgumentSchema(line) == PlainSchema(line);
    hide AddArgumentSchemas, ToolObject, Find, Put, Alternatives, Line, TakenArguments, ArgumentSchema;
  }

  lemma BatchPropertyFits(tool: Tool, actions: seq<Tool>, noVision: bool, name: string, v: Json)
    requires IsBatch(tool, noVision) && PlainNames(actions)
    ensures MemberValidates(BatchProperties(tool, actions, noVision), name, v)
            <==> BatchMemberFits(TakenArguments(tool, noVision), actions, tool.batch, noVision, name, v)
  {
    var arguments := TakenArguments(tool, noVision);
    var line := Line(arguments, "steps").value;
    PropertiesFit(arguments, name, v);
    StepsSchemaFits(line, actions, tool.batch, noVision, v);
    hide AddArgumentSchemas, Put, Find, Validate, Fits, StepsFit, StepsSchema, TakenArguments, Line;
  }

  lemma MembersAgree(tool: Tool, actions: seq<Tool>, noVision: bool, members: seq<(string, Json)>)
    requires IsBatch(tool, noVision) && PlainNames(actions)
    ensures MembersValidate(BatchProperties(tool, actions, noVision), members) <==>
            BatchMembersFit(tool, actions, noVision, members)
  {
    hide BatchMemberFits, BatchProperties, MemberValidates, CString, TakenArguments;
    forall k | 0 <= k < |members|
      ensures MemberValidates(BatchProperties(tool, actions, noVision), CString(members[k].0), members[k].1)
              <==> BatchMemberFits(TakenArguments(tool, noVision), actions, tool.batch, noVision, CString(members[k].0),
                                   members[k].1)
    {
      BatchPropertyFits(tool, actions, noVision, CString(members[k].0), members[k].1);
    }
  }

  /** The compiled schema of a batch accepts exactly what its table, with the tables of its actions, describes. */
  lemma BatchSchemaFits(tool: Tool, actions: seq<Tool>, noVision: bool, args: Json)
    requires IsBatch(tool, noVision) && Steps(actions) && PlainNames(actions)
    ensures Validate(args, BuildToolSchema(tool, actions, noVision)) <==> BatchFits(tool, actions, noVision, args)
  {
    var properties := BatchProperties(tool, actions, noVision);
    BatchCompiles(tool, actions, noVision);
    ToolObjectValidated(args, properties, tool.required);
    if args.Obj? {
      MembersAgree(tool, actions, noVision, args.members);
    }
  }

  // ---- run_batch checks every step before any has an effect ----

  const MAX_STEPS := 64

  datatype Checked = Ready(steps: seq<(Tool, Json)>) | Invalid | Refused

  datatype Step = Step(action: Tool, arguments: Json) | BadStep | RefusedStep

  /** The name run_batch looks up: the C string of the first member called tool. */
  function StepName(step: Json): Option<string> {
    match Member(step, "tool")
    case Some(Str(name)) => Some(CString(name))
    case _ => None
  }

  function CheckStep(actions: seq<Tool>, batch: Batch, noVision: bool, step: Json): Step
    requires Steps(actions)
  {
    var arguments := Member(step, "args");
    match StepName(step)
    case Some(name) =>
      (match FindAction(actions, batch, name)
       case Some(action) =>
         if !step.Obj? || |step.members| != 2 || arguments.None? || !arguments.value.Obj? then BadStep
         else if Validate(arguments.value, BuildToolSchema(action, actions, noVision)) then Step(action, arguments.value)
         else RefusedStep
       case None => BadStep)
    case None => BadStep
  }

  /** The steps of the array under steps; without one there are none. */
  function StepsOf(args: Json): seq<Json> {
    match Member(args, "steps")
    case Some(Arr(items)) => items
    case _ => []
  }

  function CheckSteps(actions: seq<Tool>, batch: Batch, noVision: bool, steps: seq<Json>): Checked
    requires Steps(actions)
  {
    if steps == [] then Ready([])
    else
      match CheckSteps(actions, batch, noVision, steps[..|steps| - 1])
      case Ready(before) =>
        (match CheckStep(actions, batch, noVision, steps[|steps| - 1])
         case Step(action, arguments) => Ready(before + [(action, arguments)])
         case BadStep => Invalid
         case RefusedStep => Refused)
      case other => other
  }

  /** The loop: at most 64 steps go to the two fixed arrays, and the first bad one ends the check. */
  method Preflight(actions: seq<Tool>, batch: Batch, noVision: bool, items: seq<Json>)
    returns (checked: Checked)
    requires Steps(actions) && |items| <= MAX_STEPS
    ensures checked == CheckSteps(actions, batch, noVision, items)
  {
    hide CheckStep;
    var steps: array<Json> := new Json[MAX_STEPS](_ => Null);
    var found: array<Option<Tool>> := new Option<Tool>[MAX_STEPS](_ => None);
    ghost var ready: seq<(Tool, Json)> := [];
    var index := 0;
    while index < |items|
      invariant 0 <= index <= |items| && |ready| == index
      invariant CheckSteps(actions, batch, noVision, items[..index]) == Ready(ready)
      invariant forall k :: 0 <= k < index ==> found[k] == Some(ready[k].0) && steps[k] == ready[k].1
      decreases |items| - index
    {
      CheckNext(actions, batch, noVision, items, index, ready);
      var step := CheckStep(actions, batch, noVision, items[index]);
      if step.BadStep? {
        return Invalid;
      }
      if step.RefusedStep? {
        return Refused;
      }
      found[index], steps[index] := Some(step.action), step.arguments;
      ready := ready + [(step.action, step.arguments)];
      index := index + 1;
    }
    hide CheckSteps;
    assert items[..index] == items;
    var result := Kept(found, steps, index, ready);
    checked := Ready(result);
  }

  /** What the arrays hold. */
  method Kept(found: array<Option<Tool>>, steps: array<Json>, count: nat, ghost ready: seq<(Tool, Json)>)
    returns (kept: seq<(Tool, Json)>)
    requires count == |ready| <= found.Length == steps.Length
    requires forall k :: 0 <= k < count ==> found[k] == Some(ready[k].0) && steps[k] == ready[k].1
    ensures kept == ready
  {
    kept := [];
    var k := 0;
    while k < count
      invariant 0 <= k <= count && kept == ready[..k]
    {
      kept := kept + [(found[k].value, steps[k])];
      k := k + 1;
    }
  }

  /** The check of a longer array goes on where that of a shorter one was ready, or ends for good. */
  lemma CheckNext(actions: seq<Tool>, batch: Batch, noVision: bool, items: seq<Json>, n: nat, ready: seq<(Tool, Json)>)
    requires Steps(actions) && n < |items| && CheckSteps(actions, batch, noVision, items[..n]) == Ready(ready)
    ensures match CheckStep(actions, batch, noVision, items[n])
            case Step(action, arguments) =>
              CheckSteps(actions, batch, noVision, items[..n + 1]) == Ready(ready + [(action, arguments)])
            case BadStep => CheckSteps(actions, batch, noVision, items) == Invalid
            case RefusedStep => CheckSteps(actions, batch, noVision, items) == Refused
  {
    assert items[..n + 1][..n] == items[..n];
    hide CheckStep;
    if !CheckSteps(actions, batch, noVision, items[..n + 1]).Ready? {
      StopsAt(actions, batch, noVision, items, n + 1);
    }
  }

  lemma {:induction false} StopsAt(actions: seq<Tool>, batch: Batch, noVision: bool, steps: seq<Json>, n: nat)
    requires Steps(actions) && n <= |steps| && !CheckSteps(actions, batch, noVision, steps[..n]).Ready?
    ensures CheckSteps(actions, batch, noVision, steps) == CheckSteps(actions, batch, noVision, steps[..n])
    decreases |steps|
  {
    hide CheckStep;
    if n == |steps| {
      assert steps[..n] == steps;
    } else {
      var before := steps[..|steps| - 1];
      assert before[..n] == steps[..n];
      StopsAt(actions, batch, noVision, before, n);
    }
  }

  /** A checked step is the one given: the action of that name in this batch, with the arguments as they stand. */
  predicate AsGiven(actions: seq<Tool>, batch: Batch, step: Json, checked: (Tool, Json)) {
    && Member(step, "tool").Some? && Member(step, "tool").value.Str?
    && checked.0.name == CString(Member(step, "tool").value.s)
    && FindAction(actions, batch, checked.0.name) == Some(checked.0)
    && Member(step, "args") == Some(checked.1)
  }

  /** A step has two members, the name of an action of the batch and an object of arguments. */
  predicate WellFormed(actions: seq<Tool>, batch: Batch, step: Json) {
    && step.Obj? && |step.members| == 2 && Member(step, "tool").Some? && Member(step, "tool").value.Str?
    && FindAction(actions, batch, CString(Member(step, "tool").value.s)).Some?
    && Member(step, "args").Some? && Member(step, "args").value.Obj?
  }

  /** And its arguments are accepted by the schema of that action. */
  predicate Passes(actions: seq<Tool>, batch: Batch, noVision: bool, step: Json)
    requires Steps(actions)
  {
    && WellFormed(actions, batch, step)
    && var action := FindAction(actions, batch, CString(Member(step, "tool").value.s)).value;
       Validate(Member(step, "args").value, BuildToolSchema(action, actions, noVision))
  }

  lemma StepChecked(actions: seq<Tool>, batch: Batch, noVision: bool, step: Json)
    requires Steps(actions)
    ensures match CheckStep(actions, batch, noVision, step)
            case Step(action, arguments) =>
              Passes(actions, batch, noVision, step) && AsGiven(actions, batch, step, (action, arguments))
            case BadStep => !WellFormed(actions, batch, step)
            case RefusedStep => WellFormed(actions, batch, step) && !Passes(actions, batch, noVision, step)
  {
    hide Validate, BuildToolSchema, Member, CString;
  }

  /** The check of any steps: it is ready with the steps as given exactly when all pass, and otherwise ends at the first
      that does not, as invalid when that one is not well formed and as refused when its arguments are. */
  lemma {:induction false} StepsChecked(actions: seq<Tool>, batch: Batch, noVision: bool, steps: seq<Json>)
    returns (n: nat)
    requires Steps(actions)
    ensures n <= |steps| && forall k :: 0 <= k < n ==> Passes(actions, batch, noVision, steps[k])
    ensures match CheckSteps(actions, batch, noVision, steps)
            case Ready(ready) =>
              n == |steps| == |ready| && forall k :: 0 <= k < n ==> AsGiven(actions, batch, steps[k], ready[k])
            case Invalid => n < |steps| && !WellFormed(actions, batch, steps[n])
            case Refused =>
              n < |steps| && WellFormed(actions, batch, steps[n]) && !Passes(actions, batch, noVision, steps[n])
  {
    hide CheckStep, WellFormed, Passes, AsGiven, Steps;
    n := 0;
    if steps != [] {
      n := StepsChecked(actions, batch, noVision, steps[..|steps| - 1]);
      StepChecked(actions, batch, noVision, steps[|steps| - 1]);
      if CheckSteps(actions, batch, noVision, steps).Ready? {
        n := |steps|;
      }
    }
  }

  /** A step that an action describes is found under that action's name, with arguments that fit. */
  lemma FittingStepChecks(actions: seq<Tool>, batch: Batch, noVision: bool, name: string, step: Json)
    requires Steps(actions) && NUL !in name && NamedStepFits(actions, batch, noVision, name, step)
    ensures var result := CheckStep(actions, batch, noVision, step);
      && !result.RefusedStep?
      && (result.BadStep? <==> |step.members| != 2)
      && (result.Step? ==> FindAction(actions, batch, name) == Some(result.action)
                           && MembersFit(TakenArguments(result.action, noVision), result.action.required, result.arguments))
  {
    var action := FindAction(actions, batch, name).value;
    StepRead(action, noVision, step);
    assert CString(name) == name;
    var arguments := Member(step, "args").value;
    PlainToolSchemaFits(action, noVision, arguments);
    assert MembersFit(TakenArguments(action, noVision), action.required, arguments) ==> arguments.Obj?;
    hide Validate, PlainToolSchema, MembersFit, Member, FindAction, CString, StepFits;
  }

  /** The members a step that fits is read by. */
  lemma StepRead(action: Tool, noVision: bool, step: Json)
    requires StepFits(action, noVision, step)
    ensures step.Obj? && Member(step, "tool") == Some(Str(action.name)) && Member(step, "args").Some?
    ensures MembersFit(TakenArguments(action, noVision), action.required, Member(step, "args").value)
  {
    var t := Found(step.members, "tool");
    var a := Found(step.members, "args");
    assert CString("tool") == "tool" && CString("args") == "args";
    hide MembersFit, Find, CString, TakenArguments;
  }

  /** What the validator accepted never comes back refused, and is invalid exactly when some step has other than two
      members; otherwise every step is an action of the batch with arguments that fit its table. */
  lemma {:induction false} AcceptedStepsCheck(actions: seq<Tool>, batch: Batch, noVision: bool, steps: seq<Json>)
    requires Steps(actions) && PlainNames(actions)
    requires forall k :: 0 <= k < |steps| ==> SomeStepFits(actions, batch, noVision, steps[k])
    ensures var checked := CheckSteps(actions, batch, noVision, steps);
      && !checked.Refused?
      && (checked.Invalid? <==> SomeOdd(steps))
      && (checked.Ready? ==> |checked.steps| == |steps|
                             && forall k :: 0 <= k < |steps| ==> Usable(actions, batch, noVision, checked.steps[k]))
  {
    hide CheckStep, PlainNames, SomeStepFits, Steps, Usable;
    if steps == [] {
    } else {
      var last, before := steps[|steps| - 1], steps[..|steps| - 1];
      AcceptedStepsCheck(actions, batch, noVision, before);
      FittingStep(actions, batch, noVision, last);
      assert before + [last] == steps;
      SomeOddSnoc(before, last);
    }
  }

  /** Some step has other than two members. */
  predicate SomeOdd(steps: seq<Json>) {
    exists k :: 0 <= k < |steps| && steps[k].Obj? && |steps[k].members| != 2
  }

  lemma SomeOddSnoc(steps: seq<Json>, step: Json)
    ensures SomeOdd(steps + [step]) <==> SomeOdd(steps) || (step.Obj? && |step.members| != 2)
  {
    var all := steps + [step];
    assert all[|steps|] == step;
    assert forall k :: 0 <= k < |steps| ==> all[k] == steps[k];
  }

  lemma FittingStep(actions: seq<Tool>, batch: Batch, noVision: bool, step: Json)
    requires Steps(actions) && PlainNames(actions) && SomeStepFits(actions, batch, noVision, step)
    ensures var result := CheckStep(actions, batch, noVision, step);
      && step.Obj? && !result.RefusedStep? && (result.BadStep? <==> |step.members| != 2)
      && (result.Step? ==> Usable(actions, batch, noVision, (result.action, result.arguments)))
  {
    var i :| 0 <= i < |actions| && NamedStepFits(actions, batch, noVision, actions[i].name, step);
    assert step.Obj?;
    FittingStepChecks(actions, batch, noVision, actions[i].name, step);
  }

  predicate Usable(actions: seq<Tool>, batch: Batch, noVision: bool, step: (Tool, Json)) {
    && FindAction(actions, batch, step.0.name) == Some(step.0)
    && MembersFit(TakenArguments(step.0, noVision), step.0.required, step.1)
  }

  /** Keys that are distinct as C strings. */
  predicate PlainKeys(members: seq<(string, Json)>) {
    forall i, j :: 0 <= i < j < |members| ==> CString(members[i].0) != CString(members[j].0)
  }

  lemma PlainKeysMakeTwo(action: Tool, noVision: bool, step: Json)
    requires StepFits(action, noVision, step) && PlainKeys(step.members)
    ensures |step.members| == 2
  {
    var t := Found(step.members, "tool");
    var a := Found(step.members, "args");
    assert CString("tool") == "tool" && CString("args") == "args" && "tool" != "args";
    hide MembersFit;
    forall k | 0 <= k < |step.members| ensures Either(k, t, a) {
      assert CString(step.members[k].0) == "tool" || CString(step.members[k].0) == "args";
    }
    OnlyTwo(|step.members|, t, a);
  }

  predicate Either(k: nat, t: nat, a: nat) {
    k == t || k == a
  }

  lemma OnlyTwo(n: nat, t: nat, a: nat)
    requires t != a && t < n && a < n
    requires forall k: nat :: k < n ==> Either(k, t, a)
    ensures n == 2
  {
    assert n > 0 ==> Either(0, t, a);
    assert n > 1 ==> Either(1, t, a);
    assert n > 2 ==> Either(2, t, a);
  }

  lemma AcceptedSteps(tool: Tool, actions: seq<Tool>, noVision: bool, args: Json)
    requires IsBatch(tool, noVision) && BatchFits(tool, actions, noVision, args)
    ensures var steps := StepsOf(args);
      && (steps != [] ==> Counted(|steps|, Line(TakenArguments(tool, noVision), "steps").value))
      && forall k :: 0 <= k < |steps| ==> SomeStepFits(actions, tool.batch, noVision, steps[k])
  {
    if Member(args, "steps").Some? {
      var k := Found(args.members, "steps");
      assert CString("steps") == "steps";
      assert BatchMemberFits(TakenArguments(tool, noVision), actions, tool.batch, noVision, CString(args.members[k].0),
                             args.members[k].1);
      hide BatchMembersFit, SomeStepFits, CString, Line, TakenArguments, Counted;
    }
  }

  /** An accepted batch keeps to the number of steps in its table, is never refused by the check before its first step,
      and is invalid for that check exactly when some step has other than two members; otherwise what runs is each step
      as it was given, with its action's own arguments. */
  lemma AcceptedBatchChecks(tool: Tool, actions: seq<Tool>, noVision: bool, args: Json)
    requires IsBatch(tool, noVision) && Steps(actions) && PlainNames(actions)
    requires Validate(args, BuildToolSchema(tool, actions, noVision))
    ensures var steps := StepsOf(args);
      var checked := CheckSteps(actions, tool.batch, noVision, steps);
      && (steps != [] ==> Counted(|steps|, Line(TakenArguments(tool, noVision), "steps").value))
      && !checked.Refused?
      && (checked.Invalid? <==> SomeOdd(steps))
      && (checked.Ready? ==> |checked.steps| == |steps|
                             && forall k :: 0 <= k < |steps| ==>
                                  && AsGiven(actions, tool.batch, steps[k], checked.steps[k])
                                  && Usable(actions, tool.batch, noVision, checked.steps[k]))
  {
    hide *;
    var _ := StepsChecked(actions, tool.batch, noVision, StepsOf(args));
    BatchSchemaFits(tool, actions, noVision, args);
    AcceptedSteps(tool, actions, noVision, args);
    AcceptedStepsCheck(actions, tool.batch, noVision, StepsOf(args));
  }

  /** So it is ready whenever the keys of each step are distinct. */
  lemma DistinctKeysAreReady(tool: Tool, actions: seq<Tool>, noVision: bool, args: Json)
    requires IsBatch(tool, noVision) && Steps(actions) && PlainNames(actions)
    requires Validate(args, BuildToolSchema(tool, actions, noVision))
    requires forall k :: 0 <= k < |StepsOf(args)| && StepsOf(args)[k].Obj? ==> PlainKeys(StepsOf(args)[k].members)
    ensures CheckSteps(actions, tool.batch, noVision, StepsOf(args)).Ready?
  {
    var steps := StepsOf(args);
    AcceptedBatchChecks(tool, actions, noVision, args);
    hide BatchFits, BuildToolSchema, CheckSteps, Counted, FindAction, IsBatch, Line, PlainKeys, PlainNames, StepFits,
         Steps, StepsOf, TakenArguments, Usable, Validate;
    BatchSchemaFits(tool, actions, noVision, args);
    AcceptedSteps(tool, actions, noVision, args);
    forall k | 0 <= k < |steps| && steps[k].Obj? ensures |steps[k].members| == 2 {
      var i :| 0 <= i < |actions| && NamedStepFits(actions, tool.batch, noVision, actions[i].name, steps[k]);
      PlainKeysMakeTwo(FindAction(actions, tool.batch, actions[i].name).value, noVision, steps[k]);
    }
  }
}
