/** native/scu_mcp.h: argument tables are compiled to JSON schemas, and a validator interprets those. */
module ToolSchema {
  import opened Text
  import opened Json

  datatype Kind =
    | StringKind | NumberKind | IntegerKind | BooleanKind | StringArray | ObjectKind | ObjectArray | NumberArray
    | IntegerArray | Observation

  /** No choices stand for any value, and a maximum of zero for no bound. Descriptions are not modelled. */
  datatype Argument = Argument(name: string, kind: Kind, choices: seq<string>, minimum: int, maximum: int,
                               allowFalse: bool, allowNull: bool)

  datatype Batch = NoBatch | Vision | Accessibility

  datatype Tool = Tool(name: string, withElement: bool, withPoint: bool, arguments: seq<Argument>,
                       required: seq<string>, batch: Batch, modes: set<Batch>, targeted: Option<seq<string>>)

  const ELEMENT_CAPACITY := 20000

  const ACTION_ARGUMENTS := [Argument("element_id", IntegerKind, [], 0, ELEMENT_CAPACITY - 1, false, false)]

  const POINT_ARGUMENTS := [Argument("x", NumberKind, [], 0, 0, false, false),
                            Argument("y", NumberKind, [], 0, 0, false, false)]

  // ---- The compiler ----

  function TypeOnly(name: string): Json {
    Obj(Put([], "type", Str(name)))
  }

  predicate IsArray(kind: Kind) {
    kind.StringArray? || kind.ObjectArray? || kind.NumberArray? || kind.IntegerArray?
  }

  function TypeName(kind: Kind): string {
    match kind
    case StringKind => "string"
    case NumberKind => "number"
    case IntegerKind => "integer"
    case BooleanKind => "boolean"
    case ObjectKind => "object"
    case Observation => "object"
    case _ => "array"
  }

  function ItemName(kind: Kind): string {
    match kind
    case StringArray => "string"
    case NumberArray => "number"
    case IntegerArray => "integer"
    case _ => "object"
  }

  function Strings(names: seq<string>): (all: seq<Json>)
    ensures |all| == |names| && forall k :: 0 <= k < |names| ==> all[k] == Str(names[k])
  {
    seq(|names|, k requires 0 <= k < |names| => Str(names[k]))
  }

  function TypeMembers(kind: Kind): seq<(string, Json)> {
    Put(if kind.BooleanKind? then Put([], "default", Bool(false)) else [], "type", Str(TypeName(kind)))
  }

  function ChoiceMembers(m: seq<(string, Json)>, choices: seq<string>): seq<(string, Json)> {
    if choices == [] then m else Put(m, "enum", Arr(Strings(choices)))
  }

  function BoundMembers(m: seq<(string, Json)>, argument: Argument): seq<(string, Json)> {
    if IsArray(argument.kind) then
      var m := Put(m, "items", TypeOnly(ItemName(argument.kind)));
      var m := if argument.minimum != 0 then Put(m, "minItems", Int(argument.minimum)) else m;
      if argument.maximum != 0 then Put(m, "maxItems", Int(argument.maximum)) else m
    else if argument.maximum != 0 then
      Put(Put(m, "minimum", Real(argument.minimum as real)), "maximum", Real(argument.maximum as real))
    else m
  }

  const WINDOW_FIELDS := Put(Put([], "window", Obj(Put([], "type", Str("integer")))),
                             "refresh", Obj(Put(Put([], "type", Str("boolean")), "default", Bool(false))))

  function ObservationMembers(m: seq<(string, Json)>, kind: Kind): seq<(string, Json)> {
    if kind.Observation? then
      Put(Put(Put(m, "properties", Obj(WINDOW_FIELDS)), "required", Arr([Str("window")])),
          "additionalProperties", Bool(false))
    else m
  }

  function PlainSchema(argument: Argument): Json {
    Obj(ObservationMembers(BoundMembers(ChoiceMembers(TypeMembers(argument.kind), argument.choices), argument),
                           argument.kind))
  }

  function OffSchema(allowNull: bool): Json {
    if allowNull then Obj(Put([], "type", Str("null")))
    else Obj(Put(Put([], "type", Str("boolean")), "enum", Arr([Bool(false)])))
  }

  function ArgumentSchema(argument: Argument): Json {
    if argument.allowFalse || argument.allowNull then
      Obj(Put([], "anyOf", Arr([PlainSchema(argument), OffSchema(argument.allowNull)])))
    else PlainSchema(argument)
  }

  function AddArgumentSchemas(properties: seq<(string, Json)>, arguments: seq<Argument>): seq<(string, Json)>
    decreases |arguments|
  {
    if arguments == [] then properties
    else
      AddArgumentSchemas(Put(properties, arguments[0].name, ArgumentSchema(arguments[0])), arguments[1..])
  }

  /** The arguments a tool takes; without vision, status takes none of its own. */
  function TakenArguments(tool: Tool, noVision: bool): seq<Argument> {
    (if noVision && tool.name == "status" then [] else tool.arguments)
    + (if tool.withElement then ACTION_ARGUMENTS else [])
    + (if tool.withPoint then POINT_ARGUMENTS else [])
  }

  /** The properties named first in `required`, then the others. */
  function OrderRequired(ordered: seq<(string, Json)>, properties: seq<(string, Json)>, required: seq<string>)
    : seq<(string, Json)>
    decreases |required|
  {
    if required == [] then ordered
    else
      var ordered := match Find(properties, required[0])
                     case Some(property) => Put(ordered, required[0], property)
                     case None => ordered;
      OrderRequired(ordered, properties, required[1..])
  }

  function OrderRest(ordered: seq<(string, Json)>, properties: seq<(string, Json)>): seq<(string, Json)>
    decreases |properties|
  {
    if properties == [] then ordered
    else
      var (key, property) := properties[0];
      OrderRest(if Find(ordered, key).None? then Put(ordered, key, property) else ordered, properties[1..])
  }

  function Ordered(properties: seq<(string, Json)>, required: seq<string>): seq<(string, Json)> {
    if required == [] then properties else OrderRest(OrderRequired([], properties, required), properties)
  }

  function ToolObject(properties: seq<(string, Json)>, required: seq<string>): Json {
    Obj(Put(Put(Put(Put([], "type", Str("object")), "properties", Obj(Ordered(properties, required))),
                "required", Arr(Strings(required))), "additionalProperties", Bool(false)))
  }

  /** find_action */
  function FindAction(actions: seq<Tool>, batch: Batch, name: string): (found: Option<Tool>)
    ensures found.Some? ==> found.value.name == name
    ensures found.Some? && Steps(actions) ==> found.value.batch == NoBatch
  {
    if actions == [] then None
    else if batch in actions[0].modes && actions[0].name == name then Some(Targeted(actions[0], batch))
    else FindAction(actions[1..], batch, name)
  }

  function Targeted(action: Tool, batch: Batch): Tool {
    if batch == Accessibility && action.targeted.Some? then
      action.(withElement := true, required := action.targeted.value)
    else action
  }

  /** The action found is the first of that name that the batch may use, for accessibility with the requirements it has
      there for an element; there is none exactly when no action of the batch has that name. */
  lemma FirstActionFound(actions: seq<Tool>, batch: Batch, name: string) returns (k: nat)
    ensures k <= |actions| && forall j :: 0 <= j < k ==> batch !in actions[j].modes || actions[j].name != name
    ensures FindAction(actions, batch, name).None? <==> k == |actions|
    ensures k < |actions| ==>
      var found := FindAction(actions, batch, name).value;
      && batch in actions[k].modes && actions[k].name == name
      && found.arguments == actions[k].arguments && found.withPoint == actions[k].withPoint
      && (found.required, found.withElement) ==
         if batch == Accessibility && actions[k].targeted.Some? then (actions[k].targeted.value, true)
         else (actions[k].required, actions[k].withElement)
  {
    if actions == [] || (batch in actions[0].modes && actions[0].name == name) {
      k := 0;
    } else {
      k := FirstActionFound(actions[1..], batch, name);
      forall j | 0 <= j < k + 1 ensures batch !in actions[j].modes || actions[j].name != name {
        assert j > 0 ==> actions[1..][j - 1] == actions[j];
      }
      k := k + 1;
    }
  }

  /** Actions are steps of a batch and no batches themselves. */
  predicate Steps(actions: seq<Tool>) {
    forall k :: 0 <= k < |actions| ==> actions[k].batch == NoBatch
  }

  /** The schema of one step: the action's name and its arguments. */
  function StepSchema(name: string, input: Json): Json {
    var toolName := Obj(Put(Put([], "type", Str("string")), "enum", Arr([Str(name)])));
    Obj(Put(Put(Put(Put([], "type", Str("object")), "properties", Obj(Put(Put([], "tool", toolName), "args", input))),
                "required", Arr([Str("tool"), Str("args")])), "additionalProperties", Bool(false)))
  }

  function PlainToolSchema(tool: Tool, noVision: bool): Json {
    ToolObject(AddArgumentSchemas([], TakenArguments(tool, noVision)), tool.required)
  }

  /** The alternatives for a step, one for each of the first `n` actions that the batch can find by name. */
  function Alternatives(actions: seq<Tool>, batch: Batch, noVision: bool, n: nat): seq<Json>
    requires n <= |actions|
  {
    if n == 0 then []
    else
      match FindAction(actions, batch, actions[n - 1].name)
      case Some(variant) =>
        Alternatives(actions, batch, noVision, n - 1) + [StepSchema(variant.name, PlainToolSchema(variant, noVision))]
      case None => Alternatives(actions, batch, noVision, n - 1)
  }

  /** build_tool_schema; its recursion ends after one level because actions are no batches. */
  function BuildToolSchema(tool: Tool, actions: seq<Tool>, noVision: bool): Json
    requires Steps(actions)
  {
    var properties := AddArgumentSchemas([], TakenArguments(tool, noVision));
    if tool.batch == NoBatch then ToolObject(properties, tool.required)
    else
      var items := Obj(Put([], "anyOf", Arr(Alternatives(actions, tool.batch, noVision, |actions|))));
      var properties := match Find(properties, "steps")
                        case Some(Obj(members)) => Put(properties, "steps", Obj(Put(members, "items", items)))
                        case _ => properties;
      ToolObject(properties, tool.required)
  }

  // ---- The validator ----

  predicate OfType(v: Json, name: string) {
    || (name == "object" && v.Obj?) || (name == "null" && v.Null?) || (name == "array" && v.Arr?)
    || (name == "string" && v.Str? && NUL !in v.s) || (name == "integer" && v.Int?)
    || (name == "number" && (v.Int? || v.Real?)) || (name == "boolean" && v.Bool?)
  }

  const LEAST: real := -1.0e100
  const MOST: real := 1.0e100
  const MOST_ITEMS: real := 1.0e9

  predicate RequiredPresent(v: Json, required: Option<Json>) {
    required.Some? && required.value.Arr? ==>
      forall k :: 0 <= k < |required.value.items| ==>
        required.value.items[k].Str? && Member(v, CString(required.value.items[k].s)).Some?
  }

  /** validate_schema */
  predicate Validate(v: Json, schema: Json)
    decreases schema, 2
  {
    match Member(schema, "anyOf")
    case Some(alternatives) =>
      alternatives.Arr? && exists k :: 0 <= k < |alternatives.items| && Validate(v, alternatives.items[k])
    case None =>
      && Member(schema, "type").Some? && Member(schema, "type").value.Str?
      && OfType(v, CString(Member(schema, "type").value.s))
      && (Member(schema, "enum").Some? ==> Member(schema, "enum").value.Arr? && v in Member(schema, "enum").value.items)
      && (Numeric(v).Some? ==>
            NumberMember(schema, "minimum", LEAST) <= Numeric(v).value <= NumberMember(schema, "maximum", MOST))
      && (v.Obj? ==> RequiredPresent(v, Member(schema, "required")) && MembersValid(v.members, schema))
      && (v.Arr? ==>
            && NumberMember(schema, "minItems", 0.0) <= |v.items| as real <= NumberMember(schema, "maxItems", MOST_ITEMS)
            && forall k :: 0 <= k < |v.items| ==>
                 Member(schema, "items").Some? && Validate(v.items[k], Member(schema, "items").value))
  }

  predicate MembersValid(members: seq<(string, Json)>, schema: Json)
    decreases schema, 1
  {
    forall k :: 0 <= k < |members| ==> MemberValid(CString(members[k].0), members[k].1, schema)
  }

  predicate MemberValid(key: string, v: Json, schema: Json)
    decreases schema, 0
  {
    match PropertyOf(schema, key)
    case Some(property) => Validate(v, property)
    case None => Member(schema, "additionalProperties") != Some(Bool(false))
  }

  function PropertyOf(schema: Json, key: string): (property: Option<Json>)
    ensures property.Some? ==> property.value < schema
  {
    match Member(schema, "properties")
    case Some(properties) => Member(properties, key)
    case None => None
  }

  // ---- What a table describes ----

  predicate Within(number: real, argument: Argument) {
    if argument.maximum != 0 then argument.minimum as real <= number <= argument.maximum as real
    else LEAST <= number <= MOST
  }

  /** As many items as the table asks for, and never more than a billion. */
  predicate Counted(n: nat, argument: Argument) {
    && (argument.minimum != 0 ==> argument.minimum <= n)
    && (if argument.maximum != 0 then n <= argument.maximum else n as real <= MOST_ITEMS)
  }

  predicate PlainString(v: Json) {
    v.Str? && NUL !in v.s
  }

  predicate PlainNumber(v: Json) {
    (v.Int? || v.Real?) && LEAST <= Numeric(v).value <= MOST
  }

  predicate ItemFits(kind: Kind, v: Json) {
    match kind
    case StringArray => PlainString(v)
    case NumberArray => PlainNumber(v)
    case IntegerArray => v.Int? && PlainNumber(v)
    case _ => v.Obj?
  }

  /** A window's ID, and perhaps whether to send the whole tree again. */
  predicate ObservationFits(v: Json) {
    && v.Obj? && Find(v.members, "window").Some?
    && forall k :: 0 <= k < |v.members| ==>
         var key := CString(v.members[k].0);
         (key == "window" && v.members[k].1.Int? && PlainNumber(v.members[k].1))
         || (key == "refresh" && v.members[k].1.Bool?)
  }

  predicate KindFits(argument: Argument, v: Json) {
    match argument.kind
    case StringKind => PlainString(v)
    case NumberKind => (v.Int? || v.Real?) && Within(Numeric(v).value, argument)
    case IntegerKind => v.Int? && Within(Numeric(v).value, argument)
    case BooleanKind => v.Bool?
    case ObjectKind => v.Obj?
    case Observation => ObservationFits(v)
    case _ => v.Arr? && Counted(|v.items|, argument) && forall k :: 0 <= k < |v.items| ==> ItemFits(argument.kind, v.items[k])
  }

  predicate PlainFits(argument: Argument, v: Json) {
    KindFits(argument, v) && (argument.choices == [] || (v.Str? && v.s in argument.choices))
  }

  /** A value is what one line of a table describes. */
  predicate Fits(argument: Argument, v: Json) {
    || PlainFits(argument, v)
    || (argument.allowNull && v.Null?)
    || (argument.allowFalse && !argument.allowNull && v == Bool(false))
  }

  /** The line for a name; a later line replaces an earlier one. */
  function Line(arguments: seq<Argument>, name: string): Option<Argument> {
    if arguments == [] then None
    else
      match Line(arguments[1..], name)
      case Some(argument) => Some(argument)
      case None => if arguments[0].name == name then Some(arguments[0]) else None
  }

  /** Every required argument is there, and every member is an argument that `fits` its line. */
  predicate MembersFit(arguments: seq<Argument>, required: seq<string>, args: Json) {
    && args.Obj?
    && (forall k :: 0 <= k < |required| ==> Find(args.members, CString(required[k])).Some?)
    && forall k :: 0 <= k < |args.members| ==>
         match Line(arguments, CString(args.members[k].0))
         case Some(argument) => Fits(argument, args.members[k].1)
         case None => false
  }

  // ---- The validator accepts what the table describes ----

  /** The member of the compiled schema under each key. */
  function PlainMember(a: Argument, key: string): Option<Json> {
    if a.kind.Observation? && key == "additionalProperties" then Some(Bool(false))
    else if a.kind.Observation? && key == "required" then Some(Arr([Str("window")]))
    else if a.kind.Observation? && key == "properties" then Some(Obj(WINDOW_FIELDS))
    else if IsArray(a.kind) && a.maximum != 0 && key == "maxItems" then Some(Int(a.maximum))
    else if IsArray(a.kind) && a.minimum != 0 && key == "minItems" then Some(Int(a.minimum))
    else if IsArray(a.kind) && key == "items" then Some(TypeOnly(ItemName(a.kind)))
    else if !IsArray(a.kind) && a.maximum != 0 && key == "maximum" then Some(Real(a.maximum as real))
    else if !IsArray(a.kind) && a.maximum != 0 && key == "minimum" then Some(Real(a.minimum as real))
    else if a.choices != [] && key == "enum" then Some(Arr(Strings(a.choices)))
    else if key == "type" then Some(Str(TypeName(a.kind)))
    else if a.kind.BooleanKind? && key == "default" then Some(Bool(false))
    else None
  }

  lemma PlainSchemaMember(argument: Argument, key: string)
    ensures Member(PlainSchema(argument), key) == PlainMember(argument, key)
  {
    assert Find([], key) == None;
    hide Find, Put, WINDOW_FIELDS, TypeOnly, ItemName, TypeName, Strings;
  }

  lemma TypeMember(argument: Argument)
    ensures Member(PlainSchema(argument), "anyOf") == None
    ensures Member(PlainSchema(argument), "type") == Some(Str(TypeName(argument.kind)))
  {
    PlainSchemaMember(argument, "anyOf");
    PlainSchemaMember(argument, "type");
    hide PlainSchema, Member, TypeName;
  }

  lemma EnumMember(argument: Argument)
    ensures Member(PlainSchema(argument), "enum") ==
            if argument.choices == [] then None else Some(Arr(Strings(argument.choices)))
  {
    PlainSchemaMember(argument, "enum");
    hide PlainSchema, Member, Strings;
  }

  lemma BoundsMember(argument: Argument)
    requires !IsArray(argument.kind)
    ensures var schema, a := PlainSchema(argument), argument;
      && Member(schema, "minimum") == (if a.maximum == 0 then None else Some(Real(a.minimum as real)))
      && Member(schema, "maximum") == if a.maximum == 0 then None else Some(Real(a.maximum as real))
  {
    PlainSchemaMember(argument, "minimum");
    PlainSchemaMember(argument, "maximum");
    hide PlainSchema, Member;
  }

  lemma ArraySchemaMembers(argument: Argument)
    requires IsArray(argument.kind)
    ensures var schema, a := PlainSchema(argument), argument;
      && Member(schema, "items") == Some(TypeOnly(ItemName(a.kind)))
      && Member(schema, "minItems") == (if a.minimum == 0 then None else Some(Int(a.minimum)))
      && Member(schema, "maxItems") == (if a.maximum == 0 then None else Some(Int(a.maximum)))
  {
    PlainSchemaMember(argument, "items");
    PlainSchemaMember(argument, "minItems");
    PlainSchemaMember(argument, "maxItems");
    hide PlainSchema, Member, TypeOnly, ItemName;
  }

  lemma ObjectSchemaMembers(argument: Argument)
    requires !IsArray(argument.kind)
    ensures var schema := PlainSchema(argument);
      if argument.kind.Observation? then
        && Member(schema, "properties") == Some(Obj(WINDOW_FIELDS)) && Member(schema, "required") == Some(Arr([Str("window")]))
        && Member(schema, "additionalProperties") == Some(Bool(false))
      else
        Member(schema, "properties") == None && Member(schema, "required") == None
        && Member(schema, "additionalProperties") == None
  {
    PlainSchemaMember(argument, "properties");
    PlainSchemaMember(argument, "required");
    PlainSchemaMember(argument, "additionalProperties");
    hide PlainSchema, Member, WINDOW_FIELDS;
  }

  /** The type a schema asks for, for a line of each kind. */
  predicate HasKind(kind: Kind, v: Json) {
    match kind
    case StringKind => PlainString(v)
    case NumberKind => v.Int? || v.Real?
    case IntegerKind => v.Int?
    case BooleanKind => v.Bool?
    case ObjectKind => v.Obj?
    case Observation => v.Obj?
    case _ => v.Arr?
  }

  lemma OfKind(kind: Kind, v: Json)
    ensures OfType(v, TypeName(kind)) <==> HasKind(kind, v)
  {
  }

  lemma OfItemKind(kind: Kind, v: Json)
    requires IsArray(kind)
    ensures OfType(v, ItemName(kind)) <==>
            match kind
            case StringArray => PlainString(v)
            case NumberArray => v.Int? || v.Real?
            case IntegerArray => v.Int?
            case _ => v.Obj?
  {
  }

  lemma OfNames(v: Json)
    ensures OfType(v, "object") <==> v.Obj?
    ensures OfType(v, "integer") <==> v.Int?
    ensures OfType(v, "boolean") <==> v.Bool?
    ensures OfType(v, "null") <==> v.Null?
    ensures OfType(v, "string") <==> PlainString(v)
    ensures OfType(v, "array") <==> v.Arr?
  {
  }

  lemma NamesArePlain(kind: Kind)
    ensures NUL !in TypeName(kind) && NUL !in ItemName(kind)
  {
  }

  predicate InRange(v: Json, least: real, most: real) {
    Numeric(v).Some? ==> least <= Numeric(v).value <= most
  }

  predicate InEnum(v: Json, choices: Option<Json>) {
    choices.Some? ==> choices.value.Arr? && v in choices.value.items
  }

  /** A schema for something that is neither an object nor an array looks at the type, the choices and the range. */
  lemma ScalarValidated(v: Json, schema: Json, name: string)
    requires Member(schema, "anyOf") == None && Member(schema, "type") == Some(Str(name)) && NUL !in name
    requires OfType(v, name) ==> !v.Obj? && !v.Arr?
    ensures Validate(v, schema) <==>
            && OfType(v, name) && InEnum(v, Member(schema, "enum"))
            && InRange(v, NumberMember(schema, "minimum", LEAST), NumberMember(schema, "maximum", MOST))
  {
    hide OfType, Find, NumberMember, PropertyOf;
  }

  lemma ArrayValidated(v: Json, schema: Json, item: Json)
    requires Member(schema, "anyOf") == None && Member(schema, "type") == Some(Str("array"))
    requires Member(schema, "items") == Some(item)
    ensures Validate(v, schema) <==>
            && v.Arr? && InEnum(v, Member(schema, "enum"))
            && NumberMember(schema, "minItems", 0.0) <= |v.items| as real <= NumberMember(schema, "maxItems", MOST_ITEMS)
            && forall k :: 0 <= k < |v.items| ==> Validate(v.items[k], item)
  {
    assert CString("array") == "array";
    hide Find, NumberMember, PropertyOf;
  }

  lemma ObjectValidated(v: Json, schema: Json)
    requires Member(schema, "anyOf") == None && Member(schema, "type") == Some(Str("object"))
    ensures Validate(v, schema) <==>
            && v.Obj? && InEnum(v, Member(schema, "enum")) && RequiredPresent(v, Member(schema, "required"))
            && MembersValid(v.members, schema)
  {
    assert CString("object") == "object";
    OfNames(v);
    hide CString, MembersValid, NumberMember, OfType, RequiredPresent;
  }

  /** The members are properties, and each validates against its own. */
  predicate MembersValidate(properties: seq<(string, Json)>, members: seq<(string, Json)>) {
    forall k :: 0 <= k < |members| ==> MemberValidates(properties, CString(members[k].0), members[k].1)
  }

  predicate MemberValidates(properties: seq<(string, Json)>, key: string, v: Json) {
    match Find(properties, key)
    case Some(property) => Validate(v, property)
    case None => false
  }

  lemma ClosedMembers(members: seq<(string, Json)>, schema: Json, properties: seq<(string, Json)>)
    requires Member(schema, "properties") == Some(Obj(properties))
    requires Member(schema, "additionalProperties") == Some(Bool(false))
    ensures MembersValid(members, schema) <==> MembersValidate(properties, members)
  {
    forall key, v ensures MemberValid(key, v, schema) <==> MemberValidates(properties, key, v) {
      assert PropertyOf(schema, key) == Find(properties, key);
      hide Validate, Find, PropertyOf;
    }
    hide MemberValid, MemberValidates, CString;
  }

  lemma OpenMembers(members: seq<(string, Json)>, schema: Json)
    requires Member(schema, "properties") == None && Member(schema, "additionalProperties") == None
    ensures MembersValid(members, schema)
  {
    assert forall key :: PropertyOf(schema, key) == None;
    hide Validate, PropertyOf, CString;
  }

  lemma StringsHas(names: seq<string>, v: Json)
    ensures v in Strings(names) <==> v.Str? && v.s in names
  {
  }

  lemma ChoicesValidated(argument: Argument, v: Json)
    ensures InEnum(v, Member(PlainSchema(argument), "enum")) <==>
            argument.choices == [] || (v.Str? && v.s in argument.choices)
  {
    EnumMember(argument);
    StringsHas(argument.choices, v);
    hide PlainSchema, Member;
  }

  lemma TypeOnlyMembers(name: string)
    ensures Member(TypeOnly(name), "type") == Some(Str(name))
    ensures Member(TypeOnly(name), "anyOf") == None && Member(TypeOnly(name), "enum") == None
    ensures Member(TypeOnly(name), "minimum") == None && Member(TypeOnly(name), "maximum") == None
    ensures Member(TypeOnly(name), "properties") == None && Member(TypeOnly(name), "required") == None
    ensures Member(TypeOnly(name), "additionalProperties") == None
  {
    hide Put;
    assert forall key :: Find([], key) == None;
    hide Find;
  }

  lemma ItemValidated(kind: Kind, v: Json)
    requires IsArray(kind)
    ensures Validate(v, TypeOnly(ItemName(kind))) <==> ItemFits(kind, v)
  {
    NamesArePlain(kind);
    OfItemKind(kind, v);
    TypeOnlyMembers(ItemName(kind));
    if kind.ObjectArray? {
      ObjectValidated(v, TypeOnly(ItemName(kind)));
      if v.Obj? {
        OpenMembers(v.members, TypeOnly(ItemName(kind)));
      }
      hide TypeOnly, Find, Validate, OfType, MembersValid;
    } else {
      hide OfType;
      ScalarValidated(v, TypeOnly(ItemName(kind)), ItemName(kind));
      hide TypeOnly, Find, Validate, ItemName;
    }
  }

  lemma BoundsRead(argument: Argument)
    requires !IsArray(argument.kind)
    ensures NumberMember(PlainSchema(argument), "minimum", LEAST) ==
            if argument.maximum == 0 then LEAST else argument.minimum as real
    ensures NumberMember(PlainSchema(argument), "maximum", MOST) ==
            if argument.maximum == 0 then MOST else argument.maximum as real
  {
    BoundsMember(argument);
  }

  lemma ScalarFits(argument: Argument, v: Json)
    requires !IsArray(argument.kind) && !argument.kind.ObjectKind? && !argument.kind.Observation?
    ensures Validate(v, PlainSchema(argument)) <==> PlainFits(argument, v)
  {
    hide Counted, InEnum, ItemFits, ItemName, LEAST, MOST, Member, NUL, NumberMember, ObservationFits, OfType,
         PlainSchema, TypeName, Validate;
    NamesArePlain(argument.kind);
    TypeMember(argument);
    OfKind(argument.kind, v);
    ScalarValidated(v, PlainSchema(argument), TypeName(argument.kind));
    BoundsRead(argument);
    ChoicesValidated(argument, v);
  }

  lemma ItemsMember(argument: Argument)
    requires IsArray(argument.kind)
    ensures Member(PlainSchema(argument), "items") == Some(TypeOnly(ItemName(argument.kind)))
  {
    ArraySchemaMembers(argument);
    hide *;
  }

  lemma CountRead(argument: Argument)
    requires IsArray(argument.kind)
    ensures NumberMember(PlainSchema(argument), "minItems", 0.0) == argument.minimum as real
    ensures NumberMember(PlainSchema(argument), "maxItems", MOST_ITEMS) ==
            if argument.maximum == 0 then MOST_ITEMS else argument.maximum as real
  {
    ArraySchemaMembers(argument);
  }

  lemma CountValidated(argument: Argument, n: nat)
    requires IsArray(argument.kind)
    ensures NumberMember(PlainSchema(argument), "minItems", 0.0) <= n as real
            <= NumberMember(PlainSchema(argument), "maxItems", MOST_ITEMS)
            <==> Counted(n, argument)
  {
    CountRead(argument);
    hide NumberMember, PlainSchema;
  }

  lemma ArrayFits(argument: Argument, v: Json)
    requires IsArray(argument.kind)
    ensures Validate(v, PlainSchema(argument)) <==> PlainFits(argument, v)
  {
    assert TypeName(argument.kind) == "array";
    hide Counted, InEnum, ItemFits, ItemName, MOST_ITEMS, Member, NumberMember, Numeric, ObservationFits, PlainSchema,
         PlainString, TypeName, TypeOnly, Validate, Within;
    TypeMember(argument);
    ItemsMember(argument);
    ArrayValidated(v, PlainSchema(argument), TypeOnly(ItemName(argument.kind)));
    ChoicesValidated(argument, v);
    if v.Arr? {
      ItemsValidated(argument.kind, v.items);
      CountValidated(argument, |v.items|);
      ArrayKindFits(argument, v);
    }
  }

  lemma ArrayKindFits(argument: Argument, v: Json)
    requires IsArray(argument.kind) && v.Arr?
    ensures KindFits(argument, v) <==>
            Counted(|v.items|, argument) && forall k :: 0 <= k < |v.items| ==> ItemFits(argument.kind, v.items[k])
  {
    hide Counted, ItemFits;
  }

  lemma ItemsValidated(kind: Kind, items: seq<Json>)
    requires IsArray(kind)
    ensures (forall k :: 0 <= k < |items| ==> Validate(items[k], TypeOnly(ItemName(kind))))
            <==> (forall k :: 0 <= k < |items| ==> ItemFits(kind, items[k]))
  {
    hide *;
    forall k | 0 <= k < |items| ensures Validate(items[k], TypeOnly(ItemName(kind))) <==> ItemFits(kind, items[k]) {
      ItemValidated(kind, items[k]);
    }
  }

  lemma WindowFields(key: string)
    ensures Find(WINDOW_FIELDS, key) ==
            if key == "window" then Some(TypeOnly("integer"))
            else if key == "refresh" then Some(REFRESH)
            else None
  {
    assert Find([], key) == None;
    hide Put, Find;
  }

  const REFRESH := Obj(Put(Put([], "type", Str("boolean")), "default", Bool(false)))

  lemma RefreshMembers()
    ensures Member(REFRESH, "type") == Some(Str("boolean")) && Member(REFRESH, "anyOf") == None
    ensures Member(REFRESH, "enum") == None && Member(REFRESH, "minimum") == None && Member(REFRESH, "maximum") == None
  {
    assert forall key :: Find([], key) == None;
    hide Put, Find;
  }

  lemma WindowFieldValidated(v: Json)
    ensures Validate(v, TypeOnly("integer")) <==> v.Int? && PlainNumber(v)
    ensures Validate(v, REFRESH) <==> v.Bool?
  {
    TypeOnlyMembers("integer");
    RefreshMembers();
    OfNames(v);
    hide Validate, OfType, Find, Put, TypeOnly, Member;
    ScalarValidated(v, TypeOnly("integer"), "integer");
    ScalarValidated(v, REFRESH, "boolean");
  }

  lemma ObservationMemberFits(key: string, v: Json)
    ensures MemberValidates(WINDOW_FIELDS, key, v) <==>
            (key == "window" && v.Int? && PlainNumber(v)) || (key == "refresh" && v.Bool?)
  {
    WindowFields(key);
    WindowFieldValidated(v);
    hide Validate, Find, WINDOW_FIELDS, REFRESH, TypeOnly, PlainNumber;
  }

  lemma ObservationMembersFit(v: Json)
    requires v.Obj?
    ensures ObservationFits(v) <==> Member(v, "window").Some? && MembersValidate(WINDOW_FIELDS, v.members)
  {
    hide CString, Find, MemberValidates, PlainNumber;
    forall k | 0 <= k < |v.members|
      ensures var key := CString(v.members[k].0);
        MemberValidates(WINDOW_FIELDS, key, v.members[k].1)
        <==> (key == "window" && v.members[k].1.Int? && PlainNumber(v.members[k].1))
             || (key == "refresh" && v.members[k].1.Bool?)
    {
      ObservationMemberFits(CString(v.members[k].0), v.members[k].1);
    }
  }

  lemma ObjectFits(argument: Argument, v: Json)
    requires argument.kind.ObjectKind?
    ensures Validate(v, PlainSchema(argument)) <==> PlainFits(argument, v)
  {
    assert TypeName(argument.kind) == "object";
    hide PlainSchema, Member, TypeName, MembersValid, InEnum, Validate;
    TypeMember(argument);
    ObjectSchemaMembers(argument);
    ObjectValidated(v, PlainSchema(argument));
    if v.Obj? {
      OpenMembers(v.members, PlainSchema(argument));
    }
    ChoicesValidated(argument, v);
  }

  lemma RequiresOne(v: Json, name: string)
    requires NUL !in name
    ensures RequiredPresent(v, Some(Arr([Str(name)]))) <==> Member(v, name).Some?
  {
    assert CString(name) == name;
    hide Find, Member, CString;
    assert [Str(name)][0] == Str(name);
  }

  lemma ObservationFit(argument: Argument, v: Json)
    requires argument.kind.Observation?
    ensures Validate(v, PlainSchema(argument)) <==> PlainFits(argument, v)
  {
    assert TypeName(argument.kind) == "object";
    assert !v.Obj? ==> !ObservationFits(v);
    hide PlainSchema, Member, TypeName, MembersValid, MembersValidate, InEnum, ObservationFits, RequiredPresent,
         Validate, WINDOW_FIELDS;
    TypeMember(argument);
    RequiresOne(v, "window");
    ObjectSchemaMembers(argument);
    ObjectValidated(v, PlainSchema(argument));
    ChoicesValidated(argument, v);
    if v.Obj? {
      ClosedMembers(v.members, PlainSchema(argument), WINDOW_FIELDS);
      ObservationMembersFit(v);
    }
  }

  // ---- Arguments and tools ----

  lemma OffMembers(allowNull: bool)
    ensures Member(OffSchema(allowNull), "anyOf") == None
    ensures Member(OffSchema(allowNull), "type") == Some(Str(if allowNull then "null" else "boolean"))
    ensures Member(OffSchema(allowNull), "enum") == if allowNull then None else Some(Arr([Bool(false)]))
    ensures Member(OffSchema(allowNull), "minimum") == None && Member(OffSchema(allowNull), "maximum") == None
  {
    assert forall key :: Find([], key) == None;
    hide Find, Put;
  }

  lemma OffFits(allowNull: bool, v: Json)
    ensures Validate(v, OffSchema(allowNull)) <==> if allowNull then v.Null? else v == Bool(false)
  {
    OffMembers(allowNull);
    OfNames(v);
    hide OfType, OffSchema, Member, Validate;
    ScalarValidated(v, OffSchema(allowNull), if allowNull then "null" else "boolean");
  }

  lemma PlainFit(argument: Argument, v: Json)
    ensures Validate(v, PlainSchema(argument)) <==> PlainFits(argument, v)
  {
    match argument.kind
    case ObjectKind => ObjectFits(argument, v);
    case Observation => ObservationFit(argument, v);
    case StringKind => ScalarFits(argument, v);
    case NumberKind => ScalarFits(argument, v);
    case IntegerKind => ScalarFits(argument, v);
    case BooleanKind => ScalarFits(argument, v);
    case _ => ArrayFits(argument, v);
  }

  lemma ChoiceValidated(v: Json, one: Json, other: Json)
    ensures Validate(v, Obj(Put([], "anyOf", Arr([one, other])))) <==> Validate(v, one) || Validate(v, other)
  {
    var options := [one, other];
    var schema := Obj(Put([], "anyOf", Arr(options)));
    assert Member(schema, "anyOf") == Some(Arr(options));
    hide Put, Find, Member;
    assert Validate(v, options[0]) <==> Validate(v, one);
    assert Validate(v, options[1]) <==> Validate(v, other);
  }

  /** The schema of one line of a table accepts exactly what the line describes. */
  lemma ArgumentSchemaFits(argument: Argument, v: Json)
    ensures Validate(v, ArgumentSchema(argument)) <==> Fits(argument, v)
  {
    PlainFit(argument, v);
    OffFits(argument.allowNull, v);
    ChoiceValidated(v, PlainSchema(argument), OffSchema(argument.allowNull));
    hide Put, Validate, PlainFits, PlainSchema, OffSchema;
  }

  /** The properties compiled from a table hold the schema of each name's line. */
  lemma {:induction false} PropertiesHold(properties: seq<(string, Json)>, arguments: seq<Argument>, name: string)
    ensures Find(AddArgumentSchemas(properties, arguments), name) ==
            match Line(arguments, name)
            case Some(argument) => Some(ArgumentSchema(argument))
            case None => Find(properties, name)
    decreases |arguments|
  {
    hide Find, Put, ArgumentSchema;
    if arguments != [] {
      PropertiesHold(Put(properties, arguments[0].name, ArgumentSchema(arguments[0])), arguments[1..], name);
    }
  }

  /** Listing the required properties first loses and changes none. */
  lemma OrderingKeeps(properties: seq<(string, Json)>, required: seq<string>, name: string)
    ensures Find(OrderRest(OrderRequired([], properties, required), properties), name) == Find(properties, name)
  {
    var first := OrderRequired([], properties, required);
    RequiredKeeps([], properties, required, name);
    RestKeeps(first, properties, name);
  }

  lemma {:induction false} RequiredKeeps(ordered: seq<(string, Json)>, properties: seq<(string, Json)>,
                                         required: seq<string>, name: string)
    requires Find(ordered, name) == None || Find(ordered, name) == Find(properties, name)
    ensures var all := OrderRequired(ordered, properties, required);
      Find(all, name) == None || Find(all, name) == Find(properties, name)
    decreases |required|
  {
    hide Find, Put;
    if required != [] {
      match Find(properties, required[0])
      case Some(property) => RequiredKeeps(Put(ordered, required[0], property), properties, required[1..], name);
      case None => RequiredKeeps(ordered, properties, required[1..], name);
    }
  }

  lemma {:induction false} RestKeeps(ordered: seq<(string, Json)>, properties: seq<(string, Json)>, name: string)
    ensures Find(OrderRest(ordered, properties), name) ==
            if Find(ordered, name).Some? then Find(ordered, name) else Find(properties, name)
    decreases |properties|
  {
    hide Put;
    if properties != [] {
      var (key, property) := properties[0];
      RestKeeps(if Find(ordered, key).None? then Put(ordered, key, property) else ordered, properties[1..], name);
    }
  }

  // ---- The order of the properties ----

  /** Where a name first stands. */
  function PlaceIn(names: seq<string>, name: string): (k: nat)
    ensures k <= |names| && (k < |names| <==> name in names)
    ensures k < |names| ==> names[k] == name
    ensures forall j :: 0 <= j < k ==> names[j] != name
  {
    if names == [] || names[0] == name then 0
    else
      assert names == [names[0]] + names[1..];
      1 + PlaceIn(names[1..], name)
  }

  function Keys(members: seq<(string, Json)>): (keys: seq<string>)
    ensures |keys| == |members| && forall k :: 0 <= k < |members| ==> keys[k] == members[k].0
  {
    seq(|members|, k requires 0 <= k < |members| => members[k].0)
  }

  /** Each key is one of the names, and they stand in the order of these. */
  ghost predicate InOrderOf(keys: seq<string>, names: seq<string>) {
    && (forall k :: 0 <= k < |keys| ==> keys[k] in names)
    && forall i, j :: 0 <= i < j < |keys| ==> PlaceIn(names, keys[i]) < PlaceIn(names, keys[j])
  }

  lemma KeysCons(member: (string, Json), rest: seq<(string, Json)>)
    ensures Keys([member] + rest) == [member.0] + Keys(rest)
  {
  }

  lemma {:induction false} PutKeys(members: seq<(string, Json)>, key: string, value: Json)
    ensures Keys(Put(members, key, value)) == if key in Keys(members) then Keys(members) else Keys(members) + [key]
  {
    hide Keys;
    if members == [] {
      KeysCons((key, value), []);
    } else {
      assert members == [members[0]] + members[1..];
      KeysCons(members[0], members[1..]);
      KeysCons((key, value), members[1..]);
      if members[0].0 != key {
        PutKeys(members[1..], key, value);
        KeysCons(members[0], Put(members[1..], key, value));
        assert [members[0].0] + (Keys(members[1..]) + [key]) == [members[0].0] + Keys(members[1..]) + [key];
      }
    }
  }

  /** What is placed so far: of the first `n` required names those that are properties. */
  ghost predicate Placed(keys: seq<string>, properties: seq<(string, Json)>, required: seq<string>, n: nat)
    requires n <= |required|
  {
    && InOrderOf(keys, required)
    && forall name: string :: name in keys <==> PlaceIn(required, name) < n && name in Keys(properties)
  }

  lemma KeyFound(members: seq<(string, Json)>, key: string)
    ensures Find(members, key).Some? <==> key in Keys(members)
  {
    NotFound(members, key);
    if key in Keys(members) {
      var k :| 0 <= k < |members| && Keys(members)[k] == key;
      assert members[k].0 == key;
    }
    if Find(members, key).Some? {
      var k := Found(members, key);
      assert Keys(members)[k] == key;
    }
  }

  lemma {:induction false} RequiredPlaced(ordered: seq<(string, Json)>, properties: seq<(string, Json)>,
                                          required: seq<string>, n: nat)
    requires n <= |required| && Placed(Keys(ordered), properties, required, n)
    ensures Placed(Keys(OrderRequired(ordered, properties, required[n..])), properties, required, |required|)
    decreases |required| - n
  {
    hide Placed, Put, Keys, Find;
    if n < |required| {
      assert required[n..][0] == required[n] && required[n..][1..] == required[n + 1..];
      KeyFound(properties, required[n]);
      NextPlaced(Keys(ordered), properties, required, n);
      match Find(properties, required[n])
      case Some(property) =>
        PutKeys(ordered, required[n], property);
        RequiredPlaced(Put(ordered, required[n], property), properties, required, n + 1);
      case None => RequiredPlaced(ordered, properties, required, n + 1);
    }
  }

  lemma NextPlaced(keys: seq<string>, properties: seq<(string, Json)>, required: seq<string>, n: nat)
    requires n < |required| && Placed(keys, properties, required, n)
    ensures Placed(if required[n] in Keys(properties) && required[n] !in keys then keys + [required[n]] else keys,
                   properties, required, n + 1)
  {
    hide Keys;
    var name := required[n];
    assert PlaceIn(required, name) <= n;
    forall other: string ensures PlaceIn(required, other) < n + 1 <==> PlaceIn(required, other) < n || other == name {
    }
  }

  /** The rest follows behind what is there, in its own order. */
  lemma {:induction false} RestPlaced(ordered: seq<(string, Json)>, properties: seq<(string, Json)>)
    returns (rest: seq<string>)
    ensures Keys(OrderRest(ordered, properties)) == Keys(ordered) + rest && RestOf(rest, Keys(ordered), Keys(properties))
    decreases |properties|
  {
    hide Put, Find, Keys, RestOf;
    rest := [];
    if properties == [] {
      NoRest(Keys(ordered));
      KeysNone();
    } else {
      var (key, property) := properties[0];
      KeyFound(ordered, key);
      PutKeys(ordered, key, property);
      var next := if Find(ordered, key).None? then Put(ordered, key, property) else ordered;
      var more := RestPlaced(next, properties[1..]);
      assert properties == [properties[0]] + properties[1..];
      KeysCons(properties[0], properties[1..]);
      rest := if Find(ordered, key).None? then [key] + more else more;
      RestNext(Keys(ordered), key, Keys(properties[1..]), more);
      assert Keys(ordered) + [key] + more == Keys(ordered) + ([key] + more);
    }
  }

  /** The names that are not placed yet, in their order. */
  ghost predicate RestOf(rest: seq<string>, placed: seq<string>, names: seq<string>) {
    && InOrderOf(rest, names)
    && forall name: string :: name in rest <==> name in names && name !in placed
  }

  lemma KeysNone()
    ensures Keys([]) == []
  {
  }

  lemma NoRest(placed: seq<string>)
    ensures RestOf([], placed, []) && placed + [] == placed
  {
  }

  lemma RestNext(placed: seq<string>, key: string, names: seq<string>, more: seq<string>)
    requires RestOf(more, if key in placed then placed else placed + [key], names)
    ensures RestOf(if key in placed then more else [key] + more, placed, [key] + names)
  {
    OrderBehind(more, key, names);
    hide InOrderOf;
  }

  lemma OrderBehind(keys: seq<string>, first: string, names: seq<string>)
    requires InOrderOf(keys, names) && first !in keys
    ensures InOrderOf(keys, [first] + names) && InOrderOf([first] + keys, [first] + names)
  {
    var all := [first] + names;
    assert all[1..] == names && PlaceIn(all, first) == 0;
    forall k | 0 <= k < |keys| ensures keys[k] in all && PlaceIn(all, keys[k]) == 1 + PlaceIn(names, keys[k]) {
      assert keys[k] != first;
    }
  }

  /** The required properties come first, as they are listed, and then the others, as they were. */
  lemma RequiredComeFirst(properties: seq<(string, Json)>, required: seq<string>) returns (n: nat)
    requires required != []
    ensures var keys := Keys(Ordered(properties, required));
      && n <= |keys| && InOrderOf(keys[..n], required) && InOrderOf(keys[n..], Keys(properties))
      && (forall name: string :: name in keys[..n] <==> name in required && name in Keys(properties))
      && (forall name: string :: name in keys[n..] <==> name !in required && name in Keys(properties))
  {
    hide OrderRequired, OrderRest;
    var first := OrderRequired([], properties, required);
    assert required[0..] == required;
    KeysNone();
    RequiredPlaced([], properties, required, 0);
    var rest := RestPlaced(first, properties);
    n := |first|;
    var keys := Keys(Ordered(properties, required));
    assert keys[..n] == Keys(first) && keys[n..] == rest;
  }

  lemma ToolObjectMembers(properties: seq<(string, Json)>, required: seq<string>)
    ensures var schema := ToolObject(properties, required);
      && Member(schema, "anyOf") == None && Member(schema, "type") == Some(Str("object")) && Member(schema, "enum") == None
      && Member(schema, "required") == Some(Arr(Strings(required)))
      && Member(schema, "additionalProperties") == Some(Bool(false))
      && Member(schema, "properties") == Some(Obj(Ordered(properties, required)))
  {
    assert forall key :: Find([], key) == None;
    hide Find, Put, Ordered, Strings;
  }

  lemma OrderedKeeps(properties: seq<(string, Json)>, required: seq<string>, name: string)
    ensures Find(Ordered(properties, required), name) == Find(properties, name)
  {
    OrderingKeeps(properties, required, name);
    hide Find, OrderRest, OrderRequired;
  }

  /** A tool's object schema asks for an object with the required members and no others than the properties. */
  lemma ToolObjectValidated(v: Json, properties: seq<(string, Json)>, required: seq<string>)
    ensures Validate(v, ToolObject(properties, required)) <==>
            && v.Obj?
            && (forall k :: 0 <= k < |required| ==> Find(v.members, CString(required[k])).Some?)
            && MembersValidate(properties, v.members)
  {
    var schema := ToolObject(properties, required);
    hide Ordered, MembersValid, MembersValidate, Strings, ToolObject, Validate;
    ToolObjectMembers(properties, required);
    ObjectValidated(v, schema);
    if v.Obj? {
      ClosedMembers(v.members, schema, Ordered(properties, required));
      OrderedValidate(properties, required, v.members);
      RequiredRead(v, required);
    }
    hide Member, RequiredPresent, Find, CString;
  }

  lemma OrderedValidate(properties: seq<(string, Json)>, required: seq<string>, members: seq<(string, Json)>)
    ensures MembersValidate(Ordered(properties, required), members) <==> MembersValidate(properties, members)
  {
    forall key, v
      ensures MemberValidates(Ordered(properties, required), key, v) <==> MemberValidates(properties, key, v)
    {
      OrderedKeeps(properties, required, key);
      hide Ordered, Find, Validate;
    }
    hide MemberValidates, Ordered, CString;
  }

  lemma RequiredRead(v: Json, required: seq<string>)
    requires v.Obj?
    ensures RequiredPresent(v, Some(Arr(Strings(required)))) <==>
            forall k :: 0 <= k < |required| ==> Find(v.members, CString(required[k])).Some?
  {
    hide CString, Find, Strings;
  }

  lemma {:induction false} LineOfBoth(arguments: seq<Argument>, more: seq<Argument>, name: string)
    ensures Line(arguments + more, name) == if Line(more, name).Some? then Line(more, name) else Line(arguments, name)
  {
    if arguments == [] {
      assert arguments + more == more;
    } else {
      assert (arguments + more)[1..] == arguments[1..] + more;
      LineOfBoth(arguments[1..], more, name);
    }
  }

  lemma LineOfOne(argument: Argument, name: string)
    ensures Line([argument], name) == if argument.name == name then Some(argument) else None
  {
    assert [argument][1..] == [];
  }

  /** Besides its own lines, a tool has those for a point and for an element where it takes these; without vision, status
      has no lines at all. */
  lemma TakenLine(tool: Tool, noVision: bool, name: string)
    ensures Line(TakenArguments(tool, noVision), name) ==
            if tool.withPoint && (name == "x" || name == "y") then
              Some(Argument(name, NumberKind, [], 0, 0, false, false))
            else if tool.withElement && name == "element_id" then
              Some(Argument("element_id", IntegerKind, [], 0, 19999, false, false))
            else if noVision && tool.name == "status" then None
            else Line(tool.arguments, name)
  {
    var own := if noVision && tool.name == "status" then [] else tool.arguments;
    var element := if tool.withElement then ACTION_ARGUMENTS else [];
    LineOfBoth(own + element, if tool.withPoint then POINT_ARGUMENTS else [], name);
    LineOfBoth(own, element, name);
    assert POINT_ARGUMENTS == [POINT_ARGUMENTS[0]] + [POINT_ARGUMENTS[1]];
    LineOfBoth([POINT_ARGUMENTS[0]], [POINT_ARGUMENTS[1]], name);
    LineOfOne(POINT_ARGUMENTS[0], name);
    LineOfOne(POINT_ARGUMENTS[1], name);
    LineOfOne(ACTION_ARGUMENTS[0], name);
    assert ACTION_ARGUMENTS == [ACTION_ARGUMENTS[0]];
  }

  lemma PropertiesFit(arguments: seq<Argument>, name: string, v: Json)
    ensures MemberValidates(AddArgumentSchemas([], arguments), name, v)
            <==> match Line(arguments, name)
                 case Some(argument) => Fits(argument, v)
                 case None => false
  {
    assert Find([], name) == None;
    hide AddArgumentSchemas, Find, Fits, Line, Validate;
    PropertiesHold([], arguments, name);
    var line := Line(arguments, name);
    if line.Some? {
      ArgumentSchemaFits(line.value, v);
    }
  }

  /** A tool's compiled schema accepts exactly the arguments its table describes. */
  lemma PlainToolSchemaFits(tool: Tool, noVision: bool, args: Json)
    ensures Validate(args, PlainToolSchema(tool, noVision)) <==>
            MembersFit(TakenArguments(tool, noVision), tool.required, args)
  {
    hide AddArgumentSchemas, CString, Find, Fits, Line, NUL, TakenArguments, ToolObject, Validate;
    var arguments := TakenArguments(tool, noVision);
    ToolObjectValidated(args, AddArgumentSchemas([], arguments), tool.required);
    if args.Obj? {
      forall k | 0 <= k < |args.members|
        ensures (match Find(AddArgumentSchemas([], arguments), CString(args.members[k].0))
                 case Some(property) => Validate(args.members[k].1, property)
                 case None => false)
                <==> match Line(arguments, CString(args.members[k].0))
                     case Some(argument) => Fits(argument, args.members[k].1)
                     case None => false
      {
        PropertiesFit(arguments, CString(args.members[k].0), args.members[k].1);
      }
    }
  }
}
