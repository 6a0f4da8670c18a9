/** native/scu_mcp.h: the loops that compile the tables, proved against the functions of ToolSchema. */
module ToolCompiler {
  import opened Text
  import opened Json
  import opened ToolSchema

  /** add_argument_schemas */
  method AddArguments(properties: seq<(string, Json)>, arguments: seq<Argument>) returns (all: seq<(string, Json)>)
    ensures all == AddArgumentSchemas(properties, arguments)
  {
    hide Put, ArgumentSchema;
    all := properties;
    var k := 0;
    while k < |arguments|
      invariant 0 <= k <= |arguments|
      invariant AddArgumentSchemas(all, arguments[k..]) == AddArgumentSchemas(properties, arguments)
    {
      assert arguments[k..][1..] == arguments[k + 1..];
      all := Put(all, arguments[k].name, ArgumentSchema(arguments[k]));
      k := k + 1;
    }
  }

  /** The two loops that put the required properties first. */
  method OrderProperties(properties: seq<(string, Json)>, required: seq<string>) returns (ordered: seq<(string, Json)>)
    ensures ordered == OrderRest(OrderRequired([], properties, required), properties)
  {
    hide Put, Find;
    ordered := [];
    var k := 0;
    while k < |required|
      invariant 0 <= k <= |required|
      invariant OrderRequired(ordered, properties, required[k..]) == OrderRequired([], properties, required)
    {
      assert required[k..][1..] == required[k + 1..];
      var property := Find(properties, required[k]);
      if property.Some? {
        ordered := Put(ordered, required[k], property.value);
      }
      k := k + 1;
    }
    ghost var first := ordered;
    k := 0;
    while k < |properties|
      invariant 0 <= k <= |properties|
      invariant OrderRest(ordered, properties[k..]) == OrderRest(first, properties)
    {
      assert properties[k..][1..] == properties[k + 1..];
      var (key, property) := properties[k];
      if Find(ordered, key).None? {
        ordered := Put(ordered, key, property);
      }
      k := k + 1;
    }
  }

  /** find_action */
  method SelectAction(actions: seq<Tool>, batch: Batch, name: string) returns (selected: Option<Tool>)
    ensures selected == FindAction(actions, batch, name)
  {
    var index := 0;
    while index < |actions|
      invariant 0 <= index <= |actions|
      invariant FindAction(actions[index..], batch, name) == FindAction(actions, batch, name)
    {
      assert actions[index..][1..] == actions[index + 1..];
      var action := actions[index];
      if batch in action.modes && action.name == name {
        if batch == Accessibility && action.targeted.Some? {
          action := action.(withElement := true, required := action.targeted.value);
        }
        return Some(action);
      }
      index := index + 1;
    }
    return None;
  }

  /** The loop in build_tool_schema that lists a step's alternatives. */
  method ListAlternatives(actions: seq<Tool>, batch: Batch, noVision: bool) returns (alternatives: seq<Json>)
    ensures alternatives == Alternatives(actions, batch, noVision, |actions|)
  {
    hide FindAction, PlainToolSchema, StepSchema, Steps;
    alternatives := [];
    var index := 0;
    while index < |actions|
      invariant 0 <= index <= |actions|
      invariant alternatives == Alternatives(actions, batch, noVision, index)
    {
      var variant := SelectAction(actions, batch, actions[index].name);
      if variant.Some? {
        alternatives := alternatives + [StepSchema(variant.value.name, PlainToolSchema(variant.value, noVision))];
      }
      index := index + 1;
    }
  }
}
