/** The tool registry of the chat assistant (backend/controller/tools/tools.py):
    a fixed list of tool definitions, a fixed name-to-implementation map, two
    lookups by name, and a dispatcher. The implementations themselves are
    only named. */
module Tools {
  import opened Wrappers
  import opened Tables
  import Json

  /** One entry of a definition's `parameters.properties`: its name, its
      JSON type and its description. */
  datatype Property = Property(name: string, kind: string, description: string)

  /** A function-tool definition: its `type`, `name` and `description`, and
      the `type`, `properties`, `required` and `additionalProperties`
      entries of its `parameters`. */
  datatype ToolDef = ToolDef(
    kind: string,
    name: string,
    description: string,
    parametersKind: string,
    properties: seq<Property>,
    required: seq<string>,
    additionalProperties: bool)

  /** The implementations a tool name can lead to. */
  datatype Impl = WeatherTool | MeetingSummariesTool | WebSearchTool

  /** A dispatched call: the implementation and the keyword arguments it receives. */
  datatype Invocation = Invocation(impl: Impl, args: Json.JsonObject)

  const WeatherName: string := "get_weather"
  const MeetingSummariesName: string := "get_group_meeting_names_and_summaries"
  const WebSearchName: string := "web_search"

  const WeatherDef: ToolDef := ToolDef(
    "function", WeatherName, "Get current temperature for a given location.", "object",
    [Property("location", "string", "City and country e.g. Bogotá, Colombia")],
    ["location"], false)

  const MeetingSummariesDef: ToolDef := ToolDef(
    "function", MeetingSummariesName, "Get the names and summaries of all meetings for a given group.", "object",
    [Property("group_id", "string", "The ID of the group"),
     Property("from_date", "string", "The start date of the range to filter meetings in yyyy-mm-dd format"),
     Property("to_date", "string", "The end date of the range to filter meetings in yyyy-mm-dd format")],
    ["group_id"], false)

  /** `Tools().tools`, in definition order. */
  const Definitions: seq<ToolDef> := [WeatherDef, MeetingSummariesDef]

  /** `Tools().tools_map`. */
  const ToolsMap: map<string, Impl> := map[WeatherName := WeatherTool, MeetingSummariesName := MeetingSummariesTool]

  /** `get_tools_by_names`: the definitions whose name is requested, in definition order. */
  function GetToolsByNames(names: seq<string>): (r: seq<ToolDef>)
    ensures forall t :: t in r <==> t in Definitions && t.name in names
  {
    Filter(Definitions, (t: ToolDef) => t.name in names)
  }

  /** Whether `name in tools_map`. */
  predicate IsMapped(name: string)
  {
    name in ToolsMap
  }

  /** `get_function_tools_by_names`: the requested names that are in the map,
      kept in request order and with repeats, each replaced by its
      implementation. */
  function GetFunctionToolsByNames(names: seq<string>): (r: seq<Impl>)
    ensures |r| <= |names|
    ensures forall x :: x in r ==> x in ToolsMap.Values
    ensures |names| == 1 ==> r == if names[0] in ToolsMap then [ToolsMap[names[0]]] else []
  {
    if names == [] then []
    else (if names[0] in ToolsMap then [ToolsMap[names[0]]] else []) + GetFunctionToolsByNames(names[1..])
  }

  /** `call_tool`: only the weather and web-search names are dispatched;
      every other name raises ValueError. */
  function CallTool(name: string, args: Json.JsonObject): (r: Result<Invocation, string>)
    ensures r.Ok? <==> name == WeatherName || name == WebSearchName
    ensures name == WeatherName ==> r == Ok(Invocation(WeatherTool, args))
    ensures name == WebSearchName ==> r == Ok(Invocation(WebSearchTool, args))
    ensures r.Ok? ==> r.value.args == args
    ensures r.Err? ==> r.error == "Tool " + name + " not found"
  {
    if name == WeatherName then Ok(Invocation(WeatherTool, args))
    else if name == WebSearchName then Ok(Invocation(WebSearchTool, args))
    else Err("Tool " + name + " not found")
  }

  /** The definitions come out in definition order, each at most once,
      however often and in whatever order the names are requested. */
  lemma ToolsByNamesInDefinitionOrder(names: seq<string>)
    ensures GetToolsByNames(names)
            == (if WeatherName in names then [WeatherDef] else [])
               + (if MeetingSummariesName in names then [MeetingSummariesDef] else [])
  {
    assert Definitions[1..] == [MeetingSummariesDef];
    assert Definitions[1..][1..] == [];
  }

  /** Lookup distributes over concatenation of the requested names: the
      result follows request order. */
  lemma {:induction false} FunctionToolsConcat(a: seq<string>, b: seq<string>)
    ensures GetFunctionToolsByNames(a + b) == GetFunctionToolsByNames(a) + GetFunctionToolsByNames(b)
  {
    if a == [] {
      assert a + b == b;
    } else {
      assert (a + b)[1..] == a[1..] + b;
      FunctionToolsConcat(a[1..], b);
    }
  }

  /** `impls` is `known` with every name replaced by its implementation. */
  predicate LooksUp(known: seq<string>, impls: seq<Impl>)
  {
    |impls| == |known| && forall i :: 0 <= i < |known| ==> known[i] in ToolsMap && impls[i] == ToolsMap[known[i]]
  }

  /** One more mapped name in front gives its implementation in front. */
  lemma LooksUpCons(name: string, known: seq<string>, impls: seq<Impl>)
    requires name in ToolsMap && LooksUp(known, impls)
    ensures LooksUp([name] + known, [ToolsMap[name]] + impls)
  {
  }

  /** The lookup is the comprehension it models: the requested names that
      are in the map, in request order and with repeats, each replaced by
      its implementation. */
  lemma {:induction false} FunctionToolsAreMappedNames(names: seq<string>)
    ensures LooksUp(Filter(names, IsMapped), GetFunctionToolsByNames(names))
  {
    if names != [] {
      var rest := names[1..];
      FunctionToolsAreMappedNames(rest);
      if IsMapped(names[0]) {
        LooksUpCons(names[0], Filter(rest, IsMapped), GetFunctionToolsByNames(rest));
      }
    }
  }

  /** Wherever it occurs, an unknown name adds nothing. */
  lemma FunctionToolsSkipUnknown(before: seq<string>, after: seq<string>, unknown: string)
    requires unknown !in ToolsMap
    ensures GetFunctionToolsByNames(before + [unknown] + after)
            == GetFunctionToolsByNames(before) + GetFunctionToolsByNames(after)
  {
    FunctionToolsConcat(before + [unknown], after);
    FunctionToolsConcat(before, [unknown]);
  }

  /** Wherever it occurs, a known name requested twice adds its
      implementation twice. */
  lemma FunctionToolsKeepRepeats(before: seq<string>, after: seq<string>, known: string)
    requires known in ToolsMap
    ensures GetFunctionToolsByNames(before + [known, known] + after)
            == GetFunctionToolsByNames(before) + [ToolsMap[known], ToolsMap[known]] + GetFunctionToolsByNames(after)
  {
    var twice := [known, known];
    assert twice == [known] + [known];
    FunctionToolsConcat([known], [known]);
    FunctionToolsConcat(before + twice, after);
    FunctionToolsConcat(before, twice);
  }

  /** The definition names and the map's keys are the same two names. */
  lemma DefinitionsMatchMap()
    ensures (set t | t in Definitions :: t.name) == ToolsMap.Keys == {WeatherName, MeetingSummariesName}
  {
    assert WeatherDef in Definitions && MeetingSummariesDef in Definitions;
  }

  /** A registered, mapped tool that the dispatcher rejects, and a dispatched
      name that is neither defined nor mapped. */
  lemma DispatchGap(args: Json.JsonObject)
    ensures MeetingSummariesName in ToolsMap && CallTool(MeetingSummariesName, args).Err?
    ensures WebSearchName !in ToolsMap && CallTool(WebSearchName, args).Ok?
  {
  }
}
