/**
 * The decision logic of the LangGraph agent: whether a model response's tool
 * calls go to the backend tool node or end the turn, and the mock weather tool.
 */
module Agent {
  import opened Wrappers

  /** A Python dict with string keys, restricted to its string-valued entries. */
  type Dict = map<string, string>

  /** `d.get(key)`: the entry, or `None` when the key is missing. */
  function Get(d: Dict, key: string): Option<string>
  {
    if key in d then Some(d[key]) else None
  }

  /** A tool call as the model returns it: a dict, or an object with an optional `name` attribute. */
  datatype ToolCall = DictCall(fields: Dict) | ObjectCall(nameAttribute: Option<string>)

  /** The call's name: the dict's `name` entry or the object's `name` attribute, `None` when missing. */
  function CallName(c: ToolCall): (name: Option<string>)
    ensures c.DictCall? ==> (name == None <==> "name" !in c.fields)
    ensures c.DictCall? && name.Some? ==> name.value == c.fields["name"]
    ensures c.ObjectCall? ==> name == c.nameAttribute
  {
    match c
    case DictCall(fields) => Get(fields, "name")
    case ObjectCall(name) => name
  }

  /** `{tool.get("name") for tool in (fe_tools or [])}`: the names of the frontend tools (a nameless tool adds `None`). */
  function FrontendToolNames(feTools: Option<seq<Dict>>): (names: set<Option<string>>)
    ensures feTools == None ==> names == {}
    ensures feTools.Some? ==> forall i :: 0 <= i < |feTools.value| ==> Get(feTools.value[i], "name") in names
    ensures feTools.Some? ==> forall n :: n in names ==> exists i :: 0 <= i < |feTools.value| && Get(feTools.value[i], "name") == n
  {
    var tools := if feTools.Some? then feTools.value else [];
    set i | 0 <= i < |tools| :: Get(tools[i], "name")
  }

  /** A call that names a frontend action: CopilotKit runs it in the browser, not the backend. */
  predicate IsFrontendCall(c: ToolCall, feTools: Option<seq<Dict>>)
  {
    CallName(c) in FrontendToolNames(feTools)
  }

  /** `should_route_to_tool_node`: route to the backend tool node unless there are no calls or one names a frontend tool. */
  method ShouldRouteToToolNode(toolCalls: Option<seq<ToolCall>>, feTools: Option<seq<Dict>>) returns (route: bool)
    ensures toolCalls == None || toolCalls == Some([]) ==> !route
    ensures toolCalls.Some? && (exists i :: 0 <= i < |toolCalls.value| && IsFrontendCall(toolCalls.value[i], feTools)) ==> !route
    ensures route <==>
      && toolCalls.Some? && toolCalls.value != []
      && forall i :: 0 <= i < |toolCalls.value| ==> !IsFrontendCall(toolCalls.value[i], feTools)
  {
    if toolCalls == None || toolCalls.value == [] {
      return false;
    }
    var calls := toolCalls.value;
    var feNames := FrontendToolNames(feTools);
    var i := 0;
    while i < |calls|
      invariant 0 <= i <= |calls|
      invariant forall j :: 0 <= j < i ==> CallName(calls[j]) !in feNames
    {
      if CallName(calls[i]) in feNames {
        return false;
      }
      i := i + 1;
    }
    return true;
  }

  /** With no frontend tool list, every non-empty list of calls goes to the tool node. */
  lemma NoFrontendToolsRoutesAnyCalls(calls: seq<ToolCall>)
    ensures forall i :: 0 <= i < |calls| ==> !IsFrontendCall(calls[i], None)
    ensures forall i :: 0 <= i < |calls| ==> !IsFrontendCall(calls[i], Some([]))
  {
  }

  /** A call without a name matches a frontend tool without a name, so it is kept away from the tool node. */
  lemma NamelessCallMatchesNamelessTool(c: ToolCall, feTools: seq<Dict>, k: nat)
    requires CallName(c) == None
    requires k < |feTools| && "name" !in feTools[k]
    ensures IsFrontendCall(c, Some(feTools))
  {
    assert Get(feTools[k], "name") == None;
  }

  /** The graph node a command moves to: `"tool_node"` or `"__end__"`. */
  datatype Goto = ToolNode | End

  function GotoName(g: Goto): string
  {
    match g
    case ToolNode => "tool_node"
    case End => "__end__"
  }

  /** The model's response message; only its tool calls matter to routing. */
  datatype AIMessage = AIMessage(content: string, toolCalls: seq<ToolCall>)

  /** `Command(goto=..., update={"messages": response})`. */
  datatype Command = Command(goto: Goto, messages: AIMessage)

  /** The `copilotkit` entry of the state; `actions` is `None` when the key is missing. */
  datatype CopilotKitEntry = CopilotKitEntry(actions: Option<seq<Dict>>)

  /** The part of the agent state routing reads; `copilotkit` is `None` when the key is missing. */
  datatype AgentState = AgentState(copilotkit: Option<CopilotKitEntry>)

  /** `state.get("copilotkit", {}).get("actions", [])`. */
  function FrontendTools(state: AgentState): (tools: seq<Dict>)
    ensures state.copilotkit == None || state.copilotkit.value.actions == None ==> tools == []
    ensures state.copilotkit.Some? && state.copilotkit.value.actions.Some? ==> tools == state.copilotkit.value.actions.value
  {
    match state.copilotkit
    case None => []
    case Some(entry) => if entry.actions.Some? then entry.actions.value else []
  }

  /** The routing step at the end of `chat_node`, given the model's response. */
  method ChatNodeRoute(state: AgentState, response: AIMessage) returns (cmd: Command)
    ensures cmd.messages == response
    ensures GotoName(cmd.goto) == "tool_node" <==> cmd.goto == ToolNode
    ensures GotoName(cmd.goto) == "__end__" <==> cmd.goto == End
    ensures cmd.goto == ToolNode <==>
      && response.toolCalls != []
      && forall i :: 0 <= i < |response.toolCalls| ==> !IsFrontendCall(response.toolCalls[i], Some(FrontendTools(state)))
    ensures (state.copilotkit == None || state.copilotkit.value.actions == None) ==>
      (cmd.goto == ToolNode <==> response.toolCalls != [])
  {
    var feTools := FrontendTools(state);
    var route := false;
    if response.toolCalls != [] {
      route := ShouldRouteToToolNode(Some(response.toolCalls), Some(feTools));
    }
    if route {
      return Command(ToolNode, response);
    }
    return Command(End, response);
  }

  /** The mock weather table, in its declared order. */
  const WeatherData: seq<(string, string)> := [
    ("new york", "Sunny, 72\U{B0}F (22\U{B0}C)"),
    ("london", "Cloudy, 59\U{B0}F (15\U{B0}C)"),
    ("tokyo", "Rainy, 68\U{B0}F (20\U{B0}C)"),
    ("paris", "Partly cloudy, 65\U{B0}F (18\U{B0}C)"),
    ("sydney", "Clear, 77\U{B0}F (25\U{B0}C)")
  ]

  /** ASCII lower-casing of one character. */
  function LowerChar(c: char): (d: char)
    ensures 'A' <= c <= 'Z' ==> d as int == c as int + 32
    ensures !('A' <= c <= 'Z') ==> d == c
  {
    if 'A' <= c <= 'Z' then (c as int + 32) as char else c
  }

  /** `s.lower()` over ASCII letters. */
  function ToLower(s: string): (r: string)
    ensures |r| == |s|
    ensures forall i :: 0 <= i < |s| ==> r[i] == LowerChar(s[i])
  {
    seq(|s|, i requires 0 <= i < |s| => LowerChar(s[i]))
  }

  /** `needle` occurs in `hay` starting at position `i`. */
  predicate OccursAt(hay: string, needle: string, i: nat)
  {
    i + |needle| <= |hay| && hay[i..i + |needle|] == needle
  }

  /** Python's `needle in hay` on strings: `needle` occurs in `hay` at some position. */
  predicate Contains(hay: string, needle: string)
    ensures Contains(hay, needle) ==> |needle| <= |hay|
    ensures needle <= hay ==> Contains(hay, needle)
    ensures |needle| <= |hay| && needle == hay[|hay| - |needle|..] ==> Contains(hay, needle)
  {
    assert needle <= hay ==> OccursAt(hay, needle, 0);
    assert |needle| <= |hay| && needle == hay[|hay| - |needle|..] ==> OccursAt(hay, needle, |hay| - |needle|);
    exists i: nat :: i <= |hay| && OccursAt(hay, needle, i)
  }

  /** Entry `i` is the first entry of the table whose city occurs in `lower`. */
  ghost predicate FirstMatch(lower: string, i: int)
  {
    && 0 <= i < |WeatherData|
    && Contains(lower, WeatherData[i].0)
    && forall j :: 0 <= j < i ==> !Contains(lower, WeatherData[j].0)
  }

  function FoundReport(location: string, weather: string): string
  {
    "The weather in " + location + " is: " + weather
  }

  function MissingReport(location: string): string
  {
    "Weather data not available for " + location + ". Try: New York, London, Tokyo, Paris, or Sydney."
  }

  /** `get_weather`: the report for the first table city that occurs in the lower-cased location. */
  method GetWeather(location: string) returns (report: string)
    ensures forall i :: FirstMatch(ToLower(location), i) ==> report == FoundReport(location, WeatherData[i].1)
    ensures (forall i :: 0 <= i < |WeatherData| ==> !Contains(ToLower(location), WeatherData[i].0)) ==>
      report == MissingReport(location)
  {
    var lower := ToLower(location);
    var i := 0;
    while i < |WeatherData|
      invariant 0 <= i <= |WeatherData|
      invariant forall j :: 0 <= j < i ==> !Contains(lower, WeatherData[j].0)
    {
      var (city, weather) := WeatherData[i];
      if Contains(lower, city) {
        assert FirstMatch(lower, i);
        return FoundReport(location, weather);
      }
      i := i + 1;
    }
    return MissingReport(location);
  }

  /** A city with a letter that the location lacks cannot occur in it. */
  lemma AbsentLetterRulesOut(hay: string, needle: string, k: nat)
    requires k < |needle| && needle[k] !in hay
    ensures !Contains(hay, needle)
  {
    forall i: nat | i <= |hay| ensures !OccursAt(hay, needle, i) {
      if i + |needle| <= |hay| {
        assert hay[i..i + |needle|][k] == hay[i + k] && hay[i + k] in hay;
      }
    }
  }

  /** Lower-casing a literal one character at a time. */
  lemma LowerLiteral(s: string, expected: string)
    requires |s| == |expected|
    requires forall i :: 0 <= i < |s| ==> LowerChar(s[i]) == expected[i]
    ensures ToLower(s) == expected
  {
  }

  /** Table order, not position in the text, decides: "Sydney, Paris" gets the Paris report. */
  lemma TableOrderDecides()
    ensures FirstMatch(ToLower("Sydney, Paris"), 3)
  {
    LowerLiteral("Sydney, Paris", "sydney, paris");
    var lower := ToLower("Sydney, Paris");
    assert OccursAt(lower, "paris", 8);
    // "new york", "london" and "tokyo" all need an 'o'
    AbsentLetterRulesOut(lower, WeatherData[0].0, 5);
    AbsentLetterRulesOut(lower, WeatherData[1].0, 1);
    AbsentLetterRulesOut(lower, WeatherData[2].0, 1);
  }

  /** "Berlin" names no table city, so it gets the not-available report. */
  lemma NoCityInBerlin()
    ensures forall i :: 0 <= i < |WeatherData| ==> !Contains(ToLower("Berlin"), WeatherData[i].0)
  {
    LowerLiteral("Berlin", "berlin");
    var lower := ToLower("Berlin");
    AbsentLetterRulesOut(lower, WeatherData[0].0, 2);  // 'w'
    AbsentLetterRulesOut(lower, WeatherData[1].0, 1);  // 'o'
    AbsentLetterRulesOut(lower, WeatherData[2].0, 0);  // 't'
    AbsentLetterRulesOut(lower, WeatherData[3].0, 0);  // 'p'
    AbsentLetterRulesOut(lower, WeatherData[4].0, 0);  // 's'
  }

  /** At most one entry is the first match, so the report is determined by the location. */
  lemma FirstMatchUnique(lower: string, i: int, j: int)
    requires FirstMatch(lower, i) && FirstMatch(lower, j)
    ensures i == j
  {
  }
}
