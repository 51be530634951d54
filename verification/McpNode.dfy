// mcp_tool_node: execute the calls that belong to the user's own MCP servers.
module McpNode {
  import opened Prelude
  import opened Messages
  import opened Routing
  import opened Servers

  // A configured server; the url may be missing.
  datatype Server = Server(url: Option<string>)

  datatype McpRun = McpOutput(text: string) | McpFails(error: string) | McpTimeout

  datatype Session = Connects(tools: set<string>) | TimesOut | Refuses(error: string)

  // KeyError escapes the node: the url is read before the try block.
  datatype McpOutcome = Replies(messages: seq<Message>) | KeyError

  const TIMED_OUT := "MCP tool execution timed out after 30s."

  function ToolNames(calls: seq<Call>): seq<string> {
    seq(|calls|, i requires 0 <= i < |calls| => calls[i].name)
  }

  function McpText(calls: seq<Call>, tools: set<string>, run: nat -> McpRun, i: nat): string {
    if i >= |calls| then ""
    else if calls[i].name !in tools then
      "Tool '" + calls[i].name + "' not found on connected remote MCP servers."
    else
      match run(i)
      case McpOutput(text) => text
      case McpFails(e) => "Tool '" + calls[i].name + "' execution failed: " + e
      case McpTimeout => ""
  }

  // The text of a reply: the output of the tool itself, or what went wrong.
  predicate ReplyText(c: Call, tools: set<string>, run: McpRun, text: string) {
    if c.name in tools then
      match run
      case McpOutput(output) => text == output
      case McpFails(error) => text == "Tool '" + c.name + "' execution failed: " + error
      case McpTimeout => false
    else text == "Tool '" + c.name + "' not found on connected remote MCP servers."
  }

  predicate TimesOutDuring(calls: seq<Call>, tools: set<string>, run: nat -> McpRun) {
    exists i: nat :: i < |calls| && calls[i].name in tools && run(i).McpTimeout?
  }

  // One call of a connected session; None when the time is up.
  method RunOne(calls: seq<Call>, tools: set<string>, run: nat -> McpRun, i: nat) returns (output: Option<string>)
    requires i < |calls|
    ensures output.None? <==> calls[i].name in tools && run(i).McpTimeout?
    ensures output.Some? ==> output.value == McpText(calls, tools, run, i)
  {
    var name := calls[i].name;
    if name !in tools {
      return Some("Tool '" + name + "' not found on connected remote MCP servers.");
    }
    match run(i) {
      case McpOutput(text) => output := Some(text);
      case McpFails(e) => output := Some("Tool '" + name + "' execution failed: " + e);
      case McpTimeout => output := None;
    }
  }

  // One connected session; a timeout part-way discards what was gathered.
  method RunSession(calls: seq<Call>, tools: set<string>, run: nat -> McpRun) returns (ms: seq<Message>)
    ensures AnswersEach(calls, ms)
    ensures TimesOutDuring(calls, tools, run) ==> ms == ReplyAll(calls, TIMED_OUT)
    ensures !TimesOutDuring(calls, tools, run) ==>
              forall i :: 0 <= i < |calls| ==>
                ms[i].content.Text? && ReplyText(calls[i], tools, run(i), ms[i].content.text)
  {
    ms := [];
    for i := 0 to |calls|
      invariant |ms| == i
      invariant forall j: nat :: j < i ==> !(calls[j].name in tools && run(j).McpTimeout?)
      invariant forall j :: 0 <= j < i ==> IsReply(calls[j], McpText(calls, tools, run, j), ms[j])
    {
      var output := RunOne(calls, tools, run, i);
      if output.None? { return ReplyAll(calls, TIMED_OUT); }
      ms := ms + [ResponseTo(calls[i], output.value)];
    }
    forall j | 0 <= j < |calls|
      ensures ms[j].content.Text? && ReplyText(calls[j], tools, run(j), ms[j].content.text)
    {
      assert IsReply(calls[j], McpText(calls, tools, run, j), ms[j]);
    }
  }

  predicate MissingUrl(calls: seq<Call>, names: seq<string>, config: map<string, Server>)
    requires Names(names) == config.Keys
  {
    exists n :: n in Requested(ToolNames(calls), names) && n in config && config[n].url.None?
  }

  // By every exit that returns, each call is answered exactly once, in call order;
  // the node fails exactly when a server it needs has no url.
  method McpToolNode(calls: seq<Call>, config: map<string, Server>, names: seq<string>,
                     session: Session, run: nat -> McpRun)
    returns (o: McpOutcome)
    requires Names(names) == config.Keys
    ensures o.KeyError? <==> MissingUrl(calls, names, config)
    ensures o.Replies? ==> AnswersEach(calls, o.messages)
    ensures o.Replies? ==>
              var none := Requested(ToolNames(calls), names) == {};
              if config == map[] then
                o.messages == ReplyAll(calls, "No MCP servers configured. Add servers in Settings.")
              else if none then
                o.messages == ReplyAll(calls, "Could not identify which MCP server owns the tool.")
              else if session.TimesOut? || (session.Connects? && TimesOutDuring(calls, session.tools, run)) then
                o.messages == ReplyAll(calls, "MCP tool execution timed out after 30s.")
              else if session.Refuses? then
                o.messages == ReplyAll(calls, "MCP tool execution failed: " + session.error)
              else
                forall i :: 0 <= i < |calls| ==>
                  o.messages[i].content.Text? &&
                  ReplyText(calls[i], session.tools, run(i), o.messages[i].content.text)
  {
    if calls == [] {
      return Replies([]);
    }
    var requested := RequestedServers(ToolNames(calls), names);
    RequestedAreNamed(ToolNames(calls), names);
    if |config| == 0 {
      return Replies(ReplyAll(calls, "No MCP servers configured. Add servers in Settings."));
    }
    if requested == {} {
      return Replies(ReplyAll(calls, "Could not identify which MCP server owns the tool."));
    }
    if exists n :: n in requested && n in config && config[n].url.None? {
      return KeyError;
    }
    match session {
      case TimesOut => return Replies(ReplyAll(calls, TIMED_OUT));
      case Refuses(e) => return Replies(ReplyAll(calls, "MCP tool execution failed: " + e));
      case Connects(tools) =>
        var ms := RunSession(calls, tools, run);
        return Replies(ms);
    }
  }

  lemma {:induction false} RequestedAreNamed(tools: seq<string>, names: seq<string>)
    ensures Requested(tools, names) <= Names(names)
  {
    if tools != [] {
      RequestedAreNamed(tools[..|tools| - 1], names);
      OwnerOfOwns(tools[|tools| - 1], names);
    }
  }

  // A server without a url is reached by one call of a tool it owns.
  lemma MissingUrlReached()
    ensures MissingUrl([Call("1", "s_go")], ["s"], map["s" := Server(None)])
  {
    var tools := ToolNames([Call("1", "s_go")]);
    assert "s" + "_" == "s_go"[..2];
    assert "s" in Names(["s"]) && Owns("s", "s_go");
    assert OwnerOf("s_go", ["s"]) == Found("s");
    assert tools[0] in tools;
    RequestedMember(tools, ["s"], "s");
  }
}
