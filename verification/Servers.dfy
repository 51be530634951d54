// Which MCP server owns a tool: the three copies of the longest-prefix loop.
module Servers {
  import opened StableSort

  predicate StartsWith(s: string, prefix: string) { prefix <= s }

  function Length(s: string): real { |s| as real }

  predicate Owns(server: string, tool: string) {
    StartsWith(tool, server + "_")
  }

  datatype Match = NoMatch | Found(server: string)

  // The owner is the longest configured name followed by an underscore.
  predicate IsOwner(m: Match, tool: string, servers: set<string>) {
    match m
    case NoMatch => forall s :: s in servers ==> !Owns(s, tool)
    case Found(s) => s in servers && Owns(s, tool) &&
                     forall t :: t in servers && Owns(t, tool) ==> |t| < |s| || t == s
  }

  lemma OwnerUnique(a: Match, b: Match, tool: string, servers: set<string>)
    requires IsOwner(a, tool, servers) && IsOwner(b, tool, servers)
    ensures a == b
  {
  }

  lemma OwnersOfOneLength(s: string, t: string, tool: string)
    requires Owns(s, tool) && Owns(t, tool) && |s| == |t|
    ensures s == t
  {
    assert s == (s + "_")[..|s|] == tool[..|s|];
    assert t == (t + "_")[..|t|] == tool[..|t|];
  }

  function Names(names: seq<string>): set<string> { set n | n in names }

  // The owner, computed in list order without sorting.
  function OwnerOf(tool: string, names: seq<string>): Match {
    if names == [] then NoMatch
    else
      var n, rest := names[0], OwnerOf(tool, names[1..]);
      if Owns(n, tool) && (rest.NoMatch? || |rest.server| < |n|) then Found(n) else rest
  }

  lemma {:induction false} OwnerOfOwns(tool: string, names: seq<string>)
    ensures IsOwner(OwnerOf(tool, names), tool, Names(names))
  {
    if names != [] {
      var n, rest := names[0], OwnerOf(tool, names[1..]);
      OwnerOfOwns(tool, names[1..]);
      assert Names(names) == {n} + Names(names[1..]);
      if Owns(n, tool) && rest.Found? && |n| == |rest.server| { OwnersOfOneLength(n, rest.server, tool); }
    }
  }

  // Neither list order nor repetition matters.
  lemma OwnerIgnoresOrder(tool: string, a: seq<string>, b: seq<string>)
    requires Names(a) == Names(b)
    ensures OwnerOf(tool, a) == OwnerOf(tool, b)
  {
    OwnerOfOwns(tool, a);
    OwnerOfOwns(tool, b);
    OwnerUnique(OwnerOf(tool, a), OwnerOf(tool, b), tool, Names(a));
  }

  // The shared loop over the names sorted by decreasing length.
  method FirstOwner(tool: string, names: seq<string>) returns (m: Match)
    ensures m == OwnerOf(tool, names)
  {
    var sorted := Sort(names, Length);
    SortedNames(names);
    for i := 0 to |sorted|
      invariant forall j :: 0 <= j < i ==> !Owns(sorted[j], tool)
    {
      var s := sorted[i];
      OneUnderscore(tool, s);
      if StartsWith(tool, s + "_") || StartsWith(tool, s + "__") {
        FirstIsOwner(tool, sorted, i);
        IsTheOwner(tool, names, Found(s));
        return Found(s);
      }
    }
    IsTheOwner(tool, names, NoMatch);
    m := NoMatch;
  }

  lemma SortedNames(names: seq<string>)
    ensures Descending(Sort(names, Length), Length) && Names(Sort(names, Length)) == Names(names)
  {
    SortIsStable(names, Length);
    SortMember(names, Length);
  }

  lemma OneUnderscore(tool: string, s: string)
    ensures StartsWith(tool, s + "__") ==> StartsWith(tool, s + "_")
  {
    assert (s + "__")[..|s| + 1] == s + "_";
  }

  lemma IsTheOwner(tool: string, names: seq<string>, m: Match)
    requires IsOwner(m, tool, Names(names))
    ensures m == OwnerOf(tool, names)
  {
    OwnerOfOwns(tool, names);
    OwnerUnique(m, OwnerOf(tool, names), tool, Names(names));
  }

  lemma FirstIsOwner(tool: string, sorted: seq<string>, i: nat)
    requires i < |sorted| && Descending(sorted, Length) && Owns(sorted[i], tool)
    requires forall j :: 0 <= j < i ==> !Owns(sorted[j], tool)
    ensures IsOwner(Found(sorted[i]), tool, Names(sorted))
  {
    var s := sorted[i];
    forall t | t in Names(sorted) && Owns(t, tool) ensures |t| < |s| || t == s {
      var j :| 0 <= j < |sorted| && sorted[j] == t;
      if j > i { assert Length(s) >= Length(t); }
      if |t| == |s| { OwnersOfOneLength(s, t, tool); }
    }
  }

  // services/tool_retriever.py falls back to "user_mcp".
  function ServerOrUserMcp(tool: string, names: seq<string>): string {
    match OwnerOf(tool, names) case Found(s) => s case NoMatch => "user_mcp"
  }

  // p is the longest server whose name, with an underscore, starts the tool's; or no server is.
  predicate OwnedBy(tool: string, servers: seq<string>, p: string) {
    || (p in servers && p + "_" <= tool &&
        forall s :: s in servers && s + "_" <= tool ==> |s| < |p| || s == p)
    || (p == "user_mcp" && forall s :: s in servers ==> !(s + "_" <= tool))
  }

  lemma OwnedByIff(tool: string, servers: seq<string>, p: string)
    ensures OwnedBy(tool, servers, p) <==> p == ServerOrUserMcp(tool, servers)
  {
    var m := OwnerOf(tool, servers);
    OwnerOfOwns(tool, servers);
    assert forall s :: s in Names(servers) <==> s in servers;
    assert forall s :: Owns(s, tool) <==> s + "_" <= tool;
    if OwnedBy(tool, servers, p) {
      if p in servers && p + "_" <= tool {
        OwnerUnique(m, Found(p), tool, Names(servers));
      } else {
        OwnerUnique(m, NoMatch, tool, Names(servers));
      }
    }
  }

  method ResolveMcpServerName(tool: string, names: seq<string>) returns (server: string)
    ensures server == ServerOrUserMcp(tool, names)
  {
    var m := FirstOwner(tool, names);
    server := match m case Found(s) => s case NoMatch => "user_mcp";
  }

  // tool_name.split("_", 1)[0]
  function BeforeUnderscore(tool: string): (p: string)
    ensures p <= tool && '_' !in p
    ensures |p| < |tool| ==> tool[|p|] == '_'
  {
    if tool == [] || tool[0] == '_' then [] else [tool[0]] + BeforeUnderscore(tool[1..])
  }

  // agent_node in orchestrators/graph.py. An empty server name is falsy, and the
  // fallback then happens to give the same empty name.
  method MatchInAgentNode(tool: string, names: seq<string>) returns (server: string)
    ensures OwnerOf(tool, names).Found? ==> Found(server) == OwnerOf(tool, names)
    ensures OwnerOf(tool, names).NoMatch? ==>
              server == if '_' in tool then BeforeUnderscore(tool) else "mcp"
  {
    var m := FirstOwner(tool, names);
    OwnerOfOwns(tool, names);
    server := match m case Found(s) => s case NoMatch => "";
    if server == "" {
      if m.Found? {
        assert tool[0] == '_' by { assert "" + "_" == "_"; }
        assert BeforeUnderscore(tool) == "";
      }
      server := if '_' in tool then BeforeUnderscore(tool) else "mcp";
    }
  }

  // The servers that own some tool of the list.
  function Requested(tools: seq<string>, names: seq<string>): set<string> {
    if tools == [] then {}
    else
      Requested(tools[..|tools| - 1], names) +
      match OwnerOf(tools[|tools| - 1], names) case Found(s) => {s} case NoMatch => {}
  }

  lemma {:induction false} RequestedMember(tools: seq<string>, names: seq<string>, s: string)
    ensures s in Requested(tools, names) <==> exists t :: t in tools && OwnerOf(t, names) == Found(s)
  {
    if tools != [] {
      var n := |tools| - 1;
      RequestedMember(tools[..n], names, s);
      assert tools == tools[..n] + [tools[n]];
      assert tools[n] in tools;
      if t :| t in tools && OwnerOf(t, names) == Found(s) {
        assert t == tools[n] || t in tools[..n];
      }
    }
  }

  // protocols/mcp/user_mcp_tool_node.py: one owner per call, collected.
  method RequestedServers(tools: seq<string>, names: seq<string>) returns (requested: set<string>)
    ensures requested == Requested(tools, names)
  {
    requested := {};
    for i := 0 to |tools|
      invariant requested == Requested(tools[..i], names)
    {
      assert tools[..i + 1][..i] == tools[..i];
      var m := FirstOwner(tools[i], names);
      if m.Found? { requested := requested + {m.server}; }
    }
    assert tools[..|tools|] == tools;
  }
}
