// Routing of an AI message's calls, and replies to them.
module Routing {
  import opened Messages
  import opened History
  import opened Seqs

  // ---------------------------------------------------------------------------
  // Tool names
  // ---------------------------------------------------------------------------

  // tool_provider_map and _executable_tools.
  datatype Registry = Registry(providerOf: map<string, string>, executables: set<string>) {
    predicate IsFixed(name: string) { name in providerOf || name in executables }
    predicate HasProvider(name: string, p: string) { name in providerOf && providerOf[name] == p }
  }

  // ---------------------------------------------------------------------------
  // _route_after_agent
  // ---------------------------------------------------------------------------

  datatype Kind = FixedCall | McpCall | OfProvider(provider: string)

  predicate IsKind(c: Call, reg: Registry, kind: Kind) {
    match kind
    case FixedCall => reg.IsFixed(c.name)
    case McpCall => !reg.IsFixed(c.name)
    case OfProvider(p) => reg.HasProvider(c.name, p)
  }

  function Select(calls: seq<Call>, reg: Registry, kind: Kind): seq<Call> {
    if calls == [] then []
    else if IsKind(calls[|calls| - 1], reg, kind)
      then Select(calls[..|calls| - 1], reg, kind) + [calls[|calls| - 1]]
      else Select(calls[..|calls| - 1], reg, kind)
  }

  datatype Route = End | Sends(fixed: seq<Call>, mcp: seq<Call>)

  method RouteAfterAgent(last: Message, reg: Registry) returns (route: Route)
    ensures !last.AI? || last.calls == [] ==> route == End
    ensures last.AI? && last.calls != [] ==>
              route == Sends(Select(last.calls, reg, FixedCall), Select(last.calls, reg, McpCall))
    ensures route.Sends? ==>
              && (forall c :: c in route.fixed <==>
                    c in last.calls && (c.name in reg.providerOf || c.name in reg.executables))
              && (forall c :: c in route.mcp <==>
                    c in last.calls && c.name !in reg.providerOf && c.name !in reg.executables)
  {
    if !last.AI? || last.calls == [] { return End; }
    var calls := last.calls;
    var fixed, mcp := [], [];
    for i := 0 to |calls|
      invariant fixed == Select(calls[..i], reg, FixedCall)
      invariant mcp == Select(calls[..i], reg, McpCall)
    {
      assert calls[..i + 1][..i] == calls[..i];
      if calls[i].name in reg.providerOf || calls[i].name in reg.executables {
        fixed := fixed + [calls[i]];
      } else {
        mcp := mcp + [calls[i]];
      }
    }
    assert calls[..|calls|] == calls;
    SelectSplits(calls, reg);
    SelectIsSubsequence(calls, reg, FixedCall);
    SelectIsSubsequence(calls, reg, McpCall);
    if fixed == [] && mcp == [] { return End; }
    route := Sends(fixed, mcp);
  }

  predicate Subsequence(a: seq<Call>, b: seq<Call>) {
    || a == []
    || (b != [] && a[|a| - 1] == b[|b| - 1] && Subsequence(a[..|a| - 1], b[..|b| - 1]))
    || (b != [] && Subsequence(a, b[..|b| - 1]))
  }

  // Routing loses no call and repeats none.
  lemma {:induction false} SelectSplits(calls: seq<Call>, reg: Registry)
    ensures multiset(Select(calls, reg, FixedCall)) + multiset(Select(calls, reg, McpCall))
            == multiset(calls)
    ensures |Select(calls, reg, FixedCall)| + |Select(calls, reg, McpCall)| == |calls|
  {
    if calls != [] {
      var front, c := calls[..|calls| - 1], calls[|calls| - 1];
      SelectSplits(front, reg);
      GrowPart(Select(front, reg, FixedCall), Select(front, reg, McpCall), front, c);
      assert calls == front + [c];
    }
  }

  ghost predicate IdsBalanced(a: seq<Call>, b: seq<Call>, whole: seq<Call>) {
    multiset(CallIdSeq(a)) + multiset(CallIdSeq(b)) == multiset(CallIdSeq(whole))
  }

  lemma CallIdSnoc(a: seq<Call>, c: Call)
    ensures CallIdSeq(a + [c]) == CallIdSeq(a) + [c.id]
  {
    assert (a + [c])[..|a|] == a;
  }

  lemma SelectStepIds(calls: seq<Call>, reg: Registry)
    requires calls != []
    requires IdsBalanced(Select(calls[..|calls| - 1], reg, FixedCall), Select(calls[..|calls| - 1], reg, McpCall),
                         calls[..|calls| - 1])
    ensures IdsBalanced(Select(calls, reg, FixedCall), Select(calls, reg, McpCall), calls)
  {
    var front, c := calls[..|calls| - 1], calls[|calls| - 1];
    var a, b := Select(front, reg, FixedCall), Select(front, reg, McpCall);
    CallIdSnoc(a, c);
    CallIdSnoc(b, c);
    GrowPart(CallIdSeq(a), CallIdSeq(b), CallIdSeq(front), c.id);
  }

  // Each id is called in the parts as often as in the whole.
  lemma {:induction false} SelectSplitsIds(calls: seq<Call>, reg: Registry)
    ensures IdsBalanced(Select(calls, reg, FixedCall), Select(calls, reg, McpCall), calls)
  {
    if calls != [] {
      SelectSplitsIds(calls[..|calls| - 1], reg);
      SelectStepIds(calls, reg);
    }
  }

  // A selection keeps the order of the calls and holds exactly those of its kind.
  lemma {:induction false} SelectIsSubsequence(calls: seq<Call>, reg: Registry, kind: Kind)
    ensures Subsequence(Select(calls, reg, kind), calls)
    ensures forall c :: c in Select(calls, reg, kind) <==> c in calls && IsKind(c, reg, kind)
  {
    if calls != [] {
      var n := |calls| - 1;
      SelectIsSubsequence(calls[..n], reg, kind);
      assert calls == calls[..n] + [calls[n]];
      var a := Select(calls[..n], reg, kind);
      if IsKind(calls[n], reg, kind) {
        assert (a + [calls[n]])[..|a|] == a;
      }
    }
  }

  lemma {:induction false} SelectNone(calls: seq<Call>, reg: Registry, kind: Kind)
    requires forall c :: c in calls ==> !IsKind(c, reg, kind)
    ensures Select(calls, reg, kind) == []
  {
    if calls != [] { SelectNone(calls[..|calls| - 1], reg, kind); }
  }

  // ---------------------------------------------------------------------------
  // Replies
  // ---------------------------------------------------------------------------

  // A response to one call, with the given text.
  predicate IsReply(c: Call, text: string, m: Message) {
    m.Tool? && m.answers == c.id && m.content == Text(text)
  }

  // The response a node builds for a call.
  function ResponseTo(c: Call, text: string): (m: Message)
    ensures IsReply(c, text, m)
  {
    Tool("", Text(text), c.id)
  }

  // One response per call, in call order.
  predicate AnswersEach(calls: seq<Call>, ms: seq<Message>) {
    && |ms| == |calls|
    && forall i :: 0 <= i < |calls| ==> ms[i].Tool? && ms[i].answers == calls[i].id
  }

  // ... and with the given texts.
  ghost predicate RepliesTo(calls: seq<Call>, text: nat -> string, ms: seq<Message>) {
    && AnswersEach(calls, ms)
    && forall i :: 0 <= i < |calls| ==> ms[i].content == Text(text(i))
  }

  // The comprehension that gives every listed call the same answer.
  function ReplyAll(calls: seq<Call>, text: string): (ms: seq<Message>)
    ensures AnswersEach(calls, ms)
    ensures forall m :: m in ms ==> m.content == Text(text)
  {
    seq(|calls|, i requires 0 <= i < |calls| => ResponseTo(calls[i], text))
  }

  lemma {:induction false} AnswersEachIds(calls: seq<Call>, ms: seq<Message>)
    requires AnswersEach(calls, ms)
    ensures AnswerIds(ms) == CallIdSeq(calls)
    ensures forall m :: m in ms ==> m.Tool?
  {
    if calls != [] {
      var n := |calls| - 1;
      AnswersEachIds(calls[..n], ms[..n]);
      assert ms[n].answers == calls[n].id;
    }
  }
}
