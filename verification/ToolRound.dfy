// A whole tool round: both nodes' answers merged into the history.
module ToolRound {
  import opened Messages
  import opened Sanitizer
  import opened Seqs
  import opened History
  import opened Routing
  import opened ToolNode

  lemma {:induction false} AnswerIdsAppend(a: seq<Message>, b: seq<Message>)
    ensures AnswerIds(a + b) == AnswerIds(a) + AnswerIds(b)
    decreases |b|
  {
    if b == [] {
      assert a + b == a;
    } else {
      FrontOfAppend(a, b);
      AnswerIdsAppend(a, b[..|b| - 1]);
    }
  }

  // When both nodes answer all they were sent, the merged round is complete,
  // in whichever order the answers arrive.
  lemma MergedRoundComplete(ai: Message, reg: Registry, fixed: seq<Message>, mcp: seq<Message>)
    requires ai.AI? && "" !in IdsOf(ai.calls)
    requires AnswersEach(Select(ai.calls, reg, FixedCall), fixed)
    requires AnswersEach(Select(ai.calls, reg, McpCall), mcp)
    ensures CompleteRound(ai, fixed + mcp) && CompleteRound(ai, mcp + fixed)
  {
    var fs, ms := Select(ai.calls, reg, FixedCall), Select(ai.calls, reg, McpCall);
    AnswersEachIds(fs, fixed);
    AnswersEachIds(ms, mcp);
    AnswerIdsAppend(fixed, mcp);
    AnswerIdsAppend(mcp, fixed);
    SelectSplitsIds(ai.calls, reg);
    SelectIsSubsequence(ai.calls, reg, FixedCall);
    SelectIsSubsequence(ai.calls, reg, McpCall);
    Responses(fs, fixed);
    Responses(ms, mcp);
  }

  // The round that both nodes finish leaves the AI message and every response in
  // the next view, unchanged.
  lemma FinishedRoundIsSeen(h: seq<Message>, ai: Message, reg: Registry, fixed: seq<Message>, mcp: seq<Message>)
    requires ai.AI? && "" !in IdsOf(ai.calls) && CallIds(ai) == IdsOf(ai.calls)
    requires AnswersEach(Select(ai.calls, reg, FixedCall), fixed)
    requires AnswersEach(Select(ai.calls, reg, McpCall), mcp)
    ensures exists view :: Sanitize(h + ([ai] + (fixed + mcp))) == view + ([ai] + (fixed + mcp))
  {
    MergedRoundComplete(ai, reg, fixed, mcp);
    RoundSurvivesSanitize(h, ai, fixed + mcp);
  }

  lemma Responses(calls: seq<Call>, ms: seq<Message>)
    requires AnswersEach(calls, ms) && "" !in IdsOf(calls)
    ensures Responded(ms) == IdsOf(calls)
    ensures forall m :: m in ms ==> Answers(m)
  {
    forall c | c in calls ensures c.id in Responded(ms) {
      var i :| 0 <= i < |calls| && calls[i] == c;
      assert ms[i] in ms && calls[i].id in IdsOf(calls);
    }
    forall m | m in ms ensures Answers(m) && m.answers in IdsOf(calls) {
      var i :| 0 <= i < |ms| && ms[i] == m;
      assert calls[i] in calls;
    }
  }

  lemma PendingUnanswered(h: seq<Message>, ai: Message)
    requires h != [] && h[|h| - 1] == ai && FreshCalls(h[..|h| - 1], ai)
    ensures CallIds(ai) !! Responded(Turn(h))
  {
    assert h == h[..|h| - 1] + [ai];
    RespondedAppend(h[..|h| - 1], [ai]);
    OneMessage(ai);
    forall c | c in Responded(Turn(h)) ensures c in Responded(h) {
      var m :| m in Turn(h) && Answers(m) && m.answers == c;
      assert m in h;
    }
  }

  predicate DistinctCalls(calls: seq<Call>) {
    forall i, j :: 0 <= i < j < |calls| ==> calls[i].id != calls[j].id
  }

  // Which ids the calls of one provider and the MCP calls cover together.
  lemma PartCovers(calls: seq<Call>, reg: Registry, p: string)
    requires DistinctCalls(calls)
    ensures IdsOf(ProviderCalls(calls, reg, p)) + IdsOf(Select(calls, reg, McpCall)) <= IdsOf(calls)
    ensures IdsOf(ProviderCalls(calls, reg, p)) + IdsOf(Select(calls, reg, McpCall)) == IdsOf(calls)
            <==> forall c :: c in calls && reg.IsFixed(c.name) ==> reg.HasProvider(c.name, p)
  {
    var ps, ms := ProviderCalls(calls, reg, p), Select(calls, reg, McpCall);
    SelectIsSubsequence(calls, reg, OfProvider(p));
    SelectIsSubsequence(calls, reg, McpCall);
    if IdsOf(ps) + IdsOf(ms) == IdsOf(calls) {
      forall c | c in calls && reg.IsFixed(c.name) ensures reg.HasProvider(c.name, p) {
        assert c.id in IdsOf(calls);
        var d :| (d in ps || d in ms) && d.id == c.id;
        assert d == c;
      }
    }
    if forall c :: c in calls && reg.IsFixed(c.name) ==> reg.HasProvider(c.name, p) {
      forall c | c in calls ensures c in ps || c in ms {}
    }
  }

  // An exit that answers the calls of one provider only, with the other node's
  // answers merged in, is harmless exactly when no other fixed call was pending.
  lemma {:induction false} PartialExitClosedIff(h: seq<Message>, ai: Message, reg: Registry, p: string,
                             fixed: seq<Message>, mcp: seq<Message>)
    requires SoundTurn(Turn(h)) && h != [] && h[|h| - 1] == ai && FreshCalls(h[..|h| - 1], ai)
    requires DistinctCalls(ai.calls)
    requires AnswersEach(ProviderCalls(ai.calls, reg, p), fixed) && fixed != []
    requires AnswersEach(Select(ai.calls, reg, McpCall), mcp)
    ensures Closed(Sanitize(h + (fixed + mcp))) <==>
              forall c :: c in ai.calls && reg.IsFixed(c.name) ==> reg.HasProvider(c.name, p)
  {
    var ps, ms := ProviderCalls(ai.calls, reg, p), Select(ai.calls, reg, McpCall);
    PartCovers(ai.calls, reg, p);
    Responses(ps, fixed);
    Responses(ms, mcp);
    RespondedAppend(fixed, mcp);
    PendingUnanswered(h, ai);
    assert fixed[0] in fixed && fixed[0].answers in Responded(fixed);
    RoundClosedIff(h, fixed + mcp);
  }

  // A human message and the calls that follow it make a sound turn.
  lemma PendingTurn(q: Message, ai: Message)
    requires q.Human? && ai.AI? && CallIds(ai) == IdsOf(ai.calls) && "" !in CallIds(ai)
    ensures Turn([q, ai]) == [q, ai] && SoundTurn([q, ai]) && FreshCalls([q], ai)
  {
    LastHumanUnique([q, ai], 0);
    OneMessage(q);
    OneMessage(ai);
    assert [q, ai] == [q] + [ai];
    RespondedAppend([q], [ai]);
  }

  // One fixed call answered, one of another provider pending: the view is not closed.
  lemma OneOfTwoAnswered(q: Message, ai: Message, reg: Registry, p: string, c: Call, d: Call, text: string)
    requires q.Human? && ai.AI? && ai.calls == [c, d] && CallIds(ai) == {c.id, d.id}
    requires c.id != d.id && "" !in {c.id, d.id}
    requires reg.HasProvider(c.name, p) && reg.IsFixed(d.name) && !reg.HasProvider(d.name, p)
    ensures !Closed(Sanitize([q, ai] + ReplyAll(ProviderCalls(ai.calls, reg, p), text)))
  {
    assert c in ai.calls && d in ai.calls;
    var ps := ProviderCalls(ai.calls, reg, p);
    SelectIsSubsequence(ai.calls, reg, OfProvider(p));
    SelectNone(ai.calls, reg, McpCall);
    assert c in ps;
    var answers := ReplyAll(ps, text);
    assert [q, ai][..1] == [q] && answers + [] == answers;
    PendingTurn(q, ai);
    PartialExitClosedIff([q, ai], ai, reg, p, answers, []);
  }

  // It does happen: two calls of two providers, one of them answered.
  lemma PartialExitMayBreak()
    ensures var ai := AI("a", Text(""), [Call("1", "x"), Call("2", "y")], []);
            var reg := Registry(map["x" := "p", "y" := "q"], {});
            var answers := ReplyAll(ProviderCalls(ai.calls, reg, "p"), "Still rate limited on p.");
            !Closed(Sanitize([Human("h", Text("go")), ai] + answers))
  {
    var c, d := Call("1", "x"), Call("2", "y");
    var ai := AI("a", Text(""), [c, d], []);
    assert ai.calls[0] in ai.calls && ai.calls[1] in ai.calls;
    assert IdsOf(ai.calls) == {c.id, d.id};
    OneOfTwoAnswered(Human("h", Text("go")), ai, Registry(map["x" := "p", "y" := "q"], {}), "p",
                     c, d, "Still rate limited on p.");
  }
}
