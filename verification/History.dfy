// The life of one conversation: turns, tool rounds and summarization.
module History {
  import opened Prelude
  import opened Messages
  import opened Sanitizer
  import opened Seqs

  const SUMMARIZE_MAX_MESSAGES := 16
  const SUMMARIZE_MAX_TOKENS := 4000
  const KEEP_LAST_N_MESSAGES := 10

  // ---------------------------------------------------------------------------
  // summarize_conversation
  // ---------------------------------------------------------------------------

  function SumLengths(parts: seq<string>): nat {
    if parts == [] then 0 else SumLengths(parts[..|parts| - 1]) + |parts[|parts| - 1]|
  }

  function Chars(c: Content): nat {
    match c
    case Text(t) => |t|
    case Blocks(parts) => SumLengths(parts)
  }

  function TotalChars(ms: seq<Message>): nat {
    if ms == [] then 0 else TotalChars(ms[..|ms| - 1]) + Chars(ms[|ms| - 1].content)
  }

  function EstimatedTokens(ms: seq<Message>): nat {
    if TotalChars(ms) / 4 < 1 then 1 else TotalChars(ms) / 4
  }

  method EstimateMessageTokens(messages: seq<Message>) returns (tokens: nat)
    ensures tokens == EstimatedTokens(messages)
  {
    var total := 0;
    for i := 0 to |messages|
      invariant total == TotalChars(messages[..i])
    {
      assert messages[..i + 1][..i] == messages[..i];
      match messages[i].content {
        case Text(t) => total := total + |t|;
        case Blocks(parts) =>
          var before := total;
          for j := 0 to |parts|
            invariant total == before + SumLengths(parts[..j])
          {
            assert parts[..j + 1][..j] == parts[..j];
            total := total + |parts[j]|;
          }
          assert parts[..|parts|] == parts;
      }
    }
    assert messages[..|messages|] == messages;
    tokens := if total / 4 < 1 then 1 else total / 4;
  }

  predicate ShouldSummarize(ms: seq<Message>) {
    |ms| > SUMMARIZE_MAX_MESSAGES || EstimatedTokens(ms) > SUMMARIZE_MAX_TOKENS
  }

  function CutStart(ms: seq<Message>): nat {
    if |ms| > KEEP_LAST_N_MESSAGES then |ms| - KEEP_LAST_N_MESSAGES else 0
  }

  // The cut is the greatest index, at most the start, that is 0 or holds no tool
  // response: a response is never parted from the call before it.
  ghost predicate IsCutoff(ms: seq<Message>, cut: int) {
    && 0 <= cut <= CutStart(ms)
    && (cut == 0 || !ms[cut].Tool?)
    && forall j :: cut < j <= CutStart(ms) ==> ms[j].Tool?
  }

  function Cutoff(ms: seq<Message>): (cut: nat)
    ensures IsCutoff(ms, cut)
  {
    CutBack(ms, CutStart(ms))
  }

  function CutBack(ms: seq<Message>, i: nat): (cut: nat)
    requires i <= CutStart(ms)
    requires forall j :: i < j <= CutStart(ms) ==> ms[j].Tool?
    ensures IsCutoff(ms, cut)
  {
    if i > 0 && ms[i].Tool? then CutBack(ms, i - 1) else i
  }

  function PrefixIds(ms: seq<Message>, cut: nat): seq<string>
    requires cut <= |ms|
  {
    if cut == 0 then []
    else PrefixIds(ms, cut - 1) + if ms[cut - 1].id != "" then [ms[cut - 1].id] else []
  }

  // One run of the node; `llm` is the summarizer's reply, None when it failed.
  method SummarizeConversation(messages: seq<Message>, llm: Option<string>)
    returns (summary: Option<string>, removed: seq<string>)
    ensures !ShouldSummarize(messages) || Cutoff(messages) == 0 || llm.None? ==>
              summary == None && removed == []
    ensures ShouldSummarize(messages) && Cutoff(messages) > 0 && llm.Some? ==>
              summary == llm && removed == PrefixIds(messages, Cutoff(messages))
  {
    var tokens := EstimateMessageTokens(messages);
    if !(|messages| > SUMMARIZE_MAX_MESSAGES || tokens > SUMMARIZE_MAX_TOKENS) {
      return None, [];
    }
    var cut: int := if |messages| - KEEP_LAST_N_MESSAGES > 0 then |messages| - KEEP_LAST_N_MESSAGES else 0;
    while cut > 0 && messages[cut].Tool?
      invariant 0 <= cut <= CutStart(messages)
      invariant forall j :: cut < j <= CutStart(messages) ==> messages[j].Tool?
    {
      cut := cut - 1;
    }
    CutoffUnique(messages, cut, Cutoff(messages));
    if cut == 0 || llm.None? { return None, []; }
    removed := [];
    for i := 0 to cut
      invariant removed == PrefixIds(messages, i)
    {
      if messages[i].id != "" { removed := removed + [messages[i].id]; }
    }
    summary := llm;
  }

  lemma CutoffUnique(ms: seq<Message>, a: nat, b: nat)
    requires IsCutoff(ms, a) && IsCutoff(ms, b)
    ensures a == b
  {
  }

  // add_messages applied to a list of RemoveMessage.
  function RemoveByIds(ms: seq<Message>, ids: seq<string>): seq<Message> {
    if ms == [] then []
    else if ms[|ms| - 1].id in ids then RemoveByIds(ms[..|ms| - 1], ids)
    else RemoveByIds(ms[..|ms| - 1], ids) + [ms[|ms| - 1]]
  }

  predicate DistinctIds(ms: seq<Message>) {
    && (forall i :: 0 <= i < |ms| ==> ms[i].id != "")
    && (forall i, j :: 0 <= i < j < |ms| ==> ms[i].id != ms[j].id)
  }

  // The ids removed are those of the messages before the cut that have one.
  lemma {:induction false} PrefixIdsAre(ms: seq<Message>, cut: nat, id: string)
    requires cut <= |ms|
    ensures id in PrefixIds(ms, cut) <==> id != "" && exists i :: 0 <= i < cut && ms[i].id == id
  {
    if cut > 0 { PrefixIdsAre(ms, cut - 1, id); }
  }

  lemma InPrefix(ms: seq<Message>, cut: nat, j: nat)
    requires cut <= |ms| && j < |ms| && DistinctIds(ms)
    ensures ms[j].id in PrefixIds(ms, cut) <==> j < cut
  {
    PrefixIdsAre(ms, cut, ms[j].id);
  }

  lemma {:induction false} RemoveAll(a: seq<Message>, ids: seq<string>)
    requires forall i :: 0 <= i < |a| ==> a[i].id in ids
    ensures RemoveByIds(a, ids) == []
  {
    if a != [] { RemoveAll(a[..|a| - 1], ids); }
  }

  lemma {:induction false} RemoveRest(a: seq<Message>, b: seq<Message>, ids: seq<string>)
    requires forall i :: 0 <= i < |b| ==> b[i].id !in ids
    ensures RemoveByIds(a + b, ids) == RemoveByIds(a, ids) + b
    decreases |b|
  {
    if b == [] {
      assert a + b == a;
    } else {
      var front, last := b[..|b| - 1], b[|b| - 1];
      FrontOfAppend(a, b);
      RemoveRest(a, front, ids);
      Assoc(RemoveByIds(a, ids), front, [last]);
      assert front + [last] == b;
    }
  }

  // Removing the summarized messages by id leaves exactly the kept suffix.
  lemma RemovalLeavesSuffix(ms: seq<Message>, cut: nat)
    requires cut <= |ms| && DistinctIds(ms)
    ensures RemoveByIds(ms, PrefixIds(ms, cut)) == ms[cut..]
  {
    var ids := PrefixIds(ms, cut);
    forall i | 0 <= i < cut ensures ms[..cut][i].id in ids { InPrefix(ms, cut, i); }
    forall i | 0 <= i < |ms| - cut ensures ms[cut..][i].id !in ids { InPrefix(ms, cut, cut + i); }
    RemoveAll(ms[..cut], ids);
    RemoveRest(ms[..cut], ms[cut..], ids);
    Rejoin(ms, cut);
  }

  // With a human message just appended, the cut never reaches into the turn it opens.
  lemma CutIsBeforeTurn(ms: seq<Message>)
    requires ms != [] && ms[|ms| - 1].Human?
    ensures Cutoff(ms) <= LastHuman(ms) == |ms| - 1
  {
    LastHumanUnique(ms, |ms| - 1);
  }

  // All text there is to count, in order: strings, and the text parts of block lists.
  function Joined(parts: seq<string>): string {
    if parts == [] then "" else Joined(parts[..|parts| - 1]) + parts[|parts| - 1]
  }

  function AllText(ms: seq<Message>): string {
    if ms == [] then ""
    else
      var c := ms[|ms| - 1].content;
      AllText(ms[..|ms| - 1]) + if c.Text? then c.text else Joined(c.parts)
  }

  lemma {:induction false} JoinedLength(parts: seq<string>)
    ensures SumLengths(parts) == |Joined(parts)|
  {
    if parts != [] { JoinedLength(parts[..|parts| - 1]); }
  }

  lemma {:induction false} TextLength(ms: seq<Message>)
    ensures TotalChars(ms) == |AllText(ms)|
  {
    if ms != [] {
      TextLength(ms[..|ms| - 1]);
      var c := ms[|ms| - 1].content;
      if c.Blocks? { JoinedLength(c.parts); }
    }
  }

  // A history is summarized when it has more than 16 messages, or more than 4000 tokens of
  // four characters; the estimate is never below 1.
  lemma SummarizeIff(ms: seq<Message>)
    ensures ShouldSummarize(ms) <==> |ms| >= 17 || |AllText(ms)| >= 16004
    ensures EstimatedTokens(ms) == if |AllText(ms)| < 8 then 1 else |AllText(ms)| / 4
  {
    TextLength(ms);
  }

  // The cut keeps at least the last ten messages; just before it only responses are passed over.
  lemma CutoffIff(ms: seq<Message>, cut: nat)
    ensures cut == Cutoff(ms) <==>
              && (cut == 0 || (cut + 10 <= |ms| && !ms[cut].Tool?))
              && forall j :: cut < j <= |ms| - 10 ==> ms[j].Tool?
  {
    if (cut == 0 || (cut + 10 <= |ms| && !ms[cut].Tool?)) && forall j :: cut < j <= |ms| - 10 ==> ms[j].Tool? {
      CutoffUnique(ms, cut, Cutoff(ms));
    }
  }

  // ---------------------------------------------------------------------------
  // The conversation as a state machine
  // ---------------------------------------------------------------------------

  // `dropped` is bookkeeping: what summarization has removed so far.
  datatype Conv = Conv(dropped: seq<Message>, kept: seq<Message>)

  datatype Step =
    | UserTurn(human: Message, llm: Option<string>)  // new input, then summarize_node
    | Reply(ai: Message)                             // agent_node
    | Round(responses: seq<Message>)                 // tool_node and mcp_tool_node, merged
    | Inject(note: Message)                          // update_agent_state

  function Added(step: Step): seq<Message> {
    match step
    case UserTurn(h, _) => [h]
    case Reply(ai) => [ai]
    case Round(rs) => rs
    case Inject(m) => [m]
  }

  function Summarized(s: Conv, llm: Option<string>): Conv {
    var cut := Cutoff(s.kept);
    if ShouldSummarize(s.kept) && cut > 0 && llm.Some? then
      Conv(s.dropped + s.kept[..cut], RemoveByIds(s.kept, PrefixIds(s.kept, cut)))
    else s
  }

  function Next(s: Conv, step: Step): Conv {
    var s' := Conv(s.dropped, s.kept + Added(step));
    if step.UserTurn? then Summarized(s', step.llm) else s'
  }

  function Run(steps: seq<Step>): Conv {
    if steps == [] then Conv([], []) else Next(Run(steps[..|steps| - 1]), steps[|steps| - 1])
  }

  // A new human message is kept; where the trigger holds, there is something to cut and a
  // summary is made, the messages before the cut are dropped, and on no other path.
  lemma UserTurnPrunes(s: Conv, human: Message, llm: Option<string>)
    requires DistinctIds(s.kept + [human])
    ensures var k := s.kept + [human];
            Next(s, UserTurn(human, llm)) ==
              if (|k| >= 17 || |AllText(k)| >= 16004) && llm.Some?
              then Conv(s.dropped + k[..Cutoff(k)], k[Cutoff(k)..])
              else Conv(s.dropped, k)
  {
    var k := s.kept + [human];
    SummarizeIff(k);
    RemovalLeavesSuffix(k, Cutoff(k));
    assert k[..0] == [] && k[0..] == k && s.dropped + [] == s.dropped;
  }

  // The same conversation had nothing ever been summarized.
  function Unpruned(steps: seq<Step>): seq<Message> {
    if steps == [] then [] else Unpruned(steps[..|steps| - 1]) + Added(steps[|steps| - 1])
  }

  // Kinds of message per step; ids assigned by the framework are fresh.
  ghost predicate LegalStep(before: seq<Message>, step: Step) {
    && DistinctIds(before + Added(step))
    && (step.UserTurn? ==> step.human.Human?)
    && (step.Reply? ==> step.ai.AI?)
    && (step.Round? ==> forall r :: r in step.responses ==> r.Tool?)
    && (step.Inject? ==> Quiet(step.note))
  }

  ghost predicate Legal(steps: seq<Step>) {
    steps == [] || (Legal(steps[..|steps| - 1]) &&
                    LegalStep(Unpruned(steps[..|steps| - 1]), steps[|steps| - 1]))
  }

  // Pruning only ever removed a prefix that ends before the current turn.
  ghost predicate PrunedBeforeTurn(s: Conv) {
    && DistinctIds(s.dropped + s.kept)
    && (s.dropped == [] || LastHuman(s.kept) >= 0)
  }

  lemma LastHumanAppend(a: seq<Message>, b: seq<Message>)
    ensures LastHuman(a + b) == if LastHuman(b) >= 0 then |a| + LastHuman(b) else LastHuman(a)
  {
    LastHumanUnique(a + b, if LastHuman(b) >= 0 then |a| + LastHuman(b) else LastHuman(a));
  }

  lemma DistinctTail(a: seq<Message>, b: seq<Message>)
    requires DistinctIds(a + b)
    ensures DistinctIds(b)
  {
    assert forall i :: 0 <= i < |b| ==> b[i] == (a + b)[|a| + i];
  }

  lemma MoveCut(a: seq<Message>, b: seq<Message>, cut: nat)
    requires cut <= |b|
    ensures (a + b[..cut]) + b[cut..] == a + b
  {
  }

  lemma SummarizeStep(s: Conv, llm: Option<string>)
    requires PrunedBeforeTurn(s) && s.kept != [] && s.kept[|s.kept| - 1].Human?
    ensures PrunedBeforeTurn(Summarized(s, llm))
    ensures Summarized(s, llm).dropped + Summarized(s, llm).kept == s.dropped + s.kept
  {
    var k, cut := s.kept, Cutoff(s.kept);
    DistinctTail(s.dropped, k);
    RemovalLeavesSuffix(k, cut);
    CutIsBeforeTurn(k);
    MoveCut(s.dropped, k, cut);
    LastHumanUnique(k[cut..], |k| - cut - 1);
  }

  lemma {:induction false} RunIsSuffix(steps: seq<Step>)
    requires Legal(steps)
    ensures PrunedBeforeTurn(Run(steps))
    ensures Run(steps).dropped + Run(steps).kept == Unpruned(steps)
  {
    if steps != [] {
      var n := |steps| - 1;
      RunIsSuffix(steps[..n]);
      var s, step := Run(steps[..n]), steps[n];
      Assoc(s.dropped, s.kept, Added(step));
      LastHumanAppend(s.kept, Added(step));
      var s' := Conv(s.dropped, s.kept + Added(step));
      if step.UserTurn? {
        LastHumanUnique([step.human], 0);
        SummarizeStep(s', step.llm);
      }
    }
  }

  lemma {:induction false} TurnOfTail(a: seq<Message>, b: seq<Message>)
    requires a == [] || LastHuman(b) >= 0
    ensures Turn(a + b) == Turn(b)
  {
    LastHumanAppend(a, b);
    if a == [] {
      assert a + b == b;
    } else {
      assert (a + b)[|a| + LastHuman(b)..] == b[LastHuman(b)..];
    }
  }

  lemma {:induction false} ViewOfTail(a: seq<Message>, b: seq<Message>)
    requires a == [] || LastHuman(b) >= 0
    ensures Sanitize(a + b) == PastView(a) + Sanitize(b)
  {
    if a == [] {
      assert a + b == b;
    } else {
      LastHumanAppend(a, b);
      PrunePreservesView(a + b, |a|);
      assert (a + b)[..|a|] == a && (a + b)[|a|..] == b;
    }
  }

  // Over every run, the model sees exactly the tail of what it would see had the
  // history never been pruned, and the whole current turn is in that tail.
  lemma {:induction false} ViewIsTailOfUnpruned(steps: seq<Step>)
    requires Legal(steps)
    ensures Sanitize(Unpruned(steps)) == PastView(Run(steps).dropped) + Sanitize(Run(steps).kept)
    ensures Turn(Unpruned(steps)) == Turn(Run(steps).kept)
  {
    RunIsSuffix(steps);
    ViewOfTail(Run(steps).dropped, Run(steps).kept);
    TurnOfTail(Run(steps).dropped, Run(steps).kept);
  }

  // ---------------------------------------------------------------------------
  // Complete tool rounds keep every view closed
  // ---------------------------------------------------------------------------

  function AnswerIds(rs: seq<Message>): seq<CallId> {
    if rs == [] then []
    else AnswerIds(rs[..|rs| - 1]) + if rs[|rs| - 1].Tool? then [rs[|rs| - 1].answers] else []
  }

  function CallIdSeq(calls: seq<Call>): seq<CallId> {
    if calls == [] then [] else CallIdSeq(calls[..|calls| - 1]) + [calls[|calls| - 1].id]
  }

  // Each call of the AI message is answered exactly once, by tool messages only.
  ghost predicate CompleteRound(ai: Message, rs: seq<Message>) {
    && ai.AI?
    && (forall r :: r in rs ==> Answers(r))
    && multiset(AnswerIds(rs)) == multiset(CallIdSeq(ai.calls))
  }

  // Call ids are truthy, appear alike in both places, and are new to the history.
  ghost predicate FreshCalls(before: seq<Message>, ai: Message) {
    && ai.AI?
    && CallIds(ai) == IdsOf(ai.calls)
    && "" !in CallIds(ai)
    && CallIds(ai) !! Called(before) + Responded(before)
  }

  ghost predicate CompleteStep(before: seq<Message>, step: Step) {
    && (step.Reply? ==> FreshCalls(before, step.ai))
    && (step.Round? ==> before != [] && CompleteRound(before[|before| - 1], step.responses))
  }

  ghost predicate AllComplete(steps: seq<Step>) {
    steps == [] || (AllComplete(steps[..|steps| - 1]) &&
                    CompleteStep(Unpruned(steps[..|steps| - 1]), steps[|steps| - 1]))
  }

  lemma {:induction false} AnswerIdsSet(rs: seq<Message>, c: CallId)
    requires forall r :: r in rs ==> Answers(r)
    ensures c in AnswerIds(rs) <==> c in Responded(rs)
  {
    if rs != [] {
      var n := |rs| - 1;
      assert rs == rs[..n] + [rs[n]];
      assert rs[n] in rs;
      AnswerIdsSet(rs[..n], c);
      RespondedAppend(rs[..n], [rs[n]]);
      assert Responded([rs[n]]) == {rs[n].answers} by {
        assert forall m :: m in [rs[n]] <==> m == rs[n];
      }
    }
  }

  lemma {:induction false} CallIdSeqSet(calls: seq<Call>, c: CallId)
    ensures c in CallIdSeq(calls) <==> c in IdsOf(calls)
  {
    if calls != [] {
      var n := |calls| - 1;
      assert calls == calls[..n] + [calls[n]];
      CallIdSeqSet(calls[..n], c);
    }
  }

  lemma CompleteRoundAnswers(ai: Message, rs: seq<Message>)
    requires CompleteRound(ai, rs)
    ensures Responded(rs) == IdsOf(ai.calls) && Called(rs) == {}
  {
    forall c ensures c in Responded(rs) <==> c in IdsOf(ai.calls) {
      AnswerIdsSet(rs, c);
      CallIdSeqSet(ai.calls, c);
      assert c in AnswerIds(rs) <==> c in multiset(AnswerIds(rs));
      assert c in CallIdSeq(ai.calls) <==> c in multiset(CallIdSeq(ai.calls));
    }
    assert forall m :: m in rs ==> CallIds(m) == {};
  }

  // What complete rounds keep true of the turn in progress.
  ghost predicate SoundTurn(t: seq<Message>) {
    && NoPartialGroup(t)
    && (t != [] && t[|t| - 1].AI? ==>
          && CallIds(t[|t| - 1]) == IdsOf(t[|t| - 1].calls)
          && CallIds(t[|t| - 1]) !! Called(t[..|t| - 1]))
  }

  lemma OneMessage(m: Message)
    ensures Called([m]) == CallIds(m)
    ensures Responded([m]) == if Answers(m) then {m.answers} else {}
  {
    assert forall x :: x in [m] <==> x == m;
  }

  lemma AppendPlain(t: seq<Message>, m: Message)
    requires SoundTurn(t) && !m.Tool?
    requires m.AI? ==> CallIds(m) == IdsOf(m.calls) && CallIds(m) !! Called(t) + Responded(t)
    ensures SoundTurn(t + [m])
  {
    OneMessage(m);
    RespondedAppend(t, [m]);
    assert (t + [m])[..|t|] == t;
    forall x | x in t + [m]
      ensures CallIds(x) <= Responded(t + [m]) || CallIds(x) !! Responded(t + [m])
    {
      assert x in t || x == m;
    }
  }

  lemma AppendRound(t: seq<Message>, rs: seq<Message>)
    requires SoundTurn(t) && t != [] && CompleteRound(t[|t| - 1], rs)
    ensures SoundTurn(t + rs)
  {
    var n := |t| - 1;
    var ai, t' := t[n], t + rs;
    CompleteRoundAnswers(ai, rs);
    RespondedAppend(t, rs);
    if rs == [] {
      assert t' == t;
    } else {
      assert t'[|t'| - 1] == rs[|rs| - 1] && rs[|rs| - 1] in rs;
      forall x | x in t' ensures CallIds(x) <= Responded(t') || CallIds(x) !! Responded(t') {
        if x in t[..n] {
          assert x in t && CallIds(x) <= Called(t[..n]);
        } else {
          assert t == t[..n] + [ai];
          assert x == ai || x in rs;
        }
      }
    }
  }

  lemma TurnExtends(h: seq<Message>, add: seq<Message>)
    requires forall m :: m in add ==> !m.Human?
    ensures Turn(h + add) == Turn(h) + add
    ensures h != [] ==> Turn(h) != [] && Turn(h)[|Turn(h)| - 1] == h[|h| - 1]
    ensures forall m :: m in Turn(h) ==> m in h
  {
    LastHumanUnique(add, -1);
    LastHumanAppend(h, add);
    if LastHuman(h) >= 0 {
      SplitAppend(h, add, LastHuman(h));
    }
  }

  lemma {:induction false} SoundTurnStep(h: seq<Message>, step: Step)
    requires SoundTurn(Turn(h)) && LegalStep(h, step) && CompleteStep(h, step)
    ensures SoundTurn(Turn(h + Added(step)))
  {
    if Added(step) != [] && Added(step)[0].Human? {
      var m := Added(step)[0];
      OneMessage(m);
      LastHumanUnique(h + [m], |h|);
      assert Turn(h + [m]) == [m];
    } else {
      TurnExtends(h, Added(step));
      var t := Turn(h);
      assert Called(t) <= Called(h) && Responded(t) <= Responded(h);
      match step
      case Round(rs) => AppendRound(t, rs);
      case Reply(ai) => AppendPlain(t, ai);
      case Inject(m) => AppendPlain(t, m);
      case UserTurn(_, _) =>
    }
  }

  lemma {:induction false} SoundTurnRun(steps: seq<Step>)
    requires Legal(steps) && AllComplete(steps)
    ensures SoundTurn(Turn(Unpruned(steps)))
  {
    if steps != [] {
      SoundTurnRun(steps[..|steps| - 1]);
      SoundTurnStep(Unpruned(steps[..|steps| - 1]), steps[|steps| - 1]);
    }
  }

  // Over every run of complete rounds, with turns abandoned at will and prunes at
  // any turn, the chat API is sent every call answered and every answer called.
  lemma {:induction false} ViewAlwaysClosed(steps: seq<Step>)
    requires Legal(steps) && AllComplete(steps)
    ensures Closed(Sanitize(Run(steps).kept))
  {
    ViewIsTailOfUnpruned(steps);
    SoundTurnRun(steps);
    WholeGroupsClosure(Run(steps).kept);
  }

  // The view taken right after a complete round ends with the AI message and every
  // response, unchanged.
  lemma RoundSurvivesSanitize(h: seq<Message>, ai: Message, rs: seq<Message>)
    requires CompleteRound(ai, rs) && CallIds(ai) == IdsOf(ai.calls)
    ensures exists view :: Sanitize(h + ([ai] + rs)) == view + ([ai] + rs)
  {
    var tail := [ai] + rs;
    var ms := h + tail;
    forall m | m in tail ensures !m.Human? { assert m == ai || m in rs; }
    LastHumanUnique(tail, -1);
    LastHumanAppend(h, tail);
    PruneExtends(h, tail);
    var p := Prune(h);
    var r, c := Responded(p + tail), Called(p + tail);
    RespondedAppend(p, tail);
    CalledAppend(p, tail);
    RespondedAppend([ai], rs);
    CalledAppend([ai], rs);
    OneMessage(ai);
    CompleteRoundAnswers(ai, rs);
    forall i | 0 <= i < |tail| ensures CleanOne(tail[i], r, c) == [tail[i]] {
      if i > 0 { assert tail[i] == rs[i - 1] && rs[i - 1] in rs && tail[i].answers in Responded(rs); }
    }
    CleanKeepsFixed(tail, r, c);
    CleanAppend(p, tail, r, c);
  }

  lemma {:induction false} PruneExtends(h: seq<Message>, tail: seq<Message>)
    requires LastHuman(tail) < 0
    ensures Prune(h + tail) == Prune(h) + tail
  {
    LastHumanAppend(h, tail);
    var k := LastHuman(h);
    if k >= 0 {
      SplitAppend(h, tail, k);
      Assoc(PastView(h[..k]), h[k..], tail);
    }
  }

  // Answers to ids that no message before the pending one has called.
  lemma StrandedByPart(t: seq<Message>, rs: seq<Message>, c: CallId)
    requires SoundTurn(t) && t != [] && t[|t| - 1].AI?
    requires CallIds(t[|t| - 1]) !! Responded(t)
    requires forall r :: r in rs ==> r.Tool?
    requires c in Responded(rs) && Responded(rs) < CallIds(t[|t| - 1])
    ensures !NoStranded(t + rs)
  {
    var front, ai, t' := t[..|t| - 1], t[|t| - 1], t + rs;
    RespondedAppend(t, rs);
    assert t == front + [ai];
    assert c !in Called(front);
    forall g | g in t' && c in CallIds(g) ensures !(CallIds(g) <= Responded(t')) {
      assert g !in front;
      assert g == ai;
    }
    assert ai in t' && c in CallIds(ai) && c in Responded(t');
  }

  lemma WholeByAllOrNone(t: seq<Message>, rs: seq<Message>)
    requires SoundTurn(t) && t != [] && t[|t| - 1].AI?
    requires forall r :: r in rs ==> r.Tool?
    requires Responded(rs) == {} || Responded(rs) == CallIds(t[|t| - 1])
    ensures NoPartialGroup(t + rs)
  {
    var ai, t' := t[|t| - 1], t + rs;
    RespondedAppend(t, rs);
    assert t == t[..|t| - 1] + [ai];
    forall m | m in t' ensures CallIds(m) <= Responded(t') || CallIds(m) !! Responded(t') {
      if m in t[..|t| - 1] {
        assert m in t && CallIds(m) <= Called(t[..|t| - 1]);
      } else {
        assert m == ai || m in rs;
        assert ai in t;
      }
    }
  }

  // A round that answers some of the pending calls and nothing else leaves a closed
  // view exactly when it answers none of them or all of them.
  lemma RoundClosedIff(h: seq<Message>, rs: seq<Message>)
    requires SoundTurn(Turn(h)) && h != [] && h[|h| - 1].AI?
    requires CallIds(h[|h| - 1]) !! Responded(Turn(h))
    requires forall r :: r in rs ==> r.Tool?
    requires Responded(rs) <= CallIds(h[|h| - 1])
    ensures Closed(Sanitize(h + rs)) <==> Responded(rs) == {} || Responded(rs) == CallIds(h[|h| - 1])
  {
    TurnExtends(h, rs);
    var t, ai := Turn(h), h[|h| - 1];
    if Responded(rs) == {} || Responded(rs) == CallIds(ai) {
      AllOrNoneCloses(h + rs, t, rs);
    } else {
      PartLeavesOrphan(h + rs, t, rs);
    }
  }

  lemma AllOrNoneCloses(h': seq<Message>, t: seq<Message>, rs: seq<Message>)
    requires SoundTurn(t) && t != [] && t[|t| - 1].AI? && Turn(h') == t + rs
    requires forall r :: r in rs ==> r.Tool?
    requires Responded(rs) == {} || Responded(rs) == CallIds(t[|t| - 1])
    ensures Closed(Sanitize(h'))
  {
    WholeByAllOrNone(t, rs);
    WholeGroupsClosure(h');
  }

  lemma PartLeavesOrphan(h': seq<Message>, t: seq<Message>, rs: seq<Message>)
    requires SoundTurn(t) && t != [] && t[|t| - 1].AI? && Turn(h') == t + rs
    requires CallIds(t[|t| - 1]) !! Responded(t)
    requires forall r :: r in rs ==> r.Tool?
    requires Responded(rs) != {} && Responded(rs) < CallIds(t[|t| - 1])
    ensures !Closed(Sanitize(h'))
  {
    var c :| c in Responded(rs);
    StrandedByPart(t, rs, c);
    OnePassClosure(h');
  }
}
