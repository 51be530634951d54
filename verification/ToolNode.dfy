// tool_node: validate every remote call, then execute all calls.
module ToolNode {
  import opened Prelude
  import opened Messages
  import opened Routing

  const DESTRUCTIVE_KEYWORDS := [
    "delete", "remove", "destroy", "drop", "purge", "wipe",
    "erase", "terminate", "uninstall", "unlink", "revoke"
  ]

  function LowerChar(c: char): char {
    if 'A' <= c <= 'Z' then c - 'A' + 'a' else c
  }

  function Lower(s: string): string {
    seq(|s|, i requires 0 <= i < |s| => LowerChar(s[i]))
  }

  predicate OccursAt(s: string, part: string, i: int) {
    0 <= i <= |s| - |part| && s[i..i + |part|] == part
  }

  predicate Contains(s: string, part: string) {
    exists i :: 0 <= i <= |s| - |part| && OccursAt(s, part, i)
  }

  predicate IsDestructiveTool(name: string) {
    exists k :: k in DESTRUCTIVE_KEYWORDS && Contains(Lower(name), k)
  }

  // ---------------------------------------------------------------------------
  // The world around tool_node, one pass
  // ---------------------------------------------------------------------------

  datatype ResumeValue = Str(text: string) | Dict(decision: Option<string>) | Other

  // An interrupt either suspends the pass or returns the user's answer.
  datatype Prompt = Suspends | Resumes(value: ResumeValue)

  datatype LimiterReply = Allowed | Denied | LimiterFails

  datatype ToolRun = Output(text: string) | Fails(error: string) | Interrupts

  datatype World = World(
    confirm: nat -> Prompt,                   // destructive confirmation, per call
    token: string -> Option<string>,          // first resolve_token, per provider
    connect: string -> Prompt,                // auth interrupt
    tokenAfter: string -> Option<string>,     // resolve_token after the auth interrupt
    limit: string -> LimiterReply,            // first check_and_increment
    wait: string -> Prompt,                   // rate-limit interrupt
    limitAgain: string -> LimiterReply,       // second check_and_increment
    lateToken: nat -> Option<string>,         // resolve_token during execution
    run: nat -> ToolRun                       // the tool itself, per call
  ) {
    function Token(p: string): Option<string> {
      if token(p).Some? then token(p) else tokenAfter(p)
    }
  }

  function ReadResumeValue(v: ResumeValue): string {
    match v
    case Str(s) => s
    case Dict(d) => if d.Some? then d.value else "cancel"
    case Other => "cancel"
  }

  const CANCELS := {"cancel", "reject", "skip"}
  const REJECTIONS := {"cancel", "reject", "skip", "no"}

  // What a pass does, in order.
  datatype Event =
    | Confirmed(call: nat)          // destructive call, prompt answered without rejection
    | Connected(provider: string)   // auth prompt answered without cancelling
    | TokenHeld(provider: string)
    | SlotTaken(provider: string)   // the limiter recorded one call
    | LimiterDown(provider: string)
    | WaitAnswered(provider: string)
    | Ran(call: nat)                // the tool was invoked

  datatype Exit =
    | NothingToDo | Cancelled
    | StillUnconnected(provider: string) | StillLimited(provider: string)
    | Executed

  datatype Outcome = Returns(exit: Exit, messages: seq<Message>) | Leaves | Crashes

  // Each event matches what the world answered.
  ghost predicate Honest(w: World, tr: seq<Event>) {
    forall e :: e in tr ==>
      match e
      case Confirmed(i) => w.confirm(i).Resumes? && ReadResumeValue(w.confirm(i).value) !in REJECTIONS
      case Connected(p) => w.connect(p).Resumes? && ReadResumeValue(w.connect(p).value) !in CANCELS
      case TokenHeld(p) => w.Token(p).Some?
      case SlotTaken(p) => w.limit(p).Allowed? || (w.limit(p).Denied? && w.limitAgain(p).Allowed?)
      case LimiterDown(p) => w.limit(p).LimiterFails? || (w.limit(p).Denied? && w.limitAgain(p).LimiterFails?)
      case WaitAnswered(p) => w.limit(p).Denied? && w.wait(p).Resumes?
      case Ran(i) => true
  }

  predicate ProviderCleared(p: string, tr: seq<Event>) {
    TokenHeld(p) in tr && (SlotTaken(p) in tr || LimiterDown(p) in tr)
  }

  // The destructive calls among the first n are confirmed.
  predicate Confirmations(calls: seq<Call>, n: nat, tr: seq<Event>) requires n <= |calls| {
    forall i :: 0 <= i < n && IsDestructiveTool(calls[i].name) ==> Confirmed(i) in tr
  }

  // Everything that must have happened before any tool of the pass may run.
  predicate Cleared(calls: seq<Call>, reg: Registry, tr: seq<Event>) {
    && Confirmations(calls, |calls|, tr)
    && forall i :: 0 <= i < |calls| && calls[i].name in reg.providerOf ==>
         ProviderCleared(reg.providerOf[calls[i].name], tr)
  }

  ghost predicate RunsOnlyWhenCleared(calls: seq<Call>, reg: Registry, tr: seq<Event>) {
    forall k :: 0 <= k < |tr| && tr[k].Ran? ==> Cleared(calls, reg, tr[..k])
  }

  ghost predicate OneSlotEach(tr: seq<Event>) {
    forall j, k :: 0 <= j < k < |tr| && tr[j].SlotTaken? && tr[k].SlotTaken? ==>
      tr[j].provider != tr[k].provider
  }

  predicate NoRuns(tr: seq<Event>) { forall e :: e in tr ==> !e.Ran? }

  function CancelAll(calls: seq<Call>): seq<Message> {
    ReplyAll(calls, "Action cancelled by user.")
  }

  function ProviderCalls(calls: seq<Call>, reg: Registry, p: string): seq<Call> {
    Select(calls, reg, OfProvider(p))
  }

  function StillUnconnectedReply(calls: seq<Call>, reg: Registry, p: string): Outcome {
    Returns(StillUnconnected(p), ReplyAll(ProviderCalls(calls, reg, p),
      p + " is still not connected. Please connect via Settings and try again."))
  }

  function StillLimitedReply(calls: seq<Call>, reg: Registry, p: string): Outcome {
    Returns(StillLimited(p), ReplyAll(ProviderCalls(calls, reg, p), "Still rate limited on " + p + "."))
  }

  // The token execution uses for a call of provider p, if any is truthy.
  function ExecToken(w: World, p: string, i: nat): Option<string> {
    if w.Token(p).Some? && w.Token(p).value != "" then w.Token(p) else w.lateToken(i)
  }

  predicate HasRemote(calls: seq<Call>, reg: Registry, i: nat) requires i < |calls| {
    calls[i].name in reg.providerOf && reg.providerOf[calls[i].name] != ""
  }

  // Whether execution of call i reaches the tool itself.
  predicate Runnable(w: World, calls: seq<Call>, reg: Registry, i: nat) requires i < |calls| {
    if HasRemote(calls, reg, i) then
      var t := ExecToken(w, reg.providerOf[calls[i].name], i);
      t.Some? && t.value != ""
    else calls[i].name in reg.executables
  }

  function OutputText(w: World, calls: seq<Call>, reg: Registry, i: nat): string {
    if i >= |calls| then ""
    else if Runnable(w, calls, reg, i) then
      match w.run(i)
      case Output(text) => text
      case Fails(e) => "Tool '" + calls[i].name + "' failed: " + e + ". Try a different approach."
      case Interrupts => ""
    else if HasRemote(calls, reg, i) then
      "[Error] No valid token for " + reg.providerOf[calls[i].name] + ". "
    else
      "Tool '" + calls[i].name + "' is not available. It may have been removed or renamed."
  }

  // ---------------------------------------------------------------------------
  // Where a pass ends, and why
  // ---------------------------------------------------------------------------

  // None of the first n calls is destructive.
  predicate NoDestructive(calls: seq<Call>, n: nat) requires n <= |calls| {
    forall i :: 0 <= i < n ==> !IsDestructiveTool(calls[i].name)
  }

  predicate Accepts(answer: Prompt, refusals: set<string>) {
    answer.Resumes? && ReadResumeValue(answer.value) !in refusals
  }

  predicate ConfirmedUpTo(calls: seq<Call>, w: World, n: nat) requires n <= |calls| {
    forall i :: 0 <= i < n && IsDestructiveTool(calls[i].name) ==> Accepts(w.confirm(i), REJECTIONS)
  }

  // Call i is the first whose confirmation does not come.
  predicate UnconfirmedAt(calls: seq<Call>, w: World, i: nat) {
    && i < |calls| && ConfirmedUpTo(calls, w, i)
    && IsDestructiveTool(calls[i].name) && !Accepts(w.confirm(i), REJECTIONS)
  }

  function ConfirmOutcome(calls: seq<Call>, w: World, i: nat): Outcome {
    if w.confirm(i).Suspends? then Leaves else Returns(Cancelled, CancelAll(calls))
  }

  // A token can be had: at once, or after the user has connected.
  predicate Obtains(w: World, p: string) {
    w.token(p).Some? || (Accepts(w.connect(p), CANCELS) && w.tokenAfter(p).Some?)
  }

  // The limiter lets the provider through; `answered` says whether an earlier prompt was.
  predicate TakesSlot(w: World, p: string, answered: bool) {
    !w.limit(p).Denied? || (w.wait(p).Resumes? && answered && !w.limitAgain(p).Denied?)
  }

  // Some prompt before the rate limit check of call n - 1 was answered, in a pass that got so far.
  predicate Answered(calls: seq<Call>, reg: Registry, w: World, n: nat) requires n <= |calls| {
    !NoDestructive(calls, |calls|) || exists j :: 0 <= j < n && AsksToConnect(calls[j], reg, w)
  }

  predicate AsksToConnect(c: Call, reg: Registry, w: World) {
    c.name in reg.providerOf && w.token(reg.providerOf[c.name]).None?
  }

  predicate Passes(calls: seq<Call>, reg: Registry, w: World, i: nat) requires i < |calls| {
    calls[i].name in reg.providerOf ==>
      var p := reg.providerOf[calls[i].name];
      Obtains(w, p) && TakesSlot(w, p, Answered(calls, reg, w, i + 1))
  }

  predicate PassesUpTo(calls: seq<Call>, reg: Registry, w: World, n: nat) requires n <= |calls| {
    forall i :: 0 <= i < n ==> Passes(calls, reg, w, i)
  }

  // Call i is the first whose provider does not pass.
  predicate BlockedAt(calls: seq<Call>, reg: Registry, w: World, i: nat) {
    i < |calls| && PassesUpTo(calls, reg, w, i) && !Passes(calls, reg, w, i)
  }

  // Why a provider does not pass.
  datatype Cause = ConnectPending | ConnectRefused | NoToken | WaitPending | NoAnswer | DeniedAgain

  predicate Caused(w: World, p: string, answered: bool, cause: Cause) {
    match cause
    case ConnectPending => w.token(p).None? && w.connect(p).Suspends?
    case ConnectRefused => w.token(p).None? && w.connect(p).Resumes? && !Accepts(w.connect(p), CANCELS)
    case NoToken => w.token(p).None? && Accepts(w.connect(p), CANCELS) && w.tokenAfter(p).None?
    case WaitPending => Obtains(w, p) && w.limit(p).Denied? && w.wait(p).Suspends?
    case NoAnswer => Obtains(w, p) && w.limit(p).Denied? && w.wait(p).Resumes? && !answered
    case DeniedAgain =>
      Obtains(w, p) && w.limit(p).Denied? && w.wait(p).Resumes? && answered && w.limitAgain(p).Denied?
  }

  function OutcomeOf(calls: seq<Call>, reg: Registry, p: string, cause: Cause): Outcome {
    match cause
    case ConnectPending => Leaves
    case ConnectRefused => Returns(Cancelled, CancelAll(calls))
    case NoToken => StillUnconnectedReply(calls, reg, p)
    case WaitPending => Leaves
    case NoAnswer => Crashes
    case DeniedAgain => StillLimitedReply(calls, reg, p)
  }

  ghost predicate ProviderEnds(calls: seq<Call>, reg: Registry, w: World, p: string, answered: bool, o: Outcome) {
    exists cause :: Caused(w, p, answered, cause) && o == OutcomeOf(calls, reg, p, cause)
  }

  // Provider p is the first that does not pass, for this cause.
  predicate BlockedFor(calls: seq<Call>, reg: Registry, w: World, p: string, cause: Cause, i: nat) {
    && BlockedAt(calls, reg, w, i) && reg.HasProvider(calls[i].name, p)
    && Caused(w, p, Answered(calls, reg, w, i + 1), cause)
  }

  ghost predicate StopsFor(calls: seq<Call>, reg: Registry, w: World, p: string, cause: Cause) {
    ConfirmedUpTo(calls, w, |calls|) && exists i: nat :: BlockedFor(calls, reg, w, p, cause, i)
  }

  // Every check of the pass succeeds.
  predicate AllClear(calls: seq<Call>, reg: Registry, w: World) {
    ConfirmedUpTo(calls, w, |calls|) && PassesUpTo(calls, reg, w, |calls|)
  }

  predicate InterruptsAt(calls: seq<Call>, reg: Registry, w: World, i: nat) requires i < |calls| {
    Runnable(w, calls, reg, i) && w.run(i).Interrupts?
  }

  predicate NoInterrupt(calls: seq<Call>, reg: Registry, w: World, n: nat) requires n <= |calls| {
    forall i :: 0 <= i < n ==> !InterruptsAt(calls, reg, w, i)
  }

  // The user refused a confirmation or a connection, and nothing ended the pass before.
  ghost predicate UserRefuses(calls: seq<Call>, reg: Registry, w: World) {
    || (exists i: nat :: UnconfirmedAt(calls, w, i) && w.confirm(i).Resumes?)
    || (exists p :: StopsFor(calls, reg, w, p, ConnectRefused))
  }

  // A prompt, or a tool, is left open.
  ghost predicate Suspended(calls: seq<Call>, reg: Registry, w: World) {
    || (exists i: nat :: UnconfirmedAt(calls, w, i) && w.confirm(i).Suspends?)
    || (exists p :: StopsFor(calls, reg, w, p, ConnectPending) || StopsFor(calls, reg, w, p, WaitPending))
    || (AllClear(calls, reg, w) && !NoInterrupt(calls, reg, w, |calls|))
  }

  // Every outcome has its cause, and every cause its outcome.
  ghost predicate Explained(calls: seq<Call>, reg: Registry, w: World, o: Outcome) {
    && (o.Leaves? <==> Suspended(calls, reg, w))
    && (o.Crashes? <==> exists p :: StopsFor(calls, reg, w, p, NoAnswer))
    && (o.Returns? && o.exit.Cancelled? <==> UserRefuses(calls, reg, w))
    && (forall p :: o.Returns? && o.exit == StillUnconnected(p) <==> StopsFor(calls, reg, w, p, NoToken))
    && (forall p :: o.Returns? && o.exit == StillLimited(p) <==> StopsFor(calls, reg, w, p, DeniedAgain))
    && (o.Returns? && o.exit.NothingToDo? <==> calls == [])
    && (o.Returns? && o.exit.Executed? <==>
          calls != [] && AllClear(calls, reg, w) && NoInterrupt(calls, reg, w, |calls|))
  }

  lemma EmptyEnds(reg: Registry, w: World)
    ensures Explained([], reg, w, Returns(NothingToDo, []))
  {
    forall i: nat, q, b ensures !BlockedFor([], reg, w, q, b, i) {}
  }

  // Where a pass ends is determined: no two causes apply to one pass.
  lemma CauseUnique(w: World, p: string, answered: bool, a: Cause, b: Cause)
    requires Caused(w, p, answered, a) && Caused(w, p, answered, b)
    ensures a == b && !(Obtains(w, p) && TakesSlot(w, p, answered))
  {
  }

  lemma StopUnique(calls: seq<Call>, reg: Registry, w: World, p: string, a: Cause, q: string, b: Cause, i: nat, j: nat)
    requires BlockedFor(calls, reg, w, p, a, i) && BlockedFor(calls, reg, w, q, b, j)
    ensures i == j && p == q && a == b
  {
    CauseUnique(w, p, Answered(calls, reg, w, i + 1), a, a);
    assert i == j;
    CauseUnique(w, p, Answered(calls, reg, w, i + 1), a, b);
  }

  lemma UnconfirmedEnds(calls: seq<Call>, reg: Registry, w: World, i: nat)
    requires UnconfirmedAt(calls, w, i)
    ensures Explained(calls, reg, w, ConfirmOutcome(calls, w, i))
  {
    assert !ConfirmedUpTo(calls, w, |calls|);
    forall j: nat | UnconfirmedAt(calls, w, j) ensures j == i {}
  }

  lemma BlockEnds(calls: seq<Call>, reg: Registry, w: World, p: string, cause: Cause, i: nat)
    requires ConfirmedUpTo(calls, w, |calls|) && BlockedFor(calls, reg, w, p, cause, i)
    ensures Explained(calls, reg, w, OutcomeOf(calls, reg, p, cause))
  {
    forall q, b | StopsFor(calls, reg, w, q, b) ensures p == q && cause == b {
      var j: nat :| BlockedFor(calls, reg, w, q, b, j);
      StopUnique(calls, reg, w, p, cause, q, b, i, j);
    }
    assert StopsFor(calls, reg, w, p, cause);
    assert !AllClear(calls, reg, w);
  }

  lemma ClearEnds(calls: seq<Call>, reg: Registry, w: World, o: Outcome)
    requires calls != [] && AllClear(calls, reg, w)
    requires if NoInterrupt(calls, reg, w, |calls|) then o.Returns? && o.exit.Executed? else o.Leaves?
    ensures Explained(calls, reg, w, o)
  {
    forall i: nat, q, b ensures !BlockedFor(calls, reg, w, q, b, i) {}
  }

  // ---------------------------------------------------------------------------
  // tool_node
  // ---------------------------------------------------------------------------

  // Phase 1, first loop. `kept` is the variable resume_val.
  method ConfirmDestructive(calls: seq<Call>, w: World)
    returns (stop: Option<Outcome>, kept: Option<ResumeValue>, tr: seq<Event>)
    ensures Honest(w, tr) && (forall e :: e in tr ==> e.Confirmed?)
    ensures stop.None? ==> ConfirmedUpTo(calls, w, |calls|) && Confirmations(calls, |calls|, tr)
    ensures stop.Some? ==> exists i: nat :: UnconfirmedAt(calls, w, i) && stop.value == ConfirmOutcome(calls, w, i)
    ensures stop.None? ==> (kept.None? <==> NoDestructive(calls, |calls|))
    ensures OneSlotEach(tr)
    ensures kept.Some? ==> ReadResumeValue(kept.value) !in CANCELS
  {
    kept, tr := None, [];
    for i := 0 to |calls|
      invariant Honest(w, tr) && (forall e :: e in tr ==> e.Confirmed?)
      invariant Confirmations(calls, i, tr) && ConfirmedUpTo(calls, w, i)
      invariant kept.None? <==> NoDestructive(calls, i)
      invariant OneSlotEach(tr)
      invariant kept.Some? ==> ReadResumeValue(kept.value) !in CANCELS
    {
      if IsDestructiveTool(calls[i].name) {
        var answer := w.confirm(i);
        assert !Accepts(answer, REJECTIONS) ==> UnconfirmedAt(calls, w, i);
        if answer.Suspends? { return Some(Leaves), kept, tr; }
        var decision := ReadResumeValue(answer.value);
        if decision in REJECTIONS {
          return Some(Returns(Cancelled, CancelAll(calls))), kept, tr;
        }
        assert forall e :: e in tr + [Confirmed(i)] <==> e in tr || e == Confirmed(i);
        kept, tr := Some(answer.value), tr + [Confirmed(i)];
      }
    }
    stop := None;
  }

  // Phase 1, second loop: the auth check of a provider seen for the first time.
  method ObtainToken(calls: seq<Call>, reg: Registry, w: World, p: string, was: Option<ResumeValue>)
    returns (stop: Option<Outcome>, kept: Option<ResumeValue>, token: string, tr: seq<Event>)
    requires was.Some? ==> ReadResumeValue(was.value) !in CANCELS
    ensures Honest(w, tr) && OneSlotEach(tr)
    ensures forall e :: e in tr ==> e == Connected(p) || e == TokenHeld(p)
    ensures stop.None? ==> w.Token(p) == Some(token) && TokenHeld(p) in tr
    ensures stop.None? <==> Obtains(w, p)
    ensures stop.Some? ==> ProviderEnds(calls, reg, w, p, true, stop.value)
    ensures kept.Some? ==> ReadResumeValue(kept.value) !in CANCELS
    ensures stop.None? ==> (kept.Some? <==> was.Some? || w.token(p).None?)
  {
    stop, kept, token, tr := None, was, "", [];
    var found := w.token(p);
    if found.None? {
      var answer := w.connect(p);
      assert answer.Suspends? ==> Caused(w, p, true, ConnectPending);
      assert answer.Resumes? && !Accepts(answer, CANCELS) ==> Caused(w, p, true, ConnectRefused);
      if answer.Suspends? { return Some(Leaves), kept, token, tr; }
      if ReadResumeValue(answer.value) in CANCELS {
        return Some(Returns(Cancelled, CancelAll(calls))), kept, token, tr;
      }
      kept, tr := Some(answer.value), [Connected(p)];
      found := w.tokenAfter(p);
      if found.None? {
        assert Caused(w, p, true, NoToken);
        return Some(StillUnconnectedReply(calls, reg, p)), kept, token, tr;
      }
    }
    token, tr := found.value, tr + [TokenHeld(p)];
  }

  // Phase 1, second loop: the rate limit check of the same provider.
  method TakeSlot(calls: seq<Call>, reg: Registry, w: World, p: string, kept: Option<ResumeValue>)
    returns (stop: Option<Outcome>, tr: seq<Event>)
    requires kept.Some? ==> ReadResumeValue(kept.value) !in CANCELS
    requires Obtains(w, p)
    ensures Honest(w, tr)
    ensures OneSlotEach(tr)
    ensures forall e :: e in tr ==> e == WaitAnswered(p) || e == SlotTaken(p) || e == LimiterDown(p)
    ensures stop.None? <==> TakesSlot(w, p, kept.Some?)
    ensures stop.None? ==> SlotTaken(p) in tr || LimiterDown(p) in tr
    ensures stop.Some? ==> SlotTaken(p) !in tr && ProviderEnds(calls, reg, w, p, kept.Some?, stop.value)
  {
    stop, tr := None, [];
    var reply := w.limit(p);
    if reply.Denied? {
      var answer := w.wait(p);
      assert answer.Suspends? ==> Caused(w, p, kept.Some?, WaitPending);
      if answer.Suspends? { return Some(Leaves), tr; }
      tr := [WaitAnswered(p)];
      // The code reads resume_val here, not this prompt's answer.
      assert kept.None? ==> Caused(w, p, kept.Some?, NoAnswer);
      if kept.None? { return Some(Crashes), tr; }
      if ReadResumeValue(kept.value) in CANCELS {
        return Some(Returns(Cancelled, CancelAll(calls))), tr;
      }
      reply := w.limitAgain(p);
      if reply.Denied? {
        assert Caused(w, p, kept.Some?, DeniedAgain);
        return Some(StillLimitedReply(calls, reg, p)), tr;
      }
    }
    tr := tr + [if reply.Allowed? then SlotTaken(p) else LimiterDown(p)];
  }

  lemma JoinEvents(w: World, a: seq<Event>, b: seq<Event>)
    requires Honest(w, a) && Honest(w, b) && OneSlotEach(a) && OneSlotEach(b)
    requires forall e, f :: e in a && f in b && e.SlotTaken? && f.SlotTaken? ==> e.provider != f.provider
    ensures Honest(w, a + b) && OneSlotEach(a + b)
    ensures forall e :: e in a + b <==> e in a || e in b
  {
    var ab := a + b;
    forall j, k | 0 <= j < k < |ab| && ab[j].SlotTaken? && ab[k].SlotTaken?
      ensures ab[j].provider != ab[k].provider
    {
      assert j < |a| ==> ab[j] == a[j] && ab[j] in a;
      assert k >= |a| ==> ab[k] == b[k - |a|] && ab[k] in b;
    }
  }

  method ValidateProvider(calls: seq<Call>, reg: Registry, w: World, p: string, was: Option<ResumeValue>)
    returns (stop: Option<Outcome>, kept: Option<ResumeValue>, token: string, tr: seq<Event>)
    requires was.Some? ==> ReadResumeValue(was.value) !in CANCELS
    ensures Honest(w, tr) && OneSlotEach(tr)
    ensures forall e :: e in tr ==> !e.Confirmed? && !e.Ran? && e.provider == p
    ensures var answered := was.Some? || w.token(p).None?;
            && (stop.None? <==> Obtains(w, p) && TakesSlot(w, p, answered))
            && (stop.Some? ==> ProviderEnds(calls, reg, w, p, answered, stop.value) && SlotTaken(p) !in tr)
            && (stop.None? ==> (kept.Some? <==> answered))
    ensures stop.None? ==> ProviderCleared(p, tr) && w.Token(p) == Some(token)
    ensures kept.Some? ==> ReadResumeValue(kept.value) !in CANCELS
  {
    stop, kept, token, tr := ObtainToken(calls, reg, w, p, was);
    if stop.None? {
      var more;
      stop, more := TakeSlot(calls, reg, w, p, kept);
      JoinEvents(w, tr, more);
      tr := tr + more;
    }
  }

  predicate TokensHeld(calls: seq<Call>, reg: Registry, w: World, tokens: map<string, string>) {
    forall i :: 0 <= i < |calls| && calls[i].name in reg.providerOf ==>
      var p := reg.providerOf[calls[i].name];
      p in tokens && w.Token(p) == Some(tokens[p])
  }

  // What the second loop has established for the first i calls.
  ghost predicate Validated(calls: seq<Call>, reg: Registry, w: World, i: nat,
                            checked: set<string>, tokens: map<string, string>, tr: seq<Event>)
    requires i <= |calls|
  {
    && (forall e :: e in tr && !e.Confirmed? && !e.Ran? ==> e.provider in checked)
    && (forall j :: 0 <= j < i && calls[j].name in reg.providerOf ==> reg.providerOf[calls[j].name] in checked)
    && (forall p :: p in checked ==> exists j :: 0 <= j < i && reg.HasProvider(calls[j].name, p))
    && (forall p :: p in checked ==> ProviderCleared(p, tr) && p in tokens && w.Token(p) == Some(tokens[p]))
  }

  // Events true to the world, with every destructive call confirmed, none of them a tool run.
  ghost predicate Checks(calls: seq<Call>, w: World, tr: seq<Event>) {
    Honest(w, tr) && OneSlotEach(tr) && NoRuns(tr) && Confirmations(calls, |calls|, tr)
  }

  // Checking a provider for the first time keeps the record of checks in order.
  lemma ChecksJoin(calls: seq<Call>, reg: Registry, w: World, i: nat, checked: set<string>,
                   tokens: map<string, string>, tr: seq<Event>, p: string, more: seq<Event>)
    requires i < |calls| && Validated(calls, reg, w, i, checked, tokens, tr) && Checks(calls, w, tr)
    requires p !in checked && Honest(w, more) && OneSlotEach(more)
    requires forall e :: e in more ==> !e.Confirmed? && !e.Ran? && e.provider == p
    ensures Checks(calls, w, tr + more)
  {
    JoinEvents(w, tr, more);
  }

  lemma ValidatedStep(calls: seq<Call>, reg: Registry, w: World, i: nat, checked: set<string>,
                      tokens: map<string, string>, tr: seq<Event>, p: string, token: string, more: seq<Event>)
    requires i < |calls| && Validated(calls, reg, w, i, checked, tokens, tr)
    requires reg.HasProvider(calls[i].name, p) && w.Token(p) == Some(token) && ProviderCleared(p, more)
    requires forall e :: e in more ==> !e.Confirmed? && !e.Ran? && e.provider == p
    ensures Validated(calls, reg, w, i + 1, checked + {p}, tokens[p := token], tr + more)
  {
    assert forall e :: e in tr + more <==> e in tr || e in more;
  }

  lemma AllValidated(calls: seq<Call>, reg: Registry, w: World, checked: set<string>,
                     tokens: map<string, string>, tr: seq<Event>)
    requires Validated(calls, reg, w, |calls|, checked, tokens, tr) && Checks(calls, w, tr)
    ensures Cleared(calls, reg, tr) && TokensHeld(calls, reg, w, tokens)
  {
  }

  // A call whose provider was checked passes as that check did, and asks nothing new.
  lemma SkipStep(calls: seq<Call>, reg: Registry, w: World, i: nat, checked: set<string>,
                 tokens: map<string, string>, tr: seq<Event>)
    requires i < |calls| && Validated(calls, reg, w, i, checked, tokens, tr) && PassesUpTo(calls, reg, w, i)
    requires calls[i].name !in reg.providerOf || reg.providerOf[calls[i].name] in checked
    ensures Validated(calls, reg, w, i + 1, checked, tokens, tr) && PassesUpTo(calls, reg, w, i + 1)
    ensures Answered(calls, reg, w, i + 1) <==> Answered(calls, reg, w, i)
  {
    if calls[i].name in reg.providerOf {
      var p := reg.providerOf[calls[i].name];
      var j :| 0 <= j < i && reg.HasProvider(calls[j].name, p);
      assert Passes(calls, reg, w, j);
      assert AsksToConnect(calls[i], reg, w) <==> AsksToConnect(calls[j], reg, w);
      assert Answered(calls, reg, w, j + 1) ==> Answered(calls, reg, w, i);
    }
  }

  lemma AnsweredStep(calls: seq<Call>, reg: Registry, w: World, i: nat)
    requires i < |calls|
    ensures Answered(calls, reg, w, i + 1) <==> Answered(calls, reg, w, i) || AsksToConnect(calls[i], reg, w)
  {
  }

  ghost predicate EndsAtProvider(calls: seq<Call>, reg: Registry, w: World, o: Outcome) {
    exists p, cause, i: nat :: BlockedFor(calls, reg, w, p, cause, i) && o == OutcomeOf(calls, reg, p, cause)
  }

  lemma PassStep(calls: seq<Call>, reg: Registry, w: World, i: nat, p: string)
    requires i < |calls| && reg.HasProvider(calls[i].name, p) && PassesUpTo(calls, reg, w, i)
    requires Obtains(w, p) && TakesSlot(w, p, Answered(calls, reg, w, i + 1))
    ensures PassesUpTo(calls, reg, w, i + 1)
  {
  }

  lemma EndStep(calls: seq<Call>, reg: Registry, w: World, i: nat, p: string, o: Outcome)
    requires i < |calls| && reg.HasProvider(calls[i].name, p) && PassesUpTo(calls, reg, w, i)
    requires ProviderEnds(calls, reg, w, p, Answered(calls, reg, w, i + 1), o)
    ensures EndsAtProvider(calls, reg, w, o)
  {
    var cause :| Caused(w, p, Answered(calls, reg, w, i + 1), cause) && o == OutcomeOf(calls, reg, p, cause);
    CauseUnique(w, p, Answered(calls, reg, w, i + 1), cause, cause);
    assert BlockedFor(calls, reg, w, p, cause, i);
  }

  // One round of the second loop, at a call whose provider was not checked before.
  method ValidateNext(calls: seq<Call>, reg: Registry, w: World, i: nat, was: Option<ResumeValue>, before: seq<Event>,
                      checked: set<string>, tokens: map<string, string>)
    returns (stop: Option<Outcome>, kept: Option<ResumeValue>, token: string, tr: seq<Event>)
    requires i < |calls| && calls[i].name in reg.providerOf && reg.providerOf[calls[i].name] !in checked
    requires Checks(calls, w, before) && Validated(calls, reg, w, i, checked, tokens, before)
    requires PassesUpTo(calls, reg, w, i)
    requires was.Some? ==> ReadResumeValue(was.value) !in CANCELS
    requires was.Some? <==> Answered(calls, reg, w, i)
    ensures Checks(calls, w, tr)
    ensures stop.Some? ==> EndsAtProvider(calls, reg, w, stop.value)
    ensures stop.None? ==>
              var p := reg.providerOf[calls[i].name];
              Validated(calls, reg, w, i + 1, checked + {p}, tokens[p := token], tr)
    ensures stop.None? ==> PassesUpTo(calls, reg, w, i + 1) && (kept.Some? <==> Answered(calls, reg, w, i + 1))
    ensures kept.Some? ==> ReadResumeValue(kept.value) !in CANCELS
  {
    var p := reg.providerOf[calls[i].name];
    AnsweredStep(calls, reg, w, i);
    var more;
    stop, kept, token, more := ValidateProvider(calls, reg, w, p, was);
    ChecksJoin(calls, reg, w, i, checked, tokens, before, p, more);
    tr := before + more;
    if stop.Some? {
      EndStep(calls, reg, w, i, p, stop.value);
    } else {
      PassStep(calls, reg, w, i, p);
      ValidatedStep(calls, reg, w, i, checked, tokens, before, p, token, more);
    }
  }

  // Phase 1, second loop, over all calls; `before` holds the confirmations.
  method ValidateProviders(calls: seq<Call>, reg: Registry, w: World, was: Option<ResumeValue>, before: seq<Event>)
    returns (stop: Option<Outcome>, tokens: map<string, string>, tr: seq<Event>)
    requires was.Some? ==> ReadResumeValue(was.value) !in CANCELS
    requires was.None? <==> NoDestructive(calls, |calls|)
    requires Checks(calls, w, before) && forall e :: e in before ==> e.Confirmed?
    ensures Checks(calls, w, tr)
    ensures stop.None? ==> PassesUpTo(calls, reg, w, |calls|)
    ensures stop.None? ==> Cleared(calls, reg, tr) && TokensHeld(calls, reg, w, tokens)
    ensures stop.Some? ==> EndsAtProvider(calls, reg, w, stop.value)
  {
    stop, tokens, tr := None, map[], before;
    var kept := was;
    var checked: set<string> := {};
    for i := 0 to |calls|
      invariant stop.None?
      invariant Checks(calls, w, tr)
      invariant Validated(calls, reg, w, i, checked, tokens, tr)
      invariant kept.Some? ==> ReadResumeValue(kept.value) !in CANCELS
      invariant PassesUpTo(calls, reg, w, i) && (kept.Some? <==> Answered(calls, reg, w, i))
    {
      if calls[i].name !in reg.providerOf || reg.providerOf[calls[i].name] in checked {
        SkipStep(calls, reg, w, i, checked, tokens, tr);
        continue;
      }
      var token;
      stop, kept, token, tr := ValidateNext(calls, reg, w, i, kept, tr, checked, tokens);
      if stop.Some? { return; }
      var p := reg.providerOf[calls[i].name];
      checked, tokens := checked + {p}, tokens[p := token];
    }
    AllValidated(calls, reg, w, checked, tokens, tr);
  }

  function Runs(ran: seq<nat>): seq<Event> {
    seq(|ran|, i requires 0 <= i < |ran| => Ran(ran[i]))
  }

  // Phase 2 for one call: whether the tool was invoked, and what came of it.
  method ExecuteCall(calls: seq<Call>, reg: Registry, w: World, tokens: map<string, string>, i: nat)
    returns (ran: bool, output: Option<string>)
    requires i < |calls|
    requires HasRemote(calls, reg, i) ==>
               var p := reg.providerOf[calls[i].name];
               p in tokens && w.Token(p) == Some(tokens[p])
    ensures ran <==> Runnable(w, calls, reg, i)
    ensures output == if ran && w.run(i).Interrupts? then None else Some(OutputText(w, calls, reg, i))
  {
    var name := calls[i].name;
    ran := false;
    if HasRemote(calls, reg, i) {
      var p := reg.providerOf[name];
      var token := if tokens[p] != "" then Some(tokens[p]) else w.lateToken(i);
      if token.None? || token.value == "" {
        return false, Some("[Error] No valid token for " + p + ". ");
      }
    } else if name !in reg.executables {
      return false, Some("Tool '" + name + "' is not available. It may have been removed or renamed.");
    }
    ran := true;
    match w.run(i) {
      case Output(text) => output := Some(text);
      case Fails(e) => output := Some("Tool '" + name + "' failed: " + e + ". Try a different approach.");
      case Interrupts => output := None;
    }
  }

  // The runnable calls among the first n, in order.
  function RunnableUpTo(w: World, calls: seq<Call>, reg: Registry, n: nat): seq<nat>
    requires n <= |calls|
  {
    if n == 0 then []
    else if Runnable(w, calls, reg, n - 1) then RunnableUpTo(w, calls, reg, n - 1) + [n - 1]
    else RunnableUpTo(w, calls, reg, n - 1)
  }

  lemma {:induction false} RunnableUpToExact(w: World, calls: seq<Call>, reg: Registry, n: nat)
    requires n <= |calls|
    ensures var ran := RunnableUpTo(w, calls, reg, n);
            && (forall i: nat :: i in ran <==> i < n && Runnable(w, calls, reg, i))
            && (forall j, k :: 0 <= j < k < |ran| ==> ran[j] < ran[k])
  {
    if n > 0 {
      RunnableUpToExact(w, calls, reg, n - 1);
      var front := RunnableUpTo(w, calls, reg, n - 1);
      assert forall j :: 0 <= j < |front| ==> front[j] in front;
    }
  }

  predicate RepliedUpTo(w: World, calls: seq<Call>, reg: Registry, ms: seq<Message>, n: nat) requires n <= |calls| {
    |ms| == n && forall j :: 0 <= j < n ==> IsReply(calls[j], OutputText(w, calls, reg, j), ms[j])
  }

  lemma HandleStep(w: World, calls: seq<Call>, reg: Registry, ms: seq<Message>, i: nat)
    requires i < |calls| && RepliedUpTo(w, calls, reg, ms, i) && NoInterrupt(calls, reg, w, i)
    requires !InterruptsAt(calls, reg, w, i)
    ensures RepliedUpTo(w, calls, reg, ms + [ResponseTo(calls[i], OutputText(w, calls, reg, i))], i + 1)
    ensures NoInterrupt(calls, reg, w, i + 1)
  {
  }

  lemma RunnableUpToStep(w: World, calls: seq<Call>, reg: Registry, i: nat)
    requires i < |calls|
    ensures RunnableUpTo(w, calls, reg, i + 1) ==
              RunnableUpTo(w, calls, reg, i) + if Runnable(w, calls, reg, i) then [i] else []
  {
  }

  lemma RepliesComplete(w: World, calls: seq<Call>, reg: Registry, ms: seq<Message>)
    requires RepliedUpTo(w, calls, reg, ms, |calls|)
    ensures RepliesTo(calls, (i: nat) => OutputText(w, calls, reg, i), ms)
  {
    assert forall j :: 0 <= j < |calls| ==> IsReply(calls[j], OutputText(w, calls, reg, j), ms[j]);
  }

  // Phase 2. Each reachable tool is invoked once, in call order, until one interrupts;
  // `reach` calls were handled.
  method ExecuteCalls(calls: seq<Call>, reg: Registry, w: World, tokens: map<string, string>)
    returns (results: Option<seq<Message>>, ran: seq<nat>, ghost reach: nat)
    requires TokensHeld(calls, reg, w, tokens)
    ensures reach <= |calls| && ran == RunnableUpTo(w, calls, reg, reach)
    ensures results.Some? ==>
              && reach == |calls| && NoInterrupt(calls, reg, w, |calls|)
              && RepliesTo(calls, (i: nat) => OutputText(w, calls, reg, i), results.value)
    ensures results.None? ==>
              reach > 0 && NoInterrupt(calls, reg, w, reach - 1) && InterruptsAt(calls, reg, w, reach - 1)
  {
    var messages: seq<Message> := [];
    ran, reach := [], 0;
    for i := 0 to |calls|
      invariant reach == i && NoInterrupt(calls, reg, w, i)
      invariant RepliedUpTo(w, calls, reg, messages, i)
      invariant ran == RunnableUpTo(w, calls, reg, i)
    {
      var invoked, output := ExecuteCall(calls, reg, w, tokens, i);
      reach := i + 1;
      RunnableUpToStep(w, calls, reg, i);
      if invoked { ran := ran + [i]; }
      if output.None? { return None, ran, reach; }
      HandleStep(w, calls, reg, messages, i);
      messages := messages + [ResponseTo(calls[i], output.value)];
    }
    RepliesComplete(w, calls, reg, messages);
    results := Some(messages);
  }

  lemma RunsAfterClearance(calls: seq<Call>, reg: Registry, w: World, checks: seq<Event>, ran: seq<nat>)
    requires Cleared(calls, reg, checks) && NoRuns(checks) && OneSlotEach(checks) && Honest(w, checks)
    ensures RunsOnlyWhenCleared(calls, reg, checks + Runs(ran))
    ensures OneSlotEach(checks + Runs(ran)) && Honest(w, checks + Runs(ran))
    ensures forall e :: e in checks + Runs(ran) ==> e in checks || (e.Ran? && e.call in ran)
    ensures forall i :: i in ran ==> Ran(i) in checks + Runs(ran)
  {
    var runs := Runs(ran);
    assert forall e :: e in runs ==> e.Ran?;
    JoinEvents(w, checks, runs);
    var tr := checks + runs;
    forall k | 0 <= k < |checks| ensures !tr[k].Ran? { assert checks[k] in checks; }
    forall k | |checks| <= k < |tr| ensures Cleared(calls, reg, tr[..k]) {
      assert tr[..k] == checks + runs[..k - |checks|];
    }
    forall i | i in ran ensures Ran(i) in runs {
      var j :| 0 <= j < |ran| && ran[j] == i;
      assert runs[j] == Ran(i);
    }
  }

  // What the node returns, by the exit it takes.
  ghost predicate ReturnsProperly(calls: seq<Call>, reg: Registry, w: World, o: Outcome)
    requires o.Returns?
  {
    match o.exit
    case NothingToDo => o.messages == []
    case Cancelled => o.messages == CancelAll(calls)
    case StillUnconnected(p) => o == StillUnconnectedReply(calls, reg, p)
    case StillLimited(p) => o == StillLimitedReply(calls, reg, p)
    case Executed => RepliesTo(calls, (i: nat) => OutputText(w, calls, reg, i), o.messages)
  }

  // A tool runs exactly when every check succeeds, it can be reached, and no tool
  // before it interrupts the pass; each runs once, in call order.
  ghost predicate RunsExactly(calls: seq<Call>, reg: Registry, w: World, tr: seq<Event>) {
    && (forall i: nat :: Ran(i) in tr <==> RunsHere(calls, reg, w, i))
    && (forall j, k :: 0 <= j < k < |tr| && tr[j].Ran? && tr[k].Ran? ==> tr[j].call < tr[k].call)
  }

  predicate RunsHere(calls: seq<Call>, reg: Registry, w: World, i: nat) {
    i < |calls| && AllClear(calls, reg, w) && Runnable(w, calls, reg, i) && NoInterrupt(calls, reg, w, i)
  }

  lemma NothingRuns(calls: seq<Call>, reg: Registry, w: World, tr: seq<Event>)
    requires NoRuns(tr) && (calls != [] ==> !AllClear(calls, reg, w))
    ensures RunsOnlyWhenCleared(calls, reg, tr) && RunsExactly(calls, reg, w, tr)
  {
    assert forall k :: 0 <= k < |tr| ==> tr[k] in tr;
  }

  lemma RunsAreThese(calls: seq<Call>, reg: Registry, w: World, checks: seq<Event>, reach: nat)
    requires AllClear(calls, reg, w) && NoRuns(checks) && reach <= |calls|
    requires NoInterrupt(calls, reg, w, if reach == 0 then 0 else reach - 1)
    requires reach == |calls| || (reach > 0 && InterruptsAt(calls, reg, w, reach - 1))
    ensures RunsExactly(calls, reg, w, checks + Runs(RunnableUpTo(w, calls, reg, reach)))
  {
    var ran := RunnableUpTo(w, calls, reg, reach);
    RunnableUpToExact(w, calls, reg, reach);
    var tr := checks + Runs(ran);
    forall i: nat ensures Ran(i) in tr <==> i in ran {
      if i in ran {
        var j :| 0 <= j < |ran| && ran[j] == i;
        assert tr[|checks| + j] == Ran(i);
      }
    }
    forall i: nat ensures i in ran <==> RunsHere(calls, reg, w, i) {}
    forall k | 0 <= k < |checks| ensures !tr[k].Ran? { assert checks[k] in checks; }
  }

  // One pass of the node. Each outcome has exactly its cause. No tool runs before every
  // call of the pass is cleared, and no provider is charged twice.
  method ToolNode(calls: seq<Call>, reg: Registry, w: World) returns (o: Outcome, tr: seq<Event>)
    ensures Explained(calls, reg, w, o)
    ensures o.Returns? ==> ReturnsProperly(calls, reg, w, o)
    ensures RunsOnlyWhenCleared(calls, reg, tr) && RunsExactly(calls, reg, w, tr)
    ensures OneSlotEach(tr) && Honest(w, tr)
  {
    tr := [];
    if calls == [] {
      EmptyEnds(reg, w);
      return Returns(NothingToDo, []), tr;
    }
    var stop, kept;
    stop, kept, tr := ConfirmDestructive(calls, w);
    if stop.Some? {
      ghost var i: nat :| UnconfirmedAt(calls, w, i) && stop.value == ConfirmOutcome(calls, w, i);
      UnconfirmedEnds(calls, reg, w, i);
      NothingRuns(calls, reg, w, tr);
      return stop.value, tr;
    }
    var tokens;
    stop, tokens, tr := ValidateProviders(calls, reg, w, kept, tr);
    if stop.Some? {
      ghost var p, cause, i: nat :|
        BlockedFor(calls, reg, w, p, cause, i) && stop.value == OutcomeOf(calls, reg, p, cause);
      BlockEnds(calls, reg, w, p, cause, i);
      NothingRuns(calls, reg, w, tr);
      return stop.value, tr;
    }
    var results, ran, reach := ExecuteCalls(calls, reg, w, tokens);
    RunsAreThese(calls, reg, w, tr, reach);
    RunsAfterClearance(calls, reg, w, tr, ran);
    tr := tr + Runs(ran);
    o := if results.None? then Leaves else Returns(Executed, results.value);
    ClearEnds(calls, reg, w, o);
  }

  // ---------------------------------------------------------------------------
  // What the outcomes amount to
  // ---------------------------------------------------------------------------

  // The exit is determined by the calls and the world.
  lemma OutcomeDetermined(calls: seq<Call>, reg: Registry, w: World, a: Outcome, b: Outcome)
    requires Explained(calls, reg, w, a) && Explained(calls, reg, w, b)
    ensures a.Returns? == b.Returns? && a.Leaves? == b.Leaves?
    ensures a.Returns? ==> a.exit == b.exit
  {
  }

  // Another world that suspends at the same rate-limit prompts, but answers them differently.
  ghost predicate OtherWaitAnswers(w: World, v: World) {
    v == w.(wait := v.wait) && forall p :: w.wait(p).Suspends? <==> v.wait(p).Suspends?
  }

  lemma SameChecks(calls: seq<Call>, reg: Registry, w: World, v: World)
    requires OtherWaitAnswers(w, v)
    ensures forall i: nat :: UnconfirmedAt(calls, w, i) <==> UnconfirmedAt(calls, v, i)
    ensures forall p, cause :: StopsFor(calls, reg, w, p, cause) <==> StopsFor(calls, reg, v, p, cause)
    ensures AllClear(calls, reg, w) <==> AllClear(calls, reg, v)
    ensures NoInterrupt(calls, reg, w, |calls|) <==> NoInterrupt(calls, reg, v, |calls|)
  {
    forall n | 0 <= n <= |calls| ensures Answered(calls, reg, w, n) <==> Answered(calls, reg, v, n) {
      assert forall j :: 0 <= j < n ==> (AsksToConnect(calls[j], reg, w) <==> AsksToConnect(calls[j], reg, v));
    }
    forall i | 0 <= i < |calls| ensures Passes(calls, reg, w, i) <==> Passes(calls, reg, v, i) {}
    forall i | 0 <= i < |calls| ensures InterruptsAt(calls, reg, w, i) <==> InterruptsAt(calls, reg, v, i) {}
    forall p, cause, i: nat
      ensures BlockedFor(calls, reg, w, p, cause, i) <==> BlockedFor(calls, reg, v, p, cause, i)
    {
    }
  }

  lemma SameEnds(calls: seq<Call>, reg: Registry, w: World, v: World)
    requires OtherWaitAnswers(w, v)
    ensures Suspended(calls, reg, w) <==> Suspended(calls, reg, v)
    ensures UserRefuses(calls, reg, w) <==> UserRefuses(calls, reg, v)
    ensures (exists p :: StopsFor(calls, reg, w, p, NoAnswer)) <==> exists p :: StopsFor(calls, reg, v, p, NoAnswer)
  {
    SameChecks(calls, reg, w, v);
  }

  // What the user answers to a rate-limit prompt never matters: "cancel" does not cancel.
  lemma WaitAnswerIgnored(calls: seq<Call>, reg: Registry, w: World, v: World, o: Outcome)
    requires OtherWaitAnswers(w, v)
    ensures Explained(calls, reg, w, o) <==> Explained(calls, reg, v, o)
  {
    SameChecks(calls, reg, w, v);
    SameEnds(calls, reg, w, v);
  }

  // The provider passes both checks without a prompt.
  predicate Smooth(w: World, p: string) {
    w.token(p).Some? && !w.limit(p).Denied?
  }

  // The rate-limit prompt of call i is the first prompt of the pass, and it is answered.
  predicate FirstPromptIsWait(calls: seq<Call>, reg: Registry, w: World, i: nat) {
    && i < |calls| && NoDestructive(calls, |calls|) && calls[i].name in reg.providerOf
    && (forall j :: 0 <= j < i && calls[j].name in reg.providerOf ==> Smooth(w, reg.providerOf[calls[j].name]))
    && var p := reg.providerOf[calls[i].name];
       w.token(p).Some? && w.limit(p).Denied? && w.wait(p).Resumes?
  }

  // A pass crashes exactly when the first prompt it meets is an answered rate-limit prompt.
  lemma CrashIff(calls: seq<Call>, reg: Registry, w: World)
    ensures (exists p :: StopsFor(calls, reg, w, p, NoAnswer)) <==>
              exists i: nat :: FirstPromptIsWait(calls, reg, w, i)
  {
    forall p, i: nat | ConfirmedUpTo(calls, w, |calls|) && BlockedFor(calls, reg, w, p, NoAnswer, i)
      ensures FirstPromptIsWait(calls, reg, w, i)
    {
      forall j | 0 <= j <= i && calls[j].name in reg.providerOf ensures w.token(reg.providerOf[calls[j].name]).Some? {
        assert !AsksToConnect(calls[j], reg, w);
      }
      forall j | 0 <= j < i && calls[j].name in reg.providerOf ensures Smooth(w, reg.providerOf[calls[j].name]) {
        assert Passes(calls, reg, w, j) && !Answered(calls, reg, w, j + 1);
      }
    }
    forall i: nat | FirstPromptIsWait(calls, reg, w, i)
      ensures StopsFor(calls, reg, w, reg.providerOf[calls[i].name], NoAnswer)
    {
      forall j | 0 <= j <= i ensures !AsksToConnect(calls[j], reg, w) {}
      assert forall j :: 0 <= j < i ==> Passes(calls, reg, w, j);
      assert BlockedFor(calls, reg, w, reg.providerOf[calls[i].name], NoAnswer, i);
    }
  }

  // A world in which tokens are held and the limiter denies; every prompt is answered.
  const OVER_LIMIT := World(_ => Resumes(Str("ok")), _ => Some("token"), _ => Resumes(Str("ok")), _ => Some("token"),
                           _ => Denied, _ => Resumes(Str("ok")), _ => Allowed, _ => None, _ => Output("done"))

  // It does happen: one call whose provider is over its limit.
  lemma CrashReached()
    ensures Explained([Call("1", "ls")], Registry(map["ls" := "p"], {}), OVER_LIMIT, Crashes)
  {
    var calls, reg := [Call("1", "ls")], Registry(map["ls" := "p"], {});
    assert FirstPromptIsWait(calls, reg, OVER_LIMIT, 0);
    assert BlockedFor(calls, reg, OVER_LIMIT, "p", NoAnswer, 0);
    BlockEnds(calls, reg, OVER_LIMIT, "p", NoAnswer, 0);
  }

  // ---------------------------------------------------------------------------
  // The terms of the specification, spelled out
  // ---------------------------------------------------------------------------

  // The same letters, whatever their case; `word` is in lower case.
  predicate Spells(part: string, word: string) {
    && |part| == |word|
    && forall t :: 0 <= t < |word| ==>
         part[t] == word[t] || ('A' <= part[t] <= 'Z' && part[t] as int + 32 == word[t] as int)
  }

  predicate IsDestructiveWord(word: string) {
    word in {"delete", "remove", "destroy", "drop", "purge", "wipe",
             "erase", "terminate", "uninstall", "unlink", "revoke"}
  }

  predicate InLowerCase(word: string) { forall t :: 0 <= t < |word| ==> 'a' <= word[t] <= 'z' }

  lemma KeywordsInLowerCase(word: string)
    requires word in DESTRUCTIVE_KEYWORDS
    ensures InLowerCase(word)
  {
  }

  lemma LowerSpells(name: string, word: string, i: nat)
    requires i + |word| <= |name| && InLowerCase(word)
    ensures OccursAt(Lower(name), word, i) <==> Spells(name[i..i + |word|], word)
  {
    var part := Lower(name)[i..i + |word|];
    assert forall t :: 0 <= t < |word| ==> part[t] == LowerChar(name[i + t]);
    var slice := name[i..i + |word|];
    assert forall t :: 0 <= t < |word| ==> slice[t] == name[i + t];
  }

  // A tool is destructive exactly when some part of its name spells one of eleven words.
  lemma DestructiveIff(name: string)
    ensures IsDestructiveTool(name) <==>
              exists i, j, word :: 0 <= i <= j <= |name| && IsDestructiveWord(word) && Spells(name[i..j], word)
  {
    if IsDestructiveTool(name) {
      var word :| word in DESTRUCTIVE_KEYWORDS && Contains(Lower(name), word);
      var i :| 0 <= i <= |name| - |word| && OccursAt(Lower(name), word, i);
      KeywordsInLowerCase(word);
      LowerSpells(name, word, i);
      assert IsDestructiveWord(word) && Spells(name[i..i + |word|], word);
    }
    if i, j, word :| 0 <= i <= j <= |name| && IsDestructiveWord(word) && Spells(name[i..j], word) {
      assert word in DESTRUCTIVE_KEYWORDS;
      KeywordsInLowerCase(word);
      LowerSpells(name, word, i);
      assert OccursAt(Lower(name), word, i);
    }
  }

  // No confirmation of an earlier call was refused.
  predicate NoneRefused(w: World, i: nat) {
    forall h: nat :: h < i ==> w.confirm(h).Suspends? || Accepts(w.confirm(h), REJECTIONS)
  }

  // Where the prompt for such a call is not answered, or refused, the pass runs no tool; it
  // is left open, or cancelled, as the first such prompt was.
  lemma UnconfirmedRunsNothing(calls: seq<Call>, reg: Registry, w: World, i: nat, j: int, k: int, word: string,
                               o: Outcome, tr: seq<Event>)
    requires Explained(calls, reg, w, o) && RunsExactly(calls, reg, w, tr)
    requires i < |calls| && 0 <= j <= k <= |calls[i].name|
    requires IsDestructiveWord(word) && Spells(calls[i].name[j..k], word)
    requires !Accepts(w.confirm(i), REJECTIONS)
    ensures forall e :: e in tr ==> !e.Ran?
    ensures o.Leaves? || (o.Returns? && o.exit.Cancelled?)
    ensures w.confirm(i).Suspends? && NoneRefused(w, i) ==> o.Leaves?
  {
    DestructiveIff(calls[i].name);
    assert !ConfirmedUpTo(calls, w, |calls|);
    forall h: nat ensures Ran(h) !in tr {}
    var first := FirstUnconfirmed(calls, w, i);
    UnconfirmedEnds(calls, reg, w, first);
    OutcomeDetermined(calls, reg, w, o, ConfirmOutcome(calls, w, first));
  }

  lemma {:induction false} FirstUnconfirmed(calls: seq<Call>, w: World, i: nat) returns (first: nat)
    requires i < |calls| && IsDestructiveTool(calls[i].name) && !Accepts(w.confirm(i), REJECTIONS)
    ensures first <= i && UnconfirmedAt(calls, w, first)
  {
    if ConfirmedUpTo(calls, w, i) {
      first := i;
    } else {
      var j :| 0 <= j < i && IsDestructiveTool(calls[j].name) && !Accepts(w.confirm(j), REJECTIONS);
      first := FirstUnconfirmed(calls, w, j);
    }
  }

  // An answer is read from a string, or from the decision of a dictionary; one without a
  // decision, and any other value, refuses. A confirmation is refused by "no" as well.
  lemma AcceptsIff(answer: Prompt)
    ensures Accepts(answer, CANCELS) <==>
              && answer.Resumes?
              && match answer.value
                 case Str(text) => text != "cancel" && text != "reject" && text != "skip"
                 case Dict(d) => d.Some? && d.value != "cancel" && d.value != "reject" && d.value != "skip"
                 case Other => false
    ensures Accepts(answer, REJECTIONS) <==>
              && Accepts(answer, CANCELS)
              && answer.value != Str("no") && answer.value != Dict(Some("no"))
  {
  }

  predicate Truthy(t: Option<string>) { t.Some? && t.value != "" }

  // A call of a provider runs when some token for it is not empty; any other call runs when
  // its tool is known.
  lemma RunnableIff(w: World, calls: seq<Call>, reg: Registry, i: nat)
    requires i < |calls|
    ensures Runnable(w, calls, reg, i) <==>
              if calls[i].name in reg.providerOf && reg.providerOf[calls[i].name] != "" then
                var p := reg.providerOf[calls[i].name];
                || Truthy(w.lateToken(i))
                || (if w.token(p).Some? then Truthy(w.token(p)) else Truthy(w.tokenAfter(p)))
              else calls[i].name in reg.executables
  {
  }

  // The text of a reply: the output of the tool itself, or what went wrong.
  predicate ReplyText(w: World, c: Call, reg: Registry, i: nat, ran: bool, text: string) {
    if ran then
      match w.run(i)
      case Output(output) => text == output
      case Fails(error) => text == "Tool '" + c.name + "' failed: " + error + ". Try a different approach."
      case Interrupts => false
    else if c.name in reg.providerOf && reg.providerOf[c.name] != "" then
      text == "[Error] No valid token for " + reg.providerOf[c.name] + ". "
    else text == "Tool '" + c.name + "' is not available. It may have been removed or renamed."
  }

  // An executed pass replies to each call, in order, with the text that its own tool gave.
  lemma ExecutedReplies(calls: seq<Call>, reg: Registry, w: World, o: Outcome, tr: seq<Event>, i: nat)
    requires o.Returns? && o.exit.Executed? && i < |calls|
    requires Explained(calls, reg, w, o) && ReturnsProperly(calls, reg, w, o) && RunsExactly(calls, reg, w, tr)
    ensures |o.messages| == |calls|
    ensures o.messages[i].Tool? && o.messages[i].answers == calls[i].id && o.messages[i].content.Text?
    ensures ReplyText(w, calls[i], reg, i, Ran(i) in tr, o.messages[i].content.text)
  {
    assert !InterruptsAt(calls, reg, w, i);
    assert Ran(i) in tr <==> Runnable(w, calls, reg, i);
  }
}
