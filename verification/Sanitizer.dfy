// _sanitize_messages: what the language model gets to see of a history.
module Sanitizer {
  import opened Messages
  import opened Seqs

  // ---------------------------------------------------------------------------
  // Specification: two passes over the history
  // ---------------------------------------------------------------------------

  // An AI message stripped of its calls survives only by its text.
  function AsPlainText(m: Message): seq<Message> {
    if HasText(m.content) then [AI("", m.content, [], [])] else []
  }

  // What one message of a completed turn leaves behind.
  function PastOne(m: Message): seq<Message> {
    if m.Tool? then []
    else if CallIds(m) != {} then AsPlainText(m)
    else [m]
  }

  function PastView(ms: seq<Message>): seq<Message> {
    if ms == [] then [] else PastView(ms[..|ms| - 1]) + PastOne(ms[|ms| - 1])
  }

  // What one message leaves behind, given the ids answered and called.
  function CleanOne(m: Message, answered: set<CallId>, called: set<CallId>): seq<Message> {
    if CallIds(m) != {} then
      if CallIds(m) <= answered then [m] else AsPlainText(m)
    else if Answers(m) && m.answers !in called then []
    else [m]
  }

  function Clean(ms: seq<Message>, answered: set<CallId>, called: set<CallId>): seq<Message> {
    if ms == [] then []
    else Clean(ms[..|ms| - 1], answered, called) + CleanOne(ms[|ms| - 1], answered, called)
  }

  lemma PastViewStep(ms: seq<Message>, i: nat)
    requires i < |ms|
    ensures PastView(ms[..i + 1]) == PastView(ms[..i]) + PastOne(ms[i])
  {
    assert ms[..i + 1][..i] == ms[..i];
  }

  lemma CleanStep(ms: seq<Message>, i: nat, r: set<CallId>, c: set<CallId>)
    requires i < |ms|
    ensures Clean(ms[..i + 1], r, c) == Clean(ms[..i], r, c) + CleanOne(ms[i], r, c)
  {
    assert ms[..i + 1][..i] == ms[..i];
  }

  function Prune(ms: seq<Message>): seq<Message> {
    var k := LastHuman(ms);
    if k < 0 then ms else PastView(ms[..k]) + ms[k..]
  }

  // The second pass on its own.
  function Live(ms: seq<Message>): seq<Message> {
    Clean(ms, Responded(ms), Called(ms))
  }

  function Sanitize(ms: seq<Message>): seq<Message> {
    Live(Prune(ms))
  }

  // The part of the history that belongs to the turn in progress.
  function Turn(ms: seq<Message>): seq<Message> {
    if LastHuman(ms) < 0 then ms else ms[LastHuman(ms)..]
  }

  // ---------------------------------------------------------------------------
  // The code
  // ---------------------------------------------------------------------------

  method FindLastHuman(messages: seq<Message>) returns (last: int)
    ensures last == LastHuman(messages)
  {
    last := -1;
    for i := 0 to |messages|
      invariant -1 <= last < i
      invariant last >= 0 ==> messages[last].Human?
      invariant forall j :: last < j < i ==> !messages[j].Human?
    {
      if messages[i].Human? { last := i; }
    }
    LastHumanUnique(messages, last);
  }

  // What the first pass appends for one message of a completed turn.
  method PastMessage(msg: Message) returns (left: seq<Message>)
    ensures left == PastOne(msg)
  {
    if msg.Tool? { return []; }
    var ids := ExtractToolCallIds(msg);
    if ids != {} {
      return if HasText(msg.content) then [AI("", msg.content, [], [])] else [];
    }
    return [msg];
  }

  // What the first pass has built from the first i messages, the past ending at `split`.
  function PrunedUpTo(ms: seq<Message>, split: nat, i: nat): seq<Message>
    requires split <= |ms| && i <= |ms|
  {
    if i <= split then PastView(ms[..i]) else PastView(ms[..split]) + ms[split..i]
  }

  lemma PrunedUpToStep(ms: seq<Message>, split: nat, i: nat)
    requires split <= |ms| && i < |ms|
    ensures PrunedUpTo(ms, split, i + 1) ==
              PrunedUpTo(ms, split, i) + if i < split then PastOne(ms[i]) else [ms[i]]
  {
    if i < split {
      PastViewStep(ms, i);
    } else {
      assert ms[split..i + 1] == ms[split..i] + [ms[i]];
      Assoc(PastView(ms[..split]), ms[split..i], [ms[i]]);
    }
  }

  lemma PrunedNothing(ms: seq<Message>)
    ensures PrunedUpTo(ms, 0, |ms|) == ms
  {
    assert PastView(ms[..0]) == [] && ms[0..|ms|] == ms && [] + ms == ms;
  }

  lemma PrunedPast(ms: seq<Message>, k: nat)
    requires k < |ms|
    ensures PrunedUpTo(ms, k, |ms|) == PastView(ms[..k]) + ms[k..]
  {
    assert ms[k..|ms|] == ms[k..];
  }

  lemma PrunedUpToEnd(ms: seq<Message>, split: nat)
    requires split == if LastHuman(ms) < 0 then 0 else LastHuman(ms)
    ensures PrunedUpTo(ms, split, |ms|) == Prune(ms)
  {
    if LastHuman(ms) < 0 { PrunedNothing(ms); } else { PrunedPast(ms, split); }
  }

  // First pass: strip the completed turns.
  method PrunePast(messages: seq<Message>) returns (pruned: seq<Message>)
    ensures pruned == Prune(messages)
  {
    var last := FindLastHuman(messages);
    ghost var split := if last < 0 then 0 else last;
    pruned := [];
    for i := 0 to |messages|
      invariant pruned == PrunedUpTo(messages, split, i)
    {
      PrunedUpToStep(messages, split, i);
      if last != -1 && i < last {
        var left := PastMessage(messages[i]);
        pruned := pruned + left;
      } else {
        pruned := pruned + [messages[i]];
      }
    }
    PrunedUpToEnd(messages, split);
  }

  method CalledIds(messages: seq<Message>) returns (ids: set<CallId>)
    ensures ids == Called(messages)
  {
    ids := {};
    for j := 0 to |messages|
      invariant ids == Called(messages[..j])
    {
      var more := ExtractToolCallIds(messages[j]);
      assert messages[..j + 1] == messages[..j] + [messages[j]];
      CalledAppend(messages[..j], [messages[j]]);
      assert Called([messages[j]]) == CallIds(messages[j]) by {
        assert forall m :: m in [messages[j]] <==> m == messages[j];
      }
      ids := ids + more;
    }
    assert messages[..|messages|] == messages;
  }

  method SanitizeMessages(messages: seq<Message>) returns (sanitized: seq<Message>)
    ensures sanitized == Sanitize(messages)
  {
    sanitized := [];
    var pruned := PrunePast(messages);
    var answered := Responded(pruned);
    ghost var called := Called(pruned);
    for i := 0 to |pruned|
      invariant sanitized == Clean(pruned[..i], answered, called)
    {
      var msg := pruned[i];
      CleanStep(pruned, i, answered, called);
      var ids := ExtractToolCallIds(msg);
      if ids != {} {
        if !(ids <= answered) {
          if HasText(msg.content) { sanitized := sanitized + [AI("", msg.content, [], [])]; }
          continue;
        }
      } else if Answers(msg) {
        var valid := CalledIds(pruned);
        if msg.answers !in valid { continue; }
      }
      sanitized := sanitized + [msg];
    }
    assert pruned[..|pruned|] == pruned;
  }

  // ---------------------------------------------------------------------------
  // Both passes distribute over concatenation
  // ---------------------------------------------------------------------------

  lemma {:induction false} PastViewAppend(a: seq<Message>, b: seq<Message>)
    ensures PastView(a + b) == PastView(a) + PastView(b)
    decreases |b|
  {
    if b == [] {
      assert a + b == a;
    } else {
      var front := b[..|b| - 1];
      FrontOfAppend(a, b);
      PastViewAppend(a, front);
      Assoc(PastView(a), PastView(front), PastOne(b[|b| - 1]));
    }
  }

  lemma {:induction false} CleanAppend(a: seq<Message>, b: seq<Message>, r: set<CallId>, c: set<CallId>)
    ensures Clean(a + b, r, c) == Clean(a, r, c) + Clean(b, r, c)
    decreases |b|
  {
    if b == [] {
      assert a + b == a;
    } else {
      var front := b[..|b| - 1];
      FrontOfAppend(a, b);
      CleanAppend(a, front, r, c);
      Assoc(Clean(a, r, c), Clean(front, r, c), CleanOne(b[|b| - 1], r, c));
    }
  }

  // Membership in the cleaned history.
  lemma {:induction false} CleanMember(ms: seq<Message>, r: set<CallId>, c: set<CallId>, x: Message)
    ensures x in Clean(ms, r, c) <==> exists m :: m in ms && x in CleanOne(m, r, c)
  {
    if ms != [] {
      var n := |ms| - 1;
      CleanMember(ms[..n], r, c, x);
      assert ms == ms[..n] + [ms[n]];
      assert x in CleanOne(ms[n], r, c) ==> ms[n] in ms;
    }
  }

  // A quiet message makes no call and answers none.
  predicate Quiet(m: Message) { !m.Tool? && CallIds(m) == {} }
  predicate AllQuiet(ms: seq<Message>) { forall i :: 0 <= i < |ms| ==> Quiet(ms[i]) }

  lemma {:induction false} PastViewIsQuiet(ms: seq<Message>)
    ensures AllQuiet(PastView(ms))
    ensures Called(PastView(ms)) == {} == Responded(PastView(ms))
  {
    if ms != [] { PastViewIsQuiet(ms[..|ms| - 1]); }
  }

  lemma {:induction false} QuietUnchanged(ms: seq<Message>, r: set<CallId>, c: set<CallId>)
    requires AllQuiet(ms)
    ensures Clean(ms, r, c) == ms == PastView(ms)
  {
    if ms != [] {
      var n := |ms| - 1;
      assert ms == ms[..n] + [ms[n]];
      QuietUnchanged(ms[..n], r, c);
      assert Quiet(ms[n]);
    }
  }

  // A turn: one human message and what followed it.
  predicate IsTurn(ms: seq<Message>) {
    |ms| > 0 && ms[0].Human? && forall i :: 1 <= i < |ms| ==> !ms[i].Human?
  }

  lemma SplitAt(ms: seq<Message>, cut: nat, k: nat)
    requires cut <= k <= |ms|
    ensures ms == (ms[..cut] + ms[cut..k]) + ms[k..]
    ensures ms[cut..] == ms[cut..k] + ms[k..]
  {
  }

  lemma {:induction false} TurnBoundary(past: seq<Message>, turn: seq<Message>)
    requires IsTurn(turn)
    ensures LastHuman(past + turn) == |past|
    ensures Prune(past + turn) == PastView(past) + turn
  {
    var ms := past + turn;
    LastHumanUnique(ms, |past|);
    assert ms[..|past|] == past;
    assert ms[|past|..] == turn;
  }

  // A quiet prefix passes through, and has no say in what follows it.
  lemma LiveQuietPrefix(view: seq<Message>, turn: seq<Message>)
    requires AllQuiet(view) && Called(view) == {} == Responded(view)
    ensures Live(view + turn) == view + Live(turn)
  {
    RespondedAppend(view, turn);
    CalledAppend(view, turn);
    assert Responded(view + turn) == Responded(turn);
    assert Called(view + turn) == Called(turn);
    CleanAppend(view, turn, Responded(turn), Called(turn));
    QuietUnchanged(view, Responded(turn), Called(turn));
  }

  // The view of a history is the past view of the completed turns followed by
  // the cleaned current turn, which the past cannot influence.
  lemma {:induction false} SanitizeParts(past: seq<Message>, turn: seq<Message>)
    requires IsTurn(turn)
    ensures Sanitize(past + turn) == PastView(past) + Live(turn)
  {
    TurnBoundary(past, turn);
    PastViewIsQuiet(past);
    LiveQuietPrefix(PastView(past), turn);
  }

  lemma SanitizeSplit(ms: seq<Message>)
    ensures LastHuman(ms) < 0 ==> Sanitize(ms) == Live(ms)
    ensures LastHuman(ms) >= 0 ==>
              Sanitize(ms) == PastView(ms[..LastHuman(ms)]) + Live(Turn(ms)) && IsTurn(Turn(ms))
  {
    var k := LastHuman(ms);
    if k >= 0 {
      Rejoin(ms, k);
      SanitizeParts(ms[..k], ms[k..]);
    }
  }

  // ---------------------------------------------------------------------------
  // Pruning preserves what the model sees
  // ---------------------------------------------------------------------------

  lemma {:induction false} DropPrefix(a: seq<Message>, b: seq<Message>, turn: seq<Message>)
    requires IsTurn(turn)
    ensures Sanitize((a + b) + turn) == PastView(a) + Sanitize(b + turn)
  {
    SanitizeParts(a + b, turn);
    SanitizeParts(b, turn);
    PastViewAppend(a, b);
    Assoc(PastView(a), PastView(b), Live(turn));
  }

  lemma {:induction false} PrunePreservesView(ms: seq<Message>, cut: nat)
    requires cut <= LastHuman(ms)
    ensures Sanitize(ms) == PastView(ms[..cut]) + Sanitize(ms[cut..])
  {
    var k := LastHuman(ms);
    DropPrefix(ms[..cut], ms[cut..k], ms[k..]);
    SplitAt(ms, cut, k);
  }

  // ---------------------------------------------------------------------------
  // Closure: every call answered, every answer called
  // ---------------------------------------------------------------------------

  predicate NoUnanswered(ms: seq<Message>) { Called(ms) <= Responded(ms) }
  predicate NoOrphan(ms: seq<Message>) { Responded(ms) <= Called(ms) }
  predicate Closed(ms: seq<Message>) { NoUnanswered(ms) && NoOrphan(ms) }

  // A call group that is answered in part shares each answered id with a group
  // that is answered in full.
  ghost predicate NoStranded(ms: seq<Message>) {
    forall m, c :: m in ms && c in CallIds(m) && c in Responded(ms) ==>
      exists g :: g in ms && c in CallIds(g) && CallIds(g) <= Responded(ms)
  }

  // Every call group is answered in full or not at all.
  predicate NoPartialGroup(ms: seq<Message>) {
    forall m :: m in ms ==> CallIds(m) <= Responded(ms) || CallIds(m) !! Responded(ms)
  }

  // No id is claimed by two different messages.
  predicate GroupsDisjoint(ms: seq<Message>) {
    forall m, g :: m in ms && g in ms && m != g ==> CallIds(m) !! CallIds(g)
  }

  // A message with calls or a call id stays as it is or goes.
  lemma LiveKeeps(ms: seq<Message>, x: Message)
    requires !Quiet(x)
    ensures x in Live(ms) <==> x in ms && CleanOne(x, Responded(ms), Called(ms)) == [x]
  {
    var r, c := Responded(ms), Called(ms);
    CleanMember(ms, r, c, x);
    if m :| m in ms && x in CleanOne(m, r, c) {
      assert m == x;
    }
    if x in ms && CleanOne(x, r, c) == [x] {
      assert x in CleanOne(x, r, c);
    }
  }

  // What the second pass leaves, id by id.
  lemma LiveResponded(ms: seq<Message>, c: CallId)
    ensures c in Responded(Live(ms)) <==> c in Responded(ms) && c in Called(ms)
  {
    if c in Responded(Live(ms)) {
      var x :| x in Live(ms) && Answers(x) && x.answers == c;
      LiveKeeps(ms, x);
    }
    if c in Responded(ms) && c in Called(ms) {
      var x :| x in ms && Answers(x) && x.answers == c;
      LiveKeeps(ms, x);
    }
  }

  lemma LiveCalled(ms: seq<Message>, c: CallId)
    ensures c in Called(Live(ms)) <==>
              exists g :: g in ms && c in CallIds(g) && CallIds(g) <= Responded(ms)
  {
    if c in Called(Live(ms)) {
      var x :| x in Live(ms) && c in CallIds(x);
      LiveKeeps(ms, x);
    }
    if g :| g in ms && c in CallIds(g) && CallIds(g) <= Responded(ms) {
      LiveKeeps(ms, g);
    }
  }

  lemma LiveIds(ms: seq<Message>, c: CallId)
    ensures c in Responded(Live(ms)) <==> c in Responded(ms) && c in Called(ms)
    ensures c in Called(Live(ms)) <==>
              exists g :: g in ms && c in CallIds(g) && CallIds(g) <= Responded(ms)
  {
    LiveResponded(ms, c);
    LiveCalled(ms, c);
  }

  lemma LiveAnswersAll(ms: seq<Message>)
    ensures NoUnanswered(Live(ms))
  {
    forall c | c in Called(Live(ms)) ensures c in Responded(Live(ms)) { LiveIds(ms, c); }
  }

  lemma LiveClosedIff(ms: seq<Message>)
    ensures Closed(Live(ms)) <==> NoStranded(ms)
  {
    LiveAnswersAll(ms);
    if NoStranded(ms) {
      forall c | c in Responded(Live(ms)) ensures c in Called(Live(ms)) {
        LiveIds(ms, c);
        var m :| m in ms && c in CallIds(m);
      }
    }
    if NoOrphan(Live(ms)) {
      forall m, c | m in ms && c in CallIds(m) && c in Responded(ms)
        ensures exists g :: g in ms && c in CallIds(g) && CallIds(g) <= Responded(ms)
      {
        LiveIds(ms, c);
      }
    }
  }

  lemma SanitizeIds(ms: seq<Message>)
    ensures Called(Sanitize(ms)) == Called(Live(Turn(ms)))
    ensures Responded(Sanitize(ms)) == Responded(Live(Turn(ms)))
  {
    SanitizeSplit(ms);
    var k := LastHuman(ms);
    if k >= 0 {
      PastViewIsQuiet(ms[..k]);
      RespondedAppend(PastView(ms[..k]), Live(Turn(ms)));
      CalledAppend(PastView(ms[..k]), Live(Turn(ms)));
    }
  }

  // One pass never leaves an unanswered call, and it leaves no orphan response
  // exactly when no answer of the current turn is stranded.
  lemma OnePassClosure(ms: seq<Message>)
    ensures NoUnanswered(Sanitize(ms))
    ensures Closed(Sanitize(ms)) <==> NoStranded(Turn(ms))
  {
    SanitizeIds(ms);
    LiveAnswersAll(Turn(ms));
    LiveClosedIff(Turn(ms));
  }

  // All-or-nothing groups suffice; where ids are not shared they are necessary.
  lemma WholeGroupsClosure(ms: seq<Message>)
    ensures NoPartialGroup(Turn(ms)) ==> Closed(Sanitize(ms))
    ensures GroupsDisjoint(Turn(ms)) ==> (Closed(Sanitize(ms)) <==> NoPartialGroup(Turn(ms)))
  {
    OnePassClosure(ms);
    var t := Turn(ms);
    if NoPartialGroup(t) {
      forall m, c | m in t && c in CallIds(m) && c in Responded(t)
        ensures exists g :: g in t && c in CallIds(g) && CallIds(g) <= Responded(t)
      {
        assert CallIds(m) <= Responded(t);
      }
    }
    if GroupsDisjoint(t) && NoStranded(t) {
      forall m | m in t ensures CallIds(m) <= Responded(t) || CallIds(m) !! Responded(t) {
        if c :| c in CallIds(m) && c in Responded(t) {
          var g :| g in t && c in CallIds(g) && CallIds(g) <= Responded(t);
          assert g == m;
        }
      }
    }
  }

  // ---------------------------------------------------------------------------
  // Fixed points
  // ---------------------------------------------------------------------------

  predicate Tidy(ms: seq<Message>) {
    && (forall i :: 0 <= i < LastHuman(ms) ==> Quiet(ms[i]))
    && Closed(ms)
  }

  lemma {:induction false} CleanShorter(ms: seq<Message>, r: set<CallId>, c: set<CallId>)
    ensures |Clean(ms, r, c)| <= |ms|
  {
    if ms != [] { CleanShorter(ms[..|ms| - 1], r, c); }
  }

  // Element-wise rewriting that gives the list back must have kept every element.
  lemma {:induction false} CleanFixedKeeps(ms: seq<Message>, r: set<CallId>, c: set<CallId>)
    requires Clean(ms, r, c) == ms
    ensures forall i :: 0 <= i < |ms| ==> CleanOne(ms[i], r, c) == [ms[i]]
  {
    if ms != [] {
      var n := |ms| - 1;
      var head, last := Clean(ms[..n], r, c), CleanOne(ms[n], r, c);
      CleanShorter(ms[..n], r, c);
      assert |head| == n && |last| == 1;
      assert ms[..n] == (head + last)[..n] == head;
      assert [ms[n]] == (head + last)[n..] == last;
      CleanFixedKeeps(ms[..n], r, c);
      forall i | 0 <= i < n ensures CleanOne(ms[i], r, c) == [ms[i]] {
        assert ms[..n][i] == ms[i];
      }
    }
  }

  lemma {:induction false} CleanKeepsFixed(ms: seq<Message>, r: set<CallId>, c: set<CallId>)
    requires forall i :: 0 <= i < |ms| ==> CleanOne(ms[i], r, c) == [ms[i]]
    ensures Clean(ms, r, c) == ms
  {
    if ms != [] {
      var n := |ms| - 1;
      CleanKeepsFixed(ms[..n], r, c);
      assert ms == ms[..n] + [ms[n]];
    }
  }

  lemma LiveFixedIff(ms: seq<Message>)
    ensures Live(ms) == ms <==> Closed(ms)
  {
    var r, c := Responded(ms), Called(ms);
    if Live(ms) == ms {
      CleanFixedKeeps(ms, r, c);
      forall id | id in c ensures id in r {
        var m :| m in ms && id in CallIds(m);
        assert CleanOne(m, r, c) == [m];
      }
      forall id | id in r ensures id in c {
        var m :| m in ms && Answers(m) && m.answers == id;
        assert CleanOne(m, r, c) == [m];
      }
    }
    if Closed(ms) {
      forall i | 0 <= i < |ms| ensures CleanOne(ms[i], r, c) == [ms[i]] {
        assert forall id :: id in CallIds(ms[i]) ==> id in c;
        assert Answers(ms[i]) ==> ms[i].answers in r;
      }
      CleanKeepsFixed(ms, r, c);
    }
  }

  lemma TidyUnpruned(ms: seq<Message>)
    requires forall i :: 0 <= i < LastHuman(ms) ==> Quiet(ms[i])
    ensures Prune(ms) == ms
  {
    var k := LastHuman(ms);
    if k >= 0 {
      QuietUnchanged(ms[..k], {}, {});
      Rejoin(ms, k);
    }
  }

  // A closed turn with a quiet past is left alone.
  lemma TidyUnchanged(ms: seq<Message>)
    requires Tidy(ms)
    ensures Sanitize(ms) == ms
  {
    TidyUnpruned(ms);
    LiveFixedIff(ms);
  }

  // The shape of the current turn survives cleaning: it still opens with its
  // human message and holds no other.
  lemma {:induction false} LiveKeepsHead(ms: seq<Message>, r: set<CallId>, c: set<CallId>)
    requires forall i :: 1 <= i < |ms| ==> !ms[i].Human?
    requires |ms| > 0 && ms[0].Human?
    ensures |Clean(ms, r, c)| > 0 && Clean(ms, r, c)[0] == ms[0]
    ensures forall i :: 1 <= i < |Clean(ms, r, c)| ==> !Clean(ms, r, c)[i].Human?
  {
    if |ms| > 1 {
      LiveKeepsHead(ms[..|ms| - 1], r, c);
    } else {
      assert Clean(ms[..0], r, c) == [];
    }
  }

  lemma {:induction false} CleanNoHuman(ms: seq<Message>, r: set<CallId>, c: set<CallId>)
    requires forall i :: 0 <= i < |ms| ==> !ms[i].Human?
    ensures forall i :: 0 <= i < |Clean(ms, r, c)| ==> !Clean(ms, r, c)[i].Human?
  {
    if ms != [] { CleanNoHuman(ms[..|ms| - 1], r, c); }
  }

  // The turn boundary of a view lies right after the past view.
  lemma ViewBoundary(ms: seq<Message>)
    ensures Turn(Sanitize(ms)) == Live(Turn(ms))
    ensures LastHuman(Sanitize(ms)) == if LastHuman(ms) < 0 then -1 else |PastView(ms[..LastHuman(ms)])|
    ensures forall i :: 0 <= i < LastHuman(Sanitize(ms)) ==> Quiet(Sanitize(ms)[i])
  {
    SanitizeSplit(ms);
    var k := LastHuman(ms);
    if k < 0 {
      CleanNoHuman(ms, Responded(ms), Called(ms));
      LastHumanUnique(Live(ms), -1);
    } else {
      var past, t := PastView(ms[..k]), ms[k..];
      LiveKeepsHead(t, Responded(t), Called(t));
      LastHumanUnique(past + Live(t), |past|);
      PastViewIsQuiet(ms[..k]);
      assert forall i :: 0 <= i < |past| ==> (past + Live(t))[i] == past[i];
    }
  }

  // Every group that survives one pass is answered in full, so the second pass
  // has nothing stranded left and the third changes nothing.
  lemma TwoPassesSuffice(ms: seq<Message>)
    ensures Tidy(Sanitize(Sanitize(ms)))
    ensures Sanitize(Sanitize(Sanitize(ms))) == Sanitize(Sanitize(ms))
  {
    var once := Sanitize(ms);
    ViewBoundary(ms);
    LiveAnswersAll(Turn(ms));
    var t := Turn(once);
    forall m | m in t ensures CallIds(m) <= Responded(t) {
      assert CallIds(m) <= Called(t);
    }
    WholeGroupsClosure(once);
    ViewBoundary(once);
    TidyUnchanged(Sanitize(once));
  }

  // One pass changes nothing exactly on tidy histories.
  lemma FixedPointIff(ms: seq<Message>)
    ensures Sanitize(ms) == ms <==> Tidy(ms)
  {
    if Tidy(ms) { TidyUnchanged(ms); }
    if Sanitize(ms) == ms {
      ViewBoundary(ms);
      TwoPassesSuffice(ms);
    }
  }

  // A second pass is needed: one group answered in part leaves an orphan.
  lemma OnePassMayLeaveOrphan()
    ensures !NoOrphan(Sanitize([Human("h", Text("go")), AI("a", Text(""), [Call("1", "x"), Call("2", "y")], []),
                                Tool("t", Text("ok"), "1")]))
  {
    var q := Human("h", Text("go"));
    var a := AI("a", Text(""), [Call("1", "x"), Call("2", "y")], []);
    var r := Tool("t", Text("ok"), "1");
    var ms := [q, a, r];
    LastHumanUnique(ms, 0);
    assert Turn(ms) == ms;
    assert a in ms && r in ms && Answers(r);
    assert a.calls[0] in a.calls && a.calls[1] in a.calls;
    assert "1" in CallIds(a) && "2" in CallIds(a) && "1" in Responded(ms) && "2" !in Responded(ms);
    assert forall g :: g in ms ==> g == q || g == a || g == r;
    assert !NoStranded(ms) by {
      assert a in ms && "1" in CallIds(a) && "1" in Responded(ms);
    }
    OnePassClosure(ms);
  }

  // ---------------------------------------------------------------------------
  // Text conservation
  // ---------------------------------------------------------------------------

  datatype Said = ByHuman(what: Content) | BySystem(what: Content) | ByAI(what: Content)

  function SaidBy(m: Message): seq<Said> {
    match m
    case Human(_, c) => [ByHuman(c)]
    case System(_, c) => [BySystem(c)]
    case AI(_, c, _, _) => if HasText(c) then [ByAI(c)] else []
    case Tool(_, _, _) => []
  }

  // Everything said in the conversation, in order.
  function Spoken(ms: seq<Message>): seq<Said> {
    if ms == [] then [] else Spoken(ms[..|ms| - 1]) + SaidBy(ms[|ms| - 1])
  }

  lemma {:induction false} SpokenAppend(a: seq<Message>, b: seq<Message>)
    ensures Spoken(a + b) == Spoken(a) + Spoken(b)
    decreases |b|
  {
    if b == [] {
      assert a + b == a;
    } else {
      var front := b[..|b| - 1];
      FrontOfAppend(a, b);
      SpokenAppend(a, front);
      Assoc(Spoken(a), Spoken(front), SaidBy(b[|b| - 1]));
    }
  }

  lemma SpokenOne(m: Message)
    ensures Spoken([m]) == SaidBy(m)
    ensures Spoken([]) == []
  {
    assert [m][..0] == [];
  }

  // Stripping or dropping a message loses none of its text.
  lemma SpokenRewrites(m: Message, r: set<CallId>, c: set<CallId>)
    ensures Spoken(PastOne(m)) == SaidBy(m) == Spoken(CleanOne(m, r, c))
  {
    SpokenOne(m);
    SpokenOne(AI("", m.content, [], []));
  }

  lemma {:induction false} SpokenPast(ms: seq<Message>)
    ensures Spoken(PastView(ms)) == Spoken(ms)
  {
    if ms != [] {
      var n := |ms| - 1;
      SpokenPast(ms[..n]);
      SpokenAppend(PastView(ms[..n]), PastOne(ms[n]));
      SpokenRewrites(ms[n], {}, {});
    }
  }

  lemma {:induction false} SpokenClean(ms: seq<Message>, r: set<CallId>, c: set<CallId>)
    ensures Spoken(Clean(ms, r, c)) == Spoken(ms)
  {
    if ms != [] {
      var n := |ms| - 1;
      SpokenClean(ms[..n], r, c);
      SpokenAppend(Clean(ms[..n], r, c), CleanOne(ms[n], r, c));
      SpokenRewrites(ms[n], r, c);
    }
  }

  lemma SpokenPrune(ms: seq<Message>)
    ensures Spoken(Prune(ms)) == Spoken(ms)
  {
    var k := LastHuman(ms);
    if k >= 0 {
      SpokenPast(ms[..k]);
      SpokenAppend(PastView(ms[..k]), ms[k..]);
      SpokenAppend(ms[..k], ms[k..]);
      Rejoin(ms, k);
    }
  }

  // Nothing said is lost, added or reordered, and before the last human message
  // no call and no response remains.
  lemma TextConserved(ms: seq<Message>)
    ensures Spoken(Sanitize(ms)) == Spoken(ms)
    ensures forall i :: 0 <= i < LastHuman(Sanitize(ms)) ==> Quiet(Sanitize(ms)[i])
  {
    ViewBoundary(ms);
    SpokenPrune(ms);
    SpokenClean(Prune(ms), Responded(Prune(ms)), Called(Prune(ms)));
  }

  // ---------------------------------------------------------------------------
  // What the model sees, message by message
  // ---------------------------------------------------------------------------

  const BLANKS := {
    '\U{0009}', '\U{000A}', '\U{000B}', '\U{000C}', '\U{000D}', '\U{001C}', '\U{001D}', '\U{001E}', '\U{001F}',
    '\U{0020}', '\U{0085}', '\U{00A0}', '\U{1680}', '\U{2000}', '\U{2001}', '\U{2002}', '\U{2003}', '\U{2004}',
    '\U{2005}', '\U{2006}', '\U{2007}', '\U{2008}', '\U{2009}', '\U{200A}', '\U{2028}', '\U{2029}', '\U{202F}',
    '\U{205F}', '\U{3000}'
  }

  // The message holds a string with a character that is not blank.
  predicate Speaks(m: Message) {
    m.content.Text? && exists i :: 0 <= i < |m.content.text| && m.content.text[i] !in BLANKS
  }

  predicate MakesCalls(m: Message) { m.AI? && (m.calls != [] || m.extra != []) }

  // No human message comes after index i.
  predicate InTurn(ms: seq<Message>, i: int) {
    forall j :: i < j < |ms| ==> j < 0 || !ms[j].Human?
  }

  predicate RespondsTo(m: Message, id: CallId) { m.Tool? && m.answers == id && id != "" }

  predicate Calls(m: Message, id: CallId) {
    m.AI? && (id in m.extra || exists i :: 0 <= i < |m.calls| && m.calls[i].id == id)
  }

  predicate AnsweredInTurn(ms: seq<Message>, id: CallId) {
    exists j :: 0 <= j < |ms| && InTurn(ms, j) && RespondsTo(ms[j], id)
  }

  predicate CalledInTurn(ms: seq<Message>, id: CallId) {
    exists j :: 0 <= j < |ms| && InTurn(ms, j) && Calls(ms[j], id)
  }

  predicate FullyAnswered(ms: seq<Message>, m: Message) requires m.AI? {
    && (forall i :: 0 <= i < |m.calls| ==> AnsweredInTurn(ms, m.calls[i].id))
    && (forall i :: 0 <= i < |m.extra| ==> AnsweredInTurn(ms, m.extra[i]))
  }

  // The message is kept as it is: one with calls if they belong to the current turn and are
  // all answered there; a response if it belongs to the turn and its call is there; any other.
  predicate KeptWhole(ms: seq<Message>, i: int) requires 0 <= i < |ms| {
    if MakesCalls(ms[i]) then InTurn(ms, i) && FullyAnswered(ms, ms[i])
    else ms[i].Tool? ==> InTurn(ms, i) && (ms[i].answers == "" || CalledInTurn(ms, ms[i].answers))
  }

  // Of another message with calls the text is kept, if there is any.
  predicate KeptAsText(ms: seq<Message>, i: int) requires 0 <= i < |ms| {
    MakesCalls(ms[i]) && !KeptWhole(ms, i) && Speaks(ms[i])
  }

  lemma SpeaksIff(m: Message)
    ensures HasText(m.content) <==> Speaks(m)
  {
    forall c: char ensures IsSpace(c) <==> c in BLANKS { BlankIff(c); }
  }

  lemma BlankIff(c: char)
    ensures IsSpace(c) <==> c in BLANKS
  {
  }

  lemma MakesCallsIff(m: Message)
    ensures CallIds(m) != {} <==> MakesCalls(m)
    ensures forall id :: id in CallIds(m) <==> Calls(m, id)
  {
    if m.AI? {
      if m.calls != [] { assert m.calls[0] in m.calls && m.calls[0].id in CallIds(m); }
      if m.extra != [] { assert m.extra[0] in CallIds(m); }
    }
  }

  lemma InTurnIff(ms: seq<Message>, i: int)
    requires 0 <= i < |ms|
    ensures InTurn(ms, i) <==> i >= LastHuman(ms)
  {
    var k := LastHuman(ms);
    if i < k { assert ms[k].Human?; }
  }

  lemma InTurnMember(ms: seq<Message>, i: int)
    requires 0 <= i < |ms| && i >= LastHuman(ms)
    ensures ms[i] in Turn(ms)
  {
    var k := LastHuman(ms);
    if k >= 0 { InSuffix(ms, k, i); }
  }

  lemma InSuffix(ms: seq<Message>, k: nat, i: nat)
    requires k <= i < |ms|
    ensures ms[i] in ms[k..]
  {
    assert ms[k..][i - k] == ms[i];
  }

  lemma TurnMember(ms: seq<Message>, m: Message) returns (i: nat)
    requires m in Turn(ms)
    ensures i < |ms| && ms[i] == m && InTurn(ms, i)
  {
    var k := if LastHuman(ms) < 0 then 0 else LastHuman(ms);
    var j :| 0 <= j < |Turn(ms)| && Turn(ms)[j] == m;
    i := k + j;
    InTurnIff(ms, i);
  }

  lemma TurnIds(ms: seq<Message>, id: CallId)
    ensures id in Responded(Turn(ms)) <==> AnsweredInTurn(ms, id)
    ensures id in Called(Turn(ms)) <==> CalledInTurn(ms, id)
  {
    if id in Responded(Turn(ms)) {
      var m :| m in Turn(ms) && Answers(m) && m.answers == id;
      var i := TurnMember(ms, m);
      assert RespondsTo(ms[i], id);
    }
    if id in Called(Turn(ms)) {
      var m :| m in Turn(ms) && id in CallIds(m);
      var i := TurnMember(ms, m);
      MakesCallsIff(m);
      assert Calls(ms[i], id);
    }
    if AnsweredInTurn(ms, id) {
      var j :| 0 <= j < |ms| && InTurn(ms, j) && RespondsTo(ms[j], id);
      InTurnIff(ms, j);
      InTurnMember(ms, j);
    }
    if CalledInTurn(ms, id) {
      var j :| 0 <= j < |ms| && InTurn(ms, j) && Calls(ms[j], id);
      InTurnIff(ms, j);
      InTurnMember(ms, j);
      MakesCallsIff(ms[j]);
    }
  }

  // What becomes of message i.
  function Left(ms: seq<Message>, i: nat): seq<Message>
    requires i < |ms|
  {
    if i < LastHuman(ms) then PastOne(ms[i]) else CleanOne(ms[i], Responded(Turn(ms)), Called(Turn(ms)))
  }

  lemma LeftMeans(ms: seq<Message>, i: nat)
    requires i < |ms|
    ensures Left(ms, i) == if KeptWhole(ms, i) then [ms[i]]
                           else if KeptAsText(ms, i) then [AI("", ms[i].content, [], [])]
                           else []
  {
    var m := ms[i];
    SpeaksIff(m);
    MakesCallsIff(m);
    InTurnIff(ms, i);
    if InTurn(ms, i) {
      forall id ensures id in Responded(Turn(ms)) <==> AnsweredInTurn(ms, id) { TurnIds(ms, id); }
      if m.Tool? { TurnIds(ms, m.answers); }
      if MakesCalls(m) { AnsweredIff(ms, m, Responded(Turn(ms))); }
    }
  }

  lemma AnsweredIff(ms: seq<Message>, m: Message, answered: set<CallId>)
    requires m.AI? && forall id :: id in answered <==> AnsweredInTurn(ms, id)
    ensures CallIds(m) <= answered <==> FullyAnswered(ms, m)
  {
    MakesCallsIff(m);
    if CallIds(m) <= answered {
      forall i | 0 <= i < |m.calls| ensures AnsweredInTurn(ms, m.calls[i].id) { assert Calls(m, m.calls[i].id); }
      forall i | 0 <= i < |m.extra| ensures AnsweredInTurn(ms, m.extra[i]) { assert Calls(m, m.extra[i]); }
    }
    if FullyAnswered(ms, m) {
      forall id | id in CallIds(m) ensures id in answered { assert Calls(m, id); }
    }
  }

  // The view lists, in order and once each, what is left of the messages from a up to b; at
  // most one message is left of each.
  ghost predicate Lists(view: seq<Message>, from: seq<nat>, left: seq<seq<Message>>, a: nat, b: nat)
    requires a <= b <= |left|
  {
    && |view| == |from|
    && (forall j, k :: 0 <= j < k < |from| ==> from[j] < from[k])
    && (forall i: nat :: i in from <==> a <= i < b && left[i] != [])
    && (forall j :: 0 <= j < |from| ==> a <= from[j] < b && left[from[j]] == [view[j]])
  }

  lemma ListsMore(view: seq<Message>, from: seq<nat>, left: seq<seq<Message>>, a: nat, b: nat) returns (more: seq<nat>)
    requires a <= b < |left| && Lists(view, from, left, a, b) && |left[b]| <= 1
    ensures Lists(view + left[b], more, left, a, b + 1)
  {
    if left[b] == [] {
      assert view + left[b] == view;
      more := from;
    } else {
      ListsOne(view, from, left, a, b, left[b][0]);
      assert left[b] == [left[b][0]];
      more := from + [b];
    }
  }

  lemma ListsOne(view: seq<Message>, from: seq<nat>, left: seq<seq<Message>>, a: nat, b: nat, x: Message)
    requires a <= b < |left| && Lists(view, from, left, a, b) && left[b] == [x]
    ensures Lists(view + [x], from + [b], left, a, b + 1)
  {
  }

  // What is left from a up to b, in a row.
  function InARow(left: seq<seq<Message>>, a: nat, b: nat): seq<Message> requires a <= b <= |left| {
    if a == b then [] else InARow(left, a, b - 1) + left[b - 1]
  }

  lemma RowMore(left: seq<seq<Message>>, a: nat, b: nat, row: seq<Message>, from: seq<nat>) returns (more: seq<nat>)
    requires a <= b < |left| && |left[b]| <= 1 && row == InARow(left, a, b) && Lists(row, from, left, a, b)
    ensures Lists(InARow(left, a, b + 1), more, left, a, b + 1)
  {
    more := ListsMore(row, from, left, a, b);
  }

  lemma {:induction false} RowLists(left: seq<seq<Message>>, a: nat, b: nat) returns (from: seq<nat>)
    requires a <= b <= |left| && forall i :: 0 <= i < |left| ==> |left[i]| <= 1
    ensures Lists(InARow(left, a, b), from, left, a, b)
    decreases b
  {
    from := [];
    if a < b {
      from := RowLists(left, a, b - 1);
      from := RowMore(left, a, b - 1, InARow(left, a, b - 1), from);
    }
  }

  lemma {:induction false} PastInARow(ms: seq<Message>, left: seq<seq<Message>>, n: nat)
    requires n <= |ms| == |left| && forall i :: 0 <= i < n ==> left[i] == PastOne(ms[i])
    ensures PastView(ms[..n]) == InARow(left, 0, n)
  {
    if n > 0 {
      PastInARow(ms, left, n - 1);
      PastViewStep(ms, n - 1);
    }
  }

  lemma {:induction false} TurnInARow(t: seq<Message>, r: set<CallId>, c: set<CallId>, left: seq<seq<Message>>,
                                      k: nat, n: nat)
    requires n <= |t| && k + |t| == |left|
    requires forall i :: 0 <= i < n ==> left[k + i] == CleanOne(t[i], r, c)
    ensures Clean(t[..n], r, c) == InARow(left, k, k + n)
  {
    if n > 0 {
      TurnInARow(t, r, c, left, k, n - 1);
      CleanStep(t, n - 1, r, c);
      assert left[k + (n - 1)] == CleanOne(t[n - 1], r, c);
    }
  }

  lemma {:induction false} RowSplits(left: seq<seq<Message>>, a: nat, b: nat, c: nat)
    requires a <= b <= c <= |left|
    ensures InARow(left, a, c) == InARow(left, a, b) + InARow(left, b, c)
    decreases c
  {
    if b < c {
      RowSplits(left, a, b, c - 1);
      Assoc(InARow(left, a, b), InARow(left, b, c - 1), left[c - 1]);
    }
  }

  lemma LeftAtMostOne(ms: seq<Message>, i: nat)
    requires i < |ms|
    ensures |Left(ms, i)| <= 1
  {
  }

  lemma LeftOfTurn(ms: seq<Message>, k: nat, i: nat)
    requires k + i < |ms| && (LastHuman(ms) < 0 ==> k == 0) && (LastHuman(ms) >= 0 ==> k == LastHuman(ms))
    ensures i < |Turn(ms)| == |ms| - k
    ensures Left(ms, k + i) == CleanOne(Turn(ms)[i], Responded(Turn(ms)), Called(Turn(ms)))
  {
  }

  function AllLeft(ms: seq<Message>): seq<seq<Message>> {
    seq(|ms|, i requires 0 <= i < |ms| => Left(ms, i))
  }

  lemma WholeTurnInARow(t: seq<Message>, r: set<CallId>, c: set<CallId>, left: seq<seq<Message>>, k: nat)
    requires k + |t| == |left| && forall i: nat :: i < |t| ==> left[k + i] == CleanOne(t[i], r, c)
    ensures Clean(t, r, c) == InARow(left, k, |left|)
  {
    TurnInARow(t, r, c, left, k, |t|);
    TakeAll(t);
  }

  lemma TurnLength(ms: seq<Message>, k: nat)
    requires k <= |ms| && (LastHuman(ms) < 0 ==> k == 0) && (LastHuman(ms) >= 0 ==> k == LastHuman(ms))
    ensures k + |Turn(ms)| == |ms|
  {
  }

  lemma TurnIsRow(ms: seq<Message>, k: nat)
    requires k <= |ms| && (LastHuman(ms) < 0 ==> k == 0) && (LastHuman(ms) >= 0 ==> k == LastHuman(ms))
    ensures Live(Turn(ms)) == InARow(AllLeft(ms), k, |ms|)
  {
    var t, left := Turn(ms), AllLeft(ms);
    TurnLength(ms, k);
    forall i: nat | i < |t| ensures left[k + i] == CleanOne(t[i], Responded(t), Called(t)) { LeftOfTurn(ms, k, i); }
    WholeTurnInARow(t, Responded(t), Called(t), left, k);
  }

  lemma PastIsRow(ms: seq<Message>, k: nat)
    requires k == LastHuman(ms)
    ensures PastView(ms[..k]) == InARow(AllLeft(ms), 0, k)
  {
    PastInARow(ms, AllLeft(ms), k);
  }

  lemma SanitizeIsRow(ms: seq<Message>)
    ensures Sanitize(ms) == InARow(AllLeft(ms), 0, |ms|)
  {
    var k := LastHuman(ms);
    SanitizeSplit(ms);
    if k < 0 {
      TurnIsRow(ms, 0);
    } else {
      PastIsRow(ms, k);
      TurnIsRow(ms, k);
      RowSplits(AllLeft(ms), 0, k, |ms|);
    }
  }

  // The view and where its messages come from.
  ghost predicate ComesFrom(view: seq<Message>, from: seq<nat>, ms: seq<Message>) {
    && |view| == |from|
    && (forall j, k :: 0 <= j < k < |from| ==> from[j] < from[k])
    && (forall i: nat :: i in from <==> i < |ms| && (KeptWhole(ms, i) || KeptAsText(ms, i)))
    && (forall j :: 0 <= j < |from| ==>
          from[j] < |ms| &&
          view[j] == if KeptWhole(ms, from[j]) then ms[from[j]] else AI("", ms[from[j]].content, [], []))
  }

  // The view holds exactly the messages kept, whole or as text, in order and once each; any
  // other message leaves nothing.
  lemma SanitizeExact(ms: seq<Message>)
    ensures exists from :: ComesFrom(Sanitize(ms), from, ms)
  {
    var left := AllLeft(ms);
    forall i: nat | i < |ms| ensures |left[i]| <= 1 { LeftAtMostOne(ms, i); }
    SanitizeIsRow(ms);
    var from := RowLists(left, 0, |ms|);
    forall i: nat | i < |ms|
      ensures left[i] == if KeptWhole(ms, i) then [ms[i]]
                         else if KeptAsText(ms, i) then [AI("", ms[i].content, [], [])]
                         else []
    {
      LeftMeans(ms, i);
    }
    assert ComesFrom(Sanitize(ms), from, ms);
  }

  // So nothing is made up: a message of the view is one of the history, or an AI message
  // without calls that holds the text of one.
  lemma NothingMadeUp(ms: seq<Message>, x: Message)
    requires x in Sanitize(ms)
    ensures x in ms || (x.AI? && !MakesCalls(x) && Speaks(x) && exists m :: m in ms && m.AI? && m.content == x.content)
  {
    SanitizeExact(ms);
    var from :| ComesFrom(Sanitize(ms), from, ms);
    var j :| 0 <= j < |from| && Sanitize(ms)[j] == x;
    assert from[j] in from && ms[from[j]] in ms;
  }
}
