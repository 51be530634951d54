// Authorization and callback of OAuthEngine, with one-time state and PKCE, as
// interleaved steps of several workers over the shared store.
module OAuthCallback {
  import opened Prelude

  // States and verifiers are fresh random values; S256 is an abstract function.
  type Id = nat
  type Hash = Id -> Id

  const TTL := 600.0  // life of oauth_state and pkce_verifier keys

  datatype Pending = Pending(user: string, deadline: real)
  datatype Secret = Secret(verifier: Id, deadline: real)

  // Where a worker stands in get_authorization_url or handle_callback.
  datatype Worker =
    | Idle
    | StateStored(state: Id, pkce: bool)            // next: store the verifier, or send the URL
    | VerifierStored(state: Id, verifier: Id)       // next: send the URL
    | Popped(state: Id, pkce: bool)                 // state accepted; next: read the verifier
    | Read(state: Id, found: Option<Id>)            // verifier read; next: delete its key
    | Ready(state: Id, found: Option<Id>)        // next: post to the token endpoint

  // Bookkeeping: who an authorization was for, its verifier once generated, and when.
  datatype Issue = Issue(user: string, verifier: Option<Id>, at: real)

  // `pkce`: whether the provider at whose callback the state was presented uses PKCE.
  datatype Acceptance = Acceptance(state: Id, user: string, at: real, pkce: bool)
  datatype Posted = Posted(state: Id, verifier: Option<Id>)

  datatype Sys = Sys(
    clock: real,
    states: map<Id, Pending>,
    verifiers: map<Id, Secret>,
    workers: seq<Worker>,
    issued: map<Id, Issue>,
    urls: map<Id, Option<Id>>,   // authorization URLs sent out: state and challenge
    accepted: seq<Acceptance>,
    posted: seq<Posted>
  )

  datatype Step =
    | Tick(to: real)
    | StoreState(w: nat, state: Id, user: string, pkce: bool)
    | StoreVerifier(w: nat, verifier: Id)
    | SendUrl(w: nat)
    | PopState(w: nat, state: Id, pkce: bool)  // any state may be presented, by anyone
    | GetVerifier(w: nat)
    | DelVerifier(w: nat)
    | Post(w: nat)

  predicate Enabled(s: Sys, step: Step) {
    match step
    case Tick(to) => s.clock <= to
    case StoreState(w, st, u, _) => w < |s.workers| && s.workers[w].Idle? && st !in s.issued && u != ""
    case StoreVerifier(w, v) => w < |s.workers| && s.workers[w].StateStored? && s.workers[w].pkce
    case SendUrl(w) =>
      && w < |s.workers|
      && (s.workers[w].VerifierStored? || (s.workers[w].StateStored? && !s.workers[w].pkce))
    case PopState(w, _, _) => w < |s.workers| && s.workers[w].Idle?
    case GetVerifier(w) => w < |s.workers| && s.workers[w].Popped? && s.workers[w].pkce
    case DelVerifier(w) => w < |s.workers| && s.workers[w].Read?
    case Post(w) =>
      && w < |s.workers|
      && (s.workers[w].Ready? || (s.workers[w].Popped? && !s.workers[w].pkce))
  }

  function Next(s: Sys, step: Step, s256: Hash): Sys
    requires Enabled(s, step)
  {
    match step
    case Tick(to) => s.(clock := to)
    case StoreState(w, st, u, pkce) =>
      s.(states := s.states[st := Pending(u, s.clock + TTL)],
         issued := s.issued[st := Issue(u, None, s.clock)],
         workers := s.workers[w := StateStored(st, pkce)])
    case StoreVerifier(w, v) =>
      var st := s.workers[w].state;
      s.(verifiers := s.verifiers[st := Secret(v, s.clock + TTL)],
         issued := if st in s.issued then s.issued[st := s.issued[st].(verifier := Some(v))] else s.issued,
         workers := s.workers[w := VerifierStored(st, v)])
    case SendUrl(w) =>
      var wk := s.workers[w];
      s.(urls := s.urls[wk.state := if wk.VerifierStored? then Some(s256(wk.verifier)) else None],
         workers := s.workers[w := Idle])
    case PopState(w, st, pkce) =>
      if st in s.states && s.clock < s.states[st].deadline then
        s.(states := s.states - {st},
           accepted := s.accepted + [Acceptance(st, s.states[st].user, s.clock, pkce)],
           workers := s.workers[w := Popped(st, pkce)])
      else s.(states := s.states - {st})
    case GetVerifier(w) =>
      var st := s.workers[w].state;
      var found := if st in s.verifiers && s.clock < s.verifiers[st].deadline
                   then Some(s.verifiers[st].verifier) else None;
      s.(workers := s.workers[w := Read(st, found)])
    case DelVerifier(w) =>
      var wk := s.workers[w];
      s.(verifiers := s.verifiers - {wk.state},
         workers := s.workers[w := if wk.found.Some? then Ready(wk.state, wk.found) else Idle])
    case Post(w) =>
      var wk := s.workers[w];
      s.(posted := s.posted + [Posted(wk.state, if wk.Ready? then wk.found else None)],
         workers := s.workers[w := Idle])
  }

  function Initial(k: nat): Sys {
    Sys(0.0, map[], map[], seq(k, _ => Idle), map[], map[], [], [])
  }

  // The state after a run; a step that is not enabled is skipped.
  function Exec(k: nat, steps: seq<Step>, s256: Hash): Sys {
    if steps == [] then Initial(k)
    else
      var s := Exec(k, steps[..|steps| - 1], s256);
      if Enabled(s, steps[|steps| - 1]) then Next(s, steps[|steps| - 1], s256) else s
  }

  // ---------------------------------------------------------------------------
  // Invariants
  // ---------------------------------------------------------------------------

  predicate InCallback(w: Worker) { w.Popped? || w.Read? || w.Ready? }
  predicate InAuthorize(w: Worker) { w.StateStored? || w.VerifierStored? }

  predicate WasAccepted(s: Sys, st: Id) {
    exists i :: 0 <= i < |s.accepted| && s.accepted[i].state == st
  }

  predicate WasPosted(s: Sys, st: Id) {
    exists i :: 0 <= i < |s.posted| && s.posted[i].state == st
  }

  // One acceptance per state, for the user who asked, within the life of the state.
  ghost predicate AcceptedOnce(s: Sys) {
    && (forall i, j :: 0 <= i < j < |s.accepted| ==> s.accepted[i].state != s.accepted[j].state)
    && (forall i :: 0 <= i < |s.accepted| ==>
          var a := s.accepted[i];
          && a.state in s.issued && a.user == s.issued[a.state].user
          && s.issued[a.state].at <= a.at < s.issued[a.state].at + TTL)
  }

  ghost predicate StatesOk(s: Sys) {
    forall st :: st in s.states ==>
      && st in s.issued && s.states[st].user == s.issued[st].user
      && s.issued[st].at <= s.clock && s.states[st].deadline == s.issued[st].at + TTL
      && !WasAccepted(s, st)
  }

  // Each accepted state is handled by one worker, until it is posted or given up.
  ghost predicate CallbacksApart(s: Sys) {
    CallbacksAccepted(s) && HandlersDiffer(s)
  }

  ghost predicate HandlersDiffer(s: Sys) {
    forall v, w :: 0 <= v < w < |s.workers| && InCallback(s.workers[v]) && InCallback(s.workers[w]) ==>
      s.workers[v].state != s.workers[w].state
  }

  ghost predicate CallbacksAccepted(s: Sys) {
    && (forall w :: 0 <= w < |s.workers| && InCallback(s.workers[w]) ==>
          WasAccepted(s, s.workers[w].state) && !WasPosted(s, s.workers[w].state))
  }

  ghost predicate PostedOnce(s: Sys) {
    && (forall i, j :: 0 <= i < j < |s.posted| ==> s.posted[i].state != s.posted[j].state)
    && (forall i :: 0 <= i < |s.posted| ==> WasAccepted(s, s.posted[i].state))
  }

  predicate IsVerifierOf(s: Sys, st: Id, v: Id) {
    st in s.issued && s.issued[st].verifier == Some(v)
  }

  // Every copy of a verifier is the one generated for its state.
  predicate CopyOk(s: Sys, w: Worker) {
    match w
    case StateStored(st, _) => st in s.issued && s.issued[st].verifier == None && st !in s.urls
    case VerifierStored(st, v) => IsVerifierOf(s, st, v) && st !in s.urls
    case Read(st, found) => found.Some? ==> IsVerifierOf(s, st, found.value)
    case Ready(st, found) => found.Some? ==> IsVerifierOf(s, st, found.value)
    case _ => true
  }

  ghost predicate AuthorsDiffer(s: Sys) {
    forall v, w :: 0 <= v < w < |s.workers| && InAuthorize(s.workers[v]) && InAuthorize(s.workers[w]) ==>
      s.workers[v].state != s.workers[w].state
  }

  ghost predicate CopiesOk(s: Sys) {
    (forall w :: 0 <= w < |s.workers| ==> CopyOk(s, s.workers[w])) && AuthorsDiffer(s)
  }

  ghost predicate SecretsOk(s: Sys) {
    && (forall st :: st in s.verifiers ==> IsVerifierOf(s, st, s.verifiers[st].verifier))
    && (forall i :: 0 <= i < |s.posted| && s.posted[i].verifier.Some? ==>
          IsVerifierOf(s, s.posted[i].state, s.posted[i].verifier.value))
  }

  ghost predicate UrlsOk(s: Sys, s256: Hash) {
    forall st :: st in s.urls ==>
      && st in s.issued
      && s.urls[st] == if s.issued[st].verifier.Some? then Some(s256(s.issued[st].verifier.value)) else None
  }

  // The state was accepted at a callback with, or without, PKCE.
  predicate AcceptedWith(s: Sys, st: Id, pkce: bool) {
    exists i :: 0 <= i < |s.accepted| && s.accepted[i].state == st && s.accepted[i].pkce == pkce
  }

  predicate FlagOk(s: Sys, w: Worker) {
    match w
    case Popped(st, pkce) => AcceptedWith(s, st, pkce)
    case Read(st, _) => AcceptedWith(s, st, true)
    case Ready(st, found) => AcceptedWith(s, st, true) && found.Some?
    case _ => true
  }

  predicate PostOk(s: Sys, p: Posted) { AcceptedWith(s, p.state, p.verifier.Some?) }

  // A verifier is posted for the states accepted with PKCE and for no other.
  ghost predicate FlagsOk(s: Sys) {
    && (forall w :: 0 <= w < |s.workers| ==> FlagOk(s, s.workers[w]))
    && (forall i :: 0 <= i < |s.posted| ==> PostOk(s, s.posted[i]))
  }

  // The worker has not yet taken the verifier of its state out of the store.
  predicate Fetching(w: Worker) { w.Popped? || w.Read? }

  predicate SecretLive(s: Sys, st: Id) {
    st in s.issued && st in s.verifiers && s.verifiers[st].deadline >= s.issued[st].at + TTL
  }

  ghost predicate SecretSpent(s: Sys, st: Id) {
    WasAccepted(s, st) && forall w :: 0 <= w < |s.workers| && Fetching(s.workers[w]) ==> s.workers[w].state != st
  }

  // A verifier stays in the store until the worker that handles its state takes it.
  ghost predicate SecretsKept(s: Sys) {
    && (forall st :: st in s.issued ==> s.issued[st].at <= s.clock)
    && (forall st :: st in s.issued && s.issued[st].verifier.Some? ==> SecretLive(s, st) || SecretSpent(s, st))
  }

  ghost predicate Invariant(s: Sys, s256: Hash) {
    && AcceptedOnce(s) && StatesOk(s) && CallbacksApart(s) && PostedOnce(s)
    && CopiesOk(s) && SecretsOk(s) && UrlsOk(s, s256) && FlagsOk(s) && SecretsKept(s)
  }

  // ---------------------------------------------------------------------------
  // Each step keeps them
  // ---------------------------------------------------------------------------

  lemma StepStates(s: Sys, step: Step, s256: Hash)
    requires AcceptedOnce(s) && StatesOk(s) && Enabled(s, step)
    ensures AcceptedOnce(Next(s, step, s256))
  {
  }

  lemma StepStored(s: Sys, step: Step, s256: Hash)
    requires AcceptedOnce(s) && StatesOk(s) && Enabled(s, step)
    ensures StatesOk(Next(s, step, s256))
  {
  }

  lemma AcceptedGrows(s: Sys, step: Step, s256: Hash, st: Id)
    requires Enabled(s, step)
    ensures WasAccepted(s, st) ==> WasAccepted(Next(s, step, s256), st)
  {
    if i :| 0 <= i < |s.accepted| && s.accepted[i].state == st {
      assert Next(s, step, s256).accepted[i] == s.accepted[i];
    }
  }

  lemma StepPosted(s: Sys, step: Step, s256: Hash)
    requires CallbacksApart(s) && PostedOnce(s) && Enabled(s, step)
    ensures PostedOnce(Next(s, step, s256))
  {
    var s' := Next(s, step, s256);
    forall i | 0 <= i < |s'.posted| ensures WasAccepted(s', s'.posted[i].state) {
      AcceptedGrows(s, step, s256, s'.posted[i].state);
    }
    if step.Post? {
      assert !WasPosted(s, s.workers[step.w].state);
      forall i | 0 <= i < |s.posted| ensures s.posted[i].state != s.workers[step.w].state {}
    }
  }

  lemma PostedBefore(s: Sys, step: Step, s256: Hash, st: Id)
    requires Enabled(s, step) && WasPosted(Next(s, step, s256), st)
    ensures WasPosted(s, st) || (step.Post? && st == s.workers[step.w].state)
  {
    var s' := Next(s, step, s256);
    var i :| 0 <= i < |s'.posted| && s'.posted[i].state == st;
    if i < |s.posted| { assert s.posted[i].state == st; }
  }

  // A state still stored has not been accepted, so no worker handles it yet; popping
  // it therefore brings in no second handler.
  lemma StepHandlers(s: Sys, step: Step, s256: Hash)
    requires StatesOk(s) && CallbacksApart(s) && Enabled(s, step)
    ensures HandlersDiffer(Next(s, step, s256))
  {
  }

  lemma StepCallbacks(s: Sys, step: Step, s256: Hash)
    requires StatesOk(s) && CallbacksApart(s) && PostedOnce(s) && Enabled(s, step)
    ensures CallbacksAccepted(Next(s, step, s256))
  {
    var s' := Next(s, step, s256);
    forall w | 0 <= w < |s'.workers| && InCallback(s'.workers[w])
      ensures WasAccepted(s', s'.workers[w].state) && !WasPosted(s', s'.workers[w].state)
    {
      var st := s'.workers[w].state;
      if InCallback(s.workers[w]) {
        assert s.workers[w].state == st;
        AcceptedGrows(s, step, s256, st);
      } else {
        assert step.PopState? && s'.accepted[|s.accepted|].state == st;
        NotYetPosted(s, st);
      }
      if WasPosted(s', st) { PostedBefore(s, step, s256, st); }
    }
  }

  lemma NotYetPosted(s: Sys, st: Id)
    requires PostedOnce(s) && !WasAccepted(s, st)
    ensures !WasPosted(s, st)
  {
  }

  // A verifier, once generated for a state, is never replaced.
  lemma VerifierStays(s: Sys, step: Step, s256: Hash, st: Id, v: Id)
    requires CopiesOk(s) && Enabled(s, step) && IsVerifierOf(s, st, v)
    ensures IsVerifierOf(Next(s, step, s256), st, v)
  {
    if step.StoreVerifier? { assert CopyOk(s, s.workers[step.w]); }
  }

  lemma StepCopy(s: Sys, step: Step, s256: Hash, w: nat)
    requires CopiesOk(s) && SecretsOk(s) && UrlsOk(s, s256) && Enabled(s, step) && w < |s.workers|
    ensures CopyOk(Next(s, step, s256), Next(s, step, s256).workers[w])
  {
    var wk := s.workers[w];
    assert CopyOk(s, wk);
    match wk
    case VerifierStored(st, v) => VerifierStays(s, step, s256, st, v);
    case Read(st, found) => if found.Some? { VerifierStays(s, step, s256, st, found.value); }
    case Ready(st, found) => if found.Some? { VerifierStays(s, step, s256, st, found.value); }
    case _ =>
  }

  lemma StepAuthors(s: Sys, step: Step, s256: Hash)
    requires CopiesOk(s) && Enabled(s, step)
    ensures AuthorsDiffer(Next(s, step, s256))
  {
    if step.StoreState? {
      forall w | 0 <= w < |s.workers| && InAuthorize(s.workers[w]) ensures s.workers[w].state in s.issued {
        assert CopyOk(s, s.workers[w]);
      }
    }
  }

  lemma StepCopies(s: Sys, step: Step, s256: Hash)
    requires CopiesOk(s) && SecretsOk(s) && UrlsOk(s, s256) && Enabled(s, step)
    ensures CopiesOk(Next(s, step, s256))
  {
    forall w | 0 <= w < |s.workers| ensures CopyOk(Next(s, step, s256), Next(s, step, s256).workers[w]) {
      StepCopy(s, step, s256, w);
    }
    StepAuthors(s, step, s256);
  }

  lemma StepSecrets(s: Sys, step: Step, s256: Hash)
    requires CopiesOk(s) && SecretsOk(s) && Enabled(s, step)
    ensures SecretsOk(Next(s, step, s256))
  {
    var s' := Next(s, step, s256);
    forall st | st in s'.verifiers ensures IsVerifierOf(s', st, s'.verifiers[st].verifier) {
      if st in s.verifiers { VerifierStays(s, step, s256, st, s.verifiers[st].verifier); }
      if step.StoreVerifier? { assert CopyOk(s, s.workers[step.w]); }
    }
    forall i | 0 <= i < |s'.posted| && s'.posted[i].verifier.Some?
      ensures IsVerifierOf(s', s'.posted[i].state, s'.posted[i].verifier.value)
    {
      if step.Post? { assert CopyOk(s, s.workers[step.w]); }
      assert i < |s.posted| ==> s'.posted[i] == s.posted[i];
      VerifierStays(s, step, s256, s'.posted[i].state, s'.posted[i].verifier.value);
    }
  }

  lemma StepUrls(s: Sys, step: Step, s256: Hash)
    requires CopiesOk(s) && UrlsOk(s, s256) && Enabled(s, step)
    ensures UrlsOk(Next(s, step, s256), s256)
  {
    if step.StoreVerifier? || step.SendUrl? { assert CopyOk(s, s.workers[step.w]); }
  }

  lemma AcceptedWithGrows(s: Sys, step: Step, s256: Hash, st: Id, pkce: bool)
    requires Enabled(s, step) && AcceptedWith(s, st, pkce)
    ensures AcceptedWith(Next(s, step, s256), st, pkce)
  {
    var i :| 0 <= i < |s.accepted| && s.accepted[i].state == st && s.accepted[i].pkce == pkce;
    assert Next(s, step, s256).accepted[i] == s.accepted[i];
  }

  lemma StepFlag(s: Sys, step: Step, s256: Hash, w: nat)
    requires FlagsOk(s) && Enabled(s, step) && w < |s.workers|
    ensures FlagOk(Next(s, step, s256), Next(s, step, s256).workers[w])
  {
    var s' := Next(s, step, s256);
    var was, wk := s.workers[w], s'.workers[w];
    assert FlagOk(s, was);
    if InCallback(was) {
      AcceptedWithGrows(s, step, s256, was.state, if was.Popped? then was.pkce else true);
    } else if wk.Popped? {
      assert s'.accepted[|s.accepted|] == Acceptance(wk.state, s.states[wk.state].user, s.clock, wk.pkce);
    }
  }

  lemma StepFlags(s: Sys, step: Step, s256: Hash)
    requires FlagsOk(s) && Enabled(s, step)
    ensures FlagsOk(Next(s, step, s256))
  {
    var s' := Next(s, step, s256);
    forall w | 0 <= w < |s'.workers| ensures FlagOk(s', s'.workers[w]) { StepFlag(s, step, s256, w); }
    forall i | 0 <= i < |s'.posted| ensures PostOk(s', s'.posted[i]) {
      if i < |s.posted| {
        assert PostOk(s, s.posted[i]);
        AcceptedWithGrows(s, step, s256, s.posted[i].state, s.posted[i].verifier.Some?);
      } else {
        assert FlagOk(s, s.workers[step.w]);
      }
    }
  }

  lemma StepSpent(s: Sys, step: Step, s256: Hash, st: Id)
    requires StatesOk(s) && SecretSpent(s, st) && Enabled(s, step)
    ensures SecretSpent(Next(s, step, s256), st)
  {
    AcceptedGrows(s, step, s256, st);
  }

  lemma StepLive(s: Sys, step: Step, s256: Hash, st: Id)
    requires CallbacksApart(s) && SecretsKept(s) && SecretLive(s, st) && Enabled(s, step)
    ensures SecretLive(Next(s, step, s256), st) || SecretSpent(Next(s, step, s256), st)
  {
    if step.DelVerifier? { AcceptedGrows(s, step, s256, st); }
  }

  lemma StepKept(s: Sys, step: Step, s256: Hash)
    requires StatesOk(s) && CallbacksApart(s) && CopiesOk(s) && SecretsKept(s) && Enabled(s, step)
    ensures SecretsKept(Next(s, step, s256))
  {
    var s' := Next(s, step, s256);
    forall st | st in s'.issued && s'.issued[st].verifier.Some? ensures SecretLive(s', st) || SecretSpent(s', st) {
      if st in s.issued && s.issued[st].verifier.Some? {
        if SecretLive(s, st) { StepLive(s, step, s256, st); } else { StepSpent(s, step, s256, st); }
      } else {
        assert step.StoreVerifier? && CopyOk(s, s.workers[step.w]);
      }
    }
  }

  lemma {:induction false} RunKeeps(k: nat, steps: seq<Step>, s256: Hash)
    ensures Invariant(Exec(k, steps, s256), s256)
  {
    if steps != [] {
      var front, last := steps[..|steps| - 1], steps[|steps| - 1];
      RunKeeps(k, front, s256);
      var s := Exec(k, front, s256);
      if Enabled(s, last) {
        StepStates(s, last, s256);
        StepStored(s, last, s256);
        StepPosted(s, last, s256);
        StepCallbacks(s, last, s256);
        StepHandlers(s, last, s256);
        StepCopies(s, last, s256);
        StepSecrets(s, last, s256);
        StepUrls(s, last, s256);
        StepFlags(s, last, s256);
        StepKept(s, last, s256);
      }
    }
  }

  // ---------------------------------------------------------------------------
  // Main results
  // ---------------------------------------------------------------------------

  // Over every interleaving: each state is accepted at most once, within its life, and
  // for the user who asked for it.
  lemma StateAcceptedOnce(k: nat, steps: seq<Step>, s256: Hash)
    ensures AcceptedOnce(Exec(k, steps, s256))
  {
    RunKeeps(k, steps, s256);
  }

  // Each accepted state is posted at most once, and the verifier posted for it is the
  // one whose S256 challenge went out with that state.
  lemma PostedVerifierMatchesChallenge(k: nat, steps: seq<Step>, s256: Hash)
    ensures var s := Exec(k, steps, s256);
            && PostedOnce(s)
            && forall i :: 0 <= i < |s.posted| && s.posted[i].verifier.Some? && s.posted[i].state in s.urls ==>
                 s.urls[s.posted[i].state] == Some(s256(s.posted[i].verifier.value))
  {
    RunKeeps(k, steps, s256);
    var s := Exec(k, steps, s256);
    forall i | 0 <= i < |s.posted| && s.posted[i].verifier.Some? && s.posted[i].state in s.urls
      ensures s.urls[s.posted[i].state] == Some(s256(s.posted[i].verifier.value))
    {
      assert IsVerifierOf(s, s.posted[i].state, s.posted[i].verifier.value);
    }
  }

  // A state is not bound to a provider. Where a URL carried a challenge, the post made for
  // its state answers that challenge if and only if the state was accepted at the callback
  // of a provider that uses PKCE; where it carried none, such a callback posts nothing.
  lemma ChallengeAnsweredIff(k: nat, steps: seq<Step>, s256: Hash, i: nat, j: nat)
    requires var s := Exec(k, steps, s256);
             && i < |s.posted| && j < |s.accepted| && s.posted[i].state == s.accepted[j].state
             && s.posted[i].state in s.urls
    ensures var s := Exec(k, steps, s256);
            var sent, posted := s.urls[s.posted[i].state], s.posted[i].verifier;
            && (posted.Some? <==> s.accepted[j].pkce)
            && (sent.Some? ==> (posted.Some? && s256(posted.value) == sent.value <==> s.accepted[j].pkce))
            && (sent.None? ==> !s.accepted[j].pkce)
  {
    RunKeeps(k, steps, s256);
    PostedVerifierMatchesChallenge(k, steps, s256);
    var s := Exec(k, steps, s256);
    assert PostOk(s, s.posted[i]);
  }

  // Over every interleaving: a callback that uses PKCE and reads the store within 600 seconds
  // of the authorization finds the verifier of the challenge that went out.
  lemma VerifierFound(k: nat, steps: seq<Step>, s256: Hash, w: nat)
    requires var s := Exec(k, steps, s256);
             && w < |s.workers| && s.workers[w].Popped? && s.workers[w].pkce
             && s.workers[w].state in s.urls && s.urls[s.workers[w].state].Some?
             && s.workers[w].state in s.issued && s.clock < s.issued[s.workers[w].state].at + 600.0
    ensures var s := Exec(k, steps, s256);
            && Enabled(s, GetVerifier(w))
            && var wk := Next(s, GetVerifier(w), s256).workers[w];
               wk.Read? && wk.state == s.workers[w].state && wk.found.Some? &&
               Some(s256(wk.found.value)) == s.urls[wk.state]
  {
    RunKeeps(k, steps, s256);
    var s := Exec(k, steps, s256);
    var st := s.workers[w].state;
    assert !SecretSpent(s, st);
    assert IsVerifierOf(s, st, s.verifiers[st].verifier);
  }

  // A verifier found is posted, once its key is deleted.
  lemma FoundIsPosted(s: Sys, s256: Hash, w: nat)
    requires Enabled(s, DelVerifier(w)) && s.workers[w].found.Some?
    ensures var s' := Next(s, DelVerifier(w), s256);
            && s.workers[w].state !in s'.verifiers && Enabled(s', Post(w))
            && Next(s', Post(w), s256).posted == s.posted + [Posted(s.workers[w].state, s.workers[w].found)]
  {
  }

  // A whole authorization with PKCE, to the post that answers its challenge.
  lemma ChallengeAnswered(s256: Hash)
    ensures var s := Exec(1, [StoreState(0, 7, "u", true), StoreVerifier(0, 1), SendUrl(0), PopState(0, 7, true),
                              GetVerifier(0), DelVerifier(0), Post(0)], s256);
            s.posted == [Posted(7, Some(1))] && 7 in s.urls && s.urls[7] == Some(s256(1))
  {
    var c := [StoreState(0, 7, "u", true), StoreVerifier(0, 1), SendUrl(0)];
    UrlSent(s256);
    var d := c + [PopState(0, 7, true)];
    var e := d + [GetVerifier(0)];
    var f := e + [DelVerifier(0)];
    ExecSnoc(1, c, PopState(0, 7, true), s256);
    ExecSnoc(1, d, GetVerifier(0), s256);
    ExecSnoc(1, e, DelVerifier(0), s256);
    ExecSnoc(1, f, Post(0), s256);
    assert f + [Post(0)] == [StoreState(0, 7, "u", true), StoreVerifier(0, 1), SendUrl(0), PopState(0, 7, true),
                             GetVerifier(0), DelVerifier(0), Post(0)];
  }

  lemma UrlSent(s256: Hash)
    ensures var s := Exec(1, [StoreState(0, 7, "u", true), StoreVerifier(0, 1), SendUrl(0)], s256);
            && s.clock == 0.0 && s.workers == [Idle] && s.states == map[7 := Pending("u", 600.0)] && s.posted == []
            && s.verifiers == map[7 := Secret(1, 600.0)] && s.urls == map[7 := Some(s256(1))]
  {
    var a := [StoreState(0, 7, "u", true)];
    var b := a + [StoreVerifier(0, 1)];
    ExecSnoc(1, [], a[0], s256);
    ExecSnoc(1, a, StoreVerifier(0, 1), s256);
    ExecSnoc(1, b, SendUrl(0), s256);
    assert [] + [a[0]] == a;
    assert b + [SendUrl(0)] == [StoreState(0, 7, "u", true), StoreVerifier(0, 1), SendUrl(0)];
  }

  // It does happen that a challenge is not answered.
  lemma ChallengeUnanswered(s256: Hash)
    ensures var s := Exec(1, [StoreState(0, 7, "u", true), StoreVerifier(0, 1), SendUrl(0), PopState(0, 7, false),
                              Post(0)], s256);
            s.posted == [Posted(7, None)] && 7 in s.urls && s.urls[7] == Some(s256(1))
  {
    var c := [StoreState(0, 7, "u", true), StoreVerifier(0, 1), SendUrl(0)];
    UrlSent(s256);
    var d := c + [PopState(0, 7, false)];
    ExecSnoc(1, c, PopState(0, 7, false), s256);
    ExecSnoc(1, d, Post(0), s256);
    assert d + [Post(0)] == [StoreState(0, 7, "u", true), StoreVerifier(0, 1), SendUrl(0), PopState(0, 7, false),
                             Post(0)];
  }

  lemma ExecSnoc(k: nat, steps: seq<Step>, step: Step, s256: Hash)
    requires Enabled(Exec(k, steps, s256), step)
    ensures Exec(k, steps + [step], s256) == Next(Exec(k, steps, s256), step, s256)
  {
    assert (steps + [step])[..|steps|] == steps;
  }

  // The verifier is read and deleted in two steps, yet no two workers are ever at it
  // for the same state: the atomic pop of the state comes first.
  lemma VerifierPopIsExclusive(k: nat, steps: seq<Step>, s256: Hash, v: nat, w: nat)
    requires v < w < |Exec(k, steps, s256).workers|
    requires InCallback(Exec(k, steps, s256).workers[v]) && InCallback(Exec(k, steps, s256).workers[w])
    ensures Exec(k, steps, s256).workers[v].state != Exec(k, steps, s256).workers[w].state
  {
    RunKeeps(k, steps, s256);
  }
}
