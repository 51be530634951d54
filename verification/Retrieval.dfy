// services/tool_retriever.py: ranked retrieval with a provider guarantee, over an index
// that is memoised per user and configuration version.
module Retrieval {
  import opened Prelude
  import opened StableSort
  import opened Servers

  datatype ToolDef = ToolDef(name: string, description: string)

  // One indexed document; its text is determined by the tool and its provider tag.
  datatype Doc = Doc(tool: ToolDef, provider: string)

  // A scorer gives one score per document, for the query at hand.
  type Scorer = seq<Doc> -> seq<real>

  function Get(m: map<string, string>, k: string, default: string): string {
    if k in m then m[k] else default
  }

  // ---------------------------------------------------------------------------
  // The per-user index
  // ---------------------------------------------------------------------------

  datatype Built = Built(index: Option<seq<Doc>>, providers: map<string, string>)

  // The first n tools, each with its owner; and the map from their names to their owners.
  function Docs(tools: seq<ToolDef>, servers: seq<string>, n: nat): seq<Doc> requires n <= |tools| {
    if n == 0 then []
    else Docs(tools, servers, n - 1) + [Doc(tools[n - 1], ServerOrUserMcp(tools[n - 1].name, servers))]
  }

  function ProviderMap(tools: seq<ToolDef>, servers: seq<string>, n: nat): map<string, string> requires n <= |tools| {
    if n == 0 then map[]
    else ProviderMap(tools, servers, n - 1)[tools[n - 1].name := ServerOrUserMcp(tools[n - 1].name, servers)]
  }

  // What a build from scratch returns.
  function FreshBuild(tools: seq<ToolDef>, servers: seq<string>, bm25: bool): Built {
    if tools == [] then Built(None, map[])
    else Built(if bm25 then Some(Docs(tools, servers, |tools|)) else None, ProviderMap(tools, servers, |tools|))
  }

  datatype Entry = Entry(version: string, built: Built)

  datatype Op =
    | Request(user: string, version: string, tools: seq<ToolDef>, servers: seq<string>)
    | Invalidate(user: string)

  function Answer(cache: map<string, Entry>, op: Op, bm25: bool): Built
    requires op.Request?
  {
    if op.tools == [] then Built(None, map[])
    else if op.user in cache && cache[op.user].version == op.version then cache[op.user].built
    else FreshBuild(op.tools, op.servers, bm25)
  }

  function CacheAfter(cache: map<string, Entry>, op: Op, bm25: bool): map<string, Entry> {
    match op
    case Invalidate(u) => cache - {u}
    case Request(u, v, tools, servers) =>
      if tools == [] || (u in cache && cache[u].version == v) then cache
      else cache[u := Entry(v, FreshBuild(tools, servers, bm25))]
  }

  function RunCache(ops: seq<Op>, bm25: bool): map<string, Entry> {
    if ops == [] then map[] else CacheAfter(RunCache(ops[..|ops| - 1], bm25), ops[|ops| - 1], bm25)
  }

  // A version that determines a user's tools and servers.
  type Config = (string, string) -> (seq<ToolDef>, seq<string>)

  ghost predicate Determined(ops: seq<Op>, config: Config) {
    forall i :: 0 <= i < |ops| && ops[i].Request? && ops[i].tools != [] ==>
      config(ops[i].user, ops[i].version) == (ops[i].tools, ops[i].servers)
  }

  ghost predicate FreshEntries(cache: map<string, Entry>, config: Config, bm25: bool) {
    forall u :: u in cache ==>
      cache[u].built == FreshBuild(config(u, cache[u].version).0, config(u, cache[u].version).1, bm25)
  }

  lemma {:induction false} CacheStaysFresh(ops: seq<Op>, config: Config, bm25: bool)
    requires Determined(ops, config)
    ensures FreshEntries(RunCache(ops, bm25), config, bm25)
  {
    if ops != [] { CacheStaysFresh(ops[..|ops| - 1], config, bm25); }
  }

  // After any sequence of requests and invalidations over any users, a request returns
  // what a fresh build would.
  lemma MemoIsTransparent(ops: seq<Op>, op: Op, config: Config, bm25: bool)
    requires op.Request? && Determined(ops + [op], config)
    ensures Answer(RunCache(ops, bm25), op, bm25) == FreshBuild(op.tools, op.servers, bm25)
  {
    forall i | 0 <= i < |ops| && ops[i].Request? && ops[i].tools != []
      ensures config(ops[i].user, ops[i].version) == (ops[i].tools, ops[i].servers)
    {
      assert (ops + [op])[i] == ops[i];
    }
    CacheStaysFresh(ops, config, bm25);
    assert (ops + [op])[|ops|] == op;
  }

  // What a build lists: each tool with its owner, in order; and each name with its owner.
  lemma {:induction false} BuildMeaning(tools: seq<ToolDef>, servers: seq<string>, bm25: bool)
    ensures var b := FreshBuild(tools, servers, bm25);
            && (b.index.Some? <==> tools != [] && bm25)
            && (b.index.Some? ==>
                  && |b.index.value| == |tools|
                  && forall i :: 0 <= i < |tools| ==>
                       b.index.value[i].tool == tools[i] && OwnedBy(tools[i].name, servers, b.index.value[i].provider))
            && (forall n :: n in b.providers <==> Named(tools, n, |tools|))
            && (forall n :: n in b.providers ==> OwnedBy(n, servers, b.providers[n]))
  {
    DocsListed(tools, servers, |tools|);
    ProvidersListed(tools, servers, |tools|);
    forall n, p ensures OwnedBy(n, servers, p) <==> p == ServerOrUserMcp(n, servers) { OwnedByIff(n, servers, p); }
  }

  predicate DocsAre(docs: seq<Doc>, tools: seq<ToolDef>, servers: seq<string>, n: nat) requires n <= |tools| {
    |docs| == n && forall i :: 0 <= i < n ==> docs[i] == Doc(tools[i], ServerOrUserMcp(tools[i].name, servers))
  }

  lemma DocsMore(docs: seq<Doc>, tools: seq<ToolDef>, servers: seq<string>, n: nat)
    requires n < |tools| && DocsAre(docs, tools, servers, n)
    ensures DocsAre(docs + [Doc(tools[n], ServerOrUserMcp(tools[n].name, servers))], tools, servers, n + 1)
  {
  }

  lemma {:induction false} DocsListed(tools: seq<ToolDef>, servers: seq<string>, n: nat)
    requires n <= |tools|
    ensures DocsAre(Docs(tools, servers, n), tools, servers, n)
  {
    if n > 0 {
      DocsListed(tools, servers, n - 1);
      DocsMore(Docs(tools, servers, n - 1), tools, servers, n - 1);
    }
  }

  // One of the first n tools has this name.
  predicate Named(tools: seq<ToolDef>, name: string, n: nat) requires n <= |tools| {
    exists i :: 0 <= i < n && tools[i].name == name
  }

  lemma {:induction false} ProvidersListed(tools: seq<ToolDef>, servers: seq<string>, n: nat)
    requires n <= |tools|
    ensures forall name :: name in ProviderMap(tools, servers, n) <==> Named(tools, name, n)
    ensures forall name :: name in ProviderMap(tools, servers, n) ==>
              ProviderMap(tools, servers, n)[name] == ServerOrUserMcp(name, servers)
  {
    if n > 0 {
      ProvidersListed(tools, servers, n - 1);
      forall name ensures name in ProviderMap(tools, servers, n) <==> Named(tools, name, n) {
        assert Named(tools, name, n) <==> Named(tools, name, n - 1) || tools[n - 1].name == name;
      }
    }
  }

  // The index is built once: a request leaves its answer in the cache, and the next one with
  // the same version gets it, whatever its tools; an invalidation makes the next one build.
  // No other user's entry changes.
  lemma MemoHit(cache: map<string, Entry>, first: Op, second: Op, bm25: bool)
    requires first.Request? && second.Request? && first.tools != [] && second.tools != []
    requires first.user == second.user && first.version == second.version
    ensures var after := CacheAfter(cache, first, bm25);
            && Answer(after, second, bm25) == Answer(cache, first, bm25)
            && CacheAfter(after, second, bm25) == after
            && Answer(CacheAfter(after, Invalidate(first.user), bm25), second, bm25)
               == FreshBuild(second.tools, second.servers, bm25)
            && forall u :: u != first.user ==> (u in after <==> u in cache) && (u in cache ==> after[u] == cache[u])
  {
  }

  // ---------------------------------------------------------------------------
  // Ranking
  // ---------------------------------------------------------------------------

  datatype Candidate = Candidate(tool: ToolDef, score: real, provider: string)

  function CandidateScore(c: Candidate): real { c.score }

  // Fixed tools of connected providers, with their scores, over zip(tools, scores).
  function FixedCandidates(tools: seq<ToolDef>, scores: seq<real>, providerOf: map<string, string>,
                           connected: set<string>, n: nat): seq<Candidate>
    requires n <= |tools| && n <= |scores|
  {
    if n == 0 then []
    else
      var p := Get(providerOf, tools[n - 1].name, "");
      var front := FixedCandidates(tools, scores, providerOf, connected, n - 1);
      if p in connected then front + [Candidate(tools[n - 1], scores[n - 1], p)] else front
  }

  function UserCandidates(tools: seq<ToolDef>, scores: seq<real>, providerOf: map<string, string>,
                          n: nat): seq<Candidate>
    requires n <= |tools| && n <= |scores|
  {
    if n == 0 then []
    else UserCandidates(tools, scores, providerOf, n - 1) +
         [Candidate(tools[n - 1], scores[n - 1], Get(providerOf, tools[n - 1].name, "user_mcp"))]
  }

  function Relevant(cs: seq<Candidate>, minScore: real): seq<Candidate> {
    if cs == [] then []
    else if cs[|cs| - 1].score >= minScore
      then Relevant(cs[..|cs| - 1], minScore) + [cs[|cs| - 1]]
      else Relevant(cs[..|cs| - 1], minScore)
  }

  function TopRanked(cs: seq<Candidate>, minScore: real, topK: nat): seq<Candidate> {
    var sorted := Sort(Relevant(cs, minScore), CandidateScore);
    sorted[..Min(topK, |sorted|)]
  }

  function ToolsOf(cs: seq<Candidate>): seq<ToolDef> {
    seq(|cs|, i requires 0 <= i < |cs| => cs[i].tool)
  }

  function ProvidersOf(cs: seq<Candidate>): set<string> {
    set c | c in cs :: c.provider
  }

  // ---------------------------------------------------------------------------
  // The guarantee
  // ---------------------------------------------------------------------------

  // The first candidate of p, in list order, whose tool is not selected yet.
  function FirstUnselected(cs: seq<Candidate>, p: string, selected: seq<ToolDef>): Option<ToolDef> {
    if cs == [] then None
    else if cs[0].provider == p && cs[0].tool !in selected then Some(cs[0].tool)
    else FirstUnselected(cs[1..], p, selected)
  }

  datatype Chosen = Chosen(tools: seq<ToolDef>, providers: set<string>)

  function GuaranteeOne(g: Chosen, p: string, cs: seq<Candidate>, named: string -> bool): Chosen {
    if p in g.providers || !named(p) then g
    else
      match FirstUnselected(cs, p, g.tools)
      case None => g
      case Some(t) => Chosen(g.tools + [t], g.providers + {p})
  }

  function Guarantee(g: Chosen, order: seq<string>, cs: seq<Candidate>, named: string -> bool): Chosen {
    if order == [] then g
    else GuaranteeOne(Guarantee(g, order[..|order| - 1], cs, named), order[|order| - 1], cs, named)
  }

  function Retrieve(cs: seq<Candidate>, order: seq<string>, named: string -> bool,
                    topK: nat, minScore: real): seq<ToolDef>
  {
    if cs == [] then []
    else
      var top := TopRanked(cs, minScore, topK);
      Guarantee(Chosen(ToolsOf(top), ProvidersOf(top)), order, cs, named).tools
  }

  // The first candidate of p, in list order, that is not taken.
  predicate FirstFree(cs: seq<Candidate>, p: string, taken: seq<ToolDef>, i: nat) {
    && i < |cs| && cs[i].provider == p && cs[i].tool !in taken
    && forall j :: 0 <= j < i && cs[j].provider == p ==> cs[j].tool in taken
  }

  // The loop finds the first free candidate, whatever its score.
  lemma {:induction false} FirstUnselectedFinds(cs: seq<Candidate>, p: string, selected: seq<ToolDef>)
    ensures FirstUnselected(cs, p, selected).None? <==> forall c :: c in cs && c.provider == p ==> c.tool in selected
    ensures FirstUnselected(cs, p, selected).Some? <==> exists i: nat :: FirstFree(cs, p, selected, i)
    ensures forall i: nat :: FirstFree(cs, p, selected, i) ==> FirstUnselected(cs, p, selected) == Some(cs[i].tool)
  {
    if cs != [] {
      var rest := cs[1..];
      assert cs == [cs[0]] + rest;
      FirstUnselectedFinds(rest, p, selected);
      if cs[0].provider == p && cs[0].tool !in selected {
        assert FirstFree(cs, p, selected, 0);
      } else {
        forall i: nat ensures FirstFree(rest, p, selected, i) <==> FirstFree(cs, p, selected, i + 1) {
          assert forall j :: 0 <= j < |rest| ==> cs[j + 1] == rest[j];
          if FirstFree(rest, p, selected, i) {
            forall j | 0 <= j < i + 1 && cs[j].provider == p ensures cs[j].tool in selected {
              assert j > 0 ==> cs[j] == rest[j - 1];
            }
          }
        }
        assert forall i: nat :: FirstFree(cs, p, selected, i) ==> i > 0 && FirstFree(rest, p, selected, i - 1);
      }
    }
  }

  // Some candidate of p made it into the tools.
  ghost predicate Served(cs: seq<Candidate>, p: string, tools: seq<ToolDef>) {
    exists c :: c in cs && c.provider == p && c.tool in tools
  }

  ghost predicate AllServed(cs: seq<Candidate>, g: Chosen) {
    forall p :: p in g.providers ==> Served(cs, p, g.tools)
  }

  ghost predicate FromCandidates(cs: seq<Candidate>, tools: seq<ToolDef>) {
    forall t :: t in tools ==> exists c :: c in cs && c.tool == t
  }

  lemma GuaranteeStep(g: Chosen, p: string, cs: seq<Candidate>, named: string -> bool)
    requires AllServed(cs, g) && FromCandidates(cs, g.tools)
    ensures var g' := GuaranteeOne(g, p, cs, named);
            && AllServed(cs, g') && FromCandidates(cs, g'.tools)
            && g.tools <= g'.tools && |g'.tools| <= |g.tools| + 1
            && (named(p) && (exists c :: c in cs && c.provider == p) ==> Served(cs, p, g'.tools))
  {
    FirstUnselectedFinds(cs, p, g.tools);
    var g' := GuaranteeOne(g, p, cs, named);
    forall q | q in g'.providers ensures Served(cs, q, g'.tools) {
      if q in g.providers {
        var c :| c in cs && c.provider == q && c.tool in g.tools;
        assert c.tool in g'.tools;
      }
    }
  }

  lemma {:induction false} GuaranteeHolds(g: Chosen, order: seq<string>, cs: seq<Candidate>, named: string -> bool)
    requires AllServed(cs, g) && FromCandidates(cs, g.tools)
    ensures var g' := Guarantee(g, order, cs, named);
            && AllServed(cs, g') && FromCandidates(cs, g'.tools)
            && g.tools <= g'.tools && |g'.tools| <= |g.tools| + |order|
            && forall p :: p in order && named(p) && (exists c :: c in cs && c.provider == p) ==>
                 Served(cs, p, g'.tools)
  {
    if order != [] {
      var n := |order| - 1;
      GuaranteeHolds(g, order[..n], cs, named);
      var mid := Guarantee(g, order[..n], cs, named);
      GuaranteeStep(mid, order[n], cs, named);
      var g' := Guarantee(g, order, cs, named);
      forall p | p in order && named(p) && exists c :: c in cs && c.provider == p
        ensures Served(cs, p, g'.tools)
      {
        if p != order[n] {
          assert p in order[..n];
          var c :| c in cs && c.provider == p && c.tool in mid.tools;
          assert c.tool in g'.tools;
        }
      }
    }
  }

  lemma {:induction false} RelevantMember(cs: seq<Candidate>, minScore: real, c: Candidate)
    ensures c in Relevant(cs, minScore) <==> c in cs && c.score >= minScore
  {
    if cs != [] {
      RelevantMember(cs[..|cs| - 1], minScore, c);
      assert cs == cs[..|cs| - 1] + [cs[|cs| - 1]];
    }
  }

  lemma {:induction false} RelevantLevel(cs: seq<Candidate>, minScore: real, v: real)
    ensures Level(Relevant(cs, minScore), CandidateScore, v) <= Level(cs, CandidateScore, v)
    ensures v >= minScore ==> Level(Relevant(cs, minScore), CandidateScore, v) == Level(cs, CandidateScore, v)
    ensures v < minScore ==> Level(Relevant(cs, minScore), CandidateScore, v) == []
  {
    if cs != [] {
      var front, last := cs[..|cs| - 1], cs[|cs| - 1];
      RelevantLevel(front, minScore, v);
      LevelSnoc(Relevant(front, minScore), last, CandidateScore, v);
    }
  }

  // Among equal scores the earlier candidates are taken, and stay in order.
  lemma TopRankedTies(cs: seq<Candidate>, minScore: real, topK: nat, v: real)
    ensures Level(TopRanked(cs, minScore, topK), CandidateScore, v) <= Level(cs, CandidateScore, v)
  {
    var rel := Relevant(cs, minScore);
    SortIsStable(rel, CandidateScore);
    var sorted := Sort(rel, CandidateScore);
    LevelPrefix(sorted, Min(topK, |sorted|), CandidateScore, v);
    RelevantLevel(cs, minScore, v);
  }

  lemma {:induction false} TopRankedFacts(cs: seq<Candidate>, minScore: real, topK: nat)
    ensures |TopRanked(cs, minScore, topK)| == Min(topK, |Relevant(cs, minScore)|)
    ensures Descending(TopRanked(cs, minScore, topK), CandidateScore)
    ensures forall c :: c in TopRanked(cs, minScore, topK) ==> c in cs && c.score >= minScore
    ensures forall c, d :: c in TopRanked(cs, minScore, topK) && d in cs && d.score > c.score ==>
              d in TopRanked(cs, minScore, topK)
    ensures forall v :: Level(TopRanked(cs, minScore, topK), CandidateScore, v) <= Level(cs, CandidateScore, v)
  {
    var rel := Relevant(cs, minScore);
    var sorted := Sort(rel, CandidateScore);
    var top := TopRanked(cs, minScore, topK);
    SortIsStable(rel, CandidateScore);
    SortMember(rel, CandidateScore);
    forall v ensures Level(top, CandidateScore, v) <= Level(cs, CandidateScore, v) {
      TopRankedTies(cs, minScore, topK, v);
    }
    forall c | c in top ensures c in cs && c.score >= minScore {
      assert c in sorted;
      RelevantMember(cs, minScore, c);
    }
    forall c, d | c in top && d in cs && d.score > c.score ensures d in top {
      RelevantMember(cs, minScore, d);
      var i :| 0 <= i < |top| && top[i] == c;
      var j :| 0 <= j < |sorted| && sorted[j] == d;
      assert CandidateScore(sorted[j]) > CandidateScore(sorted[i]);
      assert top[j] == d;
    }
  }

  lemma ToolsOfMember(cs: seq<Candidate>, t: ToolDef)
    ensures t in ToolsOf(cs) <==> exists c :: c in cs && c.tool == t
  {
    var ts := ToolsOf(cs);
    if c :| c in cs && c.tool == t {
      var i :| 0 <= i < |cs| && cs[i] == c;
      assert ts[i] == t;
    }
    if t in ts {
      var i :| 0 <= i < |ts| && ts[i] == t;
      assert cs[i] in cs;
    }
  }

  // The ranked part comes first; every named, connected provider with a candidate gets
  // a tool; nothing but candidates appears; and the guarantee adds at most one tool
  // per connected provider.
  lemma RetrievalGuarantee(cs: seq<Candidate>, order: seq<string>, named: string -> bool, topK: nat, minScore: real)
    ensures var r := Retrieve(cs, order, named, topK, minScore);
            && ToolsOf(TopRanked(cs, minScore, topK)) <= r
            && |r| <= topK + |order|
            && FromCandidates(cs, r)
            && forall p :: p in order && named(p) && (exists c :: c in cs && c.provider == p) ==> Served(cs, p, r)
  {
    var top := TopRanked(cs, minScore, topK);
    TopRankedFacts(cs, minScore, topK);
    if cs != [] {
      var g := Chosen(ToolsOf(top), ProvidersOf(top));
      forall p | p in g.providers ensures Served(cs, p, g.tools) {
        var c :| c in top && c.provider == p;
        ToolsOfMember(top, c.tool);
      }
      forall t | t in g.tools ensures exists c :: c in cs && c.tool == t { ToolsOfMember(top, t); }
      GuaranteeHolds(g, order, cs, named);
    }
  }

  // ---------------------------------------------------------------------------
  // Which tool the guarantee adds
  // ---------------------------------------------------------------------------

  lemma {:induction false} OnlyVisitedAdded(g: Chosen, order: seq<string>, cs: seq<Candidate>, named: string -> bool,
                                            p: string)
    requires p in Guarantee(g, order, cs, named).providers
    ensures p in g.providers || p in order
  {
    if order != [] && p != order[|order| - 1] {
      OnlyVisitedAdded(g, order[..|order| - 1], cs, named, p);
    }
  }

  // When its turn comes, a named provider without a tool in the ranked part gets the first
  // of its candidates whose tool nobody before it has taken, or nothing if there is none.
  lemma GuaranteeTurn(cs: seq<Candidate>, before: seq<string>, p: string, named: string -> bool,
                      topK: nat, minScore: real)
    requires p !in ProvidersOf(TopRanked(cs, minScore, topK)) && p !in before && named(p)
    ensures var taken := Retrieve(cs, before, named, topK, minScore);
            var r := Retrieve(cs, before + [p], named, topK, minScore);
            && (forall i: nat :: FirstFree(cs, p, taken, i) ==> r == taken + [cs[i].tool])
            && ((forall i: nat :: !FirstFree(cs, p, taken, i)) ==> r == taken)
  {
    var top := TopRanked(cs, minScore, topK);
    var g := Chosen(ToolsOf(top), ProvidersOf(top));
    FirstUnselectedFinds(cs, p, Guarantee(g, before, cs, named).tools);
    if p in Guarantee(g, before, cs, named).providers { OnlyVisitedAdded(g, before, cs, named, p); }
    assert (before + [p])[..|before|] == before;
  }

  // No candidate of another provider shares a tool with p.
  predicate OwnsItsTools(cs: seq<Candidate>, p: string) {
    forall c, d :: c in cs && d in cs && c.provider == p && d.tool == c.tool ==> d.provider == p
  }

  // Of p's tools, at most the one of candidate f is among the tools.
  ghost predicate OnlyTool(cs: seq<Candidate>, p: string, f: nat, tools: seq<ToolDef>) requires f < |cs| {
    forall c :: c in cs && c.provider == p && c.tool in tools ==> c.tool == cs[f].tool
  }

  lemma AddOne(g: Chosen, q: string, cs: seq<Candidate>, named: string -> bool, p: string, f: nat)
    requires OwnsItsTools(cs, p) && FirstFree(cs, p, [], f)
    requires OnlyTool(cs, p, f, g.tools) && (cs[f].tool in g.tools <==> p in g.providers)
    ensures var g' := GuaranteeOne(g, q, cs, named);
            && OnlyTool(cs, p, f, g'.tools) && (cs[f].tool in g'.tools <==> p in g'.providers)
            && (p in g'.providers <==> p in g.providers || (q == p && named(p)))
  {
    FirstUnselectedFinds(cs, q, g.tools);
    if q == p && p !in g.providers && named(p) {
      assert FirstFree(cs, p, g.tools, f);
    }
  }

  lemma {:induction false} AddAll(g: Chosen, order: seq<string>, cs: seq<Candidate>, named: string -> bool,
                                  p: string, f: nat)
    requires OwnsItsTools(cs, p) && FirstFree(cs, p, [], f)
    requires OnlyTool(cs, p, f, g.tools) && cs[f].tool !in g.tools && p !in g.providers
    ensures var g' := Guarantee(g, order, cs, named);
            && OnlyTool(cs, p, f, g'.tools) && (cs[f].tool in g'.tools <==> p in g'.providers)
            && (p in g'.providers <==> p in order && named(p))
  {
    if order != [] {
      var n := |order| - 1;
      AddAll(g, order[..n], cs, named, p, f);
      AddOne(Guarantee(g, order[..n], cs, named), order[n], cs, named, p, f);
      assert order == order[..n] + [order[n]];
    }
  }

  // A provider without a tool in the ranked part gets the tool of its first candidate,
  // and no other, exactly when it is connected and named.
  lemma GuaranteeAddsFirst(cs: seq<Candidate>, order: seq<string>, named: string -> bool, topK: nat, minScore: real,
                           p: string, f: nat)
    requires OwnsItsTools(cs, p) && FirstFree(cs, p, [], f)
    requires p !in ProvidersOf(TopRanked(cs, minScore, topK))
    ensures var r := Retrieve(cs, order, named, topK, minScore);
            && OnlyTool(cs, p, f, r)
            && (cs[f].tool in r <==> p in order && named(p))
  {
    var top := TopRanked(cs, minScore, topK);
    TopRankedFacts(cs, minScore, topK);
    forall c | c in cs && c.provider == p ensures c.tool !in ToolsOf(top) {
      ToolsOfMember(top, c.tool);
    }
    AddAll(Chosen(ToolsOf(top), ProvidersOf(top)), order, cs, named, p, f);
  }

  // The tool added scores at least as high as every tool of the provider left out, if and
  // only if the provider's first candidate scores at least as high as its others.
  lemma AddedIsBestIff(cs: seq<Candidate>, order: seq<string>, named: string -> bool, topK: nat, minScore: real,
                       p: string, f: nat)
    requires OwnsItsTools(cs, p) && FirstFree(cs, p, [], f)
    requires p !in ProvidersOf(TopRanked(cs, minScore, topK)) && p in order && named(p)
    ensures var r := Retrieve(cs, order, named, topK, minScore);
            (forall c :: c in cs && c.provider == p && c.tool !in r ==> c.score <= cs[f].score) <==>
            (forall c :: c in cs && c.provider == p && c.tool != cs[f].tool ==> c.score <= cs[f].score)
  {
    GuaranteeAddsFirst(cs, order, named, topK, minScore, p, f);
  }

  // And so a better tool can be left out.
  lemma BetterToolLeftOut(a: ToolDef, b: ToolDef)
    requires a != b
    ensures Retrieve([Candidate(a, 0.0, "notion"), Candidate(b, 0.05, "notion")], ["notion"], _ => true, 12, 0.1) == [a]
  {
    var cs := [Candidate(a, 0.0, "notion"), Candidate(b, 0.05, "notion")];
    var order := ["notion"];
    var relevant := Relevant(cs, 0.1);
    if relevant != [] { RelevantMember(cs, 0.1, relevant[0]); }
    var g := Chosen([], {});
    assert TopRanked(cs, 0.1, 12) == [];
    assert ToolsOf([]) == [] && ProvidersOf([]) == {};
    assert order[..0] == [];
    assert Guarantee(g, order[..0], cs, _ => true) == g;
  }

  // ---------------------------------------------------------------------------
  // The service
  // ---------------------------------------------------------------------------

  function FixedDocs(tools: seq<ToolDef>, providerOf: map<string, string>): seq<Doc> {
    seq(|tools|, i requires 0 <= i < |tools| => Doc(tools[i], Get(providerOf, tools[i].name, "")))
  }

  lemma FixedDocsAre(tools: seq<ToolDef>, providerOf: map<string, string>, i: nat)
    requires i < |tools|
    ensures |FixedDocs(tools, providerOf)| == |tools|
    ensures FixedDocs(tools, providerOf)[i] ==
              Doc(tools[i], if tools[i].name in providerOf then providerOf[tools[i].name] else "")
  {
  }

  // All candidates for a query: scored fixed tools, then scored user tools.
  function AllCandidates(score: Scorer, fixed: seq<ToolDef>, providerOf: map<string, string>,
                         connected: set<string>, user: seq<ToolDef>, built: Built): seq<Candidate>
  {
    var fs := score(FixedDocs(fixed, providerOf));
    var front := FixedCandidates(fixed, fs, providerOf, connected, Min(|fixed|, |fs|));
    if built.index.None? || user == [] then front
    else
      var us := score(built.index.value);
      front + UserCandidates(user, us, built.providers, Min(|user|, |us|))
  }

  // The tools of connected providers among the first n.
  function ConnectedOnly(tools: seq<ToolDef>, providerOf: map<string, string>, connected: set<string>,
                         n: nat): seq<ToolDef>
    requires n <= |tools|
  {
    if n == 0 then []
    else if tools[n - 1].name in providerOf && providerOf[tools[n - 1].name] in connected
      then ConnectedOnly(tools, providerOf, connected, n - 1) + [tools[n - 1]]
      else ConnectedOnly(tools, providerOf, connected, n - 1)
  }

  // ---------------------------------------------------------------------------
  // What is listed, position by position
  // ---------------------------------------------------------------------------

  predicate Increasing(from: seq<nat>) {
    forall i, j :: 0 <= i < j < |from| ==> from[i] < from[j]
  }

  // A fixed tool's provider is connected; a tool without one counts as of provider "".
  predicate Connected(providerOf: map<string, string>, name: string, order: seq<string>) {
    (if name in providerOf then providerOf[name] else "") in order
  }

  // `from` holds the positions of the fixed tools that are scored and connected. Each is a
  // candidate with its own score, in order; then come the scored tools of the user.
  ghost predicate LaidOut(cs: seq<Candidate>, from: seq<nat>, fixed: seq<ToolDef>, fs: seq<real>,
                          providerOf: map<string, string>, order: seq<string>,
                          user: seq<ToolDef>, us: seq<real>, userMap: map<string, string>)
  {
    && Increasing(from)
    && (forall i: nat {:trigger i in from} :: i in from <==>
          i < |fixed| && i < |fs| && Connected(providerOf, fixed[i].name, order))
    && (forall j :: 0 <= j < |from| ==> from[j] < |fixed| && from[j] < |fs|)
    && |cs| == |from| + Min(|user|, |us|)
    && (forall j :: 0 <= j < |from| ==>
          var t := fixed[from[j]];
          cs[j] == Candidate(t, fs[from[j]], if t.name in providerOf then providerOf[t.name] else ""))
    && (forall j :: |from| <= j < |cs| ==>
          var t := user[j - |from|];
          cs[j] == Candidate(t, us[j - |from|], if t.name in userMap then userMap[t.name] else "user_mcp"))
  }

  ghost predicate ListsCandidates(cs: seq<Candidate>, fixed: seq<ToolDef>, fs: seq<real>,
                                  providerOf: map<string, string>, order: seq<string>,
                                  user: seq<ToolDef>, us: seq<real>, userMap: map<string, string>)
  {
    exists from :: LaidOut(cs, from, fixed, fs, providerOf, order, user, us, userMap)
  }

  // Without scores: the connected fixed tools, then the user's.
  ghost predicate LaidOutPlain(all: seq<ToolDef>, from: seq<nat>, fixed: seq<ToolDef>,
                               providerOf: map<string, string>, order: seq<string>, user: seq<ToolDef>)
  {
    && Increasing(from)
    && (forall i: nat {:trigger i in from} :: i in from <==>
          i < |fixed| && fixed[i].name in providerOf && providerOf[fixed[i].name] in order)
    && (forall j :: 0 <= j < |from| ==> from[j] < |fixed|)
    && |all| == |from| + |user|
    && (forall j :: 0 <= j < |from| ==> all[j] == fixed[from[j]])
    && (forall j :: |from| <= j < |all| ==> all[j] == user[j - |from|])
  }

  ghost predicate ListsTools(all: seq<ToolDef>, fixed: seq<ToolDef>, providerOf: map<string, string>,
                             order: seq<string>, user: seq<ToolDef>)
  {
    exists from :: LaidOutPlain(all, from, fixed, providerOf, order, user)
  }

  // The fixed candidates among the first n tools.
  ghost predicate FixedPart(cs: seq<Candidate>, from: seq<nat>, fixed: seq<ToolDef>, fs: seq<real>,
                            providerOf: map<string, string>, order: seq<string>, n: nat)
    requires n <= |fixed| && n <= |fs|
  {
    && Increasing(from) && |cs| == |from|
    && (forall i: nat {:trigger i in from} :: i in from <==> i < n && Connected(providerOf, fixed[i].name, order))
    && (forall j :: 0 <= j < |from| ==> from[j] < n)
    && forall j :: 0 <= j < |from| ==>
         var t := fixed[from[j]];
         cs[j] == Candidate(t, fs[from[j]], if t.name in providerOf then providerOf[t.name] else "")
  }

  lemma FixedStep(fixed: seq<ToolDef>, fs: seq<real>, providerOf: map<string, string>, order: seq<string>, n: nat)
    requires n < |fixed| && n < |fs|
    ensures var name := fixed[n].name;
            var c := Candidate(fixed[n], fs[n], if name in providerOf then providerOf[name] else "");
            var cs := FixedCandidates(fixed, fs, providerOf, Names(order), n);
            FixedCandidates(fixed, fs, providerOf, Names(order), n + 1) ==
              if Connected(providerOf, name, order) then cs + [c] else cs
  {
  }

  lemma FixedGrows(cs: seq<Candidate>, from: seq<nat>, fixed: seq<ToolDef>, fs: seq<real>,
                   providerOf: map<string, string>, order: seq<string>, n: nat, c: Candidate)
    requires n < |fixed| && n < |fs| && FixedPart(cs, from, fixed, fs, providerOf, order, n)
    requires Connected(providerOf, fixed[n].name, order)
    requires c == Candidate(fixed[n], fs[n], if fixed[n].name in providerOf then providerOf[fixed[n].name] else "")
    ensures FixedPart(cs + [c], from + [n], fixed, fs, providerOf, order, n + 1)
  {
  }

  lemma FixedStays(cs: seq<Candidate>, from: seq<nat>, fixed: seq<ToolDef>, fs: seq<real>,
                   providerOf: map<string, string>, order: seq<string>, n: nat)
    requires n < |fixed| && n < |fs| && FixedPart(cs, from, fixed, fs, providerOf, order, n)
    requires !Connected(providerOf, fixed[n].name, order)
    ensures FixedPart(cs, from, fixed, fs, providerOf, order, n + 1)
  {
  }

  lemma FixedMore(cs: seq<Candidate>, from: seq<nat>, fixed: seq<ToolDef>, fs: seq<real>,
                  providerOf: map<string, string>, order: seq<string>, n: nat) returns (more: seq<nat>)
    requires n < |fixed| && n < |fs| && FixedPart(cs, from, fixed, fs, providerOf, order, n)
    ensures var name := fixed[n].name;
            var c := Candidate(fixed[n], fs[n], if name in providerOf then providerOf[name] else "");
            FixedPart(if Connected(providerOf, name, order) then cs + [c] else cs, more,
                      fixed, fs, providerOf, order, n + 1)
  {
    var name := fixed[n].name;
    if Connected(providerOf, name, order) {
      var c := Candidate(fixed[n], fs[n], if name in providerOf then providerOf[name] else "");
      FixedGrows(cs, from, fixed, fs, providerOf, order, n, c);
      more := from + [n];
    } else {
      FixedStays(cs, from, fixed, fs, providerOf, order, n);
      more := from;
    }
  }

  lemma FixedNext(fixed: seq<ToolDef>, fs: seq<real>, providerOf: map<string, string>, order: seq<string>, n: nat,
                  cs: seq<Candidate>, from: seq<nat>) returns (more: seq<nat>)
    requires n < |fixed| && n < |fs| && cs == FixedCandidates(fixed, fs, providerOf, Names(order), n)
    requires FixedPart(cs, from, fixed, fs, providerOf, order, n)
    ensures FixedPart(FixedCandidates(fixed, fs, providerOf, Names(order), n + 1), more,
                      fixed, fs, providerOf, order, n + 1)
  {
    FixedStep(fixed, fs, providerOf, order, n);
    more := FixedMore(cs, from, fixed, fs, providerOf, order, n);
  }

  lemma {:induction false} FixedLaidOut(fixed: seq<ToolDef>, fs: seq<real>, providerOf: map<string, string>,
                                        order: seq<string>, n: nat) returns (from: seq<nat>)
    requires n <= |fixed| && n <= |fs|
    ensures FixedPart(FixedCandidates(fixed, fs, providerOf, Names(order), n), from, fixed, fs, providerOf, order, n)
  {
    if n == 0 {
      from := [];
    } else {
      from := FixedLaidOut(fixed, fs, providerOf, order, n - 1);
      var cs := FixedCandidates(fixed, fs, providerOf, Names(order), n - 1);
      from := FixedNext(fixed, fs, providerOf, order, n - 1, cs, from);
    }
  }

  lemma {:induction false} UserLaidOut(user: seq<ToolDef>, us: seq<real>, userMap: map<string, string>, n: nat)
    requires n <= |user| && n <= |us|
    ensures var cs := UserCandidates(user, us, userMap, n);
            && |cs| == n
            && forall i :: 0 <= i < n ==>
                 cs[i] == Candidate(user[i], us[i],
                                    if user[i].name in userMap then userMap[user[i].name] else "user_mcp")
  {
    if n > 0 { UserLaidOut(user, us, userMap, n - 1); }
  }

  // The scores of the user's tools, if there is an index.
  function UserScores(score: Scorer, user: seq<ToolDef>, built: Built): seq<real> {
    if built.index.None? || user == [] then [] else score(built.index.value)
  }

  predicate UserPart(cs: seq<Candidate>, user: seq<ToolDef>, us: seq<real>, userMap: map<string, string>) {
    && |cs| == Min(|user|, |us|)
    && forall i :: 0 <= i < |cs| ==>
         cs[i] == Candidate(user[i], us[i], if user[i].name in userMap then userMap[user[i].name] else "user_mcp")
  }

  lemma PartsLaidOut(front: seq<Candidate>, from: seq<nat>, back: seq<Candidate>, fixed: seq<ToolDef>, fs: seq<real>,
                     providerOf: map<string, string>, order: seq<string>,
                     user: seq<ToolDef>, us: seq<real>, userMap: map<string, string>)
    requires FixedPart(front, from, fixed, fs, providerOf, order, Min(|fixed|, |fs|))
    requires UserPart(back, user, us, userMap)
    ensures ListsCandidates(front + back, fixed, fs, providerOf, order, user, us, userMap)
  {
    assert LaidOut(front + back, from, fixed, fs, providerOf, order, user, us, userMap);
  }

  lemma CandidatesLaidOut(score: Scorer, fixed: seq<ToolDef>, providerOf: map<string, string>, order: seq<string>,
                          user: seq<ToolDef>, built: Built)
    ensures ListsCandidates(AllCandidates(score, fixed, providerOf, Names(order), user, built), fixed,
                            score(FixedDocs(fixed, providerOf)), providerOf, order,
                            user, UserScores(score, user, built), built.providers)
  {
    var fs, us := score(FixedDocs(fixed, providerOf)), UserScores(score, user, built);
    var front := FixedCandidates(fixed, fs, providerOf, Names(order), Min(|fixed|, |fs|));
    var back := UserCandidates(user, us, built.providers, Min(|user|, |us|));
    var from := FixedLaidOut(fixed, fs, providerOf, order, Min(|fixed|, |fs|));
    UserLaidOut(user, us, built.providers, Min(|user|, |us|));
    PartsLaidOut(front, from, back, fixed, fs, providerOf, order, user, us, built.providers);
    assert us == [] ==> back == [] && front + back == front;
  }

  // The connected ones among the first n fixed tools.
  ghost predicate PlainPart(all: seq<ToolDef>, from: seq<nat>, fixed: seq<ToolDef>,
                            providerOf: map<string, string>, order: seq<string>, n: nat)
    requires n <= |fixed|
  {
    && Increasing(from) && |all| == |from|
    && (forall i: nat {:trigger i in from} :: i in from <==>
          i < n && fixed[i].name in providerOf && providerOf[fixed[i].name] in order)
    && forall j :: 0 <= j < |from| ==> from[j] < n && all[j] == fixed[from[j]]
  }

  lemma PlainGrows(all: seq<ToolDef>, from: seq<nat>, fixed: seq<ToolDef>, providerOf: map<string, string>,
                   order: seq<string>, n: nat, t: ToolDef)
    requires n < |fixed| && PlainPart(all, from, fixed, providerOf, order, n) && t == fixed[n]
    requires t.name in providerOf && providerOf[t.name] in order
    ensures PlainPart(all + [t], from + [n], fixed, providerOf, order, n + 1)
  {
  }

  lemma PlainStays(all: seq<ToolDef>, from: seq<nat>, fixed: seq<ToolDef>, providerOf: map<string, string>,
                   order: seq<string>, n: nat)
    requires n < |fixed| && PlainPart(all, from, fixed, providerOf, order, n)
    requires fixed[n].name in providerOf ==> providerOf[fixed[n].name] !in order
    ensures PlainPart(all, from, fixed, providerOf, order, n + 1)
  {
  }

  lemma PlainNext(fixed: seq<ToolDef>, providerOf: map<string, string>, order: seq<string>, n: nat,
                  all: seq<ToolDef>, from: seq<nat>) returns (more: seq<nat>)
    requires n < |fixed| && all == ConnectedOnly(fixed, providerOf, Names(order), n)
    requires PlainPart(all, from, fixed, providerOf, order, n)
    ensures PlainPart(ConnectedOnly(fixed, providerOf, Names(order), n + 1), more, fixed, providerOf, order, n + 1)
  {
    if fixed[n].name in providerOf && providerOf[fixed[n].name] in order {
      PlainGrows(all, from, fixed, providerOf, order, n, fixed[n]);
      more := from + [n];
    } else {
      PlainStays(all, from, fixed, providerOf, order, n);
      more := from;
    }
  }

  lemma {:induction false} ConnectedLaidOut(fixed: seq<ToolDef>, providerOf: map<string, string>, order: seq<string>,
                                            n: nat) returns (from: seq<nat>)
    requires n <= |fixed|
    ensures PlainPart(ConnectedOnly(fixed, providerOf, Names(order), n), from, fixed, providerOf, order, n)
  {
    if n == 0 {
      from := [];
    } else {
      from := ConnectedLaidOut(fixed, providerOf, order, n - 1);
      from := PlainNext(fixed, providerOf, order, n - 1, ConnectedOnly(fixed, providerOf, Names(order), n - 1), from);
    }
  }

  lemma FallbackLaidOut(fixed: seq<ToolDef>, providerOf: map<string, string>, order: seq<string>, user: seq<ToolDef>)
    ensures ListsTools(ConnectedOnly(fixed, providerOf, Names(order), |fixed|) + user, fixed, providerOf, order, user)
  {
    var from := ConnectedLaidOut(fixed, providerOf, order, |fixed|);
    var all := ConnectedOnly(fixed, providerOf, Names(order), |fixed|) + user;
    assert LaidOutPlain(all, from, fixed, providerOf, order, user);
  }

  // A tool may be returned that is the user's own, or fixed and of a connected provider.
  predicate Allowed(t: ToolDef, fixed: seq<ToolDef>, providerOf: map<string, string>, order: seq<string>,
                    user: seq<ToolDef>)
  {
    t in user || (t in fixed && Connected(providerOf, t.name, order))
  }

  lemma CandidateAllowed(cs: seq<Candidate>, from: seq<nat>, fixed: seq<ToolDef>, fs: seq<real>,
                         providerOf: map<string, string>, order: seq<string>,
                         user: seq<ToolDef>, us: seq<real>, userMap: map<string, string>, j: nat)
    requires LaidOut(cs, from, fixed, fs, providerOf, order, user, us, userMap) && j < |cs|
    ensures Allowed(cs[j].tool, fixed, providerOf, order, user)
  {
    if j < |from| { assert from[j] in from; }
  }

  lemma RankedAllowed(cs: seq<Candidate>, fixed: seq<ToolDef>, fs: seq<real>, providerOf: map<string, string>,
                      order: seq<string>, user: seq<ToolDef>, us: seq<real>, userMap: map<string, string>,
                      named: string -> bool, topK: nat, minScore: real)
    requires ListsCandidates(cs, fixed, fs, providerOf, order, user, us, userMap)
    ensures forall t :: t in Retrieve(cs, order, named, topK, minScore) ==> Allowed(t, fixed, providerOf, order, user)
  {
    RetrievalGuarantee(cs, order, named, topK, minScore);
    forall c | c in cs ensures Allowed(c.tool, fixed, providerOf, order, user) {
      var from :| LaidOut(cs, from, fixed, fs, providerOf, order, user, us, userMap);
      var j: nat :| j < |cs| && cs[j] == c;
      CandidateAllowed(cs, from, fixed, fs, providerOf, order, user, us, userMap, j);
    }
  }

  // Every tool retrieved is one of the user's own or a fixed tool of a connected provider.
  lemma RetrievedAreAllowed(score: Scorer, fixed: seq<ToolDef>, providerOf: map<string, string>, order: seq<string>,
                            user: seq<ToolDef>, built: Built, named: string -> bool, topK: nat, minScore: real)
    ensures forall t :: t in Retrieve(AllCandidates(score, fixed, providerOf, Names(order), user, built),
                                      order, named, topK, minScore) ==>
              Allowed(t, fixed, providerOf, order, user)
  {
    CandidatesLaidOut(score, fixed, providerOf, order, user, built);
    RankedAllowed(AllCandidates(score, fixed, providerOf, Names(order), user, built), fixed,
                  score(FixedDocs(fixed, providerOf)), providerOf, order, user, UserScores(score, user, built),
                  built.providers, named, topK, minScore);
  }

  // The provider a candidate is listed under, from its tool alone.
  function ListedUnder(t: ToolDef, fixed: seq<ToolDef>, providerOf: map<string, string>,
                       userMap: map<string, string>): string
  {
    if t in fixed then if t.name in providerOf then providerOf[t.name] else ""
    else if t.name in userMap then userMap[t.name] else "user_mcp"
  }

  // Unless a tool is both fixed and the user's own, every provider owns its tools.
  lemma CandidatesOwnTools(cs: seq<Candidate>, fixed: seq<ToolDef>, fs: seq<real>, providerOf: map<string, string>,
                           order: seq<string>, user: seq<ToolDef>, us: seq<real>, userMap: map<string, string>,
                           p: string)
    requires ListsCandidates(cs, fixed, fs, providerOf, order, user, us, userMap)
    requires forall t :: t in fixed ==> t !in user
    ensures OwnsItsTools(cs, p)
  {
    forall c | c in cs ensures c.provider == ListedUnder(c.tool, fixed, providerOf, userMap) {
      var from :| LaidOut(cs, from, fixed, fs, providerOf, order, user, us, userMap);
      var j: nat :| j < |cs| && cs[j] == c;
      ListedBy(cs, from, fixed, fs, providerOf, order, user, us, userMap, j);
    }
  }

  lemma ListedBy(cs: seq<Candidate>, from: seq<nat>, fixed: seq<ToolDef>, fs: seq<real>,
                 providerOf: map<string, string>, order: seq<string>,
                 user: seq<ToolDef>, us: seq<real>, userMap: map<string, string>, j: nat)
    requires LaidOut(cs, from, fixed, fs, providerOf, order, user, us, userMap) && j < |cs|
    requires forall t :: t in fixed ==> t !in user
    ensures cs[j].provider == ListedUnder(cs[j].tool, fixed, providerOf, userMap)
  {
    if j < |from| {
      assert fixed[from[j]] in fixed;
    } else {
      assert user[j - |from|] in user;
    }
  }

  lemma FallbackAllowed(all: seq<ToolDef>, fixed: seq<ToolDef>, providerOf: map<string, string>,
                        order: seq<string>, user: seq<ToolDef>)
    requires ListsTools(all, fixed, providerOf, order, user)
    ensures forall t :: t in all ==> Allowed(t, fixed, providerOf, order, user)
  {
    var from :| LaidOutPlain(all, from, fixed, providerOf, order, user);
    forall t | t in all ensures Allowed(t, fixed, providerOf, order, user) {
      var j :| 0 <= j < |all| && all[j] == t;
      if j < |from| { assert from[j] in from; }
    }
  }

  class ToolRetrieverService {
    const bm25: bool
    var fixedTools: seq<ToolDef>
    var providerOf: map<string, string>
    var fixedIndexed: bool
    var cache: map<string, Entry>

    constructor (bm25: bool)
      ensures this.bm25 == bm25 && cache == map[] && fixedTools == [] && !fixedIndexed
    {
      this.bm25 := bm25;
      fixedTools, providerOf, fixedIndexed, cache := [], map[], false, map[];
    }

    method InitGlobalFixedTools(tools: seq<ToolDef>, providers: map<string, string>)
      modifies this
      ensures fixedTools == tools && providerOf == providers && cache == old(cache)
      ensures fixedIndexed == (old(fixedIndexed) || (bm25 && tools != []))
    {
      fixedTools, providerOf := tools, providers;
      if !bm25 || tools == [] { return; }
      fixedIndexed := true;
    }

    method GetOrBuildUserMcpIndex(user: string, version: string, tools: seq<ToolDef>, servers: seq<string>)
      returns (built: Built)
      modifies this`cache
      ensures built == Answer(old(cache), Request(user, version, tools, servers), bm25)
      ensures cache == CacheAfter(old(cache), Request(user, version, tools, servers), bm25)
    {
      if tools == [] { return Built(None, map[]); }
      if user in cache && cache[user].version == version { return cache[user].built; }
      var providers: map<string, string> := map[];
      var corpus: seq<Doc> := [];
      for i := 0 to |tools|
        invariant corpus == Docs(tools, servers, i) && providers == ProviderMap(tools, servers, i)
        invariant cache == old(cache)
      {
        var srv := ResolveMcpServerName(tools[i].name, servers);
        providers := providers[tools[i].name := srv];
        corpus := corpus + [Doc(tools[i], srv)];
      }
      built := Built(if bm25 then Some(corpus) else None, providers);
      cache := cache[user := Entry(version, built)];
    }

    method InvalidateUserMcpCache(user: string)
      modifies this`cache
      ensures cache == CacheAfter(old(cache), Invalidate(user), bm25)
    {
      if user in cache { cache := cache - {user}; }
    }

    // Steps 1 and 2.
    method ScoreCandidates(score: Scorer, connected: set<string>, user: string, version: string,
                           userTools: seq<ToolDef>, servers: seq<string>)
      returns (scored: seq<Candidate>)
      modifies this`cache
      ensures scored == AllCandidates(score, fixedTools, providerOf, connected, userTools,
                                      Answer(old(cache), Request(user, version, userTools, servers), bm25))
      ensures cache == CacheAfter(old(cache), Request(user, version, userTools, servers), bm25)
    {
      scored := [];
      var fs := score(FixedDocs(fixedTools, providerOf));
      for i := 0 to Min(|fixedTools|, |fs|)
        invariant scored == FixedCandidates(fixedTools, fs, providerOf, connected, i)
      {
        var p := Get(providerOf, fixedTools[i].name, "");
        if p in connected { scored := scored + [Candidate(fixedTools[i], fs[i], p)]; }
      }
      var built := GetOrBuildUserMcpIndex(user, version, userTools, servers);
      if built.index.Some? && userTools != [] {
        var us := score(built.index.value);
        ghost var front := scored;
        for i := 0 to Min(|userTools|, |us|)
          invariant scored == front + UserCandidates(userTools, us, built.providers, i)
        {
          scored := scored + [Candidate(userTools[i], us[i], Get(built.providers, userTools[i].name, "user_mcp"))];
        }
      }
    }

    method RetrieveTopMcpTools(score: Scorer, hasTokens: bool, order: seq<string>, named: string -> bool,
                               user: string, version: string, userTools: seq<ToolDef>, servers: seq<string>,
                               topK: nat, minScore: real)
      returns (tools: seq<ToolDef>)
      modifies this`cache
      ensures forall t :: t in tools ==> Allowed(t, fixedTools, providerOf, order, userTools)
      ensures !bm25 || !fixedIndexed || !hasTokens ==>
                && cache == old(cache)
                && exists all :: ListsTools(all, fixedTools, providerOf, order, userTools) &&
                                 tools == all[..Min(topK, |all|)]
      ensures bm25 && fixedIndexed && hasTokens ==>
                var request := Request(user, version, userTools, servers);
                var built := Answer(old(cache), request, bm25);
                && cache == CacheAfter(old(cache), request, bm25)
                && exists cs :: ListsCandidates(cs, fixedTools, score(FixedDocs(fixedTools, providerOf)), providerOf,
                                                order, userTools, UserScores(score, userTools, built),
                                                built.providers) &&
                                tools == Retrieve(cs, order, named, topK, minScore)
    {
      var connected := Names(order);
      if !bm25 || !fixedIndexed || !hasTokens {
        var all := ConnectedOnly(fixedTools, providerOf, connected, |fixedTools|) + userTools;
        FallbackLaidOut(fixedTools, providerOf, order, userTools);
        FallbackAllowed(all, fixedTools, providerOf, order, userTools);
        return all[..Min(topK, |all|)];
      }
      ghost var built := Answer(cache, Request(user, version, userTools, servers), bm25);
      var scored := ScoreCandidates(score, connected, user, version, userTools, servers);
      CandidatesLaidOut(score, fixedTools, providerOf, order, userTools, built);
      RankedAllowed(scored, fixedTools, score(FixedDocs(fixedTools, providerOf)), providerOf, order,
                    userTools, UserScores(score, userTools, built), built.providers, named, topK, minScore);
      if scored == [] { return []; }
      tools := SelectWithGuarantee(scored, order, named, topK, minScore);
    }
  }

  // Steps 3 and 4.
  method SelectWithGuarantee(scored: seq<Candidate>, order: seq<string>, named: string -> bool,
                             topK: nat, minScore: real)
    returns (tools: seq<ToolDef>)
    requires scored != []
    ensures tools == Retrieve(scored, order, named, topK, minScore)
  {
    var sorted := Sort(Relevant(scored, minScore), CandidateScore);
    var top := sorted[..Min(topK, |sorted|)];
    tools := ToolsOf(top);
    var providers := ProvidersOf(top);
    ghost var start := Chosen(tools, providers);
    for i := 0 to |order|
      invariant Chosen(tools, providers) == Guarantee(start, order[..i], scored, named)
    {
      assert order[..i + 1][..i] == order[..i];
      var p := order[i];
      if p in providers || !named(p) { continue; }
      for j := 0 to |scored|
        invariant FirstUnselected(scored, p, tools) == FirstUnselected(scored[j..], p, tools)
        invariant Chosen(tools, providers) == Guarantee(start, order[..i], scored, named)
      {
        if scored[j].provider == p && scored[j].tool !in tools {
          tools, providers := tools + [scored[j].tool], providers + {p};
          break;
        }
        assert scored[j..][1..] == scored[j + 1..];
      }
    }
    assert order[..|order|] == order;
  }
}
