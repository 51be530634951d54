// services/vector_tool_retriever.py: which of the scored hits search_tools returns.
module Selection {
  import opened Prelude
  import opened Seqs
  import opened StableSort

  datatype Hit = Hit(tool: string, provider: string, description: string, score: real)

  function Score(h: Hit): real { h.score }

  const MAX_PER_PROVIDER := 2

  // ---------------------------------------------------------------------------
  // The selection
  // ---------------------------------------------------------------------------

  function CountOf(hits: seq<Hit>, p: string): nat {
    if hits == [] then 0
    else CountOf(hits[..|hits| - 1], p) + if hits[|hits| - 1].provider == p then 1 else 0
  }

  // The hits that are among the first `cap` of their provider.
  function Diverse(hits: seq<Hit>, cap: nat): seq<Hit> {
    if hits == [] then []
    else
      var front, last := hits[..|hits| - 1], hits[|hits| - 1];
      if CountOf(front, last.provider) < cap then Diverse(front, cap) + [last] else Diverse(front, cap)
  }

  // The others.
  function Remaining(hits: seq<Hit>, cap: nat): seq<Hit> {
    if hits == [] then []
    else
      var front, last := hits[..|hits| - 1], hits[|hits| - 1];
      if CountOf(front, last.provider) < cap then Remaining(front, cap) else Remaining(front, cap) + [last]
  }

  function Cap(hits: seq<Hit>, topK: nat): nat {
    if |hits| > topK then MAX_PER_PROVIDER else topK
  }

  function Filled(hits: seq<Hit>, topK: nat): seq<Hit> {
    var d, r := Diverse(hits, Cap(hits, topK)), Remaining(hits, Cap(hits, topK));
    if |d| < topK then d + r[..Min(topK - |d|, |r|)] else d
  }

  function Selected(hits: seq<Hit>, topK: nat): seq<Hit> {
    var sorted := Sort(Filled(hits, topK), Score);
    sorted[..Min(topK, |sorted|)]
  }

  // The counting loop. provider_counts stops at the cap.
  method CapPerProvider(allHits: seq<Hit>, cap: nat) returns (diverse: seq<Hit>, remaining: seq<Hit>)
    ensures diverse == Diverse(allHits, cap) && remaining == Remaining(allHits, cap)
  {
    var counts: map<string, nat> := map[];
    diverse, remaining := [], [];
    for i := 0 to |allHits|
      invariant diverse == Diverse(allHits[..i], cap)
      invariant remaining == Remaining(allHits[..i], cap)
      invariant forall p :: (if p in counts then counts[p] else 0) == Min(CountOf(allHits[..i], p), cap)
    {
      var hit := allHits[i];
      assert allHits[..i + 1][..i] == allHits[..i];
      var cnt := if hit.provider in counts then counts[hit.provider] else 0;
      if cnt < cap {
        diverse := diverse + [hit];
        counts := counts[hit.provider := cnt + 1];
      } else {
        remaining := remaining + [hit];
      }
    }
    assert allHits[..|allHits|] == allHits;
  }

  // The fill loop, with its early exit.
  method Fill(diverse: seq<Hit>, remaining: seq<Hit>, topK: nat) returns (filled: seq<Hit>)
    requires |diverse| < topK
    ensures filled == diverse + remaining[..Min(topK - |diverse|, |remaining|)]
  {
    filled := diverse;
    for i := 0 to |remaining|
      invariant |diverse| + i < topK
      invariant filled == diverse + remaining[..i]
    {
      filled := filled + [remaining[i]];
      if |filled| >= topK { return; }
    }
  }

  method SelectHits(allHits: seq<Hit>, topK: nat) returns (results: seq<Hit>)
    ensures results == Selected(allHits, topK)
  {
    var cap := if |allHits| > topK then MAX_PER_PROVIDER else topK;
    var diverse, remaining := CapPerProvider(allHits, cap);
    if |diverse| < topK {
      diverse := Fill(diverse, remaining, topK);
    }
    var sorted := Sort(diverse, Score);
    results := sorted[..Min(topK, |sorted|)];
  }

  // ---------------------------------------------------------------------------
  // Size
  // ---------------------------------------------------------------------------

  lemma {:induction false} SplitsHits(hits: seq<Hit>, cap: nat)
    ensures multiset(Diverse(hits, cap)) + multiset(Remaining(hits, cap)) == multiset(hits)
    ensures |Diverse(hits, cap)| + |Remaining(hits, cap)| == |hits|
  {
    if hits != [] {
      var front, last := hits[..|hits| - 1], hits[|hits| - 1];
      SplitsHits(front, cap);
      GrowPart(Diverse(front, cap), Remaining(front, cap), front, last);
      assert hits == front + [last];
    }
  }

  lemma {:induction false} CountAtMost(hits: seq<Hit>, p: string)
    ensures CountOf(hits, p) <= |hits|
  {
    if hits != [] { CountAtMost(hits[..|hits| - 1], p); }
  }

  lemma {:induction false} LargeCapKeepsAll(hits: seq<Hit>, cap: nat)
    requires |hits| <= cap
    ensures Diverse(hits, cap) == hits
  {
    if hits != [] {
      var front, last := hits[..|hits| - 1], hits[|hits| - 1];
      LargeCapKeepsAll(front, cap);
      CountAtMost(front, last.provider);
      assert CountOf(front, last.provider) < cap;
      assert hits == front + [last];
    }
  }

  lemma SubMultiset(a: seq<Hit>, n: nat)
    requires n <= |a|
    ensures multiset(a[..n]) <= multiset(a)
  {
    assert a == a[..n] + a[n..];
  }

  // Exactly min(topK, number of hits) hits come back, each a different input hit,
  // best score first.
  lemma SelectedSize(hits: seq<Hit>, topK: nat)
    ensures |Selected(hits, topK)| == Min(topK, |hits|)
    ensures multiset(Selected(hits, topK)) <= multiset(hits)
    ensures Descending(Selected(hits, topK), Score)
  {
    var cap := Cap(hits, topK);
    SplitsHits(hits, cap);
    if |hits| <= topK { LargeCapKeepsAll(hits, cap); }
    var f := Filled(hits, topK);
    FilledIsSub(hits, topK);
    SortIsStable(f, Score);
    SortMember(f, Score);
    SubMultiset(Sort(f, Score), Min(topK, |f|));
  }

  lemma FilledIsSub(hits: seq<Hit>, topK: nat)
    ensures multiset(Filled(hits, topK)) <= multiset(hits)
  {
    var cap := Cap(hits, topK);
    var d, r := Diverse(hits, cap), Remaining(hits, cap);
    SplitsHits(hits, cap);
    if |d| < topK { SubMultiset(r, Min(topK - |d|, |r|)); }
  }

  // ---------------------------------------------------------------------------
  // Demand: what the cap alone would let through, provider by provider
  // ---------------------------------------------------------------------------

  function Without(hits: seq<Hit>, p: string): seq<Hit> {
    if hits == [] then []
    else if hits[|hits| - 1].provider == p then Without(hits[..|hits| - 1], p)
    else Without(hits[..|hits| - 1], p) + [hits[|hits| - 1]]
  }

  lemma {:induction false} WithoutCounts(hits: seq<Hit>, p: string, q: string)
    ensures CountOf(Without(hits, p), q) == if q == p then 0 else CountOf(hits, q)
    ensures |Without(hits, p)| + CountOf(hits, p) == |hits|
  {
    if hits != [] {
      var front, last := hits[..|hits| - 1], hits[|hits| - 1];
      WithoutCounts(front, p, q);
      assert (Without(front, p) + [last])[..|Without(front, p)|] == Without(front, p);
    }
  }

  // The sum over the providers of min(cap, number of their hits).
  function Demand(hits: seq<Hit>, cap: nat): nat
    decreases |hits|
  {
    if hits == [] then 0
    else
      var p := hits[|hits| - 1].provider;
      WithoutCounts(hits, p, p);
      Min(cap, CountOf(hits, p)) + Demand(Without(hits, p), cap)
  }

  lemma {:induction false} DiverseWithout(hits: seq<Hit>, cap: nat, p: string)
    ensures |Diverse(hits, cap)| == Min(cap, CountOf(hits, p)) + |Diverse(Without(hits, p), cap)|
  {
    if hits != [] {
      var front, last := hits[..|hits| - 1], hits[|hits| - 1];
      DiverseWithout(front, cap, p);
      if last.provider != p {
        var w := Without(front, p);
        WithoutCounts(front, p, last.provider);
        assert (w + [last])[..|w|] == w;
      }
    }
  }

  lemma {:induction false} DiverseSize(hits: seq<Hit>, cap: nat)
    ensures |Diverse(hits, cap)| == Demand(hits, cap)
    decreases |hits|
  {
    if hits != [] {
      var p := hits[|hits| - 1].provider;
      WithoutCounts(hits, p, p);
      DiverseWithout(hits, cap, p);
      DiverseSize(Without(hits, p), cap);
    }
  }

  lemma CountSnoc(hits: seq<Hit>, h: Hit, p: string)
    ensures CountOf(hits + [h], p) == CountOf(hits, p) + if h.provider == p then 1 else 0
  {
    assert (hits + [h])[..|hits|] == hits;
  }

  lemma {:induction false} DiverseCounts(hits: seq<Hit>, cap: nat, p: string)
    ensures CountOf(Diverse(hits, cap), p) == Min(cap, CountOf(hits, p))
  {
    if hits != [] {
      var front, last := hits[..|hits| - 1], hits[|hits| - 1];
      DiverseCounts(front, cap, p);
      CountSnoc(Diverse(front, cap), last, p);
    }
  }

  // No choice of hits within the cap is larger than the demand.
  lemma {:induction false} DemandIsMaximal(chosen: seq<Hit>, hits: seq<Hit>, cap: nat)
    requires forall p :: CountOf(chosen, p) <= Min(cap, CountOf(hits, p))
    ensures |chosen| <= Demand(hits, cap)
    decreases |hits|
  {
    if hits == [] {
      var q := if chosen == [] then "" else chosen[|chosen| - 1].provider;
      assert CountOf(chosen, q) <= Min(cap, CountOf(hits, q));
    } else {
      var p := hits[|hits| - 1].provider;
      forall q ensures CountOf(Without(chosen, p), q) <= Min(cap, CountOf(Without(hits, p), q)) {
        WithoutCounts(chosen, p, q);
        WithoutCounts(hits, p, q);
      }
      WithoutCounts(chosen, p, p);
      WithoutCounts(hits, p, p);
      DemandIsMaximal(Without(chosen, p), Without(hits, p), cap);
    }
  }

  // ---------------------------------------------------------------------------
  // Optimality
  // ---------------------------------------------------------------------------

  // A choice of hits by position.
  function Pick(hits: seq<Hit>, mask: seq<bool>): seq<Hit>
    requires |mask| == |hits|
  {
    if hits == [] then []
    else
      var n := |hits| - 1;
      if mask[n] then Pick(hits[..n], mask[..n]) + [hits[n]] else Pick(hits[..n], mask[..n])
  }

  // How many hits score at least t.
  function AtLeast(hits: seq<Hit>, t: real): nat {
    if hits == [] then 0
    else AtLeast(hits[..|hits| - 1], t) + if hits[|hits| - 1].score >= t then 1 else 0
  }

  lemma {:induction false} PickCounts(hits: seq<Hit>, mask: seq<bool>, p: string)
    requires |mask| == |hits|
    ensures CountOf(Pick(hits, mask), p) <= CountOf(hits, p)
    ensures |Pick(hits, mask)| <= |hits|
  {
    if hits != [] {
      var n := |hits| - 1;
      PickCounts(hits[..n], mask[..n], p);
      var x := Pick(hits[..n], mask[..n]);
      assert (x + [hits[n]])[..|x|] == x;
    }
  }

  lemma {:induction false} CountOfPrefix(hits: seq<Hit>, k: nat, p: string)
    requires k <= |hits|
    ensures CountOf(hits[..k], p) <= CountOf(hits, p)
    decreases |hits|
  {
    if k == |hits| {
      assert hits[..k] == hits;
    } else {
      CountOfPrefix(hits[..|hits| - 1], k, p);
      assert hits[..|hits| - 1][..k] == hits[..k];
    }
  }

  // In descending order the hits that score at least t form a prefix.
  lemma {:induction false} AtLeastPrefix(hits: seq<Hit>, t: real)
    requires Descending(hits, Score)
    ensures AtLeast(hits, t) <= |hits|
    ensures forall i :: 0 <= i < |hits| ==> (hits[i].score >= t <==> i < AtLeast(hits, t))
  {
    if hits != [] {
      var n := |hits| - 1;
      AtLeastPrefix(hits[..n], t);
      forall i | 0 <= i < n ensures Score(hits[i]) >= Score(hits[n]) {}
    }
  }

  lemma {:induction false} AtLeastAppend(a: seq<Hit>, b: seq<Hit>, t: real)
    ensures AtLeast(a + b, t) == AtLeast(a, t) + AtLeast(b, t)
    decreases |b|
  {
    if b == [] {
      assert a + b == a;
    } else {
      FrontOfAppend(a, b);
      AtLeastAppend(a, b[..|b| - 1], t);
    }
  }

  lemma {:induction false} AtLeastBounded(a: seq<Hit>, t: real)
    ensures AtLeast(a, t) <= |a|
  {
    if a != [] { AtLeastBounded(a[..|a| - 1], t); }
  }

  lemma {:induction false} AtLeastInsert(xs: seq<Hit>, x: Hit, t: real)
    ensures AtLeast(Insert(xs, x, Score), t) == AtLeast(xs, t) + if x.score >= t then 1 else 0
  {
    if xs == [] || Score(xs[|xs| - 1]) >= Score(x) {
      assert (xs + [x])[..|xs|] == xs;
      assert xs == [] ==> xs + [x] == [x];
    } else {
      AtLeastInsert(xs[..|xs| - 1], x, t);
      AtLeastAppend(Insert(xs[..|xs| - 1], x, Score), [xs[|xs| - 1]], t);
      assert [xs[|xs| - 1]][..0] == [];
    }
  }

  lemma {:induction false} AtLeastSort(xs: seq<Hit>, t: real)
    ensures AtLeast(Sort(xs, Score), t) == AtLeast(xs, t)
  {
    if xs != [] {
      AtLeastSort(xs[..|xs| - 1], t);
      AtLeastInsert(Sort(xs[..|xs| - 1], Score), xs[|xs| - 1], t);
    }
  }

  lemma AtLeastSnoc(hits: seq<Hit>, h: Hit, t: real)
    ensures AtLeast(hits + [h], t) == AtLeast(hits, t) + if h.score >= t then 1 else 0
  {
    assert (hits + [h])[..|hits|] == hits;
  }

  lemma {:induction false} DiverseOfBest(hits: seq<Hit>, cap: nat, t: real)
    requires forall i :: 0 <= i < |hits| ==> hits[i].score >= t
    ensures AtLeast(Diverse(hits, cap), t) == |Diverse(hits, cap)|
  {
    if hits != [] {
      var n := |hits| - 1;
      DiverseOfBest(hits[..n], cap, t);
      AtLeastSnoc(Diverse(hits[..n], cap), hits[n], t);
    }
  }

  lemma PrefixOfFront(hits: seq<Hit>, k: nat)
    requires k < |hits|
    ensures hits[..|hits| - 1][..k] == hits[..k]
  {
  }

  lemma LastIsLow(hits: seq<Hit>, cap: nat, t: real)
    requires hits != [] && hits[|hits| - 1].score < t
    ensures AtLeast(hits, t) == AtLeast(hits[..|hits| - 1], t)
    ensures AtLeast(Diverse(hits, cap), t) == AtLeast(Diverse(hits[..|hits| - 1], cap), t)
  {
    AtLeastSnoc(Diverse(hits[..|hits| - 1], cap), hits[|hits| - 1], t);
  }

  // Of the capped hits, those that score at least t are the capped hits of the prefix.
  lemma {:induction false} DiverseAtLeast(hits: seq<Hit>, cap: nat, t: real)
    requires Descending(hits, Score)
    ensures AtLeast(hits, t) <= |hits|
    ensures AtLeast(Diverse(hits, cap), t) == |Diverse(hits[..AtLeast(hits, t)], cap)|
  {
    AtLeastPrefix(hits, t);
    var k := AtLeast(hits, t);
    if k == |hits| {
      TakeAll(hits);
      DiverseOfBest(hits, cap, t);
    } else {
      DiverseAtLeast(hits[..|hits| - 1], cap, t);
      LastIsLow(hits, cap, t);
      PrefixOfFront(hits, k);
    }
  }

  // The same for any choice, whose chosen prefix is a choice from the prefix.
  lemma {:induction false} PickOfBest(hits: seq<Hit>, mask: seq<bool>, t: real)
    requires |mask| == |hits| && forall i :: 0 <= i < |hits| ==> hits[i].score >= t
    ensures AtLeast(Pick(hits, mask), t) == |Pick(hits, mask)|
  {
    if hits != [] {
      var n := |hits| - 1;
      PickOfBest(hits[..n], mask[..n], t);
      AtLeastSnoc(Pick(hits[..n], mask[..n]), hits[n], t);
    }
  }

  // Of a choice, the hits that score at least t are those chosen from the best prefix.
  lemma {:induction false} PickAtLeast(hits: seq<Hit>, mask: seq<bool>, t: real)
    requires Descending(hits, Score) && |mask| == |hits|
    ensures AtLeast(hits, t) <= |hits|
    ensures AtLeast(Pick(hits, mask), t) == |Pick(hits[..AtLeast(hits, t)], mask[..AtLeast(hits, t)])|
  {
    AtLeastPrefix(hits, t);
    var k := AtLeast(hits, t);
    if k == |hits| {
      TakeAll(hits);
      TakeAll(mask);
      PickOfBest(hits, mask, t);
    } else {
      var n := |hits| - 1;
      PickAtLeast(hits[..n], mask[..n], t);
      AtLeastSnoc(Pick(hits[..n], mask[..n]), hits[n], t);
      assert hits[..n][..k] == hits[..k] && mask[..n][..k] == mask[..k];
    }
  }

  lemma {:induction false} PickPrefixCounts(hits: seq<Hit>, mask: seq<bool>, k: nat, p: string)
    requires |mask| == |hits| && k <= |hits|
    ensures CountOf(Pick(hits[..k], mask[..k]), p) <= CountOf(Pick(hits, mask), p)
    decreases |hits|
  {
    if k == |hits| {
      assert hits[..k] == hits && mask[..k] == mask;
    } else {
      var n := |hits| - 1;
      PickPrefixCounts(hits[..n], mask[..n], k, p);
      assert hits[..n][..k] == hits[..k] && mask[..n][..k] == mask[..k];
      var x := Pick(hits[..n], mask[..n]);
      assert (x + [hits[n]])[..|x|] == x;
    }
  }

  lemma {:induction false} PickDescending(hits: seq<Hit>, mask: seq<bool>)
    requires Descending(hits, Score) && |mask| == |hits|
    ensures Descending(Pick(hits, mask), Score)
    ensures forall h :: h in Pick(hits, mask) ==> h in hits
  {
    if hits != [] {
      var n := |hits| - 1;
      PickDescending(hits[..n], mask[..n]);
      var x := Pick(hits[..n], mask[..n]);
      assert hits == hits[..n] + [hits[n]];
      forall i | 0 <= i < |x| ensures Score(x[i]) >= Score(hits[n]) {
        assert x[i] in hits[..n];
        var j :| 0 <= j < n && hits[j] == x[i];
      }
    }
  }

  lemma {:induction false} AtLeastOfPrefix(xs: seq<Hit>, j: nat, t: real)
    requires Descending(xs, Score) && j <= |xs|
    ensures AtLeast(xs[..j], t) == Min(j, AtLeast(xs, t))
    decreases |xs|
  {
    AtLeastBounded(xs, t);
    if j == |xs| {
      assert xs[..j] == xs;
    } else {
      var front := xs[..|xs| - 1];
      AtLeastOfPrefix(front, j, t);
      assert front[..j] == xs[..j];
      AtLeastPrefix(xs, t);
      AtLeastBounded(front, t);
    }
  }

  // A choice the caller could have wanted: at most two hits a provider, topK in all.
  ghost predicate Admissible(hits: seq<Hit>, mask: seq<bool>, topK: nat) {
    && |mask| == |hits|
    && |Pick(hits, mask)| <= topK
    && forall p :: CountOf(Pick(hits, mask), p) <= 2
  }

  lemma PickWithinDiverse(hits: seq<Hit>, mask: seq<bool>, topK: nat, t: real)
    requires Descending(hits, Score) && Admissible(hits, mask, topK)
    ensures AtLeast(Pick(hits, mask), t) <= AtLeast(Diverse(hits, MAX_PER_PROVIDER), t)
  {
    PickAtLeast(hits, mask, t);
    DiverseAtLeast(hits, MAX_PER_PROVIDER, t);
    var k := AtLeast(hits, t);
    var chosen := Pick(hits[..k], mask[..k]);
    forall p ensures CountOf(chosen, p) <= Min(MAX_PER_PROVIDER, CountOf(hits[..k], p)) {
      PickPrefixCounts(hits, mask, k, p);
      PickCounts(hits[..k], mask[..k], p);
    }
    DemandIsMaximal(chosen, hits[..k], MAX_PER_PROVIDER);
    DiverseSize(hits[..k], MAX_PER_PROVIDER);
  }

  lemma PickWithinHits(hits: seq<Hit>, mask: seq<bool>, t: real)
    requires Descending(hits, Score) && |mask| == |hits|
    ensures AtLeast(Pick(hits, mask), t) <= AtLeast(hits, t)
  {
    PickAtLeast(hits, mask, t);
    PickCounts(hits[..AtLeast(hits, t)], mask[..AtLeast(hits, t)], "");
  }

  // Sorting and truncating keep the best hits above every threshold.
  lemma SelectedAtLeast(hits: seq<Hit>, topK: nat, t: real)
    ensures AtLeast(Selected(hits, topK), t) == Min(topK, AtLeast(Filled(hits, topK), t))
  {
    var f := Filled(hits, topK);
    AtLeastSort(f, t);
    SortIsStable(f, Score);
    SortMember(f, Score);
    AtLeastBounded(f, t);
    AtLeastOfPrefix(Sort(f, Score), Min(topK, |f|), t);
  }

  lemma FilledDominates(hits: seq<Hit>, topK: nat, mask: seq<bool>, t: real)
    requires Descending(hits, Score) && Admissible(hits, mask, topK)
    ensures AtLeast(Pick(hits, mask), t) <= AtLeast(Filled(hits, topK), t)
  {
    var f, d := Filled(hits, topK), Diverse(hits, Cap(hits, topK));
    if |hits| <= topK {
      LargeCapKeepsAll(hits, Cap(hits, topK));
      PickWithinHits(hits, mask, t);
    } else {
      PickWithinDiverse(hits, mask, topK, t);
    }
    AtLeastAppend(d, f[|d|..], t);
    assert f == d + f[|d|..];
  }

  // Above every threshold, the result holds at least as many hits as any admissible choice.
  lemma SelectedDominates(hits: seq<Hit>, topK: nat, mask: seq<bool>, t: real)
    requires Descending(hits, Score) && Admissible(hits, mask, topK)
    ensures AtLeast(Pick(hits, mask), t) <= AtLeast(Selected(hits, topK), t)
  {
    FilledDominates(hits, topK, mask, t);
    SelectedAtLeast(hits, topK, t);
    AtLeastBounded(Pick(hits, mask), t);
  }

  // Greedy optimality: at every rank, the hit returned scores at least as high as the
  // one any admissible choice has there.
  lemma SelectionIsOptimal(hits: seq<Hit>, topK: nat, mask: seq<bool>)
    requires Descending(hits, Score) && Admissible(hits, mask, topK)
    ensures |Pick(hits, mask)| <= |Selected(hits, topK)|
    ensures Descending(Pick(hits, mask), Score)
    ensures forall i :: 0 <= i < |Pick(hits, mask)| ==>
              Selected(hits, topK)[i].score >= Pick(hits, mask)[i].score
  {
    var sel, pick := Selected(hits, topK), Pick(hits, mask);
    PickDescending(hits, mask);
    PickCounts(hits, mask, "");
    SelectedSize(hits, topK);
    forall i | 0 <= i < |pick| ensures sel[i].score >= pick[i].score {
      SelectedDominates(hits, topK, mask, pick[i].score);
      AtLeastPrefix(pick, pick[i].score);
      AtLeastPrefix(sel, pick[i].score);
    }
  }

  // ---------------------------------------------------------------------------
  // Which hits fill the rest
  // ---------------------------------------------------------------------------

  // Hit i is one of the first two of its provider.
  predicate FirstTwo(hits: seq<Hit>, i: nat) requires i < |hits| {
    CountOf(hits[..i], hits[i].provider) < 2
  }

  predicate HoldsFirstTwo(hits: seq<Hit>, mask: seq<bool>) {
    |mask| == |hits| && forall i :: 0 <= i < |hits| && FirstTwo(hits, i) ==> mask[i]
  }

  // The chosen hits that are, or are not, among the first two of their provider.
  function PickFirsts(hits: seq<Hit>, mask: seq<bool>): seq<Hit> requires |mask| == |hits| {
    if hits == [] then []
    else
      var n := |hits| - 1;
      if mask[n] && FirstTwo(hits, n) then PickFirsts(hits[..n], mask[..n]) + [hits[n]]
      else PickFirsts(hits[..n], mask[..n])
  }

  function PickOthers(hits: seq<Hit>, mask: seq<bool>): seq<Hit> requires |mask| == |hits| {
    if hits == [] then []
    else
      var n := |hits| - 1;
      if mask[n] && !FirstTwo(hits, n) then PickOthers(hits[..n], mask[..n]) + [hits[n]]
      else PickOthers(hits[..n], mask[..n])
  }

  lemma FirstTwoInPrefix(hits: seq<Hit>, i: nat)
    requires i < |hits| - 1
    ensures FirstTwo(hits[..|hits| - 1], i) <==> FirstTwo(hits, i)
  {
    assert hits[..|hits| - 1][..i] == hits[..i];
  }

  lemma {:induction false} PickParts(hits: seq<Hit>, mask: seq<bool>, t: real)
    requires |mask| == |hits|
    ensures multiset(Pick(hits, mask)) == multiset(PickFirsts(hits, mask)) + multiset(PickOthers(hits, mask))
    ensures |Pick(hits, mask)| == |PickFirsts(hits, mask)| + |PickOthers(hits, mask)|
    ensures AtLeast(Pick(hits, mask), t) == AtLeast(PickFirsts(hits, mask), t) + AtLeast(PickOthers(hits, mask), t)
  {
    if hits != [] {
      var n := |hits| - 1;
      PickParts(hits[..n], mask[..n], t);
      var p, a, b := Pick(hits[..n], mask[..n]), PickFirsts(hits[..n], mask[..n]), PickOthers(hits[..n], mask[..n]);
      GrowPart(a, b, p, hits[n]);
      AtLeastSnoc(p, hits[n], t);
      AtLeastSnoc(a, hits[n], t);
      AtLeastSnoc(b, hits[n], t);
    }
  }

  lemma {:induction false} FirstsAreDiverse(hits: seq<Hit>, mask: seq<bool>)
    requires HoldsFirstTwo(hits, mask)
    ensures PickFirsts(hits, mask) == Diverse(hits, 2)
  {
    if hits != [] {
      var n := |hits| - 1;
      forall i | 0 <= i < n && FirstTwo(hits[..n], i) ensures mask[..n][i] { FirstTwoInPrefix(hits, i); }
      FirstsAreDiverse(hits[..n], mask[..n]);
    }
  }

  lemma {:induction false} OthersWithin(hits: seq<Hit>, mask: seq<bool>, t: real)
    requires |mask| == |hits|
    ensures |PickOthers(hits, mask)| <= |Remaining(hits, 2)|
    ensures AtLeast(PickOthers(hits, mask), t) <= AtLeast(Remaining(hits, 2), t)
  {
    if hits != [] {
      var n := |hits| - 1;
      OthersWithin(hits[..n], mask[..n], t);
      AtLeastSnoc(PickOthers(hits[..n], mask[..n]), hits[n], t);
      AtLeastSnoc(Remaining(hits[..n], 2), hits[n], t);
    }
  }

  lemma {:induction false} RemainingMember(hits: seq<Hit>, cap: nat)
    ensures forall h :: h in Remaining(hits, cap) ==> h in hits
  {
    if hits != [] { RemainingMember(hits[..|hits| - 1], cap); }
  }

  lemma {:induction false} RemainingDescending(hits: seq<Hit>, cap: nat)
    requires Descending(hits, Score)
    ensures Descending(Remaining(hits, cap), Score)
  {
    if hits != [] {
      var n := |hits| - 1;
      var r := Remaining(hits[..n], cap);
      RemainingDescending(hits[..n], cap);
      RemainingMember(hits[..n], cap);
      forall i | 0 <= i < |r| ensures Score(r[i]) >= Score(hits[n]) {
        assert r[i] in r && r[i] in hits[..n];
        var j :| 0 <= j < n && hits[j] == r[i];
        assert Score(hits[j]) >= Score(hits[n]);
      }
    }
  }

  lemma FilledIs(hits: seq<Hit>, topK: nat)
    requires |hits| > topK && |Diverse(hits, 2)| <= topK
    ensures var d, r := Diverse(hits, 2), Remaining(hits, 2);
            Filled(hits, topK) == d + r[..Min(topK - |d|, |r|)]
  {
  }

  function Room(hits: seq<Hit>, topK: nat): nat {
    if topK > |Diverse(hits, 2)| then topK - |Diverse(hits, 2)| else 0
  }

  // How many hits at or above t the others can give to the room there is.
  function BestFill(hits: seq<Hit>, topK: nat, t: real): nat {
    Min(Min(Room(hits, topK), |Remaining(hits, 2)|), AtLeast(Remaining(hits, 2), t))
  }

  lemma FilledAtLeast(hits: seq<Hit>, topK: nat, t: real)
    requires Descending(hits, Score) && |hits| > topK && |Diverse(hits, 2)| <= topK
    ensures AtLeast(Filled(hits, topK), t) == AtLeast(Diverse(hits, 2), t) + BestFill(hits, topK, t)
  {
    var d, r := Diverse(hits, 2), Remaining(hits, 2);
    var m := Min(topK - |d|, |r|);
    FilledIs(hits, topK);
    RemainingDescending(hits, 2);
    AtLeastOfPrefix(r, m, t);
    AtLeastAppend(d, r[..m], t);
  }

  lemma FewKeptAll(hits: seq<Hit>, topK: nat)
    requires |hits| <= topK
    ensures Filled(hits, topK) == hits
  {
    LargeCapKeepsAll(hits, Cap(hits, topK));
    SplitsHits(hits, Cap(hits, topK));
  }

  lemma FilledDominatesFirstTwos(hits: seq<Hit>, topK: nat, mask: seq<bool>, t: real)
    requires Descending(hits, Score) && HoldsFirstTwo(hits, mask) && |Pick(hits, mask)| <= topK
    ensures AtLeast(Pick(hits, mask), t) <= AtLeast(Filled(hits, topK), t)
  {
    if |hits| <= topK {
      FewKeptAll(hits, topK);
      PickWithinHits(hits, mask, t);
    } else {
      ManyDominate(hits, topK, mask, t);
    }
  }

  // A choice that holds the first two of every provider, in numbers: how many others it
  // holds, and how many of those score at least t.
  lemma ChoiceCounts(hits: seq<Hit>, mask: seq<bool>, t: real) returns (others: nat, high: nat)
    requires HoldsFirstTwo(hits, mask)
    ensures |Pick(hits, mask)| == |Diverse(hits, 2)| + others
    ensures AtLeast(Pick(hits, mask), t) == AtLeast(Diverse(hits, 2), t) + high
    ensures high <= others <= |Remaining(hits, 2)| && high <= AtLeast(Remaining(hits, 2), t)
  {
    others, high := |PickOthers(hits, mask)|, AtLeast(PickOthers(hits, mask), t);
    PickParts(hits, mask, t);
    FirstsAreDiverse(hits, mask);
    OthersWithin(hits, mask, t);
    AtLeastBounded(PickOthers(hits, mask), t);
  }

  lemma ChoiceAtMost(hits: seq<Hit>, topK: nat, mask: seq<bool>, t: real)
    requires HoldsFirstTwo(hits, mask) && |Pick(hits, mask)| <= topK
    ensures |Diverse(hits, 2)| <= topK
    ensures AtLeast(Pick(hits, mask), t) <= AtLeast(Diverse(hits, 2), t) + BestFill(hits, topK, t)
  {
    var others, high := ChoiceCounts(hits, mask, t);
    CompareCounts(high, others, Room(hits, topK), |Remaining(hits, 2)|, AtLeast(Remaining(hits, 2), t));
  }

  // In numbers: of `others` hits that fit into the room, `high` score well.
  lemma CompareCounts(high: nat, others: nat, room: nat, r: nat, rHigh: nat)
    requires high <= others <= r && others <= room && high <= rHigh
    ensures high <= Min(Min(room, r), rHigh)
  {
  }

  lemma ManyDominate(hits: seq<Hit>, topK: nat, mask: seq<bool>, t: real)
    requires Descending(hits, Score) && HoldsFirstTwo(hits, mask) && |Pick(hits, mask)| <= topK < |hits|
    ensures AtLeast(Pick(hits, mask), t) <= AtLeast(Filled(hits, topK), t)
  {
    ChoiceAtMost(hits, topK, mask, t);
    FilledAtLeast(hits, topK, t);
  }

  // The rest is filled with the best: at every rank, the hit returned scores at least as high
  // as the one that any choice has there, of at most topK hits, that holds the first two hits
  // of every provider.
  lemma FillIsOptimal(hits: seq<Hit>, topK: nat, mask: seq<bool>)
    requires Descending(hits, Score) && HoldsFirstTwo(hits, mask) && |Pick(hits, mask)| <= topK
    ensures |Pick(hits, mask)| <= |Selected(hits, topK)|
    ensures forall i :: 0 <= i < |Pick(hits, mask)| ==>
              Selected(hits, topK)[i].score >= Pick(hits, mask)[i].score
  {
    var sel, pick := Selected(hits, topK), Pick(hits, mask);
    PickDescending(hits, mask);
    PickCounts(hits, mask, "");
    SelectedSize(hits, topK);
    forall i | 0 <= i < |pick| ensures sel[i].score >= pick[i].score {
      var t := pick[i].score;
      FilledDominatesFirstTwos(hits, topK, mask, t);
      SelectedAtLeast(hits, topK, t);
      AtLeastBounded(pick, t);
      AtLeastPrefix(pick, t);
      AtLeastPrefix(sel, t);
    }
  }

  // ---------------------------------------------------------------------------
  // Exactly which hits come back
  // ---------------------------------------------------------------------------

  // How many of the first n hits are among the first two of their provider.
  function FirstTwosBefore(hits: seq<Hit>, n: nat): (c: nat)
    requires n <= |hits|
    ensures c <= n
  {
    if n == 0 then 0 else FirstTwosBefore(hits, n - 1) + if FirstTwo(hits, n - 1) then 1 else 0
  }

  // Of more than topK hits, the first two of each provider come back, up to topK of them;
  // where they leave room, the first of the others fill it.
  predicate ComesBack(hits: seq<Hit>, topK: nat, i: nat) requires i < |hits| {
    || |hits| <= topK
    || (if FirstTwo(hits, i) then FirstTwosBefore(hits, i) < topK
        else FirstTwosBefore(hits, |hits|) + (i - FirstTwosBefore(hits, i)) < topK)
  }

  predicate FirstsUpTo(hits: seq<Hit>, mask: seq<bool>, topK: nat, n: nat) requires n <= |hits| == |mask| {
    forall i :: 0 <= i < n && FirstTwo(hits, i) ==> (mask[i] <==> FirstTwosBefore(hits, i) < topK)
  }

  predicate OthersUpTo(hits: seq<Hit>, mask: seq<bool>, room: nat, n: nat) requires n <= |hits| == |mask| {
    forall i :: 0 <= i < n && !FirstTwo(hits, i) ==> (mask[i] <==> i - FirstTwosBefore(hits, i) < room)
  }

  lemma PrefixSteps(hits: seq<Hit>, mask: seq<bool>, n: nat)
    requires n < |hits| == |mask|
    ensures hits[..n + 1][..n] == hits[..n] && mask[..n + 1][..n] == mask[..n]
    ensures FirstTwo(hits[..n + 1], n) <==> FirstTwo(hits, n)
  {
  }

  lemma TakeSnoc(s: seq<Hit>, x: Hit, room: nat)
    ensures (s + [x])[..Min(room, |s| + 1)] ==
              if |s| < room then s[..Min(room, |s|)] + [x] else s[..Min(room, |s|)]
  {
  }

  lemma DiverseStep(hits: seq<Hit>, n: nat)
    requires n < |hits|
    ensures Diverse(hits[..n + 1], 2) ==
              if FirstTwo(hits, n) then Diverse(hits[..n], 2) + [hits[n]] else Diverse(hits[..n], 2)
    ensures Remaining(hits[..n + 1], 2) ==
              if FirstTwo(hits, n) then Remaining(hits[..n], 2) else Remaining(hits[..n], 2) + [hits[n]]
  {
    assert hits[..n + 1][..n] == hits[..n];
  }

  lemma PickStep(hits: seq<Hit>, mask: seq<bool>, n: nat)
    requires n < |hits| == |mask|
    ensures PickFirsts(hits[..n + 1], mask[..n + 1]) ==
              if mask[n] && FirstTwo(hits, n) then PickFirsts(hits[..n], mask[..n]) + [hits[n]]
              else PickFirsts(hits[..n], mask[..n])
    ensures PickOthers(hits[..n + 1], mask[..n + 1]) ==
              if mask[n] && !FirstTwo(hits, n) then PickOthers(hits[..n], mask[..n]) + [hits[n]]
              else PickOthers(hits[..n], mask[..n])
  {
    PrefixSteps(hits, mask, n);
  }

  // The first `count` of them, up to topK.
  predicate FirstsHere(hits: seq<Hit>, mask: seq<bool>, topK: nat, n: nat, count: nat) requires n <= |hits| == |mask| {
    && |Diverse(hits[..n], 2)| == count
    && PickFirsts(hits[..n], mask[..n]) == Diverse(hits[..n], 2)[..Min(topK, count)]
  }

  lemma FirstsMore(hits: seq<Hit>, mask: seq<bool>, topK: nat, n: nat, count: nat)
    requires n < |hits| == |mask| && FirstsHere(hits, mask, topK, n, count)
    requires FirstTwo(hits, n) ==> (mask[n] <==> count < topK)
    ensures FirstsHere(hits, mask, topK, n + 1, if FirstTwo(hits, n) then count + 1 else count)
  {
    DiverseStep(hits, n);
    PickStep(hits, mask, n);
    TakeSnoc(Diverse(hits[..n], 2), hits[n], topK);
  }

  lemma {:induction false} FirstsTaken(hits: seq<Hit>, mask: seq<bool>, topK: nat, n: nat) returns (count: nat)
    requires n <= |hits| == |mask| && FirstsUpTo(hits, mask, topK, n)
    ensures count == FirstTwosBefore(hits, n) && FirstsHere(hits, mask, topK, n, count)
  {
    if n == 0 {
      count := 0;
    } else {
      count := FirstsTaken(hits, mask, topK, n - 1);
      FirstsMore(hits, mask, topK, n - 1, count);
      count := if FirstTwo(hits, n - 1) then count + 1 else count;
    }
  }

  // The first `count` of them, up to the room there is.
  predicate OthersHere(hits: seq<Hit>, mask: seq<bool>, room: nat, n: nat, count: nat) requires n <= |hits| == |mask| {
    && |Remaining(hits[..n], 2)| == count
    && PickOthers(hits[..n], mask[..n]) == Remaining(hits[..n], 2)[..Min(room, count)]
  }

  lemma OthersMore(hits: seq<Hit>, mask: seq<bool>, room: nat, n: nat, count: nat)
    requires n < |hits| == |mask| && OthersHere(hits, mask, room, n, count)
    requires !FirstTwo(hits, n) ==> (mask[n] <==> count < room)
    ensures OthersHere(hits, mask, room, n + 1, if FirstTwo(hits, n) then count else count + 1)
  {
    DiverseStep(hits, n);
    PickStep(hits, mask, n);
    TakeSnoc(Remaining(hits[..n], 2), hits[n], room);
  }

  lemma {:induction false} OthersTaken(hits: seq<Hit>, mask: seq<bool>, room: nat, n: nat) returns (count: nat)
    requires n <= |hits| == |mask| && OthersUpTo(hits, mask, room, n)
    ensures count == n - FirstTwosBefore(hits, n) && OthersHere(hits, mask, room, n, count)
  {
    if n == 0 {
      count := 0;
    } else {
      count := OthersTaken(hits, mask, room, n - 1);
      OthersMore(hits, mask, room, n - 1, count);
      count := if FirstTwo(hits, n - 1) then count else count + 1;
    }
  }

  lemma FirstsOfAll(hits: seq<Hit>, topK: nat, mask: seq<bool>)
    requires |hits| > topK && |mask| == |hits|
    requires forall i :: 0 <= i < |hits| ==> (mask[i] <==> ComesBack(hits, topK, i))
    ensures |Diverse(hits, 2)| == FirstTwosBefore(hits, |hits|)
    ensures PickFirsts(hits, mask) == FirstPart(hits, topK)
  {
    TakeAll(hits);
    TakeAll(mask);
    var count := FirstsTaken(hits, mask, topK, |hits|);
  }

  lemma OthersOfAll(hits: seq<Hit>, topK: nat, mask: seq<bool>)
    requires |hits| > topK && |mask| == |hits| && |Diverse(hits, 2)| == FirstTwosBefore(hits, |hits|)
    requires forall i :: 0 <= i < |hits| ==> (mask[i] <==> ComesBack(hits, topK, i))
    ensures PickOthers(hits, mask) == OtherPart(hits, topK)
  {
    TakeAll(hits);
    TakeAll(mask);
    var count := OthersTaken(hits, mask, Room(hits, topK), |hits|);
  }

  lemma {:induction false} InsertLast(xs: seq<Hit>, x: Hit)
    requires Descending(xs + [x], Score)
    ensures Insert(xs, x, Score) == xs + [x]
  {
    if xs != [] { assert Score((xs + [x])[|xs| - 1]) >= Score((xs + [x])[|xs|]); }
  }

  lemma {:induction false} SortDescending(xs: seq<Hit>)
    requires Descending(xs, Score)
    ensures Sort(xs, Score) == xs
  {
    if xs != [] {
      var front, last := xs[..|xs| - 1], xs[|xs| - 1];
      SortDescending(front);
      assert front + [last] == xs;
      InsertLast(front, last);
    }
  }

  lemma {:induction false} DiverseDescending(hits: seq<Hit>, cap: nat)
    requires Descending(hits, Score)
    ensures Descending(Diverse(hits, cap), Score)
    ensures forall h :: h in Diverse(hits, cap) ==> h in hits
  {
    if hits != [] {
      var n := |hits| - 1;
      var d := Diverse(hits[..n], cap);
      DiverseDescending(hits[..n], cap);
      forall i | 0 <= i < |d| ensures Score(d[i]) >= Score(hits[n]) {
        assert d[i] in d && d[i] in hits[..n];
        var j :| 0 <= j < n && hits[j] == d[i];
        assert Score(hits[j]) >= Score(hits[n]);
      }
    }
  }

  lemma {:induction false} PickAll(hits: seq<Hit>, mask: seq<bool>)
    requires |mask| == |hits| && forall i :: 0 <= i < |mask| ==> mask[i]
    ensures Pick(hits, mask) == hits
  {
    if hits != [] {
      var n := |hits| - 1;
      PickAll(hits[..n], mask[..n]);
      assert hits == hits[..n] + [hits[n]];
    }
  }

  // The hits returned are exactly those that come back by that rule.
  lemma SelectedExactly(hits: seq<Hit>, topK: nat, mask: seq<bool>)
    requires Descending(hits, Score) && |mask| == |hits|
    requires forall i :: 0 <= i < |hits| ==> (mask[i] <==> ComesBack(hits, topK, i))
    ensures multiset(Selected(hits, topK)) == multiset(Pick(hits, mask))
  {
    if |hits| <= topK {
      PickAll(hits, mask);
      FewKeptAll(hits, topK);
      SortDescending(hits);
      TakeAll(hits);
    } else {
      FirstsOfAll(hits, topK, mask);
      OthersOfAll(hits, topK, mask);
      PickParts(hits, mask, 0.0);
      ManyComeBack(hits, topK);
    }
  }

  function FirstPart(hits: seq<Hit>, topK: nat): seq<Hit> {
    Diverse(hits, 2)[..Min(topK, |Diverse(hits, 2)|)]
  }

  function OtherPart(hits: seq<Hit>, topK: nat): seq<Hit> {
    Remaining(hits, 2)[..Min(Room(hits, topK), |Remaining(hits, 2)|)]
  }

  lemma PartsWithRoom(hits: seq<Hit>, topK: nat)
    requires |Diverse(hits, 2)| < topK
    ensures FirstPart(hits, topK) == Diverse(hits, 2)
    ensures OtherPart(hits, topK) == Remaining(hits, 2)[..Min(topK - |Diverse(hits, 2)|, |Remaining(hits, 2)|)]
  {
    TakeAll(Diverse(hits, 2));
  }

  lemma PartsWithoutRoom(hits: seq<Hit>, topK: nat)
    requires |Diverse(hits, 2)| >= topK
    ensures FirstPart(hits, topK) == Diverse(hits, 2)[..topK] && OtherPart(hits, topK) == []
  {
  }

  lemma ManyComeBack(hits: seq<Hit>, topK: nat)
    requires Descending(hits, Score) && |hits| > topK
    ensures multiset(Selected(hits, topK)) == multiset(FirstPart(hits, topK)) + multiset(OtherPart(hits, topK))
  {
    if |Diverse(hits, 2)| < topK {
      PartsWithRoom(hits, topK);
      FilledComesBack(hits, topK);
    } else {
      PartsWithoutRoom(hits, topK);
      FirstsComeBack(hits, topK);
    }
  }

  lemma FilledComesBack(hits: seq<Hit>, topK: nat)
    requires |hits| > topK && |Diverse(hits, 2)| < topK
    ensures var d, r := Diverse(hits, 2), Remaining(hits, 2);
            multiset(Selected(hits, topK)) == multiset(d) + multiset(r[..Min(topK - |d|, |r|)])
  {
    var f := Filled(hits, topK);
    FilledIs(hits, topK);
    SortIsStable(f, Score);
    SortMember(f, Score);
    TakeAll(Sort(f, Score));
  }

  lemma FirstsComeBack(hits: seq<Hit>, topK: nat)
    requires Descending(hits, Score) && |hits| > topK && |Diverse(hits, 2)| >= topK
    ensures Selected(hits, topK) == Diverse(hits, 2)[..topK]
  {
    DiverseDescending(hits, 2);
    SortDescending(Diverse(hits, 2));
  }

  // ---------------------------------------------------------------------------
  // Fairness
  // ---------------------------------------------------------------------------

  lemma {:induction false} CountAppend(a: seq<Hit>, b: seq<Hit>, p: string)
    ensures CountOf(a + b, p) == CountOf(a, p) + CountOf(b, p)
    decreases |b|
  {
    if b == [] {
      assert a + b == a;
    } else {
      FrontOfAppend(a, b);
      CountAppend(a, b[..|b| - 1], p);
    }
  }

  lemma {:induction false} CountInsert(xs: seq<Hit>, x: Hit, p: string)
    ensures CountOf(Insert(xs, x, Score), p) == CountOf(xs, p) + if x.provider == p then 1 else 0
  {
    if xs == [] || Score(xs[|xs| - 1]) >= Score(x) {
      assert (xs + [x])[..|xs|] == xs;
      assert xs == [] ==> xs + [x] == [x];
    } else {
      CountInsert(xs[..|xs| - 1], x, p);
      CountAppend(Insert(xs[..|xs| - 1], x, Score), [xs[|xs| - 1]], p);
      assert [xs[|xs| - 1]][..0] == [];
    }
  }

  lemma {:induction false} CountSort(xs: seq<Hit>, p: string)
    ensures CountOf(Sort(xs, Score), p) == CountOf(xs, p)
  {
    if xs != [] {
      CountSort(xs[..|xs| - 1], p);
      CountInsert(Sort(xs[..|xs| - 1], Score), xs[|xs| - 1], p);
    }
  }

  lemma FilledWithinTopK(hits: seq<Hit>, topK: nat)
    requires Demand(hits, MAX_PER_PROVIDER) <= topK
    ensures Selected(hits, topK) == Sort(Filled(hits, topK), Score)
  {
    var f := Filled(hits, topK);
    DiverseSize(hits, MAX_PER_PROVIDER);
    if |hits| <= topK { LargeCapKeepsAll(hits, Cap(hits, topK)); }
    SortMember(f, Score);
    TakeAll(Sort(f, Score));
  }

  // When the demand of all providers fits into topK, each keeps its full share.
  lemma SelectionIsFair(hits: seq<Hit>, topK: nat, p: string)
    requires Demand(hits, 2) <= topK
    ensures CountOf(Selected(hits, topK), p) >= Min(2, CountOf(hits, p))
  {
    var d, f := Diverse(hits, Cap(hits, topK)), Filled(hits, topK);
    FilledWithinTopK(hits, topK);
    CountSort(f, p);
    assert f == d + f[|d|..];
    CountAppend(d, f[|d|..], p);
    if |hits| <= topK {
      LargeCapKeepsAll(hits, Cap(hits, topK));
    } else {
      DiverseCounts(hits, MAX_PER_PROVIDER, p);
    }
  }
}
