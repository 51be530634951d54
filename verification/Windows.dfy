// Sliding windows over recorded times: sorted sets, and the logs they stand for.
module Windows {

  // The entries later than t: what ZREMRANGEBYSCORE key 0 t leaves of scores >= 0.
  function Prune(s: seq<real>, t: real): seq<real> {
    if s == [] then []
    else Prune(s[..|s| - 1], t) + if s[|s| - 1] > t then [s[|s| - 1]] else []
  }

  // How many entries are later than t.
  function After(s: seq<real>, t: real): nat { |Prune(s, t)| }

  // How many entries lie in the window (from, upTo].
  function Within(s: seq<real>, from: real, upTo: real): nat {
    if s == [] then 0
    else Within(s[..|s| - 1], from, upTo) + if from < s[|s| - 1] <= upTo then 1 else 0
  }

  predicate Ascending(s: seq<real>) {
    forall i, j :: 0 <= i < j < |s| ==> s[i] <= s[j]
  }

  predicate AllUpTo(s: seq<real>, t: real) { forall i :: 0 <= i < |s| ==> s[i] <= t }

  // ZADD: a sorted set keeps its scores in order.
  function Zadd(s: seq<real>, x: real): seq<real> {
    if s == [] || s[|s| - 1] <= x then s + [x]
    else Zadd(s[..|s| - 1], x) + [s[|s| - 1]]
  }

  lemma PruneSnoc(s: seq<real>, x: real, t: real)
    ensures Prune(s + [x], t) == Prune(s, t) + if x > t then [x] else []
  {
    assert (s + [x])[..|s|] == s;
  }

  lemma {:induction false} PruneMember(s: seq<real>, t: real, e: real)
    ensures e in Prune(s, t) <==> e in s && e > t
  {
    if s != [] {
      PruneMember(s[..|s| - 1], t, e);
      assert s == s[..|s| - 1] + [s[|s| - 1]];
    }
  }

  lemma {:induction false} PruneTwice(s: seq<real>, a: real, b: real)
    requires a <= b
    ensures Prune(Prune(s, a), b) == Prune(s, b)
  {
    if s != [] {
      var n := |s| - 1;
      PruneTwice(s[..n], a, b);
      if s[n] > a {
        PruneSnoc(Prune(s[..n], a), s[n], b);
      } else {
        assert Prune(s, a) == Prune(s[..n], a);
      }
    }
  }

  lemma {:induction false} PruneAll(s: seq<real>, t: real)
    requires AllUpTo(s, t)
    ensures Prune(s, t) == []
  {
    if s != [] {
      PruneAll(s[..|s| - 1], t);
    }
  }

  lemma {:induction false} PruneNone(s: seq<real>, t: real)
    requires forall i :: 0 <= i < |s| ==> s[i] > t
    ensures Prune(s, t) == s
  {
    if s != [] {
      assert s == s[..|s| - 1] + [s[|s| - 1]];
      PruneNone(s[..|s| - 1], t);
    }
  }

  lemma {:induction false} AfterMonotone(s: seq<real>, a: real, b: real)
    requires a <= b
    ensures After(s, b) <= After(s, a) <= |s|
  {
    if s != [] { AfterMonotone(s[..|s| - 1], a, b); }
  }

  lemma {:induction false} WithinIsAfter(s: seq<real>, from: real, upTo: real)
    requires AllUpTo(s, upTo)
    ensures Within(s, from, upTo) == After(s, from)
  {
    if s != [] {
      var n := |s| - 1;
      assert s == s[..n] + [s[n]];
      WithinIsAfter(s[..n], from, upTo);
    }
  }

  lemma {:induction false} WithinShrinks(s: seq<real>, a: real, b: real, c: real, d: real)
    requires c <= a && b <= d
    ensures Within(s, a, b) <= Within(s, c, d)
  {
    if s != [] { WithinShrinks(s[..|s| - 1], a, b, c, d); }
  }

  lemma ZaddLatest(s: seq<real>, x: real)
    requires AllUpTo(s, x)
    ensures Zadd(s, x) == s + [x]
  {
  }

  // In an ascending log the pruned part is a suffix, and its first entry is the
  // oldest one left.
  lemma {:induction false} PruneSuffix(s: seq<real>, t: real)
    requires Ascending(s)
    ensures |Prune(s, t)| <= |s| && Prune(s, t) == s[|s| - |Prune(s, t)|..]
    ensures Ascending(Prune(s, t))
  {
    AfterMonotone(s, t, t);
    if s != [] {
      var front, last := s[..|s| - 1], s[|s| - 1];
      PruneSuffix(front, t);
      if last <= t {
        PruneAll(front, t);
      } else {
        SuffixSnoc(s, |front| - |Prune(front, t)|);
      }
    }
  }

  lemma SuffixSnoc(s: seq<real>, k: nat)
    requires k < |s|
    ensures s[..|s| - 1][k..] + [s[|s| - 1]] == s[k..]
  {
  }

  lemma PruneAscending(s: seq<real>, t: real)
    requires Ascending(s)
    ensures Ascending(Prune(s, t))
  {
    PruneSuffix(s, t);
  }

  // The positions of the entries later than t.
  function LaterAt(s: seq<real>, t: real): set<int> {
    set i | 0 <= i < |s| && s[i] > t
  }

  // What After counts.
  lemma {:induction false} AfterCounts(s: seq<real>, t: real)
    ensures After(s, t) == |LaterAt(s, t)|
  {
    if s != [] {
      var n := |s| - 1;
      AfterCounts(s[..n], t);
      assert LaterAt(s, t) == LaterAt(s[..n], t) + if s[n] > t then {n} else {};
    }
  }
}
