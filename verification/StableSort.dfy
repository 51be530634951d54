// Python's sorted(xs, key=key, reverse=True): a stable sort, greatest key first.
module StableSort {

  predicate Descending<T>(xs: seq<T>, key: T -> real) {
    forall i, j :: 0 <= i < j < |xs| ==> key(xs[i]) >= key(xs[j])
  }

  // The elements with key v, in order.
  function Level<T>(xs: seq<T>, key: T -> real, v: real): seq<T> {
    if xs == [] then []
    else Level(xs[..|xs| - 1], key, v) + if key(xs[|xs| - 1]) == v then [xs[|xs| - 1]] else []
  }

  // Insert x behind every element whose key is at least its own.
  function Insert<T>(xs: seq<T>, x: T, key: T -> real): seq<T> {
    if xs == [] then [x]
    else if key(xs[|xs| - 1]) >= key(x) then xs + [x]
    else Insert(xs[..|xs| - 1], x, key) + [xs[|xs| - 1]]
  }

  function Sort<T>(xs: seq<T>, key: T -> real): seq<T> {
    if xs == [] then [] else Insert(Sort(xs[..|xs| - 1], key), xs[|xs| - 1], key)
  }

  lemma {:induction false} InsertElements<T>(xs: seq<T>, x: T, key: T -> real)
    ensures multiset(Insert(xs, x, key)) == multiset(xs) + multiset{x}
  {
    if xs != [] && key(xs[|xs| - 1]) < key(x) {
      InsertElements(xs[..|xs| - 1], x, key);
      assert xs == xs[..|xs| - 1] + [xs[|xs| - 1]];
    }
  }

  lemma {:induction false} InsertDescending<T>(xs: seq<T>, x: T, key: T -> real)
    requires Descending(xs, key)
    ensures Descending(Insert(xs, x, key), key)
  {
    if xs != [] && key(xs[|xs| - 1]) < key(x) {
      var front, last := xs[..|xs| - 1], xs[|xs| - 1];
      InsertDescending(front, x, key);
      InsertElements(front, x, key);
      var out := Insert(front, x, key);
      forall i | 0 <= i < |out| ensures key(out[i]) >= key(last) {
        assert out[i] in multiset(out);
        assert out[i] == x || out[i] in front;
      }
    }
  }

  lemma LevelSnoc<T>(xs: seq<T>, x: T, key: T -> real, v: real)
    ensures Level(xs + [x], key, v) == Level(xs, key, v) + if key(x) == v then [x] else []
  {
    assert (xs + [x])[..|xs|] == xs;
  }

  lemma {:induction false} LevelPrefix<T>(xs: seq<T>, n: nat, key: T -> real, v: real)
    requires n <= |xs|
    ensures Level(xs[..n], key, v) <= Level(xs, key, v)
    decreases |xs|
  {
    if n == |xs| {
      assert xs[..n] == xs;
    } else {
      var front := xs[..|xs| - 1];
      LevelPrefix(front, n, key, v);
      assert front[..n] == xs[..n];
    }
  }

  lemma {:induction false} InsertLevel<T>(xs: seq<T>, x: T, key: T -> real, v: real)
    requires Descending(xs, key)
    ensures Level(Insert(xs, x, key), key, v) == Level(xs, key, v) + if key(x) == v then [x] else []
  {
    if xs == [] || key(xs[|xs| - 1]) >= key(x) {
      LevelSnoc(xs, x, key, v);
      assert xs == [] ==> xs + [x] == [x];
    } else {
      var front, last := xs[..|xs| - 1], xs[|xs| - 1];
      InsertLevel(front, x, key, v);
      LevelSnoc(Insert(front, x, key), last, key, v);
    }
  }

  // Sorted, the same elements, and equal keys in their original order: these three
  // facts determine the result.
  lemma {:induction false} SortIsStable<T>(xs: seq<T>, key: T -> real)
    ensures Descending(Sort(xs, key), key)
    ensures multiset(Sort(xs, key)) == multiset(xs)
    ensures forall v :: Level(Sort(xs, key), key, v) == Level(xs, key, v)
  {
    if xs != [] {
      var front, last := xs[..|xs| - 1], xs[|xs| - 1];
      assert xs == front + [last];
      SortIsStable(front, key);
      InsertDescending(Sort(front, key), last, key);
      InsertElements(Sort(front, key), last, key);
      forall v ensures Level(Sort(xs, key), key, v) == Level(xs, key, v) {
        InsertLevel(Sort(front, key), last, key, v);
      }
    }
  }

  lemma SortMember<T>(xs: seq<T>, key: T -> real)
    ensures |Sort(xs, key)| == |xs|
    ensures forall x :: x in Sort(xs, key) <==> x in xs
  {
    SortIsStable(xs, key);
    assert |multiset(Sort(xs, key))| == |multiset(xs)|;
    forall x ensures x in Sort(xs, key) <==> x in xs {
      assert x in multiset(Sort(xs, key)) <==> x in multiset(xs);
    }
  }
}
