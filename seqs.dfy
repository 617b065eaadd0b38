/** Mapping a function over a sequence (Array.prototype.map), with the facts the menu proofs use. */
module Seqs {

  function Map<A, B>(f: A -> B, s: seq<A>): (r: seq<B>)
    ensures |r| == |s|
    decreases |s|
  {
    if s == [] then [] else [f(s[0])] + Map(f, s[1..])
  }

  lemma {:induction false} MapAppend<A, B>(f: A -> B, a: seq<A>, b: seq<A>)
    ensures Map(f, a + b) == Map(f, a) + Map(f, b)
    decreases |a|
  {
    if a != [] {
      assert (a + b)[1..] == a[1..] + b;
      assert (a + b)[0] == a[0];
      MapAppend(f, a[1..], b);
      calc {
        Map(f, a + b);
        [f(a[0])] + Map(f, a[1..] + b);
        [f(a[0])] + (Map(f, a[1..]) + Map(f, b));
        ([f(a[0])] + Map(f, a[1..])) + Map(f, b);
      }
    } else {
      assert a + b == b;
    }
  }

  lemma MapSnoc<A, B>(f: A -> B, a: seq<A>, x: A)
    ensures Map(f, a + [x]) == Map(f, a) + [f(x)]
  {
    MapAppend(f, a, [x]);
    assert [x][1..] == [];
  }

  /** Every position of the map holds f of the same position of s. */
  lemma MapIndexes<A, B>(f: A -> B, s: seq<A>)
    ensures forall i :: 0 <= i < |s| ==> Map(f, s)[i] == f(s[i])
  {
    forall i | 0 <= i < |s| ensures Map(f, s)[i] == f(s[i]) {
      MapIndex(f, s, i);
    }
  }

  lemma {:induction false} MapIndex<A, B>(f: A -> B, s: seq<A>, i: nat)
    requires i < |s|
    ensures Map(f, s)[i] == f(s[i])
    decreases i
  {
    if i > 0 {
      MapIndex(f, s[1..], i - 1);
    }
  }

  lemma {:induction false} MapMembers<A, B>(f: A -> B, s: seq<A>)
    ensures forall y :: y in Map(f, s) <==> exists x :: x in s && y == f(x)
    decreases |s|
  {
    if s != [] {
      MapMembers(f, s[1..]);
      assert s == [s[0]] + s[1..];
    }
  }

  /** Taking out the element at j takes exactly one copy of it out of the multiset. */
  lemma MultisetRemoveAt<T>(b: seq<T>, j: nat)
    requires j < |b|
    ensures multiset(b) == multiset(b[..j] + b[j + 1..]) + multiset{b[j]}
  {
    SplitAt(b, j);
  }

  lemma SplitAt<T>(b: seq<T>, j: nat)
    requires j < |b|
    ensures b == b[..j] + [b[j]] + b[j + 1..]
  {
  }

  /** Mapping a sequence split around one element maps each part. */
  lemma MapAround<A, B>(f: A -> B, pre: seq<A>, x: A, post: seq<A>)
    ensures Map(f, pre + [x] + post) == Map(f, pre) + [f(x)] + Map(f, post)
  {
    MapAppend(f, pre + [x], post);
    MapSnoc(f, pre, x);
  }

  /** Mapping commutes with taking out the element at j. */
  lemma MapRemoveAt<A, B>(f: A -> B, b: seq<A>, j: nat)
    requires j < |b|
    ensures Map(f, b) == Map(f, b[..j]) + [f(b[j])] + Map(f, b[j + 1..])
    ensures Map(f, b[..j] + b[j + 1..]) == Map(f, b[..j]) + Map(f, b[j + 1..])
  {
    SplitAt(b, j);
    MapAround(f, b[..j], b[j], b[j + 1..]);
    MapAppend(f, b[..j], b[j + 1..]);
  }

  /** Mapping keeps equal multisets equal: reordering before or after mapping is the same. */
  lemma {:induction false} MapMultiset<A, B>(f: A -> B, a: seq<A>, b: seq<A>)
    requires multiset(a) == multiset(b)
    ensures multiset(Map(f, a)) == multiset(Map(f, b))
    decreases |a|
  {
    if a == [] {
      assert |multiset(b)| == 0;
    } else {
      var x := a[0];
      assert x in multiset(b);
      var j :| 0 <= j < |b| && b[j] == x;
      var rest := b[..j] + b[j + 1..];
      MultisetRemoveAt(b, j);
      assert a == [x] + a[1..];
      assert multiset(a) == multiset(a[1..]) + multiset{x};
      forall y ensures multiset(a[1..])[y] == multiset(rest)[y] {
        assert multiset(a)[y] == multiset(b)[y];
      }
      assert multiset(a[1..]) == multiset(rest);
      MapMultiset(f, a[1..], rest);
      MapRemoveAt(f, b, j);
      var front, back, tail := Map(f, b[..j]), Map(f, b[j + 1..]), Map(f, a[1..]);
      assert Map(f, a) == [f(x)] + tail;
      MultisetConcatCount(Map(f, a), [f(x)], tail, front, back, Map(f, b));
    }
  }

  /** Counting the copies of each value: [v] + tail and front + [v] + back agree when tail and front + back do. */
  lemma MultisetConcatCount<T>(m: seq<T>, v: seq<T>, tail: seq<T>, front: seq<T>, back: seq<T>, n: seq<T>)
    requires m == v + tail && n == front + v + back
    requires multiset(tail) == multiset(front + back)
    ensures multiset(m) == multiset(n)
  {
    calc {
      multiset(m);
      multiset(v) + multiset(tail);
      multiset(v) + multiset(front) + multiset(back);
      multiset(n);
    }
  }

  /** Concatenation regrouped: what is done so far absorbs the next step. */
  lemma MoveFront<T>(done: seq<T>, step: seq<T>, rest: seq<T>)
    ensures done + (step + rest) == (done + step) + rest
  {
  }
}
