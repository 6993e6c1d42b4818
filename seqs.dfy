/** The two array combinators the core is written with: `filter` and `map`. */
module Seqs {

  /** `s.filter(p)`: the elements of `s` satisfying `p`, in their original order. */
  function Filter<T>(s: seq<T>, p: T -> bool): (r: seq<T>)
    ensures |r| <= |s|
    decreases |s|
  {
    if s == [] then []
    else (if p(s[0]) then [s[0]] else []) + Filter(s[1..], p)
  }

  /** `s.map(f)`. */
  function Map<T, U>(s: seq<T>, f: T -> U): (r: seq<U>)
    ensures |r| == |s|
    decreases |s|
  {
    if s == [] then [] else [f(s[0])] + Map(s[1..], f)
  }

  /** The i-th image is the image of the i-th element. */
  lemma {:induction false} MapIndex<T, U>(s: seq<T>, f: T -> U, i: int)
    requires 0 <= i < |s|
    ensures Map(s, f)[i] == f(s[i])
    decreases |s|
  {
    if i > 0 {
      MapIndex(s[1..], f, i - 1);
    }
  }

  /** Filtering keeps order: it distributes over concatenation. */
  lemma {:induction false} FilterAppend<T>(a: seq<T>, b: seq<T>, p: T -> bool)
    ensures Filter(a + b, p) == Filter(a, p) + Filter(b, p)
    decreases |a|
  {
    if a == [] {
      assert a + b == b;
    } else {
      var head := if p(a[0]) then [a[0]] else [];
      assert (a + b)[0] == a[0] && (a + b)[1..] == a[1..] + b;
      FilterAppend(a[1..], b, p);
      calc {
        Filter(a + b, p);
        head + Filter(a[1..] + b, p);
        head + (Filter(a[1..], p) + Filter(b, p));
        (head + Filter(a[1..], p)) + Filter(b, p);
      }
    }
  }

  /** A filter whose predicate holds everywhere keeps everything. */
  lemma {:induction false} FilterAll<T>(s: seq<T>, p: T -> bool)
    requires forall x :: x in s ==> p(x)
    ensures Filter(s, p) == s
    decreases |s|
  {
    if s != [] {
      assert s[0] in s;
      assert forall x :: x in s[1..] ==> x in s;
      FilterAll(s[1..], p);
      assert s == [s[0]] + s[1..];
    }
  }

  /** Filtering keeps exactly the elements that satisfy the predicate. */
  lemma {:induction false} FilterMembership<T>(s: seq<T>, p: T -> bool, x: T)
    ensures x in Filter(s, p) <==> x in s && p(x)
    decreases |s|
  {
    if s != [] {
      FilterMembership(s[1..], p, x);
      assert s == [s[0]] + s[1..];
    }
  }

  /** Everything a filter keeps is an element satisfying the predicate. */
  lemma FilterKeeps<T>(s: seq<T>, p: T -> bool)
    ensures forall x :: x in Filter(s, p) ==> x in s && p(x)
  {
    forall x | x in Filter(s, p) ensures x in s && p(x) {
      FilterMembership(s, p, x);
    }
  }

  /** A filter is empty exactly when no element satisfies the predicate. */
  lemma {:induction false} FilterEmpty<T>(s: seq<T>, p: T -> bool)
    ensures Filter(s, p) == [] <==> forall x :: x in s ==> !p(x)
    decreases |s|
  {
    if s != [] {
      FilterEmpty(s[1..], p);
      assert s == [s[0]] + s[1..];
    }
  }

  /** Mapping distributes over concatenation. */
  lemma {:induction false} MapAppend<T, U>(a: seq<T>, b: seq<T>, f: T -> U)
    ensures Map(a + b, f) == Map(a, f) + Map(b, f)
    decreases |a|
  {
    if a == [] {
      assert a + b == b;
    } else {
      assert (a + b)[0] == a[0] && (a + b)[1..] == a[1..] + b;
      MapAppend(a[1..], b, f);
      calc {
        Map(a + b, f);
        [f(a[0])] + Map(a[1..] + b, f);
        [f(a[0])] + (Map(a[1..], f) + Map(b, f));
        ([f(a[0])] + Map(a[1..], f)) + Map(b, f);
      }
    }
  }

  /** Mapping reaches exactly the images of the elements. */
  lemma {:induction false} MapMembership<T, U>(s: seq<T>, f: T -> U, y: U)
    ensures y in Map(s, f) <==> exists x :: x in s && y == f(x)
    decreases |s|
  {
    if s != [] {
      MapMembership(s[1..], f, y);
      assert s == [s[0]] + s[1..];
    }
  }

  /** Filters with predicates that agree on the elements agree. */
  lemma {:induction false} FilterCongruent<T>(s: seq<T>, p: T -> bool, q: T -> bool)
    requires forall x :: x in s ==> p(x) == q(x)
    ensures Filter(s, p) == Filter(s, q)
    decreases |s|
  {
    if s != [] {
      assert s[0] in s;
      assert forall x :: x in s[1..] ==> x in s;
      FilterCongruent(s[1..], p, q);
    }
  }
}
