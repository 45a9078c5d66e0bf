/** Order-preserving filtering over sequences (JavaScript's `Array.prototype.filter`). */
module Lists {

  /** `s.filter(f)`: the elements of `s` that satisfy `f`, in their original order. */
  function Filter<T>(s: seq<T>, f: T -> bool): (r: seq<T>)
    ensures |r| <= |s|
  {
    if s == [] then []
    else (if f(s[0]) then [s[0]] else []) + Filter(s[1..], f)
  }

  /** An element survives the filter exactly when it was there and passes the test. */
  lemma {:induction false} FilterMembers<T(!new)>(s: seq<T>, f: T -> bool)
    ensures forall x :: x in Filter(s, f) <==> x in s && f(x)
  {
    if s != [] {
      FilterMembers(s[1..], f);
      assert s == [s[0]] + s[1..];
    }
  }

  /** Filtering keeps every passing element as often as it occurred and drops every other one. */
  lemma {:induction false} FilterCount<T(!new)>(s: seq<T>, f: T -> bool)
    ensures forall x :: multiset(Filter(s, f))[x] == if f(x) then multiset(s)[x] else 0
  {
    if s != [] {
      FilterCount(s[1..], f);
      assert s == [s[0]] + s[1..];
    }
  }

  /** Filtering distributes over concatenation: the kept elements keep their relative order. */
  lemma {:induction false} FilterConcat<T>(a: seq<T>, b: seq<T>, f: T -> bool)
    ensures Filter(a + b, f) == Filter(a, f) + Filter(b, f)
  {
    if a == [] {
      assert a + b == b;
    } else {
      var head := if f(a[0]) then [a[0]] else [];
      assert (a + b)[1..] == a[1..] + b;
      FilterConcat(a[1..], b, f);
      assert Filter(a + b, f) == head + (Filter(a[1..], f) + Filter(b, f));
      assert head + (Filter(a[1..], f) + Filter(b, f)) == (head + Filter(a[1..], f)) + Filter(b, f);
    }
  }

  /** A filter that rejects nothing returns its input. */
  lemma {:induction false} FilterKeepsAll<T>(s: seq<T>, f: T -> bool)
    requires forall i :: 0 <= i < |s| ==> f(s[i])
    ensures Filter(s, f) == s
  {
    if s != [] {
      FilterKeepsAll(s[1..], f);
    }
  }

  /** Every value occurs at most once. */
  ghost predicate Distinct<T(!new)>(s: seq<T>) {
    forall x :: multiset(s)[x] <= 1
  }

  /** `q.filter(x => x !== id)`. */
  function Without<T(==)>(q: seq<T>, id: T): seq<T> {
    Filter(q, x => x != id)
  }

  /** Removing `id` drops every copy of it, keeps every other value as often as before, and keeps values distinct. */
  lemma WithoutFacts<T(!new)>(q: seq<T>, id: T)
    ensures forall x :: x in Without(q, id) <==> x in q && x != id
    ensures forall x :: x != id ==> multiset(Without(q, id))[x] == multiset(q)[x]
    ensures Distinct(q) ==> Distinct(Without(q, id))
  {
    FilterMembers(q, x => x != id);
    FilterCount(q, x => x != id);
  }

  /** Multiset union cancels: equal sums with a common part have equal rests. */
  lemma MultisetCancel<T>(a: multiset<T>, b: multiset<T>, c: multiset<T>)
    requires a + c == b + c
    ensures a == b
  {
    forall x ensures a[x] == b[x] {
      assert (a + c)[x] == (b + c)[x];
    }
  }
}
