/** Sequence facts shared by the aggregations: the distinct elements of a sequence in
    first-seen order, sums of natural numbers, and tallies of a multiset over a list of keys. */
module Counting {

  ghost predicate NoDuplicates<T>(s: seq<T>) {
    forall i, j :: 0 <= i < j < |s| ==> s[i] != s[j]
  }

  /** The distinct elements of `xs`, each at the position of its first appearance. This is
      the key order of a `d3.nest` map filled from `xs` in order, and of a JavaScript object
      filled the same way as long as no key looks like an integer. */
  function Distinct<T(==)>(xs: seq<T>): seq<T>
    decreases |xs|
  {
    if xs == [] then []
    else if xs[|xs| - 1] in xs[..|xs| - 1] then Distinct(xs[..|xs| - 1])
    else Distinct(xs[..|xs| - 1]) + [xs[|xs| - 1]]
  }

  /** Distinct keeps exactly the elements of `xs`, each once. */
  lemma {:induction false} DistinctElements<T>(xs: seq<T>)
    ensures forall x :: x in Distinct(xs) <==> x in xs
    ensures NoDuplicates(Distinct(xs))
    decreases |xs|
  {
    if xs != [] {
      var init := xs[..|xs| - 1];
      DistinctElements(init);
      assert xs == init + [xs[|xs| - 1]];
    }
  }

  /** Dropping repeats never lengthens a sequence. */
  lemma {:induction false} DistinctLength<T>(xs: seq<T>)
    ensures |Distinct(xs)| <= |xs|
    decreases |xs|
  {
    if xs != [] {
      DistinctLength(xs[..|xs| - 1]);
    }
  }

  lemma DistinctMember<T>(xs: seq<T>, y: T)
    requires y in Distinct(xs)
    ensures y in xs
  {
    DistinctElements(xs);
  }

  /** The position of the first occurrence of `x` in `xs`. */
  function FirstIndex<T(==)>(xs: seq<T>, x: T): (i: nat)
    requires x in xs
    ensures i < |xs| && xs[i] == x && x !in xs[..i]
  {
    if xs[0] == x then 0
    else
      var k := FirstIndex(xs[1..], x);
      assert xs[..k + 1] == [xs[0]] + xs[1..][..k];
      k + 1
  }

  lemma FirstIndexUnique<T>(xs: seq<T>, x: T, k: nat)
    requires k < |xs| && xs[k] == x && x !in xs[..k]
    ensures FirstIndex(xs, x) == k
  {
  }

  /** Appending an element does not move the first occurrence of an element already present. */
  lemma FirstIndexAppend<T>(xs: seq<T>, z: T, y: T)
    requires y in xs
    ensures FirstIndex(xs + [z], y) == FirstIndex(xs, y)
  {
    var k := FirstIndex(xs, y);
    assert (xs + [z])[..k] == xs[..k];
    FirstIndexUnique(xs + [z], y, k);
  }

  /** Distinct lists its elements in the order of their first appearance in `xs`. */
  lemma {:induction false} DistinctFirstSeenOrder<T>(xs: seq<T>, i: nat, j: nat)
    requires i < j < |Distinct(xs)|
    ensures Distinct(xs)[i] in xs && Distinct(xs)[j] in xs
    ensures FirstIndex(xs, Distinct(xs)[i]) < FirstIndex(xs, Distinct(xs)[j])
    decreases |xs|
  {
    var d := Distinct(xs);
    DistinctElements(xs);
    assert d[i] in d && d[j] in d;
    var init, last := xs[..|xs| - 1], xs[|xs| - 1];
    assert xs == init + [last];
    var di := Distinct(init);
    DistinctElements(init);
    if last in init {
      assert d == di && d[i] in di && d[j] in di;
      DistinctFirstSeenOrder(init, i, j);
      FirstIndexAppend(init, last, d[i]);
      FirstIndexAppend(init, last, d[j]);
    } else if j < |di| {
      assert d[i] == di[i] && d[j] == di[j];
      DistinctFirstSeenOrder(init, i, j);
      FirstIndexAppend(init, last, d[i]);
      FirstIndexAppend(init, last, d[j]);
    } else {
      assert d == di + [last];
      assert d[j] == last && d[i] == di[i] && di[i] in di;
      DistinctMember(init, d[i]);
      FirstIndexAppend(init, last, d[i]);
      assert xs[..|init|] == init;
      FirstIndexUnique(xs, last, |init|);
    }
  }

  /** The sum of a sequence of counts. */
  function Sum(s: seq<nat>): nat {
    if s == [] then 0 else s[0] + Sum(s[1..])
  }

  lemma {:induction false} SumAppend(a: seq<nat>, b: seq<nat>)
    ensures Sum(a + b) == Sum(a) + Sum(b)
  {
    if a == [] {
      assert a + b == b;
    } else {
      assert (a + b)[1..] == a[1..] + b;
      SumAppend(a[1..], b);
    }
  }

  /** Adding one more count at the end of a prefix adds that count to its sum. */
  lemma SumPrefixStep(s: seq<nat>, i: nat)
    requires i < |s|
    ensures Sum(s[..i + 1]) == Sum(s[..i]) + s[i]
  {
    assert s[..i + 1] == s[..i] + [s[i]];
    SumAppend(s[..i], [s[i]]);
  }

  /** A member of a sequence of counts is at most its sum. */
  lemma {:induction false} SumBoundsElement(s: seq<nat>, i: nat)
    requires i < |s|
    ensures s[i] <= Sum(s)
  {
    if i > 0 {
      SumBoundsElement(s[1..], i - 1);
    }
  }

  /** How often each key of `keys` occurs in `m`, key by key. */
  function Counts<T>(keys: seq<T>, m: multiset<T>): (c: seq<nat>)
    ensures |c| == |keys|
  {
    seq(|keys|, i requires 0 <= i < |keys| => m[keys[i]])
  }

  /** The number of elements of `xs` that are not among `keys`. */
  function CountOutside<T(==)>(keys: seq<T>, xs: seq<T>): nat {
    if xs == [] then 0 else (if xs[0] in keys then 0 else 1) + CountOutside(keys, xs[1..])
  }

  lemma {:induction false} CountsOfEmpty<T>(keys: seq<T>)
    ensures Sum(Counts(keys, multiset{})) == 0
  {
    if keys != [] {
      assert Counts(keys, multiset{})[1..] == Counts(keys[1..], multiset{});
      CountsOfEmpty(keys[1..]);
    }
  }

  /** One more occurrence of `x` adds one to the tally exactly when `x` is one of the keys. */
  lemma {:induction false} CountsOfAdd<T>(keys: seq<T>, m: multiset<T>, x: T)
    requires NoDuplicates(keys)
    ensures Sum(Counts(keys, m + multiset{x})) == Sum(Counts(keys, m)) + (if x in keys then 1 else 0)
  {
    if keys != [] {
      assert Counts(keys, m + multiset{x})[1..] == Counts(keys[1..], m + multiset{x});
      assert Counts(keys, m)[1..] == Counts(keys[1..], m);
      assert x in keys <==> x == keys[0] || x in keys[1..];
      assert x == keys[0] ==> x !in keys[1..];
      CountsOfAdd(keys[1..], m, x);
    }
  }

  /** Every element of `xs` is tallied under its key or counted as outside the keys, once. */
  lemma {:induction false} TallyCoversAll<T>(keys: seq<T>, xs: seq<T>)
    requires NoDuplicates(keys)
    ensures Sum(Counts(keys, multiset(xs))) + CountOutside(keys, xs) == |xs|
  {
    if xs == [] {
      CountsOfEmpty(keys);
    } else {
      assert xs == [xs[0]] + xs[1..];
      assert multiset(xs) == multiset(xs[1..]) + multiset{xs[0]};
      TallyCoversAll(keys, xs[1..]);
      CountsOfAdd(keys, multiset(xs[1..]), xs[0]);
    }
  }

  lemma {:induction false} CountOutsideNone<T>(keys: seq<T>, xs: seq<T>)
    requires forall x :: x in xs ==> x in keys
    ensures CountOutside(keys, xs) == 0
  {
    if xs != [] {
      assert xs[0] in xs;
      CountOutsideNone(keys, xs[1..]);
    }
  }

  /** Tallying `xs` over its own distinct elements accounts for every element once. */
  lemma DistinctTally<T>(xs: seq<T>)
    ensures Sum(Counts(Distinct(xs), multiset(xs))) == |xs|
  {
    DistinctElements(xs);
    TallyCoversAll(Distinct(xs), xs);
    CountOutsideNone(Distinct(xs), xs);
  }
}
