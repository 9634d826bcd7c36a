/**
 * The JavaScript array methods the storefront's rules are written with
 * (`findIndex`, `find`, `some`, `filter`, `Array.from(new Set(...))`),
 * as functions over sequences, each with the contract the language promises.
 */
module ArrayOps {
  import opened Options

  /** `xs.findIndex(p)`, with `None` for JavaScript's -1. */
  function FindIndex<T>(xs: seq<T>, p: T -> bool): (r: Option<nat>)
    ensures r.Some? ==> r.value < |xs| && p(xs[r.value])
    ensures r.Some? ==> forall j :: 0 <= j < r.value ==> !p(xs[j])
    ensures r.None? <==> forall j :: 0 <= j < |xs| ==> !p(xs[j])
  {
    if |xs| == 0 then None
    else if p(xs[0]) then Some(0)
    else match FindIndex(xs[1..], p)
      case None => None
      case Some(k) => Some(k + 1)
  }

  /** `xs.find(p)`: the first element that satisfies `p`. */
  function Find<T>(xs: seq<T>, p: T -> bool): (r: Option<T>)
    ensures r.Some? ==> r.value in xs && p(r.value)
    ensures r.None? <==> forall j :: 0 <= j < |xs| ==> !p(xs[j])
  {
    match FindIndex(xs, p)
    case None => None
    case Some(i) => Some(xs[i])
  }

  /** `find` returns the first satisfying element in sequence order. */
  lemma FindFirst<T>(xs: seq<T>, p: T -> bool, i: nat)
    requires i < |xs| && p(xs[i])
    requires forall j :: 0 <= j < i ==> !p(xs[j])
    ensures FindIndex(xs, p) == Some(i)
    ensures Find(xs, p) == Some(xs[i])
  {
    var k := FindIndex(xs, p);
    if k.Some? {
      assert !(k.value < i) && !(i < k.value);
    }
  }

  /** Two searches whose tests agree on every element find the same element. */
  lemma FindSame<T>(xs: seq<T>, p: T -> bool, q: T -> bool)
    requires forall j :: 0 <= j < |xs| ==> p(xs[j]) == q(xs[j])
    ensures Find(xs, p) == Find(xs, q)
  {
    var k := FindIndex(xs, p);
    if k.Some? {
      FindFirst(xs, q, k.value);
    }
  }

  /** The index behind a successful `find`. */
  lemma FindWitness<T>(xs: seq<T>, p: T -> bool) returns (i: nat)
    requires Find(xs, p).Some?
    ensures i < |xs| && xs[i] == Find(xs, p).value && p(xs[i])
    ensures forall j :: 0 <= j < i ==> !p(xs[j])
  {
    i := FindIndex(xs, p).value;
  }

  /** `xs.some(p)` */
  function Any<T>(xs: seq<T>, p: T -> bool): (b: bool)
    ensures b <==> exists j :: 0 <= j < |xs| && p(xs[j])
  {
    if |xs| == 0 then false
    else p(xs[0]) || Any(xs[1..], p)
  }

  /** `xs.filter(p)` */
  function Filter<T>(xs: seq<T>, p: T -> bool): (r: seq<T>)
    ensures |r| <= |xs|
    ensures forall i :: 0 <= i < |r| ==> r[i] in xs && p(r[i])
    ensures forall j :: 0 <= j < |xs| && p(xs[j]) ==> xs[j] in r
    ensures IsSubsequence(r, xs)
  {
    if |xs| == 0 then []
    else if p(xs[0]) then [xs[0]] + Filter(xs[1..], p)
    else Filter(xs[1..], p)
  }

  /** The head of a non-empty `filter` is the first element that passes. */
  lemma {:induction false} FilterFirst<T>(xs: seq<T>, p: T -> bool, i: nat)
    requires i < |xs| && p(xs[i])
    requires forall j :: 0 <= j < i ==> !p(xs[j])
    ensures |Filter(xs, p)| > 0 && Filter(xs, p)[0] == xs[i]
    decreases i
  {
    if i > 0 {
      FilterFirst(xs[1..], p, i - 1);
    }
  }

  /** Filtering distributes over concatenation. */
  lemma {:induction false} FilterAppend<T>(a: seq<T>, b: seq<T>, p: T -> bool)
    ensures Filter(a + b, p) == Filter(a, p) + Filter(b, p)
  {
    if |a| == 0 {
      assert a + b == b;
    } else {
      assert (a + b)[1..] == a[1..] + b;
      FilterAppend(a[1..], b, p);
    }
  }

  /** Filtering keeps a sequence whose every element passes, and empties one whose every element fails. */
  lemma {:induction false} FilterAllOrNothing<T>(xs: seq<T>, p: T -> bool)
    ensures (forall j :: 0 <= j < |xs| ==> p(xs[j])) ==> Filter(xs, p) == xs
    ensures (forall j :: 0 <= j < |xs| ==> !p(xs[j])) ==> Filter(xs, p) == []
  {
    if |xs| > 0 {
      FilterAllOrNothing(xs[1..], p);
    }
  }

  /** Filtering ignores a prefix whose every element fails. */
  lemma {:induction false} FilterSkipPrefix<T>(xs: seq<T>, n: nat, p: T -> bool)
    requires n <= |xs| && forall j :: 0 <= j < n ==> !p(xs[j])
    ensures Filter(xs, p) == Filter(xs[n..], p)
    decreases n
  {
    if n > 0 {
      assert xs[1..][n - 1..] == xs[n..];
      FilterSkipPrefix(xs[1..], n - 1, p);
    }
  }

  /** `a` is `b` with some elements left out, the rest in their order. */
  ghost predicate IsSubsequence<T>(a: seq<T>, b: seq<T>)
    decreases |b|
  {
    if |b| == 0 then |a| == 0
    else IsSubsequence(a, b[1..]) || (|a| > 0 && a[0] == b[0] && IsSubsequence(a[1..], b[1..]))
  }

  /** `Array.from(new Set(xs))`: each value once, in order of first occurrence. */
  function Distinct<T(==)>(xs: seq<T>): (r: seq<T>)
    ensures forall i :: 0 <= i < |r| ==> r[i] in xs
    ensures forall j :: 0 <= j < |xs| ==> xs[j] in r
    ensures forall i, j :: 0 <= i < j < |r| ==> r[i] != r[j]
    ensures |xs| > 0 ==> |r| > 0 && r[0] == xs[0]
  {
    if |xs| == 0 then []
    else
      var d := Distinct(xs[..|xs| - 1]);
      if xs[|xs| - 1] in d then d else d + [xs[|xs| - 1]]
  }

  /** A sequence has exactly one distinct value iff it is non-empty and constant. */
  lemma DistinctIsSingleton<T>(xs: seq<T>)
    ensures |Distinct(xs)| == 1 <==> |xs| > 0 && forall j :: 0 <= j < |xs| ==> xs[j] == xs[0]
  {
    var d := Distinct(xs);
    if |d| == 1 {
      forall j | 0 <= j < |xs| ensures xs[j] == xs[0] {
        assert xs[j] in d && xs[0] in d;
      }
    }
  }
}
