/** Order-preserving filtering of sequences: the model of
    `stream().filter(p).collect(toList())` and of `List.removeIf`. */
module Seqs {

  /** The elements of `s` that satisfy `p`, in their order in `s`. */
  function Filter<T(!new)>(s: seq<T>, p: T -> bool): (r: seq<T>)
    ensures |r| <= |s|
    ensures forall x :: x in r <==> x in s && p(x)
  {
    if s == [] then []
    else (if p(s[0]) then [s[0]] else []) + Filter(s[1..], p)
  }

  /** Filtering distributes over concatenation; with the one-element case
      this fixes the result, order included. */
  lemma {:induction false} FilterAppend<T(!new)>(a: seq<T>, b: seq<T>, p: T -> bool)
    ensures Filter(a + b, p) == Filter(a, p) + Filter(b, p)
  {
    if a == [] {
      assert a + b == b;
    } else {
      assert (a + b)[0] == a[0];
      assert (a + b)[1..] == a[1..] + b;
      FilterAppend(a[1..], b, p);
    }
  }

  /** A one-element sequence is kept or dropped as a whole. */
  lemma FilterSingleton<T(!new)>(x: T, p: T -> bool)
    ensures Filter([x], p) == if p(x) then [x] else []
  {
  }

  /** Filtering drops something exactly when some element fails `p`;
      otherwise it returns its input unchanged. */
  lemma {:induction false} FilterKeepsAll<T(!new)>(s: seq<T>, p: T -> bool)
    ensures |Filter(s, p)| == |s| <==> forall x :: x in s ==> p(x)
    ensures (forall x :: x in s ==> p(x)) ==> Filter(s, p) == s
  {
    if s != [] {
      FilterKeepsAll(s[1..], p);
      assert forall x :: x in s <==> x == s[0] || x in s[1..];
    }
  }

  /** Filtering yields nothing exactly when no element satisfies `p`. */
  lemma FilterKeepsNone<T(!new)>(s: seq<T>, p: T -> bool)
    ensures Filter(s, p) == [] <==> forall x :: x in s ==> !p(x)
  {
  }

  /** Replacing one element changes the filtered length by what the old
      and the new element contribute. */
  lemma FilterUpdate<T(!new)>(s: seq<T>, k: nat, x: T, p: T -> bool)
    requires k < |s|
    ensures |Filter(s[k := x], p)| + (if p(s[k]) then 1 else 0) == |Filter(s, p)| + (if p(x) then 1 else 0)
  {
    var a, b := s[..k], s[k + 1..];
    assert s == a + [s[k]] + b;
    assert s[k := x] == a + [x] + b;
    FilterAround(a, s[k], b, p);
    FilterAround(a, x, b, p);
  }

  /** Filtering a sequence split around one element: that element counts
      once when it satisfies `p`, and the two sides count separately. */
  lemma FilterAround<T(!new)>(a: seq<T>, x: T, b: seq<T>, p: T -> bool)
    ensures |Filter(a + [x] + b, p)| == |Filter(a, p)| + (if p(x) then 1 else 0) + |Filter(b, p)|
  {
    FilterAppend(a + [x], b, p);
    FilterAppend(a, [x], p);
    FilterSingleton(x, p);
  }
}
