/** Sequence helpers used where the source writes `list(set(...))` or keeps lists free of duplicates. */
module Collections {

  /** No element occurs twice. */
  predicate NoDups<T(==)>(s: seq<T>)
  {
    forall i, j :: 0 <= i < j < |s| ==> s[i] != s[j]
  }

  /** The items of a dictionary: no key occurs twice. */
  predicate DistinctKeys<K(==), V>(items: seq<(K, V)>)
  {
    forall i, j :: 0 <= i < j < |items| ==> items[i].0 != items[j].0
  }

  /** Python's `list(set(xs))`: the elements of `xs` once each, in an unspecified order. */
  method ListOfSet<T(==)>(xs: set<T>) returns (r: seq<T>)
    ensures NoDups(r)
    ensures forall x :: x in r <==> x in xs
    ensures |r| == |xs|
  {
    r := [];
    var rest := xs;
    while rest != {}
      invariant NoDups(r)
      invariant rest <= xs
      invariant forall x :: x in r <==> x in xs - rest
      invariant |r| + |rest| == |xs|
      decreases rest
    {
      var x :| x in rest;
      assert x !in r;
      r := r + [x];
      rest := rest - {x};
    }
  }

  /** The concatenation of a sequence of sequences. */
  function Concat<T>(parts: seq<seq<T>>): seq<T>
  {
    if |parts| == 0 then [] else Concat(parts[..|parts| - 1]) + parts[|parts| - 1]
  }

  /** Python's slice `s[lo:hi]` for non-negative bounds: bounds past the end are clamped. */
  function Slice<T>(s: seq<T>, lo: nat, hi: nat): (r: seq<T>)
    ensures lo < |s| && lo < hi ==> |r| > 0
    ensures lo >= |s| ==> r == []
    ensures |r| <= hi - lo || hi < lo
  {
    var a := if lo < |s| then lo else |s|;
    var b := if hi < |s| then hi else |s|;
    if a <= b then s[a..b] else []
  }
}
