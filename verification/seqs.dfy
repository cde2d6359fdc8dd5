/** Generic sequence facts shared by the storefront modules. */
module Seqs {

  /** `sub` is `s` with some elements dropped and the rest kept in order:
      the shape of `list(filter(...))` and of a filtered queryset. */
  predicate IsSublist<T(==)>(sub: seq<T>, s: seq<T>)
    decreases |s|
  {
    if |sub| == 0 then true
    else if |s| == 0 then false
    else (sub[0] == s[0] && IsSublist(sub[1..], s[1..])) || IsSublist(sub, s[1..])
  }

  lemma {:induction false} SublistRefl<T>(s: seq<T>)
    ensures IsSublist(s, s)
  {
    if |s| > 0 {
      SublistRefl(s[1..]);
    }
  }

  /** A sublist of a sublist is a sublist. */
  lemma {:induction false} SublistTrans<T>(a: seq<T>, b: seq<T>, c: seq<T>)
    requires IsSublist(a, b) && IsSublist(b, c)
    ensures IsSublist(a, c)
    decreases |c|
  {
    if |a| == 0 {
    } else if |c| == 0 {
    } else if |b| == 0 {
    } else if IsSublist(b, c[1..]) {
      SublistTrans(a, b, c[1..]);
    } else if a[0] == b[0] && IsSublist(a[1..], b[1..]) {
      SublistTrans(a[1..], b[1..], c[1..]);
    } else {
      SublistTrans(a, b[1..], c[1..]);
    }
  }

  /** The elements of `s` satisfying `keep`, in their original order. */
  function Filter<T>(s: seq<T>, keep: T -> bool): (r: seq<T>)
    ensures IsSublist(r, s)
    ensures forall i :: 0 <= i < |r| ==> keep(r[i]) && r[i] in s
    ensures forall i :: 0 <= i < |s| && keep(s[i]) ==> s[i] in r
    ensures |r| <= |s|
  {
    if |s| == 0 then []
    else if keep(s[0]) then [s[0]] + Filter(s[1..], keep)
    else Filter(s[1..], keep)
  }

  /** Filtering a list whose every element passes leaves it unchanged:
      the reason a filter applied twice equals the filter applied once. */
  lemma {:induction false} FilterAllPass<T>(s: seq<T>, keep: T -> bool)
    requires forall i :: 0 <= i < |s| ==> keep(s[i])
    ensures Filter(s, keep) == s
  {
    if |s| > 0 {
      FilterAllPass(s[1..], keep);
    }
  }

  /** Filtering by a test and by its negation splits the list in two: every
      element lands in exactly one of the halves. */
  lemma {:induction false} FilterSplit<T>(s: seq<T>, keep: T -> bool, drop: T -> bool)
    requires forall x :: keep(x) <==> !drop(x)
    ensures multiset(Filter(s, keep)) + multiset(Filter(s, drop)) == multiset(s)
    ensures |Filter(s, keep)| + |Filter(s, drop)| == |s|
  {
    if |s| > 0 {
      FilterSplit(s[1..], keep, drop);
      assert s == [s[0]] + s[1..];
    }
  }
}
