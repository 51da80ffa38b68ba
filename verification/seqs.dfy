/** Order-preserving selection over sequences: the `Array.prototype.filter` every
    search, preset, explorer and history view of the catalogue is built from. */
module Seqs {

  /** `r` can be obtained from `s` by deleting elements: an order-preserving sublist. */
  predicate Subseq<T(==)>(r: seq<T>, s: seq<T>)
    decreases |s|
  {
    |r| == 0 || (|s| > 0 && ((r[0] == s[0] && Subseq(r[1..], s[1..])) || Subseq(r, s[1..])))
  }

  /** The elements of `s` that satisfy `keep`, in their original order. */
  function Filter<T(==)>(s: seq<T>, keep: T -> bool): (r: seq<T>)
    ensures |r| <= |s|
    ensures forall i :: 0 <= i < |r| ==> keep(r[i])
    ensures forall i :: 0 <= i < |r| ==> r[i] in s
    ensures forall i :: 0 <= i < |s| && keep(s[i]) ==> s[i] in r
    ensures Subseq(r, s)
    decreases |s|
  {
    if |s| == 0 then []
    else if keep(s[0]) then [s[0]] + Filter(s[1..], keep)
    else Filter(s[1..], keep)
  }

  /** Filtering keeps every copy of an accepted element and no copy of a rejected
      one. With `Subseq` this pins the result down: it is the sublist made of
      exactly the accepted positions. */
  lemma {:induction false} FilterCounts<T(!new)>(s: seq<T>, keep: T -> bool)
    ensures forall x :: multiset(Filter(s, keep))[x] == if keep(x) then multiset(s)[x] else 0
    decreases |s|
  {
    if |s| > 0 {
      FilterCounts(s[1..], keep);
      assert s == [s[0]] + s[1..];
    }
  }

  /** The predicate that accepts everything: the start of a chain of conditional filters. */
  function KeepAll<T>(): T -> bool {
    (x: T) => true
  }

  /** `[y]` when `y` is kept, otherwise nothing. */
  function Pick<T>(y: T, keep: T -> bool): seq<T> {
    if keep(y) then [y] else []
  }

  lemma FilterCons<T>(y: T, t: seq<T>, keep: T -> bool)
    ensures Filter([y] + t, keep) == Pick(y, keep) + Filter(t, keep)
  {
    assert ([y] + t)[0] == y;
    assert ([y] + t)[1..] == t;
  }

  lemma FilterTwo<T>(d: T, e: T, keep: T -> bool)
    ensures Filter([d, e], keep) == Pick(d, keep) + Pick(e, keep)
  {
    FilterCons(e, [], keep);
    assert [e] + [] == [e];
    FilterCons(d, [e], keep);
    assert [d] + [e] == [d, e];
  }

  lemma FilterThree<T>(c: T, d: T, e: T, keep: T -> bool)
    ensures Filter([c, d, e], keep) == Pick(c, keep) + (Pick(d, keep) + Pick(e, keep))
  {
    FilterTwo(d, e, keep);
    FilterCons(c, [d, e], keep);
    assert [c] + [d, e] == [c, d, e];
  }

  lemma FilterFour<T>(b: T, c: T, d: T, e: T, keep: T -> bool)
    ensures Filter([b, c, d, e], keep) == Pick(b, keep) + (Pick(c, keep) + (Pick(d, keep) + Pick(e, keep)))
  {
    FilterThree(c, d, e, keep);
    FilterCons(b, [c, d, e], keep);
    assert [b] + [c, d, e] == [b, c, d, e];
  }

  /** Filtering a five-element sequence, one decision per element: the shape
      of the shipped catalogue. */
  lemma FilterFive<T>(a: T, b: T, c: T, d: T, e: T, keep: T -> bool)
    ensures Filter([a, b, c, d, e], keep)
         == Pick(a, keep) + (Pick(b, keep) + (Pick(c, keep) + (Pick(d, keep) + Pick(e, keep))))
  {
    FilterFour(b, c, d, e, keep);
    FilterCons(a, [b, c, d, e], keep);
    assert [a] + [b, c, d, e] == [a, b, c, d, e];
  }

  /** Filtering distributes over concatenation. */
  lemma {:induction false} FilterAppend<T>(a: seq<T>, b: seq<T>, keep: T -> bool)
    ensures Filter(a + b, keep) == Filter(a, keep) + Filter(b, keep)
    decreases |a|
  {
    if |a| > 0 {
      assert (a + b)[0] == a[0];
      assert (a + b)[1..] == a[1..] + b;
      FilterAppend(a[1..], b, keep);
    } else {
      assert a + b == b;
    }
  }

  /** Two successive filters are one filter by the conjunction of their predicates. */
  lemma {:induction false} FilterFusion<T>(s: seq<T>, first: T -> bool, second: T -> bool, both: T -> bool)
    requires forall x :: both(x) == (first(x) && second(x))
    ensures Filter(Filter(s, first), second) == Filter(s, both)
    decreases |s|
  {
    if |s| > 0 {
      FilterFusion(s[1..], first, second, both);
      if first(s[0]) {
        var rest := Filter(s[1..], first);
        assert Filter(s, first) == [s[0]] + rest;
        assert ([s[0]] + rest)[1..] == rest;
      }
    }
  }

  /** A filter whose predicate holds everywhere is the identity. */
  lemma {:induction false} FilterKeepsAll<T>(s: seq<T>, keep: T -> bool)
    requires forall x :: x in s ==> keep(x)
    ensures Filter(s, keep) == s
    decreases |s|
  {
    if |s| > 0 {
      var t := s[1..];
      forall x | x in t
        ensures keep(x)
      {
        var i :| 0 <= i < |t| && t[i] == x;
        assert x == s[i + 1];
      }
      FilterKeepsAll(t, keep);
      assert keep(s[0]);
      assert [s[0]] + t == s;
    }
  }

  /** A filter whose predicate holds nowhere yields nothing. */
  lemma FilterKeepsNone<T>(s: seq<T>, keep: T -> bool)
    requires forall x :: x in s ==> !keep(x)
    ensures Filter(s, keep) == []
  {
  }

  /** Filtering a prefix gives a prefix of the filtered whole. */
  lemma FilterPrefix<T>(s: seq<T>, n: nat, keep: T -> bool)
    requires n <= |s|
    ensures Filter(s[..n], keep) <= Filter(s, keep)
  {
    assert s == s[..n] + s[n..];
    FilterAppend(s[..n], s[n..], keep);
  }

  /** Filtering depends only on the values of the predicate. */
  lemma {:induction false} FilterExt<T>(s: seq<T>, f: T -> bool, g: T -> bool)
    requires forall x :: f(x) == g(x)
    ensures Filter(s, f) == Filter(s, g)
    decreases |s|
  {
    if |s| > 0 {
      FilterExt(s[1..], f, g);
    }
  }

  /** `if (active) { s = s.filter(keep) }`: a filter applied only when its input is supplied. */
  function Narrow<T(==)>(s: seq<T>, active: bool, keep: T -> bool): seq<T> {
    if active then Filter(s, keep) else s
  }

  /** A conditional filter after a filter is one filter by the combined predicate,
      an inactive step constraining nothing. */
  lemma NarrowFusion<T>(s: seq<T>, acc: T -> bool, active: bool, keep: T -> bool, both: T -> bool)
    requires forall x :: both(x) == (acc(x) && (!active || keep(x)))
    ensures Narrow(Filter(s, acc), active, keep) == Filter(s, both)
  {
    if active {
      FilterFusion(s, acc, keep, both);
    } else {
      FilterExt(s, acc, both);
    }
  }

  /** The whole sequence, as a filter that keeps everything. */
  lemma FilterTrue<T>(s: seq<T>, keep: T -> bool)
    requires forall x :: keep(x)
    ensures Filter(s, keep) == s
  {
    FilterKeepsAll(s, keep);
  }

  /** Membership in a filter: in the source and accepted. */
  lemma FilterMembership<T>(s: seq<T>, keep: T -> bool, p: T)
    ensures p in Filter(s, keep) <==> p in s && keep(p)
  {
    if p in s && keep(p) {
      var i :| 0 <= i < |s| && s[i] == p;
    }
    if p in Filter(s, keep) {
      var r := Filter(s, keep);
      var i :| 0 <= i < |r| && r[i] == p;
    }
  }

  /** Membership in a filter, for every element at once. */
  lemma FilterMembers<T>(s: seq<T>, keep: T -> bool)
    ensures forall p :: p in Filter(s, keep) <==> p in s && keep(p)
  {
    forall p {
      FilterMembership(s, keep, p);
    }
  }

  lemma {:induction false} SubseqReflexive<T>(s: seq<T>)
    ensures Subseq(s, s)
    decreases |s|
  {
    if |s| > 0 {
      SubseqReflexive(s[1..]);
    }
  }
}
