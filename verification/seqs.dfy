/** Order-preserving filtering of sequences (JavaScript's `Array.prototype.filter`)
    and the counting facts the dashboards' statistics depend on. */
module Seqs {

  /** `r` is obtained from `s` by deleting elements, without reordering. */
  ghost predicate IsSubsequence<T>(r: seq<T>, s: seq<T>)
    decreases |s|
  {
    if |r| == 0 then true
    else if |s| == 0 then false
    else (r[0] == s[0] && IsSubsequence(r[1..], s[1..])) || IsSubsequence(r, s[1..])
  }

  /** Appending the same element to both sides, or to the longer side only,
      keeps a subsequence a subsequence. */
  lemma {:induction false} SubsequenceSnoc<T>(r: seq<T>, s: seq<T>, v: T)
    requires IsSubsequence(r, s)
    ensures IsSubsequence(r, s + [v]) && IsSubsequence(r + [v], s + [v])
    decreases |s|
  {
    if |s| == 0 {
      assert (s + [v])[1..] == [] && ([] + [v])[1..] == [];
    } else {
      assert (s + [v])[1..] == s[1..] + [v];
      if |r| == 0 {
        SubsequenceSnoc(r, s[1..], v);
        assert r + [v] == [v];
      } else {
        assert (r + [v])[1..] == r[1..] + [v];
        if r[0] == s[0] && IsSubsequence(r[1..], s[1..]) {
          SubsequenceSnoc(r[1..], s[1..], v);
        } else {
          SubsequenceSnoc(r, s[1..], v);
        }
      }
    }
  }

  /** The elements of `s` satisfying `p`, in their original order. */
  function Filter<T(!new)>(s: seq<T>, p: T -> bool): (r: seq<T>)
    ensures |r| <= |s|
    ensures forall x :: x in r <==> x in s && p(x)
    ensures forall i :: 0 <= i < |r| ==> p(r[i])
    ensures IsSubsequence(r, s)
  {
    if |s| == 0 then []
    else
      assert s == [s[0]] + s[1..];
      var rest := Filter(s[1..], p);
      if p(s[0]) then
        assert ([s[0]] + rest)[1..] == rest;
        [s[0]] + rest
      else
        rest
  }

  /** A subsequence whose elements all satisfy `p` is no longer than the filter. */
  lemma {:induction false} SubsequenceCount<T(!new)>(r: seq<T>, s: seq<T>, p: T -> bool)
    requires IsSubsequence(r, s) && forall i :: 0 <= i < |r| ==> p(r[i])
    ensures |r| <= |Filter(s, p)|
    decreases |s|
  {
    if |r| > 0 {
      if r[0] == s[0] && IsSubsequence(r[1..], s[1..]) {
        SubsequenceCount(r[1..], s[1..], p);
      } else {
        SubsequenceCount(r, s[1..], p);
      }
    } else if |s| > 0 {
      SubsequenceCount(r, s[1..], p);
    }
  }

  /** The filter is the only subsequence of `s` that keeps exactly as many
      elements as satisfy `p`, all of them satisfying `p`: so its contract
      fixes the order of the result, not only its members. */
  lemma {:induction false} FilterUnique<T(!new)>(r: seq<T>, s: seq<T>, p: T -> bool)
    requires IsSubsequence(r, s) && forall i :: 0 <= i < |r| ==> p(r[i])
    requires |r| == |Filter(s, p)|
    ensures r == Filter(s, p)
    decreases |s|
  {
    if |s| > 0 {
      var rest := Filter(s[1..], p);
      if p(s[0]) {
        assert Filter(s, p) == [s[0]] + rest;
        if r[0] == s[0] && IsSubsequence(r[1..], s[1..]) {
          FilterUnique(r[1..], s[1..], p);
          assert r == [r[0]] + r[1..];
        } else {
          SubsequenceCount(r, s[1..], p);
        }
      } else {
        assert Filter(s, p) == rest;
        if |r| > 0 {
          assert !(r[0] == s[0]);
        }
        FilterUnique(r, s[1..], p);
      }
    }
  }

  /** `s.filter(p).length`. */
  function Count<T(!new)>(s: seq<T>, p: T -> bool): nat {
    |Filter(s, p)|
  }

  /** Filtering distributes over concatenation. */
  lemma {:induction false} FilterAppend<T(!new)>(a: seq<T>, b: seq<T>, p: T -> bool)
    ensures Filter(a + b, p) == Filter(a, p) + Filter(b, p)
  {
    if |a| > 0 {
      assert (a + b)[1..] == a[1..] + b;
      FilterAppend(a[1..], b, p);
    } else {
      assert a + b == b;
    }
  }

  /** Predicates that agree on the elements filter alike. */
  lemma {:induction false} FilterCongruent<T(!new)>(s: seq<T>, p: T -> bool, q: T -> bool)
    requires forall x :: x in s ==> (p(x) <==> q(x))
    ensures Filter(s, p) == Filter(s, q)
  {
    if |s| > 0 {
      FilterCongruent(s[1..], p, q);
    }
  }

  /** A filter that keeps everything is the identity. */
  lemma {:induction false} FilterAll<T(!new)>(s: seq<T>, p: T -> bool)
    requires forall x :: x in s ==> p(x)
    ensures Filter(s, p) == s
  {
    if |s| > 0 {
      FilterAll(s[1..], p);
    }
  }

  /** Replacing one element changes a count only by what the two elements
      contribute. */
  lemma CountReplace<T(!new)>(a: seq<T>, x: T, y: T, b: seq<T>, p: T -> bool)
    ensures Count(a + [y] + b, p) + (if p(x) then 1 else 0) == Count(a + [x] + b, p) + (if p(y) then 1 else 0)
  {
    FilterAppend(a + [x], b, p);
    FilterAppend(a, [x], p);
    FilterAppend(a + [y], b, p);
    FilterAppend(a, [y], p);
    assert [x][1..] == [] && [y][1..] == [];
  }

  /** When `a` holds of exactly the elements satisfying one of the two
      exclusive predicates `b` and `c`, the counts add up. */
  lemma {:induction false} CountPartition<T(!new)>(s: seq<T>, a: T -> bool, b: T -> bool, c: T -> bool)
    requires forall x :: x in s ==> (a(x) <==> b(x) || c(x))
    requires forall x :: x in s ==> !(b(x) && c(x))
    ensures Count(s, a) == Count(s, b) + Count(s, c)
  {
    if |s| > 0 {
      CountPartition(s[1..], a, b, c);
    }
  }

  /** Filtering twice is filtering by the conjunction. */
  lemma {:induction false} FilterFilter<T(!new)>(s: seq<T>, a: T -> bool, b: T -> bool, ab: T -> bool)
    requires forall x :: x in s ==> (ab(x) <==> a(x) && b(x))
    ensures Filter(Filter(s, a), b) == Filter(s, ab)
  {
    if |s| > 0 {
      FilterFilter(s[1..], a, b, ab);
      var head := if a(s[0]) then [s[0]] else [];
      assert Filter(s, a) == head + Filter(s[1..], a);
      FilterAppend(head, Filter(s[1..], a), b);
    }
  }
}
