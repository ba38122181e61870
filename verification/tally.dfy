/** Counting occurrences of string keys the way the analytics charts do with a
    plain JavaScript object: `counts[key] = (counts[key] || 0) + 1` for each
    element, then either `Object.entries` (keys in first-insertion order) or
    `Object.keys(...).sort()` (keys in ascending code-unit order). */
module Tally {

  /** One key of the counting object and its count. */
  datatype Entry = Entry(key: string, count: nat)

  /** The count stored under `k`, or 0 when `k` is not a key. */
  function CountOf(r: seq<Entry>, k: string): nat {
    if |r| == 0 then 0 else if r[0].key == k then r[0].count else CountOf(r[1..], k)
  }

  /** `k` is one of the keys. */
  predicate HasKey(r: seq<Entry>, k: string) {
    |r| > 0 && (r[0].key == k || HasKey(r[1..], k))
  }

  /** No key is listed twice. */
  predicate DistinctKeys(r: seq<Entry>) {
    |r| == 0 || (!HasKey(r[1..], r[0].key) && DistinctKeys(r[1..]))
  }

  lemma {:induction false} CountOfAbsent(r: seq<Entry>, k: string)
    requires !HasKey(r, k)
    ensures CountOf(r, k) == 0
  {
    if |r| > 0 {
      CountOfAbsent(r[1..], k);
    }
  }

  lemma {:induction false} HasKeyAt(r: seq<Entry>, i: int)
    requires 0 <= i < |r|
    ensures HasKey(r, r[i].key)
  {
    if i > 0 {
      HasKeyAt(r[1..], i - 1);
    }
  }

  /** The sum of all counts. */
  function Sum(r: seq<Entry>): nat {
    if |r| == 0 then 0 else r[0].count + Sum(r[1..])
  }

  // ---------------------------------------------------------------------------
  // String order of `Array.prototype.sort` without a comparator
  // ---------------------------------------------------------------------------

  /** Lexicographic order by character code; a proper prefix comes first. */
  predicate Less(a: string, b: string) {
    if |a| == 0 then |b| > 0
    else if |b| == 0 then false
    else if a[0] != b[0] then a[0] < b[0]
    else Less(a[1..], b[1..])
  }

  lemma {:induction false} LessIrreflexive(a: string)
    ensures !Less(a, a)
  {
    if |a| > 0 {
      LessIrreflexive(a[1..]);
    }
  }

  lemma {:induction false} LessTransitive(a: string, b: string, c: string)
    requires Less(a, b) && Less(b, c)
    ensures Less(a, c)
  {
    if |a| > 0 && |b| > 0 && |c| > 0 && a[0] == b[0] && b[0] == c[0] {
      LessTransitive(a[1..], b[1..], c[1..]);
    }
  }

  lemma {:induction false} LessTotal(a: string, b: string)
    requires a != b
    ensures Less(a, b) || Less(b, a)
  {
    if |a| > 0 && |b| > 0 && a[0] == b[0] {
      assert a == [a[0]] + a[1..] && b == [b[0]] + b[1..];
      LessTotal(a[1..], b[1..]);
    }
  }

  /** Each key is less than the next: sorted, and therefore without duplicates. */
  predicate Ascending(r: seq<Entry>) {
    |r| <= 1 || (Less(r[0].key, r[1].key) && Ascending(r[1..]))
  }

  /** In an ascending list every later key is greater than the first. */
  lemma {:induction false} AscendingHead(r: seq<Entry>, j: string)
    requires Ascending(r) && |r| > 0 && HasKey(r[1..], j)
    ensures Less(r[0].key, j)
  {
    if r[1].key != j {
      AscendingHead(r[1..], j);
      LessTransitive(r[0].key, r[1].key, j);
    }
  }

  lemma {:induction false} AscendingIsDistinct(r: seq<Entry>)
    requires Ascending(r)
    ensures DistinctKeys(r)
  {
    if |r| > 0 {
      AscendingIsDistinct(r[1..]);
      if HasKey(r[1..], r[0].key) {
        AscendingHead(r, r[0].key);
        LessIrreflexive(r[0].key);
      }
    }
  }

  /** A key below the first one of an ascending list is not in it. */
  lemma BeforeHeadAbsent(r: seq<Entry>, k: string)
    requires Ascending(r) && |r| > 0 && Less(k, r[0].key)
    ensures !HasKey(r, k)
  {
    LessIrreflexive(k);
    if HasKey(r[1..], k) {
      AscendingHead(r, k);
      LessTransitive(k, r[0].key, k);
    }
  }

  /** The pairwise form: any earlier key is less than any later one. */
  lemma {:induction false} AscendingPairwise(r: seq<Entry>, i: int, j: int)
    requires Ascending(r) && 0 <= i < j < |r|
    ensures Less(r[i].key, r[j].key)
  {
    if i > 0 {
      AscendingPairwise(r[1..], i - 1, j - 1);
    } else {
      HasKeyAt(r[1..], j - 1);
      AscendingHead(r, r[j].key);
    }
  }

  // ---------------------------------------------------------------------------
  // Counting one element
  // ---------------------------------------------------------------------------

  /** `counts[k] = (counts[k] || 0) + 1` on an object whose key order is
      insertion order: an existing key is incremented in place, a new key goes last. */
  function Bump(r: seq<Entry>, k: string): (r': seq<Entry>)
    ensures forall j :: CountOf(r', j) == CountOf(r, j) + (if j == k then 1 else 0)
    ensures forall j :: HasKey(r', j) <==> HasKey(r, j) || j == k
    ensures Sum(r') == Sum(r) + 1
    ensures DistinctKeys(r) ==> DistinctKeys(r')
  {
    if |r| == 0 then [Entry(k, 1)]
    else if r[0].key == k then
      var r' := [r[0].(count := r[0].count + 1)] + r[1..];
      assert r'[1..] == r[1..];
      r'
    else
      var r' := [r[0]] + Bump(r[1..], k);
      assert r'[1..] == Bump(r[1..], k);
      r'
  }

  /** The same step on an object listed in ascending key order: a new key is
      placed before the first larger one. */
  function SortedBump(r: seq<Entry>, k: string): (r': seq<Entry>)
    ensures Ascending(r) ==> forall j :: CountOf(r', j) == CountOf(r, j) + (if j == k then 1 else 0)
    ensures forall j :: HasKey(r', j) <==> HasKey(r, j) || j == k
    ensures Sum(r') == Sum(r) + 1
    ensures |r'| > 0 && (r'[0].key == k || (|r| > 0 && r'[0].key == r[0].key))
    ensures Ascending(r) ==> Ascending(r')
  {
    if |r| == 0 then [Entry(k, 1)]
    else if r[0].key == k then
      var r' := [r[0].(count := r[0].count + 1)] + r[1..];
      assert r'[1..] == r[1..];
      r'
    else if Less(k, r[0].key) then
      var r' := [Entry(k, 1)] + r;
      assert r'[1..] == r;
      if Ascending(r) then
        BeforeHeadAbsent(r, k);
        CountOfAbsent(r, k);
        r'
      else r'
    else
      LessTotal(k, r[0].key);
      var r' := [r[0]] + SortedBump(r[1..], k);
      assert r'[1..] == SortedBump(r[1..], k);
      r'
  }

  // ---------------------------------------------------------------------------
  // Counting a whole sequence
  // ---------------------------------------------------------------------------

  /** `forEach` over `s` bumping an insertion-ordered object (`Object.entries`). */
  function CountInOrder(s: seq<string>): (r: seq<Entry>)
    ensures forall k :: CountOf(r, k) == multiset(s)[k]
    ensures forall k :: HasKey(r, k) <==> k in s
    ensures DistinctKeys(r)
    ensures Sum(r) == |s|
  {
    if |s| == 0 then []
    else
      assert s == s[..|s| - 1] + [s[|s| - 1]];
      Bump(CountInOrder(s[..|s| - 1]), s[|s| - 1])
  }

  /** The same counts listed by ascending key (`Object.keys(...).sort()`). */
  function CountSorted(s: seq<string>): (r: seq<Entry>)
    ensures forall k :: CountOf(r, k) == multiset(s)[k]
    ensures forall k :: HasKey(r, k) <==> k in s
    ensures Ascending(r) && DistinctKeys(r)
    ensures Sum(r) == |s|
  {
    if |s| == 0 then []
    else
      assert s == s[..|s| - 1] + [s[|s| - 1]];
      var r := SortedBump(CountSorted(s[..|s| - 1]), s[|s| - 1]);
      AscendingIsDistinct(r);
      r
  }

  /** With distinct keys, the count of a listed key is the one in its entry. */
  lemma {:induction false} CountOfEntry(r: seq<Entry>, i: int)
    requires DistinctKeys(r) && 0 <= i < |r|
    ensures CountOf(r, r[i].key) == r[i].count
  {
    if i > 0 {
      HasKeyAt(r[1..], i - 1);
      CountOfEntry(r[1..], i - 1);
    }
  }

  /** Every listed count is the number of occurrences of its key, hence at least 1. */
  lemma EntriesCountOccurrences(s: seq<string>, r: seq<Entry>)
    requires DistinctKeys(r)
    requires forall k :: CountOf(r, k) == multiset(s)[k]
    requires forall k :: HasKey(r, k) <==> k in s
    ensures forall i :: 0 <= i < |r| ==> r[i].count == multiset(s)[r[i].key] >= 1
  {
    forall i | 0 <= i < |r| ensures r[i].count == multiset(s)[r[i].key] >= 1 {
      CountOfEntry(r, i);
      HasKeyAt(r, i);
    }
  }
}
