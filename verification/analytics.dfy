/** The analytics page: the time-window filter, the visits-trend buckets, the
    visitor-type breakdown with rounded percentages, the four statistics cards
    and the active-visitors table. Every derivation is a pure function of the
    visit list the server returned, the selected period and the clock. */
module Analytics {
  import opened Common
  import opened Dates
  import opened Strings
  import opened Seqs
  import opened Visits
  import opened Tally

  /** The period selector. */
  datatype Period = Daily | Monthly | Yearly | AllTime

  /** The start of the window: 30 days, 12 months or 5 years before now on
      the local calendar, or the epoch for all time. */
  function WindowStart(p: Period, cal: Calendar, now: int): int {
    match p
    case Daily => cal.daysBefore(now, 30)
    case Monthly => cal.monthsBefore(now, 12)
    case Yearly => cal.yearsBefore(now, 5)
    case AllTime => 0
  }

  /** The visit has a check-in time, at or after `start`. */
  function InWindow(start: int): Visit -> bool {
    (v: Visit) => v.checkIn.Some? && v.checkIn.value >= start
  }

  /** `filteredVisitors`: the visits checked in within the window, in list order. */
  function FilteredVisitors(visitors: seq<Visit>, p: Period, cal: Calendar, now: int): (r: seq<Visit>)
    ensures forall v :: v in r <==>
      v in visitors && v.checkIn.Some? && v.checkIn.value >= WindowStart(p, cal, now)
    ensures |r| <= |visitors|
  {
    Filter(visitors, InWindow(WindowStart(p, cal, now)))
  }

  // ---------------------------------------------------------------------------
  // Visits trend
  // ---------------------------------------------------------------------------

  /** The bucket of an instant: the UTC day for the daily view, the local year
      for the yearly view, the local year and month otherwise. */
  function TrendKey(p: Period, cal: Calendar, t: int): string {
    match p
    case Daily => DayKey(cal.utcDate(t))
    case Yearly => YearKey(cal.localDate(t))
    case _ => MonthKey(cal.localDate(t))
  }

  /** The bucket of every visit, in list order. */
  function TrendKeys(s: seq<Visit>, p: Period, cal: Calendar): (keys: seq<string>)
    ensures |keys| == |s|
    ensures forall i :: 0 <= i < |s| ==> keys[i] == TrendKey(p, cal, s[i].checkIn.GetOr(0))
  {
    if |s| == 0 then [] else [TrendKey(p, cal, s[0].checkIn.GetOr(0))] + TrendKeys(s[1..], p, cal)
  }

  /** `visitsTrendData` without the display labels: one entry per bucket, in
      ascending key order, with the number of visits in it. */
  function VisitsTrend(filtered: seq<Visit>, p: Period, cal: Calendar): (r: seq<Entry>)
    ensures Ascending(r) && DistinctKeys(r)
    ensures Sum(r) == |filtered|
    ensures forall k :: HasKey(r, k) <==> k in TrendKeys(filtered, p, cal)
    ensures forall k :: CountOf(r, k) == multiset(TrendKeys(filtered, p, cal))[k]
  {
    CountSorted(TrendKeys(filtered, p, cal))
  }

  /** The visit falls in bucket `k`. */
  function InBucket(p: Period, cal: Calendar, k: string): Visit -> bool {
    (v: Visit) => TrendKey(p, cal, v.checkIn.GetOr(0)) == k
  }

  /** The count of a bucket is the number of visits whose key is that bucket,
      counted independently with a filter. */
  lemma {:induction false} TrendCountIsFilterCount(s: seq<Visit>, p: Period, cal: Calendar, k: string)
    ensures multiset(TrendKeys(s, p, cal))[k] == Count(s, InBucket(p, cal, k))
  {
    if |s| > 0 {
      TrendCountIsFilterCount(s[1..], p, cal, k);
      assert TrendKeys(s, p, cal) == [TrendKey(p, cal, s[0].checkIn.GetOr(0))] + TrendKeys(s[1..], p, cal);
    }
  }

  /** Every bucket of the trend holds at least one visit. */
  lemma TrendCountsPositive(filtered: seq<Visit>, p: Period, cal: Calendar)
    ensures var r := VisitsTrend(filtered, p, cal);
      forall i :: 0 <= i < |r| ==> r[i].count >= 1
  {
    var keys := TrendKeys(filtered, p, cal);
    EntriesCountOccurrences(keys, VisitsTrend(filtered, p, cal));
  }

  // ---------------------------------------------------------------------------
  // Visitor types
  // ---------------------------------------------------------------------------

  /** `visitor.purpose || 'General'`. */
  function PurposeLabel(v: Visit): string {
    if v.purpose != "" then v.purpose else "General"
  }

  function PurposeLabels(s: seq<Visit>): (labels: seq<string>)
    ensures |labels| == |s|
    ensures forall i :: 0 <= i < |s| ==> labels[i] == PurposeLabel(s[i])
  {
    if |s| == 0 then [] else [PurposeLabel(s[0])] + PurposeLabels(s[1..])
  }

  /** `Math.round(count / total * 100)` in exact arithmetic: round half up. */
  function Percent(count: nat, total: nat): int
    requires total > 0
  {
    (200 * count + total) / (2 * total)
  }

  /** The percentage is within half a point of the exact share (ties round up)
      and lies between 0 and 100. */
  lemma PercentBounds(count: nat, total: nat)
    requires 0 < total && count <= total
    ensures 0 <= Percent(count, total) <= 100
    ensures 200 * count - total < 2 * total * Percent(count, total) <= 200 * count + total
  {
    var p := Percent(count, total);
    DivBounds(200 * count + total, 2 * total);
    if p < 0 {
      MulLe(2 * total, p, -1);
    }
    if p > 100 {
      MulLe(2 * total, 101, p);
    }
  }

  lemma DivBounds(a: int, b: int)
    requires b > 0
    ensures b * (a / b) <= a < b * (a / b) + b
  {
  }

  lemma {:induction false} MulLe(a: int, x: int, y: int)
    requires a > 0 && x <= y
    ensures a * x <= a * y
  {
  }

  /** One slice of the pie: the label, its rounded percentage and its count. */
  datatype Category = Category(name: string, value: int, count: nat)

  function CategoryEntries(r: seq<Category>): (e: seq<Entry>)
    ensures |e| == |r|
    ensures forall i :: 0 <= i < |r| ==> e[i] == Entry(r[i].name, r[i].count)
  {
    if |r| == 0 then [] else [Entry(r[0].name, r[0].count)] + CategoryEntries(r[1..])
  }

  function WithPercent(e: seq<Entry>, total: nat): (r: seq<Category>)
    requires total > 0
    ensures |r| == |e|
    ensures forall i :: 0 <= i < |e| ==> r[i] == Category(e[i].key, Percent(e[i].count, total), e[i].count)
  {
    if |e| == 0 then [] else [Category(e[0].key, Percent(e[0].count, total), e[0].count)] + WithPercent(e[1..], total)
  }

  /** `visitorTypeData`: empty for an empty window; otherwise one slice per
      distinct label in first-appearance order, with counts that add up to
      the number of visits and percentages rounded from the exact share. */
  function VisitorTypeData(filtered: seq<Visit>): (r: seq<Category>)
    ensures |filtered| == 0 <==> r == []
    ensures var e := CategoryEntries(r);
      && DistinctKeys(e)
      && Sum(e) == |filtered|
      && (forall k :: HasKey(e, k) <==> k in PurposeLabels(filtered))
      && (forall k :: CountOf(e, k) == multiset(PurposeLabels(filtered))[k])
    ensures forall i :: 0 <= i < |r| ==>
      && 0 <= r[i].value <= 100
      && 200 * r[i].count - |filtered| < 2 * |filtered| * r[i].value <= 200 * r[i].count + |filtered|
  {
    if |filtered| == 0 then []
    else
      var e := CountInOrder(PurposeLabels(filtered));
      var r := WithPercent(e, |filtered|);
      assert CategoryEntries(r) == e;
      EntriesCountOccurrences(PurposeLabels(filtered), e);
      forall i | 0 <= i < |r|
        ensures 0 <= r[i].value <= 100
        ensures 200 * r[i].count - |filtered| < 2 * |filtered| * r[i].value <= 200 * r[i].count + |filtered|
      {
        assert e[i].count <= |filtered| by {
          OccurrencesAtMostLength(PurposeLabels(filtered), e[i].key);
        }
        PercentBounds(e[i].count, |filtered|);
      }
      assert e != [] by {
        assert PurposeLabels(filtered)[0] in PurposeLabels(filtered);
      }
      r
  }

  lemma OccurrencesAtMostLength(s: seq<string>, k: string)
    ensures multiset(s)[k] <= |s|
  {
    assert |multiset(s)| == |s|;
    assert multiset{k} * multiset(s) <= multiset(s);
  }

  function PercentTotal(r: seq<Category>): int {
    if |r| == 0 then 0 else r[0].value + PercentTotal(r[1..])
  }

  /** Rounding errors accumulate by at most half a point per slice: with `n`
      slices the percentages add up to within n/2 of 100. */
  lemma PercentagesNearHundred(filtered: seq<Visit>)
    requires |filtered| > 0
    ensures var r := VisitorTypeData(filtered);
      200 - |r| <= 2 * PercentTotal(r) <= 200 + |r|
  {
    var r := VisitorTypeData(filtered);
    SharesNearHundred(r, |filtered|);
  }

  lemma {:induction false} SharesNearHundred(r: seq<Category>, t: nat)
    requires t > 0 && Sum(CategoryEntries(r)) == t
    requires forall i :: 0 <= i < |r| ==> 200 * r[i].count - t < 2 * t * r[i].value <= 200 * r[i].count + t
    ensures 200 - |r| <= 2 * PercentTotal(r) <= 200 + |r|
  {
    PercentTotalBounds(r, t);
    DivideBounds(t, |r|, PercentTotal(r));
  }

  /** Dividing the bound on the total by the number of visits. */
  lemma DivideBounds(t: int, n: int, p: int)
    requires t > 0 && 200 * t - n * t <= 2 * t * p <= 200 * t + n * t
    ensures 200 - n <= 2 * p <= 200 + n
  {
    assert t * (200 - n) == 200 * t - n * t && t * (200 + n) == 200 * t + n * t;
    assert t * (2 * p) == 2 * t * p;
    CancelFactor(t, 200 - n, 2 * p);
    CancelFactor(t, 2 * p, 200 + n);
  }

  lemma {:induction false} CancelFactor(t: int, x: int, y: int)
    requires t > 0 && t * x <= t * y
    ensures x <= y
  {
    if x > y {
      MulLe(t, y + 1, x);
    }
  }

  /** One more slice widens the bound on the rounded total by one share. */
  lemma BoundsAdd(t: int, m: int, rest: int, q: int, c: int, v: int)
    requires 200 * rest - m * t <= 2 * t * q <= 200 * rest + m * t
    requires 200 * c - t < 2 * t * v <= 200 * c + t
    ensures 200 * (c + rest) - (m + 1) * t <= 2 * t * (v + q) <= 200 * (c + rest) + (m + 1) * t
  {
    assert 2 * t * (v + q) == 2 * t * v + 2 * t * q;
    assert (m + 1) * t == m * t + t;
  }

  lemma {:induction false} PercentTotalBounds(r: seq<Category>, t: nat)
    requires t > 0
    requires forall i :: 0 <= i < |r| ==> 200 * r[i].count - t < 2 * t * r[i].value <= 200 * r[i].count + t
    ensures 200 * Sum(CategoryEntries(r)) - |r| * t <= 2 * t * PercentTotal(r) <= 200 * Sum(CategoryEntries(r)) + |r| * t
  {
    if |r| > 0 {
      var n, total, rest := |r|, Sum(CategoryEntries(r)), Sum(CategoryEntries(r[1..]));
      var p, q := PercentTotal(r), PercentTotal(r[1..]);
      PercentTotalBounds(r[1..], t);
      assert CategoryEntries(r)[1..] == CategoryEntries(r[1..]);
      assert total == r[0].count + rest;
      assert p == r[0].value + q;
      BoundsAdd(t, n - 1, rest, q, r[0].count, r[0].value);
    }
  }

  // ---------------------------------------------------------------------------
  // Statistics cards and the active table
  // ---------------------------------------------------------------------------

  /** `v.email || v.phone`: the identity a visitor is counted under. */
  function VisitorKey(v: Visit): Option<string> {
    if TruthyStr(v.email) then v.email else v.phone
  }

  function Keys(s: seq<Visit>): set<Option<string>> {
    set v | v in s :: VisitorKey(v)
  }

  /** There are never more distinct visitor keys than visits. */
  lemma {:induction false} UniqueAtMostTotal(s: seq<Visit>)
    ensures |Keys(s)| <= |s|
  {
    if |s| > 0 {
      UniqueAtMostTotal(s[1..]);
      assert Keys(s) == Keys(s[1..]) + {VisitorKey(s[0])} by {
        forall x | x in Keys(s) ensures x in Keys(s[1..]) + {VisitorKey(s[0])} {
          var v :| v in s && VisitorKey(v) == x;
          if v != s[0] {
            assert v in s[1..];
          }
        }
      }
    }
  }

  /** The summed stay, in milliseconds, of a list of visits. */
  function TotalDuration(s: seq<Visit>): int {
    if |s| == 0 then 0 else (s[0].checkOut.GetOr(0) - s[0].checkIn.GetOr(0)) + TotalDuration(s[1..])
  }

  /** `Math.round(avg)` for a positive mean of `total / count` milliseconds,
      in minutes. */
  function RoundedMinutes(total: int, count: nat): int
    requires total > 0 && count > 0
  {
    (2 * total + 60000 * count) / (120000 * count)
  }

  /** The rounded mean is within half a minute of the exact one. */
  lemma RoundedMinutesBounds(total: int, count: nat)
    requires total > 0 && count > 0
    ensures var m := RoundedMinutes(total, count);
      m >= 0 && 120000 * count * m <= 2 * total + 60000 * count < 120000 * count * m + 120000 * count
  {
    var m := RoundedMinutes(total, count);
    DivBounds(2 * total + 60000 * count, 120000 * count);
    if m < 0 {
      MulLe(120000 * count, m, -1);
    }
  }

  /** The card text: "N/A" unless there are closed visits whose mean stay is positive. */
  function AverageDurationLabel(filtered: seq<Visit>): (text: string)
    ensures var done := Filter(filtered, IsClosedVisit());
      text == "N/A" <==> |done| == 0 || TotalDuration(done) <= 0
    ensures var done := Filter(filtered, IsClosedVisit());
      |done| > 0 && TotalDuration(done) > 0 ==>
        var m := RoundedMinutes(TotalDuration(done), |done|);
        && m >= 0 && text == NatToString(m) + " min"
        && 120000 * |done| * m <= 2 * TotalDuration(done) + 60000 * |done| < 120000 * |done| * m + 120000 * |done|
  {
    var done := Filter(filtered, IsClosedVisit());
    if |done| > 0 && TotalDuration(done) > 0 then
      RoundedMinutesBounds(TotalDuration(done), |done|);
      var text := NatToString(RoundedMinutes(TotalDuration(done), |done|)) + " min";
      assert text[|text| - 1] == 'n';
      text
    else "N/A"
  }

  function PeriodLabel(p: Period): string {
    match p
    case Daily => "Last 30 days"
    case Monthly => "Last 12 months"
    case Yearly => "Last 5 years"
    case AllTime => "All time"
  }

  datatype Stats = Stats(totalVisits: nat, uniqueVisitors: nat, currentlyInside: nat,
                         avgDuration: string, period: string)

  /** The statistics cards. "Currently inside" looks at the whole list, the
      others at the window only. */
  function ComputeStats(visitors: seq<Visit>, p: Period, cal: Calendar, now: int): (r: Stats)
    ensures var filtered := FilteredVisitors(visitors, p, cal, now);
      && r.totalVisits == |filtered|
      && r.uniqueVisitors == |Keys(filtered)| <= r.totalVisits
      && r.currentlyInside == Count(visitors, IsOpenVisit())
      && r.avgDuration == AverageDurationLabel(filtered)
  {
    var filtered := FilteredVisitors(visitors, p, cal, now);
    UniqueAtMostTotal(filtered);
    Stats(|filtered|, |Keys(filtered)|, Count(visitors, IsOpenVisit()), AverageDurationLabel(filtered), PeriodLabel(p))
  }

  /** `activeVisitors`: the open visits of the whole list, in list order; as
      many as the "currently inside" card shows. */
  function ActiveVisitors(visitors: seq<Visit>): (r: seq<Visit>)
    ensures forall v :: v in r <==> v in visitors && IsOpen(v)
    ensures |r| == Count(visitors, IsOpenVisit())
  {
    Filter(visitors, IsOpenVisit())
  }
}
