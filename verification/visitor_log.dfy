/** The visitor log page: the visits checked in on the selected local date,
    split by the "checked in" and "checked out" tabs, the three counters above
    them, the duration and fallback cells of the table, and the arrows that
    step the selected date one day back or forward. */
module VisitorLog {
  import opened Common
  import opened Strings
  import opened Seqs
  import opened Visits
  import opened Dates

  datatype Tab = AllTab | CheckInTab | CheckOutTab

  /** The local date of the check-in, as `toLocaleDateString('en-CA')` writes
      it, equals the selected date; a missing check-in reads as the epoch. */
  predicate CheckedInOn(cal: Calendar, day: CivilDate, v: Visit) {
    DayKey(cal.localDate(v.checkIn.GetOr(0))) == DayKey(day)
  }

  function OnDate(cal: Calendar, day: CivilDate): Visit -> bool {
    (v: Visit) => CheckedInOn(cal, day, v)
  }

  function OpenOnDate(cal: Calendar, day: CivilDate): Visit -> bool {
    (v: Visit) => CheckedInOn(cal, day, v) && IsOpen(v)
  }

  function ClosedOnDate(cal: Calendar, day: CivilDate): Visit -> bool {
    (v: Visit) => CheckedInOn(cal, day, v) && IsClosed(v)
  }

  datatype LogStats = LogStats(totalVisits: nat, currentlyInside: nat, checkedOut: nat)

  /** The three counters, each its own filter over the whole list. Every visit
      of the day is either still inside or checked out. */
  function Stats(visitors: seq<Visit>, cal: Calendar, day: CivilDate): (r: LogStats)
    ensures r.totalVisits == r.currentlyInside + r.checkedOut
    ensures r.totalVisits == |Filter(visitors, OnDate(cal, day))|
    ensures r.currentlyInside == |Filter(visitors, OpenOnDate(cal, day))|
    ensures r.checkedOut == |Filter(visitors, ClosedOnDate(cal, day))|
  {
    CountPartition(visitors, OnDate(cal, day), OpenOnDate(cal, day), ClosedOnDate(cal, day));
    LogStats(Count(visitors, OnDate(cal, day)), Count(visitors, OpenOnDate(cal, day)),
             Count(visitors, ClosedOnDate(cal, day)))
  }

  /** The table's own filter: the date first, then the tab. */
  predicate Shown(cal: Calendar, day: CivilDate, tab: Tab, v: Visit) {
    if !CheckedInOn(cal, day, v) then false
    else if tab == CheckInTab then v.checkOut.None?
    else if tab == CheckOutTab then v.checkOut.Some?
    else true
  }

  function InTab(cal: Calendar, day: CivilDate, tab: Tab): Visit -> bool {
    (v: Visit) => Shown(cal, day, tab, v)
  }

  /** `filteredVisitors`: the visits of the selected date on the active tab,
      in list order. */
  function FilteredVisitors(visitors: seq<Visit>, cal: Calendar, day: CivilDate, tab: Tab): (r: seq<Visit>)
    ensures forall v :: v in r <==>
      (v in visitors && CheckedInOn(cal, day, v)
       && (tab == CheckInTab ==> IsOpen(v)) && (tab == CheckOutTab ==> IsClosed(v)))
    ensures |r| <= |visitors|
  {
    Filter(visitors, InTab(cal, day, tab))
  }

  /** The tab labels count what the tabs show: each tab lists as many rows as
      its counter says. */
  lemma TabCountsMatchStats(visitors: seq<Visit>, cal: Calendar, day: CivilDate)
    ensures |FilteredVisitors(visitors, cal, day, AllTab)| == Stats(visitors, cal, day).totalVisits
    ensures |FilteredVisitors(visitors, cal, day, CheckInTab)| == Stats(visitors, cal, day).currentlyInside
    ensures |FilteredVisitors(visitors, cal, day, CheckOutTab)| == Stats(visitors, cal, day).checkedOut
  {
    FilterCongruent(visitors, InTab(cal, day, AllTab), OnDate(cal, day));
    FilterCongruent(visitors, InTab(cal, day, CheckInTab), OpenOnDate(cal, day));
    FilterCongruent(visitors, InTab(cal, day, CheckOutTab), ClosedOnDate(cal, day));
  }

  /** The two narrow tabs split the "all" tab: each is the "all" list filtered
      by open or closed, no visit is on both, and their lengths add up. */
  lemma TabsPartitionAll(visitors: seq<Visit>, cal: Calendar, day: CivilDate)
    ensures var all := FilteredVisitors(visitors, cal, day, AllTab);
      && FilteredVisitors(visitors, cal, day, CheckInTab) == Filter(all, IsOpenVisit())
      && FilteredVisitors(visitors, cal, day, CheckOutTab) == Filter(all, IsClosedVisit())
      && |all| == |FilteredVisitors(visitors, cal, day, CheckInTab)| + |FilteredVisitors(visitors, cal, day, CheckOutTab)|
  {
    var all := FilteredVisitors(visitors, cal, day, AllTab);
    FilterFilter(visitors, InTab(cal, day, AllTab), IsOpenVisit(), InTab(cal, day, CheckInTab));
    FilterFilter(visitors, InTab(cal, day, AllTab), IsClosedVisit(), InTab(cal, day, CheckOutTab));
    OpenClosedPartition(all);
  }

  // ---------------------------------------------------------------------------
  // Table cells
  // ---------------------------------------------------------------------------

  /** `Math.floor((out - in) / 60000)`: whole minutes, rounded down. */
  function DurationMinutes(v: Visit): (m: int)
    requires IsClosed(v)
    ensures 60000 * m <= v.checkOut.value - v.checkIn.GetOr(0) < 60000 * m + 60000
  {
    (v.checkOut.value - v.checkIn.GetOr(0)) / 60000
  }

  /** The duration cell: minutes for a closed visit, "In progress" for an open one. */
  function DurationCell(v: Visit): (c: string)
    ensures IsOpen(v) <==> c == "In progress"
    ensures IsClosed(v) ==> c == IntToString(DurationMinutes(v)) + " min"
  {
    if v.checkOut.Some? then
      var c := IntToString(DurationMinutes(v)) + " min";
      assert c[|c| - 1] == 'n';
      c
    else "In progress"
  }

  /** The visitor-type cell: the company, or "Individual" when there is none. */
  function CompanyCell(v: Visit): (c: string)
    ensures c != ""
    ensures TruthyStr(v.company) ==> c == v.company.value
    ensures !TruthyStr(v.company) ==> c == "Individual"
  {
    OrElse(v.company, "Individual")
  }

  /** The "checked by" cell: the host name, or "N/A". */
  function HostCell(v: Visit): (c: string)
    ensures c != ""
    ensures TruthyStr(v.hostName) ==> c == v.hostName.value
    ensures !TruthyStr(v.hostName) ==> c == "N/A"
  {
    OrElse(v.hostName, "N/A")
  }

  // ---------------------------------------------------------------------------
  // Date navigation
  // ---------------------------------------------------------------------------

  datatype Page = Page(selected: CivilDate, tab: Tab)

  /** The page opens on the "all" tab at today's UTC date. */
  function Initial(cal: Calendar, now: int): (pg: Page)
    ensures pg.tab == AllTab && DayKey(pg.selected) == DayKey(cal.utcDate(now))
  {
    Page(cal.utcDate(now), AllTab)
  }

  /** The left arrow: one calendar day back, on the same tab. */
  function Back(pg: Page): (r: Page)
    requires Valid(pg.selected)
    ensures Valid(r.selected) && Before(r.selected, pg.selected) && r.tab == pg.tab
    ensures forall e :: Valid(e) && Before(e, pg.selected) ==> e == r.selected || Before(e, r.selected)
  {
    pg.(selected := PrevDay(pg.selected))
  }

  /** The right arrow: one calendar day forward, on the same tab. */
  function Forward(pg: Page): (r: Page)
    requires Valid(pg.selected)
    ensures Valid(r.selected) && Before(pg.selected, r.selected) && r.tab == pg.tab
    ensures forall e :: Valid(e) && Before(pg.selected, e) ==> e == r.selected || Before(r.selected, e)
  {
    pg.(selected := NextDay(pg.selected))
  }

  /** Back then forward, or forward then back, returns to the same page. */
  lemma ArrowsUndoEachOther(pg: Page)
    requires Valid(pg.selected)
    ensures Forward(Back(pg)) == pg && Back(Forward(pg)) == pg
  {
    StepsInverse(pg.selected);
  }
}
