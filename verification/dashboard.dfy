/** The security dashboard: the de-duplicating visitor search, the selection
    that pre-fills the check-in form, the four statistic cards, the active and
    today tables, and the list updates after a check-in or a check-out. */
module Dashboard {
  import opened Common
  import opened Dates
  import opened Strings
  import opened Seqs
  import opened Visits

  // ---------------------------------------------------------------------------
  // Search
  // ---------------------------------------------------------------------------

  /** `v.email || v.phone || v.name`: the identity a search result is listed under. */
  function SearchKey(v: Visit): string {
    if TruthyStr(v.email) then v.email.value
    else if TruthyStr(v.phone) then v.phone.value
    else v.name
  }

  /** The lowered term occurs in the lowered name or email, or in the phone as typed. */
  predicate Matches(v: Visit, term: string) {
    || (v.name != "" && Contains(Lower(v.name), term))
    || (TruthyStr(v.email) && Contains(Lower(v.email.value), term))
    || (TruthyStr(v.phone) && Contains(v.phone.value, term))
  }

  function KeysOf(r: seq<Visit>): (keys: seq<string>)
    ensures |keys| == |r|
    ensures forall i :: 0 <= i < |r| ==> keys[i] == SearchKey(r[i])
  {
    if |r| == 0 then [] else [SearchKey(r[0])] + KeysOf(r[1..])
  }

  /** `s[i]` matches and no earlier matching visit has its key. */
  predicate FirstOfKey(s: seq<Visit>, i: int, term: string)
    requires 0 <= i < |s|
  {
    Matches(s[i], term) && forall j :: 0 <= j < i && Matches(s[j], term) ==> SearchKey(s[j]) != SearchKey(s[i])
  }

  /** The `forEach` that fills the `Map`: a matching visit is kept unless its
      key is already listed, so keys are listed in order of first appearance. */
  function Collect(s: seq<Visit>, term: string): (r: seq<Visit>)
    ensures forall v :: v in r ==> v in s && Matches(v, term)
    ensures forall i, j :: 0 <= i < j < |r| ==> SearchKey(r[i]) != SearchKey(r[j])
    ensures |r| <= |s|
    ensures IsSubsequence(r, s)
  {
    if |s| == 0 then []
    else
      var v := s[|s| - 1];
      var r := Collect(s[..|s| - 1], term);
      assert s == s[..|s| - 1] + [v];
      SubsequenceSnoc(r, s[..|s| - 1], v);
      if Matches(v, term) && SearchKey(v) !in KeysOf(r) then r + [v] else r
  }

  /** A listed key belongs to a matching visit of the input. */
  lemma ListedKeyHasSource(s: seq<Visit>, term: string, k: string)
    requires k in KeysOf(Collect(s, term))
    ensures exists j :: 0 <= j < |s| && Matches(s[j], term) && SearchKey(s[j]) == k
  {
    var r := Collect(s, term);
    var i :| 0 <= i < |r| && KeysOf(r)[i] == k;
    assert r[i] in r;
    var j :| 0 <= j < |s| && s[j] == r[i];
  }

  /** Every key of a matching visit is listed. */
  lemma {:induction false} CollectComplete(s: seq<Visit>, term: string, i: int)
    requires 0 <= i < |s| && Matches(s[i], term)
    ensures SearchKey(s[i]) in KeysOf(Collect(s, term))
  {
    var init, v := s[..|s| - 1], s[|s| - 1];
    var r := Collect(init, term);
    if i < |s| - 1 {
      assert init[i] == s[i];
      CollectComplete(init, term, i);
    }
    if Matches(v, term) && SearchKey(v) !in KeysOf(r) {
      assert KeysOf(r + [v]) == KeysOf(r) + [SearchKey(v)];
    }
  }

  /** For each key, the visit listed is the first matching one. */
  lemma {:induction false} CollectKeepsFirst(s: seq<Visit>, term: string, i: int)
    requires 0 <= i < |s| && FirstOfKey(s, i, term)
    ensures s[i] in Collect(s, term)
  {
    var init, v := s[..|s| - 1], s[|s| - 1];
    var r := Collect(init, term);
    if i < |s| - 1 {
      assert init[i] == s[i];
      assert FirstOfKey(init, i, term);
      CollectKeepsFirst(init, term, i);
    } else if SearchKey(v) in KeysOf(r) {
      ListedKeyHasSource(init, term, SearchKey(v));
    }
  }

  /** A prefix of a subsequence is a subsequence. */
  lemma {:induction false} PrefixSubsequence<T>(r: seq<T>, all: seq<T>, s: seq<T>)
    requires r <= all && IsSubsequence(all, s)
    ensures IsSubsequence(r, s)
    decreases |s|
  {
    if |r| > 0 {
      if all[0] == s[0] && IsSubsequence(all[1..], s[1..]) {
        PrefixSubsequence(r[1..], all[1..], s[1..]);
      } else {
        PrefixSubsequence(r, all, s[1..]);
      }
    }
  }

  /** The search results for what is typed in the box: none for a blank
      term; otherwise the first five entries of the de-duplicated matches. */
  function Search(visitors: seq<Visit>, searchTerm: string): (r: seq<Visit>)
    ensures AllSpace(searchTerm, IsJsSpace) ==> r == []
    ensures !AllSpace(searchTerm, IsJsSpace) ==>
      var all := Collect(visitors, Lower(searchTerm));
      r <= all && |r| == (if |all| <= 5 then |all| else 5)
    ensures IsSubsequence(r, visitors)
    ensures |r| <= 5
    ensures forall v :: v in r ==> v in visitors && Matches(v, Lower(searchTerm))
    ensures forall i, j :: 0 <= i < j < |r| ==> SearchKey(r[i]) != SearchKey(r[j])
  {
    TrimEmptyIffAllSpace(searchTerm, IsJsSpace);
    if Trim(searchTerm, IsJsSpace) == "" then []
    else
      var all := Collect(visitors, Lower(searchTerm));
      var r := Take(all, 5);
      assert forall i :: 0 <= i < |r| ==> r[i] == all[i];
      PrefixSubsequence(r, all, visitors);
      r
  }

  /** When fewer than five keys match, every matching key is offered, each by
      the first visit that carries it. */
  lemma SearchComplete(visitors: seq<Visit>, searchTerm: string, i: int)
    requires !AllSpace(searchTerm, IsJsSpace)
    requires |Collect(visitors, Lower(searchTerm))| <= 5
    requires 0 <= i < |visitors| && Matches(visitors[i], Lower(searchTerm))
    ensures SearchKey(visitors[i]) in KeysOf(Search(visitors, searchTerm))
    ensures FirstOfKey(visitors, i, Lower(searchTerm)) ==> visitors[i] in Search(visitors, searchTerm)
  {
    var term := Lower(searchTerm);
    CollectComplete(visitors, term, i);
    if FirstOfKey(visitors, i, term) {
      CollectKeepsFirst(visitors, term, i);
    }
    var all, r := Collect(visitors, term), Search(visitors, searchTerm);
    assert r <= all && |r| == |all|;
    assert r == all;
  }

  // ---------------------------------------------------------------------------
  // The check-in form
  // ---------------------------------------------------------------------------

  datatype VisitorForm = VisitorForm(
    firstName: string, lastName: string, mobile: string, email: string,
    organisation: string, visitorType: string, purpose: string)

  /** The form as the page starts and as it is reset after a check-in. */
  const EmptyForm := VisitorForm("", "", "", "", "", "Parent", "")

  lemma SplitHasSeparator(s: string, sep: char)
    requires sep in s
    ensures |Split(s, sep)| >= 2
  {
    JoinSplit(s, sep);
  }

  /** `handleSelectVisitor`: the name is split at its first space, the contact
      fields are copied (missing ones as ""), the visitor type comes from the
      host name or "Parent", and the purpose starts empty. */
  function SelectVisitor(v: Visit): (f: VisitorForm)
    ensures ' ' !in f.firstName
    ensures ' ' in v.name ==> f.firstName + " " + f.lastName == v.name
    ensures ' ' !in v.name ==> f.firstName == v.name && f.lastName == ""
    ensures f.mobile == v.phone.GetOr("") && f.email == v.email.GetOr("")
    ensures f.organisation == v.company.GetOr("")
    ensures f.visitorType == OrElse(v.hostName, "Parent") && f.visitorType != ""
    ensures f.purpose == ""
  {
    var parts := Split(v.name, ' ');
    var f := VisitorForm(parts[0], Join(parts[1..], ' '), OrElse(v.phone, ""), OrElse(v.email, ""),
                         OrElse(v.company, ""), OrElse(v.hostName, "Parent"), "");
    if ' ' in v.name then
      SplitHasSeparator(v.name, ' ');
      JoinSplit(v.name, ' ');
      f
    else
      SplitNoSeparator(v.name, ' ');
      f
  }

  /** The body of the create request built from the form. */
  datatype VisitorPayload = VisitorPayload(
    name: string, email: string, phone: string, purpose: string, company: string, hostName: string)

  /** `handleAddVisitor`'s `formData`: the two name halves joined by a space,
      mobile sent as phone, organisation as company and the visitor type as host name. */
  function AddPayload(f: VisitorForm): (p: VisitorPayload)
    ensures |p.name| == |f.firstName| + 1 + |f.lastName|
    ensures p.name[..|f.firstName|] == f.firstName && p.name[|f.firstName|..] == " " + f.lastName
    ensures p.phone == f.mobile && p.company == f.organisation && p.hostName == f.visitorType
    ensures p.email == f.email && p.purpose == f.purpose
  {
    VisitorPayload(f.firstName + " " + f.lastName, f.email, f.mobile, f.purpose, f.organisation, f.visitorType)
  }

  /** The check-in form's `required` inputs: first name, last name, mobile
      and purpose must not be empty (white space alone passes). */
  predicate RequiredFilled(f: VisitorForm) {
    f.firstName != "" && f.lastName != "" && f.mobile != "" && f.purpose != ""
  }

  /** The browser's constraint validation of the check-in form: the required
      inputs are filled and the optional e-mail input, of type "email", is
      empty or a valid address. */
  predicate Submittable(f: VisitorForm, isEmail: string -> bool) {
    RequiredFilled(f) && EmailInputAccepts(f.email, isEmail)
  }

  /** A press of "Check In": the request `handleAddVisitor` sends, or nothing
      when the browser blocks the submit. */
  function SubmitCheckIn(f: VisitorForm, isEmail: string -> bool): (r: Option<VisitorPayload>)
    ensures r.Some? <==> RequiredFilled(f) && (f.email == "" || isEmail(f.email))
    ensures r.Some? ==> r.value == AddPayload(f) && r.value.phone != "" && r.value.purpose != ""
    ensures r.Some? ==> ' ' in r.value.name && r.value.name[0] == f.firstName[0]
    ensures r.Some? && r.value.email != "" ==> isEmail(r.value.email)
  {
    if Submittable(f, isEmail) then
      assert AddPayload(f).name[|f.firstName|] == ' ';
      Some(AddPayload(f))
    else None
  }

  /** Re-checking in a selected visitor sends back their contact details and
      host, and the name exactly as stored. A one-word name leaves the
      required last name empty, so the form cannot be sent until the guard
      types one, and then the name sent is the stored one, a space and that
      last name. A stored e-mail that is not a valid address blocks the form
      too, although the server stored it. */
  lemma SelectThenAdd(v: Visit, purpose: string, lastName: string, isEmail: string -> bool)
    ensures var f := SelectVisitor(v).(purpose := purpose);
      && (' ' !in v.name ==> SubmitCheckIn(f, isEmail).None?)
      && (v.email.Some? && v.email.value != "" && !isEmail(v.email.value) ==> SubmitCheckIn(f, isEmail).None?)
      && (SubmitCheckIn(f, isEmail).Some? ==>
            var p := SubmitCheckIn(f, isEmail).value;
            && p.name == v.name && p.email == v.email.GetOr("") && p.phone == v.phone.GetOr("")
            && p.company == v.company.GetOr("") && p.hostName == OrElse(v.hostName, "Parent")
            && p.purpose == purpose)
      && (' ' !in v.name && SubmitCheckIn(f.(lastName := lastName), isEmail).Some? ==>
            SubmitCheckIn(f.(lastName := lastName), isEmail).value.name == v.name + " " + lastName)
  {
  }

  // ---------------------------------------------------------------------------
  // Cards and tables
  // ---------------------------------------------------------------------------

  datatype DashboardStats = DashboardStats(todaysVisits: nat, currentlyInside: nat, totalVisitors: nat, checkedOut: nat)

  /** The four cards. "Today's visits" and "total visitors" both show the
      length of the whole list; the other two split it into open and closed. */
  function Stats(visitors: seq<Visit>): (r: DashboardStats)
    ensures r.todaysVisits == r.totalVisitors == |visitors|
    ensures r.currentlyInside + r.checkedOut == r.totalVisitors
    ensures r.currentlyInside == |Filter(visitors, IsOpenVisit())|
    ensures r.checkedOut == |Filter(visitors, IsClosedVisit())|
  {
    OpenClosedPartition(visitors);
    DashboardStats(|visitors|, Count(visitors, IsOpenVisit()), |visitors|, Count(visitors, IsClosedVisit()))
  }

  /** One line of the active-visitors table. */
  datatype ActiveRow = ActiveRow(id: int, name: string, checkIn: Option<int>, purpose: string)

  function ActiveRowOf(v: Visit): ActiveRow {
    ActiveRow(v.id, v.name, v.checkIn, v.purpose)
  }

  function RowsOf(s: seq<Visit>): (r: seq<ActiveRow>)
    ensures |r| == |s|
    ensures forall i :: 0 <= i < |s| ==> r[i] == ActiveRowOf(s[i])
  {
    if |s| == 0 then [] else [ActiveRowOf(s[0])] + RowsOf(s[1..])
  }

  /** `activeVisitors`: a row for each open visit, in list order, as many as
      the "currently inside" card counts. */
  function ActiveVisitors(visitors: seq<Visit>): (r: seq<ActiveRow>)
    ensures |r| == Stats(visitors).currentlyInside
    ensures forall i :: 0 <= i < |r| ==> exists v :: v in visitors && IsOpen(v) && r[i] == ActiveRowOf(v)
    ensures forall v :: v in visitors && IsOpen(v) ==> ActiveRowOf(v) in r
  {
    var open := Filter(visitors, IsOpenVisit());
    var r := RowsOf(open);
    assert forall v :: v in open ==> ActiveRowOf(v) in r by {
      forall v | v in open ensures ActiveRowOf(v) in r {
        var i :| 0 <= i < |open| && open[i] == v;
        assert r[i] == ActiveRowOf(v);
      }
    }
    assert forall i :: 0 <= i < |r| ==> open[i] in open;
    r
  }

  /** The active list follows the order of the visitor list: a list's first
      visit heads its active rows exactly when it is open. */
  lemma ActiveVisitorsInListOrder(v: Visit, s: seq<Visit>)
    ensures ActiveVisitors([]) == []
    ensures ActiveVisitors([v] + s) == (if IsOpen(v) then [ActiveRowOf(v)] else []) + ActiveVisitors(s)
  {
    assert ([v] + s)[1..] == s;
    var head := if IsOpen(v) then [v] else [];
    assert Filter([v] + s, IsOpenVisit()) == head + Filter(s, IsOpenVisit());
    RowsAppend(head, Filter(s, IsOpenVisit()));
  }

  lemma RowsAppend(a: seq<Visit>, b: seq<Visit>)
    ensures RowsOf(a + b) == RowsOf(a) + RowsOf(b)
  {
    assert forall i :: 0 <= i < |a + b| ==> RowsOf(a + b)[i] == (RowsOf(a) + RowsOf(b))[i];
  }

  /** The check-in table shows the visits whose check-in falls on today's UTC
      date; a missing check-in is read as the epoch. */
  function CheckedInOn(cal: Calendar, day: string): Visit -> bool {
    (v: Visit) => DayKey(cal.utcDate(v.checkIn.GetOr(0))) == day
  }

  function TodaysVisits(visitors: seq<Visit>, cal: Calendar, now: int): (r: seq<Visit>)
    ensures forall v :: v in r <==> v in visitors && DayKey(cal.utcDate(v.checkIn.GetOr(0))) == DayKey(cal.utcDate(now))
    ensures |r| <= |visitors|
  {
    Filter(visitors, CheckedInOn(cal, DayKey(cal.utcDate(now))))
  }

  /** The contact cell: email, else phone, else a dash; never empty. */
  function ContactCell(v: Visit): (c: string)
    ensures c != ""
    ensures TruthyStr(v.email) ==> c == v.email.value
    ensures !TruthyStr(v.email) && TruthyStr(v.phone) ==> c == v.phone.value
    ensures !TruthyStr(v.email) && !TruthyStr(v.phone) ==> c == "-"
  {
    OrElse(v.email, OrElse(v.phone, "-"))
  }

  /** The status badge, which agrees with the open/closed partition. */
  function StatusCell(v: Visit): (c: string)
    ensures c == "Inside" <==> IsOpen(v)
    ensures c == "Checked Out" <==> IsClosed(v)
  {
    if v.checkOut.Some? then "Checked Out" else "Inside"
  }

  // ---------------------------------------------------------------------------
  // Page state transitions
  // ---------------------------------------------------------------------------

  datatype Page = Page(visitors: seq<Visit>, form: VisitorForm, showModal: bool, searchTerm: string)

  /** Selecting a search result fills the form, clears the search and opens the modal. */
  function OnSelect(pg: Page, v: Visit): (r: Page)
    ensures r.visitors == pg.visitors && r.showModal
    ensures r.searchTerm == "" && Search(r.visitors, r.searchTerm) == []
    ensures r.form == SelectVisitor(v)
  {
    assert AllSpace("", IsJsSpace);
    pg.(form := SelectVisitor(v), searchTerm := "", showModal := true)
  }

  /** A successful check-in: the returned visit goes first, the modal closes
      and the form resets. */
  function OnAdded(pg: Page, created: Visit): (r: Page)
    ensures |r.visitors| == |pg.visitors| + 1 && r.visitors[0] == created && r.visitors[1..] == pg.visitors
    ensures !r.showModal && r.form == EmptyForm && r.searchTerm == pg.searchTerm
  {
    pg.(visitors := [created] + pg.visitors, showModal := false, form := EmptyForm)
  }

  /** After a check-in of an open visit the cards move as expected: one more
      visit and one more visitor inside. */
  lemma AddedUpdatesStats(pg: Page, created: Visit)
    requires IsOpen(created)
    ensures var before, after := Stats(pg.visitors), Stats(OnAdded(pg, created).visitors);
      && after.totalVisitors == before.totalVisitors + 1
      && after.currentlyInside == before.currentlyInside + 1
      && after.checkedOut == before.checkedOut
  {
    var s := OnAdded(pg, created).visitors;
    assert s == [created] + pg.visitors;
    FilterAppend([created], pg.visitors, IsOpenVisit());
    FilterAppend([created], pg.visitors, IsClosedVisit());
  }

  // ---------------------------------------------------------------------------
  // Check-out
  // ---------------------------------------------------------------------------

  /** Every visit with the id replaced by `f` of itself, the rest untouched. */
  function ReplaceById(s: seq<Visit>, id: int, f: Visit -> Visit): (r: seq<Visit>)
    ensures |r| == |s|
    ensures forall i :: 0 <= i < |s| ==> r[i] == (if s[i].id == id then f(s[i]) else s[i])
  {
    if |s| == 0 then [] else [if s[0].id == id then f(s[0]) else s[0]] + ReplaceById(s[1..], id, f)
  }

  /** The visit as the server stores it after the check-out. */
  function Closed(now: int): Visit -> Visit {
    (v: Visit) => v.(checkOut := Some(now), updatedAt := Some(now))
  }

  /** `handleCheckout` with the closed visit put in place of the open one. */
  function HandleCheckout(visitors: seq<Visit>, id: int, now: int): (r: seq<Visit>)
    ensures |r| == |visitors|
    ensures forall i :: 0 <= i < |visitors| && visitors[i].id != id ==> r[i] == visitors[i]
    ensures forall i :: 0 <= i < |visitors| && visitors[i].id == id ==>
      IsClosed(r[i]) && r[i] == visitors[i].(checkOut := Some(now), updatedAt := Some(now))
  {
    ReplaceById(visitors, id, Closed(now))
  }

  /** Ids are unique in the list, as they are in the table it was read from. */
  predicate UniqueIds(s: seq<Visit>) {
    forall i, j :: 0 <= i < j < |s| ==> s[i].id != s[j].id
  }

  /** Checking out the one open visit with the id moves it from "currently
      inside" to "checked out"; the total is unchanged. */
  lemma CheckoutMovesOneVisitor(visitors: seq<Visit>, k: int, now: int)
    requires UniqueIds(visitors) && 0 <= k < |visitors| && IsOpen(visitors[k])
    ensures var before, after := Stats(visitors), Stats(HandleCheckout(visitors, visitors[k].id, now));
      && after.totalVisitors == before.totalVisitors
      && after.currentlyInside + 1 == before.currentlyInside
      && after.checkedOut == before.checkedOut + 1
  {
    var r := HandleCheckout(visitors, visitors[k].id, now);
    var front, back := visitors[..k], visitors[k + 1..];
    assert visitors == front + [visitors[k]] + back;
    CheckoutSplice(visitors, k, now);
    assert !IsOpen(r[k]) && !IsClosed(visitors[k]);
    CountReplace(front, visitors[k], r[k], back, IsOpenVisit());
    CountReplace(front, visitors[k], r[k], back, IsClosedVisit());
  }

  /** With unique ids, checking out one visit replaces it and nothing else. */
  lemma CheckoutSplice(visitors: seq<Visit>, k: int, now: int)
    requires UniqueIds(visitors) && 0 <= k < |visitors|
    ensures var r := HandleCheckout(visitors, visitors[k].id, now);
      r == visitors[..k] + [r[k]] + visitors[k + 1..]
  {
    var id := visitors[k].id;
    var r := HandleCheckout(visitors, id, now);
    forall i | 0 <= i < |r| ensures r[i] == (visitors[..k] + [r[k]] + visitors[k + 1..])[i] {
      if i < k {
        assert visitors[i].id != id;
      } else if i > k {
        assert visitors[k].id != visitors[i].id;
      }
    }
  }

  /** What the page holds in a list slot: a visit, or some other JSON object
      stored in its place. An object without `check_out_time` reads as open. */
  datatype Slot = VisitSlot(v: Visit) | MessageSlot(message: string)

  predicate SlotOpen(x: Slot) {
    x.MessageSlot? || IsOpen(x.v)
  }

  function SlotsInside(s: seq<Slot>): nat {
    if |s| == 0 then 0 else (if SlotOpen(s[0]) then 1 else 0) + SlotsInside(s[1..])
  }

  function InsideCount(s: seq<Visit>): nat {
    if |s| == 0 then 0 else (if IsOpen(s[0]) then 1 else 0) + InsideCount(s[1..])
  }

  /** `handleCheckout` as it is written against the Flask server: the reply
      is `{"message": ...}`, and it is stored in place of the visit. */
  function HandleCheckoutAsWritten(visitors: seq<Visit>, id: int, message: string): (r: seq<Slot>)
    ensures |r| == |visitors|
    ensures forall i :: 0 <= i < |visitors| ==>
      r[i] == (if visitors[i].id == id then MessageSlot(message) else VisitSlot(visitors[i]))
  {
    if |visitors| == 0 then []
    else [if visitors[0].id == id then MessageSlot(message) else VisitSlot(visitors[0])]
         + HandleCheckoutAsWritten(visitors[1..], id, message)
  }

  /** The visits with the id that were already closed. */
  function ClosedWithId(s: seq<Visit>, id: int): nat {
    if |s| == 0 then 0 else (if s[0].id == id && IsClosed(s[0]) then 1 else 0) + ClosedWithId(s[1..], id)
  }

  lemma {:induction false} SlotsInsideCount(visitors: seq<Visit>, id: int, message: string)
    ensures SlotsInside(HandleCheckoutAsWritten(visitors, id, message)) == InsideCount(visitors) + ClosedWithId(visitors, id)
  {
    if |visitors| > 0 {
      assert HandleCheckoutAsWritten(visitors, id, message)[1..] == HandleCheckoutAsWritten(visitors[1..], id, message);
      SlotsInsideCount(visitors[1..], id, message);
    }
  }

  lemma {:induction false} NoClosedWithId(s: seq<Visit>, id: int)
    requires forall i :: 0 <= i < |s| && s[i].id == id ==> IsOpen(s[i])
    ensures ClosedWithId(s, id) == 0
  {
    if |s| > 0 {
      assert forall i :: 0 <= i < |s| - 1 ==> s[1..][i] == s[i + 1];
      NoClosedWithId(s[1..], id);
    }
  }

  /** As written, checking out the open visit with the id leaves the
      "currently inside" count where it was, until the page reloads the list. */
  lemma CheckoutReplyKeepsVisitorInside(visitors: seq<Visit>, k: int, message: string)
    requires UniqueIds(visitors) && 0 <= k < |visitors| && IsOpen(visitors[k])
    ensures SlotsInside(HandleCheckoutAsWritten(visitors, visitors[k].id, message)) == InsideCount(visitors)
    ensures HandleCheckoutAsWritten(visitors, visitors[k].id, message)[k].MessageSlot?
  {
    SlotsInsideCount(visitors, visitors[k].id, message);
    NoClosedWithId(visitors, visitors[k].id);
  }

  /** With the closed visit put in its place, the count drops by one. */
  lemma InsideCountIsOpenCount(s: seq<Visit>)
    ensures InsideCount(s) == Count(s, IsOpenVisit())
  {
    if |s| > 0 {
      assert s == [s[0]] + s[1..];
      FilterAppend([s[0]], s[1..], IsOpenVisit());
      InsideCountIsOpenCount(s[1..]);
    }
  }

  lemma CheckoutLeavesInside(visitors: seq<Visit>, k: int, now: int)
    requires UniqueIds(visitors) && 0 <= k < |visitors| && IsOpen(visitors[k])
    ensures InsideCount(HandleCheckout(visitors, visitors[k].id, now)) + 1 == InsideCount(visitors)
  {
    CheckoutMovesOneVisitor(visitors, k, now);
    InsideCountIsOpenCount(visitors);
    InsideCountIsOpenCount(HandleCheckout(visitors, visitors[k].id, now));
  }
}
