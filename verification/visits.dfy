/** The visit record shared by both backends and the web client: one row of the
    `visitors` table, its open/closed state, the request body that creates one,
    and the `ORDER BY check_in_time DESC` listing both backends serve. */
module Visits {
  import opened Common
  import opened Seqs

  /** One visit. Instants are milliseconds; `checkOut == None` means the visitor is
      still inside. `name` and `purpose` are NOT NULL columns. */
  datatype Visit = Visit(
    id: int,
    name: string,
    email: Option<string>,
    phone: Option<string>,
    purpose: string,
    checkIn: Option<int>,
    checkOut: Option<int>,
    hostName: Option<string>,
    company: Option<string>,
    createdAt: Option<int>,
    updatedAt: Option<int>)

  /** The visitor is still inside: no check-out time. */
  predicate IsOpen(v: Visit) {
    v.checkOut.None?
  }

  /** The visit has been closed by a check-out. */
  predicate IsClosed(v: Visit) {
    v.checkOut.Some?
  }

  /** `v => !v.check_out_time`, for filtering. */
  function IsOpenVisit(): Visit -> bool {
    (v: Visit) => IsOpen(v)
  }

  /** `v => v.check_out_time`, for filtering. */
  function IsClosedVisit(): Visit -> bool {
    (v: Visit) => IsClosed(v)
  }

  /** Every visit is open or closed and not both, so the two counts add up to
      the length of the list. */
  lemma OpenClosedPartition(s: seq<Visit>)
    ensures |s| == Count(s, IsOpenVisit()) + Count(s, IsClosedVisit())
  {
    FilterAll(s, (v: Visit) => true);
    CountPartition(s, (v: Visit) => true, IsOpenVisit(), IsClosedVisit());
  }

  /** A date-valued request key after the framework's `date` rule: missing or
      null, a parseable date, or a string that is not a date. */
  datatype DateField = NoDate | ValidDate(at: int) | InvalidDate

  /** The JSON body of a create-visit request. `checkIn` and `checkOut` are
      accepted from the client but only Laravel reads `check_out_time`. */
  datatype VisitRequest = VisitRequest(
    name: Field,
    email: Field,
    phone: Field,
    purpose: Field,
    hostName: Field,
    company: Field,
    checkIn: DateField,
    checkOut: DateField)

  // ---------------------------------------------------------------------------
  // ORDER BY check_in_time DESC
  // ---------------------------------------------------------------------------

  /** `a` may be listed before `b` when sorting by check-in time, latest first;
      a missing check-in time sorts lowest, as in SQLite. */
  predicate CheckInAtLeast(a: Visit, b: Visit) {
    match (a.checkIn, b.checkIn)
    case (Some(x), Some(y)) => x >= y
    case (Some(_), None) => true
    case (None, None) => true
    case (None, Some(_)) => false
  }

  predicate SortedByCheckInDesc(s: seq<Visit>) {
    forall i, j :: 0 <= i < j < |s| ==> CheckInAtLeast(s[i], s[j])
  }

  lemma CheckInAtLeastTotal(a: Visit, b: Visit)
    ensures CheckInAtLeast(a, b) || CheckInAtLeast(b, a)
  {
  }

  lemma CheckInAtLeastTransitive(a: Visit, b: Visit, c: Visit)
    requires CheckInAtLeast(a, b) && CheckInAtLeast(b, c)
    ensures CheckInAtLeast(a, c)
  {
  }

  /** Inserts `v` before the first element it is not later than. */
  function InsertByCheckIn(s: seq<Visit>, v: Visit): (r: seq<Visit>)
    ensures multiset(r) == multiset(s) + multiset{v}
    ensures |r| == |s| + 1
    ensures forall x :: x in r <==> x in s || x == v
  {
    if |s| == 0 then [v]
    else if CheckInAtLeast(v, s[0]) then [v] + s
    else
      assert s == [s[0]] + s[1..];
      [s[0]] + InsertByCheckIn(s[1..], v)
  }

  /** Insertion keeps a latest-first list sorted. */
  lemma {:induction false} InsertByCheckInSorted(s: seq<Visit>, v: Visit)
    requires SortedByCheckInDesc(s)
    ensures SortedByCheckInDesc(InsertByCheckIn(s, v))
  {
    if |s| == 0 {
    } else if CheckInAtLeast(v, s[0]) {
      var r := [v] + s;
      forall i, j | 0 <= i < j < |r| ensures CheckInAtLeast(r[i], r[j]) {
        if i == 0 && j > 1 {
          CheckInAtLeastTransitive(v, s[0], s[j - 1]);
        }
      }
    } else {
      CheckInAtLeastTotal(v, s[0]);
      InsertByCheckInSorted(s[1..], v);
      var rest := InsertByCheckIn(s[1..], v);
      var r := [s[0]] + rest;
      forall i, j | 0 <= i < j < |r| ensures CheckInAtLeast(r[i], r[j]) {
        if i == 0 {
          assert r[j] in rest;
          assert r[j] in s[1..] || r[j] == v;
        }
      }
    }
  }

  /** The rows of a table keyed by their ids. */
  predicate KeyedById(rows: map<int, Visit>) {
    forall id :: id in rows ==> rows[id].id == id
  }

  lemma NonEmptyHasElement(keys: set<int>)
    requires keys != {}
    ensures exists k :: k in keys
  {
    if forall k :: k !in keys {
      assert false;
    }
  }

  /** Some element of a non-empty set of keys. */
  method PickKey(keys: set<int>) returns (k: int)
    requires keys != {}
    ensures k in keys
  {
    NonEmptyHasElement(keys);
    k :| k in keys;
  }

  /** `r` lists exactly the rows whose ids are in `done`, latest check-in first. */
  predicate Listing(rows: map<int, Visit>, done: set<int>, r: seq<Visit>) {
    && SortedByCheckInDesc(r)
    && |r| == |done|
    && (forall x :: x in r ==> x.id in done && x.id in rows && rows[x.id] == x)
    && (forall id :: id in done && id in rows ==> rows[id] in r)
  }

  /** Inserting the row of a key still to do extends the listing by its id. */
  lemma InsertExtendsListing(rows: map<int, Visit>, todo: set<int>, r: seq<Visit>, k: int)
    requires KeyedById(rows) && todo <= rows.Keys && k in todo
    requires Listing(rows, rows.Keys - todo, r)
    ensures Listing(rows, rows.Keys - (todo - {k}), InsertByCheckIn(r, rows[k]))
  {
    InsertByCheckInSorted(r, rows[k]);
    assert rows.Keys - (todo - {k}) == (rows.Keys - todo) + {k};
    assert |(rows.Keys - todo) + {k}| == |rows.Keys - todo| + 1;
  }

  /** A listing of every key gives the method's postconditions. */
  lemma ListingComplete(rows: map<int, Visit>, r: seq<Visit>)
    requires Listing(rows, rows.Keys, r)
    ensures |r| == |rows|
    ensures forall i :: 0 <= i < |r| ==> r[i].id in rows && rows[r[i].id] == r[i]
    ensures forall id :: id in rows ==> rows[id] in r
  {
    assert forall i :: 0 <= i < |r| ==> r[i] in r;
  }

  /** Every row of the table exactly once, latest check-in first: the result of
      `SELECT * FROM visitors ORDER BY check_in_time DESC`. Rows with equal
      check-in times may come in any order. */
  method ListByCheckInDesc(rows: map<int, Visit>) returns (r: seq<Visit>)
    requires KeyedById(rows)
    ensures SortedByCheckInDesc(r)
    ensures |r| == |rows|
    ensures forall i :: 0 <= i < |r| ==> r[i].id in rows && rows[r[i].id] == r[i]
    ensures forall id :: id in rows ==> rows[id] in r
  {
    r := [];
    var todo := rows.Keys;
    while todo != {}
      invariant todo <= rows.Keys
      invariant Listing(rows, rows.Keys - todo, r)
      decreases todo
    {
      var k := PickKey(todo);
      InsertExtendsListing(rows, todo, r, k);
      r := InsertByCheckIn(r, rows[k]);
      todo := todo - {k};
    }
    assert rows.Keys - todo == rows.Keys;
    ListingComplete(rows, r);
  }
}
