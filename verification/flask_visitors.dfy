/** The visitor endpoints of the Flask server: create, fetch, list, one-shot
    check-out, hard delete. The `visitors` table is a map from primary key to row
    plus the AUTOINCREMENT counter; `now` is the database's CURRENT_TIMESTAMP. */
module FlaskVisitors {
  import opened Common
  import opened Visits

  /** The `visitors` table. */
  datatype Store = Store(rows: map<int, Visit>, nextId: int)

  /** Every row sits under its own id; ids are positive and below the
      AUTOINCREMENT counter, so a fresh id never collides with a stored or
      deleted one. */
  predicate Valid(st: Store) {
    && KeyedById(st.rows)
    && (forall id :: id in st.rows ==> 0 < id < st.nextId)
    && st.nextId > 0
  }

  /** The table and the answer after a request that may write. */
  datatype Outcome = Outcome(store: Store, status: Status, visit: Option<Visit>)

  /** The answer to a read-only request. */
  datatype Reply = Reply(status: Status, visit: Option<Visit>)

  /** The row INSERT builds from a request: only the six client columns are
      taken; check-in, created and updated default to CURRENT_TIMESTAMP and
      check-out to NULL, whatever times the client sent. */
  function NewRow(id: int, req: VisitRequest, now: int): Visit
    requires req.name.Str? && req.purpose.Str?
  {
    Visit(id, req.name.s, req.email.Value(), req.phone.Value(), req.purpose.s,
          Some(now), None, req.hostName.Value(), req.company.Value(), Some(now), Some(now))
  }

  /** The request carries the two required keys with non-empty values. */
  predicate AcceptsCreate(body: Option<VisitRequest>) {
    body.Some? && body.value.name.Truthy() && body.value.purpose.Truthy()
  }

  /** POST /api/visitors. `body` is None when the request is not JSON or empty. */
  function CreateVisitor(st: Store, body: Option<VisitRequest>, now: int): (r: Outcome)
    ensures !AcceptsCreate(body) ==> r == Outcome(st, BadRequest, None)
    ensures AcceptsCreate(body) ==>
      && r.status == Created
      && r.visit.Some?
      && IsOpen(r.visit.value)
      && r.visit.value.checkIn == Some(now)
      && r.visit.value.name == body.value.name.s
      && r.visit.value.purpose == body.value.purpose.s
      && r.visit.value.id in r.store.rows
      && r.store.rows[r.visit.value.id] == r.visit.value
    ensures AcceptsCreate(body) && Valid(st) ==>
      && r.visit.value.id !in st.rows
      && r.store.rows.Keys == st.rows.Keys + {r.visit.value.id}
      && (forall id :: id in st.rows ==> r.store.rows[id] == st.rows[id])
  {
    if !AcceptsCreate(body) then Outcome(st, BadRequest, None)
    else
      var v := NewRow(st.nextId, body.value, now);
      Outcome(Store(st.rows[st.nextId := v], st.nextId + 1), Created, Some(v))
  }

  /** GET /api/visitors/{id}. */
  function GetVisitor(st: Store, id: int): (r: Reply)
    ensures r.status == Ok <==> id in st.rows
    ensures r.status == Ok ==> r.visit == Some(st.rows[id])
    ensures r.status != Ok ==> r == Reply(NotFound, None)
  {
    if id in st.rows then Reply(Ok, Some(st.rows[id])) else Reply(NotFound, None)
  }

  /** POST /api/visitors/{id}/checkout: `UPDATE ... WHERE id = ? AND
      check_out_time IS NULL`. Only an existing open visit is closed; an
      unknown id and an already closed visit both answer 404 and change nothing. */
  function CheckoutVisitor(st: Store, id: int, now: int): (r: Outcome)
    ensures r.status == Ok <==> id in st.rows && IsOpen(st.rows[id])
    ensures r.status == Ok ==>
      && r.store.rows.Keys == st.rows.Keys
      && IsClosed(r.store.rows[id])
      && r.store.rows[id] == st.rows[id].(checkOut := Some(now), updatedAt := Some(now))
      && (forall k :: k in st.rows && k != id ==> r.store.rows[k] == st.rows[k])
      && r.store.nextId == st.nextId
    ensures r.status != Ok ==> r == Outcome(st, NotFound, None)
  {
    if id in st.rows && IsOpen(st.rows[id]) then
      var v := st.rows[id].(checkOut := Some(now), updatedAt := Some(now));
      Outcome(st.(rows := st.rows[id := v]), Ok, None)
    else
      Outcome(st, NotFound, None)
  }

  /** DELETE /api/visitors/{id}: the row is physically removed. */
  function DeleteVisitor(st: Store, id: int): (r: Outcome)
    ensures r.status == Ok <==> id in st.rows
    ensures r.status == Ok ==> r.store == Store(st.rows - {id}, st.nextId) && id !in r.store.rows
    ensures r.status != Ok ==> r == Outcome(st, NotFound, None)
  {
    if id in st.rows then Outcome(Store(st.rows - {id}, st.nextId), Ok, None)
    else Outcome(st, NotFound, None)
  }

  /** A row as `get_visitors` serialises it: timestamps become text. */
  datatype VisitJson = VisitJson(
    id: int, name: string, email: Option<string>, phone: Option<string>, purpose: string,
    checkInTime: Option<string>, checkOutTime: Option<string>,
    hostName: Option<string>, company: Option<string>,
    createdAt: Option<string>, updatedAt: Option<string>)

  /** A stored timestamp in the listing: the stored text with "Z" appended, or null. */
  function Stamp(t: Option<int>, cal: Calendar): Option<string> {
    match t
    case Some(x) => Some(cal.sqlText(x) + "Z")
    case None => None
  }

  function ToJson(v: Visit, cal: Calendar): VisitJson {
    VisitJson(v.id, v.name, v.email, v.phone, v.purpose, Stamp(v.checkIn, cal), Stamp(v.checkOut, cal),
              v.hostName, v.company, Stamp(v.createdAt, cal), Stamp(v.updatedAt, cal))
  }

  /** GET /api/visitors: every row once, latest check-in first, each serialised
      with its timestamps marked as UTC ("Z") and absent timestamps as null. */
  method GetVisitors(st: Store, cal: Calendar) returns (rows: seq<Visit>, body: seq<VisitJson>)
    requires Valid(st)
    ensures SortedByCheckInDesc(rows)
    ensures |rows| == |st.rows| && |body| == |rows|
    ensures forall id :: id in st.rows ==> st.rows[id] in rows
    ensures forall i :: 0 <= i < |rows| ==> rows[i].id in st.rows && st.rows[rows[i].id] == rows[i]
    ensures forall i :: 0 <= i < |body| ==>
      && body[i].id == rows[i].id && body[i].name == rows[i].name && body[i].purpose == rows[i].purpose
      && (body[i].checkInTime.Some? <==> rows[i].checkIn.Some?)
      && (body[i].checkOutTime.Some? <==> rows[i].checkOut.Some?)
      && (rows[i].checkIn.Some? ==> body[i].checkInTime.value == cal.sqlText(rows[i].checkIn.value) + "Z")
      && (rows[i].checkOut.Some? ==> body[i].checkOutTime.value == cal.sqlText(rows[i].checkOut.value) + "Z")
  {
    rows := ListByCheckInDesc(st.rows);
    body := [];
    var i := 0;
    while i < |rows|
      invariant 0 <= i <= |rows| && |body| == i
      invariant forall j :: 0 <= j < i ==> body[j] == ToJson(rows[j], cal)
    {
      body := body + [ToJson(rows[i], cal)];
      i := i + 1;
    }
  }

  // ---------------------------------------------------------------------------
  // Properties relating several requests
  // ---------------------------------------------------------------------------

  /** Every writing endpoint keeps the table well formed. */
  lemma OperationsPreserveValid(st: Store, body: Option<VisitRequest>, id: int, now: int)
    requires Valid(st)
    ensures Valid(CreateVisitor(st, body, now).store)
    ensures Valid(CheckoutVisitor(st, id, now).store)
    ensures Valid(DeleteVisitor(st, id).store)
  {
  }

  /** A created visit can be fetched, is open, and its check-in time is the
      server's clock regardless of the times the client sent. */
  lemma CreateThenGet(st: Store, body: Option<VisitRequest>, now: int, in': DateField, out: DateField)
    requires AcceptsCreate(body)
    ensures var r := CreateVisitor(st, body, now);
      && GetVisitor(r.store, r.visit.value.id) == Reply(Ok, r.visit)
      && IsOpen(r.visit.value)
      && CreateVisitor(st, Some(body.value.(checkIn := in', checkOut := out)), now) == r
  {
  }

  /** The newest row with the given name and purpose: what the create endpoint's
      `SELECT ... WHERE name = ? AND purpose = ? ORDER BY id DESC LIMIT 1` returns. */
  predicate IsLatestMatch(rows: map<int, Visit>, id: int, name: string, purpose: string) {
    && id in rows && rows[id].name == name && rows[id].purpose == purpose
    && forall k :: k in rows && rows[k].name == name && rows[k].purpose == purpose ==> k <= id
  }

  /** Re-selecting by name and purpose after the insert finds the inserted row,
      so answering with the new row is what the endpoint does. */
  lemma CreateReselectsNewRow(st: Store, body: Option<VisitRequest>, now: int)
    requires Valid(st) && AcceptsCreate(body)
    ensures var r := CreateVisitor(st, body, now);
      IsLatestMatch(r.store.rows, r.visit.value.id, body.value.name.s, body.value.purpose.s)
  {
  }

  /** Check-out is one-shot: after a successful check-out the visit is closed
      and a second check-out answers 404 and leaves the table as it is. */
  lemma CheckoutIsOneShot(st: Store, id: int, t1: int, t2: int)
    requires id in st.rows && IsOpen(st.rows[id])
    ensures var first := CheckoutVisitor(st, id, t1);
      && first.status == Ok
      && first.store.rows[id].checkOut == Some(t1)
      && CheckoutVisitor(first.store, id, t2) == Outcome(first.store, NotFound, None)
  {
  }

  /** After a delete the id is unknown to fetch, check-out and delete, and a
      later create never reuses it. */
  lemma DeleteIsFinal(st: Store, id: int, body: Option<VisitRequest>, now: int)
    requires Valid(st) && id in st.rows && AcceptsCreate(body)
    ensures var d := DeleteVisitor(st, id).store;
      && GetVisitor(d, id) == Reply(NotFound, None)
      && CheckoutVisitor(d, id, now).status == NotFound
      && DeleteVisitor(d, id).status == NotFound
      && CreateVisitor(d, body, now).visit.value.id != id
  {
  }
}
