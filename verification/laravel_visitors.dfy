/** The Laravel variant of the visitor backend: the `Visitor` model with its
    eight fillable fields, datetime casts and soft deletes, and the controller's
    store, show, index, check-out, destroy and CSV report. Compared with the
    Flask server it validates more on create, overwrites on check-out and only
    marks rows deleted. */
module LaravelVisitors {
  import opened Common
  import opened Strings
  import opened Visits
  import FlaskVisitors

  /** A row of the `visitors` table; `deletedAt` is the SoftDeletes column. */
  datatype Row = Row(visit: Visit, deletedAt: Option<int>)

  datatype Store = Store(rows: map<int, Row>, nextId: int)

  predicate Valid(st: Store) {
    && (forall id :: id in st.rows ==> st.rows[id].visit.id == id && 0 < id < st.nextId)
    && st.nextId > 0
  }

  /** The row exists and is not soft-deleted: what `findOrFail` and every
      model query can see. */
  predicate Live(st: Store, id: int) {
    id in st.rows && st.rows[id].deletedAt.None?
  }

  /** The visits the model's queries see, by id. */
  function LiveRows(st: Store): (m: map<int, Visit>)
    ensures forall id :: id in m <==> Live(st, id)
    ensures forall id :: id in m ==> id in st.rows && m[id] == st.rows[id].visit
  {
    map id | id in st.rows && st.rows[id].deletedAt.None? :: st.rows[id].visit
  }

  /** The table and the answer; `errors` names the request keys that failed
      validation, in rule order. */
  datatype Outcome = Outcome(store: Store, status: Status, visit: Option<Visit>, errors: seq<RuleKey>)

  // ---------------------------------------------------------------------------
  // Validation rules
  // ---------------------------------------------------------------------------

  /** Missing, null, or a string of PHP white space only. Laravel's
      `required` rejects such a value, and every other rule of this controller
      skips it. */
  predicate Blank(f: Field) {
    f.Absent? || f.Null? || (f.Str? && AllSpace(f.s, IsPhpSpace))
  }

  /** Blank strings are the ones PHP's `trim` empties, which is how the
      framework tests them. */
  lemma BlankIsTrimEmpty(f: Field)
    requires f.Str?
    ensures Blank(f) <==> Trim(f.s, IsPhpSpace) == ""
  {
    TrimEmptyIffAllSpace(f.s, IsPhpSpace);
  }

  /** `required|string|max:n`. */
  predicate RequiredFails(f: Field, n: nat) {
    Blank(f) || |f.s| > n
  }

  /** `nullable|string|max:n`. */
  predicate OptionalFails(f: Field, n: nat) {
    !Blank(f) && |f.s| > n
  }

  /** `nullable|email|max:255`; the address check is the framework's. */
  predicate EmailFails(f: Field, isEmail: string -> bool) {
    !Blank(f) && (!isEmail(f.s) || |f.s| > 255)
  }

  /** A request key with validation rules. */
  datatype RuleKey = NameKey | EmailKey | PhoneKey | PurposeKey | HostNameKey | CompanyKey | CheckOutKey {
    /** The key as it appears in the request and in the error bag. */
    function Text(): string {
      match this
      case NameKey => "name"
      case EmailKey => "email"
      case PhoneKey => "phone"
      case PurposeKey => "purpose"
      case HostNameKey => "host_name"
      case CompanyKey => "company"
      case CheckOutKey => "check_out_time"
    }
  }

  /** The rules of `key` reject the request. */
  predicate KeyFails(req: VisitRequest, key: RuleKey, isEmail: string -> bool) {
    match key
    case NameKey => RequiredFails(req.name, 255)
    case EmailKey => EmailFails(req.email, isEmail)
    case PhoneKey => RequiredFails(req.phone, 20)
    case PurposeKey => RequiredFails(req.purpose, 255)
    case HostNameKey => OptionalFails(req.hostName, 255)
    case CompanyKey => OptionalFails(req.company, 255)
    case CheckOutKey => req.checkOut.InvalidDate?
  }

  /** The keys of a create request that fail their rules, in rule order. */
  function CreateErrors(req: VisitRequest, isEmail: string -> bool): (errs: seq<RuleKey>)
    ensures forall k :: k in errs <==> KeyFails(req, k, isEmail)
  {
    (if KeyFails(req, NameKey, isEmail) then [NameKey] else [])
    + (if KeyFails(req, EmailKey, isEmail) then [EmailKey] else [])
    + (if KeyFails(req, PhoneKey, isEmail) then [PhoneKey] else [])
    + (if KeyFails(req, PurposeKey, isEmail) then [PurposeKey] else [])
    + (if KeyFails(req, HostNameKey, isEmail) then [HostNameKey] else [])
    + (if KeyFails(req, CompanyKey, isEmail) then [CompanyKey] else [])
    + (if KeyFails(req, CheckOutKey, isEmail) then [CheckOutKey] else [])
  }

  /** No error means every field passed: the required ones are non-blank
      strings within their limits. */
  lemma NoErrorsMeansValid(req: VisitRequest, isEmail: string -> bool)
    requires CreateErrors(req, isEmail) == []
    ensures req.name.Str? && req.phone.Str? && req.purpose.Str?
    ensures |req.name.s| <= 255 && |req.phone.s| <= 20 && |req.purpose.s| <= 255
    ensures !req.checkOut.InvalidDate?
  {
    assert !KeyFails(req, NameKey, isEmail) && !KeyFails(req, PhoneKey, isEmail);
    assert !KeyFails(req, PurposeKey, isEmail) && !KeyFails(req, CheckOutKey, isEmail);
  }

  /** The instant a validated `check_out_time` denotes, if one was sent. */
  function DateValue(d: DateField): Option<int> {
    match d
    case ValidDate(t) => Some(t)
    case _ => None
  }

  // ---------------------------------------------------------------------------
  // Controller actions
  // ---------------------------------------------------------------------------

  /** `store`: validate, fill the model from the validated keys, set the
      check-in time to now and save. Any failing key answers 422 and saves
      nothing. A valid `check_out_time` is kept, so a visit may be created closed. */
  function StoreVisitor(st: Store, req: VisitRequest, now: int, isEmail: string -> bool): (r: Outcome)
    ensures r.status == Created <==> CreateErrors(req, isEmail) == []
    ensures r.status != Created ==>
      r == Outcome(st, Unprocessable, None, CreateErrors(req, isEmail)) && r.errors != []
    ensures r.status == Created ==>
      && r.visit.Some? && r.errors == []
      && var v := r.visit.value;
      && v.checkIn == Some(now)
      && v.checkOut == DateValue(req.checkOut)
      && v.name == req.name.s && v.phone == Some(req.phone.s) && v.purpose == req.purpose.s
      && |v.name| <= 255 && |req.phone.s| <= 20 && |v.purpose| <= 255
      && Live(r.store, v.id) && r.store.rows[v.id].visit == v
    ensures r.status == Created && Valid(st) ==>
      && r.visit.value.id !in st.rows
      && r.store.rows.Keys == st.rows.Keys + {r.visit.value.id}
      && (forall id :: id in st.rows ==> r.store.rows[id] == st.rows[id])
  {
    var errs := CreateErrors(req, isEmail);
    if errs != [] then Outcome(st, Unprocessable, None, errs)
    else
      NoErrorsMeansValid(req, isEmail);
      var v := Visit(st.nextId, req.name.s, req.email.Value(), Some(req.phone.s), req.purpose.s,
                     Some(now), DateValue(req.checkOut), req.hostName.Value(), req.company.Value(),
                     Some(now), Some(now));
      Outcome(Store(st.rows[st.nextId := Row(v, None)], st.nextId + 1), Created, Some(v), [])
  }

  /** `show`: a missing or soft-deleted id answers 404. */
  function ShowVisitor(st: Store, id: int): (r: FlaskVisitors.Reply)
    ensures r.status == Ok <==> Live(st, id)
    ensures r.status == Ok ==> r.visit == Some(st.rows[id].visit)
    ensures r.status != Ok ==> r == FlaskVisitors.Reply(NotFound, None)
  {
    if Live(st, id) then FlaskVisitors.Reply(Ok, Some(st.rows[id].visit))
    else FlaskVisitors.Reply(NotFound, None)
  }

  /** `updateCheckout`: the lookup comes first, and its not-found exception is
      caught by the generic handler (500). Then `check_out_time` is validated
      (422). The check-out time becomes the sent date, or now, whether or not
      the visit was already closed. `updated_at` moves only when the value changes. */
  function UpdateCheckout(st: Store, id: int, checkOut: DateField, now: int): (r: Outcome)
    ensures !Live(st, id) ==> r == Outcome(st, ServerError, None, [])
    ensures Live(st, id) && checkOut.InvalidDate? ==> r == Outcome(st, Unprocessable, None, [CheckOutKey])
    ensures r.status == Ok <==> Live(st, id) && !checkOut.InvalidDate?
    ensures r.status == Ok ==>
      && var t := DateValue(checkOut).GetOr(now);
      && r.store.rows.Keys == st.rows.Keys && r.store.nextId == st.nextId
      && Live(r.store, id)
      && r.store.rows[id].visit == st.rows[id].visit.(checkOut := Some(t), updatedAt := r.store.rows[id].visit.updatedAt)
      && r.visit == Some(r.store.rows[id].visit)
      && (forall k :: k in st.rows && k != id ==> r.store.rows[k] == st.rows[k])
  {
    if !Live(st, id) then Outcome(st, ServerError, None, [])
    else if checkOut.InvalidDate? then Outcome(st, Unprocessable, None, [CheckOutKey])
    else
      var v := st.rows[id].visit;
      var t := DateValue(checkOut).GetOr(now);
      var v' := v.(checkOut := Some(t), updatedAt := if v.checkOut == Some(t) then v.updatedAt else Some(now));
      Outcome(st.(rows := st.rows[id := Row(v', None)]), Ok, Some(v'), [])
  }

  /** `destroy`: a missing or already deleted id answers 500. Otherwise the row
      is kept and stamped with `deleted_at` (and `updated_at`). */
  function DestroyVisitor(st: Store, id: int, now: int): (r: Outcome)
    ensures r.status == Ok <==> Live(st, id)
    ensures r.status != Ok ==> r == Outcome(st, ServerError, None, [])
    ensures r.status == Ok ==>
      && r.store.rows.Keys == st.rows.Keys && r.store.nextId == st.nextId
      && r.store.rows[id] == Row(st.rows[id].visit.(updatedAt := Some(now)), Some(now))
      && (forall k :: k in st.rows && k != id ==> r.store.rows[k] == st.rows[k])
  {
    if !Live(st, id) then Outcome(st, ServerError, None, [])
    else Outcome(st.(rows := st.rows[id := Row(st.rows[id].visit.(updatedAt := Some(now)), Some(now))]), Ok, None, [])
  }

  /** `index`: the live visits, latest check-in first. */
  method IndexVisitors(st: Store) returns (r: seq<Visit>)
    requires Valid(st)
    ensures SortedByCheckInDesc(r)
    ensures |r| == |LiveRows(st)|
    ensures forall i :: 0 <= i < |r| ==> Live(st, r[i].id) && st.rows[r[i].id].visit == r[i]
    ensures forall id :: Live(st, id) ==> st.rows[id].visit in r
  {
    var live := LiveRows(st);
    r := ListByCheckInDesc(live);
  }

  // ---------------------------------------------------------------------------
  // CSV report
  // ---------------------------------------------------------------------------

  const ReportHeader: seq<string> :=
    ["Name", "Email", "Phone", "Purpose", "Check-In Time", "Check-Out Time", "Host Name", "Company"]

  /** A timestamp cell: `format('Y-m-d H:i:s')`, or '' when absent. */
  function TimeCell(t: Option<int>, cal: Calendar): string {
    match t
    case Some(x) => cal.dateTimeText(x)
    case None => ""
  }

  /** One data row; `fputcsv` writes a null field as an empty one. */
  function ReportRow(v: Visit, cal: Calendar): (r: seq<string>)
    ensures |r| == |ReportHeader|
  {
    [v.name, v.email.GetOr(""), v.phone.GetOr(""), v.purpose,
     TimeCell(v.checkIn, cal), TimeCell(v.checkOut, cal), v.hostName.GetOr(""), v.company.GetOr("")]
  }

  /** `report`: the header and one row per live visit, in index order. */
  method Report(st: Store, cal: Calendar) returns (header: seq<string>, rows: seq<seq<string>>, order: seq<Visit>)
    requires Valid(st)
    ensures header == ReportHeader
    ensures SortedByCheckInDesc(order) && |rows| == |order| == |LiveRows(st)|
    ensures forall id :: Live(st, id) ==> st.rows[id].visit in order
    ensures forall i :: 0 <= i < |order| ==> Live(st, order[i].id) && st.rows[order[i].id].visit == order[i]
    ensures forall i :: 0 <= i < |rows| ==> |rows[i]| == |header| && rows[i] == ReportRow(order[i], cal)
  {
    order := IndexVisitors(st);
    header := ReportHeader;
    rows := [];
    var i := 0;
    while i < |order|
      invariant 0 <= i <= |order| && |rows| == i
      invariant forall j :: 0 <= j < i ==> rows[j] == ReportRow(order[j], cal)
    {
      rows := rows + [ReportRow(order[i], cal)];
      i := i + 1;
    }
  }

  /** The cells under each header: the stored text, '' for a missing optional
      value, and the formatted instant or '' for the two times. */
  lemma ReportRowCells(v: Visit, cal: Calendar)
    ensures var r := ReportRow(v, cal);
      && r[0] == v.name && r[3] == v.purpose
      && (v.email.Some? ==> r[1] == v.email.value) && (v.email.None? ==> r[1] == "")
      && (v.checkIn.Some? ==> r[4] == cal.dateTimeText(v.checkIn.value)) && (v.checkIn.None? ==> r[4] == "")
      && (v.checkOut.Some? ==> r[5] == cal.dateTimeText(v.checkOut.value)) && (v.checkOut.None? ==> r[5] == "")
      && (v.phone.Some? ==> r[2] == v.phone.value) && (v.phone.None? ==> r[2] == "")
      && (v.hostName.Some? ==> r[6] == v.hostName.value) && (v.hostName.None? ==> r[6] == "")
      && (v.company.Some? ==> r[7] == v.company.value) && (v.company.None? ==> r[7] == "")
  {
  }

  // ---------------------------------------------------------------------------
  // Properties
  // ---------------------------------------------------------------------------

  /** Creating a visit keeps rows under their ids. */
  lemma StorePreservesValid(st: Store, req: VisitRequest, now: int, isEmail: string -> bool)
    requires Valid(st)
    ensures Valid(StoreVisitor(st, req, now, isEmail).store)
  {
  }

  /** Check-out and destroy keep rows under their ids. */
  lemma UpdatesPreserveValid(st: Store, id: int, d: DateField, now: int)
    requires Valid(st)
    ensures Valid(UpdateCheckout(st, id, d, now).store)
    ensures Valid(DestroyVisitor(st, id, now).store)
  {
  }

  /** The check-in time is the server's clock whatever the client sends; the
      created visit is visible to `show`, and it is closed exactly when a
      valid check-out time was sent. */
  lemma StoreThenShow(st: Store, req: VisitRequest, now: int, isEmail: string -> bool, sent: DateField)
    requires CreateErrors(req, isEmail) == []
    ensures var r := StoreVisitor(st, req, now, isEmail);
      && StoreVisitor(st, req.(checkIn := sent), now, isEmail) == r
      && ShowVisitor(r.store, r.visit.value.id) == FlaskVisitors.Reply(Ok, r.visit)
      && (IsClosed(r.visit.value) <==> req.checkOut.ValidDate?)
  {
  }

  /** Check-out has no open-state guard: checking out twice succeeds twice and
      the second time wins. */
  lemma CheckoutOverwrites(st: Store, id: int, t1: int, t2: int)
    requires Live(st, id)
    ensures var first := UpdateCheckout(st, id, NoDate, t1);
      && first.status == Ok
      && var second := UpdateCheckout(first.store, id, NoDate, t2);
      && second.status == Ok
      && second.store.rows[id].visit.checkOut == Some(t2)
  {
  }

  /** A destroyed visit stays in the table but disappears from `show`,
      `index` and `report`, and a second destroy or a check-out answers 500. */
  lemma DestroyIsSoft(st: Store, id: int, now: int)
    requires Live(st, id)
    ensures var d := DestroyVisitor(st, id, now).store;
      && id in d.rows && d.rows[id].deletedAt == Some(now)
      && d.rows[id].visit.checkOut == st.rows[id].visit.checkOut
      && LiveRows(d).Keys == LiveRows(st).Keys - {id}
      && ShowVisitor(d, id).status == NotFound
      && UpdateCheckout(d, id, NoDate, now).status == ServerError
      && DestroyVisitor(d, id, now).status == ServerError
  {
  }

  // ---------------------------------------------------------------------------
  // The two backends side by side
  // ---------------------------------------------------------------------------

  /** The same visits in the Laravel table, none of them deleted. */
  function FromFlask(st: FlaskVisitors.Store): (r: Store)
    ensures r.rows.Keys == st.rows.Keys
    ensures forall id :: id in st.rows ==> Live(r, id) && r.rows[id].visit == st.rows[id]
  {
    Store(map id | id in st.rows :: Row(st.rows[id], None), st.nextId)
  }

  /** On an open visit both check-outs close it at the given time. On a
      closed one Flask answers 404 and changes nothing, while Laravel answers
      200 and replaces the earlier check-out time. On an unknown id Flask
      answers 404 and Laravel 500. */
  lemma CheckoutDivergence(st: FlaskVisitors.Store, id: int, t: int)
    ensures var f := FlaskVisitors.CheckoutVisitor(st, id, t);
      var l := UpdateCheckout(FromFlask(st), id, NoDate, t);
      && (id in st.rows && IsOpen(st.rows[id]) ==>
            f.status == Ok && l.status == Ok
            && f.store.rows[id].checkOut == l.store.rows[id].visit.checkOut == Some(t))
      && (id in st.rows && IsClosed(st.rows[id]) ==>
            f == FlaskVisitors.Outcome(st, NotFound, None)
            && l.status == Ok && l.store.rows[id].visit.checkOut == Some(t))
      && (id !in st.rows ==> f.status == NotFound && l.status == ServerError)
  {
  }

  /** Flask's delete erases the row; Laravel's keeps it and only hides it.
      Both make the id invisible to later look-ups. */
  lemma DeleteDivergence(st: FlaskVisitors.Store, id: int, now: int)
    requires id in st.rows
    ensures FlaskVisitors.DeleteVisitor(st, id).store.rows.Keys == st.rows.Keys - {id}
    ensures var l := DestroyVisitor(FromFlask(st), id, now).store;
      && l.rows.Keys == st.rows.Keys
      && LiveRows(l).Keys == st.rows.Keys - {id}
  {
    var l := DestroyVisitor(FromFlask(st), id, now).store;
    assert LiveRows(FromFlask(st)).Keys == st.rows.Keys;
  }
}
