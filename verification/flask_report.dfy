/** The rows of the Flask server's visitor export (GET /api/visitors/report):
    the requested format, the eleven-column data rows shared by CSV and Excel,
    and the nine truncated columns of the PDF table. Rendering the file is out
    of scope; the model stops at the header and the cell strings. */
module FlaskReport {
  import opened Common
  import opened Strings
  import opened Visits
  import opened FlaskVisitors

  datatype ExportFormat = Csv | Excel | Pdf

  /** `request.args.get('format', 'csv').lower()`; anything other than "excel"
      or "pdf" is exported as CSV. */
  function FormatOf(arg: Option<string>): (f: ExportFormat)
    ensures f == Excel <==> Lower(arg.GetOr("csv")) == "excel"
    ensures f == Pdf <==> Lower(arg.GetOr("csv")) == "pdf"
    ensures arg.None? ==> f == Csv
  {
    var name := Lower(arg.GetOr("csv"));
    if name == "excel" then Excel else if name == "pdf" then Pdf else Csv
  }

  const Columns: seq<string> :=
    ["ID", "Name", "Email", "Phone", "Purpose", "Check-in", "Check-out", "Host", "Company", "Created", "Updated"]

  /** `value or ""` for an optional text column. */
  function TextCell(o: Option<string>): string {
    o.GetOr("")
  }

  /** `value or ""` for an optional timestamp column. */
  function StampCell(t: Option<int>, cal: Calendar): string {
    match t
    case Some(x) => cal.sqlText(x)
    case None => ""
  }

  /** One entry of `data`, in column order. */
  function DataRow(v: Visit, cal: Calendar): (r: seq<string>)
    ensures |r| == |Columns|
  {
    [IntToString(v.id), v.name, TextCell(v.email), TextCell(v.phone), v.purpose,
     StampCell(v.checkIn, cal), StampCell(v.checkOut, cal), TextCell(v.hostName),
     TextCell(v.company), StampCell(v.createdAt, cal), StampCell(v.updatedAt, cal)]
  }

  /** One PDF table row built from a data row: the first nine columns, with the
      name and email cut to 20 characters, the times to 16 and host and company to 15. */
  function PdfRow(d: seq<string>): (r: seq<string>)
    requires |d| == |Columns|
    ensures |r| == 9
  {
    [d[0], Take(d[1], 20), Take(d[2], 20), d[3], d[4], Take(d[5], 16),
     if d[6] != "" then Take(d[6], 16) else "", Take(d[7], 15), Take(d[8], 15)]
  }

  /** The row written for one visit in the given format. */
  function RowFor(f: ExportFormat, v: Visit, cal: Calendar): seq<string> {
    if f == Pdf then PdfRow(DataRow(v, cal)) else DataRow(v, cal)
  }

  function HeaderFor(f: ExportFormat): seq<string> {
    if f == Pdf then Columns[..9] else Columns
  }

  /** A header and its rows, ready to be rendered. */
  datatype Export = Export(format: ExportFormat, header: seq<string>, rows: seq<seq<string>>)

  /** GET /api/visitors/report. An empty table answers 404; otherwise one row
      per stored visit, latest check-in first, in the requested format. */
  method DownloadReport(st: Store, arg: Option<string>, cal: Calendar)
      returns (status: Status, report: Option<Export>, order: seq<Visit>)
    requires Valid(st)
    ensures status == NotFound <==> |st.rows| == 0
    ensures status != NotFound ==> status == Ok
    ensures status == NotFound ==> report.None?
    ensures status == Ok ==>
      && report.Some?
      && report.value.format == FormatOf(arg)
      && report.value.header == HeaderFor(FormatOf(arg))
      && SortedByCheckInDesc(order)
      && |order| == |report.value.rows| == |st.rows|
      && (forall id :: id in st.rows ==> st.rows[id] in order)
      && (forall i :: 0 <= i < |order| ==> order[i].id in st.rows && st.rows[order[i].id] == order[i])
      && (forall i :: 0 <= i < |order| ==> report.value.rows[i] == RowFor(FormatOf(arg), order[i], cal))
  {
    order := ListByCheckInDesc(st.rows);
    if |order| == 0 {
      return NotFound, None, order;
    }
    var f := FormatOf(arg);
    var rows: seq<seq<string>> := [];
    var i := 0;
    while i < |order|
      invariant 0 <= i <= |order| && |rows| == i
      invariant forall j :: 0 <= j < i ==> rows[j] == RowFor(f, order[j], cal)
    {
      rows := rows + [RowFor(f, order[i], cal)];
      i := i + 1;
    }
    status, report := Ok, Some(Export(f, HeaderFor(f), rows));
  }

  /** What a row holds: every row is as wide as its header, and the CSV and
      Excel rows carry the stored values with null optional columns as "". */
  lemma RowCells(f: ExportFormat, v: Visit, cal: Calendar)
    ensures |RowFor(f, v, cal)| == |HeaderFor(f)|
    ensures var r := RowFor(f, v, cal);
      && (f != Pdf ==> r[1] == v.name && r[4] == v.purpose)
      && (v.email.None? ==> r[2] == "") && (v.phone.None? ==> r[3] == "")
      && (v.hostName.None? ==> r[7] == "") && (v.company.None? ==> r[8] == "")
      && (v.checkOut.None? ==> r[6] == "")
  {
    var d := DataRow(v, cal);
    assert HeaderFor(f) == if f == Pdf then Columns[..9] else Columns;
    if f == Pdf {
      assert Take("", 20) == "" && Take("", 15) == "";
    }
  }

  /** The first cell is the id in decimal, with a '-' before a negative one. */
  lemma RowIdCell(f: ExportFormat, v: Visit, cal: Calendar)
    ensures var c := RowFor(f, v, cal)[0];
      ParseNat(if v.id < 0 then c[1..] else c) == (if v.id < 0 then -v.id else v.id)
  {
    assert RowFor(f, v, cal)[0] == IntToString(v.id);
    if v.id < 0 {
      ParseNatToString(-v.id);
      assert ("-" + NatToString(-v.id))[1..] == NatToString(-v.id);
    } else {
      ParseNatToString(v.id);
    }
  }

  /** The PDF cells are prefixes of the full cells, no longer than their limits. */
  lemma PdfCells(v: Visit, cal: Calendar)
    ensures var r := RowFor(Pdf, v, cal);
      && |r[1]| <= 20 && r[1] <= v.name
      && |r[2]| <= 20 && r[2] <= TextCell(v.email)
      && |r[7]| <= 15 && r[7] <= TextCell(v.hostName)
      && |r[8]| <= 15 && r[8] <= TextCell(v.company)
      && r[3] == TextCell(v.phone) && r[4] == v.purpose
  {
  }
}
