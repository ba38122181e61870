/** The request paths the web client's API wrappers build, and how the Flask
    server reads them back: the report download with its optional date range,
    and the per-record checkout, delete and status-toggle paths. Paths are
    relative to the API base URL. */
module ApiPaths {
  import opened Common
  import opened Strings
  import opened FlaskReport

  /** The base URL: the build's `VITE_API_BASE_URL` when set and non-empty,
      else the local Flask server on port 8000. */
  function BaseUrl(configured: Option<string>): (url: string)
    ensures TruthyStr(configured) ==> url == configured.value
    ensures !TruthyStr(configured) ==> url == "http://localhost:8000/api"
  {
    OrElse(configured, "http://localhost:8000/api")
  }

  // ---------------------------------------------------------------------------
  // Report download
  // ---------------------------------------------------------------------------

  /** How a JavaScript argument is rendered into a template literal: a
      missing argument takes the parameter's default, `null` becomes "null". */
  function ArgText(a: Field, default: string): (t: string)
    ensures a.Absent? ==> t == default
    ensures a.Null? ==> t == "null"
    ensures a.Str? ==> t == a.s
  {
    match a
    case Absent => default
    case Null => "null"
    case Str(s) => s
  }

  /** One `key=value` pair of a query string. */
  function Pair(key: string, value: string): string {
    key + "=" + value
  }

  /** `downloadVisitorReport(format = 'csv', startDate = null, endDate = null)`'s
      URL: the format, then each date that is given, as `&key=value`. */
  function ReportUrl(format: Field, startDate: Field, endDate: Field): string {
    "/visitors/report?" + Pair("format", ArgText(format, "csv"))
      + Amp(DatePair("start_date", startDate)) + Amp(DatePair("end_date", endDate))
  }

  /** The pair a date adds to the query, if it is given. */
  function DatePair(key: string, date: Field): Option<string> {
    if date.Truthy() then Some(Pair(key, date.s)) else None
  }

  /** The pairs of the query, in the order they are appended. */
  function QueryPairs(format: Field, startDate: Field, endDate: Field): (pairs: seq<string>)
    ensures |pairs| >= 1
  {
    [Pair("format", ArgText(format, "csv"))] + Opt(DatePair("start_date", startDate)) + Opt(DatePair("end_date", endDate))
  }

  lemma JoinTwo(a: string, b: string, sep: char)
    ensures Join([a, b], sep) == a + [sep] + b
  {
    assert [a, b][1..] == [b];
  }

  lemma JoinThree(a: string, b: string, c: string, sep: char)
    ensures Join([a, b, c], sep) == a + [sep] + b + [sep] + c
  {
    assert [a, b, c][1..] == [b, c];
    JoinTwo(b, c, sep);
  }

  lemma Assoc(a: string, b: string, c: string)
    ensures a + b + c == a + (b + c)
  {
  }

  /** The pairs an optional pair contributes. */
  function Opt(o: Option<string>): seq<string> {
    if o.Some? then [o.value] else []
  }

  /** The text an optional pair appends to a URL: `url += `&${pair}`` when
      the pair is there, nothing otherwise. */
  function Amp(o: Option<string>): string {
    if o.Some? then "&" + o.value else ""
  }

  /** Appending optional pairs after '&' is joining them all with '&'. */
  lemma AppendOptional(f: string, st: Option<string>, en: Option<string>)
    ensures f + Amp(st) + Amp(en) == Join([f] + Opt(st) + Opt(en), '&')
  {
    if st.Some? && en.Some? {
      assert [f] + Opt(st) + Opt(en) == [f, st.value, en.value];
      JoinThree(f, st.value, en.value, '&');
    } else if st.Some? {
      assert [f] + Opt(st) + Opt(en) == [f, st.value];
      JoinTwo(f, st.value, '&');
    } else if en.Some? {
      assert [f] + Opt(st) + Opt(en) == [f, en.value];
      JoinTwo(f, en.value, '&');
    } else {
      assert [f] + Opt(st) + Opt(en) == [f];
    }
  }

  /** The URL is the report path, a '?', and the pairs joined by '&'. */
  lemma ReportUrlShape(format: Field, startDate: Field, endDate: Field)
    ensures ReportUrl(format, startDate, endDate) == "/visitors/report?" + Join(QueryPairs(format, startDate, endDate), '&')
  {
    var f := Pair("format", ArgText(format, "csv"));
    var st, en := DatePair("start_date", startDate), DatePair("end_date", endDate);
    Assoc("/visitors/report?", f, Amp(st));
    Assoc("/visitors/report?", f + Amp(st), Amp(en));
    AppendOptional(f, st, en);
  }

  /** The query the server parses: the pairs after the first '?', split on '&'. */
  function QueryOf(url: string): seq<string> {
    var parts := Split(url, '?');
    if |parts| < 2 then [] else Split(Join(parts[1..], '?'), '&')
  }

  /** `request.args.get(key)`: the value of the first pair whose name is `key`,
      the name ending at the pair's first '='. */
  function Lookup(pairs: seq<string>, key: string): Option<string> {
    if |pairs| == 0 then None
    else
      var kv := Split(pairs[0], '=');
      if kv[0] == key then Some(Join(kv[1..], '=')) else Lookup(pairs[1..], key)
  }

  /** A pair reads back as its key and value. */
  lemma PairReadsBack(key: string, value: string)
    requires '=' !in key
    ensures Split(Pair(key, value), '=')[0] == key
    ensures Join(Split(Pair(key, value), '=')[1..], '=') == value
  {
    SplitAtSeparator(key, value, '=');
    assert Pair(key, value) == key + ['='] + value;
    JoinSplit(value, '=');
  }

  /** Looking a name up in a query that starts with a pair: that pair's value
      if the names agree, else the rest of the query's answer. */
  lemma LookupCons(key: string, value: string, rest: seq<string>, name: string)
    requires '=' !in key
    ensures Lookup([Pair(key, value)] + rest, name) == if name == key then Some(value) else Lookup(rest, name)
  {
    PairReadsBack(key, value);
    assert ([Pair(key, value)] + rest)[1..] == rest;
  }

  /** Text that reads back unchanged from an unescaped query: no '&', which
      separates pairs; no '%' or '+', which the server decodes as an escape
      and as a space; and no '#', which ends the URL before the query does.
      A '?' or '=' inside a value is harmless: the query starts at the first
      '?' and a value runs past the pair's first '='. */
  predicate QuerySafe(s: string) {
    '&' !in s && '%' !in s && '+' !in s && '#' !in s
  }

  /** A pair of query-safe texts is query-safe. */
  lemma PairSafe(key: string, value: string)
    requires QuerySafe(key) && QuerySafe(value)
    ensures QuerySafe(Pair(key, value))
  {
    assert Pair(key, value) == key + ['='] + value;
  }

  /** Every pair of the report query is query-safe when the values are. */
  lemma QueryPairsSafe(format: Field, startDate: Field, endDate: Field)
    requires QuerySafe(ArgText(format, "csv"))
    requires startDate.Str? ==> QuerySafe(startDate.s)
    requires endDate.Str? ==> QuerySafe(endDate.s)
    ensures forall i :: 0 <= i < |QueryPairs(format, startDate, endDate)| ==> QuerySafe(QueryPairs(format, startDate, endDate)[i])
  {
    assert QuerySafe("format") && QuerySafe("start_date") && QuerySafe("end_date");
    PairSafe("format", ArgText(format, "csv"));
    var st, en := Opt(DatePair("start_date", startDate)), Opt(DatePair("end_date", endDate));
    if startDate.Truthy() {
      PairSafe("start_date", startDate.s);
    }
    if endDate.Truthy() {
      PairSafe("end_date", endDate.s);
    }
    var q := QueryPairs(format, startDate, endDate);
    forall i | 0 <= i < |q| ensures QuerySafe(q[i]) {
      if i == 0 {
      } else if i < 1 + |st| {
        assert q[i] == st[i - 1];
      } else {
        assert q[i] == en[i - 1 - |st|];
      }
    }
  }

  /** The server parses the pairs back out of the URL. */
  lemma QueryOfReportUrl(format: Field, startDate: Field, endDate: Field)
    requires QuerySafe(ArgText(format, "csv"))
    requires startDate.Str? ==> QuerySafe(startDate.s)
    requires endDate.Str? ==> QuerySafe(endDate.s)
    ensures QueryOf(ReportUrl(format, startDate, endDate)) == QueryPairs(format, startDate, endDate)
  {
    var pairs := QueryPairs(format, startDate, endDate);
    var query := Join(pairs, '&');
    var url := ReportUrl(format, startDate, endDate);
    ReportUrlShape(format, startDate, endDate);
    assert url == "/visitors/report" + ['?'] + query;
    SplitAtSeparator("/visitors/report", query, '?');
    var parts := Split(url, '?');
    assert parts[1..] == Split(query, '?');
    JoinSplit(query, '?');
    QueryPairsSafe(format, startDate, endDate);
    SplitJoin(pairs, '&');
  }

  /** Looking a name up past an optional date pair. */
  lemma LookupDatePair(key: string, date: Field, rest: seq<string>, name: string)
    requires '=' !in key
    ensures Lookup(Opt(DatePair(key, date)) + rest, name)
      == if date.Truthy() && name == key then Some(date.s) else Lookup(rest, name)
  {
    if date.Truthy() {
      LookupCons(key, date.s, rest, name);
    } else {
      assert Opt(DatePair(key, date)) + rest == rest;
    }
  }

  /** What the server finds under any name in the report's query: the
      format, each date that was given, and nothing else. */
  lemma LookupReportPairs(format: Field, startDate: Field, endDate: Field, name: string)
    ensures Lookup(QueryPairs(format, startDate, endDate), name) ==
      if name == "format" then Some(ArgText(format, "csv"))
      else if name == "start_date" && startDate.Truthy() then Some(startDate.s)
      else if name == "end_date" && endDate.Truthy() then Some(endDate.s)
      else None
  {
    var f := ArgText(format, "csv");
    var st, en := Opt(DatePair("start_date", startDate)), Opt(DatePair("end_date", endDate));
    assert '=' !in "format" && '=' !in "start_date" && '=' !in "end_date";
    assert "format" != "start_date" && "format" != "end_date" && "start_date" != "end_date";
    assert QueryPairs(format, startDate, endDate) == [Pair("format", f)] + (st + (en + [])) by {
      assert en + [] == en;
    }
    LookupCons("format", f, st + (en + []), name);
    LookupDatePair("start_date", startDate, en + [], name);
    LookupDatePair("end_date", endDate, [], name);
  }

  /** The server reads back what the client put in the URL: the format (or
      its default), and each date exactly when one was given. */
  lemma ReportQueryRoundTrip(format: Field, startDate: Field, endDate: Field)
    requires QuerySafe(ArgText(format, "csv"))
    requires startDate.Str? ==> QuerySafe(startDate.s)
    requires endDate.Str? ==> QuerySafe(endDate.s)
    ensures var q := QueryOf(ReportUrl(format, startDate, endDate));
      && Lookup(q, "format") == Some(ArgText(format, "csv"))
      && Lookup(q, "start_date") == (if startDate.Truthy() then Some(startDate.s) else None)
      && Lookup(q, "end_date") == (if endDate.Truthy() then Some(endDate.s) else None)
  {
    QueryOfReportUrl(format, startDate, endDate);
    LookupReportPairs(format, startDate, endDate, "format");
    LookupReportPairs(format, startDate, endDate, "start_date");
    LookupReportPairs(format, startDate, endDate, "end_date");
  }

  /** The file the server renders for the page's request: the format it was
      asked for, CSV when none was given. The date range is sent but not read:
      the export always holds every visit. */
  lemma ServerSeesFormat(format: Field)
    requires QuerySafe(ArgText(format, "csv"))
    ensures FormatOf(Lookup(QueryOf(ReportUrl(format, Absent, Absent)), "format")) == FormatOf(Some(ArgText(format, "csv")))
    ensures format.Absent? || format.Null? ==> FormatOf(Lookup(QueryOf(ReportUrl(format, Absent, Absent)), "format")) == Csv
  {
    ReportQueryRoundTrip(format, Absent, Absent);
    assert Lower("null") == "null";
  }

  // ---------------------------------------------------------------------------
  // Per-record paths
  // ---------------------------------------------------------------------------

  /** `/<collection>/<id>`, followed by `/<action>` when there is one: the
      shape of every per-record path in the client's API wrappers. */
  function IdPath(collection: string, id: int, action: Option<string>): string {
    "/" + collection + "/" + IntToString(id) + (if action.Some? then "/" + action.value else "")
  }

  /** `checkoutVisitor(id)`. */
  function CheckoutPath(id: int): string {
    IdPath("visitors", id, Some("checkout"))
  }

  /** `deleteVisitor(id)`. */
  function DeleteVisitorPath(id: int): string {
    IdPath("visitors", id, None)
  }

  /** `toggleUserStatus(id)`. */
  function TogglePath(id: int): string {
    IdPath("users", id, Some("toggle-status"))
  }

  /** `updateUser(id)` and `deleteUser(id)`. */
  function UserPath(id: int): string {
    IdPath("users", id, None)
  }

  /** A non-empty run of decimal digits, as Flask's `<int:...>` accepts. */
  predicate Digits(s: string) {
    |s| > 0 && forall i :: 0 <= i < |s| ==> IsDigit(s[i])
  }

  /** The id a path of the form `/<collection>/<id>` or
      `/<collection>/<id>/<action>` carries, if it has that form. */
  function MatchId(path: string, collection: string, action: Option<string>): Option<nat> {
    var segs := Split(path, '/');
    var n := if action.Some? then 4 else 3;
    if |segs| == n && segs[0] == "" && segs[1] == collection && Digits(segs[2])
       && (action.Some? ==> segs[3] == action.value)
    then Some(ParseNat(segs[2]))
    else None
  }

  lemma DigitsHaveNoSlash(s: string)
    requires forall i :: 0 <= i < |s| ==> IsDigit(s[i])
    ensures '/' !in s
  {
    assert forall i :: 0 <= i < |s| ==> s[i] != '/';
  }

  /** The text after the id: `/<action>`, or nothing. */
  function ActionSuffix(action: Option<string>): string {
    if action.Some? then "/" + action.value else ""
  }

  lemma JoinCons(a: string, rest: seq<string>, sep: char)
    requires |rest| > 0
    ensures Join([a] + rest, sep) == a + [sep] + Join(rest, sep)
  {
    assert ([a] + rest)[1..] == rest;
  }

  /** The id and the optional action, joined by '/'. */
  lemma JoinAction(t: string, action: Option<string>)
    ensures Join([t] + Opt(action), '/') == t + ActionSuffix(action)
  {
    if action.Some? {
      JoinCons(t, [action.value], '/');
    }
  }

  /** A per-record path is its segments joined by '/'. */
  lemma IdPathJoin(collection: string, t: string, action: Option<string>)
    ensures Join(["", collection, t] + Opt(action), '/') == "/" + collection + "/" + t + ActionSuffix(action)
  {
    var tail := [t] + Opt(action);
    var suffix := ActionSuffix(action);
    JoinAction(t, action);
    JoinCons(collection, tail, '/');
    JoinCons("", [collection] + tail, '/');
    assert ["", collection, t] + Opt(action) == [""] + ([collection] + tail);
    assert "" + ['/'] == "/";
    Assoc("/", collection + "/", t + suffix);
    Assoc(collection, "/", t + suffix);
    Assoc("/" + collection, "/", t + suffix);
    Assoc("/" + collection + "/", t, suffix);
  }

  /** The segments of a per-record path: an empty one before the leading
      '/', the collection, the id and the action if any. */
  lemma IdPathSegments(collection: string, id: nat, action: Option<string>)
    requires '/' !in collection && (action.Some? ==> '/' !in action.value)
    ensures Split(IdPath(collection, id, action), '/') == ["", collection, NatToString(id)] + Opt(action)
  {
    var t := NatToString(id);
    DigitsHaveNoSlash(t);
    IdPathJoin(collection, t, action);
    var pieces := ["", collection, t] + Opt(action);
    assert IdPath(collection, id, action) == "/" + collection + "/" + t + ActionSuffix(action);
    assert forall i :: 0 <= i < |pieces| ==> '/' !in pieces[i];
    SplitJoin(pieces, '/');
  }

  /** The server finds in a per-record path the id the client put there, and
      a path with an action does not match the route without one, nor the
      other way round. */
  lemma IdPathRoundTrip(collection: string, id: nat, action: Option<string>, other: Option<string>)
    requires '/' !in collection && (action.Some? ==> '/' !in action.value)
    ensures MatchId(IdPath(collection, id, action), collection, action) == Some(id)
    ensures other.Some? != action.Some? ==> MatchId(IdPath(collection, id, action), collection, other).None?
  {
    IdPathSegments(collection, id, action);
    ParseNatToString(id);
  }

  /** Each wrapper's path reaches its Flask route with the same id. */
  lemma PathsRoundTrip(id: nat)
    ensures MatchId(CheckoutPath(id), "visitors", Some("checkout")) == Some(id)
    ensures MatchId(DeleteVisitorPath(id), "visitors", None) == Some(id)
    ensures MatchId(TogglePath(id), "users", Some("toggle-status")) == Some(id)
    ensures MatchId(UserPath(id), "users", None) == Some(id)
    ensures MatchId(CheckoutPath(id), "visitors", None).None?
    ensures MatchId(TogglePath(id), "users", None).None?
  {
    assert '/' !in "visitors" && '/' !in "users" && '/' !in "checkout" && '/' !in "toggle-status";
    IdPathRoundTrip("visitors", id, Some("checkout"), None);
    IdPathRoundTrip("visitors", id, None, None);
    IdPathRoundTrip("users", id, Some("toggle-status"), None);
    IdPathRoundTrip("users", id, None, None);
  }

  /** The report's path is not taken for a visit id: `report` is not a number. */
  lemma ReportIsNotAnId()
    ensures MatchId("/visitors/report", "visitors", None).None?
  {
    var pieces := ["", "visitors", "report"];
    assert pieces[1..] == ["visitors", "report"] && pieces[1..][1..] == ["report"];
    assert Join(pieces, '/') == "/visitors/report";
    assert '/' !in "visitors" && '/' !in "report";
    SplitJoin(pieces, '/');
    assert !IsDigit('r');
  }
}
