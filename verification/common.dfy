/** Vocabulary shared by every part of the visitor tracker model: optional values,
    the HTTP status codes the two backends answer with, the presence states of a
    key in a JSON request body, and the platform date functions the model takes as
    parameters instead of defining them. */
module Common {
  import opened Dates

  /** A value that may be missing: SQL NULL, JSON null, a JavaScript `undefined`. */
  datatype Option<+T> = None | Some(value: T) {

    /** The value, or `default` when there is none. */
    function GetOr(default: T): T {
      match this
      case Some(v) => v
      case None => default
    }
  }

  /** The HTTP statuses used by the Flask server and the Laravel controller. */
  datatype Status =
    | Ok             // 200
    | Created        // 201
    | BadRequest     // 400
    | Unauthorized   // 401
    | Forbidden      // 403
    | NotFound       // 404
    | Unprocessable  // 422
    | ServerError    // 500
  {
    function Code(): int {
      match this
      case Ok => 200
      case Created => 201
      case BadRequest => 400
      case Unauthorized => 401
      case Forbidden => 403
      case NotFound => 404
      case Unprocessable => 422
      case ServerError => 500
    }
  }

  /** One key of a JSON request body: left out, sent as `null`, or sent as a string. */
  datatype Field = Absent | Null | Str(s: string) {

    /** Python's `if data.get(key)` and JavaScript's `if (value)`: a non-empty string. */
    predicate Truthy() {
      Str? && s != ""
    }

    /** The key occurs in the body (Python's `key in data`), even with a null value. */
    predicate Present() {
      !Absent?
    }

    /** Python's `data.get(key)`: the string, or None for a missing or null key. */
    function Value(): Option<string> {
      match this
      case Str(v) => Some(v)
      case _ => None
    }

    /** Python's `data.get(key, default)`: the default only replaces a MISSING key;
        an explicit null stays None. */
    function GetOr(default: string): Option<string> {
      match this
      case Absent => Some(default)
      case Null => None
      case Str(v) => Some(v)
    }
  }

  /** JavaScript truthiness of an optional string: present and non-empty. */
  predicate TruthyStr(o: Option<string>) {
    o.Some? && o.value != ""
  }

  /** JavaScript's `o || fallback` for an optional string. */
  function OrElse(o: Option<string>, fallback: string): string {
    if TruthyStr(o) then o.value else fallback
  }

  /** The date functions of the host platform, which depend on time zone and
      calendar rules and are therefore parameters of the model. Instants are
      integers (milliseconds since the epoch). */
  datatype Calendar = Calendar(
    utcDate: int -> CivilDate,         // the UTC calendar date of an instant
    localDate: int -> CivilDate,       // the local calendar date of an instant
    daysBefore: (int, int) -> int,     // `setDate(getDate() - n)` applied to an instant
    monthsBefore: (int, int) -> int,   // `setMonth(getMonth() - n)` applied to an instant
    yearsBefore: (int, int) -> int,    // `setFullYear(getFullYear() - n)` applied to an instant
    dateTimeText: int -> string,       // Carbon's `format('Y-m-d H:i:s')`
    sqlText: int -> string             // the text SQLite stores for a DATETIME instant
  )

  /** The browser's check of an `<input type="email">` on submit: an empty
      field passes (unless it is also `required`), and any other value must
      be a valid e-mail address. The address grammar of the HTML standard is
      the parameter `isEmail`. */
  predicate EmailInputAccepts(value: string, isEmail: string -> bool) {
    value == "" || isEmail(value)
  }
}
