/** The settings page: the organisation preferences edited field by field, the
    client-side checks that gate a password change, and the file name of a
    report download. */
module Settings {
  import opened Common
  import opened Strings
  import opened Dates
  import opened FlaskReport

  /** The preferences object the page edits. */
  datatype Preferences = Preferences(
    organizationName: string, email: string, phone: string,
    pushNotifications: bool, emailNotifications: bool, autoCheckout: bool,
    requireEmail: bool, requireOrganization: bool)

  /** The state the page starts from (and keeps when loading the settings fails). */
  const Defaults := Preferences("", "", "", false, false, false, false, false)

  datatype TextSetting = OrganizationName | ContactEmail | ContactPhone
  datatype FlagSetting = PushNotifications | EmailNotifications | AutoCheckout | RequireEmail | RequireOrganization

  function Text(p: Preferences, f: TextSetting): string {
    match f
    case OrganizationName => p.organizationName
    case ContactEmail => p.email
    case ContactPhone => p.phone
  }

  function Flag(p: Preferences, f: FlagSetting): bool {
    match f
    case PushNotifications => p.pushNotifications
    case EmailNotifications => p.emailNotifications
    case AutoCheckout => p.autoCheckout
    case RequireEmail => p.requireEmail
    case RequireOrganization => p.requireOrganization
  }

  /** `handleInputChange`: the named text field takes the value; nothing else changes. */
  function SetText(p: Preferences, f: TextSetting, value: string): (r: Preferences)
    ensures Text(r, f) == value
    ensures forall g :: g != f ==> Text(r, g) == Text(p, g)
    ensures forall g :: Flag(r, g) == Flag(p, g)
  {
    match f
    case OrganizationName => p.(organizationName := value)
    case ContactEmail => p.(email := value)
    case ContactPhone => p.(phone := value)
  }

  /** `handleToggle`: the named switch flips; nothing else changes. */
  function Toggle(p: Preferences, f: FlagSetting): (r: Preferences)
    ensures Flag(r, f) == !Flag(p, f)
    ensures forall g :: g != f ==> Flag(r, g) == Flag(p, g)
    ensures forall g :: Text(r, g) == Text(p, g)
  {
    match f
    case PushNotifications => p.(pushNotifications := !p.pushNotifications)
    case EmailNotifications => p.(emailNotifications := !p.emailNotifications)
    case AutoCheckout => p.(autoCheckout := !p.autoCheckout)
    case RequireEmail => p.(requireEmail := !p.requireEmail)
    case RequireOrganization => p.(requireOrganization := !p.requireOrganization)
  }

  /** Preferences are determined by their fields. */
  lemma Extensionality(p: Preferences, q: Preferences)
    requires forall f :: Text(p, f) == Text(q, f)
    requires forall f :: Flag(p, f) == Flag(q, f)
    ensures p == q
  {
    assert Text(p, OrganizationName) == Text(q, OrganizationName);
    assert Text(p, ContactEmail) == Text(q, ContactEmail);
    assert Text(p, ContactPhone) == Text(q, ContactPhone);
    assert Flag(p, PushNotifications) == Flag(q, PushNotifications);
    assert Flag(p, EmailNotifications) == Flag(q, EmailNotifications);
    assert Flag(p, AutoCheckout) == Flag(q, AutoCheckout);
    assert Flag(p, RequireEmail) == Flag(q, RequireEmail);
    assert Flag(p, RequireOrganization) == Flag(q, RequireOrganization);
  }

  /** Toggling a switch twice restores the preferences. */
  lemma ToggleTwice(p: Preferences, f: FlagSetting)
    ensures Toggle(Toggle(p, f), f) == p
  {
    Extensionality(Toggle(Toggle(p, f), f), p);
  }

  /** A later edit of the same field wins. */
  lemma SetTextOverwrites(p: Preferences, f: TextSetting, a: string, b: string)
    ensures SetText(SetText(p, f, a), f, b) == SetText(p, f, b)
  {
    Extensionality(SetText(SetText(p, f, a), f, b), SetText(p, f, b));
  }

  /** Edits of different fields commute. */
  lemma SetTextCommutes(p: Preferences, f: TextSetting, g: TextSetting, a: string, b: string)
    requires f != g
    ensures SetText(SetText(p, f, a), g, b) == SetText(SetText(p, g, b), f, a)
  {
    Extensionality(SetText(SetText(p, f, a), g, b), SetText(SetText(p, g, b), f, a));
  }

  // ---------------------------------------------------------------------------
  // Password change
  // ---------------------------------------------------------------------------

  datatype PasswordForm = PasswordForm(currentPassword: string, newPassword: string, confirmPassword: string)

  /** What a submit does: show an error without contacting the server, or post
      the change-password request. */
  datatype PasswordSubmit =
    | Rejected(error: string)
    | Send(userId: string, oldPassword: string, newPassword: string)

  const MismatchError := "New passwords don't match"
  const TooShortError := "New password must be at least 6 characters"
  const NoUserError := "User ID not found. Please log in again."

  /** `submitPasswordChange`: the confirmation is checked first, then the
      length, then the stored user id; only when all three pass is a request
      sent, carrying the stored id and the typed passwords. */
  function SubmitPasswordChange(form: PasswordForm, storedUserId: Option<string>): (r: PasswordSubmit)
    ensures r == Rejected(MismatchError) <==> form.newPassword != form.confirmPassword
    ensures r == Rejected(TooShortError) <==> form.newPassword == form.confirmPassword && |form.newPassword| < 6
    ensures r == Rejected(NoUserError) <==>
      form.newPassword == form.confirmPassword && |form.newPassword| >= 6 && !TruthyStr(storedUserId)
    ensures r.Send? <==>
      form.newPassword == form.confirmPassword && |form.newPassword| >= 6 && TruthyStr(storedUserId)
    ensures r.Send? ==>
      r.userId == storedUserId.value && r.oldPassword == form.currentPassword && r.newPassword == form.newPassword
  {
    if form.newPassword != form.confirmPassword then Rejected(MismatchError)
    else if |form.newPassword| < 6 then Rejected(TooShortError)
    else if !TruthyStr(storedUserId) then Rejected(NoUserError)
    else Send(storedUserId.value, form.currentPassword, form.newPassword)
  }

  /** The browser's constraint validation of the password form: all three
      inputs are `required`. */
  predicate PasswordSubmittable(form: PasswordForm) {
    form.currentPassword != "" && form.newPassword != "" && form.confirmPassword != ""
  }

  /** A press of "Update Password": nothing when the browser blocks the
      submit, otherwise what `submitPasswordChange` does. A request is sent
      exactly when the current password is typed, the new one is typed twice
      alike with at least six characters, and a user id is stored; the length
      error is shown only for a new password of one to five characters. */
  function SubmitPasswordForm(form: PasswordForm, storedUserId: Option<string>): (r: Option<PasswordSubmit>)
    ensures r.Some? <==> PasswordSubmittable(form)
    ensures r.Some? ==> r.value == SubmitPasswordChange(form, storedUserId)
    ensures (r.Some? && r.value.Send?) <==>
      && form.currentPassword != "" && form.newPassword == form.confirmPassword
      && |form.newPassword| >= 6 && TruthyStr(storedUserId)
    ensures r == Some(Rejected(TooShortError)) <==>
      form.currentPassword != "" && form.newPassword == form.confirmPassword && 0 < |form.newPassword| < 6
    ensures r.Some? && r.value.Send? ==> r.value.oldPassword != "" && r.value.userId != ""
  {
    if PasswordSubmittable(form) then Some(SubmitPasswordChange(form, storedUserId)) else None
  }

  /** Any request that leaves the page carries a new password of at least six
      characters that was typed identically twice. */
  lemma SentPasswordsAreConfirmed(form: PasswordForm, storedUserId: Option<string>)
    requires SubmitPasswordChange(form, storedUserId).Send?
    ensures |SubmitPasswordChange(form, storedUserId).newPassword| >= 6
    ensures SubmitPasswordChange(form, storedUserId).newPassword == form.confirmPassword
    ensures SubmitPasswordChange(form, storedUserId).userId != ""
  {
  }

  /** The message shown when the server refuses: its `error`, or a fallback. */
  function ServerErrorText(serverError: Option<string>): (t: string)
    ensures t != ""
    ensures TruthyStr(serverError) ==> t == serverError.value
    ensures !TruthyStr(serverError) ==> t == "Failed to update password"
  {
    OrElse(serverError, "Failed to update password")
  }

  // ---------------------------------------------------------------------------
  // Report download
  // ---------------------------------------------------------------------------

  /** The file extension `handleExport` picks for the requested format. */
  function ExportExtension(format: string): (ext: string)
    ensures ext == "xlsx" <==> format == "excel"
    ensures ext == "pdf" <==> format == "pdf"
    ensures ext == "csv" <==> format != "excel" && format != "pdf"
  {
    if format == "pdf" then "pdf" else if format == "excel" then "xlsx" else "csv"
  }

  /** Where the prefix, the date key and the extension sit in a report name. */
  lemma ReportNameParts(key: string, ext: string)
    ensures var name := "visitor_report_" + key + "." + ext;
      && |name| == 16 + |key| + |ext| && name[..15] == "visitor_report_"
      && name[15..15 + |key|] == key && name[|name| - |ext| - 1..] == "." + ext
  {
    var name := "visitor_report_" + key + "." + ext;
    assert name[15..15 + |key|] == key;
    assert name[|name| - |ext| - 1..] == "." + ext;
  }

  /** `visitor_report_<UTC date>.<extension>`: the fixed prefix, today's UTC
      date as YYYY-MM-DD, a dot and the format's extension. */
  function ExportFileName(format: string, cal: Calendar, now: int): (name: string)
    ensures var ext := ExportExtension(format);
      && |name| >= 16 + |ext| && name[..15] == "visitor_report_"
      && name[|name| - |ext| - 1..] == "." + ext
    ensures 0 <= cal.utcDate(now).year <= 9999 ==>
      |name| == 26 + |ExportExtension(format)| && ReadsAsDate(name[15..25], cal.utcDate(now))
  {
    var key, ext := DayKey(cal.utcDate(now)), ExportExtension(format);
    ReportNameParts(key, ext);
    var name := "visitor_report_" + key + "." + ext;
    if 0 <= cal.utcDate(now).year <= 9999 then
      DayKeyFields(cal.utcDate(now));
      name
    else name
  }

  /** The format names the page's three export buttons pass to `handleExport`. */
  const ExportButtons := ["csv", "excel", "pdf"]

  /** The extension of the file each server format is rendered as. */
  function ServerExtension(f: ExportFormat): string {
    match f
    case Csv => "csv"
    case Excel => "xlsx"
    case Pdf => "pdf"
  }

  /** For a lower-case format name the extension agrees with the file the
      server renders. */
  lemma ExtensionMatchesServer(format: string)
    requires Lower(format) == format
    ensures ExportExtension(format) == "xlsx" <==> FormatOf(Some(format)) == Excel
    ensures ExportExtension(format) == "pdf" <==> FormatOf(Some(format)) == Pdf
    ensures ExportExtension(format) == "csv" <==> FormatOf(Some(format)) == Csv
  {
  }

  /** Every button of the page downloads a file whose extension names the
      format the server exports. */
  lemma ButtonsNameServerFormat(b: string)
    requires b in ExportButtons
    ensures Lower(b) == b
    ensures ExportExtension(b) == ServerExtension(FormatOf(Some(b)))
  {
    if b == "csv" {
      assert Lower("csv") == "csv";
    } else if b == "excel" {
      assert Lower("excel") == "excel";
    } else {
      assert Lower("pdf") == "pdf";
    }
    ExtensionMatchesServer(b);
  }

  /** The server lower-cases the format but `handleExport` does not: called
      with "Excel" it would save an Excel file under a CSV name. The page's
      buttons only pass lower-case names, so this needs another caller. */
  lemma MixedCaseFormatMisnamed()
    ensures FormatOf(Some("Excel")) == Excel && ExportExtension("Excel") == "csv"
    ensures "Excel" !in ExportButtons
  {
    assert Lower("Excel") == "excel";
  }
}
