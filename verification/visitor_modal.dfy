/** The stand-alone "Add New Visitor" dialog: a form seeded from optional
    initial data, edited one field at a time, and submitted as a create-visit
    request whose outcome decides which callbacks run. */
module VisitorModal {
  import opened Common
  import opened Strings
  import opened Visits
  import opened Dashboard

  /** The `initialData` prop: any of its keys may be missing. */
  datatype InitialData = InitialData(
    firstName: Option<string>, lastName: Option<string>, mobile: Option<string>, email: Option<string>,
    organisation: Option<string>, visitorType: Option<string>, purpose: Option<string>)

  const NoInitialData := InitialData(None, None, None, None, None, None, None)

  /** The form's first state: every given non-empty value, '' otherwise, and
      the visitor type "Parent" unless one is given. */
  function InitialForm(d: InitialData): (f: VisitorForm)
    ensures f.firstName == OrElse(d.firstName, "") && f.lastName == OrElse(d.lastName, "")
    ensures f.mobile == OrElse(d.mobile, "") && f.email == OrElse(d.email, "")
    ensures f.organisation == OrElse(d.organisation, "") && f.purpose == OrElse(d.purpose, "")
    ensures f.visitorType != ""
    ensures TruthyStr(d.visitorType) ==> f.visitorType == d.visitorType.value
  {
    VisitorForm(OrElse(d.firstName, ""), OrElse(d.lastName, ""), OrElse(d.mobile, ""), OrElse(d.email, ""),
                OrElse(d.organisation, ""), OrElse(d.visitorType, "Parent"), OrElse(d.purpose, ""))
  }

  /** The data a form would be passed on as. */
  function DataOf(f: VisitorForm): InitialData {
    InitialData(Some(f.firstName), Some(f.lastName), Some(f.mobile), Some(f.email),
                Some(f.organisation), Some(f.visitorType), Some(f.purpose))
  }

  /** Without initial data the dialog starts from the dashboard's empty form;
      seeded with a form, it shows that form back exactly when its visitor
      type is not empty (an empty one becomes "Parent"). */
  lemma InitialFormRoundTrip(f: VisitorForm)
    ensures InitialForm(NoInitialData) == EmptyForm
    ensures InitialForm(DataOf(f)) == f <==> f.visitorType != ""
  {
    if f.visitorType == "" {
      assert InitialForm(DataOf(f)).visitorType == "Parent";
    }
  }

  // ---------------------------------------------------------------------------
  // Editing
  // ---------------------------------------------------------------------------

  datatype FormField = FirstName | LastName | Mobile | Email | Organisation | VisitorType | Purpose

  function Get(f: VisitorForm, field: FormField): string {
    match field
    case FirstName => f.firstName
    case LastName => f.lastName
    case Mobile => f.mobile
    case Email => f.email
    case Organisation => f.organisation
    case VisitorType => f.visitorType
    case Purpose => f.purpose
  }

  /** `handleFormChange(field, value)`: that field takes the value; the others keep theirs. */
  function SetField(f: VisitorForm, field: FormField, value: string): (r: VisitorForm)
    ensures Get(r, field) == value
    ensures forall g :: g != field ==> Get(r, g) == Get(f, g)
  {
    match field
    case FirstName => f.(firstName := value)
    case LastName => f.(lastName := value)
    case Mobile => f.(mobile := value)
    case Email => f.(email := value)
    case Organisation => f.(organisation := value)
    case VisitorType => f.(visitorType := value)
    case Purpose => f.(purpose := value)
  }

  /** A form is determined by its seven fields. */
  lemma FormExtensionality(f: VisitorForm, g: VisitorForm)
    requires forall field :: Get(f, field) == Get(g, field)
    ensures f == g
  {
    assert Get(f, FirstName) == Get(g, FirstName) && Get(f, LastName) == Get(g, LastName);
    assert Get(f, Mobile) == Get(g, Mobile) && Get(f, Email) == Get(g, Email);
    assert Get(f, Organisation) == Get(g, Organisation) && Get(f, VisitorType) == Get(g, VisitorType);
    assert Get(f, Purpose) == Get(g, Purpose);
  }

  /** Writing a field's own value back changes nothing, and a later write to
      the same field replaces an earlier one. */
  lemma SetFieldLaws(f: VisitorForm, field: FormField, a: string, b: string)
    ensures SetField(f, field, Get(f, field)) == f
    ensures SetField(SetField(f, field, a), field, b) == SetField(f, field, b)
  {
    FormExtensionality(SetField(f, field, Get(f, field)), f);
    FormExtensionality(SetField(SetField(f, field, a), field, b), SetField(f, field, b));
  }

  // ---------------------------------------------------------------------------
  // Submitting
  // ---------------------------------------------------------------------------

  /** `apiData`: the dashboard's request body with the name trimmed. */
  function ApiData(f: VisitorForm): (p: VisitorPayload)
    ensures p == AddPayload(f).(name := Trim(AddPayload(f).name, IsJsSpace))
    ensures p.phone == f.mobile && p.company == f.organisation && p.hostName == f.visitorType
  {
    VisitorPayload(Trim(f.firstName + " " + f.lastName, IsJsSpace), f.email, f.mobile,
                   f.purpose, f.organisation, f.visitorType)
  }

  /** For names typed without surrounding spaces, the name sent is the two
      halves joined by one space, as the dashboard's own form sends it. The
      two forms differ only when the required last name holds nothing but
      white space: this form then sends the first name alone, the dashboard
      the first name followed by those spaces. */
  lemma ApiDataName(f: VisitorForm)
    requires |f.firstName| > 0 && Unpadded(f.firstName, IsJsSpace)
    ensures RequiredFilled(f) && Unpadded(f.lastName, IsJsSpace) ==>
      ApiData(f).name == f.firstName + " " + f.lastName == AddPayload(f).name
    ensures RequiredFilled(f) && AllSpace(f.lastName, IsJsSpace) ==>
      ApiData(f).name == f.firstName != AddPayload(f).name
  {
    var s := f.firstName + " " + f.lastName;
    if RequiredFilled(f) && AllSpace(f.lastName, IsJsSpace) {
      assert s == f.firstName + (" " + f.lastName);
      TrimTrailingSpaces(f.firstName, " " + f.lastName, IsJsSpace);
      assert |AddPayload(f).name| == |f.firstName| + 1 + |f.lastName|;
    } else if RequiredFilled(f) && Unpadded(f.lastName, IsJsSpace) {
      assert s[0] == f.firstName[0] && s[|s| - 1] == f.lastName[|f.lastName| - 1];
      TrimUnpadded(s, IsJsSpace);
    }
  }

  /** What the create request came back with. */
  datatype AddReply =
    | AddedVisitor(v: Visit)
    | AddFailed(serverMessage: Option<string>, errorMessage: string)

  /** What the dialog does, in order. */
  datatype Effect = VisitorAdded(v: Visit) | Alert(text: string) | Close

  /** `handleSubmit`: on success the parent is handed the new visit, an alert
      confirms it and the dialog closes; on failure only an alert is raised,
      with the server's `message` or the request error's. */
  function Submit(reply: AddReply): (r: seq<Effect>)
    ensures reply.AddedVisitor? ==> r == [VisitorAdded(reply.v), Alert("Visitor added successfully!"), Close]
    ensures reply.AddFailed? ==>
      r == [Alert("Error adding visitor: " + OrElse(reply.serverMessage, reply.errorMessage))]
  {
    match reply
    case AddedVisitor(v) => [VisitorAdded(v), Alert("Visitor added successfully!"), Close]
    case AddFailed(m, e) => [Alert("Error adding visitor: " + OrElse(m, e))]
  }

  /** The dialog closes, and the parent hears of a visit, only when the create
      succeeded, and then the parent is told before the dialog closes. */
  lemma CallbacksOnlyOnSuccess(reply: AddReply)
    ensures Close in Submit(reply) <==> reply.AddedVisitor?
    ensures (exists i :: 0 <= i < |Submit(reply)| && Submit(reply)[i].VisitorAdded?) <==> reply.AddedVisitor?
    ensures reply.AddedVisitor? ==> Submit(reply)[0] == VisitorAdded(reply.v) && Submit(reply)[2] == Close
  {
    if reply.AddFailed? {
      assert Submit(reply)[0].Alert?;
    } else {
      assert Submit(reply)[0].VisitorAdded?;
    }
  }
}
