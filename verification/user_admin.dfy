/** The administrator's user-management page of the web client: the add/edit
    form, the list it keeps in step with the server after a save, a status
    toggle or a delete, and the status badge and action button of each row. */
module UserAdmin {
  import opened Common
  import opened Strings
  import opened Seqs
  import opened FlaskUsers

  /** A user as the page holds it: the server's listing (without a password),
      possibly merged with the fields of a later update. */
  datatype UserRow = UserRow(id: int, name: string, email: string, role: Option<string>,
                             status: Option<string>, password: Option<string>)

  /** The add/edit form. `role` is whatever the edited row held, `null` included. */
  datatype UserForm = UserForm(name: string, email: string, password: string, role: Option<string>)

  /** The form of a new user: empty fields and the 'security' role. */
  const InitialForm := UserForm("", "", "", Some("security"))

  datatype Page = Page(users: seq<UserRow>, form: UserForm, editing: Option<UserRow>, showModal: bool)

  // ---------------------------------------------------------------------------
  // Opening the modal
  // ---------------------------------------------------------------------------

  /** `openAddModal`: nothing is being edited and the form is the initial one. */
  function OpenAdd(p: Page): (r: Page)
    ensures r.showModal && r.editing.None? && r.users == p.users
    ensures r.form.name == "" && r.form.email == "" && r.form.password == "" && r.form.role == Some("security")
  {
    p.(editing := None, form := InitialForm, showModal := true)
  }

  /** `openEditModal`: the form shows the user's name, e-mail and role; the
      password stays empty, meaning "unchanged". */
  function OpenEdit(p: Page, u: UserRow): (r: Page)
    ensures r.showModal && r.editing == Some(u) && r.users == p.users
    ensures r.form.name == u.name && r.form.email == u.email && r.form.role == u.role
    ensures r.form.password == ""
  {
    p.(editing := Some(u), form := UserForm(u.name, u.email, "", u.role), showModal := true)
  }

  // ---------------------------------------------------------------------------
  // Saving
  // ---------------------------------------------------------------------------

  /** The body of the update request: a password only when one was typed. */
  datatype UpdateData = UpdateData(name: string, email: string, role: Option<string>, password: Option<string>)

  function UpdateOf(form: UserForm): (d: UpdateData)
    ensures d.password.Some? <==> form.password != ""
    ensures d.password.Some? ==> d.password.value == form.password
    ensures d.name == form.name && d.email == form.email && d.role == form.role
  {
    UpdateData(form.name, form.email, form.role, if form.password != "" then Some(form.password) else None)
  }

  /** `{ ...u, ...updateData }`: the sent keys overwrite the row's; a password
      that was not sent leaves the row's as it was. */
  function Merge(u: UserRow, d: UpdateData): (r: UserRow)
    ensures r.id == u.id && r.status == u.status
    ensures r.name == d.name && r.email == d.email && r.role == d.role
    ensures r.password == (if d.password.Some? then d.password else u.password)
  {
    u.(name := d.name, email := d.email, role := d.role,
       password := if d.password.Some? then d.password else u.password)
  }

  /** `users.map(u => u.id === id ? { ...u, ...data } : u)`. */
  function ApplyUpdate(users: seq<UserRow>, id: int, d: UpdateData): (r: seq<UserRow>)
    ensures |r| == |users|
    ensures forall i :: 0 <= i < |users| ==> r[i] == (if users[i].id == id then Merge(users[i], d) else users[i])
  {
    if |users| == 0 then []
    else [if users[0].id == id then Merge(users[0], d) else users[0]] + ApplyUpdate(users[1..], id, d)
  }

  /** The body of the create request: all four fields of the form. */
  datatype CreateData = CreateData(name: string, email: string, password: string, role: Option<string>)

  function CreateOf(form: UserForm): (d: CreateData)
    ensures d.name == form.name && d.email == form.email && d.password == form.password && d.role == form.role
  {
    CreateData(form.name, form.email, form.password, form.role)
  }

  /** What the server answered to the save request. */
  datatype SaveReply =
    | Saved(created: UserRow)                        // 2xx; `created` is the new user on a create
    | SaveFailed(error: Option<string>, message: string)

  /** The page after a save and the text of the alert it raises. */
  datatype Effect = Effect(page: Page, alert: string)

  /** `handleSaveUser`. On success an edit merges the sent fields into the rows
      with the edited id and a create puts the new user on top; either way the
      form is reset and the modal closed. On failure nothing changes but the
      alert, which shows the server's error or the request's message. */
  function SaveUser(p: Page, reply: SaveReply): (r: Effect)
    ensures reply.SaveFailed? ==> r.page == p
    ensures reply.SaveFailed? ==> r.alert == "Error saving user: " + OrElse(reply.error, reply.message)
    ensures reply.Saved? ==> !r.page.showModal && r.page.editing.None? && r.page.form == InitialForm
    ensures reply.Saved? && p.editing.Some? ==>
      r.page.users == ApplyUpdate(p.users, p.editing.value.id, UpdateOf(p.form))
      && r.alert == "User updated successfully!"
    ensures reply.Saved? && p.editing.None? ==>
      |r.page.users| == |p.users| + 1 && r.page.users[0] == reply.created && r.page.users[1..] == p.users
      && r.alert == "User created successfully!"
  {
    match reply
    case SaveFailed(error, message) => Effect(p, "Error saving user: " + OrElse(error, message))
    case Saved(created) =>
      var users :=
        if p.editing.Some? then ApplyUpdate(p.users, p.editing.value.id, UpdateOf(p.form))
        else [created] + p.users;
      Effect(Page(users, InitialForm, None, false),
             if p.editing.Some? then "User updated successfully!" else "User created successfully!")
  }

  /** Ids are unique in the list, as they are in the table it was read from. */
  predicate UniqueIds(s: seq<UserRow>) {
    forall i, j :: 0 <= i < j < |s| ==> s[i].id != s[j].id
  }

  /** Opening a listed user for editing and saving without touching the form
      leaves the list exactly as it was: the empty password keeps the stored
      one and every other sent field is the row's own. */
  lemma EditUnchangedKeepsList(p: Page, k: int)
    requires UniqueIds(p.users) && 0 <= k < |p.users|
    ensures SaveUser(OpenEdit(p, p.users[k]), Saved(p.users[k])).page.users == p.users
  {
    var u := p.users[k];
    var r := ApplyUpdate(p.users, u.id, UpdateOf(OpenEdit(p, u).form));
    forall i | 0 <= i < |p.users| ensures r[i] == p.users[i] {
      if i != k {
        assert p.users[i].id != u.id by {
          if i < k { assert p.users[i].id != p.users[k].id; }
        }
      }
    }
  }

  /** An edit touches only the rows with the edited id, and on those only the
      sent fields. */
  lemma UpdateChangesOnlyEdited(users: seq<UserRow>, id: int, form: UserForm, i: int)
    requires 0 <= i < |users|
    ensures var r := ApplyUpdate(users, id, UpdateOf(form));
      && (users[i].id != id ==> r[i] == users[i])
      && (users[i].id == id ==>
            r[i].id == id && r[i].status == users[i].status
            && r[i].name == form.name && r[i].email == form.email && r[i].role == form.role
            && (form.password == "" ==> r[i].password == users[i].password)
            && (form.password != "" ==> r[i].password == Some(form.password)))
  {
  }

  // ---------------------------------------------------------------------------
  // Status toggle and delete
  // ---------------------------------------------------------------------------

  /** `users.map(user => user.id === id ? { ...user, status } : user)`. */
  function SetStatus(users: seq<UserRow>, id: int, status: Option<string>): (r: seq<UserRow>)
    ensures |r| == |users|
    ensures forall i :: 0 <= i < |users| ==> r[i] == (if users[i].id == id then users[i].(status := status) else users[i])
  {
    if |users| == 0 then []
    else [if users[0].id == id then users[0].(status := status) else users[0]] + SetStatus(users[1..], id, status)
  }

  /** `handleToggleUserStatus`: the status the server answers with replaces the
      row's; a failed request leaves the list unchanged. */
  function ToggleStatus(users: seq<UserRow>, id: int, reply: Option<string>): (r: seq<UserRow>)
    ensures reply.None? ==> r == users
    ensures reply.Some? ==> r == SetStatus(users, id, Some(reply.value))
  {
    if reply.Some? then SetStatus(users, id, Some(reply.value)) else users
  }

  /** `users.filter(user => user.id !== id)` once the user has confirmed and the
      server has deleted the row; otherwise the list is unchanged. */
  function DeleteUser(users: seq<UserRow>, id: int, confirmed: bool, deleted: bool): (r: seq<UserRow>)
    ensures !(confirmed && deleted) ==> r == users
    ensures confirmed && deleted ==> forall u :: u in r <==> u in users && u.id != id
    ensures |r| <= |users|
  {
    if confirmed && deleted then Filter(users, (u: UserRow) => u.id != id) else users
  }

  /** Deleting removes exactly the rows with that id: the remaining rows and
      the removed ones add up to the list. */
  lemma DeleteRemovesOnlyThatId(users: seq<UserRow>, id: int)
    ensures |DeleteUser(users, id, true, true)| + Count(users, (u: UserRow) => u.id == id) == |users|
  {
    FilterAll(users, (u: UserRow) => true);
    CountPartition(users, (u: UserRow) => true, (u: UserRow) => u.id != id, (u: UserRow) => u.id == id);
  }

  // ---------------------------------------------------------------------------
  // The role and status columns
  // ---------------------------------------------------------------------------

  /** The two role badges (their emoji prefixes are not modelled). */
  datatype RoleBadge = AdminBadge | GuardBadge

  /** Only the exact role 'admin' is shown as an administrator; any other role,
      a missing one included, is shown as a security guard. */
  function RoleBadgeOf(role: Option<string>): (b: RoleBadge)
    ensures b == AdminBadge <==> role == Some("admin")
  {
    if role == Some("admin") then AdminBadge else GuardBadge
  }

  // ---------------------------------------------------------------------------
  // The status column
  // ---------------------------------------------------------------------------

  /** `user.status || 'Active'`: a missing or empty status shows as "Active". */
  function StatusText(status: Option<string>): (t: string)
    ensures t == "Active" <==> !TruthyStr(status) || status.value == "Active"
    ensures TruthyStr(status) ==> t == status.value
  {
    OrElse(status, "Active")
  }

  /** The badge's class: the shown status in lower case. */
  function BadgeClass(status: Option<string>): (c: string)
    ensures |c| == |StatusText(status)|
    ensures forall i :: 0 <= i < |c| ==> c[i] == LowerChar(StatusText(status)[i])
    ensures !TruthyStr(status) ==> c == "active"
  {
    LowerActive();
    Lower(StatusText(status))
  }

  lemma LowerActive()
    ensures Lower("Active") == "active"
  {
    var l := Lower("Active");
    assert LowerChar('A') == 'a';
    assert l[0] == 'a' && l[1..] == "ctive";
  }

  /** The action button: "Deactivate" for a user shown as active, else "Activate". */
  function ActionText(status: Option<string>): (t: string)
    ensures t == "Deactivate" <==> StatusText(status) == "Active"
    ensures t == "Activate" <==> StatusText(status) != "Active"
  {
    if StatusText(status) == "Active" then "Deactivate" else "Activate"
  }

  /** Clicking the button sends the row to the server's toggle, whose answer
      becomes the row's status. The shown status changes exactly when the
      stored one is a non-empty string: a NULL or empty status is shown as
      "Active" with a "Deactivate" button, and the server turns it into
      "Active", so the click changes nothing on screen. */
  lemma ToggleChangesShownStatus(status: Option<string>)
    ensures StatusText(Toggled(status)) != StatusText(status) <==> TruthyStr(status)
    ensures !TruthyStr(status) ==> ActionText(Toggled(status)) == ActionText(status) == "Deactivate"
  {
  }

  /** A toggle answered by the server updates the rows with that id to the
      server's new status, whose button is the opposite action whenever the
      previous status was a non-empty string. */
  lemma ToggleFlipsButton(users: seq<UserRow>, k: int)
    requires 0 <= k < |users| && TruthyStr(users[k].status)
    ensures var r := ToggleStatus(users, users[k].id, Toggled(users[k].status));
      ActionText(r[k].status) != ActionText(users[k].status)
  {
  }
}
