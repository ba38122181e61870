/** The user list of the earlier, stand-alone visitor-tracker client. It has
    no server: the list lives in the page's state, starts from four seeded
    members, grows by one member per "Add User" and flips a member between
    'Active' and 'Inactive' on each button press. */
module TrackerUsers {
  import opened Strings

  datatype Member = Member(id: int, name: string, email: string, role: string, status: string)

  /** The four members the page starts with. */
  const Seed := [
    Member(1, "Admin User", "admin@ngo.org", "Admin", "Active"),
    Member(2, "Ramesh Gupta", "ramesh@ngo.org", "Guard", "Active"),
    Member(3, "Sunita Rao", "sunita@ngo.org", "Guard", "Active"),
    Member(4, "Anil Verma", "anil@ngo.org", "Guard", "Inactive")
  ]

  datatype MemberForm = MemberForm(name: string, email: string, role: string)

  /** The form's first and reset state: empty texts and the 'Guard' role. */
  const BlankForm := MemberForm("", "", "Guard")

  datatype Page = Page(users: seq<Member>, form: MemberForm, showModal: bool)

  const InitialPage := Page(Seed, BlankForm, false)

  /** Each member's id is its position in the list, counting from one. */
  predicate Numbered(users: seq<Member>) {
    forall i :: 0 <= i < |users| ==> users[i].id == i + 1
  }

  /** Every status is one of the two the page writes. */
  predicate KnownStatuses(users: seq<Member>) {
    forall i :: 0 <= i < |users| ==> users[i].status == "Active" || users[i].status == "Inactive"
  }

  predicate Good(users: seq<Member>) {
    Numbered(users) && KnownStatuses(users)
  }

  /** The seeded list is numbered and uses only the two statuses. */
  lemma SeedIsGood()
    ensures Good(Seed)
  {
  }

  /** In a numbered list no two members share an id. */
  lemma NumberedIdsDistinct(users: seq<Member>, i: int, j: int)
    requires Numbered(users)
    requires 0 <= i < |users| && 0 <= j < |users| && i != j
    ensures users[i].id != users[j].id
  {
  }

  /** `handleAddUser`: the form's fields become a new active member at the
      end of the list, numbered one past the list's length; the form is reset
      and the dialog closes. */
  function AddUser(p: Page): (r: Page)
    ensures |r.users| == |p.users| + 1 && r.users[..|p.users|] == p.users
    ensures var added := r.users[|p.users|];
      added.id == |p.users| + 1 && added.status == "Active"
      && added.name == p.form.name && added.email == p.form.email && added.role == p.form.role
    ensures r.form == BlankForm && !r.showModal
  {
    var added := Member(|p.users| + 1, p.form.name, p.form.email, p.form.role, "Active");
    Page(p.users + [added], BlankForm, false)
  }

  /** Adding keeps the list numbered and its statuses known, so ids never
      collide however many members are added. */
  lemma AddUserKeepsGood(p: Page)
    requires Good(p.users)
    ensures Good(AddUser(p).users)
  {
    var r := AddUser(p).users;
    forall i | 0 <= i < |r| ensures r[i].id == i + 1 && (r[i].status == "Active" || r[i].status == "Inactive") {
      if i < |p.users| {
        assert r[i] == r[..|p.users|][i] == p.users[i];
      }
    }
  }

  /** The first member added to the seeded list is number five. */
  lemma FirstAddedIsFive(form: MemberForm)
    ensures AddUser(Page(Seed, form, true)).users[4] == Member(5, form.name, form.email, form.role, "Active")
  {
  }

  /** The status a press of the button moves to. */
  function Flip(status: string): (t: string)
    ensures t == "Active" || t == "Inactive"
    ensures t != status || (status != "Active" && status != "Inactive")
  {
    if status == "Active" then "Inactive" else "Active"
  }

  /** `toggleUserStatus(userId)`: every member with that id has its status
      flipped; everything else stays as it was. */
  function Toggle(users: seq<Member>, userId: int): (r: seq<Member>)
    ensures |r| == |users|
    ensures forall i :: 0 <= i < |r| ==>
      r[i].id == users[i].id && r[i].name == users[i].name && r[i].email == users[i].email && r[i].role == users[i].role
    ensures forall i :: 0 <= i < |r| && users[i].id == userId ==> r[i].status == Flip(users[i].status)
    ensures forall i :: 0 <= i < |r| && users[i].id != userId ==> r[i] == users[i]
  {
    seq(|users|, i requires 0 <= i < |users| =>
      if users[i].id == userId then users[i].(status := Flip(users[i].status)) else users[i])
  }

  /** Toggling keeps the list numbered and its statuses known. */
  lemma ToggleKeepsGood(users: seq<Member>, userId: int)
    requires Good(users)
    ensures Good(Toggle(users, userId))
  {
  }

  /** Two presses on the same member's button give back the list, as long as
      every status is one of the two the page writes. */
  lemma ToggleTwice(users: seq<Member>, userId: int)
    requires KnownStatuses(users)
    ensures Toggle(Toggle(users, userId), userId) == users
  {
    var r := Toggle(Toggle(users, userId), userId);
    forall i | 0 <= i < |users| ensures r[i] == users[i] {
      if users[i].id == userId {
        assert Flip(Flip(users[i].status)) == users[i].status;
      }
    }
  }

  /** With any other status the two presses do not cancel: the first makes
      the member active and the second inactive. */
  lemma ToggleTwiceNeedsKnownStatus(m: Member)
    requires m.status != "Active" && m.status != "Inactive"
    ensures Toggle(Toggle([m], m.id), m.id) == [m.(status := "Inactive")]
    ensures Toggle(Toggle([m], m.id), m.id) != [m]
  {
    assert Toggle([m], m.id)[0].status == "Active";
  }

  /** The button's caption: 'Deactivate' for an active member, 'Activate' otherwise. */
  function ButtonText(status: string): (t: string)
    ensures t == "Deactivate" <==> status == "Active"
    ensures t == "Activate" <==> status != "Active"
  {
    if status == "Active" then "Deactivate" else "Activate"
  }

  /** The status badge's CSS classes: the base class, a space, and the
      status with each letter in lower case. */
  function BadgeClass(status: string): (c: string)
    ensures |c| == 13 + |status| && c[..13] == "status-badge "
    ensures forall i :: 0 <= i < |status| ==> c[13 + i] == LowerChar(status[i])
  {
    "status-badge " + Lower(status)
  }

  /** A press of a member's button changes its caption, for either known status. */
  lemma ToggleFlipsCaption(users: seq<Member>, k: int)
    requires KnownStatuses(users) && 0 <= k < |users|
    ensures ButtonText(Toggle(users, users[k].id)[k].status) != ButtonText(users[k].status)
  {
  }
}
