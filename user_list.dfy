/** The user list and the selection of the user-management page
    (src/pages/ManageUsersPage.tsx): adding, editing, deleting and
    clearing users, and the checkbox selection set with its
    "all"/"some" indicators. Every update returns the new list (and
    selection) the page passes to its state setters. */
module UserList {
  import opened Wrappers
  import opened UserValidation

  /** The ids of the users, in list order. */
  function Ids(users: seq<User>): (r: seq<string>)
    ensures |r| == |users|
    ensures forall i :: 0 <= i < |users| ==> r[i] == users[i].id
  {
    seq(|users|, i requires 0 <= i < |users| => users[i].id)
  }

  function IdSet(users: seq<User>): set<string> {
    set u | u in users :: u.id
  }

  predicate DistinctIds(users: seq<User>) {
    forall i, j :: 0 <= i < j < |users| ==> users[i].id != users[j].id
  }

  predicate AllWellFormed(users: seq<User>) {
    forall u :: u in users ==> WellFormedUser(u)
  }

  /** The page's state: the list and the ids of the checked rows. */
  datatype Users = Users(list: seq<User>, selected: set<string>)

  /** The selection names only listed users and every listed user is
      well formed. */
  predicate Consistent(s: Users) {
    s.selected <= IdSet(s.list) && AllWellFormed(s.list)
  }

  // ---------------------------------------------------------------------
  // Adding, editing, deleting, clearing
  // ---------------------------------------------------------------------

  /** The list after a dialog save and the dialog's error line. */
  datatype SaveOutcome = SaveOutcome(users: seq<User>, formError: Option<string>)

  /** `handleSaveNewUser`: a valid form puts the new user at the head of the
      list; an invalid one leaves the list and shows the first error. */
  function SaveNewUser(users: seq<User>, name: string, whatsapp: string, email: string, id: string): (r: SaveOutcome)
    ensures ValidateUserForm(name, whatsapp, email).Ok? ==>
      var f := ValidateUserForm(name, whatsapp, email).value;
      r.formError == None && |r.users| == |users| + 1
      && r.users[0] == User(id, f.name, f.whatsappNumber, f.email) && r.users[1..] == users
    ensures ValidateUserForm(name, whatsapp, email).Err? ==>
      r.users == users && r.formError == Some(ValidateUserForm(name, whatsapp, email).error)
  {
    match ValidateUserForm(name, whatsapp, email)
    case Err(e) => SaveOutcome(users, Some(e))
    case Ok(f) => SaveOutcome([User(id, f.name, f.whatsappNumber, f.email)] + users, None)
  }

  /** The `map` of `handleSaveEditedUser`: every user with the id gets the
      new fields, every other user stays as it was. */
  function ReplaceById(users: seq<User>, id: string, f: UserFields): (r: seq<User>)
    ensures |r| == |users|
    ensures forall i :: 0 <= i < |users| && users[i].id != id ==> r[i] == users[i]
    ensures forall i :: 0 <= i < |users| && users[i].id == id ==> r[i] == User(id, f.name, f.whatsappNumber, f.email)
  {
    seq(|users|, i requires 0 <= i < |users| =>
      if users[i].id == id then users[i].(name := f.name, whatsappNumber := f.whatsappNumber, email := f.email)
      else users[i])
  }

  /** `handleSaveEditedUser`: without a user being edited nothing happens;
      otherwise the form is checked as for a new user and, when valid, the
      edited user is replaced in place. */
  function SaveEditedUser(users: seq<User>, editing: Option<User>, prevError: Option<string>,
                          name: string, whatsapp: string, email: string): (r: SaveOutcome)
    ensures editing.None? ==> r == SaveOutcome(users, prevError)
    ensures editing.Some? && ValidateUserForm(name, whatsapp, email).Err? ==>
      r.users == users && r.formError == Some(ValidateUserForm(name, whatsapp, email).error)
    ensures editing.Some? && ValidateUserForm(name, whatsapp, email).Ok? ==>
      r.formError == None && r.users == ReplaceById(users, editing.value.id, ValidateUserForm(name, whatsapp, email).value)
  {
    if editing.None? then SaveOutcome(users, prevError)
    else match ValidateUserForm(name, whatsapp, email)
      case Err(e) => SaveOutcome(users, Some(e))
      case Ok(f) => SaveOutcome(ReplaceById(users, editing.value.id, f), None)
  }

  /** An edit keeps the length, the ids and their order; with distinct ids
      exactly one user changes, and an id nobody has changes nothing. */
  lemma EditKeepsIds(users: seq<User>, id: string, f: UserFields)
    ensures Ids(ReplaceById(users, id, f)) == Ids(users)
    ensures id !in IdSet(users) ==> ReplaceById(users, id, f) == users
    ensures DistinctIds(users) ==> DistinctIds(ReplaceById(users, id, f))
  {
    var r := ReplaceById(users, id, f);
    if id !in IdSet(users) {
      assert forall i :: 0 <= i < |users| ==> users[i] in users && users[i].id != id;
    }
  }

  /** `users.filter(user => user.id !== id)`. */
  function RemoveId(users: seq<User>, id: string): (r: seq<User>)
    ensures |r| <= |users|
  {
    if users == [] then []
    else if users[0].id == id then RemoveId(users[1..], id)
    else [users[0]] + RemoveId(users[1..], id)
  }

  /** Deleting keeps exactly the users with another id, and a list without
      the id is kept as it is. */
  lemma {:induction false} RemoveIdKeeps(users: seq<User>, id: string)
    ensures forall u :: u in RemoveId(users, id) <==> u in users && u.id != id
    ensures (forall u :: u in users ==> u.id != id) ==> RemoveId(users, id) == users
    decreases |users|
  {
    if users != [] {
      RemoveIdKeeps(users[1..], id);
      assert forall u :: u in users <==> u == users[0] || u in users[1..];
    }
  }

  /** Filtering works piecewise, so the survivors keep their original order. */
  lemma {:induction false} RemoveIdDistributes(a: seq<User>, b: seq<User>, id: string)
    ensures RemoveId(a + b, id) == RemoveId(a, id) + RemoveId(b, id)
    decreases |a|
  {
    if a != [] {
      assert (a + b)[0] == a[0] && (a + b)[1..] == a[1..] + b;
      RemoveIdDistributes(a[1..], b, id);
      if a[0].id != id {
        assert [a[0]] + (RemoveId(a[1..], id) + RemoveId(b, id)) == ([a[0]] + RemoveId(a[1..], id)) + RemoveId(b, id);
      }
    } else {
      assert a + b == b;
    }
  }

  /** `handleDeleteUser`: the id leaves both the list and the selection. */
  function DeleteUser(s: Users, id: string): (r: Users)
    ensures r.list == RemoveId(s.list, id)
    ensures r.selected == s.selected - {id}
    ensures id !in IdSet(r.list) && id !in r.selected
  {
    RemoveIdKeeps(s.list, id);
    Users(RemoveId(s.list, id), s.selected - {id})
  }

  /** `handleConfirmClearAllUsers`. */
  function ClearAll(s: Users): (r: Users)
    ensures r.list == [] && r.selected == {}
  {
    Users([], {})
  }

  // ---------------------------------------------------------------------
  // Selection
  // ---------------------------------------------------------------------

  /** A checkbox's `checked` value. */
  datatype CheckState = Checked | Unchecked | Indeterminate

  /** `handleSelectAll`: only a checked header box selects every user. */
  function SelectAll(s: Users, checked: CheckState): (r: Users)
    ensures r.list == s.list
    ensures checked == Checked ==> r.selected == IdSet(s.list)
    ensures checked != Checked ==> r.selected == {}
  {
    s.(selected := if checked == Checked then IdSet(s.list) else {})
  }

  /** `handleSelectUser`. */
  function SelectUser(s: Users, id: string, checked: CheckState): (r: Users)
    ensures r.list == s.list
    ensures checked == Checked ==> r.selected == s.selected + {id}
    ensures checked != Checked ==> r.selected == s.selected - {id}
  {
    s.(selected := if checked == Checked then s.selected + {id} else s.selected - {id})
  }

  /** `isUserSelected`. */
  predicate IsUserSelected(s: Users, id: string) {
    id in s.selected
  }

  /** `areAllUsersSelected`. */
  predicate AreAllUsersSelected(s: Users) {
    |s.list| > 0 && |s.selected| == |s.list|
  }

  /** `isSomeUserSelected`. */
  predicate IsSomeUserSelected(s: Users) {
    |s.selected| > 0 && |s.selected| < |s.list|
  }

  /** Checking a row and unchecking it again restores the selection when
      the row was not checked before. */
  lemma SelectThenUnselect(s: Users, id: string)
    requires id !in s.selected
    ensures SelectUser(SelectUser(s, id, Checked), id, Unchecked) == s
  {
  }

  /** The ids of a non-empty list: its head's and its tail's. */
  lemma IdSetCons(users: seq<User>)
    requires users != []
    ensures IdSet(users) == {users[0].id} + IdSet(users[1..])
  {
    assert forall u :: u in users ==> u == users[0] || u in users[1..];
    assert forall u :: u in users[1..] ==> u in users;
  }

  /** The tail of a list with distinct ids has distinct ids, none of them
      the head's. */
  lemma DistinctTail(users: seq<User>)
    requires users != [] && DistinctIds(users)
    ensures DistinctIds(users[1..]) && users[0].id !in IdSet(users[1..])
  {
    var rest := users[1..];
    forall i, j | 0 <= i < j < |rest| ensures rest[i].id != rest[j].id {
      assert rest[i] == users[i + 1] && rest[j] == users[j + 1];
    }
    forall u | u in rest ensures u.id != users[0].id {
      var k :| 0 <= k < |rest| && rest[k] == u;
      assert u == users[k + 1];
    }
  }

  /** With distinct ids there are as many ids as users. */
  lemma {:induction false} DistinctIdsCount(users: seq<User>)
    requires DistinctIds(users)
    ensures |IdSet(users)| == |users|
    decreases |users|
  {
    if users != [] {
      DistinctTail(users);
      DistinctIdsCount(users[1..]);
      IdSetCons(users);
    }
  }

  /** With a repeated id there are fewer ids than users. */
  lemma {:induction false} RepeatedIdCount(users: seq<User>)
    requires !DistinctIds(users)
    ensures |IdSet(users)| < |users|
    decreases |users|
  {
    var rest := users[1..];
    IdSetCons(users);
    IdSetBound(rest);
    if DistinctIds(rest) {
      var i, j :| 0 <= i < j < |users| && users[i].id == users[j].id;
      assert i == 0;
      assert users[j] in rest;
      assert users[0].id in IdSet(rest);
    } else {
      RepeatedIdCount(rest);
    }
  }

  lemma {:induction false} IdSetBound(users: seq<User>)
    ensures |IdSet(users)| <= |users|
    decreases |users|
  {
    if users != [] {
      var rest := users[1..];
      IdSetBound(rest);
      IdSetCons(users);
    }
  }

  /** Select-all makes the header box show "all selected" exactly when the
      list is non-empty and no two users share an id. */
  lemma SelectAllShowsAllSelected(s: Users)
    ensures AreAllUsersSelected(SelectAll(s, Checked)) <==> |s.list| > 0 && DistinctIds(s.list)
  {
    if DistinctIds(s.list) {
      DistinctIdsCount(s.list);
    } else {
      RepeatedIdCount(s.list);
    }
  }

  lemma SubsetOfSameSize(a: set<string>, b: set<string>)
    requires a <= b && |a| == |b|
    ensures a == b
  {
    var extra := b - a;
    assert b == a + extra;
    assert |b| == |a| + |extra|;
    assert extra == {};
  }

  /** In a state whose selection names only listed users, with distinct
      ids, "all selected" means every user's id is selected, and "some
      selected" means a non-empty proper part of them is. */
  lemma ProperSubsetSmaller(a: set<string>, b: set<string>)
    requires a < b
    ensures |a| < |b|
  {
    var extra := b - a;
    assert b == a + extra;
    assert extra != {};
  }

  lemma SelectionIndicators(s: Users)
    requires s.selected <= IdSet(s.list) && DistinctIds(s.list)
    ensures AreAllUsersSelected(s) <==> |s.list| > 0 && s.selected == IdSet(s.list)
    ensures IsSomeUserSelected(s) <==> {} < s.selected < IdSet(s.list)
  {
    DistinctIdsCount(s.list);
    if |s.selected| == |s.list| {
      SubsetOfSameSize(s.selected, IdSet(s.list));
    }
    if s.selected < IdSet(s.list) {
      ProperSubsetSmaller(s.selected, IdSet(s.list));
    }
    if s.selected != {} {
      ProperSubsetSmaller({}, s.selected);
    }
  }

  /** Every page operation keeps the state consistent. */
  lemma OperationsKeepConsistent(s: Users, id: string, checked: CheckState)
    requires Consistent(s)
    ensures Consistent(DeleteUser(s, id))
    ensures Consistent(ClearAll(s))
    ensures Consistent(SelectAll(s, checked))
    ensures id in IdSet(s.list) ==> Consistent(SelectUser(s, id, checked))
  {
    var d := DeleteUser(s, id);
    RemoveIdKeeps(s.list, id);
    forall x | x in d.selected ensures x in IdSet(d.list) {
      var u :| u in s.list && u.id == x;
      assert u in d.list;
    }
  }

  /** Adding keeps the state consistent, whatever the form holds. */
  lemma SaveNewKeepsConsistent(s: Users, name: string, whatsapp: string, email: string, id: string)
    requires Consistent(s)
    ensures Consistent(Users(SaveNewUser(s.list, name, whatsapp, email, id).users, s.selected))
  {
    if ValidateUserForm(name, whatsapp, email).Ok? {
      FormFieldsWellFormed(name, whatsapp, email, id);
      var r := SaveNewUser(s.list, name, whatsapp, email, id).users;
      assert r == [r[0]] + s.list;
      assert IdSet(s.list) <= IdSet(r);
    }
  }

  lemma ReplaceByIdKeepsWellFormed(users: seq<User>, id: string, f: UserFields)
    requires AllWellFormed(users) && WellFormedUser(User(id, f.name, f.whatsappNumber, f.email))
    ensures AllWellFormed(ReplaceById(users, id, f))
  {
    var e := ReplaceById(users, id, f);
    forall u | u in e ensures WellFormedUser(u) {
      var k :| 0 <= k < |e| && e[k] == u;
      assert users[k] in users;
    }
  }

  lemma ReplaceByIdKeepsIdSet(users: seq<User>, id: string, f: UserFields)
    ensures IdSet(ReplaceById(users, id, f)) == IdSet(users)
  {
    EditKeepsIds(users, id, f);
    var e := ReplaceById(users, id, f);
    forall x | x in IdSet(users) ensures x in IdSet(e) {
      var u :| u in users && u.id == x;
      var k :| 0 <= k < |users| && users[k] == u;
      assert e[k].id == x && e[k] in e;
    }
    forall x | x in IdSet(e) ensures x in IdSet(users) {
      var u :| u in e && u.id == x;
      var k :| 0 <= k < |e| && e[k] == u;
      assert users[k].id == x && users[k] in users;
    }
  }

  lemma ReplaceByIdKeepsConsistent(s: Users, id: string, f: UserFields)
    requires Consistent(s) && WellFormedUser(User(id, f.name, f.whatsappNumber, f.email))
    ensures Consistent(Users(ReplaceById(s.list, id, f), s.selected))
  {
    ReplaceByIdKeepsWellFormed(s.list, id, f);
    ReplaceByIdKeepsIdSet(s.list, id, f);
  }

  /** Editing keeps the state consistent, whatever the form holds. */
  lemma SaveEditedKeepsConsistent(s: Users, editing: Option<User>, prevError: Option<string>,
                                  name: string, whatsapp: string, email: string)
    requires Consistent(s)
    ensures Consistent(Users(SaveEditedUser(s.list, editing, prevError, name, whatsapp, email).users, s.selected))
  {
    if editing.Some? && ValidateUserForm(name, whatsapp, email).Ok? {
      FormFieldsWellFormed(name, whatsapp, email, editing.value.id);
      ReplaceByIdKeepsConsistent(s, editing.value.id, ValidateUserForm(name, whatsapp, email).value);
    }
  }

  /** A CSV import puts the imported users in front and keeps the state
      consistent. */
  lemma ImportKeepsConsistent(s: Users, data: seq<CsvRow>, ids: seq<string>)
    requires Consistent(s) && |ids| == |data|
    ensures Consistent(Users(AcceptedUsers(Outcomes(data, ids)) + s.list, s.selected))
  {
    var os := Outcomes(data, ids);
    var added := AcceptedUsers(os);
    ImportedAreAccepted(os);
    forall u | u in added ensures WellFormedUser(u) {
      var k :| 0 <= k < |os| && os[k] == Accepted(u);
      CsvUserWellFormed(data[k], k, ids[k]);
    }
    forall x | x in s.selected ensures x in IdSet(added + s.list) {
      var u :| u in s.list && u.id == x;
      assert u in added + s.list;
    }
  }
}
