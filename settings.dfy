/** The user administration screen (`SettingsComponent`): a filtered user list, a modal that
    creates or edits an account, the ordered required-field checks of `register`, and the
    delete decision. */
module Settings {
  import opened Text
  import opened ListView

  datatype Role = ADMIN | USER

  /** A `RegisterRequest`: an account as listed, edited and sent. The id is optional. */
  datatype UserRecord = UserRecord(
    role: Role,
    username: string,
    lastname: string,
    firstname: string,
    password: string,
    id: Option<int>)

  /** The draft `openNewUsersForm` installs. */
  const BlankUser: UserRecord := UserRecord(USER, "", "", "", "", Some(0))

  /** `filteredUsers`: every user when the term is the empty string (it is not trimmed);
      otherwise those whose lower-cased username contains the lower-cased term. */
  function FilterUsers(users: seq<UserRecord>, term: string): (r: seq<UserRecord>)
    ensures term == "" ==> r == users
    ensures |r| <= |users|
    ensures forall u :: u in r ==> u in users && UsernameMatches(u, term)
  {
    if term == "" then
      assert forall u :: u in users ==> UsernameMatches(u, term) by {
        forall u | u in users ensures UsernameMatches(u, term) {
          ContainsEmpty(Lower(u.username));
        }
      }
      users
    else Filter(users, (u: UserRecord) => UsernameMatches(u, term))
  }

  /** Whether a user's lower-cased username contains the lower-cased term. */
  predicate UsernameMatches(u: UserRecord, term: string) {
    Contains(Lower(u.username), Lower(term))
  }

  /** The empty-term shortcut gives what the filter would give anyway: the screen always shows
      exactly the matching users, in order. */
  lemma FilterUsersIsFilter(users: seq<UserRecord>, term: string)
    ensures FilterUsers(users, term) == Filter(users, (u: UserRecord) => UsernameMatches(u, term))
    ensures var r := FilterUsers(users, term);
      var pos := Positions(MaskOf(users, (u: UserRecord) => UsernameMatches(u, term)));
      |r| == |pos| && forall j :: 0 <= j < |pos| ==> r[j] == users[pos[j]]
  {
    if term == "" {
      forall u: UserRecord | u in users ensures UsernameMatches(u, term) {
        ContainsEmpty(Lower(u.username));
      }
      FilterAll(users, (u: UserRecord) => UsernameMatches(u, term));
    }
  }

  /** A term of one space is not blank for this screen: it hides a user whose name has no space. */
  lemma SpaceTermFilters()
    ensures FilterUsers([BlankUser.(username := "ana")], " ") == []
  {
    var u := BlankUser.(username := "ana");
    assert Lower("ana") == "ana" && Lower(" ") == [' '];
    AbsentCharNotContained("ana", ' ');
    FilterNone([u], (u: UserRecord) => UsernameMatches(u, " "));
  }

  /** The role selection `editUser` derives from a role. */
  function SelectionFor(role: Role): (r: string)
    ensures r == "admin" <==> role == ADMIN
    ensures r != ""
  {
    if role == ADMIN then "admin" else "user"
  }

  /** The role `register` derives from the selection. */
  function RoleFor(selection: string): (r: Role)
    ensures r == ADMIN <==> selection == "admin"
  {
    if selection == "admin" then ADMIN else USER
  }

  /** Opening a user for editing and saving it unchanged keeps its role. */
  lemma RoleRoundTrip(role: Role)
    ensures RoleFor(SelectionFor(role)) == role
  {
  }

  /** The body `register` sends: the names and the password as typed, the role from the
      selection, and no id. */
  function Payload(u: UserRecord, selection: string): (r: UserRecord)
    ensures r.id == None
    ensures r.role == ADMIN <==> selection == "admin"
    ensures r.username == u.username && r.lastname == u.lastname && r.firstname == u.firstname
    ensures r.password == u.password
  {
    UserRecord(RoleFor(selection), u.username, u.lastname, u.firstname, u.password, None)
  }

  /** Why `register` refuses the draft. */
  datatype UserWarning = FirstnameRequired | LastnameRequired | UsernameRequired | RoleRequired | PasswordRequired

  /** The checks of `register`, in order; the password is checked only when creating. */
  function ValidateUser(u: UserRecord, selection: string, isEditing: bool): (r: Option<UserWarning>)
    ensures r == Some(FirstnameRequired) <==> IsBlank(u.firstname)
    ensures r == Some(LastnameRequired) <==> !IsBlank(u.firstname) && IsBlank(u.lastname)
    ensures r == Some(UsernameRequired) <==>
              !IsBlank(u.firstname) && !IsBlank(u.lastname) && IsBlank(u.username)
    ensures r == Some(RoleRequired) <==>
              !IsBlank(u.firstname) && !IsBlank(u.lastname) && !IsBlank(u.username) && selection == ""
    ensures r == Some(PasswordRequired) <==>
              !IsBlank(u.firstname) && !IsBlank(u.lastname) && !IsBlank(u.username) && selection != ""
              && !isEditing && IsBlank(u.password)
    ensures r == None <==>
              !IsBlank(u.firstname) && !IsBlank(u.lastname) && !IsBlank(u.username) && selection != ""
              && (isEditing || !IsBlank(u.password))
  {
    if Trim(u.firstname) == [] then Some(FirstnameRequired)
    else if Trim(u.lastname) == [] then Some(LastnameRequired)
    else if Trim(u.username) == [] then Some(UsernameRequired)
    else if selection == "" then Some(RoleRequired)
    else if !isEditing && Trim(u.password) == [] then Some(PasswordRequired)
    else None
  }

  /** What `register` does: warn and stop, show the missing-id error, or send one request. */
  datatype RegisterAction =
    | Invalid(warning: UserWarning)
    | MissingId
    | UpdateUser(id: int, payload: UserRecord)
    | CreateUser(payload: UserRecord)

  function RegisterDecision(u: UserRecord, selection: string, isEditing: bool): (r: RegisterAction)
    ensures r.Invalid? <==> ValidateUser(u, selection, isEditing).Some?
    ensures r.Invalid? ==> r.warning == ValidateUser(u, selection, isEditing).value
    ensures r.MissingId? <==> ValidateUser(u, selection, isEditing) == None && isEditing && u.id == None
    ensures r.UpdateUser? <==> ValidateUser(u, selection, isEditing) == None && isEditing && u.id.Some?
    ensures r.UpdateUser? ==> r.id == u.id.value && r.payload == Payload(u, selection)
    ensures r.CreateUser? <==> ValidateUser(u, selection, isEditing) == None && !isEditing
    ensures r.CreateUser? ==> r.payload == Payload(u, selection)
  {
    match ValidateUser(u, selection, isEditing)
    case Some(w) => Invalid(w)
    case None =>
      if isEditing then (if u.id.Some? then UpdateUser(u.id.value, Payload(u, selection)) else MissingId)
      else CreateUser(Payload(u, selection))
  }

  /** Editing a listed user and saving it without changes sends an update of that id that
      keeps the user's names and role, with an empty password. */
  lemma EditThenSaveUpdates(u: UserRecord)
    requires !IsBlank(u.firstname) && !IsBlank(u.lastname) && !IsBlank(u.username) && u.id.Some?
    ensures RegisterDecision(u.(password := ""), SelectionFor(u.role), true)
            == UpdateUser(u.id.value, u.(password := "", id := None))
  {
    RoleRoundTrip(u.role);
  }

  /** What `deleteUser` does once the confirmation dialog has been answered. */
  datatype DeleteAction = NoAction | DeleteRequest(id: int) | IdError

  function DeleteDecision(confirmed: bool, id: Option<int>): (r: DeleteAction)
    ensures r.DeleteRequest? <==> confirmed && id.Some?
    ensures r.DeleteRequest? ==> r.id == id.value
    ensures r == IdError <==> confirmed && id == None
    ensures r == NoAction <==> !confirmed
  {
    if confirmed && id.Some? then DeleteRequest(id.value)
    else if confirmed then IdError
    else NoAction
  }

  class UserSettings {
    var user: seq<UserRecord>
    var searchTerm: string
    var showModal: bool
    var isEditing: bool
    var role: string
    var currentUser: UserRecord

    constructor ()
      ensures user == [] && searchTerm == "" && !showModal && !isEditing && role == ""
      ensures currentUser == BlankUser
    {
      user := [];
      searchTerm := "";
      showModal := false;
      isEditing := false;
      role := "";
      currentUser := BlankUser;
    }

    function FilteredUsers(): (r: seq<UserRecord>)
      reads this
      ensures searchTerm == "" ==> r == user
      ensures forall u :: u in r ==> u in user && UsernameMatches(u, searchTerm)
    {
      FilterUsers(user, searchTerm)
    }

    /** `loadUsers`: the list is replaced on success; any failure only alerts. */
    method LoadUsers(outcome: Fetch<UserRecord>) returns (alert: bool)
      modifies this`user
      ensures alert <==> outcome.Err?
      ensures user == if outcome.Ok? then outcome.items else old(user)
    {
      alert := outcome.Err?;
      if outcome.Ok? {
        user := outcome.items;
      }
    }

    /** `openNewUsersForm`. */
    method OpenNewUsersForm()
      modifies this`isEditing, this`currentUser, this`role, this`showModal
      ensures !isEditing && currentUser == BlankUser && role == "" && showModal
    {
      isEditing := false;
      currentUser := BlankUser;
      role := "";
      showModal := true;
    }

    /** `editUser(u)`: a copy of `u` with the password blanked; the selection follows its role. */
    method EditUser(u: UserRecord)
      modifies this`isEditing, this`currentUser, this`role, this`showModal
      ensures isEditing && showModal
      ensures currentUser == u.(password := "")
      ensures role == (if u.role == ADMIN then "admin" else "user")
      ensures RoleFor(role) == u.role
    {
      isEditing := true;
      currentUser := u.(password := "");
      role := SelectionFor(currentUser.role);
      showModal := true;
      RoleRoundTrip(u.role);
    }

    /** `closeModal`: hides the modal and nothing else. */
    method CloseModal()
      modifies this`showModal
      ensures !showModal
    {
      showModal := false;
    }

    /** The synchronous part of `register`: which request, if any, is sent. */
    method Register() returns (action: RegisterAction)
      ensures action == RegisterDecision(currentUser, role, isEditing)
      ensures action.Invalid? <==> ValidateUser(currentUser, role, isEditing).Some?
    {
      action := RegisterDecision(currentUser, role, isEditing);
    }

    /** The request's callbacks: on success the modal closes and the list is fetched again;
        on failure nothing changes. */
    method FinishRegister(succeeded: bool, reload: Fetch<UserRecord>) returns (alert: bool)
      modifies this`showModal, this`user
      ensures succeeded ==>
                && !showModal && (alert <==> reload.Err?)
                && user == (if reload.Ok? then reload.items else old(user))
      ensures !succeeded ==> alert && showModal == old(showModal) && user == old(user)
      ensures currentUser == old(currentUser) && isEditing == old(isEditing)
    {
      if succeeded {
        showModal := false;
        alert := LoadUsers(reload);
      } else {
        alert := true;
      }
    }
  }
}
