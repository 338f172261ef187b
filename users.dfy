/** The users administration page (app/pages/users/page.tsx): a table of user records
    fetched on mount, with add, edit and delete popups. Each React state hook of the
    page is a field of `UsersPage`; each handler is a method that runs as one step,
    with the result of its HTTP request passed in as an `Outcome`. */
module Users {
  import opened Outcomes
  import opened Collections

  datatype User = User(
    userId: int,
    fullName: string,
    phoneNumber: string,
    email: string,
    passwordHash: string)

  /** The key the page compares rows by. */
  function UserId(u: User): int {
    u.userId
  }

  /** The form's initial value: id 0 and every text field empty. */
  const BlankUser: User := User(0, "", "", "", "")

  /** The add handler's guard: none of the four text fields is the empty string (the
      only falsy string). */
  predicate IsComplete(u: User) {
    u.fullName != "" && u.phoneNumber != "" && u.email != "" && u.passwordHash != ""
  }

  /** The text inputs of the add and edit popups; each `onChange` spreads the form and
      overwrites one of these fields. */
  datatype Field = FullName | PhoneNumber | Email | PasswordHash

  function FieldValue(u: User, f: Field): string {
    match f
    case FullName => u.fullName
    case PhoneNumber => u.phoneNumber
    case Email => u.email
    case PasswordHash => u.passwordHash
  }

  /** `{ ...newUser, [field]: value }`: the named field takes the typed value, the
      other fields and the id are kept. */
  function WithField(u: User, f: Field, value: string): (r: User)
    ensures r.userId == u.userId
    ensures FieldValue(r, f) == value
    ensures forall g :: g != f ==> FieldValue(r, g) == FieldValue(u, g)
  {
    match f
    case FullName => u.(fullName := value)
    case PhoneNumber => u.(phoneNumber := value)
    case Email => u.(email := value)
    case PasswordHash => u.(passwordHash := value)
  }

  class UsersPage {
    var data: seq<User>
    var isAddPopupOpen: bool
    var isEditPopupOpen: bool
    var isDeletePopupOpen: bool
    var selectedUser: Option<User>
    var newUser: User

    /** The state hooks' initial values. */
    constructor ()
      ensures data == [] && selectedUser == None && newUser == BlankUser
      ensures !isAddPopupOpen && !isEditPopupOpen && !isDeletePopupOpen
    {
      data := [];
      isAddPopupOpen, isEditPopupOpen, isDeletePopupOpen := false, false, false;
      selectedUser := None;
      newUser := BlankUser;
    }

    /** The table is replaced by "Nenhum dado encontrado." exactly when `data` is empty. */
    predicate ShowsEmptyMessage()
      reads this
    {
      |data| == 0
    }

    /** fetchUsers, run on mount: `setData(response.data || [])`; a missing body gives
        the empty list, a failed request is only logged. */
    method FetchUsers(response: Outcome<Option<seq<User>>>)
      modifies this
      ensures response.Ok? && response.payload.Some? ==> data == response.payload.value
      ensures response.Ok? && response.payload.None? ==> data == []
      ensures response.Err? ==> data == old(data)
      ensures isAddPopupOpen == old(isAddPopupOpen) && isEditPopupOpen == old(isEditPopupOpen)
      ensures isDeletePopupOpen == old(isDeletePopupOpen)
      ensures selectedUser == old(selectedUser) && newUser == old(newUser)
    {
      if response.Ok? {
        data := match response.payload
          case Some(users) => users
          case None => [];
      }
    }

    /** The "Adicionar Usuário" button. */
    method OpenAddPopup()
      modifies this
      ensures isAddPopupOpen
      ensures data == old(data) && isEditPopupOpen == old(isEditPopupOpen)
      ensures isDeletePopupOpen == old(isDeletePopupOpen)
      ensures selectedUser == old(selectedUser) && newUser == old(newUser)
    {
      isAddPopupOpen := true;
    }

    /** Typing in one input of the add or edit popup. */
    method ChangeField(f: Field, value: string)
      modifies this
      ensures newUser == WithField(old(newUser), f, value)
      ensures data == old(data) && isAddPopupOpen == old(isAddPopupOpen)
      ensures isEditPopupOpen == old(isEditPopupOpen) && isDeletePopupOpen == old(isDeletePopupOpen)
      ensures selectedUser == old(selectedUser)
    {
      newUser := WithField(newUser, f, value);
    }

    /** handleAddUser. An incomplete form returns before any request and changes
        nothing; otherwise the request is issued and, when it succeeds, the server's
        record is appended and the add popup closes. A failed request is only logged. */
    method AddUser(response: Outcome<User>) returns (requested: bool)
      modifies this
      ensures requested <==> IsComplete(old(newUser))
      ensures !requested || response.Err? ==> unchanged(this)
      ensures requested && response.Ok? ==>
        && data == Append(old(data), response.payload)
        && !isAddPopupOpen
        && !ShowsEmptyMessage()
        && isEditPopupOpen == old(isEditPopupOpen) && isDeletePopupOpen == old(isDeletePopupOpen)
        && selectedUser == old(selectedUser) && newUser == old(newUser)
    {
      if !IsComplete(newUser) {
        return false;
      }
      requested := true;
      if response.Ok? {
        data := Append(data, response.payload);
        isAddPopupOpen := false;
      }
    }

    /** handleEditClick: the clicked row becomes both the selection and the form. */
    method EditClick(u: User)
      modifies this
      ensures selectedUser == Some(u) && newUser == u && isEditPopupOpen && ShowsEditPopup()
      ensures data == old(data) && isAddPopupOpen == old(isAddPopupOpen)
      ensures isDeletePopupOpen == old(isDeletePopupOpen)
    {
      selectedUser := Some(u);
      newUser := u;
      isEditPopupOpen := true;
    }

    /** handleEditUser. Without a selection nothing happens. Otherwise the form is sent
        (no field check) and, on success, every row carrying the selected id becomes
        the form and the edit popup closes. A failed request is only logged. */
    method EditUser(response: Outcome<()>) returns (requested: bool)
      modifies this
      ensures requested <==> old(selectedUser).Some?
      ensures !requested || response.Err? ==> unchanged(this)
      ensures requested && response.Ok? ==>
        && data == ReplaceById(old(data), UserId, old(selectedUser).value.userId, old(newUser))
        && !isEditPopupOpen
        && isAddPopupOpen == old(isAddPopupOpen) && isDeletePopupOpen == old(isDeletePopupOpen)
        && selectedUser == old(selectedUser) && newUser == old(newUser)
    {
      if selectedUser.None? {
        return false;
      }
      requested := true;
      if response.Ok? {
        data := ReplaceById(data, UserId, selectedUser.value.userId, newUser);
        isEditPopupOpen := false;
      }
    }

    /** handleDeleteClick: the clicked row becomes the selection; the form is untouched. */
    method DeleteClick(u: User)
      modifies this
      ensures selectedUser == Some(u) && isDeletePopupOpen && ShowsDeletePopup()
      ensures data == old(data) && newUser == old(newUser)
      ensures isAddPopupOpen == old(isAddPopupOpen) && isEditPopupOpen == old(isEditPopupOpen)
    {
      selectedUser := Some(u);
      isDeletePopupOpen := true;
    }

    /** handleDeleteUser. Without a selection nothing happens. Otherwise, on success,
        every row carrying the selected id is dropped (no row with that id is left) and
        the delete popup closes. A failed request is only logged. */
    method DeleteUser(response: Outcome<()>) returns (requested: bool)
      modifies this
      ensures requested <==> old(selectedUser).Some?
      ensures !requested || response.Err? ==> unchanged(this)
      ensures requested && response.Ok? ==>
        && data == RemoveById(old(data), UserId, old(selectedUser).value.userId)
        && NoneWithId(data, UserId, old(selectedUser).value.userId)
        && !isDeletePopupOpen
        && isAddPopupOpen == old(isAddPopupOpen) && isEditPopupOpen == old(isEditPopupOpen)
        && selectedUser == old(selectedUser) && newUser == old(newUser)
    {
      if selectedUser.None? {
        return false;
      }
      requested := true;
      if response.Ok? {
        RemoveByIdNoneLeft(data, UserId, selectedUser.value.userId);
        data := RemoveById(data, UserId, selectedUser.value.userId);
        isDeletePopupOpen := false;
      }
    }

    /** The "Cancelar" button of the add popup. */
    method CancelAdd()
      modifies this
      ensures !isAddPopupOpen
      ensures data == old(data) && isEditPopupOpen == old(isEditPopupOpen)
      ensures isDeletePopupOpen == old(isDeletePopupOpen)
      ensures selectedUser == old(selectedUser) && newUser == old(newUser)
    {
      isAddPopupOpen := false;
    }

    /** The "Cancelar" button of the edit popup; selection and form are kept. */
    method CancelEdit()
      modifies this
      ensures !isEditPopupOpen
      ensures data == old(data) && isAddPopupOpen == old(isAddPopupOpen)
      ensures isDeletePopupOpen == old(isDeletePopupOpen)
      ensures selectedUser == old(selectedUser) && newUser == old(newUser)
    {
      isEditPopupOpen := false;
    }

    /** The "Cancelar" button of the delete popup; the selection is kept. */
    method CancelDelete()
      modifies this
      ensures !isDeletePopupOpen
      ensures data == old(data) && isAddPopupOpen == old(isAddPopupOpen)
      ensures isEditPopupOpen == old(isEditPopupOpen)
      ensures selectedUser == old(selectedUser) && newUser == old(newUser)
    {
      isDeletePopupOpen := false;
    }

    /** The edit popup is rendered only while its flag is set and a user is selected. */
    predicate ShowsEditPopup()
      reads this
    {
      isEditPopupOpen && selectedUser.Some?
    }

    /** The delete popup is rendered only while its flag is set and a user is selected. */
    predicate ShowsDeletePopup()
      reads this
    {
      isDeletePopupOpen && selectedUser.Some?
    }
  }

  /** Opening the add popup of a fresh page and pressing "Adicionar" without typing:
      the blank form fails the guard, so no request is issued, the popup stays open and
      the table stays empty. */
  method AddWithoutTyping(response: Outcome<User>) returns (requested: bool, popupOpen: bool, rows: seq<User>)
    ensures !requested && popupOpen && rows == []
  {
    var page := new UsersPage();
    page.OpenAddPopup();
    requested := page.AddUser(response);
    popupOpen, rows := page.isAddPopupOpen, page.data;
  }
}
