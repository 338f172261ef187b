/** The professionals administration page (app/pages/professional/page.tsx): a table of
    professionals fetched on mount, with add, edit and delete popups. Each React state
    hook of the page is a field of `ProfessionalPage`; each handler is a method that runs
    as one step, with the result of its HTTP request passed in as an `Outcome`. */
module Professionals {
  import opened Outcomes
  import opened Collections

  datatype Professional = Professional(professionalId: int, fullName: string, specialty: string)

  /** The key the page compares rows by. */
  function ProfessionalId(p: Professional): int {
    p.professionalId
  }

  /** The form's initial value, and the value the add handler resets it to. */
  const BlankProfessional: Professional := Professional(0, "", "")

  /** The guard shared by add and edit: neither name nor specialty is the empty string. */
  predicate IsComplete(p: Professional) {
    p.fullName != "" && p.specialty != ""
  }

  /** The two inputs of the add and edit popups. */
  datatype Field = FullName | Specialty

  /** `{ ...newProfissional, [field]: value }`: the named field takes the typed value;
      the other field and the id are kept. */
  function WithField(p: Professional, f: Field, value: string): (r: Professional)
    ensures r.professionalId == p.professionalId
    ensures r.fullName == (if f == FullName then value else p.fullName)
    ensures r.specialty == (if f == Specialty then value else p.specialty)
  {
    match f
    case FullName => p.(fullName := value)
    case Specialty => p.(specialty := value)
  }

  class ProfessionalPage {
    var data: seq<Professional>
    var isAddPopupOpen: bool
    var isEditPopupOpen: bool
    var isDeletePopupOpen: bool
    var selectedProfissional: Option<Professional>
    var newProfissional: Professional

    /** The state hooks' initial values. */
    constructor ()
      ensures data == [] && selectedProfissional == None && newProfissional == BlankProfessional
      ensures !isAddPopupOpen && !isEditPopupOpen && !isDeletePopupOpen
    {
      data := [];
      isAddPopupOpen, isEditPopupOpen, isDeletePopupOpen := false, false, false;
      selectedProfissional := None;
      newProfissional := BlankProfessional;
    }

    /** The edit popup is rendered only while its flag is set and a row is selected. */
    predicate ShowsEditPopup()
      reads this
    {
      isEditPopupOpen && selectedProfissional.Some?
    }

    /** The delete popup is rendered only while its flag is set and a row is selected. */
    predicate ShowsDeletePopup()
      reads this
    {
      isDeletePopupOpen && selectedProfissional.Some?
    }

    /** fetchProfissionais, run on mount and after each successful add: the server's
        list replaces `data` as it is; a failed request is only logged. */
    method FetchProfissionais(response: Outcome<seq<Professional>>)
      modifies this
      ensures data == (if response.Ok? then response.payload else old(data))
      ensures isAddPopupOpen == old(isAddPopupOpen) && isEditPopupOpen == old(isEditPopupOpen)
      ensures isDeletePopupOpen == old(isDeletePopupOpen)
      ensures selectedProfissional == old(selectedProfissional)
      ensures newProfissional == old(newProfissional)
    {
      if response.Ok? {
        data := response.payload;
      }
    }

    /** The "Adicionar Profissional" button. */
    method OpenAddPopup()
      modifies this
      ensures isAddPopupOpen
      ensures data == old(data) && isEditPopupOpen == old(isEditPopupOpen)
      ensures isDeletePopupOpen == old(isDeletePopupOpen)
      ensures selectedProfissional == old(selectedProfissional)
      ensures newProfissional == old(newProfissional)
    {
      isAddPopupOpen := true;
    }

    /** Typing in one input of the add or edit popup. */
    method ChangeField(f: Field, value: string)
      modifies this
      ensures newProfissional == WithField(old(newProfissional), f, value)
      ensures data == old(data) && isAddPopupOpen == old(isAddPopupOpen)
      ensures isEditPopupOpen == old(isEditPopupOpen) && isDeletePopupOpen == old(isDeletePopupOpen)
      ensures selectedProfissional == old(selectedProfissional)
    {
      newProfissional := WithField(newProfissional, f, value);
    }

    /** handleAddProfissional. An incomplete form returns before any request and changes
        nothing. Otherwise, when the create succeeds, the server's record is appended,
        the form is reset, the popup closes and the list is fetched again (`refetch`):
        a successful refetch replaces the appended list with the server's, a failed one
        leaves the appended list. A failed create is only logged. */
    method AddProfissional(created: Outcome<Professional>, refetch: Outcome<seq<Professional>>)
      returns (requested: bool)
      modifies this
      ensures requested <==> IsComplete(old(newProfissional))
      ensures !requested || created.Err? ==> unchanged(this)
      ensures requested && created.Ok? ==>
        && data == (if refetch.Ok? then refetch.payload else Append(old(data), created.payload))
        && newProfissional == BlankProfessional
        && !isAddPopupOpen
        && isEditPopupOpen == old(isEditPopupOpen) && isDeletePopupOpen == old(isDeletePopupOpen)
        && selectedProfissional == old(selectedProfissional)
    {
      if !IsComplete(newProfissional) {
        return false;
      }
      requested := true;
      if created.Ok? {
        data := Append(data, created.payload);
        newProfissional := BlankProfessional;
        isAddPopupOpen := false;
        FetchProfissionais(refetch);
      }
    }

    /** handleEditClick: the clicked row becomes both the selection and the form. */
    method EditClick(p: Professional)
      modifies this
      ensures selectedProfissional == Some(p) && newProfissional == p
      ensures isEditPopupOpen && ShowsEditPopup()
      ensures data == old(data) && isAddPopupOpen == old(isAddPopupOpen)
      ensures isDeletePopupOpen == old(isDeletePopupOpen)
    {
      selectedProfissional := Some(p);
      newProfissional := p;
      isEditPopupOpen := true;
    }

    /** handleEditProfissional. Without a selection, or with an incomplete form, nothing
        happens and no request is made. Otherwise, on success, every row carrying the
        selected id becomes the form and the edit popup closes. A failed request is only
        logged. */
    method EditProfissional(response: Outcome<()>) returns (requested: bool)
      modifies this
      ensures requested <==> old(selectedProfissional).Some? && IsComplete(old(newProfissional))
      ensures !requested || response.Err? ==> unchanged(this)
      ensures requested && response.Ok? ==>
        && data == ReplaceById(old(data), ProfessionalId,
                               old(selectedProfissional).value.professionalId, old(newProfissional))
        && !isEditPopupOpen
        && isAddPopupOpen == old(isAddPopupOpen) && isDeletePopupOpen == old(isDeletePopupOpen)
        && selectedProfissional == old(selectedProfissional)
        && newProfissional == old(newProfissional)
    {
      if selectedProfissional.None? {
        return false;
      }
      if !IsComplete(newProfissional) {
        return false;
      }
      requested := true;
      if response.Ok? {
        data := ReplaceById(data, ProfessionalId, selectedProfissional.value.professionalId, newProfissional);
        isEditPopupOpen := false;
      }
    }

    /** handleDeleteClick: the clicked row becomes the selection; the form is untouched. */
    method DeleteClick(p: Professional)
      modifies this
      ensures selectedProfissional == Some(p) && isDeletePopupOpen && ShowsDeletePopup()
      ensures data == old(data) && newProfissional == old(newProfissional)
      ensures isAddPopupOpen == old(isAddPopupOpen) && isEditPopupOpen == old(isEditPopupOpen)
    {
      selectedProfissional := Some(p);
      isDeletePopupOpen := true;
    }

    /** handleDeleteProfissional. Without a selection nothing happens. Otherwise, on
        success, every row carrying the selected id is dropped (no row with that id is
        left) and the delete popup closes. A failed request is only logged. */
    method DeleteProfissional(response: Outcome<()>) returns (requested: bool)
      modifies this
      ensures requested <==> old(selectedProfissional).Some?
      ensures !requested || response.Err? ==> unchanged(this)
      ensures requested && response.Ok? ==>
        && data == RemoveById(old(data), ProfessionalId, old(selectedProfissional).value.professionalId)
        && NoneWithId(data, ProfessionalId, old(selectedProfissional).value.professionalId)
        && !isDeletePopupOpen
        && isAddPopupOpen == old(isAddPopupOpen) && isEditPopupOpen == old(isEditPopupOpen)
        && selectedProfissional == old(selectedProfissional)
        && newProfissional == old(newProfissional)
    {
      if selectedProfissional.None? {
        return false;
      }
      requested := true;
      if response.Ok? {
        RemoveByIdNoneLeft(data, ProfessionalId, selectedProfissional.value.professionalId);
        data := RemoveById(data, ProfessionalId, selectedProfissional.value.professionalId);
        isDeletePopupOpen := false;
      }
    }

    /** The "Cancelar" button of the add popup. */
    method CancelAdd()
      modifies this
      ensures !isAddPopupOpen
      ensures data == old(data) && isEditPopupOpen == old(isEditPopupOpen)
      ensures isDeletePopupOpen == old(isDeletePopupOpen)
      ensures selectedProfissional == old(selectedProfissional)
      ensures newProfissional == old(newProfissional)
    {
      isAddPopupOpen := false;
    }

    /** The "Cancelar" button of the edit popup; selection and form are kept. */
    method CancelEdit()
      modifies this
      ensures !isEditPopupOpen
      ensures data == old(data) && isAddPopupOpen == old(isAddPopupOpen)
      ensures isDeletePopupOpen == old(isDeletePopupOpen)
      ensures selectedProfissional == old(selectedProfissional)
      ensures newProfissional == old(newProfissional)
    {
      isEditPopupOpen := false;
    }

    /** The "Cancelar" button of the delete popup; the selection is kept. */
    method CancelDelete()
      modifies this
      ensures !isDeletePopupOpen
      ensures data == old(data) && isAddPopupOpen == old(isAddPopupOpen)
      ensures isEditPopupOpen == old(isEditPopupOpen)
      ensures selectedProfissional == old(selectedProfissional)
      ensures newProfissional == old(newProfissional)
    {
      isDeletePopupOpen := false;
    }
  }

  /** Typing a name and a specialty into a fresh page's add popup and pressing
      "Adicionar" twice: the first press issues a request exactly when neither input is
      empty; once a create has succeeded the form is back to blank, so the second press
      issues none, and after a failed create the second press repeats the first. */
  method AddTwiceFromForm(name: string, specialty: string, created: Outcome<Professional>,
                          refetch: Outcome<seq<Professional>>)
    returns (first: bool, second: bool)
    ensures first <==> name != "" && specialty != ""
    ensures created.Ok? ==> !second
    ensures created.Err? ==> second == first
  {
    var page := new ProfessionalPage();
    page.OpenAddPopup();
    page.ChangeField(FullName, name);
    page.ChangeField(Specialty, specialty);
    first := page.AddProfissional(created, refetch);
    second := page.AddProfissional(created, refetch);
  }
}
