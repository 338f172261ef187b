/** The appointments administration page (app/pages/appointments/page.tsx): a table of
    appointments fetched on mount, with add and delete popups (there is no edit). Each
    React state hook of the page is a field of `AppointmentsPage`; each handler is a
    method that runs as one step, with the result of its HTTP request passed in as an
    `Outcome`. */
module Appointments {
  import opened Outcomes
  import opened Collections

  /** A table row; the backend sends names rather than ids for the user, professional
      and service. */
  datatype Appointment = Appointment(
    appointmentsId: int,
    userName: string,
    professionalName: string,
    serviceName: string,
    appointmentDate: string,
    horario: string)

  /** An element of the GET response as the page's `ApiAppointment` interface types it. */
  datatype ApiAppointment = ApiAppointment(
    appointmentsId: int,
    userName: string,
    professionalName: string,
    serviceName: string,
    appointmentDate: string,
    horario: string)

  /** The key the page compares rows by. */
  function AppointmentId(a: Appointment): int {
    a.appointmentsId
  }

  /** The form's initial value: id 0 and every text field empty. */
  const BlankAppointment: Appointment := Appointment(0, "", "", "", "", "")

  /** The object literal built for one response element. */
  function Project(a: ApiAppointment): Appointment {
    Appointment(a.appointmentsId, a.userName, a.professionalName, a.serviceName,
                a.appointmentDate, a.horario)
  }

  /** `response.data.map(...)`: one row per response element, in the response's order. */
  function ProjectAll(s: seq<ApiAppointment>): (r: seq<Appointment>)
    ensures |r| == |s|
    ensures forall i :: 0 <= i < |s| ==> r[i] == Project(s[i])
  {
    if s == [] then [] else [Project(s[0])] + ProjectAll(s[1..])
  }

  /** With the six-field response interface the page declares, the projection loses
      nothing: the response can be read back from the rows. */
  lemma ProjectAllInjective(s: seq<ApiAppointment>, t: seq<ApiAppointment>)
    requires ProjectAll(s) == ProjectAll(t)
    ensures s == t
  {
    assert |s| == |t|;
    forall i | 0 <= i < |s| ensures s[i] == t[i] {
      assert Project(s[i]) == ProjectAll(s)[i] == ProjectAll(t)[i] == Project(t[i]);
    }
  }

  /** The five inputs of the add popup; each `onChange` spreads the previous form and
      overwrites one of these fields. */
  datatype Field = UserName | ProfessionalName | ServiceName | AppointmentDate | Horario

  /** `prev => ({ ...prev, [field]: value })`: the named field takes the typed value;
      the other fields and the id are kept. */
  function WithField(a: Appointment, f: Field, value: string): (r: Appointment)
    ensures r.appointmentsId == a.appointmentsId
    ensures r.userName == (if f == UserName then value else a.userName)
    ensures r.professionalName == (if f == ProfessionalName then value else a.professionalName)
    ensures r.serviceName == (if f == ServiceName then value else a.serviceName)
    ensures r.appointmentDate == (if f == AppointmentDate then value else a.appointmentDate)
    ensures r.horario == (if f == Horario then value else a.horario)
  {
    match f
    case UserName => a.(userName := value)
    case ProfessionalName => a.(professionalName := value)
    case ServiceName => a.(serviceName := value)
    case AppointmentDate => a.(appointmentDate := value)
    case Horario => a.(horario := value)
  }

  class AppointmentsPage {
    var data: seq<Appointment>
    var isAddPopupOpen: bool
    var isDeletePopupOpen: bool
    var selectedAppointment: Option<Appointment>
    var newAppointment: Appointment

    /** The state hooks' initial values. */
    constructor ()
      ensures data == [] && selectedAppointment == None && newAppointment == BlankAppointment
      ensures !isAddPopupOpen && !isDeletePopupOpen
    {
      data := [];
      isAddPopupOpen, isDeletePopupOpen := false, false;
      selectedAppointment := None;
      newAppointment := BlankAppointment;
    }

    /** The delete popup is rendered only while its flag is set and a row is selected. */
    predicate ShowsDeletePopup()
      reads this
    {
      isDeletePopupOpen && selectedAppointment.Some?
    }

    /** fetchAppointments, run on mount: `data` becomes the projected response, row for
        row; a failed request is only logged. */
    method FetchAppointments(response: Outcome<seq<ApiAppointment>>)
      modifies this
      ensures response.Ok? ==> |data| == |response.payload|
      ensures response.Ok? ==> forall i :: 0 <= i < |data| ==>
        && data[i].appointmentsId == response.payload[i].appointmentsId
        && data[i].userName == response.payload[i].userName
        && data[i].professionalName == response.payload[i].professionalName
        && data[i].serviceName == response.payload[i].serviceName
        && data[i].appointmentDate == response.payload[i].appointmentDate
        && data[i].horario == response.payload[i].horario
      ensures response.Err? ==> data == old(data)
      ensures isAddPopupOpen == old(isAddPopupOpen) && isDeletePopupOpen == old(isDeletePopupOpen)
      ensures selectedAppointment == old(selectedAppointment)
      ensures newAppointment == old(newAppointment)
    {
      if response.Ok? {
        data := ProjectAll(response.payload);
      }
    }

    /** The "Adicionar" button above the table. */
    method OpenAddPopup()
      modifies this
      ensures isAddPopupOpen
      ensures data == old(data) && isDeletePopupOpen == old(isDeletePopupOpen)
      ensures selectedAppointment == old(selectedAppointment)
      ensures newAppointment == old(newAppointment)
    {
      isAddPopupOpen := true;
    }

    /** Typing in one input of the add popup. */
    method ChangeField(f: Field, value: string)
      modifies this
      ensures newAppointment == WithField(old(newAppointment), f, value)
      ensures data == old(data) && isAddPopupOpen == old(isAddPopupOpen)
      ensures isDeletePopupOpen == old(isDeletePopupOpen)
      ensures selectedAppointment == old(selectedAppointment)
    {
      newAppointment := WithField(newAppointment, f, value);
    }

    /** handleAddAppointment. There is no client-side check: the current form is always
        posted. On success the server's record is appended and the popup closes; a
        failed request is only logged. */
    method AddAppointment(response: Outcome<Appointment>)
      modifies this
      ensures response.Err? ==> unchanged(this)
      ensures response.Ok? ==>
        && data == Append(old(data), response.payload)
        && !isAddPopupOpen
        && isDeletePopupOpen == old(isDeletePopupOpen)
        && selectedAppointment == old(selectedAppointment)
        && newAppointment == old(newAppointment)
    {
      if response.Ok? {
        data := Append(data, response.payload);
        isAddPopupOpen := false;
      }
    }

    /** handleDeleteClick: the clicked row becomes the selection. */
    method DeleteClick(a: Appointment)
      modifies this
      ensures selectedAppointment == Some(a) && isDeletePopupOpen && ShowsDeletePopup()
      ensures data == old(data) && newAppointment == old(newAppointment)
      ensures isAddPopupOpen == old(isAddPopupOpen)
    {
      selectedAppointment := Some(a);
      isDeletePopupOpen := true;
    }

    /** handleDeleteAppointment. Without a selection nothing happens. Otherwise, on
        success, every row carrying the selected id is dropped (no row with that id is
        left) and the delete popup closes. A failed request is only logged. */
    method DeleteAppointment(response: Outcome<()>) returns (requested: bool)
      modifies this
      ensures requested <==> old(selectedAppointment).Some?
      ensures !requested || response.Err? ==> unchanged(this)
      ensures requested && response.Ok? ==>
        && data == RemoveById(old(data), AppointmentId, old(selectedAppointment).value.appointmentsId)
        && NoneWithId(data, AppointmentId, old(selectedAppointment).value.appointmentsId)
        && !isDeletePopupOpen
        && isAddPopupOpen == old(isAddPopupOpen)
        && selectedAppointment == old(selectedAppointment)
        && newAppointment == old(newAppointment)
    {
      if selectedAppointment.None? {
        return false;
      }
      requested := true;
      if response.Ok? {
        RemoveByIdNoneLeft(data, AppointmentId, selectedAppointment.value.appointmentsId);
        data := RemoveById(data, AppointmentId, selectedAppointment.value.appointmentsId);
        isDeletePopupOpen := false;
      }
    }

    /** The "Cancelar" button of the add popup. */
    method CancelAdd()
      modifies this
      ensures !isAddPopupOpen
      ensures data == old(data) && isDeletePopupOpen == old(isDeletePopupOpen)
      ensures selectedAppointment == old(selectedAppointment)
      ensures newAppointment == old(newAppointment)
    {
      isAddPopupOpen := false;
    }

    /** The "Cancelar" button of the delete popup; the selection is kept. */
    method CancelDelete()
      modifies this
      ensures !isDeletePopupOpen
      ensures data == old(data) && isAddPopupOpen == old(isAddPopupOpen)
      ensures selectedAppointment == old(selectedAppointment)
      ensures newAppointment == old(newAppointment)
    {
      isDeletePopupOpen := false;
    }
  }
}
