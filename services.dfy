/** The services administration page (app/pages/services/page.tsx): a table of service
    records fetched on mount, with add, edit and delete popups. Each React state hook
    of the page is a field of `ServicesPage`; each handler is a method that runs as one
    step, with the result of its HTTP request passed in as an `Outcome`. */
module Services {
  import opened Outcomes
  import opened Collections

  /** Duration (minutes) and price are JavaScript numbers; they are kept as reals. */
  datatype Service = Service(
    serviceId: int,
    serviceName: string,
    description: string,
    duration: real,
    price: real)

  /** The key the page compares rows by. */
  function ServiceId(s: Service): int {
    s.serviceId
  }

  /** The form's initial value: id 0, empty texts, zero duration and price. */
  const BlankService: Service := Service(0, "", "", 0.0, 0.0)

  /** The add handler's guard `!name || !description || !duration || !price` negated:
      an empty string and the number 0 are the falsy values, so a negative duration or
      price passes. */
  predicate IsComplete(s: Service) {
    s.serviceName != "" && s.description != "" && s.duration != 0.0 && s.price != 0.0
  }

  /** One keystroke in the add or edit popup: `{ ...newService, field: value }`, where
      the duration and price inputs are converted with unary `+` first. */
  datatype FieldEdit =
    | SetServiceName(name: string)
    | SetDescription(text: string)
    | SetDuration(minutes: real)
    | SetPrice(amount: real)

  /** The form after an edit: the edited field holds the new value, nothing else and
      never the id changes. */
  function Edited(s: Service, e: FieldEdit): (r: Service)
    ensures r.serviceId == s.serviceId
    ensures if e.SetServiceName? then r.serviceName == e.name else r.serviceName == s.serviceName
    ensures if e.SetDescription? then r.description == e.text else r.description == s.description
    ensures if e.SetDuration? then r.duration == e.minutes else r.duration == s.duration
    ensures if e.SetPrice? then r.price == e.amount else r.price == s.price
  {
    match e
    case SetServiceName(name) => s.(serviceName := name)
    case SetDescription(text) => s.(description := text)
    case SetDuration(minutes) => s.(duration := minutes)
    case SetPrice(amount) => s.(price := amount)
  }

  class ServicesPage {
    var data: seq<Service>
    var isAddPopupOpen: bool
    var isEditPopupOpen: bool
    var isDeletePopupOpen: bool
    var selectedService: Option<Service>
    var newService: Service

    /** The state hooks' initial values. */
    constructor ()
      ensures data == [] && selectedService == None && newService == BlankService
      ensures !isAddPopupOpen && !isEditPopupOpen && !isDeletePopupOpen
    {
      data := [];
      isAddPopupOpen, isEditPopupOpen, isDeletePopupOpen := false, false, false;
      selectedService := None;
      newService := BlankService;
    }

    /** The table is replaced by "Nenhum dado encontrado." exactly when `data` is empty. */
    predicate ShowsEmptyMessage()
      reads this
    {
      |data| == 0
    }

    /** The edit popup is rendered only while its flag is set and a service is selected. */
    predicate ShowsEditPopup()
      reads this
    {
      isEditPopupOpen && selectedService.Some?
    }

    /** The delete popup is rendered only while its flag is set and a service is selected. */
    predicate ShowsDeletePopup()
      reads this
    {
      isDeletePopupOpen && selectedService.Some?
    }

    /** fetchServices, run on mount: `setData(response.data || [])`; a missing body gives
        the empty list, a failed request is only logged. */
    method FetchServices(response: Outcome<Option<seq<Service>>>)
      modifies this
      ensures response.Ok? && response.payload.Some? ==> data == response.payload.value
      ensures response.Ok? && response.payload.None? ==> data == [] && ShowsEmptyMessage()
      ensures response.Err? ==> data == old(data)
      ensures isAddPopupOpen == old(isAddPopupOpen) && isEditPopupOpen == old(isEditPopupOpen)
      ensures isDeletePopupOpen == old(isDeletePopupOpen)
      ensures selectedService == old(selectedService) && newService == old(newService)
    {
      if response.Ok? {
        data := match response.payload
          case Some(services) => services
          case None => [];
      }
    }

    /** The "Adicionar Serviço" button. */
    method OpenAddPopup()
      modifies this
      ensures isAddPopupOpen
      ensures data == old(data) && isEditPopupOpen == old(isEditPopupOpen)
      ensures isDeletePopupOpen == old(isDeletePopupOpen)
      ensures selectedService == old(selectedService) && newService == old(newService)
    {
      isAddPopupOpen := true;
    }

    /** Typing in one input of the add or edit popup. */
    method ChangeField(e: FieldEdit)
      modifies this
      ensures newService == Edited(old(newService), e)
      ensures data == old(data) && isAddPopupOpen == old(isAddPopupOpen)
      ensures isEditPopupOpen == old(isEditPopupOpen) && isDeletePopupOpen == old(isDeletePopupOpen)
      ensures selectedService == old(selectedService)
    {
      newService := Edited(newService, e);
    }

    /** handleAddService. An incomplete form returns before any request and changes
        nothing; otherwise the request is issued and, when it succeeds, the server's
        record is appended and the add popup closes. A failed request is only logged. */
    method AddService(response: Outcome<Service>) returns (requested: bool)
      modifies this
      ensures requested <==> IsComplete(old(newService))
      ensures !requested || response.Err? ==> unchanged(this)
      ensures requested && response.Ok? ==>
        && data == Append(old(data), response.payload)
        && !isAddPopupOpen
        && !ShowsEmptyMessage()
        && isEditPopupOpen == old(isEditPopupOpen) && isDeletePopupOpen == old(isDeletePopupOpen)
        && selectedService == old(selectedService) && newService == old(newService)
    {
      if !IsComplete(newService) {
        return false;
      }
      requested := true;
      if response.Ok? {
        data := Append(data, response.payload);
        isAddPopupOpen := false;
      }
    }

    /** handleEditClick: the clicked row becomes both the selection and the form. */
    method EditClick(s: Service)
      modifies this
      ensures selectedService == Some(s) && newService == s && isEditPopupOpen && ShowsEditPopup()
      ensures data == old(data) && isAddPopupOpen == old(isAddPopupOpen)
      ensures isDeletePopupOpen == old(isDeletePopupOpen)
    {
      selectedService := Some(s);
      newService := s;
      isEditPopupOpen := true;
    }

    /** handleEditService. Without a selection nothing happens. Otherwise the form is
        sent (no field check) and, on success, every row carrying the selected id
        becomes the form and the edit popup closes. A failed request is only logged. */
    method EditService(response: Outcome<()>) returns (requested: bool)
      modifies this
      ensures requested <==> old(selectedService).Some?
      ensures !requested || response.Err? ==> unchanged(this)
      ensures requested && response.Ok? ==>
        && data == ReplaceById(old(data), ServiceId, old(selectedService).value.serviceId, old(newService))
        && !isEditPopupOpen
        && isAddPopupOpen == old(isAddPopupOpen) && isDeletePopupOpen == old(isDeletePopupOpen)
        && selectedService == old(selectedService) && newService == old(newService)
    {
      if selectedService.None? {
        return false;
      }
      requested := true;
      if response.Ok? {
        data := ReplaceById(data, ServiceId, selectedService.value.serviceId, newService);
        isEditPopupOpen := false;
      }
    }

    /** handleDeleteClick: the clicked row becomes the selection; the form is untouched. */
    method DeleteClick(s: Service)
      modifies this
      ensures selectedService == Some(s) && isDeletePopupOpen && ShowsDeletePopup()
      ensures data == old(data) && newService == old(newService)
      ensures isAddPopupOpen == old(isAddPopupOpen) && isEditPopupOpen == old(isEditPopupOpen)
    {
      selectedService := Some(s);
      isDeletePopupOpen := true;
    }

    /** handleDeleteService. Without a selection nothing happens. Otherwise, on success,
        every row carrying the selected id is dropped (no row with that id is left) and
        the delete popup closes. A failed request is only logged. */
    method DeleteService(response: Outcome<()>) returns (requested: bool)
      modifies this
      ensures requested <==> old(selectedService).Some?
      ensures !requested || response.Err? ==> unchanged(this)
      ensures requested && response.Ok? ==>
        && data == RemoveById(old(data), ServiceId, old(selectedService).value.serviceId)
        && NoneWithId(data, ServiceId, old(selectedService).value.serviceId)
        && !isDeletePopupOpen
        && isAddPopupOpen == old(isAddPopupOpen) && isEditPopupOpen == old(isEditPopupOpen)
        && selectedService == old(selectedService) && newService == old(newService)
    {
      if selectedService.None? {
        return false;
      }
      requested := true;
      if response.Ok? {
        RemoveByIdNoneLeft(data, ServiceId, selectedService.value.serviceId);
        data := RemoveById(data, ServiceId, selectedService.value.serviceId);
        isDeletePopupOpen := false;
      }
    }

    /** The "Cancelar" button of the add popup. */
    method CancelAdd()
      modifies this
      ensures !isAddPopupOpen
      ensures data == old(data) && isEditPopupOpen == old(isEditPopupOpen)
      ensures isDeletePopupOpen == old(isDeletePopupOpen)
      ensures selectedService == old(selectedService) && newService == old(newService)
    {
      isAddPopupOpen := false;
    }

    /** The "Cancelar" button of the edit popup; selection and form are kept. */
    method CancelEdit()
      modifies this
      ensures !isEditPopupOpen
      ensures data == old(data) && isAddPopupOpen == old(isAddPopupOpen)
      ensures isDeletePopupOpen == old(isDeletePopupOpen)
      ensures selectedService == old(selectedService) && newService == old(newService)
    {
      isEditPopupOpen := false;
    }

    /** The "Cancelar" button of the delete popup; the selection is kept. */
    method CancelDelete()
      modifies this
      ensures !isDeletePopupOpen
      ensures data == old(data) && isAddPopupOpen == old(isAddPopupOpen)
      ensures isEditPopupOpen == old(isEditPopupOpen)
      ensures selectedService == old(selectedService) && newService == old(newService)
    {
      isDeletePopupOpen := false;
    }
  }

  /** Filling the four inputs of a fresh page's add popup and pressing "Adicionar": a
      request is issued exactly when neither text is empty and neither number is zero
      (a negative duration or price passes), and only a successful one adds a row and
      closes the popup. */
  method AddFromForm(name: string, description: string, duration: real, price: real,
                     response: Outcome<Service>)
    returns (requested: bool, popupOpen: bool, rows: seq<Service>)
    ensures requested <==> name != "" && description != "" && duration != 0.0 && price != 0.0
    ensures requested && response.Ok? ==>
      && !popupOpen
      && rows == [response.payload]
    ensures !requested || response.Err? ==> popupOpen && rows == []
  {
    var page := new ServicesPage();
    page.OpenAddPopup();
    page.ChangeField(SetServiceName(name));
    page.ChangeField(SetDescription(description));
    page.ChangeField(SetDuration(duration));
    page.ChangeField(SetPrice(price));
    requested := page.AddService(response);
    popupOpen, rows := page.isAddPopupOpen, page.data;
  }
}
