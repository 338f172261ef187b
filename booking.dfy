/** The customer booking page (app/agenda/page.tsx). The customer picks a service, a
    professional, a date and one of seven fixed time slots, submits, and confirms in a
    modal; confirming only waits on a timer and then shows a success message. Each
    React state hook is a field of `Agenda`; each handler is a method. */
module Booking {
  import opened Outcomes

  /** A service as the booking page types it (its id is a string here). */
  datatype ServiceData = ServiceData(serviceId: string, serviceName: string, description: string, price: real)

  /** A professional as the booking page types it. */
  datatype ProfessionalData = ProfessionalData(professionalId: string, fullName: string, specialty: string)

  /** The day the calendar reports; the calendar library's `Date` is opaque here. */
  datatype CalendarDate = CalendarDate(epochDay: int)

  /** The hard-coded slots offered under "Horários", in display order. */
  const TimeSlots: seq<string> := ["08:00", "09:00", "10:00", "11:00", "12:00", "13:00", "14:00"]

  const SuccessMessage: string := "Agendamento realizado com sucesso!"

  /** No two entries of `s` are equal. */
  predicate Distinct(s: seq<string>) {
    forall i, j :: 0 <= i < j < |s| ==> s[i] != s[j]
  }

  /** How many of `slots` are drawn highlighted when `selected` is the chosen time: a
      slot is highlighted exactly when it equals the chosen time. */
  function HighlightCount(slots: seq<string>, selected: string): nat {
    if slots == [] then 0
    else (if slots[0] == selected then 1 else 0) + HighlightCount(slots[1..], selected)
  }

  /** Over distinct slots, the chosen time highlights exactly one slot when it is among
      them and none otherwise. */
  lemma {:induction false} HighlightCountDistinct(slots: seq<string>, selected: string)
    requires Distinct(slots)
    ensures HighlightCount(slots, selected) == (if selected in slots then 1 else 0)
  {
    if slots != [] {
      assert Distinct(slots[1..]) by {
        forall i, j | 0 <= i < j < |slots[1..]| ensures slots[1..][i] != slots[1..][j] {
          assert slots[1..][i] == slots[i + 1] && slots[1..][j] == slots[j + 1];
        }
      }
      HighlightCountDistinct(slots[1..], selected);
      if slots[0] == selected {
        assert selected !in slots[1..] by {
          forall k | 0 <= k < |slots[1..]| ensures slots[1..][k] != selected {
            assert slots[1..][k] == slots[k + 1];
          }
        }
      }
      assert slots == [slots[0]] + slots[1..];
    }
  }

  /** The seven slots are 08:00 to 14:00 on the hour and pairwise distinct, so the slot
      list is single-select: at most one slot is highlighted, and exactly one once a slot
      has been clicked. */
  lemma TimeSlotsSingleSelect(selected: string)
    ensures |TimeSlots| == 7 && Distinct(TimeSlots)
    ensures HighlightCount(TimeSlots, selected) <= 1
    ensures HighlightCount(TimeSlots, selected) == 1 <==> selected in TimeSlots
  {
    assert Distinct(TimeSlots) by {
      forall i, j | 0 <= i < j < |TimeSlots| ensures TimeSlots[i] != TimeSlots[j] {
        assert TimeSlots[i][1] != TimeSlots[j][1] || TimeSlots[i][0] != TimeSlots[j][0];
      }
    }
    HighlightCountDistinct(TimeSlots, selected);
  }

  class Agenda {
    var services: seq<ServiceData>
    var professionals: seq<ProfessionalData>
    var selectedService: Option<ServiceData>
    var selectedProfessional: Option<ProfessionalData>
    var selectedDate: Option<CalendarDate>
    var selectedTime: string
    var showModal: bool
    var loading: bool
    var confirmationMessage: Option<string>

    /** The state hooks' initial values: nothing chosen, no time, no modal, no spinner,
        no message. */
    constructor ()
      ensures services == [] && professionals == []
      ensures selectedService == None && selectedProfessional == None && selectedDate == None
      ensures selectedTime == "" && HighlightCount(TimeSlots, selectedTime) == 0
      ensures !showModal && !loading && confirmationMessage == None
      ensures ShowsServiceList() && ShowsProfessionalList()
    {
      services, professionals := [], [];
      selectedService, selectedProfessional, selectedDate := None, None, None;
      selectedTime := "";
      showModal, loading := false, false;
      confirmationMessage := None;
      TimeSlotsSingleSelect("");
    }

    /** The "Serviços" list is drawn exactly when no service is chosen; otherwise a
        compact item names the chosen one. */
    predicate ShowsServiceList()
      reads this
    {
      selectedService.None?
    }

    /** The "Profissionais" list is drawn exactly when no professional is chosen. */
    predicate ShowsProfessionalList()
      reads this
    {
      selectedProfessional.None?
    }

    /** The slot `time` is drawn highlighted. */
    predicate IsHighlighted(time: string)
      reads this
    {
      selectedTime == time
    }

    /** The fields a selection handler does not touch: both fetched lists, the modal,
        the spinner and the message. */
    twostate predicate UntouchedBySelection()
      reads this
    {
      && services == old(services) && professionals == old(professionals)
      && showModal == old(showModal) && loading == old(loading)
      && confirmationMessage == old(confirmationMessage)
    }

    /** fetchServices, run on mount: the response replaces the list; a failed request is
        only logged and leaves the list as it was. */
    method FetchServices(response: Outcome<seq<ServiceData>>)
      modifies this
      ensures services == (if response.Ok? then response.payload else old(services))
      ensures professionals == old(professionals)
      ensures selectedService == old(selectedService) && selectedProfessional == old(selectedProfessional)
      ensures selectedDate == old(selectedDate) && selectedTime == old(selectedTime)
      ensures showModal == old(showModal) && loading == old(loading)
      ensures confirmationMessage == old(confirmationMessage)
    {
      if response.Ok? {
        services := response.payload;
      }
    }

    /** fetchProfessionals, run on mount beside fetchServices. */
    method FetchProfessionals(response: Outcome<seq<ProfessionalData>>)
      modifies this
      ensures professionals == (if response.Ok? then response.payload else old(professionals))
      ensures services == old(services)
      ensures selectedService == old(selectedService) && selectedProfessional == old(selectedProfessional)
      ensures selectedDate == old(selectedDate) && selectedTime == old(selectedTime)
      ensures showModal == old(showModal) && loading == old(loading)
      ensures confirmationMessage == old(confirmationMessage)
    {
      if response.Ok? {
        professionals := response.payload;
      }
    }

    /** handleServiceSelect: the clicked service is chosen and its list collapses. */
    method SelectService(s: ServiceData)
      modifies this
      ensures selectedService == Some(s) && !ShowsServiceList()
      ensures selectedProfessional == old(selectedProfessional) && selectedDate == old(selectedDate)
      ensures selectedTime == old(selectedTime) && UntouchedBySelection()
    {
      selectedService := Some(s);
    }

    /** Clicking the service's compact item: the choice is cleared and the list returns. */
    method DeselectService()
      modifies this
      ensures selectedService == None && ShowsServiceList()
      ensures selectedProfessional == old(selectedProfessional) && selectedDate == old(selectedDate)
      ensures selectedTime == old(selectedTime) && UntouchedBySelection()
    {
      selectedService := None;
    }

    /** handleProfessionalSelect: the clicked professional is chosen and its list
        collapses; the service choice is not affected. */
    method SelectProfessional(p: ProfessionalData)
      modifies this
      ensures selectedProfessional == Some(p) && !ShowsProfessionalList()
      ensures selectedService == old(selectedService) && selectedDate == old(selectedDate)
      ensures selectedTime == old(selectedTime) && UntouchedBySelection()
    {
      selectedProfessional := Some(p);
    }

    /** Clicking the professional's compact item: the choice is cleared and the list
        returns; the service choice is not affected. */
    method DeselectProfessional()
      modifies this
      ensures selectedProfessional == None && ShowsProfessionalList()
      ensures selectedService == old(selectedService) && selectedDate == old(selectedDate)
      ensures selectedTime == old(selectedTime) && UntouchedBySelection()
    {
      selectedProfessional := None;
    }

    /** handleDateChange: whatever the calendar reports, including no date, is stored. */
    method ChangeDate(date: Option<CalendarDate>)
      modifies this
      ensures selectedDate == date
      ensures selectedService == old(selectedService) && selectedProfessional == old(selectedProfessional)
      ensures selectedTime == old(selectedTime) && UntouchedBySelection()
    {
      selectedDate := date;
    }

    /** handleTimeSelect: the clicked slot, and no other, is highlighted afterwards. */
    method SelectTime(time: string)
      modifies this
      ensures selectedTime == time
      ensures forall t :: t in TimeSlots ==> (IsHighlighted(t) <==> t == time)
      ensures HighlightCount(TimeSlots, selectedTime) == (if time in TimeSlots then 1 else 0)
      ensures selectedService == old(selectedService) && selectedProfessional == old(selectedProfessional)
      ensures selectedDate == old(selectedDate) && UntouchedBySelection()
    {
      selectedTime := time;
      TimeSlotsSingleSelect(time);
    }

    /** handleSubmit ("Agendar"): opens the confirmation modal. Nothing is checked, so the
        modal opens even with no service, professional, date or time chosen. */
    method Submit()
      modifies this
      ensures showModal
      ensures selectedService == old(selectedService) && selectedProfessional == old(selectedProfessional)
      ensures selectedDate == old(selectedDate) && selectedTime == old(selectedTime)
      ensures services == old(services) && professionals == old(professionals)
      ensures loading == old(loading) && confirmationMessage == old(confirmationMessage)
    {
      showModal := true;
    }

    /** handleCancel ("Cancelar"): closes the modal and changes nothing else. */
    method Cancel()
      modifies this
      ensures !showModal
      ensures selectedService == old(selectedService) && selectedProfessional == old(selectedProfessional)
      ensures selectedDate == old(selectedDate) && selectedTime == old(selectedTime)
      ensures services == old(services) && professionals == old(professionals)
      ensures loading == old(loading) && confirmationMessage == old(confirmationMessage)
    {
      showModal := false;
    }

    /** handleConfirm up to its `await`: the modal closes and the spinner shows. No
        request is sent. */
    method Confirm()
      modifies this
      ensures !showModal && loading
      ensures selectedService == old(selectedService) && selectedProfessional == old(selectedProfessional)
      ensures selectedDate == old(selectedDate) && selectedTime == old(selectedTime)
      ensures services == old(services) && professionals == old(professionals)
      ensures confirmationMessage == old(confirmationMessage)
    {
      showModal := false;
      loading := true;
    }

    /** handleConfirm after the simulated three-second wait, which always resolves: the
        success message is set, then the `finally` block clears the spinner. The
        selections stay as they were. */
    method FinishConfirm()
      modifies this
      ensures !loading && confirmationMessage == Some(SuccessMessage)
      ensures showModal == old(showModal)
      ensures selectedService == old(selectedService) && selectedProfessional == old(selectedProfessional)
      ensures selectedDate == old(selectedDate) && selectedTime == old(selectedTime)
      ensures services == old(services) && professionals == old(professionals)
    {
      confirmationMessage := Some(SuccessMessage);
      loading := false;
    }

    /** The "Ok" button of the result dialog: the message is cleared. */
    method DismissMessage()
      modifies this
      ensures confirmationMessage == None
      ensures showModal == old(showModal) && loading == old(loading)
      ensures selectedService == old(selectedService) && selectedProfessional == old(selectedProfessional)
      ensures selectedDate == old(selectedDate) && selectedTime == old(selectedTime)
      ensures services == old(services) && professionals == old(professionals)
    {
      confirmationMessage := None;
    }
  }

  /** Submit, Confirm and the settled wait, in a row, from any state: the customer ends
      with no modal, no spinner, the success message and the selections untouched. */
  method SubmitAndConfirm(a: Agenda)
    modifies a
    ensures !a.showModal && !a.loading && a.confirmationMessage == Some(SuccessMessage)
    ensures a.selectedService == old(a.selectedService)
    ensures a.selectedProfessional == old(a.selectedProfessional)
    ensures a.selectedDate == old(a.selectedDate) && a.selectedTime == old(a.selectedTime)
  {
    a.Submit();
    a.Confirm();
    a.FinishConfirm();
  }
}
