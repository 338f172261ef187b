# agenda-easy: the client-side state of a salon booking front-end, in Dafny

agenda-easy is a React front-end for a small salon. Customers book an appointment by
picking a service, a professional, a date and a time slot. Administrators manage users,
services, professionals and appointments in table pages. Every business rule lives in a
REST backend. What the front-end itself decides is small: how each page's state hooks
change when a handler runs. This project models that state and proves what the handlers
promise.

- `outcomes.dfy` (module `Outcomes`): `Outcome<T> = Ok(payload) | Err` stands for an
  awaited HTTP request. `Option<T>` stands for a nullable state value.
- `collections.dfy` (module `Collections`): the three list transforms the table pages
  apply after a successful request. These are the spread-append of a create
  (`Append`), the id-matching `map` of an edit (`ReplaceById`) and the id-filtering
  `filter` of a delete (`RemoveById`). Lemmas cover each transform alone and how they
  combine.
- `users.dfy`, `services.dfy`, `professionals.dfy`, `appointments.dfy`: one class per
  table page. Its fields are the page's state hooks: `data`, the popup flags (three, or
  two on the appointments page, which has no edit popup), the selected row and the
  form. Its methods are the page's handlers. A handler that may skip its request
  returns `requested`, and its postcondition says when that happens. A successful
  fetch replaces `data` with the response body: `[]` for a missing body on the users
  and services pages, and the six-field projection of each element on the appointments
  page. A successful create, edit or delete sets `data` to one of the `Collections`
  transforms of the old `data`; the professionals' create then re-fetches, and a
  successful re-fetch replaces that list with the server's. A failed request leaves
  the state unchanged.
- `booking.dfy` (module `Booking`): the booking page as class `Agenda`, plus the seven
  fixed time slots and the proof that selecting a slot is exclusive.
- `sessionguard.dfy` (module `SessionGuard`): the token check over local storage, the
  three render branches, and the mount effect as class `Dashboard`.

Each handler runs as one atomic step, with its request's result given as an `Outcome`
parameter. Two handlers span more than one awaited step. The booking confirmation is
split at its `await` into `Confirm`, which shows the spinner, and `FinishConfirm`, which
sets the message and clears the spinner. The professionals' create takes two
`Outcome`s, one for the create and one for the re-fetch it starts without awaiting.

## Model

| member | source | states |
|---|---|---|
| Collections.Append | app/pages/users/page.tsx:130 | a create appends the server's record at the end: length grows by one, every earlier record keeps its index |
| Collections.AppendFreshOnce | app/pages/services/page.tsx:121 | a created record whose id was absent appears exactly once afterwards, at the last index |
| Collections.ReplaceById | app/pages/users/page.tsx:150-152 | an edit's `map` keeps the collection's length |
| Collections.ReplaceByIdSpec | app/pages/users/page.tsx:150-152 | exactly the records carrying the selected id become the form record; every other record is unchanged at its index; length unchanged |
| Collections.ReplaceByIdAbsent | app/pages/services/page.tsx:143-147 | editing an id no row carries leaves the collection as it was |
| Collections.ReplaceByIdIdempotent | app/pages/professional/page.tsx:159-165 | applying the same edit twice equals applying it once |
| Collections.ReplaceByIdKeepsIds | app/pages/users/page.tsx:137-152 | when the form keeps the selected id (as the edit click leaves it), every index keeps its id |
| Collections.RemoveById | app/pages/users/page.tsx:170-172 | a delete's `filter` never grows the collection |
| Collections.RemoveByIdMembers | app/pages/users/page.tsx:170-172 | a record is in the result iff it was in the collection and its id differs from the deleted id |
| Collections.RemoveByIdNoneLeft | app/pages/services/page.tsx:166-168 | no record with the deleted id is left |
| Collections.RemoveByIdConcat | app/pages/professional/page.tsx:184-188 | filtering a concatenation concatenates the filtered parts, so kept records keep their relative order |
| Collections.RemoveByIdAbsent | app/pages/appointments/page.tsx:170-175 | deleting an id no row carries leaves the collection unchanged |
| Collections.RemoveByIdShrinks | app/pages/appointments/page.tsx:170-175 | the collection gets shorter iff some record carried the deleted id |
| Collections.RemoveByIdIdempotent | app/pages/users/page.tsx:170-172 | applying the same delete twice equals applying it once |
| Collections.AppendThenRemove | app/pages/appointments/page.tsx:152 | deleting the id of a just-created record gives what that delete gave before the create |
| Collections.ReplaceThenRemove | app/pages/services/page.tsx:143-168 | deleting after an edit that kept the id gives what deleting alone gives |
| Users.IsComplete | app/pages/users/page.tsx:119-124 | the add guard: none of full name, phone number, email and password hash is empty |
| Users.AddWithoutTyping | app/pages/users/page.tsx:117-126 | on a fresh page, opening the add popup and pressing "Adicionar" without typing issues no request, leaves the popup open and the table empty |
| Users.UsersPage.ShowsEmptyMessage | app/pages/users/page.tsx:213 | "Nenhum dado encontrado." replaces the table exactly when there are no rows |
| Users.UsersPage.ShowsEditPopup | app/pages/users/page.tsx:342 | the edit popup is rendered exactly when its flag is set and a user is selected |
| Users.UsersPage.ShowsDeletePopup | app/pages/users/page.tsx:414 | the delete popup is rendered exactly when its flag is set and a user is selected |
| Users.WithField | app/pages/users/page.tsx:280-325 | an input's `onChange` sets its field to the typed text and keeps the id and the other fields |
| Users.UsersPage.constructor | app/pages/users/page.tsx:87-102 | empty data, no popup open, no selection, blank form |
| Users.UsersPage.FetchUsers | app/pages/users/page.tsx:104-115 | data becomes the response body, or [] when the body is missing; a failure leaves data as it was; nothing else changes |
| Users.UsersPage.OpenAddPopup | app/pages/users/page.tsx:207 | opens the add popup; nothing else changes |
| Users.UsersPage.ChangeField | app/pages/users/page.tsx:280-325 | the form takes the field edit; nothing else changes |
| Users.UsersPage.AddUser | app/pages/users/page.tsx:117-135 | a request is made iff fullName, phoneNumber, email and passwordHash are all non-empty; no request or a failure changes nothing; success appends the server record, closes the add popup, hides the empty-table message, and changes nothing else |
| Users.UsersPage.EditClick | app/pages/users/page.tsx:137-141 | the clicked row becomes both the selection and the form; the edit popup opens and is rendered |
| Users.UsersPage.EditUser | app/pages/users/page.tsx:143-158 | a request is made iff a user is selected; success replaces the rows carrying the selected userId with the form and closes the edit popup; no request or a failure changes nothing |
| Users.UsersPage.DeleteClick | app/pages/users/page.tsx:160-163 | the clicked row becomes the selection; the delete popup opens and is rendered; the form is kept |
| Users.UsersPage.DeleteUser | app/pages/users/page.tsx:165-178 | a request is made iff a user is selected; success removes every row carrying the selected userId, leaving none, and closes the popup; no request or a failure changes nothing |
| Users.UsersPage.CancelAdd | app/pages/users/page.tsx:330 | closes the add popup only |
| Users.UsersPage.CancelEdit | app/pages/users/page.tsx:402 | closes the edit popup only; selection and form are kept |
| Users.UsersPage.CancelDelete | app/pages/users/page.tsx:424 | closes the delete popup only |
| Services.IsComplete | app/pages/services/page.tsx:107-112 | the add guard: name and description non-empty, duration and price non-zero |
| Services.AddFromForm | app/pages/services/page.tsx:105-126 | on a fresh page, typing the four inputs and pressing "Adicionar" issues a request iff neither text is empty and neither number is zero (negative numbers pass); only a successful request adds the server's row and closes the popup, otherwise the popup stays open over an empty table |
| Services.ServicesPage.ShowsEmptyMessage | app/pages/services/page.tsx:209 | "Nenhum dado encontrado." replaces the table exactly when there are no rows |
| Services.ServicesPage.ShowsEditPopup | app/pages/services/page.tsx:334 | the edit popup is rendered exactly when its flag is set and a service is selected |
| Services.ServicesPage.ShowsDeletePopup | app/pages/services/page.tsx:409 | the delete popup is rendered exactly when its flag is set and a service is selected |
| Services.Edited | app/pages/services/page.tsx:276-323 | an input's `onChange` sets exactly its field (duration and price as numbers) and keeps the id |
| Services.ServicesPage.constructor | app/pages/services/page.tsx:75-90 | empty data, no popup open, no selection, blank form |
| Services.ServicesPage.FetchServices | app/pages/services/page.tsx:92-103 | data becomes the response body, or [] (shown as "Nenhum dado encontrado.") when the body is missing; a failure leaves data as it was |
| Services.ServicesPage.OpenAddPopup | app/pages/services/page.tsx:203 | opens the add popup; nothing else changes |
| Services.ServicesPage.ChangeField | app/pages/services/page.tsx:276-323 | the form takes the field edit; nothing else changes |
| Services.ServicesPage.AddService | app/pages/services/page.tsx:105-126 | a request is made iff the guard passes; success appends the server record, closes the add popup and hides the empty-table message; no request or a failure changes nothing |
| Services.ServicesPage.EditClick | app/pages/services/page.tsx:128-132 | the clicked row becomes both the selection and the form; the edit popup opens and is rendered |
| Services.ServicesPage.EditService | app/pages/services/page.tsx:134-153 | a request is made iff a service is selected; success replaces the rows carrying the selected serviceId with the form and closes the popup; no request or a failure changes nothing |
| Services.ServicesPage.DeleteClick | app/pages/services/page.tsx:155-158 | the clicked row becomes the selection; the delete popup opens and is rendered |
| Services.ServicesPage.DeleteService | app/pages/services/page.tsx:160-174 | a request is made iff a service is selected; success removes every row carrying the selected serviceId and closes the popup; no request or a failure changes nothing |
| Services.ServicesPage.CancelAdd | app/pages/services/page.tsx:326 | closes the add popup only |
| Services.ServicesPage.CancelEdit | app/pages/services/page.tsx:399 | closes the edit popup only |
| Services.ServicesPage.CancelDelete | app/pages/services/page.tsx:418 | closes the delete popup only |
| Professionals.IsComplete | app/pages/professional/page.tsx:119 | the guard shared by add and edit (repeated at line 150): name and specialty non-empty |
| Professionals.AddTwiceFromForm | app/pages/professional/page.tsx:117-139 | on a fresh page, the first press of "Adicionar" requests iff name and specialty are non-empty; after a successful create the form is reset, so a second press issues no request; after a failed create the second press repeats the first |
| Professionals.ProfessionalPage.ShowsEditPopup | app/pages/professional/page.tsx:316 | the edit popup is rendered exactly when its flag is set and a professional is selected |
| Professionals.ProfessionalPage.ShowsDeletePopup | app/pages/professional/page.tsx:354 | the delete popup is rendered exactly when its flag is set and a professional is selected |
| Professionals.WithField | app/pages/professional/page.tsx:283-300 | an input's `onChange` sets its field and keeps the id and the other field |
| Professionals.ProfessionalPage.constructor | app/pages/professional/page.tsx:86-100 | empty data, no popup open, no selection, blank form |
| Professionals.ProfessionalPage.FetchProfissionais | app/pages/professional/page.tsx:102-111 | data becomes the response body as it is; a failure leaves data as it was |
| Professionals.ProfessionalPage.OpenAddPopup | app/pages/professional/page.tsx:223 | opens the add popup; nothing else changes |
| Professionals.ProfessionalPage.ChangeField | app/pages/professional/page.tsx:283-300 | the form takes the field edit; nothing else changes |
| Professionals.ProfessionalPage.AddProfissional | app/pages/professional/page.tsx:117-139 | a request is made iff fullName and specialty are non-empty; on success the form resets to the blank record, the popup closes, and data is the refetched list (or the appended list if the refetch fails); no request or a failed create changes nothing |
| Professionals.ProfessionalPage.EditClick | app/pages/professional/page.tsx:141-145 | the clicked row becomes both the selection and the form; the edit popup opens and is rendered |
| Professionals.ProfessionalPage.EditProfissional | app/pages/professional/page.tsx:147-171 | a request is made iff a row is selected and the form passes the same guard as add; success replaces the rows carrying the selected id and closes the popup; otherwise nothing changes |
| Professionals.ProfessionalPage.DeleteClick | app/pages/professional/page.tsx:173-176 | the clicked row becomes the selection; the delete popup opens and is rendered |
| Professionals.ProfessionalPage.DeleteProfissional | app/pages/professional/page.tsx:178-194 | a request is made iff a row is selected; success removes every row carrying the selected id and closes the popup; no request or a failure changes nothing |
| Professionals.ProfessionalPage.CancelAdd | app/pages/professional/page.tsx:306 | closes the add popup only |
| Professionals.ProfessionalPage.CancelEdit | app/pages/professional/page.tsx:344 | closes the edit popup only |
| Professionals.ProfessionalPage.CancelDelete | app/pages/professional/page.tsx:364 | closes the delete popup only |
| Appointments.ProjectAll | app/pages/appointments/page.tsx:130-137 | the projection keeps the response's length and order, row i projecting element i |
| Appointments.ProjectAllInjective | app/pages/appointments/page.tsx:114-121 | for the six-field response interface the page declares, the projection loses nothing: equal projections come from equal responses (any further key the backend sends is dropped by the `map` and is outside this statement) |
| Appointments.AppointmentsPage.ShowsDeletePopup | app/pages/appointments/page.tsx:369 | the delete popup is rendered exactly when its flag is set and an appointment is selected |
| Appointments.WithField | app/pages/appointments/page.tsx:288-350 | an input's `onChange` sets its field and keeps the id and the other fields |
| Appointments.AppointmentsPage.constructor | app/pages/appointments/page.tsx:96-112 | empty data, no popup open, no selection, blank form |
| Appointments.AppointmentsPage.FetchAppointments | app/pages/appointments/page.tsx:123-144 | data has one row per response element, in order, each carrying the element's six fields unchanged; a failure leaves data as it was |
| Appointments.AppointmentsPage.OpenAddPopup | app/pages/appointments/page.tsx:216 | opens the add popup; nothing else changes |
| Appointments.AppointmentsPage.ChangeField | app/pages/appointments/page.tsx:288-350 | the form takes the field edit; nothing else changes |
| Appointments.AppointmentsPage.AddAppointment | app/pages/appointments/page.tsx:146-157 | no client-side check: the form is always posted; success appends the server record and closes the popup; a failure changes nothing |
| Appointments.AppointmentsPage.DeleteClick | app/pages/appointments/page.tsx:159-162 | the clicked row becomes the selection; the delete popup opens and is rendered |
| Appointments.AppointmentsPage.DeleteAppointment | app/pages/appointments/page.tsx:164-181 | a request is made iff a row is selected; success removes every row carrying the selected appointmentsId and closes the popup; no request or a failure changes nothing |
| Appointments.AppointmentsPage.CancelAdd | app/pages/appointments/page.tsx:357 | closes the add popup only |
| Appointments.AppointmentsPage.CancelDelete | app/pages/appointments/page.tsx:380 | closes the delete popup only |
| Booking.HighlightCount | app/agenda/page.tsx:194-198 | the number of slots drawn highlighted: those equal to the selected time |
| Booking.Agenda.IsHighlighted | app/agenda/page.tsx:198 | a slot is drawn highlighted exactly when it equals the selected time |
| Booking.Agenda.ShowsServiceList | app/agenda/page.tsx:134 | the service list is drawn exactly when no service is selected |
| Booking.Agenda.ShowsProfessionalList | app/agenda/page.tsx:151 | the professional list is drawn exactly when no professional is selected |
| Booking.HighlightCountDistinct | app/agenda/page.tsx:194-200 | over distinct slots, the selected time highlights exactly one slot if it is among them and none otherwise |
| Booking.TimeSlotsSingleSelect | app/agenda/page.tsx:186-200 | the seven slots are distinct, so at most one slot is highlighted, and exactly one iff the selected time is a slot |
| Booking.Agenda.constructor | app/agenda/page.tsx:25-38 | no service, professional or date; time ''; no slot highlighted; modal and spinner off; no message; both browsing lists shown |
| Booking.Agenda.FetchServices | app/agenda/page.tsx:41-48 | the response replaces the service list; a failure leaves it; nothing else changes |
| Booking.Agenda.FetchProfessionals | app/agenda/page.tsx:50-57 | the response replaces the professional list; a failure leaves it; nothing else changes |
| Booking.Agenda.SelectService | app/agenda/page.tsx:63-65 | the service is selected and its list is hidden; the other selections and the modal state are unchanged |
| Booking.Agenda.DeselectService | app/agenda/page.tsx:115-122 | the compact item clears the service and the list is shown again; nothing else changes |
| Booking.Agenda.SelectProfessional | app/agenda/page.tsx:67-69 | the professional is selected and its list is hidden; the service selection is unchanged |
| Booking.Agenda.DeselectProfessional | app/agenda/page.tsx:124-131 | the compact item clears the professional and the list is shown again; the service selection is unchanged |
| Booking.Agenda.ChangeDate | app/agenda/page.tsx:71-73 | the calendar's date (or none) is stored; nothing else changes |
| Booking.Agenda.SelectTime | app/agenda/page.tsx:75-77 | the selected time is the clicked one; a slot is highlighted iff it equals that time, so exactly one slot is highlighted when a slot was clicked |
| Booking.Agenda.Submit | app/agenda/page.tsx:79-81 | opens the confirmation modal with no check of the selections; nothing else changes |
| Booking.Agenda.Cancel | app/agenda/page.tsx:99-101 | closes the modal; nothing else changes |
| Booking.Agenda.Confirm | app/agenda/page.tsx:83-85 | closes the modal and shows the spinner; selections and message are unchanged |
| Booking.Agenda.FinishConfirm | app/agenda/page.tsx:86-96 | after the wait the message is 'Agendamento realizado com sucesso!' and the spinner is off; the selections are unchanged |
| Booking.Agenda.DismissMessage | app/agenda/page.tsx:261-266 | the "Ok" button clears the message; nothing else changes |
| Booking.SubmitAndConfirm | app/agenda/page.tsx:79-97 | submit, confirm and the settled wait, from any state, end with no modal, no spinner, the success message and the selections unchanged |
| SessionGuard.CheckAuth | app/page.tsx:7-10 | checkAuth: some value is stored under 'TOKEN_APLICAÇÃO_FRONTEND' |
| SessionGuard.SignInAuthenticates | app/signin/page.tsx:32 | once the sign-in page stores a token under the key, checkAuth holds, whatever the token's value |
| SessionGuard.OtherKeysIrrelevant | app/page.tsx:7-10 | setting or removing any other key does not change checkAuth |
| SessionGuard.TokenRemovedRefuses | app/page.tsx:7-10 | with no entry under the token key, checkAuth is false |
| SessionGuard.Render | app/page.tsx:29-40 | null shows the loading text, false renders nothing, true renders the protected page, each iff |
| SessionGuard.Dashboard.View | app/page.tsx:29-40 | what the dashboard renders is the render branch of its current `autenticado` |
| SessionGuard.Dashboard.constructor | app/page.tsx:14 | the guard starts unknown, renders the loading text and has no redirect scheduled |
| SessionGuard.Dashboard.Mount | app/page.tsx:16-27 | `autenticado` becomes checkAuth(storage); a redirect to /signin is scheduled iff it is false; the protected page is rendered iff the token key is stored, and nothing otherwise |

## Left out

- HTTP: every axios call is an `Outcome` parameter. URLs, request bodies, status codes and the backend are outside the model. The login and configuration service wrappers are not part of this model.
- Table sorting, filtering, pagination and column visibility are done by `@tanstack/react-table`, whose code is not part of this model. So are the text filter inputs that drive them.
- JSX rendering and styling are left out, as are the presentational components (service, professional and compact item) and the calendar's drawing; the calendar's initial date report is covered under Booking.Agenda.constructor below. Only the show/hide conditions are kept: the browsing lists, the compact items, the highlighted slot, the empty-table message, the popups and the dashboard's three branches.
- Price formatting (`toFixed(2)`) and date formatting (`toLocaleDateString`) are left out. The calendar's `Date` is the opaque `CalendarDate`.
- Services.IsComplete: the numeric check treats only 0 as falsy. A `NaN` duration or price (from `+` on non-numeric text) would also be rejected by the source, but NaN is not representable here, and the string-to-number conversion is not modelled.
- Timers and asynchrony: the 3-second simulated wait, the 100 ms redirect delay, interleaving with other events while a request is pending, and completions after unmount are left out. Each handler is one atomic step. The only exception is the booking confirmation, which is split at its `await`.
- Booking.Agenda.constructor: the calendar component keeps its own date, starting at today, and its mount effect reports it through `onSelect`. That amounts to `ChangeDate(Some(today))` right after mount. The model leaves that call, and the clock that gives today, to the caller, so `selectedDate == None` holds only until then.
- Booking.Agenda.FinishConfirm: the `catch` branch, which would set 'Falha ao realizar agendamento.', is not modelled. The awaited promise is resolved by a timer and can never reject. No appointment request is sent on confirm, and no slot-conflict check exists.
- Professionals.ProfessionalPage.AddProfissional: the refetch is not awaited in the source. The model applies its result right after the append, which is the order in which React applies the two `setData` calls.
- Professionals.ProfessionalPage.FetchProfissionais: a response without a body would set `data` to `undefined` in the source. The model's successful response always carries a list.
- Booking.Agenda.FetchServices and Booking.Agenda.FetchProfessionals: a response whose body is not a list would replace the list in the source (agenda `setServices(response.data)`), and rendering it would then throw. The model's successful response always carries a list.
- Appointments.AppointmentsPage.FetchAppointments: a response whose body is not an array makes `map` throw inside the `try`. That case is the model's `Err`.
- Session guard: `router.push` is recorded as the scheduled redirect `pendingRedirect` and not performed. Sign-up, sign-in and the sidebar are not part of this model, apart from the key the sign-in page writes.
- `console.log`/`console.error` calls are dropped. They are the only thing a failed request does in the source.
