# Glamour Salon booking — a Dafny model

This project models the behaviour of the Glamour Salon booking application.

The back end is one Express server, `backend/index1.js`. Its `POST /appointments` handler does the following:
- checks the four required fields with JavaScript truthiness;
- appends the six named fields to an in-memory list;
- tries to send an SMS through Twilio, after rewriting the phone number into `+92` form;
- sends a confirmation mail through Nodemailer.

Only the mail decides the HTTP response. `GET /appointments` returns the list.

The React front end keeps these parts:
- the shared service catalogue, with its add, update and delete operations;
- the slot board of the services page, where the signed-in user can cancel their own booking and nobody else's;
- the booking form's hourly slots, validation, payload and input handler;
- the dashboard's state updates and its services grouped by category;
- the month calendar.

The modules follow the source files:

| module | file | models |
|---|---|---|
| `Text` | text.dfy | JavaScript white space (`trim`, `\s`), ASCII digits (`\d`, `\D`), the dash-and-space stripping of the phone code, decimal rendering and zero padding |
| `JsValues` | js_values.dfy | JSON request bodies, `undefined` as `None`, JavaScript truthiness, conversion to text in template literals |
| `Phone` | phone.dfy | the inline phone formatting of the booking handler |
| `Backend` | backend.dfy | start-up of the SMS client and mail transporter, `POST` and `GET /appointments` |
| `ServiceCatalog` | service_catalog.dfy | the seeded catalogue and `addService` / `updateService` / `deleteService` |
| `Slots` | slots.dfy | the slot board and `handleSlotAction` |
| `BookingForm` | booking.dfy | `generateTimeSlots`, `validateForm`, the `bookingData` payload, `handleInputChange` |
| `Dashboard` | dashboard.dfy | appointment status, business hours and information, the service form, grouping by category |
| `Calendar` | calendar.dfy | the weekday header, the day cells and their classes, the chunking into weeks |

Each request is one atomic step. The outcomes of the foreign calls are inputs (`Ok` or `Fail`):
- the Twilio send;
- the Ethereal account creation;
- the Nodemailer send.

The same goes for `window.confirm`, `Date.now()`, today's date, `Number(...)` and the length of the month on screen.

Several lemmas cross module boundaries:
- `BookingForm.ValidPayloadPassesServer` and `BookingForm.SubmittedBookingStored` connect the form to the server;
- `BookingForm.ServerLaxerThanForm` shows that the converse fails;
- `Dashboard.AddedServiceListed` and `Dashboard.InitialCatalogueUngrouped` connect the catalogue to the dashboard list.

The mail transporter is assigned as soon as the Ethereal test account exists, before `verify()` runs (`backend/index1.js:60-62`), so a failed verification does not disable mail (`Backend.TransporterAfter`, `Backend.FailedVerifyStillMails`).

The SMS text and the mail text are template literals (`backend/index1.js:112`, `:141-156`), built outside the inner `try` blocks. Converting a field to text throws a TypeError when the field is an object with its own `toString` key, or an array holding such a value. The outer `catch` then answers with the generic 500, after the record was stored. The model keeps this path (`JsValues.ToStringThrows`, `Backend.Crashes`).

## Model

| member | source | states |
|---|---|---|
| Text.Trim | frontend/src/components/Booking.jsx:62 | `trim()` returns the slice of its input that only white space surrounds and that neither starts nor ends with white space; it is empty exactly when the whole input is white space |
| Text.DigitsOf | frontend/src/components/Booking.jsx:72 | `replace(/\D/g, "")` keeps every ASCII digit of the input as often as it occurs and nothing else, never lengthens the string, and leaves an all-digit string unchanged |
| Text.DigitsOfAppend | frontend/src/components/Booking.jsx:72 | dropping non-digits distributes over concatenation, so the digits keep their order |
| Text.StripRemovesSeparators | backend/index1.js:98 | `replace(/[\s-]/g, '')` leaves no white space or dash behind and never lengthens the string |
| Text.StripKeepsOthers | backend/index1.js:98 | every character other than white space and `-` survives stripping, as often as it occurs, and nothing is added |
| Text.StripKeepsPlain | backend/index1.js:98 | a string without white space or dashes is left as it is, so stripping is idempotent |
| Text.StripAppend | backend/index1.js:98 | stripping distributes over concatenation |
| Text.Decimal | frontend/src/components/Calendar.jsx:57 | the day number's text is non-empty, all digits, and without a leading zero from 10 on |
| Text.DecimalRoundTrip | frontend/src/components/Calendar.jsx:57 | the decimal text of a day number reads back as that number |
| Text.ZeroPad | frontend/src/components/Booking.jsx:96 | zero padding gives the wanted width (or the natural width when wider), all digits, and the same numeric value |
| Phone.NormalizePhone | backend/index1.js:95-107 | a number starting with `+` is kept verbatim; every other number comes out starting with `+92`; the result always starts with `+` |
| Phone.NormalizeHasNoSeparators | backend/index1.js:96-106 | a number normalised from local form has no white space or dash after its leading `+` |
| Phone.NormalizeIdempotent | backend/index1.js:96-106 | normalising an already normalised number changes nothing |
| Phone.LocalFormsAgree | backend/index1.js:98-106 | trunk `0`, bare national number and `92` without `+` all give the same `+92` number |
| Phone.NormalizeIgnoresFormatting | backend/index1.js:96-106 | unless stripping uncovers a `+`, a number normalises exactly like its stripped form |
| Phone.NormalizeDigits | backend/index1.js:100-106 | for an all-digit number: a leading `0` is replaced by `+92`, a leading `92` gets `+`, anything else gets `+92` |
| Phone.GroupedDigits | backend/index1.js:98 | digit groups joined by dashes or spaces strip to the plain digits |
| Phone.LeadingSpaceBeforePlus | backend/index1.js:96-103 | the `+` test runs before stripping, so `" +92…"` comes out as `"+92+92…"` |
| Phone.NormalizeExamples | backend/index1.js:95-107 | `03001234567`, `3001234567`, `923001234567`, `+923001234567` and `0300-123 4567` all give `+923001234567`; `" +923001234567"` gives `+92+923001234567` |
| JsValues.FalsyValues | backend/index1.js:79 | a field is falsy exactly when it is absent, `null`, `false`, `0` or `""`; `[]` and `{}` are truthy |
| JsValues.InterpolationCases | backend/index1.js:112 | `${v}` never throws for a string, number, boolean, `null` or `undefined`; for an object it throws exactly when the object has its own `toString` key; for an array exactly when one element throws |
| Backend.MissingMeansFalsy | backend/index1.js:79-82 | the missing-field test fires exactly when one of name, email, date and phone is absent or holds a falsy JSON value |
| Backend.RecordDeterminedByNamedFields | backend/index1.js:76-86 | two requests store equal records exactly when they agree on the six named fields, absence included |
| Backend.Post | backend/index1.js:74-180 | 400 exactly when a required field is falsy, with no store change, SMS or mail. Otherwise one record is appended after the old ones. The generic 500 comes exactly when SMS is on and the phone is not a string, or a text field cannot be turned into text. Short of that, 201 exactly when the transporter exists and the send succeeds, and the mail 500 otherwise. An SMS goes to the normalised phone exactly when SMS is on, the phone is a string and the SMS text can be built. A mail goes to the given address exactly when the transporter exists and nothing crashed |
| Backend.NoCredentialsNoSms | backend/index1.js:13-30 | without both Twilio credentials no request ever sends an SMS; a phone of any type is stored and the mail alone decides the answer |
| Backend.CredentialsSendSms | backend/index1.js:13-30 | with both credentials set and a client built, an accepted request with a string phone and buildable texts sends one SMS to the normalised number |
| Backend.FailedVerifyStillMails | backend/index1.js:57-69 | once the test account exists, even when `verify()` fails, a request that does not crash is mailed to its address and booked when the send succeeds |
| Backend.NoAccountNoMail | backend/index1.js:57-69 | before the test account exists, or when it could not be created, no mail is handed over and every accepted request that does not crash gets the mail 500 with its record stored |
| Backend.ToStringObjectScenario | backend/index1.js:137-157 | a `serviceTitle` of `{"toString": null}` keeps the record but ends in the generic 500 with no mail; an SMS has gone out exactly when SMS is on |
| Backend.SmsOutcomeIrrelevant | backend/index1.js:115-130 | whatever the SMS provider answers, the response and the store are the same |
| Backend.SmsChannelIrrelevant | backend/index1.js:91-133 | with a string phone, whether SMS is configured changes neither the response nor the store |
| Backend.MailFailureKeepsBooking | backend/index1.js:84-172 | when the mail send fails the response is a 500, yet the new record is in what `GET` returns |
| Backend.ReadAll | backend/index1.js:182-184 | `GET` returns every stored record, unfiltered, in insertion order |
| Backend.RecordIgnoresOtherFields | backend/index1.js:76-85 | fields other than the six named ones (`notes`, `serviceId`, …) never reach the store |
| Backend.PostAllAppendsAccepted | backend/index1.js:71-86 | after any series of requests the store is the old store followed by the records of the accepted requests, in order, whatever SMS and mail do |
| Backend.GetAfterValidPosts | backend/index1.js:182-184 | after N valid requests on an empty store, `GET` returns exactly N records, the i-th holding the fields of the i-th request |
| Backend.MissingPhoneScenario | backend/index1.js:79-82 | a request without a phone gets 400 and `GET` then returns nothing |
| Backend.JaneDoeScenario | backend/index1.js:76-163 | a complete request with a working mail transporter gets 201 and `GET` returns that record verbatim |
| ServiceCatalog.SeededService | frontend/src/context/ServiceContext.jsx:6-85 | each seeded service carries its own id, numeric prices, and no category or active flag |
| ServiceCatalog.InitialServices | frontend/src/context/ServiceContext.jsx:6-85 | the catalogue starts with six services with ids 1 to 6 in order, all distinct, none with a category |
| ServiceCatalog.AddService | frontend/src/context/ServiceContext.jsx:87-94 | the new service is appended, earlier entries keep their positions, and its id occurs once more than before (no uniqueness check) |
| ServiceCatalog.UpdateService | frontend/src/context/ServiceContext.jsx:96-102 | the length is kept; every entry with the given id becomes the given service and every other entry stays put |
| ServiceCatalog.UpdateAbsentId | frontend/src/context/ServiceContext.jsx:96-102 | updating with an id no entry has leaves the list identical |
| ServiceCatalog.UpdateKeepsIds | frontend/src/context/ServiceContext.jsx:96-102 | an update keeps every position's id, and repeating it changes nothing more |
| ServiceCatalog.DeleteService | frontend/src/context/ServiceContext.jsx:104-108 | after a delete no entry has that id, and the length drops by the number of entries that had it |
| ServiceCatalog.DeleteMembers | frontend/src/context/ServiceContext.jsx:104-108 | a service survives a delete exactly when it was present with another id |
| ServiceCatalog.DeleteKeepsOrder | frontend/src/context/ServiceContext.jsx:104-108 | deleting distributes over concatenation, so the survivors keep their relative order |
| ServiceCatalog.DeleteIdempotent | frontend/src/context/ServiceContext.jsx:104-108 | deleting an absent id changes nothing, so deleting twice is deleting once |
| ServiceCatalog.FindService | frontend/src/components/Services.jsx:116 | `find` returns the first entry with the id, or nothing exactly when no entry has it |
| Slots.InitialTimings | frontend/src/components/Services.jsx:9-73 | the slot board starts with a list for each of the services 1 to 6 |
| Slots.FindSlot | frontend/src/components/Services.jsx:108 | `findIndex` gives the first position with the slot id, or -1 exactly when there is none |
| Slots.HandleSlotAction | frontend/src/components/Services.jsx:105-153 | a missing slot list, slot or service is reported, in that order, exactly when it is missing. Past the lookups: the booking form opens exactly when the slot is free, with the service id, title, description and the slot's time; a cancellation happens exactly when the slot is booked by `user123` and the user confirms, and carries the title and time; declining keeps it exactly when the user does not confirm; someone else's booking is refused exactly when the holder is not `user123`. The timings change only on a cancellation |
| Slots.InitialConsistent | frontend/src/components/Services.jsx:9-73 | on the seeded board a slot is free exactly when it has no holder |
| Slots.EverySeededServiceHasSlots | frontend/src/components/Services.jsx:9-73 | every seeded service has a slot list |
| Slots.CancelChangesOnlyThatSlot | frontend/src/components/Services.jsx:136-141 | a cancellation frees exactly the chosen slot, keeping its id and time; other slots, other services and the slot count are unchanged |
| Slots.ActionPreservesConsistency | frontend/src/components/Services.jsx:118-152 | every action keeps "free exactly when unheld" true of the whole board |
| Slots.OthersBookingsSurvive | frontend/src/components/Services.jsx:147-151 | no sequence of clicks ever changes a slot held by another user, or its position |
| Slots.CancelThenBook | frontend/src/components/Services.jsx:118-146 | after a cancellation, clicking the same slot again leads to the booking form with that slot's time |
| BookingForm.HourLabel | frontend/src/components/Booking.jsx:50 | every `hh:mm a` label of an hour is eight characters long |
| BookingForm.HourLabelRoundTrip | frontend/src/components/Booking.jsx:50 | an `hh:mm a` whole-hour label reads back as the hour it was made from, so distinct hours get distinct labels |
| BookingForm.GenerateTimeSlots | frontend/src/components/Booking.jsx:44-55 | one label per hour from 9 up to, not including, 17 |
| BookingForm.TimeSlotsAscending | frontend/src/components/Booking.jsx:44-55 | there are exactly 8 slots, reading back as the hours 9 to 16 in strictly ascending order |
| BookingForm.SlotRange | frontend/src/components/Booking.jsx:46-52 | the first slot is "09:00 AM" and the last "04:00 PM" |
| BookingForm.FormatIsoDate | frontend/src/components/Booking.jsx:96 | a valid date formats as ten characters with dashes at positions 4 and 7 |
| BookingForm.IsoDateRoundTrip | frontend/src/components/Booking.jsx:96 | the `yyyy-MM-dd` text of a valid date reads back as that date |
| BookingForm.IsoDateInjective | frontend/src/components/Calendar.jsx:62 | two valid dates have the same `yyyy-MM-dd` text exactly when they are the same date |
| BookingForm.EmailPatternUnanchored | frontend/src/components/Booking.jsx:65 | the pattern is not anchored: text around a matching string keeps it matching |
| BookingForm.EmailPatternShape | frontend/src/components/Booking.jsx:65 | a matching string has at least five characters, an `@` and a `.` after it |
| BookingForm.ScanEmailPattern | frontend/src/components/Booking.jsx:65 | a single left-to-right scan answers exactly whether `\S+@\S+\.\S+` matches somewhere in the input |
| BookingForm.Validate | frontend/src/components/Booking.jsx:60-80 | each error key is present exactly when its check fails: a blank name; a blank or pattern-less e-mail; a blank phone or a digit count outside 10..11; no slot; no date. A blank e-mail or phone gets the "required" message, never the format one |
| BookingForm.ValidFormFilled | frontend/src/components/Booking.jsx:60-83 | a form passes exactly when name, e-mail and phone are not blank, the e-mail matches, the phone has 10 or 11 digits, and a slot and a date are chosen |
| BookingForm.Payload | frontend/src/components/Booking.jsx:92-101 | name, e-mail and phone are sent untrimmed; the date is sent in `yyyy-MM-dd` form along with the slot and the notes; the service id and title are sent only when defined, and nothing else is sent |
| BookingForm.Submit | frontend/src/components/Booking.jsx:86-101 | a payload is posted exactly when validation passes |
| BookingForm.FilledPayloadPassesServer | backend/index1.js:79-82 | a payload with non-blank name, e-mail and phone and a non-empty date passes the server's missing-field test |
| BookingForm.ValidPayloadPassesServer | frontend/src/components/Booking.jsx:62-101 | whatever the form posts passes the server's missing-field test |
| BookingForm.SubmittedBookingStored | frontend/src/components/Booking.jsx:92-101 | the server stores a submitted booking with the typed fields, the formatted date, the slot and the service title; notes and service id are dropped |
| BookingForm.ServerLaxerThanForm | frontend/src/components/Booking.jsx:62 | the converse fails: a one-space name passes the server and fails the form |
| BookingForm.HandleInputChange | frontend/src/components/Booking.jsx:129-142 | only the named field takes the typed value; only that field's error is blanked, and the set of error keys stays the same |
| Dashboard.SetAppointmentStatus | frontend/src/components/Dashboard.jsx:71-77 | only the status of entries with the id changes; length, order and every other field are kept |
| Dashboard.StatusLastWriteWins | frontend/src/components/Dashboard.jsx:71-77 | two status changes on one id leave only the second |
| Dashboard.StatusChangesCommute | frontend/src/components/Dashboard.jsx:71-77 | status changes on different ids commute |
| Dashboard.InitialHours | frontend/src/components/Dashboard.jsx:34-42 | every day has hours, and every day but Sunday is open |
| Dashboard.SetHours | frontend/src/components/Dashboard.jsx:151-159 | exactly the chosen field of the chosen day takes the value; other days and fields are kept |
| Dashboard.HoursEditsCommute | frontend/src/components/Dashboard.jsx:151-159 | edits to different days, or to different fields of one day, commute |
| Dashboard.SetInfo | frontend/src/components/Dashboard.jsx:162-167 | exactly one business-info field takes the value |
| Dashboard.SetInfoLaws | frontend/src/components/Dashboard.jsx:162-167 | writing back a field's own value changes nothing, and a second write to a field replaces the first |
| Dashboard.BlankForm | frontend/src/components/Dashboard.jsx:101-114 | the reset form has no id, the default icon, category "hair", and is active |
| Dashboard.ServiceToAdd | frontend/src/components/Dashboard.jsx:84-96 | the new service gets the given id and numeric prices; an empty icon becomes the default icon, a blank category "hair", an undefined active flag `true`; provided values are kept |
| Dashboard.HandleAddService | frontend/src/components/Dashboard.jsx:80-115 | the completed service is appended to the catalogue and the form is reset |
| Dashboard.HandleEditService | frontend/src/components/Dashboard.jsx:118-121 | the form and the edited service become the chosen service; the catalogue is kept |
| Dashboard.ApplyFormEdit | frontend/src/components/Dashboard.jsx:270-349 | typing into the form never changes its id or icon |
| Dashboard.EditsKeepId | frontend/src/components/Dashboard.jsx:270-349 | however many edits are typed, the form keeps the id it was loaded with |
| Dashboard.HandleUpdateService | frontend/src/components/Dashboard.jsx:124-141 | the form replaces the entries with its id, editing ends and the form is reset |
| Dashboard.CancelEdit | frontend/src/components/Dashboard.jsx:362-377 | cancelling ends editing and resets the form without touching the catalogue |
| Dashboard.EditThenUpdate | frontend/src/components/Dashboard.jsx:118-141 | edit, type and update keeps the catalogue's length and ids, puts the edited service in place, and leaves services with other ids alone |
| Dashboard.InCategory | frontend/src/components/Dashboard.jsx:389-391 | the filter never lengthens the list and keeps only services of that category |
| Dashboard.InCategoryMembers | frontend/src/components/Dashboard.jsx:389-391 | the category filter keeps exactly the services whose category is that id |
| Dashboard.GroupByCategory | frontend/src/components/Dashboard.jsx:388-392 | each group is a category of the list together with exactly that category's services, never none; every category of the list that has services gets its group |
| Dashboard.GroupsFollowCategoryOrder | frontend/src/components/Dashboard.jsx:388-392 | the groups appear in the order of their categories in the list |
| Dashboard.GroupsDistinct | frontend/src/components/Dashboard.jsx:388-392 | with distinct category ids no category is shown twice |
| Dashboard.CategoriesDistinct | frontend/src/components/Dashboard.jsx:53-60 | the six categories of the dashboard have distinct ids |
| Dashboard.ListedIff | frontend/src/components/Dashboard.jsx:388-392 | a service is listed under a category exactly when it is in the catalogue with that category's id |
| Dashboard.UncategorisedUnlisted | frontend/src/components/Dashboard.jsx:388-392 | a service whose category is none of the ids is listed nowhere |
| Dashboard.InitialCatalogueUngrouped | frontend/src/components/Dashboard.jsx:53-60 | the seeded catalogue, which has no categories, gives an empty list |
| Dashboard.AddedServiceListed | frontend/src/components/Dashboard.jsx:84-99 | a service added with no category chosen is listed under "hair" |
| Calendar.RenderRows | frontend/src/components/Calendar.jsx:75-88 | as written: ⌊n/7⌋ rows of exactly 7 cells, row r being cells 7r to 7r+6, together the first 7⌊n/7⌋ cells |
| Calendar.RowsLoseTrailingDays | frontend/src/components/Calendar.jsx:54-91 | those rows hold n − n mod 7 cells, and every day is shown exactly when n is a multiple of 7 |
| Calendar.ThirtyOneDayMonth | frontend/src/components/Calendar.jsx:54-91 | in a 31-day month the cells of the 29th, 30th and 31st are in no row |
| Calendar.RenderRowsFlushed | frontend/src/components/Calendar.jsx:75-88 | corrected: ⌈n/7⌉ rows of 1 to 7 cells, all full but the last, together exactly the n cells in order |
| Calendar.RenderMonthAsWritten | frontend/src/components/Calendar.jsx:45-91 | as written: every row holds 7 cells, and together the rows hold only the first 7⌊n/7⌋ day cells of the month |
| Calendar.RenderMonth | frontend/src/components/Calendar.jsx:45-91 | corrected: the rows hold every day cell of the month in order, full weeks except the last |
| Calendar.DayClass | frontend/src/components/Calendar.jsx:64-73 | the class starts with "calendar-day", and its length is that of the base class plus the suffixes that were added |
| Calendar.DayClassTokens | frontend/src/components/Calendar.jsx:64-73 | read as a class list, the class is "calendar-day" followed by "calendar-day-not-current", "calendar-day-today" and "calendar-day-selected" for the marks set, in that order |
| Calendar.DayClassInjective | frontend/src/components/Calendar.jsx:64-73 | distinct flag combinations give distinct class strings |
| Calendar.DayCells | frontend/src/components/Calendar.jsx:54-57 | one cell per day of the month, the k-th for day k+1 with its number as text |
| Calendar.CellMarks | frontend/src/components/Calendar.jsx:60-73 | no cell is marked not-current; a cell is marked today exactly when it is today and selected exactly when it is the selected date |
| Calendar.WeekdayHeader | frontend/src/components/Calendar.jsx:34-40 | seven labels, the i-th being the weekday of 1+i January 2021 |
| Calendar.HeaderStartsOnFriday | frontend/src/components/Calendar.jsx:37 | the header reads Fri, Sat, Sun, Mon, Tue, Wed, Thu |

## Left out

- Twilio, Nodemailer and Ethereal calls (`client.messages.create`, `createTestAccount`, `verify`, `sendMail`, `getTestMessageUrl`) are foreign network I/O. Their outcomes are `Ok`/`Fail` inputs, and the state the start-up leaves behind is a parameter of `Backend.Post`.
- Express, CORS, body-parser, dotenv, `app.listen` and console logging are plumbing. The request body is a parsed JSON object.
- Concurrency is not modelled: each request is one atomic step. This covers interleaved requests and requests that arrive while the mail set-up is still running.
- The text of the SMS and of the mail, and the sender number, are not modelled. The model keeps the SMS destination, the mail recipient, and whether building either text throws.
- JsValues.ToStringThrows: a request body is parsed JSON, so no value is callable and there are no symbols, getters or prototype tricks. Only an own `toString` key can make the conversion fail.
- `fetch`, `navigate`, `alert`, `setTimeout`, the loading and success flags, and the `submit` error of the booking form are effects of the page. Navigation and alerts appear as `Slots.Effect` values.
- `window.confirm` is a boolean input of `Slots.HandleSlotAction`. The confirmation in `handleDeleteService` (`frontend/src/components/Dashboard.jsx:144-148`) is left to the caller of `ServiceCatalog.DeleteService`.
- date-fns is not modelled beyond the `hh:mm a`, `yyyy-MM-dd`, `d` and `EEE` formats:
  - `new Date()`, today's date and the month on screen are inputs;
  - the month's length is a field of `Calendar.Month`;
  - `addDays`, `addMonths`, `subMonths` and the 14 selectable dates of the form are presentation.
- Dashboard.ServiceToAdd: `Number(...)` price parsing is the `toNumber` parameter, so the contract does not say which number a price text becomes.
- Dashboard.SetHours: requires the day to be in the hours record. The panel only offers the record's own days (`Object.entries`), so it never edits a missing one.
- Dashboard.HandleUpdateService: prices typed while editing stay text (`ServiceCatalog.Raw`) after the update. The source does not convert them, and the model does not either.
- Slots.HandleSlotAction: a slot status is either available or booked. The source's silent case for any other status string cannot arise from its data.
- Slots.HandleSlotAction: service ids are integers, matching the numeric keys of the seeded board. JavaScript's string keying of object properties is not modelled.
- `handleSlotAction` is defined but no element of the services page calls it. The model states what it would do.
- `handleLearnMoreClick`, `handleBackToServices` and `handleBookNow` only select a record or navigate.
- Prices are reals, and floating-point rounding is not modelled.
- About.jsx, Header.jsx, Footer.jsx, Hero.jsx, Contact.jsx, App.jsx and main.jsx are presentation and routing only; they are not part of this model.

## Findings

| source | as written | input that shows it | evidently intended | confidence | as-written member | corrected member |
|---|---|---|---|---|---|---|
| frontend/src/components/Calendar.jsx:81-88 | a row is emitted only when it reaches seven cells, and the cells left over after the last full row are never emitted | any month whose length is not a multiple of 7, such as a 31-day month: the 29th, 30th and 31st are not shown | every day of the month is shown, with the last partial week as a final row | high, not executed | Calendar.RenderMonthAsWritten (with Calendar.RenderRows and Calendar.ThirtyOneDayMonth) | Calendar.RenderMonth (with Calendar.RenderRowsFlushed) |
