/** The customer booking form (frontend/src/components/Booking.jsx): the hourly time
    slots offered, client-side validation, the JSON payload posted to the back end and
    the per-field input handler.

    The selected date, the form fields and the selected slot are inputs; rendering,
    `fetch` and navigation are not modelled. */
module BookingForm {
  import opened Text
  import opened JsValues
  import Backend

  // ---------------------------------------------------------------------------
  // Time-slot labels

  /** The first hour offered and the hour the loop stops before. */
  const StartHour := 9
  const EndHour := 17

  /** The hour on a 12-hour clock face (date-fns `hh`): 0 and 12 both read 12. */
  function ClockHour(h: nat): (c: nat)
    requires h < 24
    ensures 1 <= c <= 12
  {
    if h == 0 then 12 else if h <= 12 then h else h - 12
  }

  function Meridiem(h: nat): string {
    if h < 12 then "AM" else "PM"
  }

  /** A whole hour formatted with the pattern `hh:mm a`, as in "09:00 AM". */
  function HourLabel(h: nat): (s: string)
    requires h < 24
    ensures |s| == 8
  {
    DecimalWidth(ClockHour(h), 2);
    ZeroPad(ClockHour(h), 2) + ":00 " + Meridiem(h)
  }

  /** Reads an `hh:mm a` whole-hour label back into an hour of the day. */
  function ParseHourLabel(s: string): (h: Option<nat>)
    ensures h.Some? ==> h.value < 24
  {
    if && |s| == 8 && AllDigits(s[..2])
       && s[2] == ':' && s[3] == '0' && s[4] == '0' && s[5] == ' '
       && (s[6] == 'A' || s[6] == 'P') && s[7] == 'M'
    then
      var c := DecimalValue(s[..2]);
      if 1 <= c <= 12 then
        Some(if s[6] == 'A' then (if c == 12 then 0 else c) else (if c == 12 then 12 else c + 12))
      else None
    else None
  }

  /** Every label reads back as the hour it was made from, so two different hours
      never share a label. */
  lemma HourLabelRoundTrip(h: nat)
    requires h < 24
    ensures ParseHourLabel(HourLabel(h)) == Some(h)
  {
    var c := ClockHour(h);
    var d := ZeroPad(c, 2);
    DecimalWidth(c, 2);
    var m := if h < 12 then 'A' else 'P';
    assert Meridiem(h) == [m, 'M'];
    ParseLabel(d, m, c);
  }

  lemma ParseLabel(d: string, m: char, c: nat)
    requires |d| == 2 && AllDigits(d) && DecimalValue(d) == c && 1 <= c <= 12
    requires m == 'A' || m == 'P'
    ensures ParseHourLabel(d + ":00 " + [m, 'M'])
         == Some(if m == 'A' then (if c == 12 then 0 else c) else (if c == 12 then 12 else c + 12))
  {
    var s := d + ":00 " + [m, 'M'];
    assert s[..2] == d;
    assert s[2] == ':' && s[3] == '0' && s[4] == '0' && s[5] == ' ' && s[6] == m && s[7] == 'M';
  }

  /** `generateTimeSlots`: one label per hour from 09:00 up to but excluding 17:00. */
  method GenerateTimeSlots() returns (slots: seq<string>)
    ensures |slots| == EndHour - StartHour
    ensures forall k :: 0 <= k < |slots| ==> slots[k] == HourLabel(StartHour + k)
  {
    slots := [];
    var hour := StartHour;
    while hour < EndHour
      invariant StartHour <= hour <= EndHour
      invariant |slots| == hour - StartHour
      invariant forall k :: 0 <= k < |slots| ==> slots[k] == HourLabel(StartHour + k)
    {
      slots := slots + [HourLabel(hour)];
      hour := hour + 1;
    }
  }

  /** The eight offered slots read back as the hours 9 to 16 in ascending order, so
      they are distinct and sorted by time of day. */
  lemma TimeSlotsAscending(slots: seq<string>)
    requires |slots| == EndHour - StartHour
    requires forall k :: 0 <= k < |slots| ==> slots[k] == HourLabel(StartHour + k)
    ensures |slots| == 8
    ensures forall k :: 0 <= k < |slots| ==> ParseHourLabel(slots[k]) == Some(9 + k)
    ensures forall j, k :: 0 <= j < k < |slots| ==> ParseHourLabel(slots[j]).value < ParseHourLabel(slots[k]).value
  {
    forall k | 0 <= k < |slots| ensures ParseHourLabel(slots[k]) == Some(9 + k) {
      HourLabelRoundTrip(9 + k);
    }
  }

  /** The first slot offered is "09:00 AM" and the last "04:00 PM". */
  lemma SlotRange()
    ensures HourLabel(StartHour) == "09:00 AM" && HourLabel(EndHour - 1) == "04:00 PM"
  {
  }

  // ---------------------------------------------------------------------------
  // Dates

  /** A calendar date as the date picker holds it. */
  datatype Date = Date(year: nat, month: nat, day: nat)

  predicate ValidDate(d: Date) {
    d.year < 10000 && 1 <= d.month <= 12 && 1 <= d.day <= 31
  }

  /** `format(date, "yyyy-MM-dd")`. */
  function FormatIsoDate(d: Date): (s: string)
    ensures ValidDate(d) ==> |s| == 10 && s[4] == '-' && s[7] == '-'
  {
    DateWidths(d);
    ZeroPad(d.year, 4) + "-" + ZeroPad(d.month, 2) + "-" + ZeroPad(d.day, 2)
  }

  lemma DateWidths(d: Date)
    ensures ValidDate(d) ==> |Decimal(d.year)| <= 4 && |Decimal(d.month)| <= 2 && |Decimal(d.day)| <= 2
  {
    if ValidDate(d) {
      DecimalWidth(d.year, 4);
      DecimalWidth(d.month, 2);
      DecimalWidth(d.day, 2);
    }
  }

  /** Reads a `yyyy-MM-dd` string back into a date. */
  function ParseIsoDate(s: string): Option<Date> {
    if |s| == 10 && s[4] == '-' && s[7] == '-' && AllDigits(s[..4]) && AllDigits(s[5..7]) && AllDigits(s[8..]) then
      Some(Date(DecimalValue(s[..4]), DecimalValue(s[5..7]), DecimalValue(s[8..])))
    else None
  }

  /** The formatted date reads back as the date, so two dates format alike only when
      they are the same date. */
  lemma IsoDateRoundTrip(d: Date)
    requires ValidDate(d)
    ensures ParseIsoDate(FormatIsoDate(d)) == Some(d)
  {
    var s := FormatIsoDate(d);
    DateWidths(d);
    var y, m, dd := ZeroPad(d.year, 4), ZeroPad(d.month, 2), ZeroPad(d.day, 2);
    assert s == y + "-" + m + "-" + dd;
    assert s[..4] == y;
    assert s[5..7] == m;
    assert s[8..] == dd;
  }

  lemma IsoDateInjective(a: Date, b: Date)
    requires ValidDate(a) && ValidDate(b)
    ensures FormatIsoDate(a) == FormatIsoDate(b) <==> a == b
  {
    IsoDateRoundTrip(a);
    IsoDateRoundTrip(b);
  }

  // ---------------------------------------------------------------------------
  // The e-mail pattern `\S+@\S+\.\S+`

  /** The pattern matches with the `@` at `at` and the `.` at `dot`: a non-space
      character before the `@`, a non-empty non-space run between them, and a
      non-space character after the `.`. Longer runs of the outer `\S+` add nothing,
      since one character of each suffices for a match. */
  predicate MatchAt(s: string, at: int, dot: int) {
    && 1 <= at && at + 2 <= dot && dot + 1 < |s|
    && !IsJsSpace(s[at - 1]) && s[at] == '@'
    && (forall k :: at < k < dot ==> !IsJsSpace(s[k]))
    && s[dot] == '.' && !IsJsSpace(s[dot + 1])
  }

  /** `/\S+@\S+\.\S+/.test(s)`: the pattern matches somewhere in `s`. */
  predicate EmailPatternMatches(s: string) {
    exists at, dot :: 0 <= at < |s| && 0 <= dot < |s| && MatchAt(s, at, dot)
  }

  /** The pattern is unanchored: text around a matching string does not stop it
      matching. */
  lemma EmailPatternUnanchored(before: string, s: string, after: string)
    requires EmailPatternMatches(s)
    ensures EmailPatternMatches(before + s + after)
  {
    var at, dot :| 0 <= at < |s| && 0 <= dot < |s| && MatchAt(s, at, dot);
    var t := before + s + after;
    assert forall k :: 0 <= k < |s| ==> t[|before| + k] == s[k];
    assert MatchAt(t, |before| + at, |before| + dot);
  }

  /** A matching string has at least five characters, an `@` and a later `.`. */
  lemma EmailPatternShape(s: string)
    ensures EmailPatternMatches(s) ==>
      |s| >= 5 && exists at, dot :: 0 <= at < dot < |s| && s[at] == '@' && s[dot] == '.'
  {
  }

  /** Decides the e-mail pattern in one left-to-right pass, remembering where the
      current non-space run began and the first `@` inside it that has a character
      before it. */
  method ScanEmailPattern(s: string) returns (found: bool)
    ensures found <==> EmailPatternMatches(s)
  {
    var runStart := 0;
    var at := -1;
    var i := 0;
    while i < |s|
      invariant 0 <= runStart <= i <= |s|
      invariant forall k :: runStart <= k < i ==> !IsJsSpace(s[k])
      invariant runStart > 0 ==> IsJsSpace(s[runStart - 1])
      invariant at == -1 ==> forall k :: runStart < k < i ==> s[k] != '@'
      invariant at != -1 ==> runStart < at < i && s[at] == '@' && forall k :: runStart < k < at ==> s[k] != '@'
      invariant forall a, d :: 0 <= d < i ==> !MatchAt(s, a, d)
    {
      if IsJsSpace(s[i]) {
        runStart, at := i + 1, -1;
      } else if s[i] == '@' {
        if at == -1 && runStart < i {
          at := i;
        }
      } else if s[i] == '.' && at != -1 && at + 2 <= i && i + 1 < |s| && !IsJsSpace(s[i + 1]) {
        assert MatchAt(s, at, i);
        return true;
      } else if s[i] == '.' {
        forall a ensures !MatchAt(s, a, i) {
          MatchInsideRun(s, a, i, runStart);
        }
      }
      i := i + 1;
    }
    return false;
  }

  /** A match lies inside one non-space run: a white-space character at `r - 1`
      before the match's dot means the match starts after `r`. */
  lemma MatchInsideRun(s: string, a: int, d: int, r: int)
    ensures MatchAt(s, a, d) && 0 < r <= d + 1 && IsJsSpace(s[r - 1]) ==> r < a
  {
  }

  // ---------------------------------------------------------------------------
  // The form and its validation

  /** The four text inputs of the form. */
  datatype FormData = FormData(name: string, email: string, phone: string, notes: string)

  /** The form's error messages, keyed by field name. */
  type Errors = map<string, string>

  const NameRequired := "Name is required"
  const EmailRequired := "Email is required"
  const EmailInvalid := "Email is invalid"
  const PhoneRequired := "Phone number is required"
  const PhoneLength := "Phone number must be 10-11 digits"
  const SlotRequired := "Please select a time slot"
  const DateRequired := "Please select a date"

  /** The phone check: the number of digits, all other characters ignored, lies
      between 10 and 11. */
  predicate PhoneDigitCountOk(phone: string) {
    10 <= |DigitsOf(phone)| <= 11
  }

  /** `validateForm`: the errors it records. `date` is `None` when no date is
      selected; `timeSlot` is the selected slot label, empty when none is. */
  function Validate(form: FormData, timeSlot: string, date: Option<Date>): (errors: Errors)
    ensures errors.Keys <= {"name", "email", "phone", "timeSlot", "date"}
    ensures "name" in errors <==> AllSpace(form.name)
    ensures "email" in errors <==> AllSpace(form.email) || !EmailPatternMatches(form.email)
    ensures "phone" in errors <==> AllSpace(form.phone) || !PhoneDigitCountOk(form.phone)
    ensures "timeSlot" in errors <==> timeSlot == []
    ensures "date" in errors <==> date.None?
    // a blank e-mail or phone gets the "required" message, never the format message
    ensures "email" in errors ==> errors["email"] == if AllSpace(form.email) then EmailRequired else EmailInvalid
    ensures "phone" in errors ==> errors["phone"] == if AllSpace(form.phone) then PhoneRequired else PhoneLength
  {
    var e0: Errors := map[];
    var e1 := if Trim(form.name) == [] then e0["name" := NameRequired] else e0;
    var e2 :=
      if Trim(form.email) == [] then e1["email" := EmailRequired]
      else if !EmailPatternMatches(form.email) then e1["email" := EmailInvalid]
      else e1;
    var e3 :=
      if Trim(form.phone) == [] then e2["phone" := PhoneRequired]
      else if !PhoneDigitCountOk(form.phone) then e2["phone" := PhoneLength]
      else e2;
    var e4 := if timeSlot == [] then e3["timeSlot" := SlotRequired] else e3;
    if date.None? then e4["date" := DateRequired] else e4
  }

  /** The form passes exactly when no error was recorded. */
  predicate FormValid(form: FormData, timeSlot: string, date: Option<Date>) {
    Validate(form, timeSlot, date) == map[]
  }

  /** The `bookingData` object as `JSON.stringify` sends it: name, e-mail and phone
      exactly as typed, the date as `yyyy-MM-dd`, the slot and the notes; the service
      id and title only when they are defined, since `undefined` values are dropped. */
  function Payload(form: FormData, timeSlot: string, isoDate: string,
                   serviceId: Option<Json>, serviceTitle: Option<Json>): (body: Body)
    ensures Field(body, "name") == Some(JString(form.name))
    ensures Field(body, "email") == Some(JString(form.email))
    ensures Field(body, "phone") == Some(JString(form.phone))
    ensures Field(body, "date") == Some(JString(isoDate))
    ensures Field(body, "time") == Some(JString(timeSlot))
    ensures Field(body, "notes") == Some(JString(form.notes))
    ensures Field(body, "serviceId") == serviceId
    ensures Field(body, "serviceTitle") == serviceTitle
    ensures body.Keys <= {"name", "email", "phone", "date", "time", "notes", "serviceId", "serviceTitle"}
  {
    var base: Body := map[
      "name" := JString(form.name), "email" := JString(form.email),
      "phone" := JString(form.phone), "date" := JString(isoDate),
      "time" := JString(timeSlot), "notes" := JString(form.notes)];
    var withId := if serviceId.Some? then base["serviceId" := serviceId.value] else base;
    if serviceTitle.Some? then withId["serviceTitle" := serviceTitle.value] else withId
  }

  /** `handleSubmit`: the payload posted to the back end, or `None` when validation
      stops the submission. */
  function Submit(form: FormData, timeSlot: string, date: Option<Date>,
                  serviceId: Option<Json>, serviceTitle: Option<Json>): (payload: Option<Body>)
    ensures payload.Some? <==> FormValid(form, timeSlot, date)
    ensures payload.Some? ==> date.Some? && payload.value == Payload(form, timeSlot, FormatIsoDate(date.value), serviceId, serviceTitle)
  {
    if !FormValid(form, timeSlot, date) then None
    else Some(Payload(form, timeSlot, FormatIsoDate(date.value), serviceId, serviceTitle))
  }

  /** A form passes exactly when no text field is blank, the e-mail matches the
      pattern, the phone has 10 or 11 digits, and a slot and a date are chosen. */
  lemma ValidFormFilled(form: FormData, timeSlot: string, date: Option<Date>)
    ensures FormValid(form, timeSlot, date) <==>
      && !AllSpace(form.name) && !AllSpace(form.email) && !AllSpace(form.phone)
      && EmailPatternMatches(form.email) && PhoneDigitCountOk(form.phone)
      && timeSlot != [] && date.Some?
  {
    var errors := Validate(form, timeSlot, date);
    if errors == map[] {
      assert "name" !in errors && "email" !in errors && "phone" !in errors;
      assert "timeSlot" !in errors && "date" !in errors;
    } else {
      var k :| k in errors;
      assert k in {"name", "email", "phone", "timeSlot", "date"};
    }
  }

  /** A payload whose name, e-mail and phone are not blank and whose date is not
      empty passes the server's missing-field test. */
  lemma FilledPayloadPassesServer(form: FormData, timeSlot: string, isoDate: string,
                                  serviceId: Option<Json>, serviceTitle: Option<Json>)
    requires !AllSpace(form.name) && !AllSpace(form.email) && !AllSpace(form.phone) && isoDate != []
    ensures !Backend.MissingRequired(Payload(form, timeSlot, isoDate, serviceId, serviceTitle))
  {
    var body := Payload(form, timeSlot, isoDate, serviceId, serviceTitle);
    assert Truthy(Field(body, "name")) && Truthy(Field(body, "email"));
    assert Truthy(Field(body, "date")) && Truthy(Field(body, "phone"));
  }

  /** The form is stricter than the server: whatever it lets through also passes the
      server's missing-field test. */
  lemma ValidPayloadPassesServer(form: FormData, timeSlot: string, date: Option<Date>,
                                 serviceId: Option<Json>, serviceTitle: Option<Json>)
    ensures var payload := Submit(form, timeSlot, date, serviceId, serviceTitle);
      payload.Some? ==> !Backend.MissingRequired(payload.value)
  {
    if FormValid(form, timeSlot, date) {
      ValidFormFilled(form, timeSlot, date);
      var isoDate := FormatIsoDate(date.value);
      assert |ZeroPad(date.value.year, 4)| >= 4;
      FilledPayloadPassesServer(form, timeSlot, isoDate, serviceId, serviceTitle);
    }
  }

  /** A booking submitted from a valid form is stored by the server exactly as the
      customer typed it, with the formatted date, the chosen slot and the service
      title; the notes and the service id are not kept. */
  lemma SubmittedBookingStored(form: FormData, timeSlot: string, date: Option<Date>,
                               serviceId: Option<Json>, serviceTitle: Option<Json>,
                               store: Backend.Store, sms: Backend.SmsChannel, smsOutcome: Backend.Outcome,
                               transporter: Backend.Transporter, mailOutcome: Backend.Outcome)
    ensures var payload := Submit(form, timeSlot, date, serviceId, serviceTitle);
      payload.Some? ==>
        Backend.Post(store, payload.value, sms, smsOutcome, transporter, mailOutcome).store
          == store + [Backend.Appointment(
               Some(JString(form.name)), Some(JString(form.email)),
               Some(JString(FormatIsoDate(date.value))), Some(JString(form.phone)),
               Some(JString(timeSlot)), serviceTitle)]
  {
    var payload := Submit(form, timeSlot, date, serviceId, serviceTitle);
    if payload.Some? {
      ValidPayloadPassesServer(form, timeSlot, date, serviceId, serviceTitle);
      var r := Backend.Post(store, payload.value, sms, smsOutcome, transporter, mailOutcome);
      assert r.store == store + [Backend.RecordOf(payload.value)];
    }
  }

  /** The converse fails: the server accepts a name of one space, which the form
      rejects. */
  lemma ServerLaxerThanForm(form: FormData, body: Body)
    requires form == FormData(" ", "jane@x.com", "03001234567", "")
    requires body == map["name" := JString(form.name), "email" := JString(form.email),
                         "date" := JString("2025-01-31"), "phone" := JString(form.phone)]
    ensures !Backend.MissingRequired(body)
    ensures "name" in Validate(form, "09:00 AM", Some(Date(2025, 1, 31)))
  {
    assert AllSpace(form.name) by { assert form.name[0] == ' '; }
    assert Field(body, "name") == Some(JString(" "));
  }

  // ---------------------------------------------------------------------------
  // Typing into the form

  /** The form's named inputs. */
  datatype Input = NameInput | EmailInput | PhoneInput | NotesInput

  /** The `name` attribute of an input, which is also its error key. */
  function Key(input: Input): (k: string)
    ensures k in {"name", "email", "phone", "notes"}
  {
    match input
    case NameInput => "name"
    case EmailInput => "email"
    case PhoneInput => "phone"
    case NotesInput => "notes"
  }

  function Value(form: FormData, input: Input): string {
    match input
    case NameInput => form.name
    case EmailInput => form.email
    case PhoneInput => form.phone
    case NotesInput => form.notes
  }

  /** `handleInputChange`: the typed value replaces the field, and a non-empty error
      on that field is blanked. */
  function HandleInputChange(form: FormData, errors: Errors, input: Input, value: string): (r: (FormData, Errors))
    ensures Value(r.0, input) == value
    ensures forall other :: other != input ==> Value(r.0, other) == Value(form, other)
    ensures r.1.Keys == errors.Keys
    ensures Key(input) in errors ==> r.1[Key(input)] == ""
    ensures forall k :: k in errors && k != Key(input) ==> r.1[k] == errors[k]
  {
    var f := match input
      case NameInput => form.(name := value)
      case EmailInput => form.(email := value)
      case PhoneInput => form.(phone := value)
      case NotesInput => form.(notes := value);
    var key := Key(input);
    (f, if key in errors && errors[key] != "" then errors[key := ""] else errors)
  }
}
