/** The salon back end (backend/index1.js): the `POST /appointments` booking intake,
    the in-memory appointment store and `GET /appointments`.

    The handler runs as one atomic step. The outcomes of the two foreign calls (the
    Twilio SMS send and the Nodemailer send) are inputs, and so is the state of the
    SMS client and of the mail transporter, which are set up once at start-up. */
module Backend {
  import opened JsValues
  import Phone

  /** One stored booking: the six destructured request fields, exactly as received.
      `None` is a field the request did not carry (`undefined`). */
  datatype Appointment = Appointment(
    name: Option<Json>,
    email: Option<Json>,
    date: Option<Json>,
    phone: Option<Json>,
    time: Option<Json>,
    serviceTitle: Option<Json>)

  /** The process-lifetime appointment list, in insertion order. */
  type Store = seq<Appointment>

  datatype Response = Response(status: int, body: string)

  const MissingFields := Response(400, "Missing fields")
  const Booked := Response(201, "Appointment booked successfully")
  const EmailFailed := Response(500, "Failed to send email confirmation")
  const ProcessingFailed := Response(500, "Failed to process appointment")

  /** Result of one call to an external provider. */
  datatype Outcome = Ok | Fail

  /** The Twilio client: constructed at start-up, or left `undefined`. */
  datatype SmsChannel = SmsDisabled | SmsActive

  /** The Nodemailer transporter variable: assigned once the Ethereal test account
      exists, `undefined` before that or when the account could not be created. */
  datatype Transporter = TransporterUnset | TransporterSet

  /** How far the asynchronous mail set-up has got when a request arrives. */
  datatype MailSetup = SetupPending | AccountFailed | AccountCreated(verified: bool)

  /** An SMS handed to the provider: its destination and what the provider answered. */
  datatype SmsAttempt = SmsAttempt(to: string, outcome: Outcome)

  /** Everything one booking request does: the new store, the HTTP response, the SMS
      attempt (if any) and the address a confirmation mail was handed to (if any). */
  datatype PostResult = PostResult(
    store: Store,
    response: Response,
    sms: Option<SmsAttempt>,
    mailTo: Option<Json>)

  /** An environment variable is truthy when it is set to a non-empty string. */
  predicate EnvSet(env: map<string, string>, key: string) {
    key in env && env[key] != []
  }

  /** SMS is enabled only when both the account SID and the auth token are set and
      the Twilio constructor did not throw; otherwise it stays off for good. */
  function SmsChannelAtStartup(env: map<string, string>, constructorSucceeds: bool): (c: SmsChannel)
    ensures c.SmsActive? <==> EnvSet(env, "TWILIO_SID") && EnvSet(env, "TWILIO_TOKEN") && constructorSucceeds
  {
    if EnvSet(env, "TWILIO_SID") && EnvSet(env, "TWILIO_TOKEN") && constructorSucceeds then SmsActive
    else SmsDisabled
  }

  /** The transporter is assigned as soon as the test account exists, before it is
      verified, so a failed verification does not take it away again. */
  function TransporterAfter(setup: MailSetup): (t: Transporter)
    ensures t.TransporterSet? <==> setup.AccountCreated?
  {
    if setup.AccountCreated? then TransporterSet else TransporterUnset
  }

  /** The required-field test `!name || !email || !date || !phone`. */
  predicate MissingRequired(body: Body) {
    || !Truthy(Field(body, "name"))
    || !Truthy(Field(body, "email"))
    || !Truthy(Field(body, "date"))
    || !Truthy(Field(body, "phone"))
  }

  /** A required field is missing exactly when one of the four is absent or holds
      one of the falsy JSON values. */
  lemma MissingMeansFalsy(body: Body)
    ensures MissingRequired(body) <==>
      exists key :: key in {"name", "email", "date", "phone"} &&
        (key !in body || body[key] in {JNull, JBool(false), JNumber(0.0), JString("")})
  {
    FalsyValues(Field(body, "name"));
    FalsyValues(Field(body, "email"));
    FalsyValues(Field(body, "date"));
    FalsyValues(Field(body, "phone"));
  }

  /** The record appended for a request: the six named fields and nothing else. */
  function RecordOf(body: Body): Appointment {
    Appointment(
      Field(body, "name"), Field(body, "email"), Field(body, "date"),
      Field(body, "phone"), Field(body, "time"), Field(body, "serviceTitle"))
  }

  /** With SMS enabled, `phone.startsWith` is called on the phone value; a truthy
      phone that is not a string (a number, `true`, an array or an object) has no such
      method, and the resulting TypeError reaches the handler's outer `catch`. */
  predicate PhoneCrashes(body: Body, sms: SmsChannel) {
    sms.SmsActive? && !(Field(body, "phone").Some? && Field(body, "phone").value.JString?)
  }

  /** The SMS text interpolates `name`, `date` and `time`; it is built (for the log
      line) before the provider is called, outside the SMS `try`. */
  predicate SmsTextThrows(body: Body) {
    || InterpolationThrows(Field(body, "name"))
    || InterpolationThrows(Field(body, "date"))
    || InterpolationThrows(Field(body, "time"))
  }

  /** The confirmation mail interpolates `name`, `serviceTitle`, `date` and `time`;
      it is built before the mail `try`, so a failure there is not a mail failure. */
  predicate MailTextThrows(body: Body) {
    SmsTextThrows(body) || InterpolationThrows(Field(body, "serviceTitle"))
  }

  /** A TypeError after the record was stored, which the outer `catch` answers. */
  predicate Crashes(body: Body, sms: SmsChannel) {
    PhoneCrashes(body, sms) || MailTextThrows(body)
  }

  /** `POST /appointments`. */
  function Post(store: Store, body: Body, sms: SmsChannel, smsOutcome: Outcome,
                transporter: Transporter, mailOutcome: Outcome): (r: PostResult)
    // a missing required field is rejected before anything else happens
    ensures MissingRequired(body) <==> r.response == MissingFields
    ensures MissingRequired(body) ==> r.store == store && r.sms.None? && r.mailTo.None?
    // otherwise exactly one record is appended and earlier records are kept
    ensures !MissingRequired(body) ==>
      && |r.store| == |store| + 1
      && r.store[..|store|] == store
      && r.store[|store|] == RecordOf(body)
    // short of a crash, the mail send alone decides between success and failure
    ensures r.response == Booked <==>
      !MissingRequired(body) && !Crashes(body, sms) && transporter.TransporterSet? && mailOutcome.Ok?
    ensures r.response == EmailFailed <==>
      !MissingRequired(body) && !Crashes(body, sms) && (transporter.TransporterUnset? || mailOutcome.Fail?)
    ensures r.response == ProcessingFailed <==> !MissingRequired(body) && Crashes(body, sms)
    // an SMS is attempted only on a valid request with SMS on, a string phone and a
    // text that can be built
    ensures r.sms.Some? <==>
      !MissingRequired(body) && sms.SmsActive? && !PhoneCrashes(body, sms) && !SmsTextThrows(body)
    ensures r.sms.Some? ==>
      r.sms.value == SmsAttempt(Phone.NormalizePhone(Field(body, "phone").value.s), smsOutcome)
    // a mail is handed over only when the transporter exists, to the address given
    ensures r.mailTo.Some? <==>
      !MissingRequired(body) && !Crashes(body, sms) && transporter.TransporterSet?
    ensures r.mailTo.Some? ==> r.mailTo == Field(body, "email")
  {
    if MissingRequired(body) then
      PostResult(store, MissingFields, None, None)
    else
      var stored := store + [RecordOf(body)];
      if PhoneCrashes(body, sms) || (sms.SmsActive? && SmsTextThrows(body)) then
        PostResult(stored, ProcessingFailed, None, None)
      else
        var smsSent :=
          if sms.SmsActive? then Some(SmsAttempt(Phone.NormalizePhone(Field(body, "phone").value.s), smsOutcome))
          else None;
        if MailTextThrows(body) then
          // only `serviceTitle` can fail here once the SMS text was built
          PostResult(stored, ProcessingFailed, smsSent, None)
        else if transporter.TransporterUnset? then
          // `transporter.sendMail` on `undefined` throws inside the mail `try`
          PostResult(stored, EmailFailed, smsSent, None)
        else
          PostResult(stored, if mailOutcome.Ok? then Booked else EmailFailed, smsSent, Field(body, "email"))
  }

  /** `GET /appointments`: the whole store, unfiltered, in insertion order. */
  function ReadAll(store: Store): (r: Store)
    ensures |r| == |store|
    ensures forall i :: 0 <= i < |store| ==> r[i] == store[i]
  {
    store
  }

  /** The SMS channel is best effort: what the provider answers never changes the
      response or the store. */
  lemma SmsOutcomeIrrelevant(store: Store, body: Body, sms: SmsChannel, transporter: Transporter,
                             mailOutcome: Outcome, o1: Outcome, o2: Outcome)
    ensures Post(store, body, sms, o1, transporter, mailOutcome).response
         == Post(store, body, sms, o2, transporter, mailOutcome).response
    ensures Post(store, body, sms, o1, transporter, mailOutcome).store
         == Post(store, body, sms, o2, transporter, mailOutcome).store
  {
  }

  /** Whether SMS is configured at all does not change the response or the store
      either, as long as the phone is a string: the SMS text uses no field the mail
      text does not also use. */
  lemma SmsChannelIrrelevant(store: Store, body: Body, smsOutcome: Outcome, transporter: Transporter,
                             mailOutcome: Outcome)
    requires Field(body, "phone").Some? ==> Field(body, "phone").value.JString?
    ensures Post(store, body, SmsDisabled, smsOutcome, transporter, mailOutcome).response
         == Post(store, body, SmsActive, smsOutcome, transporter, mailOutcome).response
    ensures Post(store, body, SmsDisabled, smsOutcome, transporter, mailOutcome).store
         == Post(store, body, SmsActive, smsOutcome, transporter, mailOutcome).store
  {
  }

  /** The record is stored before any notification: a failed confirmation mail still
      leaves the booking visible to a following `GET`. */
  lemma MailFailureKeepsBooking(store: Store, body: Body, sms: SmsChannel, smsOutcome: Outcome,
                                transporter: Transporter)
    requires !MissingRequired(body)
    ensures var r := Post(store, body, sms, smsOutcome, transporter, Fail);
      && (r.response == EmailFailed || r.response == ProcessingFailed)
      && RecordOf(body) in ReadAll(r.store)
  {
    var r := Post(store, body, sms, smsOutcome, transporter, Fail);
    assert r.store[|store|] == RecordOf(body);
  }

  /** Missing Twilio credentials switch SMS off for the life of the process: no
      request ever reaches the provider, and a non-string phone, never inspected, is
      stored and answered through the mail path. */
  lemma NoCredentialsNoSms(env: map<string, string>, constructorSucceeds: bool, store: Store, body: Body,
                           smsOutcome: Outcome, transporter: Transporter, mailOutcome: Outcome)
    requires !EnvSet(env, "TWILIO_SID") || !EnvSet(env, "TWILIO_TOKEN")
    ensures var r := Post(store, body, SmsChannelAtStartup(env, constructorSucceeds), smsOutcome,
                          transporter, mailOutcome);
      && r.sms.None?
      && (!MissingRequired(body) && !MailTextThrows(body) ==>
            && r.store == store + [RecordOf(body)]
            && (r.response == Booked <==> transporter.TransporterSet? && mailOutcome.Ok?)
            && (r.response == EmailFailed <==> transporter.TransporterUnset? || mailOutcome.Fail?))
  {
  }

  /** With both credentials set and a client constructed, every accepted request with
      a string phone and buildable texts sends one SMS to the normalised number. */
  lemma CredentialsSendSms(env: map<string, string>, store: Store, body: Body, smsOutcome: Outcome,
                           transporter: Transporter, mailOutcome: Outcome)
    requires EnvSet(env, "TWILIO_SID") && EnvSet(env, "TWILIO_TOKEN")
    requires !MissingRequired(body) && !SmsTextThrows(body)
    requires "phone" in body && body["phone"].JString?
    ensures Post(store, body, SmsChannelAtStartup(env, true), smsOutcome, transporter, mailOutcome).sms
         == Some(SmsAttempt(Phone.NormalizePhone(body["phone"].s), smsOutcome))
  {
  }

  /** A failed `verify()` does not disable mail: the account exists, so the
      transporter is set and a successful send books the appointment. */
  lemma FailedVerifyStillMails(store: Store, body: Body, sms: SmsChannel, smsOutcome: Outcome)
    requires !MissingRequired(body) && !Crashes(body, sms)
    ensures var r := Post(store, body, sms, smsOutcome, TransporterAfter(AccountCreated(false)), Ok);
      r.response == Booked && r.mailTo == Field(body, "email")
  {
  }

  /** Before the test account exists, or when it could not be created, no mail is
      handed over and every accepted request that does not crash is answered with
      the mail-failure 500, although its record is stored. */
  lemma NoAccountNoMail(setup: MailSetup, store: Store, body: Body, sms: SmsChannel, smsOutcome: Outcome,
                        mailOutcome: Outcome)
    requires !setup.AccountCreated?
    ensures var r := Post(store, body, sms, smsOutcome, TransporterAfter(setup), mailOutcome);
      && r.mailTo.None?
      && (!MissingRequired(body) && !Crashes(body, sms) ==>
            r.response == EmailFailed && r.store == store + [RecordOf(body)])
  {
  }

  /** A field whose value is an object with its own `toString` key makes the mail
      text unbuildable: the record is kept, but the request ends in the generic 500
      and no mail is sent. With SMS on and only `serviceTitle` affected, the SMS has
      already gone out. */
  lemma ToStringObjectScenario(sms: SmsChannel, smsOutcome: Outcome, transporter: Transporter,
                               mailOutcome: Outcome)
    ensures var body := map["name" := JString("Jane Doe"), "email" := JString("jane@x.com"),
                             "date" := JString("2024-05-01"), "phone" := JString("03001234567"),
                             "serviceTitle" := JObject(map["toString" := JNull])];
            var r := Post([], body, sms, smsOutcome, transporter, mailOutcome);
            && r.response == ProcessingFailed
            && |ReadAll(r.store)| == 1
            && r.mailTo.None?
            && (r.sms.Some? <==> sms.SmsActive?)
  {
    var body := map["name" := JString("Jane Doe"), "email" := JString("jane@x.com"),
                    "date" := JString("2024-05-01"), "phone" := JString("03001234567"),
                    "serviceTitle" := JObject(map["toString" := JNull])];
    assert InterpolationThrows(Field(body, "serviceTitle"));
    assert !SmsTextThrows(body);
  }

  /** Fields other than the six named ones (the client also sends `notes` and
      `serviceId`) do not reach the store. */
  lemma RecordIgnoresOtherFields(body: Body, key: string, v: Json)
    requires key !in {"name", "email", "date", "phone", "time", "serviceTitle"}
    ensures RecordOf(body[key := v]) == RecordOf(body)
  {
  }

  /** Two requests leave the same record exactly when they agree on the six named
      fields, absence included. */
  lemma RecordDeterminedByNamedFields(b1: Body, b2: Body)
    ensures RecordOf(b1) == RecordOf(b2) <==>
      forall key :: key in {"name", "email", "date", "phone", "time", "serviceTitle"} ==>
        Field(b1, key) == Field(b2, key)
  {
  }

  /** One submitted request with the answers its two providers give. */
  datatype Submission = Submission(body: Body, smsOutcome: Outcome, mailOutcome: Outcome)

  /** The store after a series of requests handled one at a time. */
  function PostAll(store: Store, subs: seq<Submission>, sms: SmsChannel, transporter: Transporter): Store
    decreases |subs|
  {
    if subs == [] then store
    else
      var s := subs[0];
      PostAll(Post(store, s.body, sms, s.smsOutcome, transporter, s.mailOutcome).store, subs[1..], sms, transporter)
  }

  /** The records of the accepted requests, in submission order. */
  function Accepted(subs: seq<Submission>): Store
    ensures |Accepted(subs)| <= |subs|
  {
    if subs == [] then []
    else if MissingRequired(subs[0].body) then Accepted(subs[1..])
    else [RecordOf(subs[0].body)] + Accepted(subs[1..])
  }

  /** The store grows by exactly the accepted requests, appended in order, whatever
      the notification channels do; rejected requests leave no trace. */
  lemma {:induction false} PostAllAppendsAccepted(store: Store, subs: seq<Submission>, sms: SmsChannel,
                                                  transporter: Transporter)
    ensures PostAll(store, subs, sms, transporter) == store + Accepted(subs)
    decreases |subs|
  {
    if subs != [] {
      var s := subs[0];
      var next := Post(store, s.body, sms, s.smsOutcome, transporter, s.mailOutcome).store;
      PostAllAppendsAccepted(next, subs[1..], sms, transporter);
      if !MissingRequired(s.body) {
        assert next == store + [RecordOf(s.body)];
      }
    }
  }

  /** After N valid requests on a fresh store, `GET` returns exactly N records, the
      i-th holding the fields of the i-th request. */
  lemma GetAfterValidPosts(subs: seq<Submission>, sms: SmsChannel, transporter: Transporter)
    requires forall i :: 0 <= i < |subs| ==> !MissingRequired(subs[i].body)
    ensures |ReadAll(PostAll([], subs, sms, transporter))| == |subs|
    ensures forall i :: 0 <= i < |subs| ==> ReadAll(PostAll([], subs, sms, transporter))[i] == RecordOf(subs[i].body)
  {
    PostAllAppendsAccepted([], subs, sms, transporter);
    AcceptedAllValid(subs);
  }

  lemma {:induction false} AcceptedAllValid(subs: seq<Submission>)
    requires forall i :: 0 <= i < |subs| ==> !MissingRequired(subs[i].body)
    ensures |Accepted(subs)| == |subs|
    ensures forall i :: 0 <= i < |subs| ==> Accepted(subs)[i] == RecordOf(subs[i].body)
  {
    if subs != [] {
      AcceptedAllValid(subs[1..]);
      assert forall i :: 1 <= i < |subs| ==> subs[1..][i - 1] == subs[i];
    }
  }

  /** A request without a phone is rejected and a following `GET` returns nothing. */
  lemma MissingPhoneScenario(sms: SmsChannel, smsOutcome: Outcome, transporter: Transporter, mailOutcome: Outcome)
    ensures var body := map["name" := JString("Jane Doe"), "email" := JString("jane@x.com"),
                             "date" := JString("2024-05-01")];
            var r := Post([], body, sms, smsOutcome, transporter, mailOutcome);
            r.response == MissingFields && ReadAll(r.store) == []
  {
  }

  /** A complete booking with SMS disabled and a working mail transporter is
      accepted, and `GET` returns that one record unchanged. */
  lemma JaneDoeScenario()
    ensures var body := map["name" := JString("Jane Doe"), "email" := JString("jane@x.com"),
                             "date" := JString("2024-05-01"), "phone" := JString("03001234567"),
                             "time" := JString("10:00 AM"), "serviceTitle" := JString("Hair Styling")];
            var r := Post([], body, SmsDisabled, Fail, TransporterSet, Ok);
            && r.response == Booked
            && ReadAll(r.store) == [Appointment(Some(JString("Jane Doe")), Some(JString("jane@x.com")),
                                                Some(JString("2024-05-01")), Some(JString("03001234567")),
                                                Some(JString("10:00 AM")), Some(JString("Hair Styling")))]
  {
  }
}
