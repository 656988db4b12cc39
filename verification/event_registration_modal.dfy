/** The event registration dialog (EventRegistrationModal): three required
    inputs; a submit appends one registration, tagged with the event's title,
    to the list stored under "eventRegistrations", then closes and clears. */
module EventRegistrationModal {
  import opened Wrappers
  import opened Text
  import opened Storage

  /** The inputs, as the text they hold. */
  datatype Form = Form(name: string, age: string, contact: string)

  const Blank := Form("", "", "")

  /** A stored registration: the form's fields plus the event and a time stamp. */
  datatype Registration = Registration(
    name: string, age: string, contact: string, eventTitle: string, registrationDate: string)

  /** The storage key of the registration list. */
  const Key := "eventRegistrations"

  /** The smallest and largest age the age input admits. */
  const MinAge := 1
  const MaxAge := 120

  /** The dialog: whether it is shown, and its inputs. */
  datatype Modal = Modal(open: bool, form: Form)

  /** The browser's constraint check before it fires the submit event: every
      input is required, and the age input is a number within its bounds. */
  predicate Valid(f: Form) {
    f.name != "" && f.contact != "" &&
    f.age != "" && IsDigits(f.age) && MinAge <= DecimalValue(f.age) <= MaxAge
  }

  datatype SubmitError = Blocked | StoreFailed(cause: StorageError)

  /** The dialog and the store after a successful submit. */
  datatype Outcome = Outcome(modal: Modal, store: Store<Registration>)

  /** A form the browser blocks never reaches `handleSubmit`; otherwise the
      registration is pushed onto the stored list, the dialog is closed and
      the inputs are cleared. */
  function Submit(m: Modal, eventTitle: string, st: Store<Registration>, date: string): (r: Result<Outcome, SubmitError>)
    ensures !Valid(m.form) ==> r == Failure(Blocked)
    ensures Valid(m.form) ==> (r.Failure? <==> Lookup(st, Key).Unparsable?)
    ensures Valid(m.form) && r.Failure? ==> r.error == StoreFailed(ParseError(Key))
    ensures r.Success? ==> r.value.modal == Modal(false, Blank)
    ensures r.Success? ==> forall k :: k != Key ==> Lookup(r.value.store, k) == Lookup(st, k)
  {
    if !Valid(m.form) then Failure(Blocked)
    else
      var f := m.form;
      match Push(st, Key, Registration(f.name, f.age, f.contact, eventTitle, date))
      case Success(st') => Success(Outcome(Modal(false, Blank), st'))
      case Failure(e) => Failure(StoreFailed(e))
  }

  /** A successful submit adds exactly one registration, at the end: the
      entered name, age and contact, and the title of the event the dialog
      was opened for; earlier registrations are kept in order. */
  lemma SubmitAppendsRegistration(m: Modal, eventTitle: string, st: Store<Registration>, date: string)
    requires Valid(m.form) && !Lookup(st, Key).Unparsable?
    ensures Submit(m, eventTitle, st, date).Success?
    ensures var before := ReadList(st, Key).value;
            var after := Lookup(Submit(m, eventTitle, st, date).value.store, Key);
            after.Holds? && |after.items| == |before| + 1 &&
            after.items[..|before|] == before &&
            after.items[|before|] == Registration(m.form.name, m.form.age, m.form.contact, eventTitle, date)
  {
    var before := ReadList(st, Key).value;
    var after := Lookup(Submit(m, eventTitle, st, date).value.store, Key);
    var f := m.form;
    assert after.items == before + [Registration(f.name, f.age, f.contact, eventTitle, date)];
  }

  /** Every stored registration that a submit adds passed the constraints:
      its age is a whole number from 1 to 120 and no field is empty. */
  lemma StoredRegistrationIsValid(m: Modal, eventTitle: string, st: Store<Registration>, date: string)
    requires Submit(m, eventTitle, st, date).Success?
    ensures var items := Lookup(Submit(m, eventTitle, st, date).value.store, Key).items;
            var g := items[|items| - 1];
            g.name != "" && g.contact != "" && IsDigits(g.age) &&
            MinAge <= DecimalValue(g.age) <= MaxAge && g.eventTitle == eventTitle
  {
    SubmitAppendsRegistration(m, eventTitle, st, date);
  }

  /** An age of 0 or over 120 is blocked, whatever the other inputs hold. */
  lemma OutOfRangeAgeBlocked(m: Modal, eventTitle: string, st: Store<Registration>, date: string, age: nat)
    requires age < MinAge || age > MaxAge
    requires m.form.age == Decimal(age)
    ensures Submit(m, eventTitle, st, date) == Failure(Blocked)
  {
    DecimalRoundTrip(age);
  }
}
