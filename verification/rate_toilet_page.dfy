/** The toilet rating form (RateToiletPage): two radio groups and a comment;
    submitting appends one rating to the list stored under "toiletRatings". */
module RateToiletPage {
  import opened Wrappers
  import opened Text
  import opened Storage

  /** A stored rating. The two ratings are the radio values, or "" when none
      was picked. */
  datatype ToiletRating = ToiletRating(
    id: string, cleanlinessRating: string, maintenanceRating: string, comment: string, date: string)

  /** The storage key of the rating list. */
  const Key := "toiletRatings"

  /** The values of the two radio groups. */
  const CleanlinessOptions: seq<string> := ["poor", "average", "good"]
  const MaintenanceOptions: seq<string> := ["needs-repair", "functional", "well-maintained"]

  /** The state of the form: "" is "nothing picked". */
  datatype Form = Form(cleanlinessRating: string, maintenanceRating: string, comment: string)

  const Blank := Form("", "", "")

  /** The page after a submit. */
  datatype Page = Page(form: Form, store: Store<ToiletRating>)

  /** The rating a submit at clock reading `now` and time stamp `date` builds. */
  function Record(f: Form, now: nat, date: string): ToiletRating {
    ToiletRating(Decimal(now), f.cleanlinessRating, f.maintenanceRating, f.comment, date)
  }

  /** `handleSubmit`: there is no validation, so any form, even one with no
      rating picked, is pushed onto the stored list; the form is cleared.
      Only a stored text that does not parse stops it. */
  function Submit(f: Form, st: Store<ToiletRating>, now: nat, date: string): (r: Result<Page, StorageError>)
    ensures r.Failure? <==> Lookup(st, Key).Unparsable?
    ensures r.Failure? ==> r.error == ParseError(Key)
    ensures r.Success? ==> r.value.form == Blank
    ensures r.Success? ==> forall k :: k != Key ==> Lookup(r.value.store, k) == Lookup(st, k)
  {
    match Push(st, Key, Record(f, now, date))
    case Success(st') => Success(Page(Blank, st'))
    case Failure(e) => Failure(e)
  }

  /** A submit adds exactly one rating, at the end, carrying the form's two
      ratings and comment; earlier ratings are kept in order. */
  lemma SubmitAppendsRating(f: Form, st: Store<ToiletRating>, now: nat, date: string)
    requires !Lookup(st, Key).Unparsable?
    ensures Submit(f, st, now, date).Success?
    ensures var before := ReadList(st, Key).value;
            var after := Lookup(Submit(f, st, now, date).value.store, Key);
            after.Holds? && |after.items| == |before| + 1 &&
            after.items[..|before|] == before &&
            after.items[|before|] == ToiletRating(Decimal(now), f.cleanlinessRating, f.maintenanceRating, f.comment, date)
  {
    var before := ReadList(st, Key).value;
    var after := Lookup(Submit(f, st, now, date).value.store, Key);
    assert after.items == before + [Record(f, now, date)];
  }

  /** An untouched form is accepted too: it stores a rating with both ratings
      empty. */
  lemma BlankFormIsStored(st: Store<ToiletRating>, now: nat, date: string)
    requires Key !in st
    ensures Submit(Blank, st, now, date).Success?
    ensures Lookup(Submit(Blank, st, now, date).value.store, Key) ==
            Holds([ToiletRating(Decimal(now), "", "", "", date)])
  {
  }
}
