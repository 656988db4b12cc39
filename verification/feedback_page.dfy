/** The public feedback form (FeedbackPage): a satisfaction choice, a group
    of improvement checkboxes and a comment; submitting appends one record to
    the list stored under "appFeedback". */
module FeedbackPage {
  import opened Wrappers
  import opened Text
  import opened Seqs
  import opened Storage
  import opened Checklist

  datatype Satisfaction = Satisfied | Unsatisfied

  /** The text the record stores for a choice. */
  function SatisfactionName(s: Satisfaction): string {
    match s
    case Satisfied => "satisfied"
    case Unsatisfied => "unsatisfied"
  }

  /** A stored feedback record. */
  datatype Feedback = Feedback(
    id: string, satisfaction: Satisfaction, improvements: seq<string>, comment: string, date: string)

  /** The storage key of the feedback list. */
  const Key := "appFeedback"

  /** The labels of the improvement checkboxes. */
  const ImprovementOptions: seq<string> := [
    "More public toilets needed", "Better cleaning schedule", "Improved maintenance",
    "Better accessibility", "More hygienic facilities", "Better lighting",
    "24/7 availability", "Better safety measures"]

  /** The state of the form; no satisfaction is chosen at first. */
  datatype Form = Form(satisfaction: Option<Satisfaction>, improvements: seq<string>, comment: string)

  const Blank := Form(None, [], "")

  /** One improvement checkbox changing to `checked`. */
  function ToggleImprovement(f: Form, option: string, checked: bool): (r: Form)
    ensures r.satisfaction == f.satisfaction && r.comment == f.comment
    ensures checked ==> r.improvements == f.improvements + [option]
    ensures !checked ==> option !in r.improvements && IsSubsequence(r.improvements, f.improvements)
    ensures !checked ==> forall y :: y != option ==>
              multiset(r.improvements)[y] == multiset(f.improvements)[y]
  {
    f.(improvements := Toggle(f.improvements, option, checked))
  }

  /** One change of an improvement checkbox. */
  datatype Check = Check(option: string, checked: bool)

  function ApplyChecks(f: Form, checks: seq<Check>): Form
    decreases |checks|
  {
    if |checks| == 0 then f
    else ApplyChecks(ToggleImprovement(f, checks[0].option, checks[0].checked), checks[1..])
  }

  /** The form only has a checkbox for each listed improvement. */
  predicate Offered(checks: seq<Check>) {
    forall k :: 0 <= k < |checks| ==> checks[k].option in ImprovementOptions
  }

  /** Starting from listed improvements, the checked improvements stay listed
      ones, and the satisfaction and the comment are untouched. */
  lemma {:induction false} ChecksKeepOfferedImprovements(f: Form, checks: seq<Check>)
    requires forall x :: x in f.improvements ==> x in ImprovementOptions
    requires Offered(checks)
    ensures var g := ApplyChecks(f, checks);
            (forall x :: x in g.improvements ==> x in ImprovementOptions) &&
            g.satisfaction == f.satisfaction && g.comment == f.comment
    decreases |checks|
  {
    if |checks| > 0 {
      var g := ToggleImprovement(f, checks[0].option, checks[0].checked);
      assert forall x :: x in g.improvements ==> x in ImprovementOptions by {
        assert checks[0].option in ImprovementOptions;
      }
      assert Offered(checks[1..]) by {
        forall k | 0 <= k < |checks[1..]|
          ensures checks[1..][k].option in ImprovementOptions
        {
          assert checks[1..][k] == checks[k + 1];
        }
      }
      ChecksKeepOfferedImprovements(g, checks[1..]);
    }
  }

  /** Checking an unchecked improvement and unchecking it again restores the form. */
  lemma ToggleImprovementTwice(f: Form, option: string)
    requires option !in f.improvements
    ensures ToggleImprovement(ToggleImprovement(f, option, true), option, false) == f
  {
    UncheckUndoesCheck(f.improvements, option);
  }

  /** Why a submit did not store anything. */
  datatype SubmitError = NoSatisfaction | StoreFailed(cause: StorageError)

  /** The page after a successful submit. */
  datatype Page = Page(form: Form, store: Store<Feedback>)

  /** The record a submit at clock reading `now` (milliseconds) and time
      stamp `date` builds from the form. */
  function Record(f: Form, s: Satisfaction, now: nat, date: string): Feedback {
    Feedback(Decimal(now), s, f.improvements, f.comment, date)
  }

  /** `handleSubmit`: without a satisfaction nothing happens (a toast asks for
      one); otherwise the record is pushed onto the stored list and the form
      is cleared. */
  function Submit(f: Form, st: Store<Feedback>, now: nat, date: string): (r: Result<Page, SubmitError>)
    ensures f.satisfaction.None? ==> r == Failure(NoSatisfaction)
    ensures f.satisfaction.Some? ==> (r.Failure? <==> Lookup(st, Key).Unparsable?)
    ensures f.satisfaction.Some? && r.Failure? ==> r.error == StoreFailed(ParseError(Key))
    ensures r.Success? ==> r.value.form == Blank
    ensures r.Success? ==> forall k :: k != Key ==> Lookup(r.value.store, k) == Lookup(st, k)
  {
    match f.satisfaction
    case None => Failure(NoSatisfaction)
    case Some(s) =>
      match Push(st, Key, Record(f, s, now, date))
      case Success(st') => Success(Page(Blank, st'))
      case Failure(e) => Failure(StoreFailed(e))
  }

  /** A successful submit adds exactly one record, at the end, carrying the
      chosen satisfaction, the checked improvements and the comment; the
      earlier records are kept in order. */
  lemma SubmitAppendsRecord(f: Form, st: Store<Feedback>, now: nat, date: string)
    requires f.satisfaction.Some? && !Lookup(st, Key).Unparsable?
    ensures Submit(f, st, now, date).Success?
    ensures var before := ReadList(st, Key).value;
            var after := Lookup(Submit(f, st, now, date).value.store, Key);
            after.Holds? && |after.items| == |before| + 1 &&
            after.items[..|before|] == before &&
            after.items[|before|] == Feedback(Decimal(now), f.satisfaction.value, f.improvements, f.comment, date)
  {
    var before := ReadList(st, Key).value;
    var after := Lookup(Submit(f, st, now, date).value.store, Key);
    assert after.items == before + [Record(f, f.satisfaction.value, now, date)];
  }

  /** On a store that has no feedback yet, the first submit leaves exactly one record. */
  lemma FirstSubmit(f: Form, st: Store<Feedback>, now: nat, date: string)
    requires f.satisfaction.Some? && Key !in st
    ensures Submit(f, st, now, date).Success?
    ensures Lookup(Submit(f, st, now, date).value.store, Key) ==
            Holds([Feedback(Decimal(now), f.satisfaction.value, f.improvements, f.comment, date)])
  {
  }

  /** Records submitted at different clock readings get different ids. */
  lemma IdsFollowClock(f: Form, g: Form, s: Satisfaction, t: Satisfaction, now1: nat, now2: nat, d1: string, d2: string)
    requires now1 != now2
    ensures Record(f, s, now1, d1).id != Record(g, t, now2, d2).id
  {
    DecimalRoundTrip(now1);
    DecimalRoundTrip(now2);
  }
}
