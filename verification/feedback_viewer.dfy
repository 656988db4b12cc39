/** The admin feedback screen (FeedbackViewer): it loads the stored feedback
    and toilet ratings once, lists them under two tabs filtered by one search
    box, and colours each rating. */
module FeedbackViewer {
  import opened Wrappers
  import opened Text
  import opened Seqs
  import opened Badges
  import opened Storage
  import FeedbackPage
  import RateToiletPage

  type Feedback = FeedbackPage.Feedback
  type ToiletRating = RateToiletPage.ToiletRating

  /** The lists the screen shows when loading throws. */
  const MockFeedback: seq<Feedback> := [
    FeedbackPage.Feedback("f1", FeedbackPage.Satisfied,
      ["More public toilets needed", "Better cleaning schedule"],
      "Overall good service, but more facilities needed.", "2023-05-15T10:30:00Z"),
    FeedbackPage.Feedback("f2", FeedbackPage.Unsatisfied,
      ["Better maintenance", "More hygienic facilities"],
      "Toilets are often dirty and not maintained well.", "2023-05-18T14:15:00Z")]

  const MockRatings: seq<ToiletRating> := [
    RateToiletPage.ToiletRating("r1", "good", "functional", "Clean but could use some repairs", "2023-05-16T09:20:00Z"),
    RateToiletPage.ToiletRating("r2", "poor", "needs-repair", "Very dirty and broken facilities", "2023-05-19T11:45:00Z")]

  /** The two lists the screen holds. */
  datatype Lists = Lists(feedback: seq<Feedback>, ratings: seq<ToiletRating>)

  /** The loading effect. Both reads sit in one `try`: a slot that does not
      parse, under either key, replaces BOTH lists by the fixed ones, even a
      list already read. A missing slot leaves its list empty. */
  function Load(fb: Store<Feedback>, rt: Store<ToiletRating>): (r: Lists)
    ensures Lookup(fb, FeedbackPage.Key).Unparsable? || Lookup(rt, RateToiletPage.Key).Unparsable? ==>
              r == Lists(MockFeedback, MockRatings)
    ensures !Lookup(fb, FeedbackPage.Key).Unparsable? && !Lookup(rt, RateToiletPage.Key).Unparsable? ==>
              r.feedback == ReadList(fb, FeedbackPage.Key).value && r.ratings == ReadList(rt, RateToiletPage.Key).value
  {
    var f := Lookup(fb, FeedbackPage.Key);
    var g := Lookup(rt, RateToiletPage.Key);
    if f.Unparsable? || g.Unparsable? then Lists(MockFeedback, MockRatings)
    else Lists(if f.Holds? then f.items else [], if g.Holds? then g.items else [])
  }

  /** Neither key written yet: both lists are empty. */
  lemma LoadEmptyStores(fb: Store<Feedback>, rt: Store<ToiletRating>)
    requires FeedbackPage.Key !in fb && RateToiletPage.Key !in rt
    ensures Load(fb, rt) == Lists([], [])
  {
  }

  /** `.some(imp => imp.toLowerCase().includes(query))`. */
  predicate AnyMatches(tags: seq<string>, query: string) {
    exists i :: 0 <= i < |tags| && Matches(tags[i], query)
  }

  /** A feedback item is listed when its comment is non-empty and matches,
      or one of its improvements matches. */
  predicate FeedbackHit(item: Feedback, query: string) {
    (item.comment != "" && Matches(item.comment, query)) || AnyMatches(item.improvements, query)
  }

  function FeedbackTest(query: string): Feedback -> bool {
    (item: Feedback) => FeedbackHit(item, query)
  }

  /** A rating is listed when its comment is non-empty and matches. */
  predicate RatingHit(item: ToiletRating, query: string) {
    item.comment != "" && Matches(item.comment, query)
  }

  function RatingTest(query: string): ToiletRating -> bool {
    (item: ToiletRating) => RatingHit(item, query)
  }

  /** `filteredFeedback`. */
  function FilterFeedback(items: seq<Feedback>, query: string): (r: seq<Feedback>)
    ensures forall f :: f in r <==> f in items && FeedbackHit(f, query)
    ensures IsSubsequence(r, items)
    ensures forall f :: Occurrences(r, f) == if FeedbackHit(f, query) then Occurrences(items, f) else 0
  {
    FilterCountsAll(items, FeedbackTest(query));
    Filter(items, FeedbackTest(query))
  }

  /** `filteredRatings`. */
  function FilterRatings(items: seq<ToiletRating>, query: string): (r: seq<ToiletRating>)
    ensures forall g :: g in r <==> g in items && RatingHit(g, query)
    ensures IsSubsequence(r, items)
    ensures forall g :: Occurrences(r, g) == if RatingHit(g, query) then Occurrences(items, g) else 0
  {
    FilterCountsAll(items, RatingTest(query));
    Filter(items, RatingTest(query))
  }

  /** With an empty search box, exactly the feedback with a comment or with
      at least one improvement is listed: an item with neither never is. */
  lemma EmptyQueryFeedback(items: seq<Feedback>)
    ensures forall f :: f in FilterFeedback(items, "") <==>
                        f in items && (f.comment != "" || f.improvements != [])
  {
    forall f: Feedback
      ensures FeedbackHit(f, "") <==> (f.comment != "" || f.improvements != [])
    {
      EmptyQueryMatches(f.comment);
      if f.improvements != [] {
        EmptyQueryMatches(f.improvements[0]);
      }
    }
  }

  /** A rating without a comment is never listed, whatever the query. */
  lemma UncommentedRatingHidden(items: seq<ToiletRating>, query: string, g: ToiletRating)
    requires g.comment == ""
    ensures g !in FilterRatings(items, query)
  {
  }

  /** With an empty search box, exactly the ratings with a comment are listed. */
  lemma EmptyQueryRatings(items: seq<ToiletRating>)
    ensures forall g :: g in FilterRatings(items, "") <==> g in items && g.comment != ""
  {
    EmptyQueryMatchesAll();
  }

  /** The label of a feedback card: the stored satisfaction text is compared
      with "satisfied". */
  function SatisfactionLabel(item: Feedback): (shown: string)
    ensures shown == "Satisfied" <==> item.satisfaction == FeedbackPage.Satisfied
    ensures shown == "Unsatisfied" <==> item.satisfaction == FeedbackPage.Unsatisfied
  {
    if FeedbackPage.SatisfactionName(item.satisfaction) == "satisfied" then "Satisfied" else "Unsatisfied"
  }

  /** The second sample record lists an improvement the feedback form has no
      checkbox for, so it could not have been submitted through the form. */
  lemma MockFeedbackNotFromForm()
    ensures MockFeedback[1].improvements[0] !in FeedbackPage.ImprovementOptions
  {
  }

  /** A rating badge: exact, case-sensitive comparisons with the group's best
      and middle values; anything else, the worst value included, is red. */
  function RatingTone(rating: string, best: string, middle: string): (t: Tone)
    requires best != middle
    ensures t == Green <==> rating == best
    ensures t == Yellow <==> rating == middle
    ensures t == Red <==> rating != best && rating != middle
  {
    if rating == best then Green else if rating == middle then Yellow else Red
  }

  /** The cleanliness badge. */
  function CleanlinessTone(rating: string): Tone {
    RatingTone(rating, "good", "average")
  }

  /** The maintenance badge. */
  function MaintenanceTone(rating: string): Tone {
    RatingTone(rating, "well-maintained", "functional")
  }

  /** The three values the rating form offers get three different colours,
      in order red, yellow, green; a rating submitted with nothing picked is red. */
  lemma RatingOptionsColoured()
    ensures CleanlinessTone(RateToiletPage.CleanlinessOptions[0]) == Red
    ensures CleanlinessTone(RateToiletPage.CleanlinessOptions[1]) == Yellow
    ensures CleanlinessTone(RateToiletPage.CleanlinessOptions[2]) == Green
    ensures MaintenanceTone(RateToiletPage.MaintenanceOptions[0]) == Red
    ensures MaintenanceTone(RateToiletPage.MaintenanceOptions[1]) == Yellow
    ensures MaintenanceTone(RateToiletPage.MaintenanceOptions[2]) == Green
    ensures CleanlinessTone("") == Red && MaintenanceTone("") == Red
  {
  }

  /** Feedback submitted on the feedback page is the last item the viewer
      loads, after everything stored before it. */
  lemma SubmittedFeedbackIsLoaded(f: FeedbackPage.Form, fb: Store<Feedback>, rt: Store<ToiletRating>, now: nat, date: string)
    requires f.satisfaction.Some?
    requires !Lookup(fb, FeedbackPage.Key).Unparsable? && !Lookup(rt, RateToiletPage.Key).Unparsable?
    ensures FeedbackPage.Submit(f, fb, now, date).Success?
    ensures Load(FeedbackPage.Submit(f, fb, now, date).value.store, rt).feedback ==
            Load(fb, rt).feedback + [FeedbackPage.Feedback(Decimal(now), f.satisfaction.value, f.improvements, f.comment, date)]
  {
    FeedbackPage.SubmitAppendsRecord(f, fb, now, date);
  }

  /** A rating submitted on the rating page is the last rating the viewer
      loads, after everything stored before it. */
  lemma SubmittedRatingIsLoaded(f: RateToiletPage.Form, fb: Store<Feedback>, rt: Store<ToiletRating>, now: nat, date: string)
    requires !Lookup(fb, FeedbackPage.Key).Unparsable? && !Lookup(rt, RateToiletPage.Key).Unparsable?
    ensures RateToiletPage.Submit(f, rt, now, date).Success?
    ensures Load(fb, RateToiletPage.Submit(f, rt, now, date).value.store).ratings ==
            Load(fb, rt).ratings + [RateToiletPage.ToiletRating(Decimal(now), f.cleanlinessRating, f.maintenanceRating, f.comment, date)]
  {
    RateToiletPage.SubmitAppendsRating(f, rt, now, date);
  }

  /** One unparsable rating slot hides every stored feedback item too. */
  lemma BadRatingsHideFeedback(fb: Store<Feedback>, rt: Store<ToiletRating>)
    requires Lookup(rt, RateToiletPage.Key).Unparsable?
    ensures Load(fb, rt).feedback == MockFeedback
  {
  }
}
