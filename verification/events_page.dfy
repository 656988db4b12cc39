/** The public events page (EventsPage): community events read once from the
    "communityEvents" key, a search box over title, location and organizer,
    category tabs, and the registration dialog for a chosen event. */
module EventsPage {
  import opened Wrappers
  import opened Text
  import opened Seqs
  import opened Storage
  import EventRegistrationModal

  /** A stored community event. */
  datatype CommunityEvent = CommunityEvent(
    id: string, title: string, date: string, time: string, location: string,
    organizer: string, description: string, category: string)

  /** The storage key of the event list. */
  const Key := "communityEvents"

  /** The categories the page lists separately. */
  const Cleanup := "cleanup"
  const Education := "education"
  const Plantation := "plantation"

  /** The loading effect: a missing slot leaves the list empty; text that does
      not parse throws out of the effect, which nothing catches. */
  function Load(st: Store<CommunityEvent>): (r: Result<seq<CommunityEvent>, StorageError>)
    ensures Lookup(st, Key).Missing? ==> r == Success([])
    ensures Lookup(st, Key).Holds? ==> r == Success(Lookup(st, Key).items)
    ensures r.Failure? <==> Lookup(st, Key).Unparsable?
  {
    ReadList(st, Key)
  }

  predicate SearchHit(e: CommunityEvent, query: string) {
    Matches(e.title, query) || Matches(e.location, query) || Matches(e.organizer, query)
  }

  function Hit(query: string): CommunityEvent -> bool {
    (e: CommunityEvent) => SearchHit(e, query)
  }

  /** `filteredEvents`. */
  function Search(es: seq<CommunityEvent>, query: string): (r: seq<CommunityEvent>)
    ensures forall e :: e in r <==> e in es && (Matches(e.title, query) || Matches(e.location, query) || Matches(e.organizer, query))
    ensures IsSubsequence(r, es)
    ensures query == "" ==> r == es
    ensures forall e :: Occurrences(r, e) ==
              if Matches(e.title, query) || Matches(e.location, query) || Matches(e.organizer, query)
              then Occurrences(es, e) else 0
  {
    EmptyQueryMatchesAll();
    FilterCountsAll(es, Hit(query));
    Filter(es, Hit(query))
  }

  /** Queries that differ only in letter case find the same events. */
  lemma SearchIgnoresCase(es: seq<CommunityEvent>, q1: string, q2: string)
    requires Lower(q1) == Lower(q2)
    ensures Search(es, q1) == Search(es, q2)
  {
    forall e: CommunityEvent
      ensures SearchHit(e, q1) == SearchHit(e, q2)
    {
      MatchIgnoresQueryCase(e.title, q1, q2);
      MatchIgnoresQueryCase(e.location, q1, q2);
      MatchIgnoresQueryCase(e.organizer, q1, q2);
    }
    FilterCongruent(es, Hit(q1), Hit(q2));
  }

  function CategoryIs(category: string): CommunityEvent -> bool {
    (e: CommunityEvent) => e.category == category
  }

  /** One category list: the search result restricted, by exact comparison,
      to one category. */
  function InCategory(found: seq<CommunityEvent>, category: string): (r: seq<CommunityEvent>)
    ensures forall e :: e in r <==> e in found && e.category == category
    ensures IsSubsequence(r, found)
    ensures forall e :: Occurrences(r, e) == if e.category == category then Occurrences(found, e) else 0
  {
    FilterCountsAll(found, CategoryIs(category));
    Filter(found, CategoryIs(category))
  }

  /** The three category lists never share an event, and together hold at
      most the search result. */
  lemma CategoriesDisjoint(found: seq<CommunityEvent>)
    ensures forall e :: e in InCategory(found, Cleanup) ==>
              e !in InCategory(found, Education) && e !in InCategory(found, Plantation)
    ensures forall e :: e in InCategory(found, Education) ==> e !in InCategory(found, Plantation)
    ensures |InCategory(found, Cleanup)| + |InCategory(found, Education)| + |InCategory(found, Plantation)| <= |found|
  {
    FilterSizes3(found, CategoryIs(Cleanup), CategoryIs(Education), CategoryIs(Plantation));
  }

  /** A category list of a search is an order-preserving selection of all events. */
  lemma CategoryOfSearchInOrder(es: seq<CommunityEvent>, query: string, category: string)
    ensures IsSubsequence(InCategory(Search(es, query), category), es)
  {
    SubsequenceTransitive(InCategory(Search(es, query), category), Search(es, query), es);
  }

  /** Before anything is stored, every list on the page is empty. */
  lemma NothingStoredNothingListed(st: Store<CommunityEvent>, query: string, category: string)
    requires Key !in st
    ensures Load(st).Success? && Search(Load(st).value, query) == []
    ensures InCategory(Search(Load(st).value, query), category) == []
  {
  }

  /** Which event the registration dialog is for, and whether it is shown. */
  datatype Selection = Selection(selectedEvent: Option<string>, showRegistration: bool)

  const NoSelection := Selection(None, false)

  /** `handleRegisterClick`. */
  function RegisterClick(s: Selection, eventTitle: string): (r: Selection)
    ensures r.showRegistration && r.selectedEvent == Some(eventTitle)
  {
    Selection(Some(eventTitle), true)
  }

  /** `handleCloseModal`, which the dialog calls after a submit as well. */
  function CloseModal(s: Selection): (r: Selection)
    ensures !r.showRegistration && r.selectedEvent.None?
  {
    NoSelection
  }

  /** The dialog is mounted only when it is shown and the title is non-empty. */
  predicate ModalMounted(s: Selection) {
    s.showRegistration && s.selectedEvent.Some? && s.selectedEvent.value != ""
  }

  /** Registering through the dialog opened from an event's button stores
      the title of that event, and closing afterwards unmounts the dialog. */
  lemma RegistrationCarriesClickedTitle(
    s: Selection, e: CommunityEvent, form: EventRegistrationModal.Form,
    st: Store<EventRegistrationModal.Registration>, date: string)
    requires e.title != ""
    requires EventRegistrationModal.Valid(form) && !Lookup(st, EventRegistrationModal.Key).Unparsable?
    ensures var shown := RegisterClick(s, e.title);
            ModalMounted(shown) &&
            var out := EventRegistrationModal.Submit(
                         EventRegistrationModal.Modal(true, form), shown.selectedEvent.value, st, date);
            out.Success? &&
            var items := Lookup(out.value.store, EventRegistrationModal.Key).items;
            items[|items| - 1].eventTitle == e.title &&
            !ModalMounted(CloseModal(shown))
  {
    EventRegistrationModal.SubmitAppendsRegistration(
      EventRegistrationModal.Modal(true, form), e.title, st, date);
  }
}
