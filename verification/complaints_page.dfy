/** The public complaints page (ComplaintsPage): a fixed list of complaints,
    a search box over title and area, and one tab per status. */
module ComplaintsPage {
  import opened Text
  import opened Seqs
  import opened Badges
  import ComplaintManagement

  /** A complaint as this page lists it. */
  datatype Complaint = Complaint(id: int, title: string, status: string, date: string, area: string)

  /** The complaints the page shows. */
  const AllComplaints: seq<Complaint> := [
    Complaint(1, "Broken Street Light", "In Progress", "2023-05-15", "Sector 32"),
    Complaint(2, "Garbage Collection Issue", "Resolved", "2023-05-10", "Sector 45"),
    Complaint(3, "Water Leakage", "Pending", "2023-05-18", "Sector 21"),
    Complaint(4, "Road Pothole", "In Progress", "2023-05-20", "Sector 17"),
    Complaint(5, "Public Toilet Maintenance", "Resolved", "2023-05-12", "Sector 29")]

  /** The statuses that have a tab, in tab order. */
  const Pending := "Pending"
  const InProgress := "In Progress"
  const Resolved := "Resolved"

  /** The search box looks at the title and the area, never at the status. */
  predicate SearchHit(c: Complaint, query: string) {
    Matches(c.title, query) || Matches(c.area, query)
  }

  function Hit(query: string): Complaint -> bool {
    (c: Complaint) => SearchHit(c, query)
  }

  /** `filteredComplaints`. */
  function Search(cs: seq<Complaint>, query: string): (r: seq<Complaint>)
    ensures forall c :: c in r <==> c in cs && (Matches(c.title, query) || Matches(c.area, query))
    ensures IsSubsequence(r, cs)
    ensures query == "" ==> r == cs
    ensures forall c :: Occurrences(r, c) == if Matches(c.title, query) || Matches(c.area, query) then Occurrences(cs, c) else 0
  {
    EmptyQueryMatchesAll();
    FilterCountsAll(cs, Hit(query));
    Filter(cs, Hit(query))
  }

  /** Two complaints that differ only in status are both kept or both dropped. */
  lemma SearchIgnoresStatus(cs: seq<Complaint>, query: string, c: Complaint, status: string)
    requires c in cs && c.(status := status) in cs
    ensures c in Search(cs, query) <==> c.(status := status) in Search(cs, query)
  {
  }

  /** The test `c => c.status === status`. */
  function StatusIs(status: string): Complaint -> bool {
    (c: Complaint) => c.status == status
  }

  /** One status tab: the search result restricted, by exact and
      case-sensitive comparison, to one status. */
  function Tab(found: seq<Complaint>, status: string): (r: seq<Complaint>)
    ensures forall c :: c in r <==> c in found && c.status == status
    ensures IsSubsequence(r, found)
    ensures forall c :: Occurrences(r, c) == if c.status == status then Occurrences(found, c) else 0
  {
    FilterCountsAll(found, StatusIs(status));
    Filter(found, StatusIs(status))
  }

  /** No complaint appears under two tabs. */
  lemma TabsDisjoint(found: seq<Complaint>)
    ensures forall c :: c in Tab(found, Pending) ==> c !in Tab(found, InProgress) && c !in Tab(found, Resolved)
    ensures forall c :: c in Tab(found, InProgress) ==> c !in Tab(found, Resolved)
  {
  }

  /** The tabs together hold at most the search result, and exactly as many
      complaints when every status is one of the three. */
  lemma TabSizes(found: seq<Complaint>)
    ensures |Tab(found, Pending)| + |Tab(found, InProgress)| + |Tab(found, Resolved)| <= |found|
    ensures (forall i :: 0 <= i < |found| ==> found[i].status in [Pending, InProgress, Resolved]) ==>
              |Tab(found, Pending)| + |Tab(found, InProgress)| + |Tab(found, Resolved)| == |found|
  {
    var p, q, r := StatusIs(Pending), StatusIs(InProgress), StatusIs(Resolved);
    FilterSizes3(found, p, q, r);
    if forall i :: 0 <= i < |found| ==> found[i].status in [Pending, InProgress, Resolved] {
      forall i | 0 <= i < |found|
        ensures p(found[i]) || q(found[i]) || r(found[i])
      {
        assert found[i].status in [Pending, InProgress, Resolved];
      }
    }
  }

  /** A tab of a search is an order-preserving selection of all complaints. */
  lemma TabOfSearchInOrder(cs: seq<Complaint>, query: string, status: string)
    ensures IsSubsequence(Tab(Search(cs, query), status), cs)
  {
    SubsequenceTransitive(Tab(Search(cs, query), status), Search(cs, query), cs);
  }

  /** The statuses the tabs cover. */
  predicate Tabbed(c: Complaint) {
    c.status == Pending || c.status == InProgress || c.status == Resolved
  }

  /** When every complaint has one of the three statuses, the tabs split any
      search result. */
  lemma TabsSplitSearch(cs: seq<Complaint>, query: string)
    requires forall c :: c in cs ==> Tabbed(c)
    ensures var found := Search(cs, query);
            |Tab(found, Pending)| + |Tab(found, InProgress)| + |Tab(found, Resolved)| == |found|
  {
    var found := Search(cs, query);
    forall i | 0 <= i < |found|
      ensures found[i].status in [Pending, InProgress, Resolved]
    {
      assert found[i] in cs;
    }
    TabSizes(found);
  }

  /** Every complaint the page lists has one of the three tab statuses. */
  lemma FixedListIsTabbed()
    ensures forall c :: c in AllComplaints ==> Tabbed(c)
  {
    forall c | c in AllComplaints
      ensures Tabbed(c)
    {
      var i :| 0 <= i < |AllComplaints| && AllComplaints[i] == c;
      assert i in {0, 1, 2, 3, 4};
    }
  }

  /** The badge: exact comparisons, unlike the admin table's. */
  function StatusBadge(status: string): (t: Tone)
    ensures t == Green <==> status == Resolved
    ensures t == Blue <==> status == InProgress
    ensures t == Yellow <==> status != Resolved && status != InProgress
  {
    if status == Resolved then Green else if status == InProgress then Blue else Yellow
  }

  /** The two badges agree on the three statuses as they are spelled, and
      disagree once the letter case differs. */
  lemma BadgesCompared()
    ensures forall s :: s in [Pending, InProgress, Resolved] ==> StatusBadge(s) == ComplaintManagement.StatusBadge(s)
    ensures StatusBadge("resolved") == Yellow && ComplaintManagement.StatusBadge("resolved") == Green
  {
    assert Lower(Resolved) == "resolved";
    assert Lower(InProgress) == "in progress";
    assert Lower(Pending) == "pending";
    assert Lower("resolved") == "resolved";
  }
}
