/** A list of checked options behind a group of checkboxes: the permission
    boxes of the administrator dialog and the improvement boxes of the
    feedback form share this logic. */
module Checklist {
  import opened Seqs

  /** The test `item => item !== x`. */
  function Other(x: string): string -> bool {
    y => y != x
  }

  /** One checkbox change: checking appends the option at the end;
      unchecking keeps every other option, in order, and drops every copy of it. */
  function Toggle(list: seq<string>, x: string, checked: bool): (r: seq<string>)
    ensures checked ==> r == list + [x]
    ensures !checked ==> x !in r && IsSubsequence(r, list)
    ensures !checked ==> forall y :: y in r <==> y in list && y != x
    ensures !checked ==> forall y :: y != x ==> multiset(r)[y] == multiset(list)[y]
    ensures !checked ==> (x !in list <==> r == list)
  {
    if checked then list + [x]
    else
      forall y | y != x
        ensures multiset(Filter(list, Other(x)))[y] == multiset(list)[y]
      {
        FilterCounts(list, Other(x), y);
      }
      Filter(list, Other(x))
  }

  /** A click on the box of `x`: the box shows `list.includes(x)`, and a click
      reports the opposite state. */
  function Click(list: seq<string>, x: string): (r: seq<string>)
    ensures x in list ==> x !in r && IsSubsequence(r, list)
    ensures x in list ==> forall y :: y != x ==> multiset(r)[y] == multiset(list)[y]
    ensures x !in list ==> r == list + [x]
  {
    Toggle(list, x, x !in list)
  }

  /** Unchecking an option that was just checked restores the list. */
  lemma UncheckUndoesCheck(list: seq<string>, x: string)
    requires x !in list
    ensures Toggle(Toggle(list, x, true), x, false) == list
  {
    FilterAppend(list, [x], Other(x));
  }

  /** Two clicks on an unchecked box leave the list as it was. */
  lemma ClickTwiceRestores(list: seq<string>, x: string)
    requires x !in list
    ensures Click(Click(list, x), x) == list
  {
    UncheckUndoesCheck(list, x);
  }
}
