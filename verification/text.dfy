/** The string operations the search boxes are built from: ASCII lowering
    (`toLowerCase`), substring search (`includes`) and their combination, a
    case-insensitive "contains"; plus the decimal rendering of a timestamp
    (`Date.now().toString()`) used to make record ids. */
module Text {

  /** `toLowerCase` on one character, restricted to ASCII letters. */
  function LowerChar(c: char): char {
    if 'A' <= c <= 'Z' then (c as int - 'A' as int + 'a' as int) as char else c
  }

  /** `toLowerCase`, character by character. */
  function Lower(s: string): (r: string)
    ensures |r| == |s|
    ensures forall i :: 0 <= i < |s| ==> r[i] == LowerChar(s[i])
  {
    seq(|s|, i requires 0 <= i < |s| => LowerChar(s[i]))
  }

  /** `s.startsWith(p)`. */
  predicate StartsWith(s: string, p: string) {
    |p| <= |s| && s[..|p|] == p
  }

  /** `s.includes(needle)`: some suffix of `s` starts with `needle`. */
  predicate Contains(s: string, needle: string)
    decreases |s|
  {
    StartsWith(s, needle) || (|s| > 0 && Contains(s[1..], needle))
  }

  /** `needle` occurs in `s` at position `i`. */
  predicate OccursAt(s: string, needle: string, i: int) {
    0 <= i && i + |needle| <= |s| && s[i..i + |needle|] == needle
  }

  /** The search-box test: `field.toLowerCase().includes(query.toLowerCase())`. */
  predicate Matches(field: string, query: string) {
    Contains(Lower(field), Lower(query))
  }

  /** `Contains` agrees with the positional definition of a substring. */
  lemma {:induction false} ContainsIffOccurs(s: string, needle: string)
    ensures Contains(s, needle) <==> exists i :: OccursAt(s, needle, i)
    decreases |s|
  {
    if StartsWith(s, needle) {
      assert OccursAt(s, needle, 0);
    } else if |s| == 0 {
    } else {
      ContainsIffOccurs(s[1..], needle);
      if Contains(s[1..], needle) {
        var j :| OccursAt(s[1..], needle, j);
        assert s[1..][j..j + |needle|] == s[j + 1..j + 1 + |needle|];
        assert OccursAt(s, needle, j + 1);
      }
      if i :| OccursAt(s, needle, i) {
        assert i != 0;
        assert s[1..][i - 1..i - 1 + |needle|] == s[i..i + |needle|];
        assert OccursAt(s[1..], needle, i - 1);
      }
    }
  }

  /** Every string contains the empty string, so an empty query matches every field. */
  lemma EmptyQueryMatches(field: string)
    ensures Matches(field, "")
  {
    assert Lower("") == "";
  }

  /** The empty query matches every field. */
  lemma EmptyQueryMatchesAll()
    ensures forall field :: Matches(field, "")
  {
    forall field
      ensures Matches(field, "")
    {
      EmptyQueryMatches(field);
    }
  }

  /** Lowering keeps every occurrence in place. */
  lemma LowerKeepsOccurrence(s: string, needle: string, i: int)
    requires OccursAt(s, needle, i)
    ensures OccursAt(Lower(s), Lower(needle), i)
  {
    assert Lower(s)[i..i + |needle|] == Lower(needle) by {
      forall k | 0 <= k < |needle|
        ensures Lower(s)[i..i + |needle|][k] == Lower(needle)[k]
      {
        assert s[i..i + |needle|][k] == needle[k];
      }
    }
  }

  /** An occurrence of an occurrence is an occurrence. */
  lemma OccursTransitive(s: string, m: string, n: string, i: int, j: int)
    requires OccursAt(s, m, i) && OccursAt(m, n, j)
    ensures OccursAt(s, n, i + j)
  {
    var inner := s[i..i + |m|][j..j + |n|];
    var direct := s[i + j..i + j + |n|];
    assert forall k | 0 <= k < |n| :: inner[k] == direct[k];
    assert inner == direct;
  }

  /** Typing more into a search box only narrows it: a field that matches a
      query also matches every substring of that query. */
  lemma NarrowerQuery(field: string, shorter: string, longer: string)
    requires Contains(longer, shorter)
    requires Matches(field, longer)
    ensures Matches(field, shorter)
  {
    ContainsIffOccurs(longer, shorter);
    ContainsIffOccurs(Lower(field), Lower(longer));
    var j :| OccursAt(longer, shorter, j);
    var i :| OccursAt(Lower(field), Lower(longer), i);
    LowerKeepsOccurrence(longer, shorter, j);
    OccursTransitive(Lower(field), Lower(longer), Lower(shorter), i, j);
    ContainsIffOccurs(Lower(field), Lower(shorter));
  }

  /** `NarrowerQuery` for every field at once. */
  lemma NarrowerQueryAll(shorter: string, longer: string)
    requires Contains(longer, shorter)
    ensures forall field :: Matches(field, longer) ==> Matches(field, shorter)
  {
    forall field | Matches(field, longer)
      ensures Matches(field, shorter)
    {
      NarrowerQuery(field, shorter, longer);
    }
  }

  /** A query that differs from another only in letter case matches the same fields. */
  lemma MatchIgnoresQueryCase(field: string, q1: string, q2: string)
    requires Lower(q1) == Lower(q2)
    ensures Matches(field, q1) == Matches(field, q2)
  {
  }

  /** The character of one decimal digit. */
  function DigitChar(d: nat): char
    requires d < 10
  {
    ('0' as int + d) as char
  }

  /** The value of a decimal digit character. */
  function DigitValue(c: char): nat
    requires '0' <= c <= '9'
  {
    c as int - '0' as int
  }

  predicate IsDigits(s: string) {
    forall i :: 0 <= i < |s| ==> '0' <= s[i] <= '9'
  }

  /** `n.toString()` for a natural number: its decimal digits, most significant first. */
  function Decimal(n: nat): (r: string)
    ensures |r| > 0 && IsDigits(r)
    decreases n
  {
    if n < 10 then [DigitChar(n)] else Decimal(n / 10) + [DigitChar(n % 10)]
  }

  /** The number a string of decimal digits denotes (leading zeros allowed). */
  function DecimalValue(s: string): nat
    requires IsDigits(s)
    decreases |s|
  {
    if |s| == 0 then 0 else DecimalValue(s[..|s| - 1]) * 10 + DigitValue(s[|s| - 1])
  }

  /** Reading back the decimal rendering of a number gives the number. */
  lemma {:induction false} DecimalRoundTrip(n: nat)
    ensures DecimalValue(Decimal(n)) == n
    decreases n
  {
    var s := Decimal(n);
    if n >= 10 {
      DecimalRoundTrip(n / 10);
      assert s[..|s| - 1] == Decimal(n / 10);
    }
  }
}
