/** The two string operations the list route relies on: lower-casing and
    substring search. Lower-casing is modelled on ASCII letters only. */
module Text {

  /** Lower-cases one character: 'A'..'Z' become 'a'..'z', every other
      character is kept. */
  function LowerChar(c: char): char
  {
    if 'A' <= c <= 'Z' then (c as int - 'A' as int + 'a' as int) as char else c
  }

  /** `toLowerCase`: the same length, each character lower-cased, and no
      upper-case letter left. */
  function ToLower(s: string): (r: string)
    ensures |r| == |s|
    ensures forall i :: 0 <= i < |s| ==> r[i] == LowerChar(s[i])
    ensures forall i :: 0 <= i < |r| ==> !('A' <= r[i] <= 'Z')
  {
    if s == [] then [] else [LowerChar(s[0])] + ToLower(s[1..])
  }

  /** Lower-casing twice is lower-casing once. */
  lemma {:induction false} ToLowerIdempotent(s: string)
    ensures ToLower(ToLower(s)) == ToLower(s)
  {
    if s != [] {
      ToLowerIdempotent(s[1..]);
    }
  }

  /** `term` occurs in `s` starting at position `i`. */
  ghost predicate OccursAt(s: string, term: string, i: int)
  {
    0 <= i && i + |term| <= |s| && s[i..i + |term|] == term
  }

  /** `includes`: `s` starts with `term`, or its tail includes it. The empty
      term is included in every string, and a term longer than `s` in none. */
  function Includes(s: string, term: string): (b: bool)
    ensures term == [] ==> b
    ensures b ==> |term| <= |s|
    decreases |s|
  {
    (|term| <= |s| && s[..|term|] == term) || (s != [] && Includes(s[1..], term))
  }

  /** `Includes` only answers yes when `term` really occurs in `s`. */
  lemma {:induction false} IncludesFindsOccurrence(s: string, term: string)
    requires Includes(s, term)
    ensures exists i :: OccursAt(s, term, i)
    decreases |s|
  {
    if |term| <= |s| && s[..|term|] == term {
      assert OccursAt(s, term, 0);
    } else {
      IncludesFindsOccurrence(s[1..], term);
      var j :| OccursAt(s[1..], term, j);
      assert s[1..][j..j + |term|] == s[j + 1..j + 1 + |term|];
      assert OccursAt(s, term, j + 1);
    }
  }

  /** Every occurrence of `term` in `s` is found by `Includes`. */
  lemma {:induction false} OccurrenceIsIncluded(s: string, term: string, i: int)
    requires OccursAt(s, term, i)
    ensures Includes(s, term)
    decreases |s|
  {
    if i > 0 {
      assert s[1..][i - 1..i - 1 + |term|] == s[i..i + |term|];
      OccurrenceIsIncluded(s[1..], term, i - 1);
    } else {
      assert s[..|term|] == s[i..i + |term|];
    }
  }

  /** `Includes` holds exactly when `term` occurs somewhere in `s`. */
  lemma IncludesIff(s: string, term: string)
    ensures Includes(s, term) <==> exists i :: OccursAt(s, term, i)
  {
    if Includes(s, term) {
      IncludesFindsOccurrence(s, term);
    }
    forall i | OccursAt(s, term, i)
      ensures Includes(s, term)
    {
      OccurrenceIsIncluded(s, term, i);
    }
  }
}
