/** The string operations the search box uses: `toLowerCase` and `includes`. */
module Text {

  function LowerChar(c: char): char
  {
    if 'A' <= c <= 'Z' then (c as int + 32) as char else c
  }

  /** `toLowerCase`, on the ASCII letters: every character is kept, except that an upper-case
      letter becomes its lower-case form, so no upper-case letter is left. */
  function Lower(s: string): (r: string)
    ensures |r| == |s|
    ensures forall i :: 0 <= i < |s| ==>
              r[i] == s[i] || ('A' <= s[i] <= 'Z' && r[i] as int == s[i] as int + 32)
    ensures forall i :: 0 <= i < |r| ==> !('A' <= r[i] <= 'Z')
  {
    seq(|s|, i requires 0 <= i < |s| => LowerChar(s[i]))
  }

  /** `q` occurs in `s` starting at index `i`. */
  ghost predicate OccursAt(q: string, s: string, i: int)
  {
    0 <= i && i + |q| <= |s| && s[i..i + |q|] == q
  }

  /** Occurrences in `s[1..]` are the occurrences in `s` after index 0, shifted by one. */
  lemma OccursShift(q: string, s: string)
    requires s != []
    ensures OccursAt(q, s, 0) <==> |q| <= |s| && s[..|q|] == q
    ensures forall i :: OccursAt(q, s[1..], i) ==> OccursAt(q, s, i + 1)
    ensures forall i :: 0 < i && OccursAt(q, s, i) ==> OccursAt(q, s[1..], i - 1)
  {
    forall i | OccursAt(q, s[1..], i) ensures OccursAt(q, s, i + 1) {
      assert s[1..][i..i + |q|] == s[i + 1..i + 1 + |q|];
    }
    forall i | 0 < i && OccursAt(q, s, i) ensures OccursAt(q, s[1..], i - 1) {
      assert s[1..][i - 1..i - 1 + |q|] == s[i..i + |q|];
    }
  }

  /** `s.includes(q)`: true exactly when `q` occurs in `s` at some index. */
  function Includes(s: string, q: string): (r: bool)
    ensures r <==> exists i :: OccursAt(q, s, i)
    decreases |s|
  {
    if |q| > |s| then false
    else if s[..|q|] == q then assert OccursAt(q, s, 0); true
    else OccursShift(q, s); Includes(s[1..], q)
  }

  /** The empty string is included in every string, as with `includes("")`. */
  lemma EmptyIncluded(s: string)
    ensures Includes(s, "")
  {
    assert OccursAt("", s, 0);
  }
}
