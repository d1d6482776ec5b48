/** ASCII case folding and substring search, enough to decide whether a
    container format name names the Matroska family. */
module Ascii {

  /** The ASCII lower-case form of `c`; every other character is unchanged. */
  function LowerChar(c: char): char {
    if 'A' <= c <= 'Z' then (c as int - 'A' as int + 'a' as int) as char else c
  }

  /** `s` with every ASCII capital replaced by its lower-case letter. */
  function Lower(s: string): (r: string)
    ensures |r| == |s|
    ensures forall i :: 0 <= i < |s| ==> r[i] == LowerChar(s[i])
    decreases |s|
  {
    if |s| == 0 then "" else [LowerChar(s[0])] + Lower(s[1..])
  }

  /** Text without ASCII capitals is its own lower-case form. */
  lemma LowerKeepsLowerCase(s: string)
    requires forall i :: 0 <= i < |s| ==> !('A' <= s[i] <= 'Z')
    ensures Lower(s) == s
  {
  }

  /** `pat` occurs in `s` starting at position `i`. */
  predicate OccursAt(s: string, pat: string, i: int) {
    0 <= i && i + |pat| <= |s| && s[i..i + |pat|] == pat
  }

  /** Python's `pat in s` on strings. */
  function Contains(s: string, pat: string): (b: bool)
    ensures b <==> exists i :: OccursAt(s, pat, i)
    decreases |s|
  {
    if |s| < |pat| then false
    else if s[..|pat|] == pat then assert OccursAt(s, pat, 0); true
    else
      OccurrenceShift(s, pat);
      Contains(s[1..], pat)
  }

  /** When `pat` is not a prefix of `s`, its occurrences in `s` are exactly
      those in `s[1..]`, shifted by one. */
  lemma OccurrenceShift(s: string, pat: string)
    requires |pat| <= |s| && s[..|pat|] != pat
    ensures (exists i :: OccursAt(s, pat, i)) <==> (exists i :: OccursAt(s[1..], pat, i))
  {
    if exists i :: OccursAt(s, pat, i) {
      var i :| OccursAt(s, pat, i);
      assert i != 0;
      assert s[1..][i - 1..i - 1 + |pat|] == s[i..i + |pat|];
      assert OccursAt(s[1..], pat, i - 1);
    }
    if exists j :: OccursAt(s[1..], pat, j) {
      var j :| OccursAt(s[1..], pat, j);
      assert s[j + 1..j + 1 + |pat|] == s[1..][j..j + |pat|];
      assert OccursAt(s, pat, j + 1);
    }
  }

  /** The marker that identifies the Matroska family in a format name. */
  const MatroskaMarker: string := "matroska"

  /** The container qualifies for the secondary metadata source when its
      lower-cased format name contains "matroska". */
  predicate IsMatroska(formatName: string): (qualifies: bool)
    ensures qualifies ==> exists i :: OccursAt(Lower(formatName), MatroskaMarker, i)
    ensures (exists i :: OccursAt(Lower(formatName), MatroskaMarker, i)) ==> qualifies
  {
    Contains(Lower(formatName), MatroskaMarker)
  }

  /** Some eight-character window of `name` spells "matroska" in any mix of cases. */
  predicate MarkerAt(name: string, i: int) {
    0 <= i && i + |MatroskaMarker| <= |name| && Lower(name[i..i + |MatroskaMarker|]) == MatroskaMarker
  }

  /** The test is case-insensitive: it holds exactly when some window of the
      name, case-folded, is the marker. */
  lemma IsMatroskaIgnoresCase(name: string)
    ensures IsMatroska(name) <==> exists i :: MarkerAt(name, i)
  {
    var n := |MatroskaMarker|;
    if IsMatroska(name) {
      var i :| OccursAt(Lower(name), MatroskaMarker, i);
      assert Lower(name[i..i + n]) == Lower(name)[i..i + n];
      assert MarkerAt(name, i);
    }
    if exists i :: MarkerAt(name, i) {
      var i :| MarkerAt(name, i);
      assert Lower(name[i..i + n]) == Lower(name)[i..i + n];
      assert OccursAt(Lower(name), MatroskaMarker, i);
    }
  }
}
