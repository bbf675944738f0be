/** The two string operations the search uses: lower-casing and substring search. */
module Text {

  predicate IsUpper(c: char) {
    'A' <= c <= 'Z'
  }

  /** `toLowerCase` on one character, restricted to ASCII letters. */
  function LowerChar(c: char): (r: char)
    ensures !IsUpper(r)
    ensures !IsUpper(c) ==> r == c
    ensures IsUpper(c) ==> r as int == c as int - 'A' as int + 'a' as int
  {
    if IsUpper(c) then (c as int - 'A' as int + 'a' as int) as char else c
  }

  /** `String.prototype.toLowerCase`, character by character. */
  function Lower(s: string): (r: string)
    ensures |r| == |s|
    ensures forall i :: 0 <= i < |r| ==> !IsUpper(r[i])
    ensures forall i :: 0 <= i < |s| && !IsUpper(s[i]) ==> r[i] == s[i]
    ensures forall i :: 0 <= i < |s| && IsUpper(s[i]) ==> r[i] as int == s[i] as int - 'A' as int + 'a' as int
  {
    seq(|s|, i requires 0 <= i < |s| => LowerChar(s[i]))
  }

  /** Lower-casing twice is lower-casing once. */
  lemma LowerIdempotent(s: string)
    ensures Lower(Lower(s)) == s ==> Lower(s) == s
    ensures Lower(Lower(s)) == Lower(s)
  {
    var r := Lower(s);
    assert forall i :: 0 <= i < |r| ==> Lower(r)[i] == r[i];
  }

  predicate StartsWith(s: string, prefix: string) {
    |prefix| <= |s| && s[..|prefix|] == prefix
  }

  /** `String.prototype.includes`: scan left to right for a position where `needle` starts. */
  predicate Includes(s: string, needle: string)
    ensures Includes(s, needle) ==> |needle| <= |s|
    ensures needle == [] ==> Includes(s, needle)
    decreases |s|
  {
    StartsWith(s, needle) || (|s| > 0 && Includes(s[1..], needle))
  }

  /** Reference definition: `needle` occurs in `s` starting at index `i`. */
  predicate OccursAt(s: string, needle: string, i: int) {
    0 <= i && i + |needle| <= |s| && s[i..i + |needle|] == needle
  }

  /** The scan finds the needle exactly when it occurs somewhere. */
  lemma {:induction false} IncludesIffOccurs(s: string, needle: string)
    ensures Includes(s, needle) <==> exists i :: OccursAt(s, needle, i)
    decreases |s|
  {
    if StartsWith(s, needle) {
      assert s[0..|needle|] == s[..|needle|];
      assert OccursAt(s, needle, 0);
    } else {
      forall i | OccursAt(s, needle, i)
        ensures 0 < i && OccursAt(s[1..], needle, i - 1)
      {
        assert s[..|needle|] == s[0..|needle|];
        assert s[1..][i - 1..i - 1 + |needle|] == s[i..i + |needle|];
      }
      if |s| > 0 {
        IncludesIffOccurs(s[1..], needle);
        forall i | OccursAt(s[1..], needle, i)
          ensures OccursAt(s, needle, i + 1)
        {
          assert s[1..][i..i + |needle|] == s[i + 1..i + 1 + |needle|];
        }
      }
    }
  }

  /** The empty search text is found in every string. */
  lemma EmptyIncludedEverywhere(s: string)
    ensures Includes(s, "")
  {
    assert StartsWith(s, "");
  }
}
