/** The two string operations the catalog search relies on: Python's `str.lower()`
    and the substring test `needle in hay`. */
module Text {

  /** `str.lower()` on one character, for the ASCII range: 'A'..'Z' become 'a'..'z'
      and every other character is left as it is. */
  function LowerChar(c: char): char
  {
    if 'A' <= c <= 'Z' then (c as int + ('a' as int - 'A' as int)) as char else c
  }

  /** `s.lower()`, character by character. */
  function Lower(s: string): string
  {
    seq(|s|, i requires 0 <= i < |s| => LowerChar(s[i]))
  }

  /** Lower-casing twice is lower-casing once, so a keyword that is already lower case
      is not changed by the search's own `keyword.lower()`. */
  lemma LowerIdempotent(s: string)
    ensures Lower(Lower(s)) == Lower(s)
  {
  }

  /** `needle` occurs in `hay` starting at position `i`. */
  predicate OccursAt(hay: string, needle: string, i: int)
  {
    0 <= i && i + |needle| <= |hay| && hay[i..i + |needle|] == needle
  }

  /** `needle in hay` for Python strings: a prefix test at every starting position. */
  predicate Contains(hay: string, needle: string)
    decreases |hay|
  {
    (|needle| <= |hay| && hay[..|needle|] == needle) || (hay != [] && Contains(hay[1..], needle))
  }

  /** `Contains` holds exactly when the needle occurs at some position of the haystack. */
  lemma {:induction false} ContainsIffOccurs(hay: string, needle: string)
    ensures Contains(hay, needle) <==> exists i :: OccursAt(hay, needle, i)
  {
    if |needle| <= |hay| && hay[..|needle|] == needle {
      assert OccursAt(hay, needle, 0);
    } else if hay == [] {
      if i :| OccursAt(hay, needle, i) {
        assert false;
      }
    } else {
      ContainsIffOccurs(hay[1..], needle);
      if i :| OccursAt(hay, needle, i) {
        assert i > 0;
        assert hay[1..][i - 1..i - 1 + |needle|] == hay[i..i + |needle|];
        assert OccursAt(hay[1..], needle, i - 1);
      }
      if j :| OccursAt(hay[1..], needle, j) {
        assert hay[1..][j..j + |needle|] == hay[j + 1..j + 1 + |needle|];
        assert OccursAt(hay, needle, j + 1);
      }
    }
  }

  /** The empty string is in every string, as `'' in s` is in Python. */
  lemma ContainsEmpty(hay: string)
    ensures Contains(hay, "")
  {
  }
}
