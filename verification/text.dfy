/**
 * Text helpers shared by the log classifier: ASCII lower-casing and
 * substring containment (Python's `needle in haystack`).
 */
module Text {

  /** Lower-cases an ASCII capital letter; every other character is unchanged. */
  function LowerChar(c: char): char {
    if 'A' <= c <= 'Z' then (c as int - 'A' as int + 'a' as int) as char else c
  }

  /** `s.lower()`, restricted to ASCII letters. */
  function ToLower(s: string): string {
    seq(|s|, i requires 0 <= i < |s| => LowerChar(s[i]))
  }

  /** `needle` occurs in `hay` starting at position `i`. */
  predicate OccursAt(needle: string, hay: string, i: int) {
    0 <= i && i + |needle| <= |hay| && hay[i..i + |needle|] == needle
  }

  /** Python's `needle in hay`: `needle` occurs somewhere in `hay`; the empty needle occurs everywhere. */
  predicate Contains(hay: string, needle: string) {
    exists i :: 0 <= i <= |hay| - |needle| && OccursAt(needle, hay, i)
  }

  /** Case-insensitive containment of a lower-case needle: `needle in text.lower()`. */
  predicate ContainsIgnoreCase(text: string, needle: string) {
    Contains(ToLower(text), needle)
  }

  /** Lower-casing commutes with taking a slice. */
  lemma ToLowerSlice(s: string, i: int, j: int)
    requires 0 <= i <= j <= |s|
    ensures ToLower(s)[i..j] == ToLower(s[i..j])
  {
  }

  /**
   * If some slice of `text`, once lower-cased, is the lower-case `needle`,
   * then `text` contains `needle` ignoring case: the letter case of the
   * occurrence in `text` does not matter.
   */
  lemma ContainsAnyCase(text: string, needle: string, i: int)
    requires 0 <= i <= |text| - |needle|
    requires ToLower(text[i..i + |needle|]) == needle
    ensures ContainsIgnoreCase(text, needle)
  {
    ToLowerSlice(text, i, i + |needle|);
    assert OccursAt(needle, ToLower(text), i);
  }
}
