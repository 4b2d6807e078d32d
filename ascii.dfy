/**
 * The C-locale character and string helpers the command-option layer relies on:
 * `isalpha`, `toupper`, `tolower`, `strcasecmp(a, b) == 0` (ffStrEqualsIgnCase),
 * case-insensitive substring search (ffStrbufContainIgnCaseS) and ffStrbufLowerCase.
 * Only ASCII letters change case; every other character compares as itself.
 */
module Ascii {

  predicate IsAlpha(c: char) {
    'a' <= c <= 'z' || 'A' <= c <= 'Z'
  }

  function ToUpper(c: char): char {
    if 'a' <= c <= 'z' then (c as int - 32) as char else c
  }

  function ToLower(c: char): char {
    if 'A' <= c <= 'Z' then (c as int + 32) as char else c
  }

  /** ffStrbufLowerCase: every character through `tolower`. */
  function LowerCase(s: string): (r: string)
    ensures |r| == |s|
    ensures forall i :: 0 <= i < |s| ==> r[i] == ToLower(s[i])
  {
    if s == [] then [] else [ToLower(s[0])] + LowerCase(s[1..])
  }

  /** `strcasecmp(a, b) == 0`: same length, equal after `tolower` position by position. */
  predicate EqualsIgnoreCase(a: string, b: string) {
    |a| == |b| && forall i :: 0 <= i < |a| ==> ToLower(a[i]) == ToLower(b[i])
  }

  /** ffStrbufContainIgnCaseS: `needle` occurs somewhere in `s`, ignoring case. */
  predicate ContainsIgnoreCase(s: string, needle: string) {
    exists i | 0 <= i <= |s| - |needle| :: MatchesAt(s, needle, i)
  }

  /** `needle` occurs in `s` at index `i`, ignoring case. */
  predicate MatchesAt(s: string, needle: string, i: int) {
    0 <= i && i + |needle| <= |s| && EqualsIgnoreCase(s[i..i + |needle|], needle)
  }

  /** Two characters equal up to case have the same upper-case form. */
  lemma ToLowerEqualToUpperEqual(a: char, b: char)
    requires ToLower(a) == ToLower(b)
    ensures ToUpper(a) == ToUpper(b)
    ensures IsAlpha(a) <==> IsAlpha(b)
  {
  }
}
