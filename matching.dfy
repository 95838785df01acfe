/** The lexer's non-consuming matching primitives (the check_* family).
    Each one looks only at the input that remains after the lexer's cursor,
    so each is a pure function of that remaining input; none can move the cursor. */
module Matching {
  import StringView

  /** Whether c is one of chars, scanning chars from the front. */
  function Contains(chars: seq<char>, c: char): (r: bool)
    ensures r <==> c in chars
  {
    if chars == [] then false
    else chars[0] == c || Contains(chars[1..], c)
  }

  /** lxl_lexer__check_chars: the cursor is not at the end and the current character is one of chars. */
  function CheckChars(rest: seq<char>, chars: seq<char>): (r: bool)
    ensures r <==> rest != [] && rest[0] in chars
    ensures chars == [] ==> !r
  {
    rest != [] && Contains(chars, rest[0])
  }

  /** lxl_lexer__check_string: the remaining input begins with all of s.
      A pattern longer than what remains never matches. */
  function CheckString(rest: seq<char>, s: seq<char>): (r: bool)
    ensures r <==> s <= rest
    ensures |s| > |rest| ==> !r
  {
    |s| <= |rest| && StringView.SamePrefix(rest, s, |s|)
  }

  /** How many characters check_string_n compares and match_string_n consumes:
      n, cut down to what remains of the input. */
  function ClampedLength(rest: seq<char>, n: nat): (k: nat)
    ensures k <= n && k <= |rest|
    ensures k == n || k == |rest|
  {
    if n <= |rest| then n else |rest|
  }

  /** lxl_lexer__check_string_n: the next characters match the first n characters of s.
      When fewer than n characters remain, only the remaining ones are compared. */
  function CheckStringN(rest: seq<char>, s: seq<char>, n: nat): (r: bool)
    requires n <= |s|
    ensures r <==> rest[..ClampedLength(rest, n)] == s[..ClampedLength(rest, n)]
  {
    StringView.SamePrefix(rest, s, ClampedLength(rest, n))
  }

  /** With enough input left, check_string_n(s, n) is check_string on the first n characters of s. */
  lemma CheckStringNIsCheckStringOfPrefix(rest: seq<char>, s: seq<char>, n: nat)
    requires n <= |s| && n <= |rest|
    ensures CheckStringN(rest, s, n) == CheckString(rest, s[..n])
  {
  }

  /** With fewer than n characters left, check_string_n holds exactly when the remaining input
      is itself a prefix of s: the comparison is clamped, not failed. */
  lemma CheckStringNClamped(rest: seq<char>, s: seq<char>, n: nat)
    requires n <= |s| && |rest| < n
    ensures CheckStringN(rest, s, n) <==> rest <= s
  {
  }

  /** The asymmetry between the two string checks: at the end of input, check_string_n(s, |s|)
      holds for every s while check_string(s) fails for every non-empty s. */
  lemma CheckStringNAtEndDiffers(s: seq<char>)
    requires s != []
    ensures CheckStringN([], s, |s|)
    ensures !CheckString([], s)
  {
  }

  /** Checking s followed by t is checking s, then t on the input after s. */
  lemma CheckStringConcat(rest: seq<char>, s: seq<char>, t: seq<char>)
    ensures CheckString(rest, s + t) <==> CheckString(rest, s) && CheckString(rest[|s|..], t)
  {
  }

  /** Checking a one-character set is checking the one-character string. */
  lemma CheckCharsSingle(rest: seq<char>, c: char)
    ensures CheckChars(rest, [c]) == CheckString(rest, [c])
  {
  }
}
