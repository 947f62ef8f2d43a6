/**
 * Small shared vocabulary: an Option type for Python's `None`, the character
 * classes the pipeline's regular expressions and `str.strip()` rely on, and
 * trimming a string at both ends.
 */
module Common {

  datatype Option<+T> = None | Some(value: T) {
    function GetOr(default: T): T {
      match this
      case Some(v) => v
      case None => default
    }
  }

  /** A character in Python's `\w` class, restricted to ASCII. */
  predicate IsWordChar(c: char) {
    ('a' <= c <= 'z') || ('A' <= c <= 'Z') || ('0' <= c <= '9') || c == '_'
  }

  /** A character for which Python's `str.isspace()` holds: the characters `str.strip()` removes. */
  predicate IsPySpace(c: char) {
    c == '\t' || c == '\n' || c == '\U{000B}' || c == '\U{000C}' || c == '\r'
    || ('\U{001C}' <= c <= '\U{001F}') || c == ' ' || c == '\U{0085}' || c == '\U{00A0}'
    || c == '\U{1680}' || ('\U{2000}' <= c <= '\U{200A}') || c == '\U{2028}' || c == '\U{2029}'
    || c == '\U{202F}' || c == '\U{205F}' || c == '\U{3000}'
  }

  /** Drops the leading characters satisfying `p`. */
  function TrimStart(s: string, p: char -> bool): (r: string)
    ensures |r| <= |s| && r == s[|s| - |r|..]
    ensures forall i :: 0 <= i < |s| - |r| ==> p(s[i])
    ensures r != [] ==> !p(r[0])
  {
    if s != [] && p(s[0]) then TrimStart(s[1..], p) else s
  }

  /** Drops the trailing characters satisfying `p`. */
  function TrimEnd(s: string, p: char -> bool): (r: string)
    ensures |r| <= |s| && r == s[..|r|]
    ensures forall i :: |r| <= i < |s| ==> p(s[i])
    ensures r != [] ==> !p(r[|r| - 1])
  {
    if s != [] && p(s[|s| - 1]) then TrimEnd(s[..|s| - 1], p) else s
  }

  /** Python's `s.strip(chars)` for the characters satisfying `p`. */
  function Strip(s: string, p: char -> bool): (r: string)
    ensures |r| <= |s|
    ensures r != [] ==> !p(r[0]) && !p(r[|r| - 1])
    ensures forall c :: c in r ==> c in s
  {
    TrimEnd(TrimStart(s, p), p)
  }

  /** Python's `str.strip()` with no argument. */
  function StripSpaces(s: string): (r: string)
    ensures r != [] ==> !IsPySpace(r[0]) && !IsPySpace(r[|r| - 1])
  {
    Strip(s, IsPySpace)
  }

  /** Strip returns a contiguous slice `s[k..k + |r|]` of its input, and what
      it dropped at either end satisfies `p`. */
  lemma StripIsSlice(s: string, p: char -> bool) returns (k: nat)
    ensures k + |Strip(s, p)| <= |s|
    ensures Strip(s, p) == s[k..k + |Strip(s, p)|]
    ensures forall i :: 0 <= i < k ==> p(s[i])
    ensures forall i :: k + |Strip(s, p)| <= i < |s| ==> p(s[i])
  {
    var a := TrimStart(s, p);
    k := |s| - |a|;
    var b := TrimEnd(a, p);
    assert b == a[..|b|];
    assert forall i :: k + |b| <= i < |s| ==> s[i] == a[i - k];
  }

  lemma StripNoop(s: string, p: char -> bool)
    requires s != [] ==> !p(s[0]) && !p(s[|s| - 1])
    ensures Strip(s, p) == s
  {
  }

  /** Appending in two steps is appending once; called where a loop's log
      grows, so that the method's context need not reason about `+`. */
  lemma AppendAssoc<T>(a: seq<T>, b: seq<T>, c: seq<T>)
    ensures a + b + c == a + (b + c)
  {
  }
}
