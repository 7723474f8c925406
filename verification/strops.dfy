/** The pieces of Python's `str` used by the handlers: ASCII case mapping,
    `strip()` with Python's whitespace set, and the substring test `key in text`. */
module StrOps {

  predicate IsAsciiUpper(c: char) { 'A' <= c <= 'Z' }

  predicate IsAsciiLower(c: char) { 'a' <= c <= 'z' }

  predicate IsDigit(c: char) { '0' <= c <= '9' }

  /** The characters Python's `str.isspace()` accepts, which `strip()` removes;
      none of them is an ASCII letter or digit. */
  predicate IsSpace(c: char): (b: bool)
    ensures b ==> !IsAsciiUpper(c) && !IsAsciiLower(c) && !IsDigit(c)
  {
    var n := c as int;
    || 0x09 <= n <= 0x0D || 0x1C <= n <= 0x20
    || n == 0x85 || n == 0xA0 || n == 0x1680
    || 0x2000 <= n <= 0x200A || n == 0x2028 || n == 0x2029
    || n == 0x202F || n == 0x205F || n == 0x3000
  }

  function LowerChar(c: char): (d: char)
    ensures !IsAsciiUpper(d)
    ensures !IsAsciiUpper(c) ==> d == c
  {
    if IsAsciiUpper(c) then (c as int + 32) as char else c
  }

  function UpperChar(c: char): (d: char)
    ensures !IsAsciiLower(d)
    ensures !IsAsciiLower(c) ==> d == c
  {
    if IsAsciiLower(c) then (c as int - 32) as char else c
  }

  /** `s.lower()`, restricted to ASCII letters. */
  function Lower(s: string): (r: string)
    ensures |r| == |s|
    ensures forall i :: 0 <= i < |s| ==> r[i] == LowerChar(s[i])
  {
    if s == [] then [] else [LowerChar(s[0])] + Lower(s[1..])
  }

  /** `s.upper()`, restricted to ASCII letters. */
  function Upper(s: string): (r: string)
    ensures |r| == |s|
    ensures forall i :: 0 <= i < |s| ==> r[i] == UpperChar(s[i])
  {
    if s == [] then [] else [UpperChar(s[0])] + Upper(s[1..])
  }

  /** The number of whitespace characters at the start of `s`. */
  function LeadingSpaces(s: string): (n: nat)
    ensures n <= |s|
    ensures forall k :: 0 <= k < n ==> IsSpace(s[k])
    ensures n < |s| ==> !IsSpace(s[n])
  {
    if s != [] && IsSpace(s[0]) then 1 + LeadingSpaces(s[1..]) else 0
  }

  /** The number of whitespace characters at the end of `s`. */
  function TrailingSpaces(s: string): (n: nat)
    ensures n <= |s|
    ensures forall k :: |s| - n <= k < |s| ==> IsSpace(s[k])
    ensures n < |s| ==> !IsSpace(s[|s| - n - 1])
  {
    if s != [] && IsSpace(s[|s| - 1]) then 1 + TrailingSpaces(s[..|s| - 1]) else 0
  }

  /** `s.lstrip()`: drops the leading whitespace, nothing else. */
  function StripStart(s: string): (r: string)
    ensures |r| <= |s| && r == s[|s| - |r|..]
    ensures forall i :: 0 <= i < |s| - |r| ==> IsSpace(s[i])
    ensures r == [] || !IsSpace(r[0])
  {
    s[LeadingSpaces(s)..]
  }

  /** `s.rstrip()`: drops the trailing whitespace, nothing else. */
  function StripEnd(s: string): (r: string)
    ensures |r| <= |s| && r == s[..|r|]
    ensures forall i :: |r| <= i < |s| ==> IsSpace(s[i])
    ensures r == [] || !IsSpace(r[|r| - 1])
  {
    s[..|s| - TrailingSpaces(s)]
  }

  /** `s.strip()`: the slice of `s` left after removing whitespace at both ends. */
  function Strip(s: string): (r: string)
    ensures r == [] || (!IsSpace(r[0]) && !IsSpace(r[|r| - 1]))
  {
    StripEnd(StripStart(s))
  }

  /** `key in text` for strings: `key` occurs as a contiguous substring of `text`. */
  function Occurs(key: string, text: string): (b: bool)
    ensures b ==> |key| <= |text|
  {
    if |text| < |key| then false
    else text[..|key|] == key || Occurs(key, text[1..])
  }

  /** Reference definition of the substring relation. */
  ghost predicate OccursAt(key: string, text: string, i: int) {
    0 <= i && i + |key| <= |text| && text[i..i + |key|] == key
  }

  lemma {:induction false} OccursIff(key: string, text: string)
    ensures Occurs(key, text) <==> exists i :: OccursAt(key, text, i)
  {
    if |text| < |key| {
    } else if text[..|key|] == key {
      assert OccursAt(key, text, 0);
    } else {
      OccursIff(key, text[1..]);
      if Occurs(key, text[1..]) {
        var i :| OccursAt(key, text[1..], i);
        assert text[1..][i..i + |key|] == text[i + 1..i + 1 + |key|];
        assert OccursAt(key, text, i + 1);
      }
      if exists i :: OccursAt(key, text, i) {
        var i :| OccursAt(key, text, i);
        assert i != 0;
        assert text[1..][i - 1..i - 1 + |key|] == text[i..i + |key|];
        assert OccursAt(key, text[1..], i - 1);
      }
    }
  }

  /** The bounds of the slice that `strip()` keeps: only whitespace lies outside it. */
  lemma TrimBounds(s: string) returns (i: nat, j: nat)
    ensures i <= j <= |s| && Strip(s) == s[i..j]
    ensures forall k :: 0 <= k < i ==> IsSpace(s[k])
    ensures forall k :: j <= k < |s| ==> IsSpace(s[k])
  {
    i := LeadingSpaces(s);
    var t := s[i..];
    var m := TrailingSpaces(t);
    j := |s| - m;
    assert t[..|t| - m] == s[i..j];
    forall k | j <= k < |s|
      ensures IsSpace(s[k])
    {
      assert s[k] == t[k - i];
    }
  }

  /** Strip removes whitespace at both ends and only there: the result is a slice
      `s[i..j]` of the input with only whitespace outside it. */
  lemma StripIsTrim(s: string)
    ensures exists i, j ::
              && 0 <= i <= j <= |s| && Strip(s) == s[i..j]
              && (forall k :: 0 <= k < i ==> IsSpace(s[k]))
              && (forall k :: j <= k < |s| ==> IsSpace(s[k]))
  {
    var i, j := TrimBounds(s);
  }

  /** Stripping a lower-cased string leaves no ASCII capital in it. */
  lemma StripOfLowerHasNoUpper(s: string)
    ensures forall k :: 0 <= k < |Strip(Lower(s))| ==> !IsAsciiUpper(Strip(Lower(s))[k])
  {
    var t := Lower(s);
    var i, j := TrimBounds(t);
    forall k | 0 <= k < |Strip(t)|
      ensures !IsAsciiUpper(Strip(t)[k])
    {
      assert Strip(t)[k] == t[i + k];
    }
  }

  /** Strings without ASCII capitals are left unchanged by lower-casing. */
  lemma {:induction false} LowerFixesLowercase(s: string)
    requires forall i :: 0 <= i < |s| ==> !IsAsciiUpper(s[i])
    ensures Lower(s) == s
  {
    if s != [] {
      LowerFixesLowercase(s[1..]);
    }
  }

  /** Stripping a string with no whitespace at either end leaves it alone. */
  lemma StripFixesTrimmed(s: string)
    requires s == [] || (!IsSpace(s[0]) && !IsSpace(s[|s| - 1]))
    ensures Strip(s) == s
  {
  }
}
