/** The JavaScript string operations the dashboard's logic relies on:
    case mapping, `startsWith`, `includes`, `trim`, the `/\s+/g` strip,
    `replace` with a one-character string pattern (first occurrence only)
    and the `/^[A-Za-z]+/` prefix strip. */
module Text {

  // ---------------------------------------------------------------------
  // Characters
  // ---------------------------------------------------------------------

  /** ECMAScript white space and line terminators: the class `\s` matches
      and `String.prototype.trim` removes. */
  predicate IsSpace(c: char) {
    c == '\t' || c == '\n' || c == '\U{000B}' || c == '\U{000C}' || c == '\r' || c == ' '
    || c == '\U{00A0}' || c == '\U{1680}' || ('\U{2000}' <= c <= '\U{200A}')
    || c == '\U{2028}' || c == '\U{2029}' || c == '\U{202F}' || c == '\U{205F}'
    || c == '\U{3000}' || c == '\U{FEFF}'
  }

  predicate IsAsciiLetter(c: char) {
    ('A' <= c <= 'Z') || ('a' <= c <= 'z')
  }

  predicate IsDigit(c: char) {
    '0' <= c <= '9'
  }

  predicate IsUpperCase(c: char) {
    ('A' <= c <= 'Z') || ('\U{0391}' <= c <= '\U{03A9}' && c != '\U{03A2}')
  }

  predicate IsLowerCase(c: char) {
    ('a' <= c <= 'z') || ('\U{03B1}' <= c <= '\U{03C9}' && c != '\U{03C2}')
  }

  /** `toLowerCase` on one character: ASCII and the basic Greek capitals. */
  function LowerChar(c: char): (r: char)
    ensures IsUpperCase(c) ==> IsLowerCase(r) && r as int == c as int + 32
    ensures !IsUpperCase(c) ==> r == c
  {
    if IsUpperCase(c) then (c as int + 32) as char else c
  }

  /** `toUpperCase` on one character: ASCII and the basic Greek small letters. */
  function UpperChar(c: char): (r: char)
    ensures IsLowerCase(c) ==> IsUpperCase(r) && r as int == c as int - 32
    ensures !IsLowerCase(c) ==> r == c
  {
    if IsLowerCase(c) then (c as int - 32) as char else c
  }

  // ---------------------------------------------------------------------
  // Strings
  // ---------------------------------------------------------------------

  function Lower(s: string): (r: string)
    ensures |r| == |s|
  {
    seq(|s|, i requires 0 <= i < |s| => LowerChar(s[i]))
  }

  function Upper(s: string): (r: string)
    ensures |r| == |s|
  {
    seq(|s|, i requires 0 <= i < |s| => UpperChar(s[i]))
  }

  /** `s.startsWith(p)`. */
  predicate StartsWith(s: string, p: string) {
    |p| <= |s| && s[..|p|] == p
  }

  /** `s.includes(p)`: `p` occurs in `s` at some position. */
  predicate Contains(s: string, p: string) {
    StartsWith(s, p) || (s != [] && Contains(s[1..], p))
  }

  /** `s.replace(/\s+/g, "")`: every white-space character removed. */
  function RemoveSpaces(s: string): (r: string)
    ensures |r| <= |s|
  {
    if s == [] then []
    else if IsSpace(s[0]) then RemoveSpaces(s[1..])
    else [s[0]] + RemoveSpaces(s[1..])
  }

  /** The strip keeps characters of `s` only, and none of them is white space. */
  lemma {:induction false} RemoveSpacesChars(s: string)
    ensures forall c :: c in RemoveSpaces(s) ==> c in s && !IsSpace(c)
  {
    if s != [] {
      RemoveSpacesChars(s[1..]);
    }
  }

  /** `s.replace(a, b)` with one-character string arguments: only the FIRST
      occurrence of `a` is replaced. */
  function ReplaceFirst(s: string, a: char, b: char): (r: string)
    ensures |r| == |s|
  {
    if s == [] then []
    else if s[0] == a then [b] + s[1..]
    else [s[0]] + ReplaceFirst(s[1..], a, b)
  }

  /** Each character is kept, or is an `a` turned into `b`. */
  lemma {:induction false} ReplaceFirstChars(s: string, a: char, b: char)
    ensures forall i :: 0 <= i < |s| ==> ReplaceFirst(s, a, b)[i] == s[i] || (s[i] == a && ReplaceFirst(s, a, b)[i] == b)
  {
    if s != [] && s[0] != a {
      ReplaceFirstChars(s[1..], a, b);
      assert forall i :: 1 <= i < |s| ==> ReplaceFirst(s, a, b)[i] == ReplaceFirst(s[1..], a, b)[i - 1];
    }
  }

  function TrimStart(s: string): (r: string)
    ensures r == [] || !IsSpace(r[0])
    decreases |s|
  {
    if s != [] && IsSpace(s[0]) then TrimStart(s[1..]) else s
  }

  function TrimEnd(s: string): (r: string)
    ensures r == [] || !IsSpace(r[|r| - 1])
    decreases |s|
  {
    if s != [] && IsSpace(s[|s| - 1]) then TrimEnd(s[..|s| - 1]) else s
  }

  /** `s.trim()`. */
  function Trim(s: string): string {
    TrimEnd(TrimStart(s))
  }

  /** `s.replace(/^[A-Za-z]+/, "")`: the leading run of ASCII letters removed. */
  function StripLeadingLetters(s: string): (r: string)
    ensures r == [] || !IsAsciiLetter(r[0])
    decreases |s|
  {
    if s != [] && IsAsciiLetter(s[0]) then StripLeadingLetters(s[1..]) else s
  }

  // ---------------------------------------------------------------------
  // Properties
  // ---------------------------------------------------------------------

  /** `trim()` yields the empty string exactly when every character is white space. */
  lemma {:induction false} TrimEmptyIffBlank(s: string)
    ensures Trim(s) == [] <==> forall i :: 0 <= i < |s| ==> IsSpace(s[i])
  {
    TrimStartEmptyIffBlank(s);
    var t := TrimStart(s);
    if t != [] {
      TrimEndOfNonBlank(t);
    }
  }

  lemma {:induction false} TrimStartEmptyIffBlank(s: string)
    ensures TrimStart(s) == [] <==> forall i :: 0 <= i < |s| ==> IsSpace(s[i])
    decreases |s|
  {
    if s != [] && IsSpace(s[0]) {
      TrimStartEmptyIffBlank(s[1..]);
      assert forall i :: 1 <= i < |s| ==> s[i] == s[1..][i - 1];
    }
  }

  lemma {:induction false} TrimEndOfNonBlank(s: string)
    requires s != [] && !IsSpace(s[0])
    ensures TrimEnd(s) != []
    decreases |s|
  {
    if IsSpace(s[|s| - 1]) {
      TrimEndOfNonBlank(s[..|s| - 1]);
    }
  }

  /** Lower-casing maps every character to a fixed point of `LowerChar`. */
  lemma LowerIdempotent(s: string)
    ensures Lower(Lower(s)) == Lower(s)
  {
  }

  /** How many times `c` occurs in `s`. */
  function Count(s: string, c: char): nat {
    if s == [] then 0 else (if s[0] == c then 1 else 0) + Count(s[1..], c)
  }

  /** A character occurs at least once exactly when it is in the string. */
  lemma {:induction false} CountPositiveIffIn(s: string, c: char)
    ensures Count(s, c) > 0 <==> c in s
  {
    if s != [] {
      CountPositiveIffIn(s[1..], c);
      assert s == [s[0]] + s[1..];
    }
  }

  /** Replacing a character that does not occur changes nothing. */
  lemma {:induction false} ReplaceFirstAbsent(s: string, a: char, b: char)
    requires a !in s
    ensures ReplaceFirst(s, a, b) == s
  {
    if s != [] {
      assert s[1..] <= s[1..] && forall c | c in s[1..] :: c in s;
      ReplaceFirstAbsent(s[1..], a, b);
      assert s == [s[0]] + s[1..];
    }
  }

  /** Replacing the first `a` in `s + t`, where `s` has no `a`, only
      touches `t`. */
  lemma {:induction false} ReplaceFirstAfterAbsent(s: string, t: string, a: char, b: char)
    requires a !in s
    ensures ReplaceFirst(s + t, a, b) == s + ReplaceFirst(t, a, b)
  {
    if s == [] {
      assert s + t == t;
    } else {
      var st := s + t;
      assert st[0] == s[0] && st[1..] == s[1..] + t;
      assert s == [s[0]] + s[1..];
      assert a !in s[1..];
      ReplaceFirstAfterAbsent(s[1..], t, a, b);
      assert ReplaceFirst(st, a, b) == [s[0]] + ReplaceFirst(s[1..] + t, a, b);
    }
  }

  /** Replacing the first `a` by a different `b`: characters other than
      `a` and `b` keep their counts, and `a` loses one occurrence if it
      had any. */
  lemma {:induction false} ReplaceFirstCount(s: string, a: char, b: char, c: char)
    requires a != b && c != b
    ensures Count(ReplaceFirst(s, a, b), c) == if c == a && Count(s, a) > 0 then Count(s, c) - 1 else Count(s, c)
  {
    if s != [] {
      var r := ReplaceFirst(s, a, b);
      if s[0] == a {
        assert r[1..] == s[1..];
      } else {
        ReplaceFirstCount(s[1..], a, b, c);
        assert r[1..] == ReplaceFirst(s[1..], a, b);
      }
    }
  }

  /** Upper-casing and then lower-casing agrees with lower-casing alone. */
  lemma LowerOfUpper(s: string)
    ensures Lower(Upper(s)) == Lower(s)
  {
  }

  /** Lower-casing and then upper-casing agrees with upper-casing alone. */
  lemma UpperOfLower(s: string)
    ensures Upper(Lower(s)) == Upper(s)
  {
  }

  /** Upper-casing twice changes nothing more. */
  lemma UpperIdempotent(s: string)
    ensures Upper(Upper(s)) == Upper(s)
  {
  }

  /** A run of ASCII letters followed by a non-letter is stripped exactly. */
  lemma {:induction false} StripLetterRun(p: string, t: string)
    requires forall i :: 0 <= i < |p| ==> IsAsciiLetter(p[i])
    requires t == [] || !IsAsciiLetter(t[0])
    ensures StripLeadingLetters(p + t) == t
  {
    if p == [] {
      assert p + t == t;
    } else {
      assert (p + t)[1..] == p[1..] + t;
      StripLetterRun(p[1..], t);
    }
  }

  /** A string with no upper-case letter is its own lower-case form. */
  lemma {:induction false} LowerOfLowered(s: string)
    requires forall i :: 0 <= i < |s| ==> !IsUpperCase(s[i])
    ensures Lower(s) == s
  {
  }

  /** A string with no white space is unchanged by the white-space strip. */
  lemma {:induction false} RemoveSpacesOfSpaceless(s: string)
    requires forall c | c in s :: !IsSpace(c)
    ensures RemoveSpaces(s) == s
    decreases |s|
  {
    if s != [] {
      assert s[0] in s;
      assert forall c | c in s[1..] :: c in s;
      RemoveSpacesOfSpaceless(s[1..]);
      assert s == [s[0]] + s[1..];
    }
  }

  /** Lower-casing and stripping white space commute. */
  lemma {:induction false} LowerRemoveSpacesCommute(s: string)
    ensures Lower(RemoveSpaces(s)) == RemoveSpaces(Lower(s))
    decreases |s|
  {
    if s != [] {
      LowerRemoveSpacesCommute(s[1..]);
      assert Lower(s)[1..] == Lower(s[1..]);
      if !IsSpace(s[0]) {
        assert Lower([s[0]] + RemoveSpaces(s[1..])) == [LowerChar(s[0])] + Lower(RemoveSpaces(s[1..]));
      }
    }
  }

  /** Stripping white space twice strips nothing more. */
  lemma RemoveSpacesIdempotent(s: string)
    ensures RemoveSpaces(RemoveSpaces(s)) == RemoveSpaces(s)
  {
    RemoveSpacesChars(s);
    RemoveSpacesOfSpaceless(RemoveSpaces(s));
  }

  /** A prefix survives lower-casing, lower-cased. */
  lemma LowerKeepsPrefix(s: string, p: string)
    requires StartsWith(s, p)
    ensures StartsWith(Lower(s), Lower(p))
  {
    assert Lower(s)[..|p|] == Lower(p);
  }

  /** A prefix without white space survives the white-space strip. */
  lemma {:induction false} RemoveSpacesKeepsPrefix(s: string, p: string)
    requires StartsWith(s, p)
    requires forall i :: 0 <= i < |p| ==> !IsSpace(p[i])
    ensures StartsWith(RemoveSpaces(s), p)
  {
    if p != [] {
      assert StartsWith(s[1..], p[1..]) by {
        assert s[1..][..|p| - 1] == s[..|p|][1..];
      }
      RemoveSpacesKeepsPrefix(s[1..], p[1..]);
      assert !IsSpace(s[0]);
      var t := RemoveSpaces(s[1..]);
      assert RemoveSpaces(s) == [s[0]] + t;
      assert ([s[0]] + t)[..|p|] == [s[0]] + t[..|p| - 1];
      assert p == [p[0]] + p[1..];
    }
  }

  /** A prefix not containing `a` survives replacing the first `a`. */
  lemma {:induction false} ReplaceFirstKeepsPrefix(s: string, p: string, a: char, b: char)
    requires StartsWith(s, p) && a !in p
    ensures StartsWith(ReplaceFirst(s, a, b), p)
  {
    if p != [] {
      assert StartsWith(s[1..], p[1..]) by {
        assert s[1..][..|p| - 1] == s[..|p|][1..];
      }
      assert p[0] == s[0];
      ReplaceFirstKeepsPrefix(s[1..], p[1..], a, b);
      var t := ReplaceFirst(s[1..], a, b);
      assert ReplaceFirst(s, a, b) == [s[0]] + t;
      assert ([s[0]] + t)[..|p|] == [s[0]] + t[..|p| - 1];
      assert p == [p[0]] + p[1..];
    }
  }
}
