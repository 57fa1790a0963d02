/**
  The JavaScript string operations the site applies to form input:
  String.prototype.trim, split and join on one character, the ASCII part of
  toUpperCase and toLowerCase, and the UTF-16 length that `.length` reports.
 */
module Text {

  /** The WhiteSpace and LineTerminator code points of ECMAScript, which `trim` strips. */
  predicate IsJsWhitespace(c: char) {
    || c == '\t' || c == '\U{B}' || c == '\U{C}' || c == ' ' || c == '\U{A0}' || c == '\U{FEFF}'
    || c == '\U{1680}' || ('\U{2000}' <= c <= '\U{200A}') || c == '\U{202F}' || c == '\U{205F}'
    || c == '\U{3000}' || c == '\n' || c == '\r' || c == '\U{2028}' || c == '\U{2029}'
  }

  predicate IsLowerAscii(c: char) { 'a' <= c <= 'z' }

  predicate IsUpperAscii(c: char) { 'A' <= c <= 'Z' }

  /** `toUpperCase` on one character, restricted to ASCII letters. */
  function ToUpperAscii(c: char): (u: char)
    ensures !IsLowerAscii(u)
    ensures IsLowerAscii(c) ==> IsUpperAscii(u) && u as int == c as int - 32
    ensures !IsLowerAscii(c) ==> u == c
  {
    if IsLowerAscii(c) then (c as int - 32) as char else c
  }

  /** `toLowerCase` on one character, restricted to ASCII letters. */
  function ToLowerAscii(c: char): (l: char)
    ensures !IsUpperAscii(l)
    ensures IsUpperAscii(c) ==> IsLowerAscii(l) && l as int == c as int + 32
    ensures !IsUpperAscii(c) ==> l == c
  {
    if IsUpperAscii(c) then (c as int + 32) as char else c
  }

  /** Upper-casing then lower-casing gives back every lower-case letter. */
  lemma LowerOfUpper(c: char)
    requires IsLowerAscii(c)
    ensures ToLowerAscii(ToUpperAscii(c)) == c
  {
  }

  /** `toLowerCase` on a whole string (ASCII letters only). */
  function LowerCase(s: string): (r: string)
    ensures |r| == |s|
    ensures forall i :: 0 <= i < |s| ==> r[i] == ToLowerAscii(s[i])
  {
    if s == [] then [] else [ToLowerAscii(s[0])] + LowerCase(s[1..])
  }

  /** Lower-casing neither adds nor removes an '@'. */
  lemma {:induction false} LowerCaseKeepsAt(s: string)
    ensures '@' in LowerCase(s) <==> '@' in s
  {
    var r := LowerCase(s);
    if '@' in s {
      var i :| 0 <= i < |s| && s[i] == '@';
      assert r[i] == '@';
    }
    if '@' in r {
      var i :| 0 <= i < |r| && r[i] == '@';
      assert s[i] == '@';
    }
  }

  /** `.length` of a JavaScript string: UTF-16 code units, two for a code point above U+FFFF. */
  function Utf16Length(s: string): (n: nat)
    ensures |s| <= n <= 2 * |s|
    ensures n == |s| <==> forall i :: 0 <= i < |s| ==> s[i] as int <= 0xFFFF
    ensures |s| == 1 ==> n == if s[0] as int > 0xFFFF then 2 else 1
  {
    if s == [] then 0 else (if s[0] as int > 0xFFFF then 2 else 1) + Utf16Length(s[1..])
  }

  /** The UTF-16 length of a concatenation is the sum of the lengths, so each character counts on its own. */
  lemma {:induction false} Utf16LengthAppend(a: string, b: string)
    ensures Utf16Length(a + b) == Utf16Length(a) + Utf16Length(b)
  {
    if a == [] {
      assert a + b == b;
    } else {
      assert (a + b)[1..] == a[1..] + b;
      Utf16LengthAppend(a[1..], b);
    }
  }

  /** Number of whitespace characters at the front of `s`. */
  function LeadingSpace(s: string): (n: nat)
    ensures n <= |s|
    ensures forall i :: 0 <= i < n ==> IsJsWhitespace(s[i])
    ensures n < |s| ==> !IsJsWhitespace(s[n])
  {
    if s == [] || !IsJsWhitespace(s[0]) then 0 else 1 + LeadingSpace(s[1..])
  }

  /** Number of whitespace characters at the end of `s`. */
  function TrailingSpace(s: string): (n: nat)
    ensures n <= |s|
    ensures forall i :: |s| - n <= i < |s| ==> IsJsWhitespace(s[i])
    ensures n < |s| ==> !IsJsWhitespace(s[|s| - 1 - n])
  {
    if s == [] || !IsJsWhitespace(s[|s| - 1]) then 0 else 1 + TrailingSpace(s[..|s| - 1])
  }

  /** `trim`: `s` without the whitespace at either end. */
  function Trim(s: string): (r: string)
    ensures |r| <= |s|
    ensures r != [] ==> !IsJsWhitespace(r[0]) && !IsJsWhitespace(r[|r| - 1])
  {
    var a := LeadingSpace(s);
    if a == |s| then [] else s[a..|s| - TrailingSpace(s)]
  }

  /**
    What `trim` cuts away: the result is the middle of `s` after its leading
    whitespace, everything after it is whitespace too, and it is empty exactly
    when `s` is all whitespace.
   */
  lemma TrimSlice(s: string)
    ensures LeadingSpace(s) + |Trim(s)| <= |s|
    ensures Trim(s) == s[LeadingSpace(s)..LeadingSpace(s) + |Trim(s)|]
    ensures forall i :: LeadingSpace(s) + |Trim(s)| <= i < |s| ==> IsJsWhitespace(s[i])
    ensures Trim(s) == [] <==> forall i :: 0 <= i < |s| ==> IsJsWhitespace(s[i])
  {
  }

  /** Every character of a trimmed string occurs in the original. */
  lemma TrimChars(s: string, c: char)
    requires c in Trim(s)
    ensures c in s
  {
    var r := Trim(s);
    TrimSlice(s);
    var i :| 0 <= i < |r| && r[i] == c;
    assert s[LeadingSpace(s) + i] == c;
  }

  /**
    `s.split(sep)`: the pieces between occurrences of `sep`, in order. There is
    always at least one piece, and the first is the text before the first `sep`.
   */
  function Split(s: string, sep: char): (r: seq<string>)
    ensures |r| >= 1
    ensures forall i :: 0 <= i < |r| ==> sep !in r[i]
    ensures |r[0]| <= |s| && r[0] == s[..|r[0]|]
    ensures |r[0]| < |s| ==> s[|r[0]|] == sep
  {
    if s == [] then [[]]
    else
      var rest := Split(s[1..], sep);
      if s[0] == sep then [[]] + rest
      else [[s[0]] + rest[0]] + rest[1..]
  }

  /** `words.join(sep)`. */
  function Join(words: seq<string>, sep: char): (r: string)
    requires |words| >= 1
    ensures |words[0]| <= |r| && r[..|words[0]|] == words[0]
    ensures |words| == 1 <==> |r| == |words[0]|
    ensures |words| > 1 ==> r[|words[0]|] == sep
  {
    if |words| == 1 then words[0] else words[0] + [sep] + Join(words[1..], sep)
  }

  /** Joining the pieces of a split with the same separator gives back the string. */
  lemma {:induction false} JoinSplit(s: string, sep: char)
    ensures Join(Split(s, sep), sep) == s
  {
    if s != [] {
      var rest := Split(s[1..], sep);
      JoinSplit(s[1..], sep);
      var ws := Split(s, sep);
      if s[0] == sep {
        assert ws[1..] == rest;
      } else if |rest| == 1 {
        assert ws == [[s[0]] + rest[0]];
      } else {
        assert ws[1..] == rest[1..];
        assert Join(rest, sep) == rest[0] + [sep] + Join(rest[1..], sep);
      }
    }
  }
}
