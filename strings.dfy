/**
 * The JavaScript string operations the application relies on, over ASCII:
 * `trim`, `toLowerCase`, `toUpperCase`, `includes`, `split` and the `||`
 * fallback between strings.
 */
module Strings {

  /** The whitespace `trim` removes, restricted to ASCII. */
  predicate IsSpace(c: char)
  {
    c == ' ' || c == '\t' || c == '\n' || c == '\r' || c == '\U{000B}' || c == '\U{000C}'
  }

  predicate IsBlank(s: string)
  {
    forall i :: 0 <= i < |s| ==> IsSpace(s[i])
  }

  function TrimStart(s: string): (r: string)
    ensures r == "" <==> IsBlank(s)
    ensures r != "" ==> !IsSpace(r[0])
    decreases |s|
  {
    if s != [] && IsSpace(s[0]) then TrimStart(s[1..]) else s
  }

  function TrimEnd(s: string): (r: string)
    ensures r == "" <==> IsBlank(s)
    decreases |s|
  {
    if s != [] && IsSpace(s[|s| - 1]) then TrimEnd(s[..|s| - 1]) else s
  }

  /** `s.trim()`. */
  function Trim(s: string): string
  {
    TrimEnd(TrimStart(s))
  }

  /** `s.trim() !== ''` holds exactly when `s` has a character other than whitespace. */
  lemma TrimEmptyIffBlank(s: string)
    ensures Trim(s) == "" <==> IsBlank(s)
  {
    var t := TrimStart(s);
    if t != "" {
      assert !IsSpace(t[0]);
      assert !IsBlank(t);
    }
  }

  function LowerChar(c: char): char
  {
    if 'A' <= c <= 'Z' then (c as int + 32) as char else c
  }

  function UpperChar(c: char): char
  {
    if 'a' <= c <= 'z' then (c as int - 32) as char else c
  }

  /** `s.toLowerCase()` on ASCII letters. */
  function Lower(s: string): string
  {
    seq(|s|, i requires 0 <= i < |s| => LowerChar(s[i]))
  }

  /** `s.toUpperCase()` on ASCII letters. */
  function Upper(s: string): string
  {
    seq(|s|, i requires 0 <= i < |s| => UpperChar(s[i]))
  }

  /** `s.includes(part)`. */
  function Contains(s: string, part: string): bool
    decreases |s|
  {
    part <= s || (s != [] && Contains(s[1..], part))
  }

  /** `includes` finds `part` exactly when it starts at some position of `s`. */
  lemma {:induction false} ContainsIffOccurs(s: string, part: string)
    ensures Contains(s, part) <==> exists i :: 0 <= i <= |s| && part <= s[i..]
  {
    if s == [] {
      assert forall i :: 0 <= i <= |s| ==> s[i..] == s;
    } else {
      ContainsIffOccurs(s[1..], part);
      if Contains(s, part) {
        if part <= s {
          assert s[0..] == s;
        } else {
          var j :| 0 <= j <= |s[1..]| && part <= s[1..][j..];
          assert s[1..][j..] == s[j + 1..];
        }
      }
      if exists i :: 0 <= i <= |s| && part <= s[i..] {
        var i :| 0 <= i <= |s| && part <= s[i..];
        if i == 0 {
          assert s[0..] == s;
        } else {
          assert s[1..][i - 1..] == s[i..];
        }
      }
    }
  }

  /** The part of `s` before the first `sep` (all of `s` when there is none). */
  function Before(s: string, sep: char): (r: string)
    ensures r <= s && sep !in r
    ensures sep in s ==> |r| < |s| && s[|r|] == sep
    ensures sep !in s ==> r == s
    decreases |s|
  {
    if s == [] then "" else if s[0] == sep then "" else [s[0]] + Before(s[1..], sep)
  }

  /** The part of `s` after the first `sep`. */
  function After(s: string, sep: char): (r: string)
    requires sep in s
    ensures |r| < |s|
    ensures s == Before(s, sep) + [sep] + r
  {
    s[|Before(s, sep)| + 1..]
  }

  /** `s.split(sep)` for a one-character separator. */
  function Split(s: string, sep: char): (parts: seq<string>)
    ensures |parts| >= 1 && parts[0] == Before(s, sep)
    ensures |parts| > 1 <==> sep in s
    ensures sep in s ==> parts[1] == Before(After(s, sep), sep)
    decreases |s|
  {
    if sep in s then [Before(s, sep)] + Split(After(s, sep), sep) else [s]
  }

  /** A word free of `sep`, the separator and the rest: the first split part is the word. */
  lemma {:induction false} BeforeOfJoin(w: string, sep: char, rest: string)
    requires sep !in w
    ensures sep in w + [sep] + rest
    ensures Before(w + [sep] + rest, sep) == w
    ensures After(w + [sep] + rest, sep) == rest
  {
    var x := w + [sep] + rest;
    assert x[|w|] == sep;
    if w != [] {
      assert x[0] == w[0];
      assert x[1..] == w[1..] + [sep] + rest;
      BeforeOfJoin(w[1..], sep, rest);
    }
  }

  /** `a || b` on strings: `b` replaces an empty `a`. */
  function OrElse(a: string, b: string): (r: string)
    ensures a != "" ==> r == a
    ensures a == "" ==> r == b
    ensures r == "" <==> a == "" && b == ""
  {
    if a != "" then a else b
  }
}
