/** The JavaScript string operations the extension relies on (`indexOf`,
    `lastIndexOf`, `includes`, `startsWith`, `endsWith`, `trim`,
    `toLowerCase`), stated over `seq<char>`. Whitespace is JavaScript's;
    letter case is restricted to ASCII. */
module Strings {

  /** `t` occurs in `s` starting at index `i`. */
  predicate IsAt(s: string, t: string, i: nat)
  {
    i + |t| <= |s| && s[i..i + |t|] == t
  }

  /** `s.indexOf(t, from)` for a non-empty `t`: the first occurrence at or
      after `from`, or -1. */
  function IndexOfFrom(s: string, t: string, from: nat): (r: int)
    ensures r == -1 || (from <= r && IsAt(s, t, r))
    decreases |s| - from
  {
    if from + |t| > |s| then -1
    else if IsAt(s, t, from) then from
    else IndexOfFrom(s, t, from + 1)
  }

  /** The occurrence found is the first one at or after `from`, and -1 means
      there is none. */
  lemma {:induction false} IndexOfFromFirst(s: string, t: string, from: nat)
    ensures var r := IndexOfFrom(s, t, from);
      (r == -1 ==> forall i: nat :: from <= i ==> !IsAt(s, t, i)) &&
      (r != -1 ==> forall i: nat :: from <= i < r ==> !IsAt(s, t, i))
    decreases |s| - from
  {
    if from + |t| <= |s| && !IsAt(s, t, from) {
      IndexOfFromFirst(s, t, from + 1);
    }
  }

  /** `s.includes(t)`. */
  predicate Contains(s: string, t: string)
  {
    IndexOfFrom(s, t, 0) != -1
  }

  /** An occurrence that is found in `s` is still the first one once
      something is appended to `s`. */
  lemma {:induction false} IndexOfFromAppend(s: string, u: string, t: string, from: nat)
    requires IndexOfFrom(s, t, from) != -1
    ensures IndexOfFrom(s + u, t, from) == IndexOfFrom(s, t, from)
    decreases |s| - from
  {
    assert forall i: nat :: i + |t| <= |s| ==> (IsAt(s + u, t, i) <==> IsAt(s, t, i));
    if !IsAt(s, t, from) {
      IndexOfFromAppend(s, u, t, from + 1);
    }
  }

  /** `s.lastIndexOf(c)`: the last index holding `c`, or -1. */
  function LastIndexOf(s: string, c: char): (r: int)
    ensures -1 <= r < |s|
    ensures r != -1 ==> s[r] == c
    ensures forall i :: r < i < |s| ==> s[i] != c
  {
    if s == [] then -1
    else if s[|s| - 1] == c then |s| - 1
    else LastIndexOf(s[..|s| - 1], c)
  }

  predicate StartsWith(s: string, t: string)
  {
    |t| <= |s| && s[..|t|] == t
  }

  predicate EndsWith(s: string, t: string)
  {
    |t| <= |s| && s[|s| - |t|..] == t
  }

  /** The characters `String.prototype.trim` strips: ECMAScript's
      WhiteSpace (tab, line tabulation, form feed, the zero-width no-break
      space and the Unicode space separators) and its LineTerminators. */
  predicate IsSpace(c: char)
  {
    || c == '\t' || c == '\n' || c == '\U{B}' || c == '\U{C}' || c == '\r' || c == ' '
    || c == '\U{A0}' || c == '\U{1680}' || '\U{2000}' <= c <= '\U{200A}'
    || c == '\U{2028}' || c == '\U{2029}' || c == '\U{202F}' || c == '\U{205F}'
    || c == '\U{3000}' || c == '\U{FEFF}'
  }

  function TrimStart(s: string): (r: string)
    ensures |r| <= |s| && r == s[|s| - |r|..]
    ensures r == [] || !IsSpace(r[0])
    ensures forall i :: 0 <= i < |s| - |r| ==> IsSpace(s[i])
  {
    if s != [] && IsSpace(s[0]) then TrimStart(s[1..]) else s
  }

  function TrimEnd(s: string): (r: string)
    ensures |r| <= |s| && r == s[..|r|]
    ensures r == [] || !IsSpace(r[|r| - 1])
    ensures forall i :: |r| <= i < |s| ==> IsSpace(s[i])
  {
    if s != [] && IsSpace(s[|s| - 1]) then TrimEnd(s[..|s| - 1]) else s
  }

  /** `s.trim()`: the longest slice of `s` without leading or trailing
      whitespace. */
  function Trim(s: string): (r: string)
    ensures |r| <= |s|
    ensures r == [] || (!IsSpace(r[0]) && !IsSpace(r[|r| - 1]))
  {
    TrimEnd(TrimStart(s))
  }

  /** A string without leading or trailing whitespace is its own trim. */
  lemma TrimOfTrimmed(s: string)
    requires s == [] || (!IsSpace(s[0]) && !IsSpace(s[|s| - 1]))
    ensures Trim(s) == s
  {
  }

  function ToLowerChar(c: char): (r: char)
  {
    if 'A' <= c <= 'Z' then (c as int + 32) as char else c
  }

  /** `s.toLowerCase()` on ASCII letters. */
  function ToLower(s: string): (r: string)
    ensures |r| == |s|
    ensures forall i :: 0 <= i < |s| ==> r[i] == ToLowerChar(s[i])
  {
    if s == [] then [] else [ToLowerChar(s[0])] + ToLower(s[1..])
  }
}
