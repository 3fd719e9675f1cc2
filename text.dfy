/** The string primitives the pages rely on: `toLowerCase`, `toUpperCase`, `includes`,
    `split(' ')`, `join` and `trim`, over `string == seq<char>`. Case mapping is
    restricted to ASCII letters. */
module Text {

  // ---- case mapping ---------------------------------------------------------

  function LowerChar(c: char): (d: char)
    ensures 'A' <= c <= 'Z' ==> d as int == c as int + 32
    ensures !('A' <= c <= 'Z') ==> d == c
  {
    if 'A' <= c <= 'Z' then (c as int + 32) as char else c
  }

  function UpperChar(c: char): (d: char)
    ensures 'a' <= c <= 'z' ==> d as int == c as int - 32
    ensures !('a' <= c <= 'z') ==> d == c
  {
    if 'a' <= c <= 'z' then (c as int - 32) as char else c
  }

  /** `s.toLowerCase()`, character by character. */
  function Lower(s: string): (r: string)
    ensures |r| == |s|
    ensures forall i :: 0 <= i < |s| ==> r[i] == LowerChar(s[i])
  {
    if s == [] then [] else [LowerChar(s[0])] + Lower(s[1..])
  }

  /** A string with no upper-case ASCII letter. */
  predicate IsLowerCase(s: string) {
    forall i :: 0 <= i < |s| ==> !('A' <= s[i] <= 'Z')
  }

  lemma LowerIsLowerCase(s: string)
    ensures IsLowerCase(Lower(s))
  {
  }

  /** Lower-casing a string that has no upper-case letter changes nothing. */
  lemma LowerOfLowerCase(s: string)
    requires IsLowerCase(s)
    ensures Lower(s) == s
  {
  }

  /** Lower-casing twice is lower-casing once. */
  lemma LowerIdempotent(s: string)
    ensures Lower(Lower(s)) == Lower(s)
  {
    LowerIsLowerCase(s);
    LowerOfLowerCase(Lower(s));
  }

  // ---- substring search -------------------------------------------------------

  predicate StartsWith(s: string, p: string) {
    |p| <= |s| && s[..|p|] == p
  }

  /** `s.includes(p)`: `p` occurs as a contiguous block of `s`; the empty string
      occurs in every string. */
  predicate Contains(s: string, p: string)
    decreases |s|
    ensures Contains(s, p) ==> |p| <= |s|
    ensures p == [] ==> Contains(s, p)
  {
    StartsWith(s, p) || (|s| > 0 && Contains(s[1..], p))
  }

  /** `p` occurs in `s` starting at position `k`. */
  predicate OccursAt(s: string, p: string, k: int) {
    0 <= k && k + |p| <= |s| && s[k..k + |p|] == p
  }

  /** The recursive search agrees with the positional definition of an occurrence. */
  lemma {:induction false} ContainsAt(s: string, p: string)
    ensures Contains(s, p) <==> exists k :: OccursAt(s, p, k)
  {
    if Contains(s, p) {
      if StartsWith(s, p) {
        assert OccursAt(s, p, 0);
      } else {
        ContainsAt(s[1..], p);
        var k :| OccursAt(s[1..], p, k);
        assert s[k + 1..k + 1 + |p|] == s[1..][k..k + |p|];
        assert OccursAt(s, p, k + 1);
      }
    }
    if exists k :: OccursAt(s, p, k) {
      var k :| OccursAt(s, p, k);
      if k == 0 {
        assert StartsWith(s, p);
      } else {
        assert s[1..][k - 1..k - 1 + |p|] == s[k..k + |p|];
        assert OccursAt(s[1..], p, k - 1);
        ContainsAt(s[1..], p);
      }
    }
  }

  /** A pattern holding a character the string lacks does not occur in it. */
  lemma NotContainsMissing(s: string, p: string, c: char)
    requires c in p && c !in s
    ensures !Contains(s, p)
  {
    ContainsAt(s, p);
  }

  /** A pattern holding a character twice does not occur in a string that holds it
      at one position at most. */
  lemma NotContainsRepeated(s: string, p: string, c: char, k: int, j1: nat, j2: nat)
    requires j1 < j2 < |p| && p[j1] == c && p[j2] == c
    requires forall i :: 0 <= i < |s| && s[i] == c ==> i == k
    ensures !Contains(s, p)
  {
    ContainsAt(s, p);
  }

  // ---- split and join on a separator -----------------------------------------

  /** Number of occurrences of the character `c` in `s`. */
  function Occurrences(s: string, c: char): (n: nat)
    ensures n <= |s|
  {
    if s == [] then 0 else (if s[0] == c then 1 else 0) + Occurrences(s[1..], c)
  }

  /** `s.split(' ')`: the (possibly empty) runs between single spaces. It always has
      at least one element, and no element contains a space. */
  function SplitOnSpace(s: string): (r: seq<string>)
    ensures |r| >= 1
    ensures forall i :: 0 <= i < |r| ==> ' ' !in r[i]
  {
    if s == [] then [""]
    else if s[0] == ' ' then [""] + SplitOnSpace(s[1..])
    else
      var rest := SplitOnSpace(s[1..]);
      [[s[0]] + rest[0]] + rest[1..]
  }

  /** `parts.join(sep)`. */
  function Join(parts: seq<string>, sep: string): (r: string)
    ensures parts == [] ==> r == ""
    ensures |parts| == 1 ==> r == parts[0]
  {
    if parts == [] then ""
    else if |parts| == 1 then parts[0]
    else parts[0] + sep + Join(parts[1..], sep)
  }

  /** `split(' ')` yields one more piece than there are spaces. */
  lemma {:induction false} SplitCount(s: string)
    ensures |SplitOnSpace(s)| == Occurrences(s, ' ') + 1
  {
    if s != [] {
      SplitCount(s[1..]);
    }
  }

  /** Joining the pieces of `split(' ')` with a space gives back the string. */
  lemma {:induction false} SplitJoin(s: string)
    ensures Join(SplitOnSpace(s), " ") == s
  {
    if s != [] {
      SplitJoin(s[1..]);
      var rest := SplitOnSpace(s[1..]);
      if s[0] == ' ' {
        assert SplitOnSpace(s) == [""] + rest;
        assert ([""] + rest)[1..] == rest;
        assert s == [' '] + s[1..];
      } else {
        var r := SplitOnSpace(s);
        assert r[0] == [s[0]] + rest[0];
        assert r[1..] == rest[1..];
        if |rest| == 1 {
          assert s[1..] == rest[0];
        } else {
          assert Join(rest, " ") == rest[0] + " " + Join(rest[1..], " ");
        }
        assert s == [s[0]] + s[1..];
      }
    }
  }

  // ---- white space -------------------------------------------------------------

  /** The characters `String.prototype.trim` removes: ECMAScript's WhiteSpace (tab,
      vertical tab, form feed, U+FEFF and the space separators of category Zs) and its
      LineTerminator (line feed, carriage return, U+2028, U+2029). */
  predicate IsWhite(c: char) {
    || c == '\t' || c == '\U{000B}' || c == '\U{000C}' || c == '\U{FEFF}'
    || c == ' ' || c == '\U{00A0}' || c == '\U{1680}' || ('\U{2000}' <= c <= '\U{200A}')
    || c == '\U{202F}' || c == '\U{205F}' || c == '\U{3000}'
    || c == '\n' || c == '\r' || c == '\U{2028}' || c == '\U{2029}'
  }

  function TrimStart(s: string): (r: string)
    ensures |r| <= |s|
    ensures r == s[|s| - |r|..]
    ensures r != [] ==> !IsWhite(r[0])
    ensures forall i :: 0 <= i < |s| - |r| ==> IsWhite(s[i])
  {
    if s != [] && IsWhite(s[0]) then TrimStart(s[1..]) else s
  }

  function TrimEnd(s: string): (r: string)
    ensures |r| <= |s|
    ensures r == s[..|r|]
    ensures r != [] ==> !IsWhite(r[|r| - 1])
    ensures forall i :: |r| <= i < |s| ==> IsWhite(s[i])
  {
    if s != [] && IsWhite(s[|s| - 1]) then TrimEnd(s[..|s| - 1]) else s
  }

  /** `s.trim()`. */
  function Trim(s: string): (r: string)
    ensures |r| <= |s|
    ensures r != [] ==> !IsWhite(r[0]) && !IsWhite(r[|r| - 1])
  {
    TrimEnd(TrimStart(s))
  }

  /** A string is blank when every character is white space. */
  predicate IsBlank(s: string) {
    forall i :: 0 <= i < |s| ==> IsWhite(s[i])
  }

  /** `!s.trim()` in the source: trimming leaves nothing exactly when the string is blank. */
  lemma TrimEmptyIffBlank(s: string)
    ensures Trim(s) == "" <==> IsBlank(s)
  {
  }
}
