/**
 * The JavaScript string operations the query codec relies on: `trim`,
 * `startsWith`, `split(',')`, `join(',')`, `toLowerCase` and the two
 * character classes its regular expressions use.
 *
 * Strings are sequences of characters. The codec cuts strings only after a
 * prefix of white space, operator symbols or '-', and splits them only at
 * commas. Every such character lies in the Basic Multilingual Plane, so it is
 * one UTF-16 code unit: counting characters instead of code units changes no
 * result.
 */
module Text {

  /** The characters `String.prototype.trim` removes: WhiteSpace and LineTerminator of ECMAScript. */
  predicate IsWhiteSpace(c: char) {
    || c == '\t' || c == '\n' || c == '\U{000B}' || c == '\U{000C}' || c == '\r' || c == ' '
    || c == '\U{00A0}' || c == '\U{1680}' || ('\U{2000}' <= c <= '\U{200A}')
    || c == '\U{2028}' || c == '\U{2029}' || c == '\U{202F}' || c == '\U{205F}'
    || c == '\U{3000}' || c == '\U{FEFF}'
  }

  /** The class `[a-zA-Z0-9]` of the filter-string parser's regular expression. */
  predicate IsAlphanumeric(c: char) {
    ('a' <= c <= 'z') || ('A' <= c <= 'Z') || ('0' <= c <= '9')
  }

  predicate IsDigit(c: char) {
    '0' <= c <= '9'
  }

  predicate StartsWith(s: string, prefix: string) {
    |prefix| <= |s| && s[..|prefix|] == prefix
  }

  /** `s` with its leading white space removed. */
  function TrimStart(s: string): (t: string)
    ensures |t| <= |s| && t == s[|s| - |t|..]
    ensures forall i :: 0 <= i < |s| - |t| ==> IsWhiteSpace(s[i])
    ensures t == [] || !IsWhiteSpace(t[0])
  {
    if s == [] || !IsWhiteSpace(s[0]) then s else TrimStart(s[1..])
  }

  /** `s` with its trailing white space removed. */
  function TrimEnd(s: string): (t: string)
    ensures |t| <= |s| && t == s[..|t|]
    ensures forall i :: |t| <= i < |s| ==> IsWhiteSpace(s[i])
    ensures t == [] || !IsWhiteSpace(t[|t| - 1])
  {
    if s == [] || !IsWhiteSpace(s[|s| - 1]) then s else TrimEnd(s[..|s| - 1])
  }

  /** `String.prototype.trim`. */
  function Trim(s: string): string {
    TrimEnd(TrimStart(s))
  }

  /** Trimming a string that neither starts nor ends with white space changes nothing. */
  lemma TrimOfUnblank(s: string)
    requires s != [] && !IsWhiteSpace(s[0]) && !IsWhiteSpace(s[|s| - 1])
    ensures Trim(s) == s
  {
    assert TrimStart(s) == s;
  }

  /** Trimming one blank before a string that neither starts nor ends with white space gives that string. */
  lemma TrimLeadingBlank(blank: char, t: string)
    requires IsWhiteSpace(blank)
    requires t != [] && !IsWhiteSpace(t[0]) && !IsWhiteSpace(t[|t| - 1])
    ensures Trim([blank] + t) == t
  {
    assert ([blank] + t)[1..] == t;
    assert TrimStart([blank] + t) == TrimStart(t);
    TrimOfUnblank(t);
  }

  /** The index of the first `c` in `s`, or `|s|` when there is none. */
  function IndexOf(s: string, c: char): (i: nat)
    ensures i <= |s|
    ensures i < |s| ==> s[i] == c
    ensures forall j :: 0 <= j < i ==> s[j] != c
  {
    if s == [] then 0 else if s[0] == c then 0 else 1 + IndexOf(s[1..], c)
  }

  /** `s.split(sep)` for a one-character separator: always at least one part, none holding `sep`. */
  function Split(s: string, sep: char): (parts: seq<string>)
    ensures |parts| >= 1
    ensures forall k :: 0 <= k < |parts| ==> sep !in parts[k]
    decreases |s|
  {
    var i := IndexOf(s, sep);
    if i == |s| then [s] else [s[..i]] + Split(s[i + 1..], sep)
  }

  /** `parts.join(sep)`. */
  function Join(parts: seq<string>, sep: char): string {
    if parts == [] then ""
    else if |parts| == 1 then parts[0]
    else parts[0] + [sep] + Join(parts[1..], sep)
  }

  /** Joining a first part onto at least one more puts the separator between them. */
  lemma JoinCons(p: string, rest: seq<string>, sep: char)
    requires rest != []
    ensures Join([p] + rest, sep) == p + [sep] + Join(rest, sep)
  {
    assert ([p] + rest)[0] == p && ([p] + rest)[1..] == rest;
  }

  /** A string with a separator is the part before it, the separator and the rest; its split says so too. */
  lemma SplitAtFirst(s: string, sep: char)
    requires IndexOf(s, sep) < |s|
    ensures var i := IndexOf(s, sep);
      s == s[..i] + [sep] + s[i + 1..] && Split(s, sep) == [s[..i]] + Split(s[i + 1..], sep)
  {
  }

  /** Joining the parts of a split gives back the original string. */
  lemma {:induction false} JoinSplit(s: string, sep: char)
    ensures Join(Split(s, sep), sep) == s
    decreases |s|
  {
    var i := IndexOf(s, sep);
    if i < |s| {
      SplitAtFirst(s, sep);
      JoinCons(s[..i], Split(s[i + 1..], sep), sep);
      JoinSplit(s[i + 1..], sep);
    }
  }

  /** The first separator of `p + [sep] + t` is the one after `p`, when `p` holds none. */
  lemma {:induction false} IndexOfAfterPart(p: string, t: string, sep: char)
    requires sep !in p
    ensures IndexOf(p + [sep] + t, sep) == |p|
  {
    if p != [] {
      assert (p + [sep] + t)[1..] == p[1..] + [sep] + t;
      IndexOfAfterPart(p[1..], t, sep);
    }
  }

  /** Splitting a join gives back the parts, when no part holds the separator. */
  lemma {:induction false} SplitJoin(parts: seq<string>, sep: char)
    requires |parts| >= 1
    requires forall k :: 0 <= k < |parts| ==> sep !in parts[k]
    ensures Split(Join(parts, sep), sep) == parts
  {
    if |parts| > 1 {
      var p, rest := parts[0], parts[1..];
      var t := Join(rest, sep);
      var s := p + [sep] + t;
      assert [p] + rest == parts;
      JoinCons(p, rest, sep);
      IndexOfAfterPart(p, t, sep);
      assert s[..|p|] == p && s[|p| + 1..] == t;
      SplitJoin(rest, sep);
    } else {
      assert IndexOf(parts[0], sep) == |parts[0]|;
    }
  }

  function ToLowerAsciiChar(c: char): char {
    if 'A' <= c <= 'Z' then (c as int + 32) as char else c
  }

  /**
   * `String.prototype.toLowerCase` on the ASCII letters. The codec only
   * compares a lowered string with "true", "false", "null" and
   * "undefined". Every other character lowers to text holding a non-ASCII
   * character or the letter `k` (U+212A lowers to `k`, U+0130 to `i` and
   * U+0307), and none of those occurs in the four words: a string with such
   * a character equals none of them, lowered either way.
   */
  function ToLowerAscii(s: string): (t: string)
    ensures |t| == |s|
    ensures forall i :: 0 <= i < |s| ==> t[i] == ToLowerAsciiChar(s[i])
  {
    if s == [] then [] else [ToLowerAsciiChar(s[0])] + ToLowerAscii(s[1..])
  }

  /** `text` spells the lower-case word `lower` with each letter in either case; `upper` is the word in capitals. */
  predicate SpellsIgnoringCase(text: string, lower: string, upper: string) {
    && |text| == |lower| && |upper| == |lower|
    && forall i :: 0 <= i < |lower| ==> text[i] == lower[i] || text[i] == upper[i]
  }

  /** A string lowers to a lower-case word exactly when it spells that word in any mix of cases. */
  lemma ToLowerAsciiSpells(text: string, lower: string, upper: string)
    requires |upper| == |lower|
    requires forall i :: 0 <= i < |lower| ==> 'a' <= lower[i] <= 'z' && upper[i] as int == lower[i] as int - 32
    ensures ToLowerAscii(text) == lower <==> SpellsIgnoringCase(text, lower, upper)
  {
    var t := ToLowerAscii(text);
    if SpellsIgnoringCase(text, lower, upper) {
      assert forall i :: 0 <= i < |lower| ==> t[i] == lower[i];
    }
  }
}
