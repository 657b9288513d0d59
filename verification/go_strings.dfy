/**
 * The part of Go's `strings` and `strconv` packages the operator relies on,
 * over `string` = `seq<char>`. Case mapping covers ASCII letters only.
 */
module GoStrings {

  /** `sub` occurs in `s` starting at position `i`. */
  predicate OccursAt(s: string, sub: string, i: int) {
    0 <= i && i + |sub| <= |s| && s[i..i + |sub|] == sub
  }

  /** `strings.Index`: the first position where `sub` occurs in `s`, or -1. */
  function Index(s: string, sub: string): (r: int)
    ensures -1 <= r <= |s|
    ensures r >= 0 ==> OccursAt(s, sub, r)
    ensures r >= 0 ==> forall i :: 0 <= i < r ==> !OccursAt(s, sub, i)
    ensures r == -1 ==> forall i :: !OccursAt(s, sub, i)
    decreases |s|
  {
    if |s| < |sub| then
      assert forall i :: !OccursAt(s, sub, i);
      -1
    else if s[..|sub|] == sub then 0
    else
      var k := Index(s[1..], sub);
      ShiftOccurrence(s, sub);
      assert !OccursAt(s, sub, 0) by { assert s[0..|sub|] == s[..|sub|]; }
      if k < 0 then -1 else k + 1
  }

  /** An occurrence at `i` in `s`, past the first position, is one at `i - 1` in `s[1..]`. */
  lemma ShiftOccurrence(s: string, sub: string)
    requires |s| > 0
    ensures forall i :: 1 <= i ==> (OccursAt(s, sub, i) <==> OccursAt(s[1..], sub, i - 1))
  {
    forall i | 1 <= i
      ensures OccursAt(s, sub, i) <==> OccursAt(s[1..], sub, i - 1)
    {
      if i + |sub| <= |s| {
        var a, b := s[i..i + |sub|], s[1..][i - 1..i - 1 + |sub|];
        assert |a| == |b|;
        assert forall k :: 0 <= k < |a| ==> a[k] == s[i + k] == b[k];
        assert a == b;
      }
    }
  }

  /** `strings.Contains`: `sub` occurs somewhere in `s`. */
  predicate Contains(s: string, sub: string)
    ensures Contains(s, sub) <==> exists i :: OccursAt(s, sub, i)
  {
    Index(s, sub) >= 0
  }

  /** `strings.Replace(s, pattern, replacement, 1)`: only the first occurrence is replaced. */
  function ReplaceFirst(s: string, pattern: string, replacement: string): (r: string)
    ensures !Contains(s, pattern) ==> r == s
    ensures Contains(s, pattern) ==>
      r == s[..Index(s, pattern)] + replacement + s[Index(s, pattern) + |pattern|..]
  {
    var i := Index(s, pattern);
    if i < 0 then s else s[..i] + replacement + s[i + |pattern|..]
  }

  /** `strings.Replace(s, "\"", "\\\"", -1)`: every double quote gets a backslash before it. */
  function EscapeQuotes(s: string): (r: string)
    ensures |r| >= |s|
  {
    if s == [] then []
    else if s[0] == '"' then ['\\', '"'] + EscapeQuotes(s[1..])
    else [s[0]] + EscapeQuotes(s[1..])
  }

  /** The reading a JSON parser gives a string: `\"` stands for `"`. */
  function UnescapeQuotes(s: string): string
    decreases |s|
  {
    if s == [] then []
    else if |s| >= 2 && s[0] == '\\' && s[1] == '"' then ['"'] + UnescapeQuotes(s[2..])
    else [s[0]] + UnescapeQuotes(s[1..])
  }

  /** Escaping loses nothing: the escaped text reads back as the original. */
  lemma {:induction false} UnescapeEscape(s: string)
    ensures UnescapeQuotes(EscapeQuotes(s)) == s
  {
    if s != [] {
      UnescapeEscape(s[1..]);
      if s[0] == '"' {
        assert (['\\', '"'] + EscapeQuotes(s[1..]))[2..] == EscapeQuotes(s[1..]);
      } else {
        var e := [s[0]] + EscapeQuotes(s[1..]);
        assert e[1..] == EscapeQuotes(s[1..]);
        if |e| >= 2 && e[0] == '\\' {
          EscapeStartsWithoutQuote(s[1..]);
        }
      }
    }
  }

  /** An escaped text never begins with a bare double quote. */
  lemma EscapeStartsWithoutQuote(s: string)
    ensures EscapeQuotes(s) == [] || EscapeQuotes(s)[0] != '"'
  {
  }

  /** Every double quote in an escaped text follows a backslash. */
  lemma {:induction false} EscapedQuotesArePreceded(s: string)
    ensures forall i :: 0 <= i < |EscapeQuotes(s)| && EscapeQuotes(s)[i] == '"' ==>
      i > 0 && EscapeQuotes(s)[i - 1] == '\\'
  {
    if s != [] {
      EscapedQuotesArePreceded(s[1..]);
      var tail := EscapeQuotes(s[1..]);
      EscapeStartsWithoutQuote(s[1..]);
      if s[0] == '"' {
        assert EscapeQuotes(s) == ['\\', '"'] + tail;
      } else {
        assert EscapeQuotes(s) == [s[0]] + tail;
      }
    }
  }

  function LowerChar(c: char): char {
    if 'A' <= c <= 'Z' then (c as int + 32) as char else c
  }

  function UpperChar(c: char): char {
    if 'a' <= c <= 'z' then (c as int - 32) as char else c
  }

  /** `strings.ToLower` on ASCII letters. */
  function ToLower(s: string): (r: string)
    ensures |r| == |s|
    ensures forall i :: 0 <= i < |s| ==> r[i] == LowerChar(s[i])
  {
    seq(|s|, i requires 0 <= i < |s| => LowerChar(s[i]))
  }

  /** `strings.ToUpper` on ASCII letters. */
  function ToUpper(s: string): (r: string)
    ensures |r| == |s|
    ensures forall i :: 0 <= i < |s| ==> r[i] == UpperChar(s[i])
  {
    seq(|s|, i requires 0 <= i < |s| => UpperChar(s[i]))
  }

  /** The first position of `c` in `s`. */
  function IndexChar(s: string, c: char): (r: nat)
    requires c in s
    ensures r < |s| && s[r] == c && c !in s[..r]
  {
    if s[0] == c then 0 else 1 + IndexChar(s[1..], c)
  }

  /** `strings.Split(s, string(sep))`: the pieces between the separators, never an empty list. */
  function Split(s: string, sep: char): (parts: seq<string>)
    ensures |parts| >= 1
    ensures forall i :: 0 <= i < |parts| ==> sep !in parts[i]
    decreases |s|
  {
    if sep !in s then [s]
    else
      var i := IndexChar(s, sep);
      [s[..i]] + Split(s[i + 1..], sep)
  }

  /** `strings.Join(parts, string(sep))`. */
  function Join(parts: seq<string>, sep: char): string
    requires |parts| >= 1
  {
    if |parts| == 1 then parts[0] else parts[0] + [sep] + Join(parts[1..], sep)
  }

  /** The joined text starts with the first piece and, past it, a separator, and ends with the last piece. */
  lemma {:induction false} JoinEnds(parts: seq<string>, sep: char)
    requires |parts| >= 1
    ensures var r := Join(parts, sep);
      && r[..|parts[0]|] == parts[0]
      && (|parts| > 1 ==> r[|parts[0]|] == sep)
      && |r| >= |parts[|parts| - 1]| && r[|r| - |parts[|parts| - 1]|..] == parts[|parts| - 1]
  {
    if |parts| > 1 {
      var rest := Join(parts[1..], sep);
      JoinEnds(parts[1..], sep);
      var r := parts[0] + [sep] + rest;
      assert r[..|parts[0]|] == parts[0];
      assert r[|r| - |parts[|parts| - 1]|..] == rest[|rest| - |parts[|parts| - 1]|..];
    }
  }

  /** Splitting and joining again gives back the text. */
  lemma {:induction false} JoinSplit(s: string, sep: char)
    ensures Join(Split(s, sep), sep) == s
    decreases |s|
  {
    if sep in s {
      var i := IndexChar(s, sep);
      JoinSplit(s[i + 1..], sep);
      assert s == s[..i] + [sep] + s[i + 1..];
    }
  }

  /** Joining pieces free of the separator and splitting again gives back the pieces. */
  lemma {:induction false} SplitJoin(parts: seq<string>, sep: char)
    requires |parts| >= 1
    requires forall i :: 0 <= i < |parts| ==> sep !in parts[i]
    ensures Split(Join(parts, sep), sep) == parts
  {
    if |parts| > 1 {
      var s := Join(parts, sep);
      SplitJoin(parts[1..], sep);
      assert s == parts[0] + [sep] + Join(parts[1..], sep);
      assert s[|parts[0]|] == sep;
      assert s[..|parts[0]|] == parts[0];
      assert IndexChar(s, sep) == |parts[0]|;
      assert s[|parts[0]| + 1..] == Join(parts[1..], sep);
    }
  }

  /** `strconv.FormatBool`. */
  function FormatBool(b: bool): (r: string)
    ensures r == "true" || r == "false"
  {
    if b then "true" else "false"
  }

  /** `strconv.ParseBool`: the parsed value and whether parsing succeeded; a failure reads as false. */
  function ParseBool(s: string): (r: (bool, bool))
    ensures !r.1 ==> !r.0
    ensures r.0 <==> s in {"1", "t", "T", "TRUE", "true", "True"}
    ensures r.1 <==> s in {"1", "t", "T", "TRUE", "true", "True", "0", "f", "F", "FALSE", "false", "False"}
  {
    if s in {"1", "t", "T", "TRUE", "true", "True"} then (true, true)
    else if s in {"0", "f", "F", "FALSE", "false", "False"} then (false, true)
    else (false, false)
  }

  /** A formatted boolean parses back to itself. */
  lemma ParseFormatBool(b: bool)
    ensures ParseBool(FormatBool(b)) == (b, true)
  {
  }
}
