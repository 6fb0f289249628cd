/**
 * The few .NET string operations the library relies on: whitespace trimming
 * (String.Trim, String.TrimEnd(char[])), String.Split on the Windows line
 * break with empty entries removed, and decimal rendering of integers.
 */
module Text {
  import opened Wrappers

  /** Environment.NewLine on the Windows platform the library targets. */
  const NewLine: string := "\r\n"

  /** Char.IsWhiteSpace: the Unicode White_Space characters. */
  predicate IsWhiteSpace(c: char) {
    c == ' ' || ('\t' <= c <= '\r') || c == '\U{85}' || c == '\U{A0}' || c == '\U{1680}'
    || ('\U{2000}' <= c <= '\U{200A}') || c == '\U{2028}' || c == '\U{2029}'
    || c == '\U{202F}' || c == '\U{205F}' || c == '\U{3000}'
  }

  /** A string made of whitespace only (the empty string included). */
  predicate Blank(s: string) {
    forall i :: 0 <= i < |s| ==> IsWhiteSpace(s[i])
  }

  /** The null-coalescing `s ?? string.Empty`. */
  function OrEmpty(s: Option<string>): string {
    if s.Some? then s.value else ""
  }

  /** C# `a + b` on two possibly-null strings: null reads as "" and the result is never null. */
  function Plus(a: Option<string>, b: Option<string>): string {
    OrEmpty(a) + OrEmpty(b)
  }

  /** String.TrimStart(): drops the leading whitespace. */
  function TrimStart(s: string): (r: string)
    ensures |r| <= |s| && r == s[|s| - |r|..]
    ensures r == [] || !IsWhiteSpace(r[0])
    ensures Blank(s[..|s| - |r|])
  {
    if s != [] && IsWhiteSpace(s[0]) then TrimStart(s[1..]) else s
  }

  /** String.TrimEnd(): drops the trailing whitespace. */
  function TrimEnd(s: string): (r: string)
    ensures |r| <= |s| && r == s[..|r|]
    ensures r == [] || !IsWhiteSpace(r[|r| - 1])
    ensures Blank(s[|r|..])
  {
    if s != [] && IsWhiteSpace(s[|s| - 1]) then
      var r := TrimEnd(s[..|s| - 1]);
      assert s[|r|..] == s[..|s| - 1][|r|..] + [s[|s| - 1]];
      r
    else s
  }

  /** String.Trim(). */
  function Trim(s: string): (r: string)
  {
    TrimStart(TrimEnd(s))
  }

  /** Trimming leaves nothing exactly when the string is all whitespace. */
  lemma TrimEmptyIffBlank(s: string)
    ensures Trim(s) == [] <==> Blank(s)
  {
    var e := TrimEnd(s);
    if Trim(s) == [] {
      assert Blank(e[..|e|]);
      forall i | 0 <= i < |s| ensures IsWhiteSpace(s[i]) {
        if i < |e| {
          assert s[i] == e[..|e|][i];
        } else {
          assert s[i] == s[|e|..][i - |e|];
        }
      }
    }
  }

  lemma BlankConcat(a: string, b: string)
    ensures Blank(a + b) <==> Blank(a) && Blank(b)
  {
    if Blank(a + b) {
      forall i | 0 <= i < |a| ensures IsWhiteSpace(a[i]) {
        assert a[i] == (a + b)[i];
      }
      forall i | 0 <= i < |b| ensures IsWhiteSpace(b[i]) {
        assert b[i] == (a + b)[|a| + i];
      }
    }
    if Blank(a) && Blank(b) {
      forall i | 0 <= i < |a + b| ensures IsWhiteSpace((a + b)[i]) {
        if i < |a| { assert (a + b)[i] == a[i]; } else { assert (a + b)[i] == b[i - |a|]; }
      }
    }
  }

  /**
   * r is s without its surrounding whitespace: a piece of s with only
   * whitespace around it in s, and neither starting nor ending with
   * whitespace itself.
   */
  predicate TrimmedFrom(s: string, r: string) {
    (r == [] || (!IsWhiteSpace(r[0]) && !IsWhiteSpace(r[|r| - 1]))) &&
    exists lo :: 0 <= lo && lo + |r| <= |s| && s[lo..lo + |r|] == r && Blank(s[..lo]) && Blank(s[lo + |r|..])
  }

  /** Trim keeps the piece between the first and last non-whitespace characters and drops only whitespace. */
  lemma TrimSlice(s: string)
    ensures TrimmedFrom(s, Trim(s))
  {
    var e := TrimEnd(s);
    var r := Trim(s);
    var lo := |e| - |r|;
    assert s[lo..lo + |r|] == e[lo..];
    assert s[..lo] == e[..lo];
    assert 0 <= lo && lo + |r| <= |s| && s[lo..lo + |r|] == r && Blank(s[..lo]) && Blank(s[lo + |r|..]);
    if r != [] {
      assert r[|r| - 1] == e[|e| - 1];
    }
  }

  /** A string holding a character that is not whitespace does not trim away. */
  lemma TrimKeeps(s: string, i: nat)
    requires i < |s| && !IsWhiteSpace(s[i])
    ensures Trim(s) != []
  {
    TrimEmptyIffBlank(s);
  }

  /** A string that neither starts nor ends with whitespace is its own trim. */
  lemma TrimUntouched(s: string)
    requires s == [] || (!IsWhiteSpace(s[0]) && !IsWhiteSpace(s[|s| - 1]))
    ensures Trim(s) == s
  {
  }

  /** Trimming keeps a leading piece that neither starts nor ends with whitespace. */
  lemma TrimKeepsPrefix(p: string, q: string)
    requires p != [] && !IsWhiteSpace(p[0]) && !IsWhiteSpace(p[|p| - 1])
    ensures p <= Trim(p + q)
  {
    var s := p + q;
    var e := TrimEnd(s);
    assert |p| <= |e|;
    assert e[..|p|] == s[..|p|] == p;
    assert e[0] == p[0];
  }

  /** String.TrimEnd(chars): drops every trailing character that belongs to `cs`. */
  function TrimEndOf(s: string, cs: set<char>): (r: string)
    ensures |r| <= |s| && r == s[..|r|]
    ensures r == [] || r[|r| - 1] !in cs
    ensures forall i :: |r| <= i < |s| ==> s[i] in cs
  {
    if s != [] && s[|s| - 1] in cs then TrimEndOf(s[..|s| - 1], cs) else s
  }

  // ----- String.Split(new[] {"\r\n"}, StringSplitOptions.None / RemoveEmptyEntries) -----

  /** The pieces of `s` between occurrences of "\r\n", scanned left to right (empties kept). */
  function Segments(s: string): (r: seq<string>)
    ensures |r| >= 1
  {
    if |s| < 2 then [s]
    else if IsBreakAt(s, 0) then [""] + Segments(s[2..])
    else
      var rest := Segments(s[1..]);
      [[s[0]] + rest[0]] + rest[1..]
  }

  /** String.Join("\r\n", parts). */
  function JoinLines(parts: seq<string>): string
  {
    if parts == [] then ""
    else if |parts| == 1 then parts[0]
    else parts[0] + NewLine + JoinLines(parts[1..])
  }

  /** "\r\n" starts at position i of s. */
  predicate IsBreakAt(s: string, i: nat) {
    i + 1 < |s| && s[i] == '\r' && s[i + 1] == '\n'
  }

  /** No piece still holds a line break. */
  predicate NoLineBreak(s: string) {
    forall i :: 0 <= i < |s| ==> !IsBreakAt(s, i)
  }

  /** Splitting on "\r\n" and joining again gives the string back. */
  lemma {:induction false} SegmentsJoin(s: string)
    ensures JoinLines(Segments(s)) == s
    decreases |s|, 1
  {
    if |s| < 2 {
    } else if IsBreakAt(s, 0) {
      SegmentsJoinAtBreak(s);
    } else {
      SegmentsJoinAtChar(s);
    }
  }

  lemma {:induction false} SegmentsJoinAtBreak(s: string)
    requires |s| >= 2 && IsBreakAt(s, 0)
    ensures JoinLines(Segments(s)) == s
    decreases |s|, 0
  {
    SegmentsJoin(s[2..]);
    var rest := Segments(s[2..]);
    assert Segments(s) == [""] + rest;
    assert JoinLines(Segments(s)) == "" + NewLine + JoinLines(rest);
    assert s == NewLine + s[2..];
  }

  lemma {:induction false} SegmentsJoinAtChar(s: string)
    requires |s| >= 2 && !IsBreakAt(s, 0)
    ensures JoinLines(Segments(s)) == s
    decreases |s|, 0
  {
    SegmentsJoin(s[1..]);
    var rest := Segments(s[1..]);
    assert Segments(s) == [[s[0]] + rest[0]] + rest[1..];
    JoinHead(s[0], rest);
    assert s == [s[0]] + s[1..];
  }

  /** Prepending a character to the first part prepends it to the joined text. */
  lemma JoinHead(c: char, parts: seq<string>)
    requires |parts| >= 1
    ensures JoinLines([[c] + parts[0]] + parts[1..]) == [c] + JoinLines(parts)
  {
    var segs := [[c] + parts[0]] + parts[1..];
    if |parts| > 1 {
      assert segs[0] == [c] + parts[0] && segs[1..] == parts[1..];
      ConcatAssoc4([c], parts[0], NewLine, JoinLines(parts[1..]));
    }
  }

  lemma AppendAssoc(a: string, b: string, c: string)
    ensures a + b + c == a + (b + c)
  {
  }

  lemma ConcatAssoc4(a: string, b: string, c: string, d: string)
    ensures a + b + c + d == a + (b + c + d)
  {
  }

  /** No piece of the split still holds the separator. */
  lemma {:induction false} SegmentsHaveNoBreak(s: string)
    ensures forall k :: 0 <= k < |Segments(s)| ==> NoLineBreak(Segments(s)[k])
  {
    if |s| < 2 {
    } else if IsBreakAt(s, 0) {
      SegmentsHaveNoBreak(s[2..]);
    } else {
      SegmentsHaveNoBreak(s[1..]);
      SegmentsJoin(s[1..]);
      var rest := Segments(s[1..]);
      HeadNoLineBreak(s, rest);
    }
  }

  lemma HeadNoLineBreak(s: string, rest: seq<string>)
    requires |s| >= 2 && !IsBreakAt(s, 0) && rest == Segments(s[1..])
    requires forall k :: 0 <= k < |rest| ==> NoLineBreak(rest[k])
    requires JoinLines(rest) == s[1..]
    ensures NoLineBreak([s[0]] + rest[0])
  {
    var t := rest[0];
    var h := [s[0]] + t;
    JoinPrefix(rest);
    forall i | 0 <= i < |h| ensures !IsBreakAt(h, i) {
      if i == 0 {
        if |t| > 0 {
          assert h[1] == t[0] == s[1];
        }
      } else {
        assert h[i] == t[i - 1];
        if i + 1 < |h| { assert h[i + 1] == t[i]; }
        assert !IsBreakAt(t, i - 1);
      }
    }
  }

  lemma JoinPrefix(parts: seq<string>)
    requires parts != []
    ensures |parts[0]| <= |JoinLines(parts)| && JoinLines(parts)[..|parts[0]|] == parts[0]
  {
    if |parts| > 1 {
      assert JoinLines(parts) == parts[0] + (NewLine + JoinLines(parts[1..]));
    }
  }

  /** The non-empty pieces, in order: String.Split with RemoveEmptyEntries. */
  function NonEmpty(parts: seq<string>): (r: seq<string>)
    ensures forall k :: 0 <= k < |r| ==> r[k] != []
  {
    if parts == [] then []
    else if parts[0] == [] then NonEmpty(parts[1..])
    else [parts[0]] + NonEmpty(parts[1..])
  }

  function SplitLines(s: string): seq<string>
  {
    NonEmpty(Segments(s))
  }

  /** A string that is not all whitespace splits into at least one line. */
  lemma {:induction false} SplitLinesOfNonBlank(s: string)
    requires !Blank(s)
    ensures SplitLines(s) != []
  {
    SegmentsJoin(s);
    if NonEmpty(Segments(s)) == [] {
      AllEmptyJoinBlank(Segments(s));
      assert false;
    }
  }

  lemma {:induction false} AllEmptyJoinBlank(parts: seq<string>)
    requires NonEmpty(parts) == []
    ensures Blank(JoinLines(parts))
  {
    if |parts| > 1 {
      AllEmptyJoinBlank(parts[1..]);
      assert parts[0] == [];
      BlankConcat(NewLine, JoinLines(parts[1..]));
      assert JoinLines(parts) == [] + NewLine + JoinLines(parts[1..]);
    } else if |parts| == 1 {
      assert parts[0] == [];
    }
  }

  // ----- integer rendering, as string.Format("{0}", n) -----

  /** The decimal digit for d. */
  function DigitChar(d: nat): (c: char)
    requires d < 10
    ensures '0' <= c <= '9' && (c as int) - ('0' as int) == d
  {
    (('0' as int) + d) as char
  }

  predicate AllDigits(s: string) {
    forall i :: 0 <= i < |s| ==> '0' <= s[i] <= '9'
  }

  /** The number a string of decimal digits spells, most significant digit first. */
  function DigitsValue(s: string): nat
    requires AllDigits(s)
  {
    if s == [] then 0 else DigitsValue(s[..|s| - 1]) * 10 + ((s[|s| - 1] as int) - ('0' as int))
  }

  /** The decimal rendering of n: "{0}" formatting of a non-negative integer. */
  function NatToString(n: nat): (r: string)
    ensures r != [] && AllDigits(r)
  {
    if n < 10 then [DigitChar(n)] else NatToString(n / 10) + [DigitChar(n % 10)]
  }

  /** The digits spell n, with no leading zero. */
  lemma {:induction false} NatToStringValue(n: nat)
    ensures DigitsValue(NatToString(n)) == n
    ensures |NatToString(n)| == 1 || NatToString(n)[0] != '0'
  {
    var r := NatToString(n);
    if n >= 10 {
      NatToStringValue(n / 10);
      assert r[..|r| - 1] == NatToString(n / 10);
      assert r[0] == NatToString(n / 10)[0];
      if |NatToString(n / 10)| == 1 {
        assert n / 10 > 0;
      }
    }
  }

  /** The decimal rendering of n, with a leading '-' exactly when n is negative. */
  function IntToString(n: int): (r: string)
    ensures r != [] && (r[0] == '-' <==> n < 0)
    ensures AllDigits(if n < 0 then r[1..] else r)
  {
    if n < 0 then
      var d := NatToString(-n);
      assert ("-" + d)[1..] == d;
      "-" + d
    else NatToString(n)
  }

  /** The digits after the optional sign spell the magnitude of n. */
  lemma IntToStringValue(n: int)
    ensures var r := IntToString(n);
      DigitsValue(if n < 0 then r[1..] else r) == if n < 0 then -n else n
  {
    if n < 0 {
      NatToStringValue(-n);
      assert IntToString(n)[1..] == NatToString(-n);
    } else {
      NatToStringValue(n);
    }
  }
}
