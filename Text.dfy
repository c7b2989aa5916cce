/** String helpers standing in for the Foundation calls the app uses. */
module Text {
  import opened Wrappers

  /** Foundation's `CharacterSet.whitespaces`: space separators (Unicode Zs) and tab. */
  predicate IsWhitespace(c: char)
  {
    c == ' ' || c == '\t' || c == '\U{00A0}' || c == '\U{1680}' || ('\U{2000}' <= c <= '\U{200A}')
    || c == '\U{202F}' || c == '\U{205F}' || c == '\U{3000}'
  }

  /** Foundation's `CharacterSet.whitespacesAndNewlines`. */
  predicate IsWhitespaceOrNewline(c: char)
  {
    IsWhitespace(c) || ('\n' <= c <= '\r') || c == '\U{0085}' || c == '\U{2028}' || c == '\U{2029}'
  }

  /** The number of leading characters of `s` that satisfy `ws`. */
  function LeadingCount(s: string, ws: char -> bool): (n: nat)
    ensures n <= |s| && forall i :: 0 <= i < n ==> ws(s[i])
    ensures n < |s| ==> !ws(s[n])
  {
    if s == [] || !ws(s[0]) then 0 else 1 + LeadingCount(s[1..], ws)
  }

  /** The number of trailing characters of `s` that satisfy `ws`. */
  function TrailingCount(s: string, ws: char -> bool): (n: nat)
    ensures n <= |s| && forall i :: |s| - n <= i < |s| ==> ws(s[i])
    ensures n < |s| ==> !ws(s[|s| - n - 1])
  {
    if s == [] || !ws(s[|s| - 1]) then 0 else 1 + TrailingCount(s[..|s| - 1], ws)
  }

  /** Drops the leading characters that satisfy `ws`. */
  function TrimStart(s: string, ws: char -> bool): (r: string)
    ensures |r| <= |s| && r == s[|s| - |r|..]
    ensures forall i :: 0 <= i < |s| - |r| ==> ws(s[i])
    ensures r != [] ==> !ws(r[0])
  {
    s[LeadingCount(s, ws)..]
  }

  /** Drops the trailing characters that satisfy `ws`. */
  function TrimEnd(s: string, ws: char -> bool): (r: string)
    ensures |r| <= |s| && r == s[..|r|]
    ensures forall i :: |r| <= i < |s| ==> ws(s[i])
    ensures r != [] ==> !ws(r[|r| - 1])
  {
    s[..|s| - TrailingCount(s, ws)]
  }

  /** `r` is `s` with `k` characters of the set cut from the front and only characters of the set cut from the back. */
  predicate TrimmedAt(r: string, s: string, k: nat, ws: char -> bool)
  {
    && k + |r| <= |s| && r == s[k..k + |r|]
    && (forall i :: 0 <= i < k ==> ws(s[i]))
    && (forall i :: k + |r| <= i < |s| ==> ws(s[i]))
  }

  /**
   * Swift's `trimmingCharacters(in:)`: only characters of the set are cut, from the two ends, and the result neither
   * starts nor ends with one.
   */
  function Trim(s: string, ws: char -> bool): (r: string)
    ensures |r| <= |s|
    ensures IsInfix(r, s)
    ensures exists k :: TrimmedAt(r, s, k, ws)
    ensures r != [] ==> !ws(r[0]) && !ws(r[|r| - 1])
    ensures (forall i :: 0 <= i < |s| ==> ws(s[i])) ==> r == []
  {
    var t := TrimStart(s, ws);
    var r := TrimEnd(t, ws);
    var k := |s| - |t|;
    InfixAt(r, s, k);
    assert TrimmedAt(r, s, k, ws) by {
      forall i | k + |r| <= i < |s|
        ensures ws(s[i])
      {
        assert s[i] == t[i - k];
      }
    }
    r
  }

  /** A string that neither starts nor ends with a character of the set is its own trim. */
  lemma TrimKeeps(s: string, ws: char -> bool)
    requires s != [] && !ws(s[0]) && !ws(s[|s| - 1])
    ensures Trim(s, ws) == s
  {
    assert TrimStart(s, ws) == s;
  }

  lemma {:induction false} InfixAt(needle: string, hay: string, i: nat)
    requires i + |needle| <= |hay| && hay[i..i + |needle|] == needle
    ensures IsInfix(needle, hay)
    decreases i
  {
    if i > 0 {
      assert hay[1..][i - 1..i - 1 + |needle|] == needle;
      InfixAt(needle, hay[1..], i - 1);
    }
  }

  /** Lower-case mapping of the ASCII letters. */
  function LowerChar(c: char): (r: char)
    ensures 'A' <= c <= 'Z' ==> 'a' <= r <= 'z'
    ensures !('A' <= c <= 'Z') ==> r == c
  {
    if 'A' <= c <= 'Z' then (c as int + 32) as char else c
  }

  function Lowercased(s: string): (r: string)
    ensures |r| == |s| && forall i :: 0 <= i < |s| ==> r[i] == LowerChar(s[i])
  {
    seq(|s|, i requires 0 <= i < |s| => LowerChar(s[i]))
  }

  /** Case-insensitive equality (`compare(_:options: .caseInsensitive) == .orderedSame`). */
  predicate EqualsIgnoringCase(a: string, b: string)
  {
    Lowercased(a) == Lowercased(b)
  }

  predicate HasPrefix(s: string, p: string)
  {
    |p| <= |s| && s[..|p|] == p
  }

  /** `needle` occurs as a contiguous part of `hay`. */
  predicate IsInfix(needle: string, hay: string)
    decreases |hay|
  {
    HasPrefix(hay, needle) || (hay != [] && IsInfix(needle, hay[1..]))
  }

  /** `localizedCaseInsensitiveContains`, folded to ASCII case. */
  predicate ContainsIgnoringCase(hay: string, needle: string)
  {
    IsInfix(Lowercased(needle), Lowercased(hay))
  }

  /** Swift's `String.prefix(n)`: at most the first `n` characters. */
  function Prefix(s: string, n: nat): (r: string)
    ensures |r| <= n && |r| <= |s|
    ensures r == s[..|r|]
    ensures |s| <= n ==> r == s
    ensures n < |s| ==> |r| == n
  {
    if |s| <= n then s else s[..n]
  }

  /** Swift's `lastIndex(of:)`. */
  function LastIndexOf(s: string, c: char): (r: Option<nat>)
    ensures r.Some? ==> r.value < |s| && s[r.value] == c && forall j :: r.value < j < |s| ==> s[j] != c
    ensures r.None? ==> c !in s
  {
    if s == [] then None
    else if s[|s| - 1] == c then Some(|s| - 1)
    else LastIndexOf(s[..|s| - 1], c)
  }

  predicate IsDigit(c: char) { '0' <= c <= '9' }

  /** Decimal rendering of a natural number, as string interpolation prints it. */
  function NatToDecimal(n: nat): (r: string)
    ensures r != [] && forall i :: 0 <= i < |r| ==> IsDigit(r[i])
  {
    if n < 10 then [('0' as int + n) as char]
    else NatToDecimal(n / 10) + [('0' as int + n % 10) as char]
  }

  /** Decimal rendering of an integer, with a leading `-` when negative. */
  function IntToDecimal(n: int): (r: string)
    ensures r != []
    ensures forall i :: 0 < i < |r| ==> IsDigit(r[i])
    ensures (n < 0) <==> r[0] == '-'
  {
    if n < 0 then "-" + NatToDecimal(-n) else NatToDecimal(n)
  }

  /** The number a string of digits spells (the inverse of NatToDecimal). */
  function DecimalValue(s: string): nat
  {
    if s == [] then 0
    else
      var d := s[|s| - 1] as int - '0' as int;
      DecimalValue(s[..|s| - 1]) * 10 + (if 0 <= d < 10 then d else 0)
  }

  lemma {:induction false} DecimalRoundTrip(n: nat)
    ensures DecimalValue(NatToDecimal(n)) == n
  {
    if n >= 10 {
      var s := NatToDecimal(n);
      assert s[..|s| - 1] == NatToDecimal(n / 10);
      DecimalRoundTrip(n / 10);
    }
  }

  lemma IntToDecimalInjective(a: int, b: int)
    requires IntToDecimal(a) == IntToDecimal(b)
    ensures a == b
  {
    if a < 0 {
      assert IntToDecimal(a)[1..] == NatToDecimal(-a);
      assert IntToDecimal(b)[1..] == NatToDecimal(-b);
      DecimalRoundTrip(-a);
      DecimalRoundTrip(-b);
    } else {
      DecimalRoundTrip(a);
      DecimalRoundTrip(b);
    }
  }
}
