/** Foundation's `UUID`: 32 hexadecimal digits, written 8-4-4-4-12 by `uuidString`. */
module Uuid {
  import opened Wrappers

  type Nibble = x: int | 0 <= x < 16

  /** The 32 hex digits of an identifier, most significant first. */
  type Uuid = s: seq<Nibble> | |s| == 32 witness seq(32, i => 0)

  /** Positions of the four hyphens in the 36-character text form. */
  predicate IsHyphenPos(i: int) { i == 8 || i == 13 || i == 18 || i == 23 }

  /** Position in the text form of the k-th hex digit. */
  function DigitPos(k: nat): (p: nat)
    requires k < 32
    ensures p < 36 && !IsHyphenPos(p)
  {
    if k < 8 then k else if k < 12 then k + 1 else if k < 16 then k + 2 else if k < 20 then k + 3 else k + 4
  }

  /** Which hex digit sits at a non-hyphen position of the text form. */
  function DigitIndex(p: nat): (k: nat)
    requires p < 36 && !IsHyphenPos(p)
    ensures k < 32 && DigitPos(k) == p
  {
    if p < 8 then p else if p < 13 then p - 1 else if p < 18 then p - 2 else if p < 23 then p - 3 else p - 4
  }

  predicate IsHexDigit(c: char)
  {
    ('0' <= c <= '9') || ('a' <= c <= 'f') || ('A' <= c <= 'F')
  }

  function HexValue(c: char): Nibble
    requires IsHexDigit(c)
  {
    if '0' <= c <= '9' then c as int - '0' as int
    else if 'a' <= c <= 'f' then c as int - 'a' as int + 10
    else c as int - 'A' as int + 10
  }

  /** Upper-case digit, as `uuidString` writes it. */
  function HexChar(n: Nibble): (c: char)
    ensures IsHexDigit(c) && HexValue(c) == n
  {
    if n < 10 then ('0' as int + n) as char else ('A' as int + n - 10) as char
  }

  /** `uuid.uuidString`. */
  function Format(u: Uuid): (s: string)
    ensures |s| == 36
    ensures forall p :: 0 <= p < 36 && IsHyphenPos(p) ==> s[p] == '-'
    ensures forall k :: 0 <= k < 32 ==> s[DigitPos(k)] == HexChar(u[k])
  {
    seq(36, p requires 0 <= p < 36 => if IsHyphenPos(p) then '-' else HexChar(u[DigitIndex(p)]))
  }

  /** `UUID(uuidString:)`: accepts exactly 36 characters with hyphens at 8, 13, 18 and 23 and hex digits elsewhere. */
  function Parse(s: string): (r: Option<Uuid>)
    ensures r.Some? <==> |s| == 36 && forall p :: 0 <= p < 36 ==> (if IsHyphenPos(p) then s[p] == '-' else IsHexDigit(s[p]))
    ensures r.Some? ==> forall k :: 0 <= k < 32 ==> IsHexDigit(s[DigitPos(k)]) && r.value[k] == HexValue(s[DigitPos(k)])
  {
    if |s| == 36 && forall p :: 0 <= p < 36 ==> (if IsHyphenPos(p) then s[p] == '-' else IsHexDigit(s[p])) then
      Some(seq(32, k requires 0 <= k < 32 => HexValue(s[DigitPos(k)])))
    else None
  }

  /** Parsing the text form of an identifier gives the identifier back. */
  lemma ParseFormat(u: Uuid)
    ensures Parse(Format(u)) == Some(u)
  {
    var s := Format(u);
    forall p | 0 <= p < 36
      ensures if IsHyphenPos(p) then s[p] == '-' else IsHexDigit(s[p])
    {
      if !IsHyphenPos(p) { assert s[DigitPos(DigitIndex(p))] == HexChar(u[DigitIndex(p)]); }
    }
    assert Parse(s).Some?;
    var v := Parse(s).value;
    forall k | 0 <= k < 32 ensures v[k] == u[k] {
      assert s[DigitPos(k)] == HexChar(u[k]);
    }
    assert v == u;
  }
}
