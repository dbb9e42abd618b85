/**
 * Python's `int(s)` on a `str`, for ASCII digits, and the decimal text of a natural number
 * that it reads back.
 */
module PyInt {
  import opened Wrappers
  import opened PyStr

  predicate IsDigit(c: char)
  {
    '0' <= c <= '9'
  }

  /** `s` without its leading whitespace. */
  function LStripSpace(s: string): (r: string)
    ensures |r| <= |s| && r == s[|s| - |r|..]
    ensures r == [] || !IsSpace(r[0])
  {
    if s != [] && IsSpace(s[0]) then LStripSpace(s[1..]) else s
  }

  /** `s` without its trailing whitespace. */
  function RStripSpace(s: string): (r: string)
    ensures |r| <= |s| && r == s[..|r|]
    ensures r == [] || !IsSpace(r[|r| - 1])
  {
    if s != [] && IsSpace(s[|s| - 1]) then RStripSpace(s[..|s| - 1]) else s
  }

  /** Python's `s.strip()`. */
  function StripSpace(s: string): string
  {
    RStripSpace(LStripSpace(s))
  }

  /** The digits of an integer literal: digits, with single underscores between digits. */
  predicate DigitRun(b: string)
  {
    && |b| > 0 && IsDigit(b[0]) && IsDigit(b[|b| - 1])
    && (forall k :: 0 <= k < |b| ==> IsDigit(b[k]) || b[k] == '_')
    && (forall i, j :: 0 <= i < |b| && 0 <= j < |b| && j == i + 1 ==> b[i] != '_' || b[j] != '_')
  }

  /** The value of the digits of `b`, the underscores left out. */
  function DigitsValue(b: string): nat
  {
    if b == [] then 0
    else
      var last := b[|b| - 1];
      if IsDigit(last) then DigitsValue(b[..|b| - 1]) * 10 + (last as int - '0' as int)
      else DigitsValue(b[..|b| - 1])
  }

  /** Python's `int(s)`: surrounding whitespace, an optional sign, then a digit run; anything
      else raises `ValueError`. */
  function ParseInt(s: string): (r: Result<int>)
    ensures r.Err? ==> r.error == ValueError
  {
    ParseSigned(StripSpace(s))
  }

  /** An optional sign, then a digit run. */
  function ParseSigned(t: string): (r: Result<int>)
    ensures r.Err? ==> r.error == ValueError
  {
    if |t| > 0 && t[0] == '-' then
      if DigitRun(t[1..]) then Ok(0 - DigitsValue(t[1..])) else Err(ValueError)
    else if |t| > 0 && t[0] == '+' then
      if DigitRun(t[1..]) then Ok(DigitsValue(t[1..])) else Err(ValueError)
    else if DigitRun(t) then Ok(DigitsValue(t))
    else Err(ValueError)
  }

  function DigitChar(d: nat): char
    requires d < 10
  {
    ('0' as int + d) as char
  }

  /** `str(n)` for a natural number. */
  function NatToString(n: nat): (s: string)
    ensures |s| > 0
  {
    if n < 10 then [DigitChar(n)] else NatToString(n / 10) + [DigitChar(n % 10)]
  }

  /** `str(n)` is made of digits only. */
  lemma {:induction false} NatToStringDigits(n: nat)
    ensures forall k :: 0 <= k < |NatToString(n)| ==> IsDigit(NatToString(n)[k])
  {
    if n >= 10 {
      NatToStringDigits(n / 10);
    }
  }

  /** `str(n)` has nothing for `strip` to remove. */
  lemma NatToStringStripped(n: nat)
    ensures StripSpace(NatToString(n)) == NatToString(n)
  {
    NatToStringDigits(n);
    StripDigits(NatToString(n));
  }

  /** `str(n)` is a digit run with no sign. */
  lemma NatToStringRun(n: nat)
    ensures var s := NatToString(n); DigitRun(s) && s[0] != '-' && s[0] != '+'
  {
    NatToStringDigits(n);
    DigitsAreRun(NatToString(n));
  }

  /** The digits of `str(n)` are worth `n`. */
  lemma {:induction false} NatToStringValue(n: nat)
    ensures DigitsValue(NatToString(n)) == n
  {
    var s := NatToString(n);
    if n < 10 {
      assert s[..0] == [];
    } else {
      NatToStringValue(n / 10);
      assert s[..|s| - 1] == NatToString(n / 10);
    }
  }

  /** A run of digits has no whitespace to strip. */
  lemma StripDigits(s: string)
    requires |s| > 0 && forall k :: 0 <= k < |s| ==> IsDigit(s[k])
    ensures StripSpace(s) == s
  {
    assert !IsSpace(s[0]) && !IsSpace(s[|s| - 1]);
  }

  /** A run of digits is a digit run. */
  lemma DigitsAreRun(s: string)
    requires |s| > 0 && forall k :: 0 <= k < |s| ==> IsDigit(s[k])
    ensures DigitRun(s) && s[0] != '-' && s[0] != '+'
  {
  }

  /** A digit run without sign or surrounding whitespace reads as its value. */
  lemma ParseUnsigned(s: string)
    requires StripSpace(s) == s && DigitRun(s) && s[0] != '-' && s[0] != '+'
    ensures ParseInt(s) == Ok(DigitsValue(s))
  {
    ParseSignedDigits(s);
  }

  lemma ParseSignedDigits(s: string)
    requires DigitRun(s) && s[0] != '-' && s[0] != '+'
    ensures ParseSigned(s) == Ok(DigitsValue(s))
  {
  }

  /** `int(str(n)) == n`. */
  lemma ParseNatToString(n: nat)
    ensures ParseInt(NatToString(n)) == Ok(n)
  {
    NatToStringStripped(n);
    NatToStringRun(n);
    ParseUnsigned(NatToString(n));
    NatToStringValue(n);
  }
}
