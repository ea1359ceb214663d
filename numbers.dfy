/**
 * The integer parsing the action node relies on: Short.parseShort, Integer.parseInt and
 * Long.parseLong in base 10. A literal is an optional '+' or '-' followed by one or more
 * ASCII digits; its value must lie in the signed range of the width.
 */
module Numbers {
  import opened Options

  datatype Width = Bits16 | Bits32 | Bits64

  function MinValue(w: Width): int {
    match w
    case Bits16 => -0x8000
    case Bits32 => -0x8000_0000
    case Bits64 => -0x8000_0000_0000_0000
  }

  function MaxValue(w: Width): int {
    match w
    case Bits16 => 0x7FFF
    case Bits32 => 0x7FFF_FFFF
    case Bits64 => 0x7FFF_FFFF_FFFF_FFFF
  }

  predicate InRange(v: int, w: Width) {
    MinValue(w) <= v <= MaxValue(w)
  }

  predicate IsDigit(c: char) {
    '0' <= c <= '9'
  }

  predicate AllDigits(s: string) {
    forall i :: 0 <= i < |s| ==> IsDigit(s[i])
  }

  /** Value of a run of decimal digits, most significant first. */
  function DigitsValue(s: string): nat
    requires AllDigits(s)
  {
    if |s| == 0 then 0
    else 10 * DigitsValue(s[..|s| - 1]) + (s[|s| - 1] as int - '0' as int)
  }

  /** An optional sign followed by at least one digit. */
  predicate IsLiteral(s: string) {
    && |s| >= 1
    && (if s[0] == '-' || s[0] == '+' then |s| >= 2 && AllDigits(s[1..]) else AllDigits(s))
  }

  function LiteralValue(s: string): int
    requires IsLiteral(s)
  {
    if s[0] == '-' then -(DigitsValue(s[1..]) as int)
    else if s[0] == '+' then DigitsValue(s[1..])
    else DigitsValue(s)
  }

  /** The parse of `s` at width `w`; None where Java throws NumberFormatException. */
  function ParseInteger(s: string, w: Width): (r: Option<int>)
    ensures r.Some? ==> InRange(r.value, w)
    ensures r.None? <==> !IsLiteral(s) || !InRange(LiteralValue(s), w)
  {
    if IsLiteral(s) && InRange(LiteralValue(s), w) then Some(LiteralValue(s)) else None
  }

  /** Canonical decimal rendering of a natural number. */
  function ShowNat(n: nat): string
  {
    if n < 10 then [('0' as int + n) as char]
    else ShowNat(n / 10) + [('0' as int + n % 10) as char]
  }

  /** Canonical decimal rendering of an integer (what Integer.toString produces). */
  function ShowInt(v: int): string {
    if v < 0 then "-" + ShowNat(-v) else ShowNat(v)
  }

  lemma {:induction false} ShowNatIsDigits(n: nat)
    ensures |ShowNat(n)| >= 1 && AllDigits(ShowNat(n))
    ensures DigitsValue(ShowNat(n)) == n
  {
    if n >= 10 {
      ShowNatIsDigits(n / 10);
      var s := ShowNat(n);
      assert s[..|s| - 1] == ShowNat(n / 10);
    }
  }

  /** Every value of the width is read back from its canonical rendering. */
  lemma ParseShowRoundTrip(v: int, w: Width)
    requires InRange(v, w)
    ensures ParseInteger(ShowInt(v), w) == Some(v)
  {
    var s := ShowInt(v);
    if v < 0 {
      ShowNatIsDigits(-v);
      assert s[1..] == ShowNat(-v);
    } else {
      ShowNatIsDigits(v);
      assert s[0] != '-' && s[0] != '+';
    }
  }

  /** A literal accepted at a width is accepted with the same value at every wider width. */
  lemma ParseWidens(s: string, v: int)
    ensures ParseInteger(s, Bits16) == Some(v) ==> ParseInteger(s, Bits32) == Some(v)
    ensures ParseInteger(s, Bits32) == Some(v) ==> ParseInteger(s, Bits64) == Some(v)
  {
  }

  /** A sign alone, the empty text and a decimal point are all rejected. */
  lemma RejectsNonLiterals(w: Width)
    ensures ParseInteger("", w).None?
    ensures ParseInteger("-", w).None? && ParseInteger("+", w).None?
    ensures ParseInteger("1.0", w).None?
  {
    assert !IsDigit("1.0"[1]);
  }

  /** 32768 overflows a short but not an int. */
  lemma ShortBoundary()
    ensures ParseInteger("32767", Bits16) == Some(32767)
    ensures ParseInteger("32768", Bits16).None?
    ensures ParseInteger("-32768", Bits16) == Some(-32768)
    ensures ParseInteger("32768", Bits32) == Some(32768)
  {
    assert DigitsValue("32767") == 32767 by {
      assert "32767"[..4] == "3276" && "3276"[..3] == "327" && "327"[..2] == "32" && "32"[..1] == "3";
    }
    assert DigitsValue("32768") == 32768 by {
      assert "32768"[..4] == "3276" && "3276"[..3] == "327" && "327"[..2] == "32" && "32"[..1] == "3";
    }
    assert "-32768"[1..] == "32768";
  }
}
