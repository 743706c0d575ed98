/**
 * Decimal numerals and byte quantities: the integer and size values carried by
 * the `timeout` and `require.memory` properties, and the size shown in the
 * memory requirement's failure message.
 */
module Units {
  import opened Wrappers

  predicate IsDigit(c: char) {
    '0' <= c <= '9'
  }

  predicate AllDigits(s: string) {
    forall i :: 0 <= i < |s| ==> IsDigit(s[i])
  }

  function DigitChar(d: nat): (c: char)
    requires d < 10
    ensures IsDigit(c) && c as int - '0' as int == d
  {
    ('0' as int + d) as char
  }

  /** The value of a string of decimal digits, most significant first. */
  function DecimalValue(s: string): nat
    requires AllDigits(s)
  {
    if s == [] then 0 else DecimalValue(s[..|s| - 1]) * 10 + (s[|s| - 1] as int - '0' as int)
  }

  /** The shortest decimal numeral of `n`. */
  function NatToString(n: nat): (s: string)
    ensures |s| > 0 && AllDigits(s)
    ensures |s| > 1 ==> s[0] != '0'
  {
    if n < 10 then [DigitChar(n)] else NatToString(n / 10) + [DigitChar(n % 10)]
  }

  /** A non-negative integer written in decimal; anything else is refused. */
  function ParseNat(s: string): Option<nat> {
    if |s| > 0 && AllDigits(s) then Some(DecimalValue(s)) else None
  }

  lemma {:induction false} DecimalValueOfNatToString(n: nat)
    ensures DecimalValue(NatToString(n)) == n
  {
    if n >= 10 {
      var s := NatToString(n);
      assert s[..|s| - 1] == NatToString(n / 10);
      DecimalValueOfNatToString(n / 10);
    }
  }

  /** Parsing a formatted number gives the number back. */
  lemma ParseNatOfNatToString(n: nat)
    ensures ParseNat(NatToString(n)) == Some(n)
  {
    DecimalValueOfNatToString(n);
  }

  const KiB: nat := 1024
  const MiB: nat := 1024 * KiB
  const GiB: nat := 1024 * MiB
  const TiB: nat := 1024 * GiB

  /** The multiplier of a size unit letter, in either case. */
  function UnitMultiplier(c: char): Option<nat> {
    match c
    case 'k' => Some(KiB)
    case 'K' => Some(KiB)
    case 'm' => Some(MiB)
    case 'M' => Some(MiB)
    case 'g' => Some(GiB)
    case 'G' => Some(GiB)
    case 't' => Some(TiB)
    case 'T' => Some(TiB)
    case _ => None
  }

  /** A byte count written as a decimal number optionally followed by one
      unit letter (base 1024): "1m" is 1048576 bytes. */
  function ParseBytes(s: string): (r: Option<nat>)
    ensures r.Some? ==> |s| > 0
  {
    if s == [] then None
    else match UnitMultiplier(s[|s| - 1])
      case Some(m) =>
        (match ParseNat(s[..|s| - 1])
         case Some(n) => Some(n * m)
         case None => None)
      case None => ParseNat(s)
  }

  /** A plain numeral is a byte count with no unit. */
  lemma ParseBytesOfNatToString(n: nat)
    ensures ParseBytes(NatToString(n)) == Some(n)
  {
    var s := NatToString(n);
    assert IsDigit(s[|s| - 1]);
    ParseNatOfNatToString(n);
  }

  /** A numeral followed by a unit letter is that many units. */
  lemma ParseBytesWithUnit(n: nat, unit: char)
    requires UnitMultiplier(unit).Some?
    ensures ParseBytes(NatToString(n) + [unit]) == Some(n * UnitMultiplier(unit).value)
  {
    var s := NatToString(n) + [unit];
    assert s[|s| - 1] == unit;
    assert s[..|s| - 1] == NatToString(n);
    ParseNatOfNatToString(n);
  }

  /** Two digits, with a leading zero below ten. */
  function TwoDigits(n: nat): string
    requires n < 100
  {
    [DigitChar(n / 10), DigitChar(n % 10)]
  }

  /** A byte count in the largest unit it reaches, with two decimals
      (truncated) and an upper-case unit letter: "100.00T". */
  function FormatBytes(n: nat): string {
    var (divisor, unit) :=
      if n >= TiB then (TiB, "T")
      else if n >= GiB then (GiB, "G")
      else if n >= MiB then (MiB, "M")
      else if n >= KiB then (KiB, "K")
      else (1, "");
    NatToString(n / divisor) + "." + TwoDigits(n % divisor * 100 / divisor) + unit
  }

  /** A whole number of tebibytes is written with two zero decimals. */
  lemma FormatWholeTebibytes(k: nat)
    requires k > 0
    ensures FormatBytes(k * TiB) == NatToString(k) + ".00T"
  {
    var n := k * TiB;
    assert TiB == 0x100_0000_0000;
    assert n >= TiB;
    assert n / TiB == k && n % TiB == 0;
    assert n % TiB * 100 / TiB == 0;
    assert FormatBytes(n) == NatToString(k) + "." + TwoDigits(0) + "T";
    assert TwoDigits(0) == "00";
  }

  /** The size named in the memory test of the source: "100t". */
  lemma HundredTebibytes()
    ensures ParseBytes("100t") == Some(100 * TiB)
    ensures FormatBytes(100 * TiB) == "100.00T"
  {
    assert "100t"[..3] == "100";
    assert DecimalValue("100") == 100 by {
      assert "100"[..2] == "10" && "10"[..1] == "1" && "1"[..0] == "";
    }
    assert NatToString(100) == "100" by {
      assert NatToString(10) == "10";
    }
  }

  /** The size of the source's passing memory test: "1m". */
  lemma OneMebibyte()
    ensures ParseBytes("1m") == Some(MiB)
  {
    assert "1m"[..1] == "1";
    assert DecimalValue("1") == 1 by {
      assert "1"[..0] == "";
    }
  }
}
