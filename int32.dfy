/**
 * System.Int32 as the engine uses it: its range, unchecked (wrapping) addition,
 * Convert.ToInt32 / Int32.Parse on text, Int32.TryParse, and Int32.ToString.
 */
module Int32 {
  import opened Wrappers

  const MinValue: int := -0x8000_0000
  const MaxValue: int := 0x7FFF_FFFF
  const Modulus: int := 0x1_0000_0000

  predicate InRange(x: int) {
    MinValue <= x <= MaxValue
  }

  /** Unchecked Int32 arithmetic: x reduced modulo 2^32 into the Int32 range. */
  function Wrap(x: int): (r: int)
    ensures InRange(r)
    ensures (x - r) % Modulus == 0
    ensures InRange(x) ==> r == x
  {
    (x - MinValue) % Modulus + MinValue
  }

  predicate IsDigit(c: char) {
    '0' <= c <= '9'
  }

  predicate AllDigits(s: string) {
    forall i :: 0 <= i < |s| ==> IsDigit(s[i])
  }

  /** The white space NumberStyles.Integer allows around a number: U+0009..U+000D and U+0020. */
  predicate IsNumberWhite(c: char) {
    c == ' ' || '\U{9}' <= c <= '\U{D}'
  }

  function StripLeading(s: string): (t: string)
    ensures t == [] || !IsNumberWhite(t[0])
  {
    if |s| > 0 && IsNumberWhite(s[0]) then StripLeading(s[1..]) else s
  }

  function StripTrailing(s: string): (t: string)
    ensures t == [] || !IsNumberWhite(t[|t| - 1])
  {
    if |s| > 0 && IsNumberWhite(s[|s| - 1]) then StripTrailing(s[..|s| - 1]) else s
  }

  /** The value of a string of decimal digits, most significant first. */
  function DigitsValue(ds: string): nat
    requires AllDigits(ds)
  {
    if |ds| == 0 then 0
    else DigitsValue(ds[..|ds| - 1]) * 10 + (ds[|ds| - 1] as int - '0' as int)
  }

  /**
   * Convert.ToInt32(string) and Int32.Parse: optional white space, an optional sign, one or more
   * decimal digits, optional white space.  Text of another shape throws FormatException; a value
   * outside the Int32 range throws OverflowException.
   */
  function Parse(s: string): (r: Result<int>)
    ensures r.Ok? ==> InRange(r.value)
    ensures r.Throw? ==> r.error == Format || r.error == Overflow
  {
    var t := StripTrailing(StripLeading(s));
    var signed := |t| > 0 && (t[0] == '-' || t[0] == '+');
    var digits := if signed then t[1..] else t;
    if |digits| == 0 || !AllDigits(digits) then Throw(Format)
    else
      var magnitude: int := DigitsValue(digits);
      var v: int := if signed && t[0] == '-' then -magnitude else magnitude;
      if InRange(v) then Ok(v) else Throw(Overflow)
  }

  /** Int32.TryParse: the parsed value, or 0 when Parse would throw. */
  function TryParse(s: string): (v: int)
    ensures InRange(v)
    ensures Parse(s).Ok? ==> v == Parse(s).value
    ensures Parse(s).Throw? ==> v == 0
  {
    match Parse(s)
    case Ok(v) => v
    case Throw(_) => 0
  }

  /** The decimal digits of n, most significant first, with no leading zero. */
  function NatDigits(n: nat): (ds: string)
    ensures |ds| >= 1 && AllDigits(ds)
    ensures |ds| > 1 ==> ds[0] != '0'
  {
    var d := ['0' + (n % 10) as char];
    if n < 10 then d else NatDigits(n / 10) + d
  }

  /** Int32.ToString(): the decimal digits, preceded by '-' when negative. */
  function ToString(n: int): (s: string)
  {
    if n < 0 then "-" + NatDigits(-n) else NatDigits(n)
  }

  lemma {:induction false} NatDigitsValue(n: nat)
    ensures DigitsValue(NatDigits(n)) == n
  {
    var ds := NatDigits(n);
    if n >= 10 {
      NatDigitsValue(n / 10);
      assert ds[..|ds| - 1] == NatDigits(n / 10);
    }
  }

  lemma StripNothing(s: string)
    requires |s| > 0 && !IsNumberWhite(s[0]) && !IsNumberWhite(s[|s| - 1])
    ensures StripTrailing(StripLeading(s)) == s
  {
  }

  /** Parsing the text Int32.ToString writes gives back the number. */
  lemma ParseToString(n: int)
    requires InRange(n)
    ensures Parse(ToString(n)) == Ok(n)
  {
    var s := ToString(n);
    if n < 0 {
      NatDigitsValue(-n);
      assert s[1..] == NatDigits(-n);
    } else {
      NatDigitsValue(n);
    }
    StripNothing(s);
  }

  /** Empty text and a lone sign are rejected; white space around the digits is allowed. */
  lemma ParseExamples()
    ensures Parse("") == Throw(Format) && Parse("-") == Throw(Format) && Parse(" 12 ") == Ok(12)
  {
    assert StripTrailing(StripLeading(" 12 ")) == "12";
    assert "12"[..1] == "1";
  }
}
