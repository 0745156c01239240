/** Decimal rendering and parsing as Python's str(int), int(str) and float(str)
    do them, for ASCII digits. */
module Numbers {
  import opened Wrappers
  import opened Text

  predicate IsDigit(c: char) { '0' <= c <= '9' }

  function DigitChar(d: nat): (c: char)
    requires d < 10
    ensures IsDigit(c)
  {
    ('0' as int + d) as char
  }

  /** The value of a string of decimal digits, most significant first. */
  function DigitsValue(s: string): nat
    requires All(s, IsDigit)
    decreases |s|
  {
    if |s| == 0 then 0 else DigitsValue(s[..|s| - 1]) * 10 + (s[|s| - 1] as int - '0' as int)
  }

  function Pow10(n: nat): (p: nat)
    ensures p >= 1
  {
    if n == 0 then 1 else 10 * Pow10(n - 1)
  }

  /** Decimal digits of n without leading zeros ("0" for zero), as str(n). */
  function NatToString(n: nat): (s: string)
    ensures |s| >= 1 && All(s, IsDigit)
    decreases n
  {
    if n < 10 then [DigitChar(n)] else NatToString(n / 10) + [DigitChar(n % 10)]
  }

  /** Python's str(i) and JavaScript's String(i) for an integer. */
  function IntToString(i: int): string {
    if i < 0 then "-" + NatToString(-i) else NatToString(i)
  }

  lemma {:induction false} NatToStringValue(n: nat)
    ensures DigitsValue(NatToString(n)) == n
    decreases n
  {
    if n >= 10 {
      var s := NatToString(n);
      NatToStringValue(n / 10);
      assert s[..|s| - 1] == NatToString(n / 10);
    }
  }

  /** A run of digits with single underscores between digits, the digit groups
      Python's int() and float() accept (PEP 515). */
  predicate ValidGroup(s: string) {
    && |s| > 0 && IsDigit(s[0]) && IsDigit(s[|s| - 1])
    && (forall i :: 0 <= i < |s| ==> IsDigit(s[i]) || s[i] == '_')
    && (forall i :: 0 <= i < |s| - 1 ==> s[i] == '_' ==> s[i + 1] != '_')
  }

  function RemoveUnderscores(s: string): (r: string)
    requires forall i :: 0 <= i < |s| ==> IsDigit(s[i]) || s[i] == '_'
    ensures All(r, IsDigit) && |r| <= |s|
    ensures All(s, IsDigit) ==> r == s
    decreases |s|
  {
    if |s| == 0 then ""
    else if s[0] == '_' then RemoveUnderscores(s[1..])
    else [s[0]] + RemoveUnderscores(s[1..])
  }

  function GroupValue(s: string): nat
    requires ValidGroup(s)
  {
    DigitsValue(RemoveUnderscores(s))
  }

  /** Number of digits in a valid group (the underscores do not count). */
  function GroupWidth(s: string): nat
    requires ValidGroup(s)
  {
    |RemoveUnderscores(s)|
  }

  /** Splits off a leading '+' or '-': (is negative, rest). */
  function SplitSign(s: string): (bool, string) {
    if |s| > 0 && (s[0] == '+' || s[0] == '-') then (s[0] == '-', s[1..]) else (false, s)
  }

  /** Python's int(s) in base 10: surrounding whitespace, an optional sign and
      one digit group; anything else raises ValueError, here None. */
  function PyInt(s: string): Option<int> {
    SignedGroup(SplitSign(PyStrip(s)))
  }

  function SignedGroup(signed: (bool, string)): Option<int> {
    var body := signed.1;
    if ValidGroup(body) then Some(if signed.0 then -(GroupValue(body) as int) else GroupValue(body)) else None
  }

  /** int(str(i)) == i. */
  lemma PyIntOfIntToString(i: int)
    ensures PyInt(IntToString(i)) == Some(i)
  {
    var n: nat := if i < 0 then -i else i;
    var digits := NatToString(n);
    var s := IntToString(i);
    assert s[|s| - 1] == digits[|digits| - 1];
    StripUnchanged(s);
    SplitSignOfIntToString(i);
    DigitsAreGroup(digits);
    SignedGroupOfValid(i < 0, digits);
    NatToStringValue(n);
  }

  lemma SplitSignOfIntToString(i: int)
    ensures SplitSign(IntToString(i)) == (i < 0, NatToString(if i < 0 then -i else i))
  {
    var s := IntToString(i);
    if i < 0 {
      assert s[0] == '-' && s[1..] == NatToString(-i);
    }
  }

  lemma SignedGroupOfValid(neg: bool, digits: string)
    requires ValidGroup(digits)
    ensures SignedGroup((neg, digits)) == Some(if neg then -(GroupValue(digits) as int) else GroupValue(digits))
  {
  }

  lemma DigitsAreGroup(s: string)
    requires |s| > 0 && All(s, IsDigit)
    ensures ValidGroup(s) && GroupValue(s) == DigitsValue(s)
  {
  }

  lemma StripUnchanged(s: string)
    requires |s| > 0 && !IsPySpace(s[0]) && !IsPySpace(s[|s| - 1])
    ensures PyStrip(s) == s
  {
    assert TrimStart(s, IsPySpace) == s;
  }

  /** The mantissa of a float literal: [digits] "." digits | digits ["."]. */
  function MantissaValue(m: string): Option<real> {
    match IndexOf(m, ".")
    case None =>
      if ValidGroup(m) then Some(GroupValue(m) as real) else None
    case Some(i) =>
      var whole := m[..i];
      var frac := m[i + 1..];
      if (whole == "" || ValidGroup(whole)) && ValidGroup(frac) then
        Some((if whole == "" then 0 else GroupValue(whole)) as real
             + (GroupValue(frac) as real) / (Pow10(GroupWidth(frac)) as real))
      else if ValidGroup(whole) && frac == "" then Some(GroupValue(whole) as real)
      else None
  }

  function ExponentIndex(s: string): Option<nat> {
    match IndexOf(s, "e")
    case None => IndexOf(s, "E")
    case Some(i) =>
      match IndexOf(s, "E")
      case None => Some(i)
      case Some(j) => Some(if i < j then i else j)
  }

  function Scale(v: real, e: int): real {
    if e >= 0 then v * (Pow10(e) as real) else v / (Pow10(-e) as real)
  }

  /** Python's float(s) for finite decimal literals: surrounding whitespace, an
      optional sign, a mantissa and an optional exponent with its own sign.
      The spellings "inf", "infinity" and "nan" are not modelled (None). */
  function PyFloat(s: string): Option<real> {
    var (neg, body) := SplitSign(PyStrip(s));
    match UnsignedFloat(body)
    case None => None
    case Some(v) => Some(if neg then -v else v)
  }

  /** A mantissa with an optional exponent ("e" or "E", a sign, a digit group). */
  function UnsignedFloat(body: string): Option<real> {
    match ExponentIndex(body)
    case None => MantissaValue(body)
    case Some(i) =>
      match (MantissaValue(body[..i]), ExponentValue(body[i + 1..]))
      case (Some(m), Some(e)) => Some(Scale(m, e))
      case _ => None
  }

  function ExponentValue(x: string): Option<int> {
    var (neg, digits) := SplitSign(x);
    if ValidGroup(digits) then Some(if neg then -(GroupValue(digits) as int) else GroupValue(digits)) else None
  }
}
