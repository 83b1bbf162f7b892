/** The decimal syntax `strconv.ParseFloat` accepts, read left to right as its
    `readFloat` does and kept as an exact rational value: an optional sign, a
    mantissa of digits holding at most one '.' and at least one digit, then
    optionally an exponent marker 'e' or 'E', an optional sign and at least one
    digit. Anything else (the empty string included) is a syntax error. */
module Numbers {
  import opened Wrappers
  import Text

  predicate IsDigit(c: char) {
    '0' <= c <= '9'
  }

  predicate AllDigits(s: string) {
    forall i :: 0 <= i < |s| ==> IsDigit(s[i])
  }

  function DigitValue(c: char): (r: nat) {
    if IsDigit(c) then c as int - '0' as int else 0
  }

  /** `m` followed by the digits of `s`, as one integer. */
  function Accumulate(m: nat, s: string): (r: nat)
    decreases |s|
  {
    if s == [] then m else Accumulate(m * 10 + DigitValue(s[0]), s[1..])
  }

  /** The value of a string of decimal digits, most significant first. */
  function DigitsValue(s: string): (r: nat) {
    Accumulate(0, s)
  }

  function Pow10(n: nat): (p: nat)
    ensures p >= 1
  {
    if n == 0 then 1 else 10 * Pow10(n - 1)
  }

  /** Ten to the power `x`, for a signed exponent. */
  function Scale(x: int): (r: real)
    ensures r > 0.0
  {
    if x >= 0 then Pow10(x) as real else 1.0 / Pow10(-x) as real
  }

  /** What has been read of a mantissa: its digits as one integer, how many digits
      there were, how many of them followed the '.', and whether a '.' was seen. */
  datatype Mantissa = Mantissa(digits: nat, count: nat, fraction: nat, dot: bool) {
    function Value(): (r: real) {
      digits as real / Pow10(fraction) as real
    }
  }

  const NoDigits := Mantissa(0, 0, 0, false)

  /** Reads the mantissa from index `i` on and then, after a marker, the exponent. */
  function ReadMantissa(s: string, i: nat, m: Mantissa): (r: Option<real>)
    requires i <= |s|
    ensures r.Some? ==> m.count > 0 || exists j :: i <= j < |s| && IsDigit(s[j])
    decreases |s| - i
  {
    if i == |s| then
      if m.count > 0 then Some(m.Value()) else None
    else if IsDigit(s[i]) then
      ReadMantissa(s, i + 1, Mantissa(m.digits * 10 + DigitValue(s[i]), m.count + 1,
                                      if m.dot then m.fraction + 1 else m.fraction, m.dot))
    else if s[i] == '.' && !m.dot then
      ReadMantissa(s, i + 1, m.(dot := true))
    else if (s[i] == 'e' || s[i] == 'E') && m.count > 0 then
      match ReadExponent(s, i + 1)
      case None => None
      case Some(x) => Some(m.Value() * Scale(x))
    else
      None
  }

  /** Reads an exponent from index `i` on: an optional sign and at least one digit. */
  function ReadExponent(s: string, i: nat): (r: Option<int>)
    requires i <= |s|
  {
    if i < |s| && (s[i] == '+' || s[i] == '-') then
      match ReadExponentDigits(s, i + 1, 0, 0)
      case None => None
      case Some(e) => Some(if s[i] == '-' then -(e as int) else e)
    else
      ReadExponentDigits(s, i, 0, 0)
  }

  /** Reads the digits of an exponent to the end of `s`; `e` holds the `n` digits read so far. */
  function ReadExponentDigits(s: string, i: nat, e: nat, n: nat): (r: Option<nat>)
    requires i <= |s|
    decreases |s| - i
  {
    if i == |s| then
      if n > 0 then Some(e) else None
    else if IsDigit(s[i]) then
      ReadExponentDigits(s, i + 1, e * 10 + DigitValue(s[i]), n + 1)
    else
      None
  }

  /** `strconv.ParseFloat` on decimal text: the value, or None on a syntax error; a
      number always holds at least one digit. */
  function ParseNum(s: string): (r: Option<real>)
    ensures r.Some? ==> exists j :: 0 <= j < |s| && IsDigit(s[j])
  {
    if |s| > 0 && (s[0] == '+' || s[0] == '-') then
      match ReadMantissa(s, 1, NoDigits)
      case None => None
      case Some(v) => Some(if s[0] == '-' then -v else v)
    else
      ReadMantissa(s, 0, NoDigits)
  }

  /** The empty string is a syntax error, so a missing key reads as no number. */
  lemma EmptyRejected()
    ensures ParseNum("") == None
  {
  }

  /** Text that starts with white space is a syntax error: the parse does not trim. */
  lemma LeadingSpaceRejected(s: string)
    requires |s| > 0 && Text.IsSpace(s[0])
    ensures ParseNum(s) == None
  {
    assert !IsDigit(s[0]) && s[0] != '.' && s[0] != '+' && s[0] != '-' && s[0] != 'e';
  }

  /** A run of digits to the end of the text keeps accumulating into the mantissa. */
  lemma {:induction false} ReadDigits(s: string, i: nat, m: Mantissa)
    requires i <= |s| && AllDigits(s[i..]) && !m.dot && m.fraction == 0
    ensures ReadMantissa(s, i, m) ==
      if m.count + (|s| - i) > 0 then Some(Accumulate(m.digits, s[i..]) as real) else None
    decreases |s| - i
  {
    if i < |s| {
      assert IsDigit(s[i..][0]);
      assert s[i..][1..] == s[i + 1..];
      assert AllDigits(s[i + 1..]);
      ReadDigits(s, i + 1, Mantissa(m.digits * 10 + DigitValue(s[i]), m.count + 1, 0, false));
    }
  }

  /** A non-empty run of digits parses to its value. */
  lemma DigitsParse(t: string)
    requires |t| > 0 && AllDigits(t)
    ensures ParseNum(t) == Some(DigitsValue(t) as real)
  {
    assert t[0..] == t;
    ReadDigits(t, 0, NoDigits);
  }

  /** A non-empty run of digits with '-' in front parses to the negated value. */
  lemma NegatedDigitsParse(t: string)
    requires |t| > 0 && AllDigits(t)
    ensures ParseNum("-" + t) == Some(-(DigitsValue(t) as real))
  {
    var u := "-" + t;
    assert u[1..] == t;
    ReadDigits(u, 1, NoDigits);
  }

  /** The decimal text of a natural number, most significant digit first. */
  function NatText(n: nat): (s: string)
    ensures |s| > 0 && AllDigits(s)
  {
    if n < 10 then ['0' + n as char]
    else NatText(n / 10) + ['0' + (n % 10) as char]
  }

  /** The decimal text of an integer, with '-' in front of a negative one. */
  function IntText(n: int): (r: string) {
    if n < 0 then "-" + NatText(-n) else NatText(n)
  }

  lemma {:induction false} AccumulateSnoc(m: nat, s: string, c: char)
    ensures Accumulate(m, s + [c]) == Accumulate(m, s) * 10 + DigitValue(c)
    decreases |s|
  {
    if s != [] {
      assert (s + [c])[1..] == s[1..] + [c];
      AccumulateSnoc(m * 10 + DigitValue(s[0]), s[1..], c);
    }
  }

  lemma {:induction false} NatTextValue(n: nat)
    ensures DigitsValue(NatText(n)) == n
  {
    if n < 10 {
      assert Accumulate(0, NatText(n)) == Accumulate(n, []);
    } else {
      NatTextValue(n / 10);
      AccumulateSnoc(0, NatText(n / 10), '0' + (n % 10) as char);
    }
  }

  /** Parsing the decimal text of an integer gives back that integer. */
  lemma IntTextRoundTrip(n: int)
    ensures ParseNum(IntText(n)) == Some(n as real)
  {
    var m: nat := if n < 0 then -n else n;
    NatTextValue(m);
    if n < 0 {
      NegatedDigitsParse(NatText(m));
    } else {
      DigitsParse(NatText(m));
    }
  }
}
