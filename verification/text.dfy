/** The string handling the configuration reader and the mesh tools rely
    on: whitespace removal, searching, splitting the way `std::getline`
    does with a delimiter, decimal rendering of naturals, and the decimal
    prefix `std::stod` reads. */
module Text {
  import opened Wrappers

  /** `::isspace` in the "C" locale: space, tab, newline, vertical tab,
      form feed, carriage return. */
  predicate IsSpace(c: char) {
    c == ' ' || 9 <= c as int <= 13
  }

  predicate IsDigit(c: char) {
    '0' <= c <= '9'
  }

  /** `s` with every whitespace character removed
      (`erase(remove_if(..., ::isspace), ...)`). */
  function StripSpace(s: string): (r: string)
    ensures |r| <= |s|
    ensures forall k :: 0 <= k < |r| ==> !IsSpace(r[k])
  {
    if s == [] then []
    else if IsSpace(s[0]) then StripSpace(s[1..])
    else [s[0]] + StripSpace(s[1..])
  }

  /** `find`: the first position of `c`, `None` for `npos`. */
  function Find(s: string, c: char): (k: Option<nat>)
    ensures k.Some? ==> k.value < |s| && s[k.value] == c && forall m :: 0 <= m < k.value ==> s[m] != c
    ensures k.None? <==> c !in s
  {
    if s == [] then None
    else if s[0] == c then Some(0)
    else match Find(s[1..], c)
      case None => None
      case Some(m) => Some(m + 1)
  }

  /** The pieces successive `std::getline(stream, piece, d)` calls deliver:
      the text between delimiters, with no empty piece after a final
      delimiter and none at all for empty text. */
  function Split(s: string, d: char): (ps: seq<string>)
    ensures forall k :: 0 <= k < |ps| ==> d !in ps[k]
    decreases |s|
  {
    if s == [] then []
    else match Find(s, d)
      case None => [s]
      case Some(k) => [s[..k]] + Split(s[k + 1..], d)
  }

  /** The pieces written one after the other with `d` between them. */
  function Join(ps: seq<string>, d: char): string {
    if ps == [] then []
    else if |ps| == 1 then ps[0]
    else ps[0] + [d] + Join(ps[1..], d)
  }

  function DigitChar(n: nat): (c: char)
    requires n < 10
    ensures IsDigit(c)
  {
    ('0' as int + n) as char
  }

  function DigitValue(c: char): (n: nat)
    requires IsDigit(c)
    ensures n < 10
  {
    c as int - '0' as int
  }

  /** The decimal rendering of a natural number (what `operator<<` prints
      for an unsigned value). */
  function Decimal(n: nat): (s: string)
    ensures 0 < |s| && forall k :: 0 <= k < |s| ==> IsDigit(s[k])
  {
    if n < 10 then [DigitChar(n)] else Decimal(n / 10) + [DigitChar(n % 10)]
  }

  /** The value of a string of digits, most significant first. */
  function DigitsValue(ds: string): nat
    requires forall k :: 0 <= k < |ds| ==> IsDigit(ds[k])
  {
    if ds == [] then 0 else 10 * DigitsValue(ds[..|ds| - 1]) + DigitValue(ds[|ds| - 1])
  }

  /** The length of the run of digits starting at position `i`. */
  function DigitRun(s: string, i: nat): (n: nat)
    requires i <= |s|
    ensures i + n <= |s|
    ensures forall k :: i <= k < i + n ==> IsDigit(s[k])
    ensures i + n == |s| || !IsDigit(s[i + n])
    decreases |s| - i
  {
    if i == |s| || !IsDigit(s[i]) then 0 else 1 + DigitRun(s, i + 1)
  }

  /** The value of the digits after a decimal point: `0.d1d2...`. */
  function Fraction(ds: string): real
    requires forall k :: 0 <= k < |ds| ==> IsDigit(ds[k])
  {
    if ds == [] then 0.0 else (DigitValue(ds[0]) as real + Fraction(ds[1..])) / 10.0
  }

  /** `x` times ten to the power `e`. */
  function Scaled(x: real, e: int): real
    decreases if e < 0 then -e else e
  {
    if e == 0 then x
    else if e > 0 then 10.0 * Scaled(x, e - 1)
    else Scaled(x, e + 1) / 10.0
  }

  /** The exponent part starting at position `k`: an `e` or `E`, an
      optional sign and at least one digit; anything else is no exponent. */
  function Exponent(s: string, k: nat): int
    requires k <= |s|
  {
    if k < |s| && (s[k] == 'e' || s[k] == 'E') then
      var neg := k + 1 < |s| && s[k + 1] == '-';
      var start := if k + 1 < |s| && (s[k + 1] == '-' || s[k + 1] == '+') then k + 2 else k + 1;
      var n := DigitRun(s, start);
      if n == 0 then 0
      else
        var e: int := DigitsValue(s[start..start + n]);
        if neg then -e else e
    else 0
  }

  /** The parts of the number at the front of a text: its sign, the digits
      before and after the decimal point, and the exponent. */
  datatype Numeral = Numeral(neg: bool, whole: string, frac: string, exp: int)

  predicate AllDigits(s: string) {
    forall k :: 0 <= k < |s| ==> IsDigit(s[k])
  }

  /** The longest prefix of the form sign, digits, optional point and
      digits, optional exponent, split into its parts; `None` when there is
      no digit before the exponent. */
  function ScanNumeral(s: string): (r: Option<Numeral>)
    ensures r.Some? ==> AllDigits(r.value.whole) && AllDigits(r.value.frac)
    ensures r.Some? ==> exists k :: 0 <= k < |s| && IsDigit(s[k])
  {
    var neg := 0 < |s| && s[0] == '-';
    var i := if 0 < |s| && (s[0] == '-' || s[0] == '+') then 1 else 0;
    var n1 := DigitRun(s, i);
    var j := i + n1;
    var hasPoint := j < |s| && s[j] == '.';
    var n2 := if hasPoint then DigitRun(s, j + 1) else 0;
    if n1 + n2 == 0 then None
    else
      assert n1 > 0 ==> IsDigit(s[i]);
      assert n1 == 0 ==> IsDigit(s[j + 1]);
      var frac := if hasPoint then s[j + 1..j + 1 + n2] else "";
      Some(Numeral(neg, s[i..j], frac, Exponent(s, if hasPoint then j + 1 + n2 else j)))
  }

  /** The value a numeral denotes. */
  function NumeralValue(n: Numeral): real
    requires AllDigits(n.whole) && AllDigits(n.frac)
  {
    var mag := Scaled(DigitsValue(n.whole) as real + Fraction(n.frac), n.exp);
    if n.neg then -mag else mag
  }

  /** `std::stod` on text without leading whitespace: the value of the
      numeral at its front. Text with no numeral makes `std::stod` throw,
      reported as `None`. */
  function LeadingNumber(s: string): (r: Option<real>)
    ensures r.Some? ==> exists k :: 0 <= k < |s| && IsDigit(s[k])
  {
    match ScanNumeral(s)
    case None => None
    case Some(n) => Some(NumeralValue(n))
  }

  /** `s` begins with `p`, the test `s.substr(0, |p|) == p` makes. */
  predicate HasPrefix(s: string, p: string) {
    |p| <= |s| && s[..|p|] == p
  }

  // ---------------------------------------------------------------------
  // Lemmas

  /** Text without whitespace is left as it is. */
  lemma {:induction false} StripSpaceKeepsText(s: string)
    requires forall k :: 0 <= k < |s| ==> !IsSpace(s[k])
    ensures StripSpace(s) == s
  {
    if s != [] {
      StripSpaceKeepsText(s[1..]);
    }
  }

  /** Removing whitespace works piece by piece. */
  lemma {:induction false} StripSpaceConcat(a: string, b: string)
    ensures StripSpace(a + b) == StripSpace(a) + StripSpace(b)
  {
    if a != [] {
      assert (a + b)[0] == a[0];
      assert (a + b)[1..] == a[1..] + b;
      StripSpaceConcat(a[1..], b);
      if !IsSpace(a[0]) {
        assert StripSpace(a + b) == [a[0]] + (StripSpace(a[1..]) + StripSpace(b));
      }
    } else {
      assert a + b == b;
    }
  }

  /** Splitting joined pieces gives the pieces back, when no piece holds the
      delimiter and the last one is not empty. */
  lemma {:induction false} SplitJoin(ps: seq<string>, d: char)
    requires 0 < |ps| && 0 < |ps[|ps| - 1]|
    requires forall k :: 0 <= k < |ps| ==> d !in ps[k]
    ensures Split(Join(ps, d), d) == ps
  {
    if |ps| == 1 {
      assert Find(ps[0], d).None?;
    } else {
      var rest := Join(ps[1..], d);
      var s := ps[0] + [d] + rest;
      FindAfter(ps[0], d, rest);
      assert s[..|ps[0]|] == ps[0];
      assert s[|ps[0]| + 1..] == rest;
      SplitJoin(ps[1..], d);
    }
  }

  /** The first delimiter of `a + [d] + b` is the one after `a`. */
  lemma {:induction false} FindAfter(a: string, d: char, b: string)
    requires d !in a
    ensures Find(a + [d] + b, d) == Some(|a|)
  {
    if a != [] {
      assert (a + [d] + b)[1..] == a[1..] + [d] + b;
      FindAfter(a[1..], d, b);
    }
  }

  /** Joining the pieces gives the text back, unless it ended in a
      delimiter. */
  lemma {:induction false} JoinSplit(s: string, d: char)
    requires s == [] || s[|s| - 1] != d
    ensures Join(Split(s, d), d) == s
    decreases |s|
  {
    if s != [] {
      match Find(s, d)
      case None =>
      case Some(k) =>
        var rest := s[k + 1..];
        assert rest != [];
        JoinSplit(rest, d);
        assert s == s[..k] + [d] + rest;
    }
  }

  /** Reading back the decimal rendering of `n` gives `n`. */
  lemma {:induction false} DecimalValue(n: nat)
    ensures DigitsValue(Decimal(n)) == n
  {
    if n >= 10 {
      var s := Decimal(n);
      assert s[..|s| - 1] == Decimal(n / 10);
      DecimalValue(n / 10);
    }
  }

  /** The digit run at the front of a decimal rendering followed by
      anything but a digit is the whole rendering. */
  lemma DecimalRun(n: nat, t: string)
    requires t == [] || !IsDigit(t[0])
    ensures DigitRun(Decimal(n) + t, 0) == |Decimal(n)|
  {
    var d := Decimal(n);
    var s := d + t;
    assert forall k :: 0 <= k < |d| ==> s[k] == d[k];
    assert t != [] ==> s[|d|] == t[0];
  }

  /** `std::stod` reads back the decimal rendering of a natural number,
      whatever non-numeric text follows it. */
  lemma {:induction false} LeadingDecimal(n: nat, t: string)
    requires t == [] || (!IsDigit(t[0]) && t[0] != '.' && t[0] != 'e' && t[0] != 'E')
    ensures LeadingNumber(Decimal(n) + t) == Some(n as real)
  {
    var s := Decimal(n) + t;
    var d := Decimal(n);
    DecimalRun(n, t);
    assert s[0] == d[0];
    assert s[0..|d|] == d;
    DecimalValue(n);
    assert Exponent(s, |d|) == 0;
    assert ScanNumeral(s) == Some(Numeral(false, d, "", 0));
    assert Scaled(n as real + Fraction(""), 0) == n as real;
  }

  /** `std::stod` reads a signed decimal fraction such as `-0.05`: an
      optional minus sign, the digits of the whole part, a point and the
      digits of the fraction (at least one digit in all), followed by text
      that cannot continue the number. */
  lemma {:induction false} LeadingFraction(neg: bool, whole: string, frac: string, t: string)
    requires AllDigits(whole) && AllDigits(frac) && 0 < |whole| + |frac|
    requires t == [] || (!IsDigit(t[0]) && t[0] != 'e' && t[0] != 'E')
    ensures var mag := DigitsValue(whole) as real + Fraction(frac);
            LeadingNumber((if neg then "-" else "") + whole + "." + frac + t) == Some(if neg then -mag else mag)
  {
    var s := (if neg then "-" else "") + whole + "." + frac + t;
    var i := if neg then 1 else 0;
    FractionLayout(neg, whole, frac, t);
    FractionValue(s, neg, i, whole, frac);
  }

  /** Where the parts of a signed decimal fraction sit in its text. */
  lemma FractionLayout(neg: bool, whole: string, frac: string, t: string)
    requires AllDigits(whole) && AllDigits(frac) && 0 < |whole| + |frac|
    requires t == [] || (!IsDigit(t[0]) && t[0] != 'e' && t[0] != 'E')
    ensures var s := (if neg then "-" else "") + whole + "." + frac + t;
            var i := if neg then 1 else 0;
            var j := i + |whole|;
            && 0 < |s| && (s[0] == '-' <==> neg)
            && i == (if s[0] == '-' || s[0] == '+' then 1 else 0)
            && j < |s| && s[j] == '.' && s[i..j] == whole && s[j + 1..j + 1 + |frac|] == frac
            && DigitRun(s, i) == |whole| && DigitRun(s, j + 1) == |frac|
            && Exponent(s, j + 1 + |frac|) == 0
  {
    var sign: string := if neg then "-" else "";
    var s := sign + whole + "." + frac + t;
    var i := |sign|;
    var j := i + |whole|;
    var e := j + 1 + |frac|;
    assert s[i..j] == whole;
    assert s[j] == '.';
    assert s[j + 1..e] == frac;
    assert e < |s| ==> s[e] == t[0];
    RunLength(s, i, |whole|);
    RunLength(s, j + 1, |frac|);
    assert !neg ==> s[0] != '-' && s[0] != '+' by {
      if !neg {
        if |whole| == 0 { assert s[0] == '.'; } else { assert s[0] == whole[0]; }
      }
    }
  }

  /** The scan of digits, a point and digits with no exponent after them,
      given where each part sits. */
  lemma ScanFraction(s: string, neg: bool, i: nat, whole: string, frac: string)
    requires 0 < |whole| + |frac|
    requires neg == (0 < |s| && s[0] == '-')
    requires i == (if 0 < |s| && (s[0] == '-' || s[0] == '+') then 1 else 0)
    requires DigitRun(s, i) == |whole|
    requires i + |whole| < |s| && s[i + |whole|] == '.'
    requires DigitRun(s, i + |whole| + 1) == |frac|
    requires s[i..i + |whole|] == whole && s[i + |whole| + 1..i + |whole| + 1 + |frac|] == frac
    requires Exponent(s, i + |whole| + 1 + |frac|) == 0
    ensures ScanNumeral(s) == Some(Numeral(neg, whole, frac, 0))
  {
    var r := ScanNumeral(s);
    assert r.Some?;
    assert r.value.neg == neg;
    assert r.value.whole == whole;
    assert r.value.frac == frac;
    assert r.value.exp == 0;
  }

  /** `LeadingNumber` is the value of the scanned numeral. */
  lemma ScannedNumber(s: string, n: Numeral)
    requires ScanNumeral(s) == Some(n)
    ensures AllDigits(n.whole) && AllDigits(n.frac)
    ensures LeadingNumber(s) == Some(NumeralValue(n))
  {
  }

  /** A numeral without exponent denotes its whole part plus its fraction. */
  lemma PlainNumeralValue(neg: bool, whole: string, frac: string)
    requires AllDigits(whole) && AllDigits(frac)
    ensures var mag := DigitsValue(whole) as real + Fraction(frac);
            NumeralValue(Numeral(neg, whole, frac, 0)) == if neg then -mag else mag
  {
  }

  /** `ScanFraction` carried through to the value `std::stod` returns. */
  lemma FractionValue(s: string, neg: bool, i: nat, whole: string, frac: string)
    requires 0 < |whole| + |frac|
    requires 0 < |s| && (s[0] == '-' <==> neg)
    requires i == (if s[0] == '-' || s[0] == '+' then 1 else 0)
    requires var j := i + |whole|;
             && j < |s| && s[j] == '.' && DigitRun(s, i) == |whole| && DigitRun(s, j + 1) == |frac|
             && s[i..j] == whole && s[j + 1..j + 1 + |frac|] == frac
             && Exponent(s, j + 1 + |frac|) == 0
    ensures AllDigits(whole) && AllDigits(frac)
    ensures var mag := DigitsValue(whole) as real + Fraction(frac);
            LeadingNumber(s) == Some(if neg then -mag else mag)
  {
    ScanFraction(s, neg, i, whole, frac);
    ScannedNumber(s, Numeral(neg, whole, frac, 0));
    PlainNumeralValue(neg, whole, frac);
  }

  /** A digit run ends exactly at the first non-digit. */
  lemma RunLength(s: string, i: nat, n: nat)
    requires i + n <= |s|
    requires forall k :: i <= k < i + n ==> IsDigit(s[k])
    requires i + n == |s| || !IsDigit(s[i + n])
    ensures DigitRun(s, i) == n
  {
  }

  /** Text that starts with anything but a digit, a sign or a point has no
      number: `std::stod` throws on it. */
  lemma NoLeadingNumber(s: string)
    requires 0 < |s| && !IsDigit(s[0]) && s[0] != '-' && s[0] != '+' && s[0] != '.'
    ensures LeadingNumber(s) == None
  {
    assert DigitRun(s, 0) == 0;
  }
}
