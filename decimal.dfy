/** Decimal literals. Monetary values are exact rationals (`real`), as the
    shopspring `decimal` type is exact for the parsing and multiplication
    used here.
    - `FromString` is `decimal.NewFromString`: an optional exponent after
      the first `e`/`E` (a base-10 integer within 32 bits), then the digits
      on both sides of at most one point joined and read as a base-10 big
      integer with an optional sign, scaled down by the length of the
      fraction; the final exponent must fit in 32 bits.
    - `FloatSyntax` is the decimal form `strconv.ParseFloat` accepts: an
      optional sign, digits with an optional point (at least one digit in
      all) and an optional exponent with optional sign and digits.
    - `Parse` is the pair of gates both core files apply to a price:
      `ParseFloat` must accept it and then `NewFromString` gives its value. */
module Decimal {
  import opened Wrappers
  import opened Digits

  /** The range of the library's 32-bit exponent. */
  const MinExp: int := -0x8000_0000
  const MaxExp: int := 0x7fff_ffff

  /** Exactly v * 10^e for any integer exponent. */
  function Shifted(v: int, e: int): real {
    if e >= 0 then (v * Pow10(e)) as real else v as real / (Pow10(-e) as real)
  }

  /** Index of the first `c` in `s`, or |s| when there is none. */
  function IndexOf(s: string, c: char): (k: nat)
    ensures k <= |s|
    ensures forall j :: 0 <= j < k ==> s[j] != c
    ensures k < |s| ==> s[k] == c
  {
    if s == [] then 0 else if s[0] == c then 0 else 1 + IndexOf(s[1..], c)
  }

  /** Index of the first exponent marker, or |s|. */
  function ExponentAt(s: string): (k: nat)
    ensures k <= |s|
    ensures forall j :: 0 <= j < k ==> s[j] != 'e' && s[j] != 'E'
    ensures k < |s| ==> s[k] == 'e' || s[k] == 'E'
  {
    if s == [] then 0 else if s[0] == 'e' || s[0] == 'E' then 0 else 1 + ExponentAt(s[1..])
  }

  /** Splits an optional leading sign off: (negative?, rest). */
  function SplitSign(s: string): (bool, string) {
    if |s| > 0 && (s[0] == '+' || s[0] == '-') then (s[0] == '-', s[1..]) else (false, s)
  }

  /** A base-10 integer as `strconv.ParseInt` and `big.Int.SetString` read
      it: an optional sign, then at least one digit. */
  function Integer(s: string): Option<int> {
    var (neg, digits) := SplitSign(s);
    if |digits| >= 1 && AllDigits(digits)
    then Some(if neg then -(Value(digits) as int) else Value(digits) as int)
    else None
  }

  /** The text before the first point. */
  function Whole(m: string): string {
    m[..IndexOf(m, '.')]
  }

  /** The text after the first point ("" without one). */
  function Fraction(m: string): string {
    var p := IndexOf(m, '.');
    if p < |m| then m[p + 1..] else ""
  }

  /** The text before the exponent marker. */
  function MantissaText(s: string): string {
    s[..ExponentAt(s)]
  }

  /** The exponent after the marker (0 without one), as ParseInt reads it. */
  function ExponentOf(s: string): Option<int> {
    var k := ExponentAt(s);
    if k == |s| then Some(0) else Integer(s[k + 1..])
  }

  /** The value from the exponent, the fraction text and the joined digits,
      with the library's range and single-point checks. */
  function Assemble(exp: Option<int>, frac: string, digits: Option<int>): Option<real> {
    if exp.None? || exp.value < MinExp || exp.value > MaxExp then None
    else if IndexOf(frac, '.') < |frac| then None
    else if digits.None? then None
    else if exp.value - |frac| < MinExp then None
    else Some(Shifted(digits.value, exp.value - |frac|))
  }

  /** decimal.NewFromString. */
  function FromString(s: string): Option<real> {
    var m := MantissaText(s);
    Assemble(ExponentOf(s), Fraction(m), Integer(Whole(m) + Fraction(m)))
  }

  /** The decimal literals strconv.ParseFloat accepts. */
  predicate FloatSyntax(s: string) {
    var body := SplitSign(s).1;
    var k := ExponentAt(body);
    var m := body[..k];
    AllDigits(Whole(m)) && AllDigits(Fraction(m)) && |Whole(m)| + |Fraction(m)| >= 1 &&
    (k == |body| || Integer(body[k + 1..]).Some?)
  }

  /** A price: ParseFloat's gate, then NewFromString's exact value. */
  function Parse(s: string): Option<real> {
    if FloatSyntax(s) then FromString(s) else None
  }

  lemma {:induction false} DigitsHaveNoMarkers(s: string)
    requires AllDigits(s)
    ensures ExponentAt(s) == |s| && IndexOf(s, '.') == |s|
  {
  }

  lemma {:induction false} AllDigitsConcat(a: string, b: string)
    requires AllDigits(a) && AllDigits(b)
    ensures AllDigits(a + b)
  {
    assert forall j :: 0 <= j < |a + b| ==> (a + b)[j] == if j < |a| then a[j] else b[j - |a|];
  }

  /** The digits of a number are read back as that number. */
  lemma {:induction false} IntegerOfDigits(s: string)
    requires AllDigits(s) && |s| >= 1
    ensures Integer(s) == Some(Value(s) as int)
  {
    assert SplitSign(s) == (false, s);
  }

  /** A non-empty string of decimal digits, leading zeros included, is
      read by NewFromString as the number it denotes, and passes the
      ParseFloat gate. */
  lemma {:induction false} ParseDigits(s: string)
    requires AllDigits(s) && |s| >= 1
    ensures FromString(s) == Some(Value(s) as real)
    ensures Parse(s) == Some(Value(s) as real)
  {
    DigitsHaveNoMarkers(s);
    assert s[..|s|] == s;
    assert Whole(s) == s;
    assert Fraction(s) == "";
    assert s + "" == s;
    IntegerOfDigits(s);
    assert SplitSign(s) == (false, s);
    assert Shifted(Value(s), 0) == Value(s) as real;
  }

  /** The shortest decimal form of a natural number is read back as it by
      NewFromString, and passes the ParseFloat gate. */
  lemma {:induction false} ParseToDigits(n: nat)
    ensures FromString(Digits.ToDigits(n)) == Some(n as real)
    ensures Parse(Digits.ToDigits(n)) == Some(n as real)
  {
    ParseDigits(ToDigits(n));
    ValueOfToDigits(n);
  }

  lemma {:induction false} SplitFixedPoint(w: string, f: string)
    requires AllDigits(w) && AllDigits(f)
    ensures ExponentAt(w + "." + f) == |w + "." + f|
    ensures Whole(w + "." + f) == w && Fraction(w + "." + f) == f
    ensures IndexOf(f, '.') == |f|
  {
    var s := w + "." + f;
    forall j | 0 <= j < |s| ensures s[j] != 'e' && s[j] != 'E' {
      if j < |w| { assert s[j] == w[j]; } else if j > |w| { assert s[j] == f[j - |w| - 1]; }
    }
    assert forall j :: 0 <= j < |w| ==> s[j] != '.' by {
      forall j | 0 <= j < |w| ensures s[j] != '.' { assert s[j] == w[j]; }
    }
    assert s[|w|] == '.';
    assert IndexOf(s, '.') == |w|;
    assert s[..|w|] == w;
    assert s[|w| + 1..] == f;
    DigitsHaveNoMarkers(f);
  }

  lemma {:induction false} ShiftedDown(v: nat, k: nat)
    ensures Shifted(v, 0 - k) == v as real / (Pow10(k) as real)
  {
    if k == 0 {
      assert Pow10(k) == 1;
    }
  }

  /** A fixed-point literal `w.f` denotes its digits divided by 10^|f|;
      NewFromString refuses a fraction longer than the exponent range. */
  lemma {:induction false} FromStringFixedPoint(w: string, f: string)
    requires AllDigits(w) && AllDigits(f) && |w| + |f| >= 1
    ensures FromString(w + "." + f) ==
      if |f| <= 0x8000_0000 then Some(Value(w + f) as real / (Pow10(|f|) as real)) else None
  {
    var s := w + "." + f;
    SplitFixedPoint(w, f);
    assert s[..|s|] == s;
    AllDigitsConcat(w, f);
    IntegerOfDigits(w + f);
    ShiftedDown(Value(w + f), |f|);
  }

  /** ParseFloat accepts a fixed-point literal, so Parse agrees with
      NewFromString on it. */
  lemma {:induction false} ParseFixedPoint(w: string, f: string)
    requires AllDigits(w) && AllDigits(f) && |w| + |f| >= 1
    ensures Parse(w + "." + f) ==
      if |f| <= 0x8000_0000 then Some(Value(w + f) as real / (Pow10(|f|) as real)) else None
  {
    var s := w + "." + f;
    assert SplitSign(s) == (false, s) by {
      if |w| > 0 { assert s[0] == w[0]; } else { assert s[0] == '.'; }
    }
    SplitFixedPoint(w, f);
    assert s[..|s|] == s;
    FromStringFixedPoint(w, f);
  }

  lemma {:induction false} PartsAfterSign(s: string)
    requires |s| > 0 && s[0] != '+' && s[0] != '-'
    ensures MantissaText("-" + s) == "-" + MantissaText(s)
    ensures ExponentOf("-" + s) == ExponentOf(s)
    ensures SplitSign("-" + s) == (true, s)
  {
    var t := "-" + s;
    assert t[1..] == s;
    var k := ExponentAt(s);
    assert ExponentAt(t) == 1 + k;
    assert t[..k + 1] == "-" + s[..k];
    if k < |s| {
      assert t[k + 2..] == s[k + 1..];
    }
  }

  lemma {:induction false} PointAfterSign(m: string)
    ensures Whole("-" + m) == "-" + Whole(m) && Fraction("-" + m) == Fraction(m)
  {
    assert ("-" + m)[1..] == m;
    var p := IndexOf(m, '.');
    assert IndexOf("-" + m, '.') == 1 + p;
    assert ("-" + m)[..1 + p] == "-" + m[..p];
    if p < |m| {
      assert ("-" + m)[1 + p + 1..] == m[p + 1..];
    }
  }

  lemma {:induction false} ShiftedNegated(v: int, e: int)
    ensures Shifted(-v, e) == -Shifted(v, e)
  {
    if e >= 0 {
      var p := Pow10(e);
      NegatedProduct(v, p);
    } else {
      var d := Pow10(-e) as real;
      NegatedQuotient(v as real, d);
    }
  }

  lemma {:induction false} NegatedProduct(v: int, p: int)
    ensures (-v) * p == -(v * p)
  {
  }

  lemma {:induction false} NegatedQuotient(x: real, d: real)
    requires d != 0.0
    ensures (-x) / d == -(x / d)
  {
  }

  lemma {:induction false} AssembleNegated(exp: Option<int>, frac: string, v: int)
    ensures Assemble(exp, frac, Some(-v)) ==
      (match Assemble(exp, frac, Some(v)) case None => None case Some(x) => Some(-x))
  {
    if exp.Some? {
      ShiftedNegated(v, exp.value - |frac|);
    }
  }

  lemma {:induction false} NegatedDigits(d: string)
    requires AllDigits(d) && |d| >= 1
    ensures Integer(d) == Some(Value(d) as int)
    ensures Integer("-" + d) == Some(-(Value(d) as int))
  {
    IntegerOfDigits(d);
    assert ("-" + d)[1..] == d;
    assert SplitSign("-" + d) == (true, d);
  }

  lemma {:induction false} FromStringParts(s: string, e: Option<int>, frac: string, digits: string)
    requires ExponentOf(s) == e && Fraction(MantissaText(s)) == frac
    requires Whole(MantissaText(s)) + frac == digits
    ensures FromString(s) == Assemble(e, frac, Integer(digits))
  {
  }

  lemma {:induction false} NegatedText(s: string)
    requires |s| > 0 && s[0] != '+' && s[0] != '-'
    ensures ExponentOf("-" + s) == ExponentOf(s)
    ensures Fraction(MantissaText("-" + s)) == Fraction(MantissaText(s))
    ensures Whole(MantissaText("-" + s)) + Fraction(MantissaText(s))
         == "-" + (Whole(MantissaText(s)) + Fraction(MantissaText(s)))
  {
    PartsAfterSign(s);
    var m := MantissaText(s);
    PointAfterSign(m);
    assert ("-" + Whole(m)) + Fraction(m) == "-" + (Whole(m) + Fraction(m));
  }

  lemma {:induction false} FromStringNegated(s: string)
    requires |s| > 0 && s[0] != '+' && s[0] != '-'
    requires AllDigits(Whole(MantissaText(s))) && AllDigits(Fraction(MantissaText(s)))
    requires |Whole(MantissaText(s))| + |Fraction(MantissaText(s))| >= 1
    ensures FromString("-" + s) == (match FromString(s) case None => None case Some(v) => Some(-v))
  {
    var m := MantissaText(s);
    var w, f := Whole(m), Fraction(m);
    var d := w + f;
    var e := ExponentOf(s);
    NegatedText(s);
    AllDigitsConcat(w, f);
    NegatedDigits(d);
    FromStringParts("-" + s, e, f, "-" + d);
    FromStringParts(s, e, f, d);
    AssembleNegated(e, f, Value(d) as int);
  }

  /** A leading minus negates the value of an unsigned literal that passes
      the ParseFloat gate. */
  lemma {:induction false} ParseNegated(s: string)
    requires |s| > 0 && s[0] != '+' && s[0] != '-'
    ensures Parse("-" + s) == (match Parse(s) case None => None case Some(v) => Some(-v))
  {
    PartsAfterSign(s);
    assert SplitSign(s) == (false, s);
    assert FloatSyntax("-" + s) == FloatSyntax(s);
    if FloatSyntax(s) {
      FromStringNegated(s);
    }
  }

  /** NewFromString alone (as the string converters call it) accepts
      literals the ParseFloat gate refuses: ".-5" is -0.05. */
  lemma {:induction false} SignAfterPoint()
    ensures FromString(".-5") == Some(-0.05)
    ensures Parse(".-5") == None
  {
    var s := ".-5";
    DigitsHaveNoMarkers("");
    assert ExponentAt(s) == 3;
    assert s[..3] == s;
    assert IndexOf(s, '.') == 0;
    assert Whole(s) == "" && Fraction(s) == "-5";
    assert IndexOf("-5", '.') == 2;
    assert "" + "-5" == "-5";
    assert SplitSign("-5") == (true, "5");
    assert Value("5") == 5;
    assert Integer("-5") == Some(-5);
    assert Pow10(2) == 100;
    assert Shifted(-5, -2) == -0.05;
    assert !AllDigits("-5");
  }
}
