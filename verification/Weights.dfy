/** Weights: decimal numerals, printed as floating point numbers are. */
module Weights {
  import opened Text

  /** A weight, as the decimal numeral that stands for it. */
  datatype Weight = Weight(whole: int, fraction: string)

  /** From here on numbers are printed with an exponent. */
  const LARGE := 10000000000000000

  // ---------- Numerals ----------

  /** A numeral in shortest form: a single zero, or no zero at the end. */
  predicate FractionOk(f: string) {
    f != "" && Digit.All(f) && (f == "0" || f[|f| - 1] != '0')
  }

  predicate Numeral(w: Weight) {
    w.whole >= 0 && FractionOk(w.fraction)
  }

  function TrimZeros(digits: string): (f: string)
    requires Digit.All(digits)
    ensures FractionOk(f)
  {
    if digits == "" then "0"
    else if digits[|digits| - 1] == '0' then TrimZeros(digits[..|digits| - 1])
    else digits
  }

  /** The number that a run of digits and points starts with. */
  function WeightOf(s: string): Weight {
    var n := Span(Digit, s);
    var digits := if n < |s| && s[n] == '.' then s[n + 1..][..Span(Digit, s[n + 1..])] else "";
    Weight(NatOf(s[..n]), TrimZeros(digits))
  }

  /** The number of zeros at the start. */
  function Zeros(digits: string): (n: nat)
    ensures n <= |digits|
  {
    if digits == "" || digits[0] != '0' then 0 else 1 + Zeros(digits[1..])
  }

  /** Zero, or from 0.0001 up to but not including LARGE. */
  predicate Moderate(w: Weight) {
    if w.whole == 0 then w.fraction == "0" || Zeros(w.fraction) < 4 else w.whole < LARGE
  }

  // ---------- Printing ----------

  function PlainText(w: Weight): string {
    Int(w.whole) + "." + w.fraction
  }

  /** The digits of a weight from the first that is not zero on. */
  function Significant(w: Weight): (s: string)
    requires Numeral(w) && !Moderate(w)
    ensures s != "" && Digit.All(s)
  {
    if w.whole == 0 then
      SomeDigit(w.fraction);
      w.fraction[Zeros(w.fraction)..]
    else Int(w.whole) + if w.fraction == "0" then "" else w.fraction
  }

  lemma {:induction false} SomeDigit(f: string)
    requires f != "" && f[|f| - 1] != '0'
    ensures Zeros(f) < |f|
    decreases |f|
  {
    if f[0] == '0' {
      SomeDigit(f[1..]);
    }
  }

  function Exponent(w: Weight): int {
    if w.whole == 0 then -1 - Zeros(w.fraction) as int else |Int(w.whole)| - 1
  }

  /** The sign and at least two digits of an exponent. */
  function ExponentText(e: int): string {
    var digits := Int(if e < 0 then -e else e);
    (if e < 0 then "-" else "+") + (if |digits| == 1 then "0" else "") + digits
  }

  /** The mantissa of a weight printed with an exponent. */
  function Mantissa(w: Weight): (s: string)
    requires Numeral(w) && !Moderate(w)
    ensures s != "" && Decimal.All(s)
  {
    var digits := Significant(w);
    var more := TrimZeros(digits[1..]);
    assert Digit.Has(digits[0]) && forall k | 0 <= k < |more| :: Digit.Has(more[k]);
    digits[..1] + "." + more
  }

  function WeightText(w: Weight): string {
    if Numeral(w) && !Moderate(w) then Mantissa(w) + ("e" + ExponentText(Exponent(w))) else PlainText(w)
  }

  // ---------- Reading printed weights ----------

  lemma PlainDecimal(w: Weight)
    requires Numeral(w)
    ensures PlainText(w) != "" && Decimal.All(PlainText(w)) && Word.All(PlainText(w))
  {
    assert forall k | 0 <= k < |Int(w.whole)| :: Digit.Has(Int(w.whole)[k]);
    assert forall k | 0 <= k < |w.fraction| :: Digit.Has(w.fraction[k]);
  }

  lemma ExponentWord(e: int)
    ensures Word.All(ExponentText(e))
  {
    var digits := Int(if e < 0 then -e else e);
    assert forall k | 0 <= k < |digits| :: Digit.Has(digits[k]);
  }

  lemma DecimalWord(s: string)
    requires Decimal.All(s)
    ensures Word.All(s)
  {
    forall k | 0 <= k < |s| ensures Word.Has(s[k]) {
      assert Decimal.Has(s[k]);
    }
  }

  lemma WordConcat(a: string, b: string)
    requires Word.All(a) && Word.All(b)
    ensures Word.All(a + b)
  {
  }

  /** A printed weight is one word. */
  lemma WeightWord(w: Weight)
    requires Numeral(w)
    ensures WeightText(w) != "" && Word.All(WeightText(w))
  {
    PlainDecimal(w);
    if !Moderate(w) {
      DecimalWord(Mantissa(w));
      ExponentWord(Exponent(w));
      WordConcat("e", ExponentText(Exponent(w)));
      WordConcat(Mantissa(w), "e" + ExponentText(Exponent(w)));
    }
  }

  lemma TrimmedAlready(f: string)
    requires FractionOk(f)
    ensures TrimZeros(f) == f
  {
    if f == "0" {
      assert f[..0] == "";
    }
  }

  lemma WeightParts(whole: string, f: string)
    requires whole != "" && Digit.All(whole) && Digit.All(f)
    ensures var s := whole + "." + f;
      var n := |whole|;
      && Span(Digit, s) == n && s[..n] == whole && s[n] == '.'
      && s[n + 1..][..Span(Digit, s[n + 1..])] == f
  {
    var s := whole + "." + f;
    assert s == whole + ("." + f);
    MatchFirst(Digit, whole, "." + f);
    assert s[|whole| + 1..] == f;
    SpanUnique(Digit, f, |f|);
    assert f[..|f|] == f;
  }

  lemma PlainRead(w: Weight)
    requires Numeral(w)
    ensures WeightOf(PlainText(w)) == w
  {
    IntField(w.whole);
    WeightParts(Int(w.whole), w.fraction);
    TrimmedAlready(w.fraction);
  }

  /** A weight is printed in the characters that the reader takes exactly when it is plain, and then it
      is read back as itself. */
  lemma WeightRead(w: Weight)
    requires Numeral(w)
    ensures Decimal.All(WeightText(w)) <==> Moderate(w)
    ensures Moderate(w) ==> WeightOf(WeightText(w)) == w
  {
    PlainDecimal(w);
    PlainRead(w);
    if !Moderate(w) {
      var text, n := WeightText(w), |Mantissa(w)|;
      assert text[n] == ("e" + ExponentText(Exponent(w)))[0] == 'e' && !Decimal.Has(text[n]);
    }
  }

  /** No line that starts with the exponent form matches a decimal field. */
  lemma ExponentRefused(w: Weight, classes: seq<CharClass>, rest: string)
    requires Numeral(w) && !Moderate(w) && |classes| > 1 && classes[0] == Decimal
    ensures MatchFields(classes, false, WeightText(w) + rest) == None
  {
    var m, tail := Mantissa(w), "e" + ExponentText(Exponent(w)) + rest;
    Assoc(m, "e" + ExponentText(Exponent(w)), rest);
    MatchFirst(Decimal, m, tail);
  }

  // ---------- Two weights that the reader takes and the printer spoils ----------

  lemma TinyText()
    ensures Numeral(Weight(0, "00001")) && !Moderate(Weight(0, "00001")) && WeightText(Weight(0, "00001")) == "1.0e-05"
  {
    var f := "00001";
    assert f[1..] == "0001" && f[1..][1..] == "001" && f[1..][1..][1..] == "01" && f[1..][1..][1..][1..] == "1";
    assert Zeros("1") == 0 && Zeros("01") == 1 && Zeros("001") == 2 && Zeros("0001") == 3 && Zeros(f) == 4;
    assert f[4..] == "1" && "1"[1..] == "" && "1"[..1] == "1";
    assert Int(5) == "5";
  }

  function Nils(n: nat): (s: string)
    ensures |s| == n && Digit.All(s)
  {
    if n == 0 then "" else Nils(n - 1) + "0"
  }

  function Power(n: nat): (p: nat)
    ensures p > 0
  {
    if n == 0 then 1 else 10 * Power(n - 1)
  }

  lemma {:induction false} PowerText(n: nat)
    ensures Dec(Power(n)) == "1" + Nils(n)
    decreases n
  {
    if n > 0 {
      PowerText(n - 1);
      assert Power(n) / 10 == Power(n - 1) && Power(n) % 10 == 0;
      assert ['0'] == "0";
    }
  }

  lemma {:induction false} TrimNils(n: nat)
    ensures TrimZeros(Nils(n)) == "0"
    decreases n
  {
    if n > 0 {
      TrimNils(n - 1);
      assert Nils(n)[..n - 1] == Nils(n - 1);
    }
  }

  /** The text of a power of ten that is too large. */
  lemma HugeText(n: nat)
    requires Power(n) >= LARGE
    ensures Numeral(Weight(Power(n), "0")) && !Moderate(Weight(Power(n), "0"))
    ensures WeightText(Weight(Power(n), "0")) == "1.0e" + ExponentText(n)
  {
    PowerText(n);
    HugeMantissa(n);
    Assoc("1.0", "e", ExponentText(n));
  }

  lemma HugeMantissa(n: nat)
    requires Power(n) >= LARGE && Dec(Power(n)) == "1" + Nils(n)
    ensures Mantissa(Weight(Power(n), "0")) == "1.0" && Exponent(Weight(Power(n), "0")) == n
  {
    var digits := Significant(Weight(Power(n), "0"));
    assert digits == "1" + Nils(n);
    assert digits[1..] == Nils(n) && digits[..1] == "1";
    TrimNils(n);
  }

  lemma SixteenNils()
    ensures Power(16) == LARGE
  {
    assert Power(4) == 10000 && Power(8) == 100000000 && Power(12) == 1000000000000;
  }

  lemma TinyRead()
    ensures WeightOf("0.00001") == Weight(0, "00001")
  {
    PlainRead(Weight(0, "00001"));
    assert Int(0) == "0" && "0" + "." + "00001" == "0.00001";
  }

  lemma {:induction false} NilsRead(n: nat)
    ensures NatOf("1" + Nils(n)) == Power(n)
    decreases n
  {
    PowerText(n);
    NatOfDec(Power(n));
  }

  lemma HugeRead(n: nat)
    ensures WeightOf("1" + Nils(n)) == Weight(Power(n), "0")
  {
    var s := "1" + Nils(n);
    SpanUnique(Digit, s, |s|);
    assert s[..|s|] == s;
    NilsRead(n);
  }

  lemma SixteenText()
    ensures Numeral(Weight(LARGE, "0")) && !Moderate(Weight(LARGE, "0"))
    ensures WeightText(Weight(LARGE, "0")) == "1.0e+16"
    ensures WeightOf("10000000000000000") == Weight(LARGE, "0")
  {
    SixteenNils();
    HugeText(16);
    HugeRead(16);
    SixteenExponent();
    SixteenZeros();
  }

  lemma SixteenExponent()
    ensures "1.0e" + ExponentText(16) == "1.0e+16"
  {
    assert Dec(1) == "1" && Dec(16) == Dec(1) + ['6'];
    assert "1" + ['6'] == "16";
  }

  lemma SixteenZeros()
    ensures "1" + Nils(16) == "10000000000000000"
  {
    assert Nils(2) == "00" && Nils(4) == Nils(2) + "00" && Nils(6) == Nils(4) + "00" && Nils(8) == Nils(6) + "00";
    assert Nils(10) == Nils(8) + "00" && Nils(12) == Nils(10) + "00" && Nils(14) == Nils(12) + "00";
    assert Nils(16) == Nils(14) + "00";
  }
}
