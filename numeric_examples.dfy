/**
 * The worked examples of `parseNumeric`: each is an instance of one of the
 * general shape lemmas, followed by the arithmetic of its digits.
 */
module NumericExamples {
  import opened Wrappers
  import opened Text
  import opened NumericParse

  lemma {:induction false} SmallValues()
    ensures DigitsValue("1") == 1 && DigitsValue("12") == 12
    ensures DigitsValue("234") == 234 && DigitsValue("1234") == 1234
    ensures Pow10(3) == 1000
  {
    assert "12"[..1] == "1" && "1"[..0] == "";
    assert "234"[..2] == "23" && "23"[..1] == "2" && "2"[..0] == "";
    assert "1234"[..3] == "123" && "123"[..2] == "12";
  }

  lemma {:induction false} SmallFractions()
    ensures FracValue("56") == 0.56 && FracValue("5") == 0.5
  {
    assert "56"[1..] == "6" && "6"[1..] == "" && "5"[1..] == "";
  }

  lemma {:induction false} SmallDigits()
    ensures AllDigits("1") && AllDigits("12") && AllDigits("234") && AllDigits("1234")
    ensures AllDigits("5") && AllDigits("56")
  {
  }

  lemma {:induction false} EuropeanAt(x: string, y: string, z: string)
    requires x == "1" && y == "234" && z == "56"
    ensures ParseNumeric(x + "." + y + "," + z) == Some(1234.56)
  {
    SmallDigits();
    ParseEuropean(x, y, z);
    SmallValues();
    SmallFractions();
  }

  lemma {:induction false} UsAt(x: string, y: string, z: string)
    requires x == "1" && y == "234" && z == "56"
    ensures ParseNumeric(x + "," + y + "." + z) == Some(1234.56)
  {
    SmallDigits();
    ParseUs(x, y, z);
    SmallValues();
    SmallFractions();
  }

  lemma {:induction false} CommaAt(x: string, y: string)
    requires x == "1" && y == "5"
    ensures ParseNumeric(x + "," + y) == Some(1.5)
  {
    SmallDigits();
    ParseDecimalComma(x, y);
    SmallValues();
    SmallFractions();
  }

  lemma {:induction false} NegativeAt(x: string, y: string)
    requires x == "12" && y == "5"
    ensures ParseNumeric("-" + x + "." + y) == Some(-12.5)
  {
    SmallDigits();
    ParseNegative(x, y);
    SmallValues();
    SmallFractions();
  }

  lemma {:induction false} Spellings()
    ensures "1" + "." + "234" + "," + "56" == "1.234,56"
    ensures "1" + "," + "234" + "." + "56" == "1,234.56"
    ensures "1" + "," + "5" == "1,5"
    ensures "-" + "12" + "." + "5" == "-12.5"
  {
  }

  /** European style: `"1.234,56"` is 1234.56. */
  lemma {:induction false} ExampleEuropean()
    ensures ParseNumeric("1.234,56") == Some(1234.56)
  {
    EuropeanAt("1", "234", "56");
    Spellings();
  }

  /** US style: `"1,234.56"` is 1234.56. */
  lemma {:induction false} ExampleUs()
    ensures ParseNumeric("1,234.56") == Some(1234.56)
  {
    UsAt("1", "234", "56");
    Spellings();
  }

  /** A lone comma is the decimal point: `"1,5"` is 1.5. */
  lemma {:induction false} ExampleComma()
    ensures ParseNumeric("1,5") == Some(1.5)
  {
    CommaAt("1", "5");
    Spellings();
  }

  /** A sign is kept: `"-12.5"` is -12.5. */
  lemma {:induction false} ExampleNegative()
    ensures ParseNumeric("-12.5") == Some(-12.5)
  {
    NegativeAt("12", "5");
    Spellings();
  }

  /** A plain integer: `"1234"` is 1234. */
  lemma {:induction false} ExampleInteger()
    ensures ParseNumeric("1234") == Some(1234.0)
  {
    SmallDigits();
    ParseInteger("1234");
    SmallValues();
  }

  /** A placeholder without digits is no number, rather than 0. */
  lemma {:induction false} ExampleMissing()
    ensures ParseNumeric("N/A") == None
  {
    ParseNumericDefined("N/A");
    assert !HasDigit("N/A") by {
      forall k | 0 <= k < 3 ensures !IsDigit("N/A"[k]) { }
    }
  }
}
