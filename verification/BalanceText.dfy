/**
 What the printed balances mean: the printer never overstates, and the scaled parser gives back exactly
 the balances whose printed form cut nothing off.
 */
module BalanceText {
  import opened Options
  import opened Sequences
  import opened Numerals
  import opened FixedBytes
  import opened Amounts

  function FixedPoint(whole: nat, n: nat, frac: nat, k: nat): nat
  {
    whole * Pow(10, n) + frac * Pow(10, k)
  }

  /** The scaled number that a plain fixed-point text denotes at scale 10^n. */
  function Denoted(t: string, n: nat): nat
  {
    var p := Find(t, '.');
    if p == |t| then FixedPoint(Val(10, CharValues(t)), n, 0, 0)
    else if |t| - p - 1 > n then 0
    else FixedPoint(Val(10, CharValues(t[..p])), n, Val(10, CharValues(t[p + 1..])), n - (|t| - p - 1))
  }

  function PlainText(whole: seq<nat>, frac: seq<nat>): string
    requires Digits(10, whole) && Digits(10, frac)
  {
    if frac == [] then DecText(whole) else DecText(whole) + "." + DecText(frac)
  }

  lemma PointPosition(whole: seq<nat>, frac: seq<nat>)
    requires Digits(10, whole) && Digits(10, frac)
    ensures var t := PlainText(whole, frac);
            && Find(t, '.') == |whole|
            && t[..|whole|] == DecText(whole)
            && (frac == [] ==> |t| == |whole|)
            && (frac != [] ==> |t| == |whole| + 1 + |frac| && t[|whole| + 1..] == DecText(frac))
  {
    var t := PlainText(whole, frac);
    assert forall i :: 0 <= i < |whole| ==> t[i] != '.';
    if frac != [] { assert t[|whole|] == '.'; }
    assert t[..|whole|] == DecText(whole);
  }

  lemma PlainDenotes(whole: seq<nat>, frac: seq<nat>, n: nat)
    requires Digits(10, whole) && Digits(10, frac) && |frac| <= n
    ensures Denoted(PlainText(whole, frac), n) == Val(10, whole) * Pow(10, n) + Val(10, frac) * Pow(10, n - |frac|)
  {
    PointPosition(whole, frac);
    ReadBack(10, whole, true);
    ReadBack(10, frac, true);
    TextDenotes(PlainText(whole, frac), DecText(whole), DecText(frac), n);
  }

  lemma TextDenotes(t: string, whole: string, frac: string, n: nat)
    requires Find(t, '.') == |whole| && |frac| <= n && t[..|whole|] == whole
    requires if frac == "" then t == whole else |t| == |whole| + 1 + |frac| && t[|whole| + 1..] == frac
    ensures Denoted(t, n)
         == Val(10, CharValues(whole)) * Pow(10, n) + Val(10, CharValues(frac)) * Pow(10, n - |frac|)
  {
    if frac == "" {
      assert CharValues(frac) == [];
    }
  }

  function Whole(balance: nat, n: nat): nat
  {
    Quot(balance, Pow(10, n))
  }

  function Fraction(balance: nat, n: nat, precision: int): (ds: seq<nat>)
    ensures Digits(10, ds) && |ds| <= n
  {
    FracDigits(balance % Pow(10, n), n, precision)
  }

  function CutOff(balance: nat, n: nat, precision: int): nat
  {
    FracRest(balance % Pow(10, n), n, precision)
  }

  lemma PrintedIsPlain(balance: nat, n: nat, precision: int, gs: seq<int>)
    ensures PrintedText(balance, n, precision, NO_SEPARATOR, '.', gs)
            == PlainText(Canon(10, Whole(balance, n)), Fraction(balance, n, precision))
  {
    var whole, frac := Canon(10, Whole(balance, n)), Fraction(balance, n, precision);
    MarkedPlain(whole, 0, gs);
    assert precision > 0 && balance % Pow(10, n) > 0 <==> frac != [];
    if frac == [] {
      assert DecText(whole) + "" == DecText(whole);
    } else {
      ConcatAssoc(DecText(whole), ".", DecText(frac));
    }
  }

  /** Whole and fraction digits make up the balance less what the precision cut off. */
  lemma SplitBalance(balance: nat, n: nat, precision: int)
    ensures var frac := Fraction(balance, n, precision);
            Val(10, Canon(10, Whole(balance, n))) * Pow(10, n) + Val(10, frac) * Pow(10, n - |frac|)
            + CutOff(balance, n, precision) == balance
  {
    CanonVal(10, Whole(balance, n));
    FracValue(balance % Pow(10, n), n, precision);
  }

  lemma PrintedDenotes(balance: nat, n: nat, precision: int, gs: seq<int>)
    ensures Denoted(PrintedText(balance, n, precision, NO_SEPARATOR, '.', gs), n) + CutOff(balance, n, precision) == balance
  {
    var t := PlainText(Canon(10, Whole(balance, n)), Fraction(balance, n, precision));
    assert Denoted(t, n) + CutOff(balance, n, precision) == balance by {
      PlainDenotes(Canon(10, Whole(balance, n)), Fraction(balance, n, precision), n);
      SplitBalance(balance, n, precision);
    }
    PrintedIsPlain(balance, n, precision, gs);
  }

  /** One unit of the last place that the precision asks for. */
  function Unit(n: nat, precision: nat): nat
  {
    if precision <= n then Pow(10, n - precision) else 1
  }

  lemma CutOffBelowUnit(balance: nat, n: nat, precision: nat)
    ensures CutOff(balance, n, precision) < Unit(n, precision)
  {
    var frac := balance % Pow(10, n);
    FracRestBound(frac, n, precision);
    if |FracDigits(frac, n, precision)| == n { assert Pow(10, 0) == 1; }
  }

  /** A text whose first and last characters are digits. */
  predicate DigitsOutside(t: string)
  {
    |t| > 0 && '0' <= t[0] <= '9' && '0' <= t[|t| - 1] <= '9'
  }

  lemma PlainHasDigitsOutside(whole: seq<nat>, frac: seq<nat>)
    requires Digits(10, whole) && Digits(10, frac) && whole != []
    ensures DigitsOutside(PlainText(whole, frac))
  {
    assert PlainText(whole, frac)[0] == DecText(whole)[0];
  }

  lemma PrintedHasDigitsOutside(balance: nat, n: nat, precision: int, gs: seq<int>)
    ensures DigitsOutside(PrintedText(balance, n, precision, NO_SEPARATOR, '.', gs))
  {
    PrintedIsPlain(balance, n, precision, gs);
    PlainHasDigitsOutside(Canon(10, Whole(balance, n)), Fraction(balance, n, precision));
  }

  lemma BelowTextStart(precision: int)
    ensures BelowText(precision, '.')[0] == '<'
  {
  }

  /** The printer fails exactly on a non-zero balance below the scale with more places than the scale has. */
  lemma FormatFailsExactly(balance: nat, n: nat, precision: int, group: bool, sep: char, point: char, gs: seq<int>)
    ensures FormatBalanceText(balance, n, precision, group, sep, point, gs).None?
            <==> precision > n && 0 < balance < Pow(10, n)
  {
  }

  lemma FormatFailureWitness()
    ensures FormatBalanceText(1, 1, 2, false, ',', '.', []).None?
  {
    assert Pow(10, 1) == 10;
  }

  /** Without grouping the text never overstates, and understates by less than one unit of the last place. */
  lemma NeverOverstates(balance: nat, n: nat, precision: nat, sep: char, gs: seq<int>)
    requires FormatBalanceText(balance, n, precision, false, sep, '.', gs).Some?
    ensures var t := FormatBalanceText(balance, n, precision, false, sep, '.', gs).value;
            if precision <= n && 0 < balance < Unit(n, precision) then t == BelowText(precision, '.')
            else
              && Denoted(t, n) <= balance < Denoted(t, n) + Unit(n, precision)
              && DigitsOutside(t) && t != BelowText(precision, '.')
  {
    PrintedDenotes(balance, n, precision, gs);
    CutOffBelowUnit(balance, n, precision);
    PrintedHasDigitsOutside(balance, n, precision, gs);
    BelowTextStart(precision);
  }

  // ---------- the scaled parser ----------

  lemma ScaleLength(n: nat)
    ensures |Canon(10, Pow(10, n))| == n + 1
  {
    DigitCount(Pow(10, n), n + 1);
  }

  /** Every number the scaled parser returns is the one its text denotes. */
  lemma ParserSound(t: string, n: nat)
    requires DecodeScaled(t, Pow(10, n)).Some?
    ensures DecodeScaled(t, Pow(10, n)).value == Denoted(t, n)
  {
    ScaleLength(n);
  }

  lemma SmallScale(n: nat)
    requires Pow(10, n) < TWO_128
    ensures n <= 38
  {
    assert TWO_128 <= Pow(10, 39) by { AmountDigits(TWO_128 - 1); }
    if n >= 39 { PowMonotone(10, 39, n); }
  }

  lemma WholeDigits(balance: nat, n: nat)
    requires balance < TWO_128 && n <= 38
    ensures |Canon(10, Whole(balance, n))| <= 39 - n
    ensures Whole(balance, n) * Pow(10, n) <= balance && Whole(balance, n) <= balance
  {
    AmountDigits(balance);
    PowAdd(10, n, 39 - n);
    DivBelow(balance, Pow(10, n), Pow(10, 39 - n));
    CanonLength(10, Whole(balance, n), 39 - n);
    MulGe(Whole(balance, n), Pow(10, n));
  }

  lemma DecodeNumeral(v: nat)
    requires v < TWO_128
    ensures DecodeDec(EncodeDec(v), false) == Some(v)
  {
    AmountDigits(v);
    CanonVal(10, v);
    CanonHead(10, v);
    ReadBack(10, Canon(10, v), true);
  }

  lemma DecodeDecimals(ds: seq<nat>)
    requires Digits(10, ds) && 0 < |ds| <= 38
    ensures DecodeDec(DecText(ds), true) == Some(Val(10, ds))
  {
    ReadBack(10, ds, true);
    ValBound(10, ds);
    PowMonotone(10, |ds|, 38);
    assert Pow(10, 38) < TWO_128 by { ThirtyEightDigits(); }
  }

  lemma ThirtyEightDigits()
    ensures Pow(10, 38) < TWO_128
  {
    assert Pow(10, 2) == 100;
    PowAdd(10, 2, 2);
    PowAdd(10, 4, 4);
    PowAdd(10, 8, 8);
    PowAdd(10, 16, 16);
    PowAdd(10, 32, 4);
    PowAdd(10, 36, 2);
  }

  /** A printed text that cut nothing off is accepted. */
  lemma PrintedParses(balance: nat, n: nat, precision: int, gs: seq<int>)
    requires balance < TWO_128 && Pow(10, n) < TWO_128 && CutOff(balance, n, precision) == 0
    ensures DecodeScaled(PrintedText(balance, n, precision, NO_SEPARATOR, '.', gs), Pow(10, n)) == Some(balance)
  {
    SmallScale(n);
    WholeDigits(balance, n);
    PrintedIsPlain(balance, n, precision, gs);
    SplitBalance(balance, n, precision);
    CanonVal(10, Whole(balance, n));
    DecodeNumeral(Whole(balance, n));
    PlainParses(Canon(10, Whole(balance, n)), Fraction(balance, n, precision), n, Whole(balance, n), balance);
  }

  lemma PlainParses(whole: seq<nat>, frac: seq<nat>, n: nat, v: nat, balance: nat)
    requires Digits(10, whole) && Digits(10, frac) && 0 < |whole| <= 39 - n && |frac| <= n <= 38
    requires DecodeDec(DecText(whole), false) == Some(v)
    requires v * Pow(10, n) + Val(10, frac) * Pow(10, n - |frac|) == balance < TWO_128 && v * Pow(10, n) <= balance
    ensures DecodeScaled(PlainText(whole, frac), Pow(10, n)) == Some(balance)
  {
    var t := PlainText(whole, frac);
    PointPosition(whole, frac);
    PlainHasDigitsOutside(whole, frac);
    if frac == [] {
      ParsesWhole(t, n, v);
    } else {
      DecodeDecimals(frac);
      ParsesFraction(DecText(whole), DecText(frac), n, v, Val(10, frac), balance);
    }
  }

  lemma ParsesWhole(t: string, n: nat, whole: nat)
    requires 0 < |t| <= 40 && t[0] != '-' && Find(t, '.') == |t|
    requires DecodeDec(t, false) == Some(whole) && whole * Pow(10, n) < TWO_128
    ensures DecodeScaled(t, Pow(10, n)) == Some(whole * Pow(10, n))
  {
  }

  lemma ParsesFraction(wholeText: string, fracText: string, n: nat, whole: nat, frac: nat, balance: nat)
    requires balance < TWO_128 && wholeText != "" && 0 < |fracText| <= n
    requires DecodeDec(wholeText, false) == Some(whole) && DecodeDec(fracText, true) == Some(frac)
    requires whole * Pow(10, n) <= balance && whole * Pow(10, n) + frac * Pow(10, n - |fracText|) == balance
    ensures DecodeFraction(wholeText, fracText, Pow(10, n)) == Some(balance)
  {
    ScaleLength(n);
  }

  lemma CutOffExactly(balance: nat, n: nat, precision: nat)
    requires precision <= n
    ensures CutOff(balance, n, precision) == 0 <==> balance % Pow(10, n - precision) == 0
  {
    var unit, k := Pow(10, n - precision), |Fraction(balance, n, precision)|;
    var w, f, rest := Whole(balance, n), Val(10, Fraction(balance, n, precision)), CutOff(balance, n, precision);
    SplitBalance(balance, n, precision);
    CanonVal(10, w);
    FracRestBound(balance % Pow(10, n), n, precision);
    assert rest < unit by { CutOffBelowUnit(balance, n, precision); }
    assert k <= precision;
    PowAdd(10, n - precision, precision);
    if rest == 0 || k == precision {
      PowAdd(10, n - precision, precision - k);
      Multiples(w, Pow(10, precision), f, Pow(10, precision - k), unit);
      DivModUnique(balance, unit, w * Pow(10, precision) + f * Pow(10, precision - k), rest);
    }
  }

  lemma Multiples(w: nat, a: nat, f: nat, b: nat, unit: nat)
    ensures w * (unit * a) + f * (unit * b) == (w * a + f * b) * unit
  {
    assert w * (unit * a) == (w * a) * unit;
    assert f * (unit * b) == (f * b) * unit;
  }

  lemma BelowTextRejected(precision: int, scale: nat)
    ensures DecodeScaled(BelowText(precision, '.'), scale).None?
  {
    var t := BelowText(precision, '.');
    var p := Find(t, '.');
    assert CharValues(t)[0] == NOT_A_DIGIT;
    if p < |t| {
      assert t[..p][0] == '<' && CharValues(t[..p])[0] == NOT_A_DIGIT;
    }
  }

  predicate ReadsBack(balance: nat, n: nat, precision: int, sep: char, gs: seq<int>)
  {
    var r := FormatBalanceText(balance, n, precision, false, sep, '.', gs);
    r.Some? && DecodeScaled(r.value, Pow(10, n)) == Some(balance)
  }

  /**
   Printing a balance and parsing the text at the same scale gives the balance back exactly when nothing
   was cut off: the places not printed are all zero, and the printer did not fail.
   */
  lemma BalanceRoundTrip(balance: nat, n: nat, precision: nat, sep: char, gs: seq<int>)
    requires balance < TWO_128 && Pow(10, n) < TWO_128
    ensures ReadsBack(balance, n, precision, sep, gs)
            <==> if precision <= n then balance % Pow(10, n - precision) == 0 else !(0 < balance < Pow(10, n))
  {
    var t := PrintedText(balance, n, precision, NO_SEPARATOR, '.', gs);
    FormatFailsExactly(balance, n, precision, false, sep, '.', gs);
    if precision <= n {
      CutOffExactly(balance, n, precision);
      if 0 < balance < Pow(10, n - precision) {
        BelowTextRejected(precision, Pow(10, n));
        DivModUnique(balance, Pow(10, n - precision), 0, balance);
      } else if CutOff(balance, n, precision) == 0 {
        PrintedParses(balance, n, precision, gs);
      } else {
        PrintedDenotes(balance, n, precision, gs);
        if DecodeScaled(t, Pow(10, n)).Some? { ParserSound(t, n); }
      }
    } else {
      CutOffBelowUnit(balance, n, precision);
      PrintedParses(balance, n, precision, gs);
    }
  }

  /** In particular every balance survives at the full precision of its scale. */
  lemma FullPrecisionRoundTrip(balance: nat, n: nat, sep: char, gs: seq<int>)
    requires balance < TWO_128 && Pow(10, n) < TWO_128
    ensures ReadsBack(balance, n, n, sep, gs)
    ensures |FormatBalanceText(balance, n, n, false, sep, '.', gs).value| <= 40
  {
    BalanceRoundTrip(balance, n, n, sep, gs);
    assert Pow(10, 0) == 1;
    assert balance % Pow(10, n - n) == 0;
  }
}
