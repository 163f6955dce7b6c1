/**
 Exactly which amount texts are read, and exactly what format_balance prints, with grouping and without
 (numbers.cpp, decode_dec and format_balance).
 */
module BalanceForms {
  import opened Options
  import opened Sequences
  import opened Numerals
  import opened FixedBytes
  import opened Amounts
  import opened BalanceText

  // ---------- exactly which texts are read ----------

  /** Up to 39 digits, without a leading zero unless it is the only one. */
  predicate NumeralText(t: string)
  {
    |t| <= 39 && Digits(10, CharValues(t)) && (|t| > 1 ==> t[0] != '0')
  }

  /** encode_dec prints the digits of the value without a leading zero. */
  lemma DecPrinted(n: nat)
    ensures var t := EncodeDec(n);
            && t != "" && (forall i :: 0 <= i < |t| ==> '0' <= t[i] <= '9') && (|t| > 1 ==> t[0] != '0')
            && ReadNumber(10, t) == Some(n)
  {
    CanonVal(10, n);
    CanonHead(10, n);
    ReadBack(10, Canon(10, n), true);
  }

  /** decode_dec accepts exactly such texts, and behind a point also leading zeros, with a value of 128 bits. */
  lemma DecDecodesExactly(t: string, decimal: bool, v: nat)
    ensures DecodeDec(t, decimal) == Some(v)
       <==> && |t| <= 39 && Digits(10, CharValues(t)) && (decimal || NumeralText(t))
            && v == Val(10, CharValues(t)) && v < TWO_128
  {
    if t != "" && t[0] == '-' {
      assert CharValues(t)[0] == NOT_A_DIGIT;
    }
  }

  /** A numeral, or a numeral and one to n more digits behind a point. */
  predicate FixedPointText(t: string, n: nat)
  {
    var p := Find(t, '.');
    if p == |t| then NumeralText(t)
    else p > 0 && NumeralText(t[..p]) && 0 < |t| - p - 1 <= n && Digits(10, CharValues(t[p + 1..]))
  }

  lemma WholeParsesExactly(t: string, n: nat)
    requires |t| <= 40 && Find(t, '.') == |t|
    ensures DecodeScaled(t, Pow(10, n)).Some? <==> NumeralText(t) && Denoted(t, n) < TWO_128
  {
    var v := Val(10, CharValues(t));
    DecDecodesExactly(t, false, v);
    MulGe(v, Pow(10, n));
    if t != "" && t[0] == '-' {
      assert CharValues(t)[0] == NOT_A_DIGIT;
    }
    if DecodeDec(t, false).Some? {
      DecDecodesExactly(t, false, DecodeDec(t, false).value);
    }
  }

  lemma FractionFits(v: nat, f: nat, n: nat, k: nat)
    requires FixedPoint(v, n, f, k) < TWO_128
    ensures v * Pow(10, n) < TWO_128 && v < TWO_128
  {
    MulGe(v, Pow(10, n));
    MulGe(Pow(10, k), 1);
    assert f * Pow(10, k) >= 0;
  }

  lemma DecimalsFit(frac: string)
    requires |frac| <= 38 && Digits(10, CharValues(frac))
    ensures DecodeDec(frac, true) == Some(Val(10, CharValues(frac)))
  {
    ValBound(10, CharValues(frac));
    PowMonotone(10, |frac|, 38);
    ThirtyEightDigits();
    DecDecodesExactly(frac, true, Val(10, CharValues(frac)));
  }

  lemma FractionAccepted(whole: string, frac: string, n: nat)
    requires whole != "" && |frac| <= 38 && NumeralText(whole) && 0 < |frac| <= n && Digits(10, CharValues(frac))
    ensures DecodeFraction(whole, frac, Pow(10, n)).Some?
       <==> FixedPoint(Val(10, CharValues(whole)), n, Val(10, CharValues(frac)), n - |frac|) < TWO_128
  {
    var v, f := Val(10, CharValues(whole)), Val(10, CharValues(frac));
    ScaleLength(n);
    DecimalsFit(frac);
    if FixedPoint(v, n, f, n - |frac|) < TWO_128 {
      FractionFits(v, f, n, n - |frac|);
      DecDecodesExactly(whole, false, v);
    } else if DecodeDec(whole, false).Some? {
      DecDecodesExactly(whole, false, DecodeDec(whole, false).value);
    }
  }

  lemma FractionShape(whole: string, frac: string, n: nat)
    requires DecodeFraction(whole, frac, Pow(10, n)).Some?
    ensures NumeralText(whole) && 0 < |frac| <= n && Digits(10, CharValues(frac))
  {
    ScaleLength(n);
    DecDecodesExactly(whole, false, DecodeDec(whole, false).value);
    DecDecodesExactly(frac, true, DecodeDec(frac, true).value);
  }

  /** whole and frac are the texts on the two sides of the first point. */
  predicate Sides(t: string, whole: string, frac: string)
  {
    var p := Find(t, '.');
    0 < p < |t| && whole == t[..p] && frac == t[p + 1..]
  }

  lemma ScaledAtPoint(t: string, scale: nat, whole: string, frac: string)
    requires |t| <= 40 && Sides(t, whole, frac)
    ensures DecodeScaled(t, scale) == if whole[0] == '-' then None else DecodeFraction(whole, frac, scale)
  {
  }

  lemma TextAtPoint(t: string, n: nat, whole: string, frac: string)
    requires Sides(t, whole, frac)
    ensures FixedPointText(t, n) <==> NumeralText(whole) && 0 < |frac| <= n && Digits(10, CharValues(frac))
    ensures |frac| <= n ==>
              Denoted(t, n) == FixedPoint(Val(10, CharValues(whole)), n, Val(10, CharValues(frac)), n - |frac|)
  {
  }

  lemma MinusIsNoNumeral(t: string)
    requires t != "" && t[0] == '-'
    ensures !NumeralText(t)
  {
    assert CharValues(t)[0] == NOT_A_DIGIT;
  }

  lemma PointParsesExactly(t: string, n: nat, whole: string, frac: string)
    requires |t| <= 40 && Sides(t, whole, frac)
    ensures DecodeScaled(t, Pow(10, n)).Some? <==> FixedPointText(t, n) && Denoted(t, n) < TWO_128
  {
    ScaledAtPoint(t, Pow(10, n), whole, frac);
    TextAtPoint(t, n, whole, frac);
    if whole[0] == '-' {
      MinusIsNoNumeral(whole);
    } else if NumeralText(whole) && 0 < |frac| <= n && Digits(10, CharValues(frac)) {
      FractionAccepted(whole, frac, n);
    } else if DecodeFraction(whole, frac, Pow(10, n)).Some? {
      FractionShape(whole, frac, n);
    }
  }

  /** The scaled parser reads exactly the fixed-point texts of at most 40 characters whose value fits 128 bits. */
  lemma ParsesExactly(t: string, n: nat, v: nat)
    ensures DecodeScaled(t, Pow(10, n)) == Some(v)
       <==> |t| <= 40 && FixedPointText(t, n) && v == Denoted(t, n) && v < TWO_128
  {
    if |t| <= 40 {
      var p := Find(t, '.');
      if DecodeScaled(t, Pow(10, n)).Some? {
        ParserSound(t, n);
      }
      if p == |t| {
        WholeParsesExactly(t, n);
      } else if p > 0 {
        PointParsesExactly(t, n, t[..p], t[p + 1..]);
      }
    }
  }

  // ---------- the whole text, grouped or not ----------

  /** The smallest amount printed as a number. */
  function LastPlace(n: nat, precision: int): nat
    requires precision <= n
  {
    if precision <= 0 then Pow(10, n) else Pow(10, n - precision)
  }

  /** The whole part: the canonical numeral, in groups if asked for and there are sizes and a separator. */
  function WholeText(v: nat, group: bool, sep: char, gs: seq<int>): string
    requires group && gs != [] ==> PositiveSizes(gs)
  {
    if group && gs != [] && sep != NO_SEPARATOR then Grouped(Canon(10, v), gs, sep) else DecText(Canon(10, v))
  }

  /**
   What is printed, for every balance, scale, precision, separator and point: nothing where the division
   fails, the "below" form under the last place, and otherwise the whole part, and point and digits exactly
   when both the precision and the fraction are positive.
   */
  lemma FormatsExactly(balance: nat, n: nat, precision: int, group: bool, sep: char, point: char, gs: seq<int>)
    requires group && gs != [] ==> PositiveSizes(gs)
    ensures FormatBalanceText(balance, n, precision, group, sep, point, gs)
         == if precision > n && 0 < balance < Pow(10, n) then None
            else if precision <= n && 0 < balance < LastPlace(n, precision) then Some(BelowText(precision, point))
            else Some(WholeText(Whole(balance, n), group, sep, gs)
                      + if precision > 0 && balance % Pow(10, n) > 0
                        then [point] + DecText(Fraction(balance, n, precision)) else "")
  {
    var v := Whole(balance, n);
    if group && gs != [] && sep != NO_SEPARATOR {
      FormatDecGroups(v, gs, sep);
    } else {
      MarkedPlain(Canon(10, v), 0, gs);
    }
  }

  lemma {:induction false} ValZeros(k: nat)
    ensures Val(10, seq(k, _ => 0)) == 0
  {
    if k > 0 {
      ValZeros(k - 1);
      var ds := seq(k, _ => 0);
      assert ds[..|ds| - 1] == seq(k - 1, _ => 0);
    }
  }

  lemma BelowNumeral(precision: nat)
    requires precision > 0
    ensures var frac := seq(precision - 1, _ => 0) + [1];
            Digits(10, frac) && BelowText(precision, '.')[2..] == PlainText([0], frac)
  {
    var frac := seq(precision - 1, _ => 0) + [1];
    assert DecText([0]) == "0";
    assert DecText(frac) == seq(precision - 1, _ => '0') + "1";
    ConcatAssoc("0" + ".", seq(precision - 1, _ => '0'), "1");
    var inner := "0" + "." + seq(precision - 1, _ => '0') + "1";
    ConcatAssoc("< ", "0" + "." + seq(precision - 1, _ => '0'), "1");
    assert BelowText(precision, '.') == "< " + inner;
    assert ("< " + inner)[2..] == inner;
  }

  lemma BelowFraction(n: nat, precision: nat)
    requires 0 < precision <= n
    ensures Denoted(BelowText(precision, '.')[2..], n) == Pow(10, n - precision)
  {
    BelowNumeral(precision);
    OneUnit(n, precision, seq(precision - 1, _ => 0) + [1]);
  }

  lemma OneUnit(n: nat, precision: nat, frac: seq<nat>)
    requires 0 < precision <= n && Digits(10, frac) && frac == seq(precision - 1, _ => 0) + [1]
    ensures Denoted(PlainText([0], frac), n) == Pow(10, n - precision)
  {
    PlainDenotes([0], frac, n);
    ValOfLastOne(precision - 1, frac);
    ValOfZero();
    OneTime(Pow(10, n), Pow(10, n - precision));
  }

  lemma ValOfZero()
    ensures Val(10, [0]) == 0
  {
  }

  lemma OneTime(x: nat, y: nat)
    ensures 0 * x + 1 * y == y
  {
  }

  lemma ValOfLastOne(k: nat, ds: seq<nat>)
    requires ds == seq(k, _ => 0) + [1]
    ensures Val(10, ds) == 1
  {
    assert ds[..|ds| - 1] == seq(k, _ => 0);
    ValZeros(k);
  }

  /** The number behind the sign of the "below" form is one unit of the last place. */
  lemma BelowDenotesLastPlace(n: nat, precision: int)
    requires precision <= n
    ensures var t := BelowText(precision, '.');
            t[..2] == "< " && Denoted(t[2..], n) == LastPlace(n, precision)
  {
    if precision <= 0 {
      assert BelowText(precision, '.')[2..] == "1" == PlainText([1], []);
      PlainDenotes([1], [], n);
      assert Val(10, [1]) == 1;
    } else {
      BelowFraction(n, precision);
    }
  }

  /** With another point only that character differs. */
  lemma BelowPoint(precision: int, point: char)
    ensures BelowText(precision, point)
         == if precision > 0 then BelowText(precision, '.')[3 := point] else BelowText(precision, '.')
  {
    if precision > 0 {
      var zeros := seq(precision - 1, _ => '0');
      assert ("< " + ("0" + ['.'] + zeros) + "1")[3] == '.';
      assert ("< " + ("0" + [point] + zeros) + "1") == ("< " + ("0" + ['.'] + zeros) + "1")[3 := point];
    }
  }
}
