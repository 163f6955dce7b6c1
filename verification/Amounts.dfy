/**
 Decimal text of 128 bit amounts: the plain and the scaled parser (decode_dec) and the fixed-point
 printer (format_frac, format_dec, format_balance) of numbers.cpp.
 */
module Amounts {
  import opened Options
  import opened Sequences
  import opened Numerals
  import opened FixedBytes

  function DecText(ds: seq<nat>): (t: string)
    requires Digits(10, ds)
    ensures |t| == |ds|
    ensures forall i :: 0 <= i < |t| ==> t[i] == DigitChar(ds[i], true)
  {
    ToText(ds, true)
  }

  lemma DecTextConcat(x: seq<nat>, y: seq<nat>)
    requires Digits(10, x) && Digits(10, y)
    ensures Digits(10, x + y) && DecText(x + y) == DecText(x) + DecText(y)
  {
    assert DecText(x + y) == DecText(x) + DecText(y);
  }

  // ---------- parsers ----------

  /** decode_dec: leading zeros only in the digits after a point, and a checked 128 bit value. */
  function DecodeDec(t: string, decimal: bool): (r: Option<nat>)
    ensures r.Some? ==> r.value < TWO_128
  {
    if |t| > 39 || (|t| > 1 && t[0] == '0' && !decimal) || (t != "" && t[0] == '-') then None
    else
      match ReadNumber(10, t)
      case None => None
      case Some(n) => if n < TWO_128 then Some(n) else None
  }

  /** encode_dec. */
  function EncodeDec(n: nat): string
  {
    DecText(Canon(10, n))
  }

  /** The index of the first occurrence of c, or |t|. */
  function Find(t: string, c: char): (p: nat)
    ensures p <= |t|
    ensures p < |t| ==> t[p] == c
    ensures forall i :: 0 <= i < p ==> t[i] != c
  {
    if t == "" || t[0] == c then 0 else Find(t[1..], c) + 1
  }

  function CheckedProduct(i: nat, scale: nat): (r: Option<nat>)
    ensures r.Some? ==> r.value == i * scale
  {
    if i * scale < TWO_128 then Some(i * scale) else None
  }

  /** decode_dec with a scale. */
  function DecodeScaled(t: string, scale: nat): Option<nat>
  {
    if |t| > 40 || (t != "" && t[0] == '-') then None
    else
      var p := Find(t, '.');
      if p == |t| then
        match DecodeDec(t, false)
        case None => None
        case Some(i) => CheckedProduct(i, scale)
      else
        DecodeFraction(t[..p], t[p + 1..], scale)
  }

  function DecodeFraction(integerText: string, decimalText: string, scale: nat): Option<nat>
  {
    if integerText == "" || DecodeDec(integerText, false).None? then None
    else if CheckedProduct(DecodeDec(integerText, false).value, scale).None? then None
    else if decimalText == "" || DecodeDec(decimalText, true).None? then None
    else if |Canon(10, scale)| <= |decimalText| then None
    else
      var pow10 := Pow(10, |Canon(10, scale)| - |decimalText| - 1);
      var result := DecodeDec(integerText, false).value * scale + DecodeDec(decimalText, true).value * pow10;
      if result < TWO_128 then Some(result) else None
  }

  // ---------- format_frac ----------

  /** The fraction digits printed for v at scale 10^n: they stop at the precision or at remainder zero. */
  function FracDigits(v: nat, n: nat, precision: int): (ds: seq<nat>)
    requires v < Pow(10, n)
    ensures Digits(10, ds)
    ensures |ds| <= n && (precision >= 0 ==> |ds| <= precision)
    ensures ds == [] <==> n == 0 || v == 0 || precision <= 0
  {
    if n == 0 || v == 0 || precision <= 0 then []
    else
      var reduce := Pow(10, n - 1);
      assert Quot(v, reduce) < 10 by { DivBelow(v, reduce, 10); }
      [Quot(v, reduce)] + FracDigits(v % reduce, n - 1, precision - 1)
  }

  /** The remainder when the digit loop ends. */
  function FracRest(v: nat, n: nat, precision: int): nat
    requires v < Pow(10, n)
  {
    if n == 0 || v == 0 || precision <= 0 then v else FracRest(v % Pow(10, n - 1), n - 1, precision - 1)
  }

  lemma FracHead(v: int, m: int, d: nat, p: nat, q: nat, w: nat, r: int)
    requires v == d * (p * q) + m && m == w * q + r
    ensures v == (d * p + w) * q + r
  {
    assert (d * p) * q == d * (p * q);
  }

  lemma {:induction false} FracValue(v: nat, n: nat, precision: int)
    requires v < Pow(10, n)
    ensures var ds := FracDigits(v, n, precision);
            v == Val(10, ds) * Pow(10, n - |ds|) + FracRest(v, n, precision)
  {
    if n > 0 && v > 0 && precision > 0 {
      var reduce := Pow(10, n - 1);
      var ds := FracDigits(v, n, precision);
      var rest := FracDigits(v % reduce, n - 1, precision - 1);
      FracValue(v % reduce, n - 1, precision - 1);
      assert ds == [Quot(v, reduce)] + rest;
      assert ds[1..] == rest;
      ValHead(10, ds);
      PowAdd(10, |rest|, n - 1 - |rest|);
      FracHead(v, v % reduce, ds[0], Pow(10, |rest|), Pow(10, n - 1 - |rest|), Val(10, rest),
               FracRest(v, n, precision));
    }
  }

  /** What the digits leave over is less than one unit of the last place printed. */
  lemma {:induction false} FracRestBound(v: nat, n: nat, precision: int)
    requires v < Pow(10, n)
    ensures var k := |FracDigits(v, n, precision)|;
            && FracRest(v, n, precision) < Pow(10, n - k)
            && (FracRest(v, n, precision) == 0 || k == n || k == precision || precision < 0)
  {
    if n > 0 && v > 0 && precision > 0 {
      FracRestBound(v % Pow(10, n - 1), n - 1, precision - 1);
    }
  }

  /** Digits that leave nothing over do not end in a zero: with the two facts above they are determined. */
  lemma {:induction false} FracNoTrailingZero(v: nat, n: nat, precision: int)
    requires v < Pow(10, n)
    ensures var ds := FracDigits(v, n, precision);
            ds != [] && FracRest(v, n, precision) == 0 ==> ds[|ds| - 1] != 0
  {
    if n > 0 && v > 0 && precision > 0 {
      var reduce := Pow(10, n - 1);
      var ds, rest := FracDigits(v, n, precision), FracDigits(v % reduce, n - 1, precision - 1);
      assert ds == [Quot(v, reduce)] + rest;
      FracNoTrailingZero(v % reduce, n - 1, precision - 1);
      if rest == [] {
        assert FracRest(v, n, precision) == v % reduce;
      }
    }
  }

  lemma FracStep(v: nat, n: nat, precision: int, reduce: nat, val: nat)
    requires v < Pow(10, n) && n > 0 && v > 0 && precision > 0
    requires reduce == Pow(10, n - 1) && val == Quot(v, reduce)
    ensures val < 10 && EncodeDec(val) == DecText([val])
    ensures 0 <= v - val * reduce < reduce
    ensures FracDigits(v, n, precision) == [val] + FracDigits(v - val * reduce, n - 1, precision - 1)
  {
    DivBelow(v, reduce, 10);
    assert v - val * reduce == v % reduce;
  }

  /** The next digit, and what is left of the value. */
  method FracDigit(v: nat, ghost n: nat, ghost precision: int, reduce: nat) returns (val: nat, rest: nat)
    requires v < Pow(10, n) && n > 0 && v > 0 && precision > 0 && reduce == Pow(10, n - 1)
    ensures val < 10 && EncodeDec(val) == DecText([val]) && rest < reduce
    ensures FracDigits(v, n, precision) == [val] + FracDigits(rest, n - 1, precision - 1)
  {
    val := Quot(v, reduce);
    FracStep(v, n, precision, reduce, val);
    rest := v - val * reduce;
  }

  lemma PowAboveOne(k: nat)
    ensures Pow(10, k) > 1 <==> k > 0
  {
    if k > 0 {
      PowMonotone(10, 1, k);
    }
  }

  method FormatFrac(value: nat, scale: nat, precision: int, ghost n: nat) returns (out: string)
    requires scale == Pow(10, n) && value < scale
    ensures out == DecText(FracDigits(value, n, precision))
  {
    var reduce, rem, left := scale, value, precision;
    ghost var k := n;
    ghost var rest := DecText(FracDigits(value, n, precision));
    ghost var all := rest;
    out := "";
    while reduce > 1 && rem > 0 && left > 0
      invariant 0 <= k <= n && reduce == Pow(10, k) && rem < reduce
      invariant rest == DecText(FracDigits(rem, k, left))
      invariant out + rest == all
      decreases k
    {
      reduce := reduce / 10;
      var val;
      val, rem := FracDigit(rem, k, left, reduce);
      left, k := left - 1, k - 1;
      DecTextConcat([val], FracDigits(rem, k, left));
      rest := DecText(FracDigits(rem, k, left));
      ConcatAssoc(out, EncodeDec(val), rest);
      out := out + EncodeDec(val);
    }
    PowAboveOne(k);
    assert out + "" == out;
  }

  // ---------- format_dec ----------

  const NO_SEPARATOR: char := '\0'

  /** One turn of the grouping loop: the next group index and count, and whether the digit opens a group. */
  function GroupStep(gs: seq<int>, index: nat, count: nat): (r: (nat, nat, bool))
    requires index < |gs|
    ensures r.0 < |gs|
  {
    if count + 1 > gs[index] then (if index + 1 < |gs| then index + 1 else |gs| - 1, 1, true)
    else (index, count + 1, false)
  }

  /** Group index and count after the i lowest digits. */
  function GroupAt(gs: seq<int>, i: nat): (r: (nat, nat))
    requires |gs| > 0
    ensures r.0 < |gs|
  {
    if i == 0 then (0, 0)
    else
      var before := GroupAt(gs, i - 1);
      var step := GroupStep(gs, before.0, before.1);
      (step.0, step.1)
  }

  /** emit_group[i]: the digit with i digits to its right is the first of a new group. */
  function Mark(gs: seq<int>, i: nat): bool
    requires |gs| > 0
  {
    GroupStep(gs, GroupAt(gs, i).0, GroupAt(gs, i).1).2
  }

  /** The separator that follows the digit with i digits to its right. */
  function SeparatorAt(gs: seq<int>, sep: char, i: nat): string
    requires sep != NO_SEPARATOR ==> |gs| > 0
  {
    if sep != NO_SEPARATOR && i > 0 && Mark(gs, i) then [sep] else ""
  }

  /** Digits ds, of which the last has `low` more digits to its right, with their separators. */
  function Marked(ds: seq<nat>, low: nat, gs: seq<int>, sep: char): string
    requires Digits(10, ds)
    requires sep != NO_SEPARATOR ==> |gs| > 0
  {
    if ds == [] then ""
    else DecText(ds[..1]) + SeparatorAt(gs, sep, low + |ds| - 1) + Marked(ds[1..], low, gs, sep)
  }

  /** What format_dec prints. */
  function FormatDecText(value: nat, sep: char, gs: seq<int>): string
    requires sep != NO_SEPARATOR ==> |gs| > 0
  {
    Marked(Canon(10, value), 0, gs, sep)
  }

  lemma AmountDigits(value: nat)
    requires value < TWO_128
    ensures value < Pow(10, 39)
    ensures |Canon(10, value)| <= 39
  {
    assert Pow(10, 3) == 1000;
    PowAdd(10, 3, 3);
    PowAdd(10, 6, 6);
    PowAdd(10, 12, 12);
    PowAdd(10, 24, 12);
    PowAdd(10, 36, 3);
    CanonLength(10, value, 39);
  }

  lemma DigitCount(value: nat, k: nat)
    requires k >= 1 && value < Pow(10, k) && (k == 1 || Pow(10, k - 1) <= value)
    ensures |Canon(10, value)| == k
  {
    CanonLength(10, value, k);
    CanonFixed(10, value);
    if |Canon(10, value)| < k { PowMonotone(10, |Canon(10, value)|, k - 1); }
  }

  /** The first of k digits, and the digits of what it leaves over. */
  lemma FixedHead(n: nat, k: nat)
    requires k > 0 && n < Pow(10, k)
    ensures var p := Pow(10, k - 1);
            && Quot(n, p) < 10 && 0 <= n - Quot(n, p) * p < p
            && Fixed(10, n, k) == [Quot(n, p)] + Fixed(10, n - Quot(n, p) * p, k - 1)
  {
    var p := Pow(10, k - 1);
    var q, r := Quot(n, p), n % p;
    DivBelow(n, p, 10);
    var ds := [q] + Fixed(10, r, k - 1);
    ValHead(10, ds);
    assert ds[1..] == Fixed(10, r, k - 1);
    ValFixed(10, r, k - 1);
    ValFixed(10, n, k);
    ValInjective(10, ds, Fixed(10, n, k));
  }

  method MarkGroups(decCount: nat, sep: char, gs: seq<int>) returns (emit: array<bool>)
    requires decCount <= 39
    requires sep != NO_SEPARATOR ==> |gs| > 0
    ensures fresh(emit) && emit.Length == 39
    ensures sep != NO_SEPARATOR ==> forall i :: 0 <= i < decCount ==> emit[i] == Mark(gs, i)
  {
    emit := new bool[39];
    if sep != NO_SEPARATOR {
      var index, count := 0, 0;
      for i := 0 to decCount
        invariant (index, count) == GroupAt(gs, i)
        invariant forall j :: 0 <= j < i ==> emit[j] == Mark(gs, j)
      {
        count := count + 1;
        if count > gs[index] {
          index := if index + 1 < |gs| - 1 then index + 1 else |gs| - 1;
          count := 1;
          emit[i] := true;
        } else {
          emit[i] := false;
        }
      }
    }
  }

  /** The number of decimal digits, and the weight of the first. */
  method LargestPower(value: nat) returns (largest: nat, decCount: nat)
    ensures decCount == |Canon(10, value)| && largest == Pow(10, decCount - 1)
  {
    largest, decCount := 1, 1;
    while largest * 10 <= value
      invariant decCount >= 1 && largest == Pow(10, decCount - 1)
      invariant decCount == 1 || largest <= value
      decreases value - largest
    {
      largest, decCount := largest * 10, decCount + 1;
    }
    DigitCount(value, decCount);
  }

  lemma FormatDecStep(rem: nat, k: nat, reduce: nat, val: nat, gs: seq<int>, sep: char)
    requires k > 0 && reduce == Pow(10, k - 1) && rem < Pow(10, k) && val == Quot(rem, reduce)
    requires sep != NO_SEPARATOR ==> |gs| > 0
    ensures 0 <= rem - val * reduce < reduce
    ensures reduce > 1 <==> k > 1
    ensures reduce / 10 == if k == 1 then 0 else Pow(10, k - 2)
    ensures Marked(Fixed(10, rem, k), 0, gs, sep)
            == EncodeDec(val) + SeparatorAt(gs, sep, k - 1) + Marked(Fixed(10, rem - val * reduce, k - 1), 0, gs, sep)
  {
    FixedHead(rem, k);
    var ds := Fixed(10, rem, k);
    assert ds[..1] == [val] == Canon(10, val) && ds[1..] == Fixed(10, rem - val * reduce, k - 1);
  }

  /** The next digit as text, and what is left of the value. */
  method DecDigit(rem: nat, ghost k: nat, reduce: nat, ghost gs: seq<int>, ghost sep: char)
    returns (digit: string, rest: nat)
    requires k > 0 && reduce == Pow(10, k - 1) && rem < Pow(10, k)
    requires sep != NO_SEPARATOR ==> |gs| > 0
    ensures rest < reduce && (reduce > 1 <==> k > 1) && reduce / 10 == if k == 1 then 0 else Pow(10, k - 2)
    ensures Marked(Fixed(10, rem, k), 0, gs, sep)
         == digit + SeparatorAt(gs, sep, k - 1) + Marked(Fixed(10, rest, k - 1), 0, gs, sep)
  {
    var val := Quot(rem, reduce);
    FormatDecStep(rem, k, reduce, val, gs, sep);
    digit, rest := EncodeDec(val), rem - val * reduce;
  }

  /** A digit, and the separator if one follows it. */
  method DigitText(digit: string, sep: char, mark: bool, more: bool, ghost i: nat, ghost gs: seq<int>) returns (text: string)
    requires sep != NO_SEPARATOR ==> |gs| > 0 && mark == Mark(gs, i)
    requires more <==> i > 0
    ensures text == digit + SeparatorAt(gs, sep, i)
  {
    text := digit;
    if sep != NO_SEPARATOR && mark && more {
      text := text + [sep];
    }
  }

  /** The digit loop of format_dec, for a value of k digits. */
  method PrintDigits(value: nat, largest: nat, k: nat, emit: array<bool>, sep: char, gs: seq<int>) returns (out: string)
    requires 1 <= k <= emit.Length && largest == Pow(10, k - 1) && value < Pow(10, k)
    requires sep != NO_SEPARATOR ==> |gs| > 0 && forall i :: 0 <= i < k ==> emit[i] == Mark(gs, i)
    ensures out == Marked(Fixed(10, value, k), 0, gs, sep)
  {
    var reduce, rem, decCount := largest, value, k;
    ghost var left := Marked(Fixed(10, value, k), 0, gs, sep);
    ghost var all := left;
    out := "";
    while reduce > 0
      invariant 0 <= decCount <= k
      invariant reduce == if decCount == 0 then 0 else Pow(10, decCount - 1)
      invariant 0 <= rem < Pow(10, decCount)
      invariant left == Marked(Fixed(10, rem, decCount), 0, gs, sep)
      invariant out + left == all
      decreases decCount
    {
      var digit;
      digit, rem := DecDigit(rem, decCount, reduce, gs, sep);
      decCount := decCount - 1;
      left := Marked(Fixed(10, rem, decCount), 0, gs, sep);
      var text := DigitText(digit, sep, sep != NO_SEPARATOR && emit[decCount], reduce > 1, decCount, gs);
      ConcatAssoc(out, text, left);
      out := out + text;
      reduce := reduce / 10;
    }
  }

  method FormatDec(value: nat, sep: char, gs: seq<int>) returns (out: string)
    requires value < TWO_128
    requires sep != NO_SEPARATOR ==> |gs| > 0
    ensures out == FormatDecText(value, sep, gs)
  {
    var largest, decCount := LargestPower(value);
    AmountDigits(value);
    CanonFixed(10, value);
    var emit := MarkGroups(decCount, sep, gs);
    out := PrintDigits(value, largest, decCount, emit, sep, gs);
  }

  // ---------- grouping ----------

  predicate PositiveSizes(gs: seq<int>)
  {
    |gs| > 0 && forall i :: 0 <= i < |gs| ==> gs[i] > 0
  }

  /** Groups cut off at the right end, one per listed size, the last size repeating. */
  function Grouped(ds: seq<nat>, gs: seq<int>, sep: char): string
    requires Digits(10, ds) && PositiveSizes(gs)
    decreases |ds|
  {
    if |ds| <= gs[0] then DecText(ds)
    else
      var cut := |ds| - gs[0];
      Grouped(ds[..cut], if |gs| == 1 then gs else gs[1..], sep) + [sep] + DecText(ds[cut..])
  }

  lemma {:induction false} MarkedConcat(x: seq<nat>, y: seq<nat>, low: nat, gs: seq<int>, sep: char)
    requires Digits(10, x) && Digits(10, y)
    requires sep != NO_SEPARATOR ==> |gs| > 0
    ensures Marked(x + y, low, gs, sep) == Marked(x, low + |y|, gs, sep) + Marked(y, low, gs, sep)
  {
    if x == [] {
      assert x + y == y;
    } else {
      assert (x + y)[..1] == x[..1] && (x + y)[1..] == x[1..] + y;
      MarkedConcat(x[1..], y, low, gs, sep);
    }
  }

  /** A new group, number `index`, starts at the digit with `low` digits to its right. */
  predicate Opens(gs: seq<int>, low: nat, index: nat)
    requires |gs| > 0
  {
    index < |gs| && GroupAt(gs, low + 1) == (index, 1) && (low > 0 ==> Mark(gs, low))
  }

  lemma {:induction false} WithinGroup(gs: seq<int>, low: nat, index: nat, t: nat)
    requires PositiveSizes(gs) && Opens(gs, low, index)
    requires 1 <= t <= gs[index]
    ensures GroupAt(gs, low + t) == (index, t)
    ensures t < gs[index] ==> !Mark(gs, low + t)
    ensures t == gs[index] ==> Opens(gs, low + t, if index + 1 < |gs| then index + 1 else index)
  {
    if t > 1 { WithinGroup(gs, low, index, t - 1); }
  }

  /** No separator between the k digits from `low` up. */
  predicate Solid(gs: seq<int>, sep: char, low: nat, k: nat)
    requires sep != NO_SEPARATOR ==> |gs| > 0
  {
    k <= 1 || (SeparatorAt(gs, sep, low + k - 1) == "" && Solid(gs, sep, low, k - 1))
  }

  lemma {:induction false} GroupIsSolid(gs: seq<int>, sep: char, low: nat, index: nat, k: nat)
    requires PositiveSizes(gs) && Opens(gs, low, index) && k <= gs[index]
    ensures Solid(gs, sep, low, k)
  {
    if k > 1 {
      WithinGroup(gs, low, index, k - 1);
      GroupIsSolid(gs, sep, low, index, k - 1);
    }
  }

  lemma HeadText(ds: seq<nat>)
    requires Digits(10, ds) && ds != []
    ensures DecText(ds) == DecText(ds[..1]) + DecText(ds[1..])
  {
    DecTextConcat(ds[..1], ds[1..]);
    assert ds == ds[..1] + ds[1..];
  }

  lemma NothingAfter(first: string, last: string)
    ensures first + last + "" == first + last
  {
  }

  lemma NothingBetween(first: string, rest: string, last: string)
    ensures first + "" + (rest + last) == first + rest + last
  {
    ConcatAssoc(first, rest, last);
  }

  lemma {:induction false} SolidText(ds: seq<nat>, low: nat, gs: seq<int>, sep: char)
    requires Digits(10, ds) && ds != []
    requires sep != NO_SEPARATOR ==> |gs| > 0
    requires Solid(gs, sep, low, |ds|)
    ensures Marked(ds, low, gs, sep) == DecText(ds) + SeparatorAt(gs, sep, low)
  {
    if |ds| == 1 {
      assert ds[..1] == ds && ds[1..] == [];
      NothingAfter(DecText(ds), SeparatorAt(gs, sep, low));
    } else {
      SolidText(ds[1..], low, gs, sep);
      HeadText(ds);
      NothingBetween(DecText(ds[..1]), DecText(ds[1..]), SeparatorAt(gs, sep, low));
    }
  }

  lemma {:induction false} GroupedFrom(ds: seq<nat>, low: nat, gs: seq<int>, index: nat, sep: char)
    requires Digits(10, ds) && ds != [] && PositiveSizes(gs) && Opens(gs, low, index) && sep != NO_SEPARATOR
    ensures Marked(ds, low, gs, sep) == Grouped(ds, gs[index..], sep) + SeparatorAt(gs, sep, low)
    decreases |ds|
  {
    if |ds| <= gs[index] {
      GroupIsSolid(gs, sep, low, index, |ds|);
      SolidText(ds, low, gs, sep);
    } else {
      var size := gs[index];
      var next := if index + 1 < |gs| then index + 1 else index;
      WithinGroup(gs, low, index, size);
      assert SeparatorAt(gs, sep, low + size) == [sep];
      GroupedFrom(ds[..|ds| - size], low + size, gs, next, sep);
      GroupIsSolid(gs, sep, low, index, size);
      MarkedCut(ds, size, low, gs, Grouped(ds[..|ds| - size], gs[next..], sep), sep);
      GroupedCut(ds, size, gs[index..], gs[next..], sep);
    }
  }

  lemma GroupedCut(ds: seq<nat>, size: nat, gs: seq<int>, next: seq<int>, sep: char)
    requires Digits(10, ds) && PositiveSizes(gs) && |ds| > gs[0] == size
    requires next == if |gs| == 1 then gs else gs[1..]
    ensures Grouped(ds, gs, sep) == Grouped(ds[..|ds| - size], next, sep) + [sep] + DecText(ds[|ds| - size..])
  {
  }

  lemma MarkedJoin(front: seq<nat>, tail: seq<nat>, low: nat, gs: seq<int>, groups: string, sep: char)
    requires Digits(10, front) && Digits(10, tail) && tail != [] && |gs| > 0
    requires Solid(gs, sep, low, |tail|)
    requires Marked(front, low + |tail|, gs, sep) == groups + [sep]
    ensures Marked(front + tail, low, gs, sep) == groups + [sep] + DecText(tail) + SeparatorAt(gs, sep, low)
  {
    MarkedConcat(front, tail, low, gs, sep);
    SolidText(tail, low, gs, sep);
    JoinGroups(Marked(front, low + |tail|, gs, sep), groups, [sep], DecText(tail), SeparatorAt(gs, sep, low));
  }

  lemma MarkedCut(ds: seq<nat>, size: nat, low: nat, gs: seq<int>, groups: string, sep: char)
    requires Digits(10, ds) && 0 < size < |ds| && |gs| > 0
    requires Solid(gs, sep, low, size)
    requires Marked(ds[..|ds| - size], low + size, gs, sep) == groups + [sep]
    ensures Marked(ds, low, gs, sep) == groups + [sep] + DecText(ds[|ds| - size..]) + SeparatorAt(gs, sep, low)
  {
    CutAt(ds, |ds| - size);
    MarkedJoin(ds[..|ds| - size], ds[|ds| - size..], low, gs, groups, sep);
  }

  lemma JoinGroups(front: string, groups: string, sep: string, tail: string, end: string)
    requires front == groups + sep
    ensures front + (tail + end) == groups + sep + tail + end
  {
    ConcatAssoc(front, tail, end);
  }

  /** With positive group sizes, format_dec prints the canonical numeral cut into the listed groups. */
  lemma FormatDecGroups(value: nat, gs: seq<int>, sep: char)
    requires PositiveSizes(gs) && sep != NO_SEPARATOR
    ensures FormatDecText(value, sep, gs) == Grouped(Canon(10, value), gs, sep)
  {
    assert GroupAt(gs, 0) == (0, 0);
    GroupedFrom(Canon(10, value), 0, gs, 0, sep);
    assert gs[0..] == gs;
  }

  lemma {:induction false} PlainIsSolid(gs: seq<int>, low: nat, k: nat)
    ensures Solid(gs, NO_SEPARATOR, low, k)
  {
    if k > 1 {
      PlainIsSolid(gs, low, k - 1);
    }
  }

  lemma MarkedPlain(ds: seq<nat>, low: nat, gs: seq<int>)
    requires Digits(10, ds)
    ensures Marked(ds, low, gs, NO_SEPARATOR) == DecText(ds)
  {
    if ds != [] {
      PlainIsSolid(gs, low, |ds|);
      SolidText(ds, low, gs, NO_SEPARATOR);
      NothingAfter("", DecText(ds));
    }
  }

  // ---------- format_balance ----------

  /** prec_scale after the loop that divides by ten once per place. */
  function PrecScale(n: nat, precision: int): nat
  {
    if precision <= 0 then Pow(10, n) else if precision <= n then Pow(10, n - precision) else 0
  }

  function BelowText(precision: int, point: char): string
  {
    "< " + (if precision > 0 then "0" + [point] + seq(precision - 1, _ => '0') else "") + "1"
  }

  function PrintedText(balance: nat, n: nat, precision: int, sep: char, point: char, gs: seq<int>): string
    requires sep != NO_SEPARATOR ==> |gs| > 0
  {
    var whole, frac := Quot(balance, Pow(10, n)), balance % Pow(10, n);
    FormatDecText(whole, sep, gs)
    + if precision > 0 && frac > 0 then [point] + DecText(FracDigits(frac, n, precision)) else ""
  }

  /** What format_balance returns at scale 10^n; None stands for the division by zero it runs into. */
  function FormatBalanceText(
    balance: nat, n: nat, precision: int, group: bool, sep: char, point: char, gs: seq<int>): Option<string>
  {
    var used := if group && |gs| > 0 then sep else NO_SEPARATOR;
    if 0 < balance < Pow(10, n) && PrecScale(n, precision) == 0 then None
    else if 0 < balance < PrecScale(n, precision) then Some(BelowText(precision, point))
    else Some(PrintedText(balance, n, precision, used, point, gs))
  }

  lemma PrecScaleBelow(n: nat, precision: int)
    ensures PrecScale(n, precision) <= Pow(10, n)
  {
    if 0 < precision <= n { PowMonotone(10, n - precision, n); }
  }

  lemma SmallQuotient(v: nat, p: nat)
    requires p > 0
    ensures Quot(v, p) == 0 <==> v < p
    ensures v < p ==> v % p == v
  {
    if v < p { DivModUnique(v, p, 0, v); }
  }

  method DividePrecision(scale: nat, precision: int, ghost n: nat) returns (precScale: nat)
    requires scale == Pow(10, n)
    ensures precScale == PrecScale(n, precision)
  {
    precScale := scale;
    var i := 0;
    while i < precision
      invariant 0 <= i && (precision <= 0 ==> i == 0) && (precision > 0 ==> i <= precision)
      invariant precScale == PrecScale(n, i)
    {
      precScale := precScale / 10;
      i := i + 1;
    }
  }

  method PrintBelow(precision: int, point: char) returns (out: string)
    ensures out == BelowText(precision, point)
  {
    var below := "";
    if precision > 0 {
      var zeros := "";
      for j := 0 to precision - 1
        invariant zeros == seq(j, _ => '0')
      {
        zeros := zeros + "0";
      }
      below := "0" + [point] + zeros;
    }
    out := "< " + below + "1";
  }

  method PrintBalance(balance: nat, scale: nat, precision: int, sep: char, point: char, gs: seq<int>, ghost n: nat)
    returns (out: string)
    requires balance < TWO_128 && scale == Pow(10, n)
    requires sep != NO_SEPARATOR ==> |gs| > 0
    ensures out == PrintedText(balance, n, precision, sep, point, gs)
  {
    var whole, frac := Quot(balance, scale), balance % scale;
    MulGe(whole, scale);
    out := FormatDec(whole, sep, gs);
    var fraction := "";
    if precision > 0 && frac > 0 {
      fraction := FormatFrac(frac, scale, precision, n);
      fraction := [point] + fraction;
    }
    out := out + fraction;
  }

  method FormatBalance(
    balance: nat, scale: nat, precision: int, group: bool, sep: char, point: char, gs: seq<int>, ghost n: nat)
    returns (r: Option<string>)
    requires balance < TWO_128 && scale == Pow(10, n)
    ensures r == FormatBalanceText(balance, n, precision, group, sep, point, gs)
  {
    SmallQuotient(balance, scale);
    PrecScaleBelow(n, precision);
    var precScale := DividePrecision(scale, precision, n);
    if Quot(balance, scale) == 0 && balance % scale > 0 {
      if precScale == 0 { return None; }
      SmallQuotient(balance, precScale);
      if Quot(balance % scale, precScale) == 0 {
        var below := PrintBelow(precision, point);
        return Some(below);
      }
    }
    var text := PrintBalance(balance, scale, precision, if group && |gs| > 0 then sep else NO_SEPARATOR, point, gs, n);
    r := Some(text);
  }
}
