/**
 The node's 128, 256 and 512 bit unions: byte arrays whose number is read big-endian, and their
 hexadecimal text form.
 */
module FixedBytes {
  import opened Options
  import opened Numerals

  predicate IsBytes(s: seq<nat>, width: nat)
  {
    |s| == width && Digits(256, s)
  }

  const TWO_40: nat := 0x100_00000000
  const TWO_128: nat := 0x1_00000000_00000000_00000000_00000000
  const TWO_256: nat := 0x1_00000000_00000000_00000000_00000000_00000000_00000000_00000000_00000000
  const TWO_296: nat := 0x100_00000000_00000000_00000000_00000000_00000000_00000000_00000000_00000000_00000000
  const TWO_512: nat :=
    0x1_00000000_00000000_00000000_00000000_00000000_00000000_00000000_00000000_00000000_00000000_00000000_00000000_00000000_00000000_00000000_00000000

  lemma BytePowers()
    ensures Pow(256, 8) == 0x1_00000000_00000000
    ensures Pow(256, 16) == TWO_128
    ensures Pow(256, 32) == TWO_256
  {
    assert Pow(256, 4) == 0x1_00000000;
    PowAdd(256, 4, 4);
    PowAdd(256, 8, 8);
    PowAdd(256, 16, 16);
  }

  lemma Base32Powers()
    ensures Pow(32, 8) == TWO_40
    ensures 2 * Pow(32, 59) == TWO_296
    ensures Pow(32, 60) == 16 * TWO_296
  {
    assert Pow(32, 4) == 0x10_0000;
    PowAdd(32, 4, 4);
    PowAdd(32, 8, 8);
    PowAdd(32, 16, 16);
    PowAdd(32, 32, 16);
    PowAdd(32, 48, 8);
    assert Pow(32, 3) == 0x8000;
    PowAdd(32, 56, 3);
    PowAdd(32, 59, 1);
    assert Pow(32, 1) == 32;
  }

  /** uint256_union: keys, hashes, links and roots. */
  type Key = s: seq<nat> | IsBytes(s, 32) witness seq(32, _ => 0)

  /** uint128_union: amounts. */
  type Amount = s: seq<nat> | IsBytes(s, 16) witness seq(16, _ => 0)

  /** uint512_union: signatures. */
  type Signature = s: seq<nat> | IsBytes(s, 64) witness seq(64, _ => 0)

  /** 64-bit proof of work, height and timestamp values. */
  type U64 = n: nat | n < Pow(256, 8) witness 0

  function Number(s: seq<nat>): nat
  {
    Val(256, s)
  }

  lemma NumberBound(s: seq<nat>)
    requires Digits(256, s)
    ensures Number(s) < Pow(16, 2 * |s|)
    ensures Number(s) < Pow(256, |s|)
  {
    ValBound(256, s);
    HexPlaces(|s|);
  }

  /** A byte is two hexadecimal places. */
  lemma HexPlaces(k: nat)
    ensures Pow(16, 2 * k) == Pow(256, k)
  {
    assert Pow(16, 2) == 16 * (16 * Pow(16, 0)) == 256;
    PowPow(16, 2, k);
  }

  /** encode_hex: upper-case digits, padded with zeros to the full width. */
  function EncodeHex(s: seq<nat>): (t: string)
    requires Digits(256, s)
    ensures |t| == 2 * |s|
  {
    ToText(Fixed(16, Number(s), 2 * |s|), true)
  }

  /**
   decode_hex: at most two digits per byte, and only digits. Of the three widths only the 256 bit one
   also refuses the empty text, so that case is a parameter.
   */
  function DecodeHex(width: nat, emptyAllowed: bool, t: string): (r: Option<seq<nat>>)
    ensures r.Some? ==> IsBytes(r.value, width)
  {
    if |t| > 2 * width || (t == "" && !emptyAllowed) then None
    else
      match ReadNumber(16, t)
      case None => None
      case Some(n) => Some(Fixed(256, n, width))
  }

  function DecodeHexKey(t: string): Option<Key>
  {
    DecodeHex(32, false, t)
  }

  /** Printing in hexadecimal and reading back is the identity, at every width. */
  lemma HexRoundTrip(s: seq<nat>, emptyAllowed: bool)
    requires Digits(256, s) && |s| > 0
    ensures DecodeHex(|s|, emptyAllowed, EncodeHex(s)) == Some(s)
  {
    NumberBound(s);
    FixedReadBack(16, Number(s), 2 * |s|, true);
    FixedVal(256, s);
  }

  /** to_string_hex: 16 lower-case digits of a 64 bit value. */
  function U64ToHex(w: U64): (t: string)
    ensures |t| == 16
  {
    ToText(Fixed(16, w, 16), false)
  }

  /** from_string_hex: one to sixteen digits. */
  function U64FromHex(t: string): (r: Option<U64>)
  {
    if t == "" || |t| > 16 then None
    else
      match ReadNumber(16, t)
      case None => None
      case Some(n) =>
        assert n < Pow(256, 8) by {
          ValBound(16, CharValues(t));
          PowMonotone(16, |t|, 2 * 8);
          HexPlaces(8);
        }
        Some(n)
  }

  lemma U64HexRoundTrip(w: U64)
    ensures U64FromHex(U64ToHex(w)) == Some(w)
  {
    HexPlaces(8);
    FixedReadBack(16, w, 16, false);
  }

  // ---------- what the hexadecimal texts are ----------

  /** A text of the digits of a number in hexadecimal, in one case. */
  predicate HexTextOf(t: string, upper: bool, n: nat)
  {
    && (forall i :: 0 <= i < |t| ==> '0' <= t[i] <= '9' || (if upper then 'A' <= t[i] <= 'F' else 'a' <= t[i] <= 'f'))
    && ReadNumber(16, t) == Some(n)
  }

  /** encode_hex prints two upper-case digits per byte, with the value of the bytes read big-endian. */
  lemma HexPrinted(s: seq<nat>)
    requires Digits(256, s)
    ensures |EncodeHex(s)| == 2 * |s| && HexTextOf(EncodeHex(s), true, Number(s))
  {
    NumberBound(s);
    FixedReadBack(16, Number(s), 2 * |s|, true);
  }

  lemma U64HexPrinted(w: U64)
    ensures |U64ToHex(w)| == 16 && HexTextOf(U64ToHex(w), false, w)
  {
    HexPlaces(8);
    FixedReadBack(16, w, 16, false);
  }

  lemma TextBound(t: string, k: nat)
    requires |t| <= 2 * k && Digits(16, CharValues(t))
    ensures Val(16, CharValues(t)) < Pow(256, k)
  {
    ValBound(16, CharValues(t));
    PowMonotone(16, |t|, 2 * k);
    HexPlaces(k);
  }

  /** decode_hex accepts exactly the texts of hexadecimal digits, of either case, that are not too long. */
  lemma HexDecodesExactly(width: nat, emptyAllowed: bool, t: string, s: seq<nat>)
    requires IsBytes(s, width)
    ensures DecodeHex(width, emptyAllowed, t) == Some(s)
       <==> && |t| <= 2 * width && (t == "" ==> emptyAllowed)
            && Digits(16, CharValues(t)) && Number(s) == Val(16, CharValues(t))
  {
    if |t| <= 2 * width && Digits(16, CharValues(t)) {
      var n := Val(16, CharValues(t));
      TextBound(t, width);
      ValFixed(256, n, width);
      FixedVal(256, s);
    }
  }

  lemma U64DecodesExactly(t: string, w: U64)
    ensures U64FromHex(t) == Some(w)
       <==> 0 < |t| <= 16 && Digits(16, CharValues(t)) && w == Val(16, CharValues(t))
  {
    if 0 < |t| <= 16 && Digits(16, CharValues(t)) {
      TextBound(t, 8);
    }
  }

  // ---------- fields side by side ----------

  /** Byte strings one after the other. */
  function Join(x: seq<nat>, y: seq<nat>): (bs: seq<nat>)
    requires Digits(256, x) && Digits(256, y)
    ensures |bs| == |x| + |y| && Digits(256, bs)
  {
    x + y
  }

  lemma SubField(x: seq<nat>, y: seq<nat>, i: nat, j: nat)
    requires i <= j <= |x|
    ensures (x + y)[i..j] == x[i..j]
  {
  }

  lemma LastField(x: seq<nat>, y: seq<nat>)
    ensures (x + y)[|x|..|x| + |y|] == y
  {
  }

  lemma FourFields(a: seq<nat>, b: seq<nat>, c: seq<nat>, d: seq<nat>)
    ensures var bs, i2, i3 := a + b + c + d, |a| + |b|, |a| + |b| + |c|;
            bs[..|a|] == a && bs[|a|..i2] == b && bs[i2..i3] == c && bs[i3..i3 + |d|] == d
  {
    SubField(a, b, 0, |a|);
    SubField(a + b, c, 0, |a|);
    SubField(a + b + c, d, 0, |a|);
    LastField(a, b);
    SubField(a + b, c, |a|, |a + b|);
    SubField(a + b + c, d, |a|, |a + b|);
    LastField(a + b, c);
    SubField(a + b + c, d, |a + b|, |a + b + c|);
    LastField(a + b + c, d);
  }

  lemma FiveFields(a: seq<nat>, b: seq<nat>, c: seq<nat>, d: seq<nat>, e: seq<nat>)
    ensures var bs, i2, i3, i4 := a + b + c + d + e, |a| + |b|, |a| + |b| + |c|, |a| + |b| + |c| + |d|;
            bs[..|a|] == a && bs[|a|..i2] == b && bs[i2..i3] == c && bs[i3..i4] == d && bs[i4..i4 + |e|] == e
  {
    var front := a + b + c + d;
    FourFields(a, b, c, d);
    SubField(front, e, 0, |a|);
    SubField(front, e, |a|, |a| + |b|);
    SubField(front, e, |a| + |b|, |a| + |b| + |c|);
    SubField(front, e, |a| + |b| + |c|, |front|);
    LastField(front, e);
  }

  lemma SixFields(a: seq<nat>, b: seq<nat>, c: seq<nat>, d: seq<nat>, e: seq<nat>, f: seq<nat>)
    ensures var bs, i2, i3 := a + b + c + d + e + f, |a| + |b|, |a| + |b| + |c|;
            var i4, i5 := i3 + |d|, i3 + |d| + |e|;
            && bs[..|a|] == a && bs[|a|..i2] == b && bs[i2..i3] == c && bs[i3..i4] == d && bs[i4..i5] == e
            && bs[i5..i5 + |f|] == f
  {
    var front := a + b + c + d + e;
    FiveFields(a, b, c, d, e);
    SubField(front, f, 0, |a|);
    SubField(front, f, |a|, |a| + |b|);
    SubField(front, f, |a| + |b|, |a| + |b| + |c|);
    SubField(front, f, |a| + |b| + |c|, |a| + |b| + |c| + |d|);
    SubField(front, f, |a| + |b| + |c| + |d|, |front|);
    LastField(front, f);
  }

  /** Two neighbouring cuts of one byte string. */
  lemma Glue(bs: seq<nat>, i: nat, j: nat)
    requires i <= j <= |bs|
    ensures bs[..i] + bs[i..j] == bs[..j]
  {
  }
}
