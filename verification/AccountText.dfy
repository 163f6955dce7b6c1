/**
 The base-32 text form of a public key: a four letter prefix, a separator and 60 characters that carry
 the 256 bits of the key followed by a 40 bit check (numbers.cpp, encode_account and decode_account).
 The BLAKE2b digest behind the check is a parameter; only its low 40 bits are used.
 */
module AccountText {
  import opened Options
  import opened Sequences
  import opened Numerals
  import opened FixedBytes

  const ACCOUNT_LOOKUP: string := "13456789abcdefgh" + "ijkmnopqrstuwxyz"

  // One string per row of sixteen character codes, from 0x30 on.
  const ACCOUNT_REVERSE: string :=
    "~0~1234567~~~~~~" + "~~~~~~~~~~~~~~~~" + "~~~~~~~~~~~~~~~~" + "~89:;<=>?@AB~CDE" + "FGHIJK~LMNO~~~~~"

  const NO_DIGIT: nat := 126 // the code of '~'

  /** The character at an index, by recursion: proofs about texts then need not unfold a whole table. */
  function CharAt(table: string, i: nat): char
    requires i < |table|
  {
    if i == 0 then table[0] else CharAt(table[1..], i - 1)
  }

  lemma {:induction false} CharAtIndex(table: string, i: nat)
    requires i < |table|
    ensures CharAt(table, i) == table[i]
  {
    if i > 0 { CharAtIndex(table[1..], i - 1); }
  }

  function AccountEncode(d: nat): char
    requires d < 32
  {
    CharAt(ACCOUNT_LOOKUP, d)
  }

  function AccountDecode(c: char): nat
    requires 0x30 <= c as int < 0x80
  {
    var r := CharAt(ACCOUNT_REVERSE, c as int - 0x30);
    if r != '~' && r as int >= 0x30 then r as int - 0x30 else NO_DIGIT
  }

  predicate EntryAgrees(i: nat)
    requires i < 80
  {
    var r := ACCOUNT_REVERSE[i];
    r != '~' ==> 0x30 <= r as int < 0x50 && ACCOUNT_LOOKUP[r as int - 0x30] as int == i + 0x30
  }

  lemma LowRowAgrees(i: nat)
    requires i < 16
    ensures EntryAgrees(i)
  {
  }

  lemma UpperCaseRowsEmpty(i: nat)
    requires 16 <= i < 48
    ensures ACCOUNT_REVERSE[i] == '~'
  {
  }

  lemma LowerCaseRowsAgree(i: nat)
    requires 48 <= i < 80
    ensures EntryAgrees(i)
  {
    if i < 64 { assert EntryAgrees(i); }
  }

  lemma LowLookup(d: nat)
    requires d < 16
    ensures 0x30 <= ACCOUNT_LOOKUP[d] as int < 0x80
    ensures ACCOUNT_REVERSE[ACCOUNT_LOOKUP[d] as int - 0x30] as int == d + 0x30
  {
  }

  lemma HighLookup(d: nat)
    requires 16 <= d < 32
    ensures 0x60 <= ACCOUNT_LOOKUP[d] as int < 0x80
    ensures ACCOUNT_REVERSE[ACCOUNT_LOOKUP[d] as int - 0x30] as int == d + 0x30
  {
  }

  /** A character that the reverse table turns into a digit. */
  predicate IsAccountChar(c: char)
  {
    0x30 <= c as int < 0x80 && AccountDecode(c) != NO_DIGIT
  }

  lemma EncodeThenDecode(d: nat)
    requires d < 32
    ensures IsAccountChar(AccountEncode(d)) && AccountDecode(AccountEncode(d)) == d
  {
    if d < 16 { LowLookup(d); } else { HighLookup(d); }
    CharAtIndex(ACCOUNT_LOOKUP, d);
    CharAtIndex(ACCOUNT_REVERSE, ACCOUNT_LOOKUP[d] as int - 0x30);
  }

  lemma DecodeThenEncode(c: char)
    requires IsAccountChar(c)
    ensures AccountDecode(c) < 32 && AccountEncode(AccountDecode(c)) == c
  {
    var i := c as int - 0x30;
    CharAtIndex(ACCOUNT_REVERSE, i);
    if i < 16 { LowRowAgrees(i); } else if i < 48 { UpperCaseRowsEmpty(i); } else { LowerCaseRowsAgree(i); }
    CharAtIndex(ACCOUNT_LOOKUP, AccountDecode(c));
  }

  lemma FirstTwoDigits()
    ensures AccountEncode(0) == '1' && AccountEncode(1) == '3'
    ensures AccountDecode('1') == 0 && AccountDecode('3') == 1
  {
    CharAtIndex(ACCOUNT_LOOKUP, 0);
    CharAtIndex(ACCOUNT_LOOKUP, 1);
    EncodeThenDecode(0);
    EncodeThenDecode(1);
  }

  function AccountChars(ds: seq<nat>): (t: string)
    requires Digits(32, ds)
    ensures |t| == |ds|
    ensures forall i :: 0 <= i < |t| ==> t[i] == AccountEncode(ds[i])
  {
    seq(|ds|, i requires 0 <= i < |ds| => AccountEncode(ds[i]))
  }

  predicate AllAccountChars(t: string)
  {
    forall i :: 0 <= i < |t| ==> IsAccountChar(t[i])
  }

  function AccountDigits(t: string): (ds: seq<nat>)
    requires AllAccountChars(t)
    ensures |ds| == |t|
    ensures forall i :: 0 <= i < |t| ==> ds[i] == AccountDecode(t[i])
  {
    seq(|t|, i requires 0 <= i < |t| => AccountDecode(t[i]))
  }

  lemma DigitsOfChars(ds: seq<nat>)
    requires Digits(32, ds)
    ensures AllAccountChars(AccountChars(ds))
    ensures AccountDigits(AccountChars(ds)) == ds
  {
    forall i | 0 <= i < |ds|
      ensures IsAccountChar(AccountChars(ds)[i]) && AccountDecode(AccountChars(ds)[i]) == ds[i]
    {
      EncodeThenDecode(ds[i]);
    }
  }

  lemma CharsOfDigits(t: string)
    requires AllAccountChars(t)
    ensures Digits(32, AccountDigits(t))
    ensures AccountChars(AccountDigits(t)) == t
  {
    forall i | 0 <= i < |t|
      ensures AccountDigits(t)[i] < 32 && AccountEncode(AccountDigits(t)[i]) == t[i]
    {
      DecodeThenEncode(t[i]);
    }
  }

  // ---------- the codec ----------

  function CheckOf(hash: Key -> nat, key: Key): (c: nat)
    ensures c < TWO_40
  {
    hash(key) % TWO_40
  }

  function AccountNumber(hash: Key -> nat, key: Key): nat
  {
    Number(key) * TWO_40 + CheckOf(hash, key)
  }

  /** What to_account prints. */
  function ToAccount(hash: Key -> nat, key: Key): (t: string)
    ensures |t| == 65
  {
    "vxld_" + AccountChars(Fixed(32, AccountNumber(hash, key), 60))
  }

  /** What to_node_id prints. */
  function ToNodeId(hash: Key -> nat, key: Key): (t: string)
  {
    "node" + ToAccount(hash, key)[4..]
  }

  predicate VxldPrefix(t: string)
  {
    |t| >= 5 && t[..4] == "vxld" && (t[4] == '_' || t[4] == '-')
  }

  predicate NodePrefix(t: string)
  {
    |t| >= 5 && t[..5] == "node_"
  }

  /** What the accumulated base-32 number decodes to: the key, if its check matches. */
  function KeyOfNumber(hash: Key -> nat, n: nat): Option<Key>
  {
    var key: Key := Fixed(256, Quot(n, TWO_40), 32);
    if n % TWO_40 == CheckOf(hash, key) then Some(key) else None
  }

  function DecodeAccount(hash: Key -> nat, t: string): Option<Key>
  {
    if VxldPrefix(t) && |t| != 65 then None
    else if !VxldPrefix(t) && !NodePrefix(t) then None
    else if |t| == 5 || (t[5] != '1' && t[5] != '3') then None
    else if !AllAccountChars(t[5..]) then None
    else KeyOfNumber(hash, Val(32, AccountDigits(t[5..])) % TWO_512)
  }

  lemma EncodeStep(all: seq<nat>, k: nat, t: string)
    requires Digits(32, all) && 0 < k <= |all|
    requires t == Reverse(AccountChars(all[k..]))
    ensures t + [AccountEncode(all[k - 1])] == Reverse(AccountChars(all[k - 1..]))
  {
    var longer := AccountChars(all[k - 1..]);
    assert longer == [AccountEncode(all[k - 1])] + AccountChars(all[k..]);
  }

  lemma FixedStep(n: nat, k: nat)
    requires k > 0
    ensures Fixed(32, n, k) == Fixed(32, n / 32, k - 1) + [n % 32]
  {
  }

  /** encode_account: least significant digit first, then one reversal of the whole text. */
  method EncodeAccount(hash: Key -> nat, key: Key) returns (t: string)
    ensures t == ToAccount(hash, key)
  {
    var number := AccountNumber(hash, key);
    ghost var all := Fixed(32, number, 60);
    t := "";
    for i := 0 to 60
      invariant all[..60 - i] == Fixed(32, number, 60 - i)
      invariant t == Reverse(AccountChars(all[60 - i..]))
    {
      var r := number % 32;
      FixedStep(number, 60 - i);
      assert all[59 - i] == all[..60 - i][59 - i] == r;
      assert all[..59 - i] == all[..60 - i][..59 - i];
      EncodeStep(all, 60 - i, t);
      number := number / 32;
      t := t + [AccountEncode(r)];
    }
    assert all[0..] == all;
    t := t + "_dlxv";
    t := Reverse(t);
  }

  lemma DecodeStep(t: string, c: char, wrap: nat)
    requires AllAccountChars(t) && IsAccountChar(c) && wrap > 0
    ensures AllAccountChars(t + [c])
    ensures (Val(32, AccountDigits(t)) % wrap * 32 + AccountDecode(c)) % wrap
            == Val(32, AccountDigits(t + [c])) % wrap
  {
    var ds, ds' := AccountDigits(t), AccountDigits(t + [c]);
    assert ds' == ds + [AccountDecode(c)];
    assert ds'[..|ds'| - 1] == ds;
    ModMulAdd(Val(32, ds), wrap, 32, AccountDecode(c));
  }

  /**
   The loop of decode_account: it stops at the first character that is no digit. The accumulator wraps
   around at its width.
   */
  method DecodeDigits(t: string, wrap: nat) returns (r: Option<nat>)
    requires wrap > 0
    ensures r == if AllAccountChars(t) then Some(Val(32, AccountDigits(t)) % wrap) else None
  {
    var number := 0;
    for i := 0 to |t|
      invariant AllAccountChars(t[..i])
      invariant number == Val(32, AccountDigits(t[..i])) % wrap
    {
      var c := t[i];
      if c as int < 0x30 || c as int >= 0x80 { return None; }
      var digit := AccountDecode(c);
      if digit == NO_DIGIT { return None; }
      assert t[..i + 1] == t[..i] + [c];
      DecodeStep(t[..i], c, wrap);
      number := (number * 32 + digit) % wrap;
    }
    assert t[..|t|] == t;
    r := Some(number);
  }

  method DecodeAccountText(hash: Key -> nat, t: string) returns (r: Option<Key>)
    ensures r == DecodeAccount(hash, t)
  {
    if |t| < 5 { return None; }
    var vxldPrefix := t[..4] == "vxld" && (t[4] == '_' || t[4] == '-');
    var nodeIdPrefix := t[..4] == "node" && t[4] == '_';
    assert nodeIdPrefix == NodePrefix(t) by {
      assert t[..5] == t[..4] + [t[4]];
    }
    if vxldPrefix && |t| != 65 { return None; }
    if !vxldPrefix && !nodeIdPrefix { return None; }
    if |t| == 5 || (t[5] != '1' && t[5] != '3') { return None; }
    var number := DecodeDigits(t[5..], TWO_512);
    if number == None { return None; }
    r := KeyOfNumber(hash, number.value);
  }

  // ---------- the codec is a bijection onto its image ----------

  lemma AccountNumberBound(hash: Key -> nat, key: Key)
    ensures AccountNumber(hash, key) < TWO_296
  {
    ValBound(256, key);
    BytePowers();
  }

  /** 296 bits are 59 full digits and one more bit, which is the first digit. */
  lemma FirstDigit(n: nat)
    requires n < TWO_296
    ensures Fixed(32, n, 60)[0] <= 1
    ensures Val(32, Fixed(32, n, 60)) == n
  {
    Base32Powers();
    var ds := Fixed(32, n, 60);
    ValFixed(32, n, 60);
    ValHead(32, ds);
    if ds[0] >= 2 { MulMonotone(2, ds[0], Pow(32, 59)); }
  }

  lemma KeyOfAccountNumber(hash: Key -> nat, key: Key)
    ensures KeyOfNumber(hash, AccountNumber(hash, key)) == Some(key)
  {
    var n := AccountNumber(hash, key);
    DivModUnique(n, TWO_40, Number(key), CheckOf(hash, key));
    FixedVal(256, key);
  }

  lemma DecodeOfDigits(hash: Key -> nat, t: string, ds: seq<nat>)
    requires |t| == 65 && (VxldPrefix(t) || NodePrefix(t))
    requires Digits(32, ds) && |ds| == 60 && ds[0] <= 1 && t[5..] == AccountChars(ds)
    ensures DecodeAccount(hash, t) == KeyOfNumber(hash, Val(32, ds) % TWO_512)
  {
    DigitsOfChars(ds);
    assert t[5] == t[5..][0] == AccountEncode(ds[0]);
    FirstTwoDigits();
  }

  lemma PrintedBodyDecodes(hash: Key -> nat, key: Key, t: string)
    requires |t| == 65 && (VxldPrefix(t) || NodePrefix(t))
    requires t[5..] == ToAccount(hash, key)[5..]
    ensures DecodeAccount(hash, t) == Some(key)
  {
    var n := AccountNumber(hash, key);
    var ds := Fixed(32, n, 60);
    AccountNumberBound(hash, key);
    FirstDigit(n);
    assert t[5..] == AccountChars(ds);
    DecodeOfDigits(hash, t, ds);
    KeyOfAccountNumber(hash, key);
    DivModUnique(n, TWO_512, 0, n);
  }

  /** The two prefixes in front of one body. */
  lemma PrefixParts(body: string)
    ensures VxldPrefix("vxld_" + body) && ("vxld_" + body)[5..] == body
    ensures var t := "node" + ("vxld_" + body)[4..]; NodePrefix(t) && |t| == 5 + |body| && t[5..] == body
  {
    assert ("vxld_" + body)[4..] == "_" + body;
    var t := "node" + ("vxld_" + body)[4..];
    assert t[..5] == "node_";
  }

  /** Both printed forms of every key decode to that key. */
  lemma PrintedKeyDecodes(hash: Key -> nat, key: Key)
    ensures DecodeAccount(hash, ToAccount(hash, key)) == Some(key)
    ensures DecodeAccount(hash, ToNodeId(hash, key)) == Some(key)
  {
    var body := AccountChars(Fixed(32, AccountNumber(hash, key), 60));
    PrefixParts(body);
    PrintedBodyDecodes(hash, key, ToAccount(hash, key));
    PrintedBodyDecodes(hash, key, ToNodeId(hash, key));
  }

  /** The printed form always starts with '1' or '3' after the prefix. */
  lemma PrintedFirstCharacter(hash: Key -> nat, key: Key)
    ensures ToAccount(hash, key)[5] == '1' || ToAccount(hash, key)[5] == '3'
  {
    AccountNumberBound(hash, key);
    FirstDigit(AccountNumber(hash, key));
    FirstTwoDigits();
  }

  /** A text with the vxld prefix that decodes is the printed form of its key, up to the separator. */
  lemma DecodedTextIsPrinted(hash: Key -> nat, t: string, key: Key)
    requires VxldPrefix(t) && DecodeAccount(hash, t) == Some(key)
    ensures |t| == 65
    ensures t[5..] == ToAccount(hash, key)[5..] && t[..4] == ToAccount(hash, key)[..4]
  {
    var ds := AccountDigits(t[5..]);
    CharsOfDigits(t[5..]);
    var n := Val(32, ds);
    assert ds[0] <= 1 by { assert t[5..][0] == t[5]; FirstTwoDigits(); }
    assert n < TWO_296 by {
      Base32Powers();
      ValHead(32, ds);
      ValBound(32, ds[1..]);
      MulMonotone(ds[0], 1, Pow(32, 59));
    }
    DivModUnique(n, TWO_512, 0, n);
    NumberOfDecoded(hash, n, key);
    FixedVal(32, ds);
    assert t[5..] == AccountChars(Fixed(32, AccountNumber(hash, key), 60));
  }

  lemma NumberOfDecoded(hash: Key -> nat, n: nat, key: Key)
    requires n < TWO_296 && KeyOfNumber(hash, n) == Some(key)
    ensures AccountNumber(hash, key) == n
  {
    BytePowers();
    ValFixed(256, Quot(n, TWO_40), 32);
  }

  /** So no two keys share a text, and no two texts with one separator share a key. */
  lemma AccountTextInjective(hash: Key -> nat, k1: Key, k2: Key)
    requires ToAccount(hash, k1) == ToAccount(hash, k2)
    ensures k1 == k2
  {
    PrintedKeyDecodes(hash, k1);
    PrintedKeyDecodes(hash, k2);
  }

  lemma DecodingInjective(hash: Key -> nat, t1: string, t2: string)
    requires VxldPrefix(t1) && VxldPrefix(t2) && t1[4] == t2[4]
    requires DecodeAccount(hash, t1).Some? && DecodeAccount(hash, t1) == DecodeAccount(hash, t2)
    ensures t1 == t2
  {
    var key := DecodeAccount(hash, t1).value;
    DecodedTextIsPrinted(hash, t1, key);
    DecodedTextIsPrinted(hash, t2, key);
    assert t1 == t1[..4] + [t1[4]] + t1[5..];
    assert t2 == t2[..4] + [t2[4]] + t2[5..];
  }

  // ---------- what the text carries ----------

  /** The base-32 value of a text. */
  function TextValue(t: string): nat
    requires AllAccountChars(t)
  {
    Val(32, AccountDigits(t))
  }

  /** The 60 characters behind the prefix carry the key and, below it, the low 40 bits of its digest. */
  lemma PrintedValue(hash: Key -> nat, key: Key)
    ensures var body := ToAccount(hash, key)[5..];
            && ToAccount(hash, key)[..5] == "vxld_" && |body| == 60 && AllAccountChars(body)
            && TextValue(body) == Number(key) * TWO_40 + hash(key) % TWO_40
  {
    var ds := Fixed(32, AccountNumber(hash, key), 60);
    assert ToAccount(hash, key)[5..] == AccountChars(ds);
    DigitsOfChars(ds);
    AccountNumberBound(hash, key);
    FirstDigit(AccountNumber(hash, key));
  }

  /** A node id has the same characters behind its own prefix. */
  lemma NodeIdBody(hash: Key -> nat, key: Key)
    ensures ToNodeId(hash, key)[..5] == "node_" && ToNodeId(hash, key)[5..] == ToAccount(hash, key)[5..]
  {
    PrefixParts(AccountChars(Fixed(32, AccountNumber(hash, key), 60)));
  }

  /** A body the reader looks at: account characters, the first of them 1 or 3. */
  predicate ReadableBody(t: string)
  {
    t != "" && (t[0] == '1' || t[0] == '3') && AllAccountChars(t)
  }

  lemma KeyOfSmallNumber(hash: Key -> nat, n: nat, key: Key)
    requires n < TWO_296
    ensures KeyOfNumber(hash, n) == Some(key)
       <==> Quot(n, TWO_40) == Number(key) && n % TWO_40 == hash(key) % TWO_40
  {
    BytePowers();
    var q := Quot(n, TWO_40);
    ValFixed(256, q, 32);
    if q == Number(key) {
      FixedVal(256, key);
    }
  }

  lemma ReadableBodyBound(t: string)
    requires ReadableBody(t) && |t| == 60
    ensures TextValue(t) < TWO_296
  {
    var ds := AccountDigits(t);
    CharsOfDigits(t);
    FirstTwoDigits();
    Base32Powers();
    ValHead(32, ds);
    ValBound(32, ds[1..]);
    MulMonotone(ds[0], 1, Pow(32, 59));
  }

  /**
   A text with the vxld prefix decodes to a key exactly if it has 65 characters, the last 60 readable, whose
   value is the key above the low 40 bits of its digest.
   */
  lemma DecodesExactly(hash: Key -> nat, t: string, key: Key)
    requires VxldPrefix(t)
    ensures DecodeAccount(hash, t) == Some(key)
       <==> && |t| == 65 && ReadableBody(t[5..])
            && Quot(TextValue(t[5..]), TWO_40) == Number(key)
            && TextValue(t[5..]) % TWO_40 == hash(key) % TWO_40
  {
    if |t| == 65 {
      var body := t[5..];
      assert body[0] == t[5];
      if ReadableBody(body) {
        ReadableBodyBound(body);
        DivModUnique(TextValue(body), TWO_512, 0, TextValue(body));
        KeyOfSmallNumber(hash, TextValue(body), key);
      }
    }
  }

  lemma KeyOfAnyNumber(hash: Key -> nat, n: nat, key: Key)
    ensures KeyOfNumber(hash, n) == Some(key)
       <==> Quot(n, TWO_40) % TWO_256 == Number(key) && n % TWO_40 == hash(key) % TWO_40
  {
    BytePowers();
    FixedWraps(256, Quot(n, TWO_40), 32);
    if Quot(n, TWO_40) % TWO_256 == Number(key) {
      ValInjective(256, Fixed(256, Quot(n, TWO_40), 32), key);
    }
  }

  /** A node id has no fixed length: its value is taken modulo 2^512, and the key is what fits 256 bits above the check. */
  lemma NodeDecodesExactly(hash: Key -> nat, t: string, key: Key)
    requires NodePrefix(t)
    ensures DecodeAccount(hash, t) == Some(key)
       <==> && ReadableBody(t[5..])
            && Quot(TextValue(t[5..]) % TWO_512, TWO_40) % TWO_256 == Number(key)
            && TextValue(t[5..]) % TWO_512 % TWO_40 == hash(key) % TWO_40
  {
    if |t| > 5 {
      assert t[5..][0] == t[5];
    }
    assert t[..5][0] == t[0] && t[..4][0] == t[0];
    if ReadableBody(t[5..]) {
      KeyOfAnyNumber(hash, TextValue(t[5..]) % TWO_512, key);
    }
  }

  /** No other prefix is read at all. */
  lemma OtherPrefixRejected(hash: Key -> nat, t: string)
    requires !VxldPrefix(t) && !NodePrefix(t)
    ensures DecodeAccount(hash, t).None?
  {
  }

  predicate DigitOrLower(c: char)
  {
    '0' <= c <= '9' || 'a' <= c <= 'z'
  }

  lemma LowRowExactly(i: nat)
    requires i < 16
    ensures ACCOUNT_REVERSE[i] != '~' <==> i < 10 && i != 0 && i != 2
    ensures ACCOUNT_REVERSE[i] != '~' ==> ACCOUNT_REVERSE[i] as int >= 0x30
  {
  }

  lemma LetterRowExactly(i: nat)
    requires 48 <= i < 64
    ensures ACCOUNT_REVERSE[i] != '~' <==> i != 48 && i != 60
    ensures ACCOUNT_REVERSE[i] != '~' ==> ACCOUNT_REVERSE[i] as int >= 0x30
  {
  }

  lemma LastRowExactly(i: nat)
    requires 64 <= i < 80
    ensures ACCOUNT_REVERSE[i] != '~' <==> i < 75 && i != 70
    ensures ACCOUNT_REVERSE[i] != '~' ==> ACCOUNT_REVERSE[i] as int >= 0x30
  {
  }

  /** The alphabet is the digits and lower-case letters without 0, 2, l and v. */
  lemma AlphabetExactly(c: char)
    ensures IsAccountChar(c) <==> DigitOrLower(c) && c != '0' && c != '2' && c != 'l' && c != 'v'
  {
    if 0x30 <= c as int < 0x80 {
      var i := c as int - 0x30;
      CharAtIndex(ACCOUNT_REVERSE, i);
      if i < 16 { LowRowExactly(i); }
      else if i < 48 { UpperCaseRowsEmpty(i); }
      else if i < 64 { LetterRowExactly(i); }
      else { LastRowExactly(i); }
      if ACCOUNT_REVERSE[i] != '~' {
        if i < 16 { LowRowAgrees(i); } else { LowerCaseRowsAgree(i); }
      }
    }
  }

  lemma LookupStep(d: nat)
    requires d < 31
    ensures ACCOUNT_LOOKUP[d] < ACCOUNT_LOOKUP[d + 1]
  {
    if d < 8 {
    } else if d < 16 {
    } else if d < 24 {
    }
  }

  /** In the order of the character codes: with the alphabet this fixes every digit. */
  lemma {:induction false} AlphabetInOrder(d: nat, e: nat)
    requires d < e < 32
    ensures AccountEncode(d) < AccountEncode(e)
  {
    CharAtIndex(ACCOUNT_LOOKUP, e - 1);
    CharAtIndex(ACCOUNT_LOOKUP, e);
    LookupStep(e - 1);
    if d < e - 1 {
      AlphabetInOrder(d, e - 1);
    }
  }
}
