/**
 The five block types of blocks.hpp and their binary form (blocks.cpp). Legacy blocks store their work in
 the byte order of the host; state blocks store it big-endian.
 */
module Blocks {
  import opened Options
  import opened Sequences
  import opened Numerals
  import opened FixedBytes

  datatype BlockType = SendType | ReceiveType | OpenType | ChangeType | StateType

  datatype Block =
    | Send(previous: Key, destination: Key, balance: Amount, signature: Signature, work: U64)
    | Receive(previous: Key, source: Key, signature: Signature, work: U64)
    | Open(source: Key, representative: Key, account: Key, signature: Signature, work: U64)
    | Change(previous: Key, representative: Key, signature: Signature, work: U64)
    | State(account: Key, previous: Key, representative: Key, balance: Amount, link: Key, signature: Signature, work: U64)

  datatype Host = LittleEndian | BigEndian

  function TypeOf(b: Block): BlockType
  {
    match b
    case Send(_, _, _, _, _) => SendType
    case Receive(_, _, _, _) => ReceiveType
    case Open(_, _, _, _, _) => OpenType
    case Change(_, _, _, _) => ChangeType
    case State(_, _, _, _, _, _, _) => StateType
  }

  function TypeCode(t: BlockType): nat
  {
    match t
    case SendType => 2
    case ReceiveType => 3
    case OpenType => 4
    case ChangeType => 5
    case StateType => 6
  }

  /** The type behind a type byte; invalid, not_a_block and unknown codes have none. */
  function TypeOfCode(code: nat): Option<BlockType>
  {
    if code == 2 then Some(SendType)
    else if code == 3 then Some(ReceiveType)
    else if code == 4 then Some(OpenType)
    else if code == 5 then Some(ChangeType)
    else if code == 6 then Some(StateType)
    else None
  }

  /** block::size. */
  function Size(t: BlockType): nat
  {
    match t
    case SendType => 152
    case ReceiveType => 136
    case OpenType => 168
    case ChangeType => 136
    case StateType => 216
  }

  // ---------- 64 bit values in memory ----------

  function BigBytes(w: U64): (bs: seq<nat>)
    ensures IsBytes(bs, 8)
  {
    Fixed(256, w, 8)
  }

  function BigValue(bs: seq<nat>): U64
    requires IsBytes(bs, 8)
  {
    ValBound(256, bs);
    Val(256, bs)
  }

  /** The bytes of a 64 bit value as the host keeps them. */
  function NativeBytes(host: Host, w: U64): (bs: seq<nat>)
    ensures IsBytes(bs, 8)
  {
    if host.BigEndian? then BigBytes(w) else Reverse(BigBytes(w))
  }

  function NativeValue(host: Host, bs: seq<nat>): U64
    requires IsBytes(bs, 8)
  {
    if host.BigEndian? then BigValue(bs) else BigValue(Reverse(bs))
  }

  /** boost's native_to_big and big_to_native: a byte swap on a little-endian host. */
  function SwapToBig(host: Host, w: U64): U64
  {
    if host.BigEndian? then w else BigValue(Reverse(BigBytes(w)))
  }

  lemma BigRoundTrip(w: U64)
    ensures BigValue(BigBytes(w)) == w
  {
    ValFixed(256, w, 8);
  }

  lemma BigInverse(bs: seq<nat>)
    requires IsBytes(bs, 8)
    ensures BigBytes(BigValue(bs)) == bs
  {
    FixedVal(256, bs);
  }

  lemma ReverseTwice(s: seq<nat>)
    ensures Reverse(Reverse(s)) == s
  {
  }

  lemma NativeRoundTrip(host: Host, w: U64)
    ensures NativeValue(host, NativeBytes(host, w)) == w
  {
    BigRoundTrip(w);
    ReverseTwice(BigBytes(w));
  }

  lemma NativeInverse(host: Host, bs: seq<nat>)
    requires IsBytes(bs, 8)
    ensures NativeBytes(host, NativeValue(host, bs)) == bs
  {
    ReverseTwice(bs);
    BigInverse(if host.BigEndian? then bs else Reverse(bs));
  }

  /** Swapping before a native write, and after a native read, is big-endian storage on every host. */
  lemma SwappedIsBig(host: Host, w: U64, bs: seq<nat>)
    requires IsBytes(bs, 8)
    ensures NativeBytes(host, SwapToBig(host, w)) == BigBytes(w)
    ensures SwapToBig(host, NativeValue(host, bs)) == BigValue(bs)
  {
    if host.LittleEndian? {
      BigInverse(Reverse(BigBytes(w)));
      ReverseTwice(BigBytes(w));
      BigInverse(Reverse(bs));
      ReverseTwice(bs);
    }
  }

  // ---------- the layout ----------

  /** serialize. */
  function Serialize(host: Host, b: Block): (bs: seq<nat>)
    ensures |bs| == Size(TypeOf(b)) && Digits(256, bs)
  {
    match b
    case Send(previous, destination, balance, signature, work) =>
      Join(Join(Join(Join(previous, destination), balance), signature), NativeBytes(host, work))
    case Receive(previous, source, signature, work) =>
      Join(Join(Join(previous, source), signature), NativeBytes(host, work))
    case Open(source, representative, account, signature, work) =>
      Join(Join(Join(Join(source, representative), account), signature), NativeBytes(host, work))
    case Change(previous, representative, signature, work) =>
      Join(Join(Join(previous, representative), signature), NativeBytes(host, work))
    case State(account, previous, representative, balance, link, signature, work) =>
      Join(Join(Join(Join(Join(Join(account, previous), representative), balance), link), signature),
           NativeBytes(host, SwapToBig(host, work)))
  }

  /** The block laid out in the first Size(t) bytes. */
  function Layout(host: Host, t: BlockType, bs: seq<nat>): (b: Block)
    requires IsBytes(bs, Size(t))
    ensures TypeOf(b) == t
  {
    match t
    case SendType => Send(bs[..32], bs[32..64], bs[64..80], bs[80..144], NativeValue(host, bs[144..152]))
    case ReceiveType => Receive(bs[..32], bs[32..64], bs[64..128], NativeValue(host, bs[128..136]))
    case OpenType => Open(bs[..32], bs[32..64], bs[64..96], bs[96..160], NativeValue(host, bs[160..168]))
    case ChangeType => Change(bs[..32], bs[32..64], bs[64..128], NativeValue(host, bs[128..136]))
    case StateType =>
      State(bs[..32], bs[32..64], bs[64..96], bs[96..112], bs[112..144], bs[144..208],
            SwapToBig(host, NativeValue(host, bs[208..216])))
  }

  /** What reading a body gives, and the bytes left over; a short read uses up the stream. */
  function ParseBody(host: Host, t: BlockType, data: seq<nat>): (Option<Block>, seq<nat>)
    requires Digits(256, data)
  {
    if |data| < Size(t) then (None, []) else (Some(Layout(host, t, data[..Size(t)])), data[Size(t)..])
  }

  /** deserialize_block: a type byte and the body of that type. */
  function ParseBlock(host: Host, data: seq<nat>): (Option<Block>, seq<nat>)
    requires Digits(256, data)
  {
    if data == [] then (None, [])
    else
      match TypeOfCode(data[0])
      case None => (None, data[1..])
      case Some(t) => ParseBody(host, t, data[1..])
  }

  lemma LayoutOfSend(host: Host, b: Block)
    requires b.Send?
    ensures Layout(host, SendType, Serialize(host, b)) == b
  {
    FiveFields(b.previous, b.destination, b.balance, b.signature, NativeBytes(host, b.work));
    NativeRoundTrip(host, b.work);
  }

  lemma LayoutOfReceive(host: Host, b: Block)
    requires b.Receive?
    ensures Layout(host, ReceiveType, Serialize(host, b)) == b
  {
    FourFields(b.previous, b.source, b.signature, NativeBytes(host, b.work));
    NativeRoundTrip(host, b.work);
  }

  lemma LayoutOfOpen(host: Host, b: Block)
    requires b.Open?
    ensures Layout(host, OpenType, Serialize(host, b)) == b
  {
    FiveFields(b.source, b.representative, b.account, b.signature, NativeBytes(host, b.work));
    NativeRoundTrip(host, b.work);
  }

  lemma LayoutOfChange(host: Host, b: Block)
    requires b.Change?
    ensures Layout(host, ChangeType, Serialize(host, b)) == b
  {
    FourFields(b.previous, b.representative, b.signature, NativeBytes(host, b.work));
    NativeRoundTrip(host, b.work);
  }

  lemma SubSubField(bs: seq<nat>, n: nat, i: nat, j: nat)
    requires i <= j <= n <= |bs|
    ensures bs[..n][i..j] == bs[i..j]
  {
  }

  lemma LayoutOfState(host: Host, b: Block)
    requires b.State?
    ensures Layout(host, StateType, Serialize(host, b)) == b
  {
    var work := NativeBytes(host, SwapToBig(host, b.work));
    var two := b.account + b.previous;
    SixFields(two, b.representative, b.balance, b.link, b.signature, work);
    SubField(b.account, b.previous, 0, 32);
    LastField(b.account, b.previous);
    SubSubField(Serialize(host, b), 64, 0, 32);
    SubSubField(Serialize(host, b), 64, 32, 64);
    SwappedIsBig(host, b.work, work);
    BigRoundTrip(b.work);
  }

  /** The layout reads back what serialize wrote. */
  lemma LayoutOfSerialized(host: Host, b: Block)
    ensures Layout(host, TypeOf(b), Serialize(host, b)) == b
  {
    match b
    case Send(_, _, _, _, _) => LayoutOfSend(host, b);
    case Receive(_, _, _, _) => LayoutOfReceive(host, b);
    case Open(_, _, _, _, _) => LayoutOfOpen(host, b);
    case Change(_, _, _, _) => LayoutOfChange(host, b);
    case State(_, _, _, _, _, _, _) => LayoutOfState(host, b);
  }

  lemma SerializedLegacyLayout(host: Host, t: BlockType, bs: seq<nat>)
    requires !t.StateType? && IsBytes(bs, Size(t))
    ensures Serialize(host, Layout(host, t, bs)) == bs
  {
    Glue(bs, 32, 64);
    match t
    case SendType =>
      Glue(bs, 64, 80);
      Glue(bs, 80, 144);
      Glue(bs, 144, 152);
      NativeInverse(host, bs[144..152]);
    case ReceiveType =>
      Glue(bs, 64, 128);
      Glue(bs, 128, 136);
      NativeInverse(host, bs[128..136]);
    case OpenType =>
      Glue(bs, 64, 96);
      Glue(bs, 96, 160);
      Glue(bs, 160, 168);
      NativeInverse(host, bs[160..168]);
    case ChangeType =>
      Glue(bs, 64, 128);
      Glue(bs, 128, 136);
      NativeInverse(host, bs[128..136]);
  }

  lemma SerializedStateLayout(host: Host, bs: seq<nat>)
    requires IsBytes(bs, 216)
    ensures Serialize(host, Layout(host, StateType, bs)) == bs
  {
    var raw := bs[208..216];
    SwappedIsBig(host, BigValue(raw), raw);
    BigInverse(raw);
    Glue(bs, 32, 64);
    Glue(bs, 64, 96);
    Glue(bs, 96, 112);
    Glue(bs, 112, 144);
    Glue(bs, 144, 208);
    Glue(bs, 208, 216);
  }

  /** And serialize writes back what the layout read: every body of the right length is canonical. */
  lemma SerializedLayout(host: Host, t: BlockType, bs: seq<nat>)
    requires IsBytes(bs, Size(t))
    ensures Serialize(host, Layout(host, t, bs)) == bs
  {
    if t.StateType? { SerializedStateLayout(host, bs); } else { SerializedLegacyLayout(host, t, bs); }
  }
}
