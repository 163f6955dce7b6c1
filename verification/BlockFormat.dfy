/**
 The stored form of blocks and sidebands, byte by byte for each block type: type bytes, offsets, byte order
 and sizes as numbers (blocks.cpp, blocks.hpp).
 */
module BlockFormat {
  import opened Options
  import opened Sequences
  import opened Numerals
  import opened FixedBytes
  import opened Blocks
  import opened BlockStream
  import opened Sideband

  // ---------- blocks ----------

  /** Eight bytes that hold w in the byte order of the host. */
  predicate HostOrder(host: Host, bs: seq<nat>, w: nat)
  {
    IsBytes(bs, 8) && w == Val(256, if host.BigEndian? then bs else Reverse(bs))
  }

  predicate BigOrder(bs: seq<nat>, w: nat)
  {
    IsBytes(bs, 8) && w == Val(256, bs)
  }

  lemma NativeIsHostOrder(host: Host, w: U64)
    ensures HostOrder(host, NativeBytes(host, w), w) && BigOrder(BigBytes(w), w)
  {
    BigRoundTrip(w);
    ReverseTwice(BigBytes(w));
  }

  lemma SendFormat(host: Host, b: Block)
    requires b.Send?
    ensures var bs := Serialize(host, b);
            && Encode(host, b) == [2] + bs && |bs| == 152
            && bs[..32] == b.previous && bs[32..64] == b.destination && bs[64..80] == b.balance
            && bs[80..144] == b.signature && HostOrder(host, bs[144..152], b.work)
  {
    FiveFields(b.previous, b.destination, b.balance, b.signature, NativeBytes(host, b.work));
    NativeIsHostOrder(host, b.work);
  }

  lemma ReceiveFormat(host: Host, b: Block)
    requires b.Receive?
    ensures var bs := Serialize(host, b);
            && Encode(host, b) == [3] + bs && |bs| == 136
            && bs[..32] == b.previous && bs[32..64] == b.source
            && bs[64..128] == b.signature && HostOrder(host, bs[128..136], b.work)
  {
    FourFields(b.previous, b.source, b.signature, NativeBytes(host, b.work));
    NativeIsHostOrder(host, b.work);
  }

  lemma OpenFormat(host: Host, b: Block)
    requires b.Open?
    ensures var bs := Serialize(host, b);
            && Encode(host, b) == [4] + bs && |bs| == 168
            && bs[..32] == b.source && bs[32..64] == b.representative && bs[64..96] == b.account
            && bs[96..160] == b.signature && HostOrder(host, bs[160..168], b.work)
  {
    FiveFields(b.source, b.representative, b.account, b.signature, NativeBytes(host, b.work));
    NativeIsHostOrder(host, b.work);
  }

  lemma ChangeFormat(host: Host, b: Block)
    requires b.Change?
    ensures var bs := Serialize(host, b);
            && Encode(host, b) == [5] + bs && |bs| == 136
            && bs[..32] == b.previous && bs[32..64] == b.representative
            && bs[64..128] == b.signature && HostOrder(host, bs[128..136], b.work)
  {
    FourFields(b.previous, b.representative, b.signature, NativeBytes(host, b.work));
    NativeIsHostOrder(host, b.work);
  }

  lemma StateFormat(host: Host, b: Block)
    requires b.State?
    ensures var bs := Serialize(host, b);
            && Encode(host, b) == [6] + bs && |bs| == 216
            && bs[..32] == b.account && bs[32..64] == b.previous && bs[64..96] == b.representative
            && bs[96..112] == b.balance && bs[112..144] == b.link && bs[144..208] == b.signature
            && BigOrder(bs[208..216], b.work)
  {
    var work := NativeBytes(host, SwapToBig(host, b.work));
    var two := b.account + b.previous;
    SixFields(two, b.representative, b.balance, b.link, b.signature, work);
    SubField(b.account, b.previous, 0, 32);
    LastField(b.account, b.previous);
    SubSubField(Serialize(host, b), 64, 0, 32);
    SubSubField(Serialize(host, b), 64, 32, 64);
    SwappedIsBig(host, b.work, work);
    NativeIsHostOrder(host, b.work);
  }

  /** Only the type bytes 2 to 6 start a block; any other is refused and uses up one byte. */
  lemma OtherTypesRefused(host: Host, data: seq<nat>)
    requires Digits(256, data) && data != []
    ensures data[0] < 2 || data[0] > 6 ==> ParseBlock(host, data) == (None, data[1..])
    ensures ParseBlock(host, data).0.Some? <==>
              2 <= data[0] <= 6 && |data| - 1 >= [152, 136, 168, 136, 216][data[0] - 2]
  {
  }

  // ---------- sidebands ----------

  /** The flag byte: five bits of epoch below three flags. */
  lemma FlagByte(d: Details)
    ensures Packed(d) == d.epoch % 32 + (if d.isSend then 128 else 0) + (if d.isReceive then 64 else 0)
                         + (if d.isEpoch then 32 else 0)
  {
    PackedValue(d);
  }

  lemma SendSidebandFormat(s: Sideband)
    ensures var bs := Stored(s, SendType);
            && |bs| == 80 && bs[..32] == s.successor && bs[32..64] == s.account
            && BigOrder(bs[64..72], s.height) && BigOrder(bs[72..80], s.timestamp)
  {
    StoredFields(s, SendType);
    NativeIsHostOrder(BigEndian, s.height);
    NativeIsHostOrder(BigEndian, s.timestamp);
  }

  lemma ReceiveSidebandFormat(s: Sideband, t: BlockType)
    requires t == ReceiveType || t == ChangeType
    ensures var bs := Stored(s, t);
            && |bs| == 96 && bs[..32] == s.successor && bs[32..64] == s.account
            && BigOrder(bs[64..72], s.height) && bs[72..88] == s.balance && BigOrder(bs[88..96], s.timestamp)
  {
    StoredFields(s, t);
    NativeIsHostOrder(BigEndian, s.height);
    NativeIsHostOrder(BigEndian, s.timestamp);
  }

  lemma OpenSidebandFormat(s: Sideband)
    ensures var bs := Stored(s, OpenType);
            && |bs| == 56 && bs[..32] == s.successor && bs[32..48] == s.balance && BigOrder(bs[48..56], s.timestamp)
  {
    StoredFields(s, OpenType);
    NativeIsHostOrder(BigEndian, s.timestamp);
  }

  lemma StateSidebandFormat(s: Sideband)
    ensures var bs := Stored(s, StateType);
            && |bs| == 50 && bs[..32] == s.successor
            && BigOrder(bs[32..40], s.height) && BigOrder(bs[40..48], s.timestamp)
            && bs[48] == Packed(s.details) && bs[49] == s.sourceEpoch
  {
    StoredFields(s, StateType);
    NativeIsHostOrder(BigEndian, s.height);
    NativeIsHostOrder(BigEndian, s.timestamp);
  }

  /** What each type brings back: every field it stores, height 1 for open, and nothing else. */
  lemma SidebandBringsBack(was: Sideband, s: Sideband, t: BlockType)
    ensures var r := Loaded(was, t, Stored(s, t));
            && r.successor == s.successor && r.timestamp == s.timestamp
            && r.account == (if t == SendType || t == ReceiveType || t == ChangeType then s.account else was.account)
            && r.height == (if t == OpenType then 1 else s.height)
            && r.balance == (if t == ReceiveType || t == ChangeType || t == OpenType then s.balance else was.balance)
            && r.details == (if t == StateType then s.details.(epoch := s.details.epoch % 32) else was.details)
            && r.sourceEpoch == (if t == StateType then s.sourceEpoch else was.sourceEpoch)
  {
    SidebandRoundTrip(was, s, t);
  }

  /** Reading succeeds exactly when the bytes of the type are there, and leaves what follows them. */
  lemma SidebandReadsExactly(was: Sideband, t: BlockType, data: seq<nat>)
    requires Digits(256, data)
    ensures var size := match t case SendType => 80 case ReceiveType => 96 case OpenType => 56 case ChangeType => 96
                                case StateType => 50;
            && (ParseSideband(was, t, data).0.Some? <==> |data| >= size)
            && ParseSideband(was, t, data).1 == if |data| >= size then data[size..] else []
  {
  }
}
