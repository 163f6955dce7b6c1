/** The context stored beside each block, with fields that depend on the block type (blocks.cpp, block_sideband). */
module Sideband {
  import opened Options
  import opened Sequences
  import opened Numerals
  import opened FixedBytes
  import opened ByteStream
  import opened Blocks
  import BlockStream

  type Byte = n: nat | n < 256

  // ---------- the flag byte ----------

  datatype Details = Details(epoch: Byte, isSend: bool, isReceive: bool, isEpoch: bool)

  /** The bit of weight w. */
  predicate TestBit(x: nat, w: nat)
    requires w > 0
  {
    x / w % 2 == 1
  }

  function SetBit(x: nat, w: nat, v: bool): int
    requires w > 0
  {
    if TestBit(x, w) == v then x else if v then x + w else x - w
  }

  function Packed(d: Details): Byte
  {
    var send := SetBit(d.epoch, 128, d.isSend);
    var receive := SetBit(send, 64, d.isReceive);
    SetBit(receive, 32, d.isEpoch)
  }

  function Unpack(b: Byte): Details
  {
    Details(b % 32, TestBit(b, 128), TestBit(b, 64), TestBit(b, 32))
  }

  /** Packing loses nothing exactly when the epoch fits its five bits. */
  lemma UnpackPacked(d: Details)
    ensures Unpack(Packed(d)) == d.(epoch := d.epoch % 32)
    ensures Unpack(Packed(d)) == d <==> d.epoch < 32
  {
    FlagBits(d.epoch % 32, d.isSend, d.isReceive, d.isEpoch);
    PackedValue(d);
  }

  function FlagValue(isSend: bool, isReceive: bool, isEpoch: bool): nat
  {
    (if isSend then 128 else 0) + (if isReceive then 64 else 0) + if isEpoch then 32 else 0
  }

  lemma PackedValue(d: Details)
    ensures Packed(d) == d.epoch % 32 + FlagValue(d.isSend, d.isReceive, d.isEpoch)
  {
    HighBits(d.epoch);
    var send := SetBit(d.epoch, 128, d.isSend);
    assert send == d.epoch % 128 + if d.isSend then 128 else 0;
    HighBits(send);
    var receive := SetBit(send, 64, d.isReceive);
    assert receive == d.epoch % 64 + FlagValue(d.isSend, d.isReceive, false);
    HighBits(receive);
  }

  lemma HighBits(b: Byte)
    ensures b == b % 128 + if TestBit(b, 128) then 128 else 0
    ensures b % 128 == b % 64 + if TestBit(b, 64) then 64 else 0
    ensures b % 64 == b % 32 + if TestBit(b, 32) then 32 else 0
  {
  }

  lemma FlagBits(low: nat, isSend: bool, isReceive: bool, isEpoch: bool)
    requires low < 32
    ensures var b := low + FlagValue(isSend, isReceive, isEpoch);
            && b % 32 == low
            && TestBit(b, 128) == isSend && TestBit(b, 64) == isReceive && TestBit(b, 32) == isEpoch
  {
  }

  /** Every byte is the packed form of what it unpacks to. */
  lemma PackedUnpack(b: Byte)
    ensures Packed(Unpack(b)) == b
  {
    PackedValue(Unpack(b));
  }

  // ---------- the sideband ----------

  datatype Sideband = Sideband(
    successor: Key, account: Key, balance: Amount, height: U64, timestamp: U64, details: Details, sourceEpoch: Byte)

  predicate HasAccount(t: BlockType)
  {
    t != StateType && t != OpenType
  }

  predicate HasHeight(t: BlockType)
  {
    t != OpenType
  }

  predicate HasBalance(t: BlockType)
  {
    t == ReceiveType || t == ChangeType || t == OpenType
  }

  /** block_sideband::size. */
  function SidebandSize(t: BlockType): nat
  {
    32 + (if HasAccount(t) then 32 else 0) + (if HasHeight(t) then 8 else 0) + (if HasBalance(t) then 16 else 0)
    + 8 + if t == StateType then 2 else 0
  }

  /** The fields before the timestamp. */
  function StoredHead(s: Sideband, t: BlockType): (bs: seq<nat>)
    ensures IsBytes(bs, TimeAt(t))
  {
    s.successor
    + (if HasAccount(t) then s.account else [])
    + (if HasHeight(t) then BigBytes(s.height) else [])
    + (if HasBalance(t) then s.balance else [])
  }

  /** What serialize writes for a block of type t. */
  function Stored(s: Sideband, t: BlockType): (bs: seq<nat>)
    ensures IsBytes(bs, SidebandSize(t))
  {
    StoredHead(s, t)
    + BigBytes(s.timestamp)
    + if t == StateType then [Packed(s.details), s.sourceEpoch] else []
  }

  function HeightAt(t: BlockType): nat
  {
    if HasAccount(t) then 64 else 32
  }

  function BalanceAt(t: BlockType): nat
  {
    if HasHeight(t) then HeightAt(t) + 8 else HeightAt(t)
  }

  function TimeAt(t: BlockType): nat
  {
    if HasBalance(t) then BalanceAt(t) + 16 else BalanceAt(t)
  }

  function KeyAt(bs: seq<nat>, at: nat): Key
    requires Digits(256, bs) && at + 32 <= |bs|
  {
    bs[at..at + 32]
  }

  function AmountAt(bs: seq<nat>, at: nat): Amount
    requires Digits(256, bs) && at + 16 <= |bs|
  {
    bs[at..at + 16]
  }

  function BigAt(bs: seq<nat>, at: nat): U64
    requires Digits(256, bs) && at + 8 <= |bs|
  {
    BigValue(bs[at..at + 8])
  }

  function LoadedHead(was: Sideband, t: BlockType, bs: seq<nat>): Sideband
    requires Digits(256, bs) && |bs| >= TimeAt(t)
  {
    was.(successor := KeyAt(bs, 0),
         account := if HasAccount(t) then KeyAt(bs, 32) else was.account,
         height := if HasHeight(t) then BigAt(bs, HeightAt(t)) else 1,
         balance := if HasBalance(t) then AmountAt(bs, BalanceAt(t)) else was.balance)
  }

  /** What deserialize leaves in `was` from SidebandSize(t) bytes; fields not stored keep their value. */
  function Loaded(was: Sideband, t: BlockType, bs: seq<nat>): Sideband
    requires Digits(256, bs) && |bs| >= SidebandSize(t)
  {
    var time := TimeAt(t);
    LoadedHead(was, t, bs).(
      timestamp := BigAt(bs, time),
      details := if t == StateType then Unpack(bs[time + 8]) else was.details,
      sourceEpoch := if t == StateType then bs[time + 9] else was.sourceEpoch)
  }

  /** The fields of s that a block of type t carries, the others as in `was`. */
  function Carried(was: Sideband, s: Sideband, t: BlockType): Sideband
  {
    Sideband(
      s.successor,
      if HasAccount(t) then s.account else was.account,
      if HasBalance(t) then s.balance else was.balance,
      if HasHeight(t) then s.height else 1,
      s.timestamp,
      if t == StateType then s.details.(epoch := s.details.epoch % 32) else was.details,
      if t == StateType then s.sourceEpoch else was.sourceEpoch)
  }

  /** Where serialize puts each field. */
  lemma StoredFields(s: Sideband, t: BlockType)
    ensures var bs, time := Stored(s, t), TimeAt(t);
            && bs[..32] == s.successor
            && (HasAccount(t) ==> bs[32..64] == s.account)
            && (HasHeight(t) ==> bs[HeightAt(t)..HeightAt(t) + 8] == BigBytes(s.height))
            && (HasBalance(t) ==> bs[BalanceAt(t)..BalanceAt(t) + 16] == s.balance)
            && bs[time..time + 8] == BigBytes(s.timestamp)
            && (t == StateType ==> bs[time + 8] == Packed(s.details) && bs[time + 9] == s.sourceEpoch)
  {
    SixFields(s.successor, if HasAccount(t) then s.account else [], if HasHeight(t) then BigBytes(s.height) else [],
              if HasBalance(t) then s.balance else [], BigBytes(s.timestamp),
              if t == StateType then [Packed(s.details), s.sourceEpoch] else []);
  }

  /** Reading back what was written restores every carried field, for every block type. */
  lemma SidebandRoundTrip(was: Sideband, s: Sideband, t: BlockType)
    ensures Loaded(was, t, Stored(s, t)) == Carried(was, s, t)
  {
    StoredFields(s, t);
    BigRoundTrip(s.height);
    BigRoundTrip(s.timestamp);
    UnpackPacked(s.details);
  }

  // ---------- on a stream ----------

  method WriteHead(stream: Stream, host: Host, s: Sideband, t: BlockType)
    requires stream.Valid()
    modifies stream
    ensures stream.Valid() && stream.data == old(stream.data) + StoredHead(s, t)
  {
    ghost var start, done := stream.data, s.successor;
    SwappedIsBig(host, s.height, BigBytes(0));
    stream.Write(s.successor);
    ghost var next := if HasAccount(t) then s.account else [];
    if t != StateType && t != OpenType {
      BlockStream.Append(stream, s.account, start, done);
    }
    done := done + next;
    next := if HasHeight(t) then BigBytes(s.height) else [];
    if t != OpenType {
      BlockStream.Append(stream, NativeBytes(host, SwapToBig(host, s.height)), start, done);
    }
    done := done + next;
    next := if HasBalance(t) then s.balance else [];
    if t == ReceiveType || t == ChangeType || t == OpenType {
      BlockStream.Append(stream, s.balance, start, done);
    }
  }

  method WriteSideband(stream: Stream, host: Host, s: Sideband, t: BlockType)
    requires stream.Valid()
    modifies stream
    ensures stream.Valid() && stream.data == old(stream.data) + Stored(s, t)
  {
    ghost var start, done := stream.data, StoredHead(s, t);
    WriteHead(stream, host, s, t);
    SwappedIsBig(host, s.timestamp, BigBytes(0));
    BlockStream.Append(stream, NativeBytes(host, SwapToBig(host, s.timestamp)), start, done);
    done := done + BigBytes(s.timestamp);
    if t == StateType {
      BlockStream.Append(stream, [Packed(s.details)], start, done);
      BlockStream.Append(stream, [s.sourceEpoch], start, done + [Packed(s.details)]);
      ConcatAssoc(done, [Packed(s.details)], [s.sourceEpoch]);
    }
  }

  /** What reading a sideband gives, and the bytes left over. */
  function ParseSideband(was: Sideband, t: BlockType, data: seq<nat>): (Option<Sideband>, seq<nat>)
    requires Digits(256, data)
  {
    var n := SidebandSize(t);
    if |data| < n then (None, []) else (Some(Loaded(was, t, data)), data[n..])
  }

  /** A 64-bit value kept big-endian. */
  method ReadBig(stream: Stream, host: Host, ghost data: seq<nat>, ghost at: nat) returns (error: bool, v: U64)
    requires stream.Valid() && Digits(256, data) && at <= |data| && stream.data == data[at..]
    modifies stream
    ensures stream.Valid() && error == (|data| < at + 8)
    ensures error ==> stream.data == []
    ensures !error ==> v == BigAt(data, at) && stream.data == data[at + 8..]
  {
    var bytes;
    error, bytes := BlockStream.Take(stream, 8, data, at);
    if error { return true, 0; }
    SwappedIsBig(host, 0, bytes);
    v := SwapToBig(host, NativeValue(host, bytes));
  }

  method ReadHead(stream: Stream, host: Host, was: Sideband, t: BlockType) returns (r: Option<Sideband>)
    requires stream.Valid()
    modifies stream
    ensures stream.Valid() && r.Some? == (|old(stream.data)| >= TimeAt(t))
    ensures r.None? ==> stream.data == []
    ensures r.Some? ==> r.value == LoadedHead(was, t, old(stream.data)) && stream.data == old(stream.data)[TimeAt(t)..]
  {
    ghost var data := stream.data;
    var s := was;
    var error, bytes := BlockStream.Take(stream, 32, data, 0);
    if error { return None; }
    s := s.(successor := bytes);
    if t != StateType && t != OpenType {
      error, bytes := BlockStream.Take(stream, 32, data, 32);
      if error { return None; }
      s := s.(account := bytes);
    }
    if t != OpenType {
      var height;
      error, height := ReadBig(stream, host, data, HeightAt(t));
      if error { return None; }
      s := s.(height := height);
    } else {
      s := s.(height := 1);
    }
    if t == ReceiveType || t == ChangeType || t == OpenType {
      error, bytes := BlockStream.Take(stream, 16, data, BalanceAt(t));
      if error { return None; }
      s := s.(balance := bytes);
    }
    r := Some(s);
  }

  /** The two bytes that only a state block has. */
  method ReadFlags(stream: Stream, was: Sideband, ghost data: seq<nat>, ghost at: nat) returns (r: Option<Sideband>)
    requires stream.Valid() && at <= |data| && stream.data == data[at..]
    modifies stream
    ensures stream.Valid() && r.Some? == (|data| >= at + 2)
    ensures r.None? ==> stream.data == []
    ensures r.Some? ==> data[at] < 256 && data[at + 1] < 256
                        && r.value == was.(details := Unpack(data[at]), sourceEpoch := data[at + 1])
                        && stream.data == data[at + 2..]
  {
    var error, bytes := BlockStream.Take(stream, 1, data, at);
    if error { return None; }
    var details := Unpack(bytes[0]);
    error, bytes := BlockStream.Take(stream, 1, data, at + 1);
    if error { return None; }
    r := Some(was.(details := details, sourceEpoch := bytes[0]));
  }

  method ReadSideband(stream: Stream, host: Host, was: Sideband, t: BlockType) returns (r: Option<Sideband>)
    requires stream.Valid()
    modifies stream
    ensures stream.Valid() && (r, stream.data) == ParseSideband(was, t, old(stream.data))
  {
    ghost var data, time := stream.data, TimeAt(t);
    r := ReadHead(stream, host, was, t);
    if r.None? { return; }
    var error, timestamp := ReadBig(stream, host, data, time);
    if error { return None; }
    r := Some(r.value.(timestamp := timestamp));
    if t == StateType {
      r := ReadFlags(stream, r.value, data, time + 8);
    }
  }

  /** Bytes after the sideband play no part. */
  lemma LoadedPrefix(was: Sideband, t: BlockType, bs: seq<nat>, trailing: seq<nat>)
    requires IsBytes(bs, SidebandSize(t)) && Digits(256, trailing)
    ensures Digits(256, bs + trailing) && Loaded(was, t, bs + trailing) == Loaded(was, t, bs)
  {
    BlockStream.Within(bs + trailing, |bs|);
    assert (bs + trailing)[..|bs|] == bs;
  }

  /** On a stream: exactly the carried fields come back, and what follows is left untouched. */
  lemma StoredSidebandParses(was: Sideband, s: Sideband, t: BlockType, trailing: seq<nat>)
    requires Digits(256, trailing)
    ensures Digits(256, Stored(s, t) + trailing)
    ensures ParseSideband(was, t, Stored(s, t) + trailing) == (Some(Carried(was, s, t)), trailing)
  {
    SidebandRoundTrip(was, s, t);
    LoadedPrefix(was, t, Stored(s, t), trailing);
    assert (Stored(s, t) + trailing)[SidebandSize(t)..] == trailing;
  }
}
