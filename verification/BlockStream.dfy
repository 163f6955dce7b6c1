/**
 Writing blocks to a stream and reading them back, field by field as blocks.cpp does, and what a whole
 sequence of blocks decodes to.
 */
module BlockStream {
  import opened Options
  import opened Sequences
  import opened Numerals
  import opened FixedBytes
  import opened ByteStream
  import opened Blocks

  // ---------- one field ----------

  /** One write, after `done` has been written behind `start`. */
  method Append(stream: Stream, bytes: seq<nat>, ghost start: seq<nat>, ghost done: seq<nat>)
    requires stream.Valid() && Digits(256, bytes) && stream.data == start + done
    modifies stream
    ensures stream.Valid() && stream.data == start + (done + bytes)
  {
    stream.Write(bytes);
    ConcatAssoc(start, done, bytes);
  }

  /** One read, the first `at` bytes of `data` having been read before. */
  method Take(stream: Stream, count: nat, ghost data: seq<nat>, ghost at: nat) returns (error: bool, bytes: seq<nat>)
    requires stream.Valid() && at <= |data| && stream.data == data[at..]
    modifies stream
    ensures stream.Valid() && error == (|data| < at + count)
    ensures !error ==> IsBytes(bytes, count) && bytes == data[at..at + count] && stream.data == data[at + count..]
    ensures error ==> stream.data == []
  {
    error, bytes := stream.TryRead(count);
  }

  // ---------- serialize ----------

  method WriteSend(stream: Stream, host: Host, b: Block)
    requires stream.Valid() && b.Send?
    modifies stream
    ensures stream.Valid() && stream.data == old(stream.data) + Serialize(host, b)
  {
    ghost var start := stream.data;
    stream.Write(b.previous);
    Append(stream, b.destination, start, b.previous);
    Append(stream, b.balance, start, b.previous + b.destination);
    Append(stream, b.signature, start, b.previous + b.destination + b.balance);
    Append(stream, NativeBytes(host, b.work), start, b.previous + b.destination + b.balance + b.signature);
  }

  method WriteReceive(stream: Stream, host: Host, b: Block)
    requires stream.Valid() && b.Receive?
    modifies stream
    ensures stream.Valid() && stream.data == old(stream.data) + Serialize(host, b)
  {
    ghost var start := stream.data;
    stream.Write(b.previous);
    Append(stream, b.source, start, b.previous);
    Append(stream, b.signature, start, b.previous + b.source);
    Append(stream, NativeBytes(host, b.work), start, b.previous + b.source + b.signature);
  }

  method WriteOpen(stream: Stream, host: Host, b: Block)
    requires stream.Valid() && b.Open?
    modifies stream
    ensures stream.Valid() && stream.data == old(stream.data) + Serialize(host, b)
  {
    ghost var start := stream.data;
    stream.Write(b.source);
    Append(stream, b.representative, start, b.source);
    Append(stream, b.account, start, b.source + b.representative);
    Append(stream, b.signature, start, b.source + b.representative + b.account);
    Append(stream, NativeBytes(host, b.work), start, b.source + b.representative + b.account + b.signature);
  }

  method WriteChange(stream: Stream, host: Host, b: Block)
    requires stream.Valid() && b.Change?
    modifies stream
    ensures stream.Valid() && stream.data == old(stream.data) + Serialize(host, b)
  {
    ghost var start := stream.data;
    stream.Write(b.previous);
    Append(stream, b.representative, start, b.previous);
    Append(stream, b.signature, start, b.previous + b.representative);
    Append(stream, NativeBytes(host, b.work), start, b.previous + b.representative + b.signature);
  }

  method WriteState(stream: Stream, host: Host, b: Block)
    requires stream.Valid() && b.State?
    modifies stream
    ensures stream.Valid() && stream.data == old(stream.data) + Serialize(host, b)
  {
    ghost var start, head := stream.data, b.account + b.previous + b.representative;
    stream.Write(b.account);
    Append(stream, b.previous, start, b.account);
    Append(stream, b.representative, start, b.account + b.previous);
    Append(stream, b.balance, start, head);
    Append(stream, b.link, start, head + b.balance);
    Append(stream, b.signature, start, head + b.balance + b.link);
    Append(stream, NativeBytes(host, SwapToBig(host, b.work)), start, head + b.balance + b.link + b.signature);
  }

  /** serialize_block: the type byte and the body. */
  method WriteBlock(stream: Stream, host: Host, b: Block)
    requires stream.Valid()
    modifies stream
    ensures stream.Valid() && stream.data == old(stream.data) + Encode(host, b)
  {
    ghost var start := stream.data;
    stream.Write([TypeCode(TypeOf(b))]);
    match b {
      case Send(_, _, _, _, _) => WriteSend(stream, host, b);
      case Receive(_, _, _, _) => WriteReceive(stream, host, b);
      case Open(_, _, _, _, _) => WriteOpen(stream, host, b);
      case Change(_, _, _, _) => WriteChange(stream, host, b);
      case State(_, _, _, _, _, _, _) => WriteState(stream, host, b);
    }
    ConcatAssoc(start, [TypeCode(TypeOf(b))], Serialize(host, b));
  }

  // ---------- deserialize ----------

  method ReadSend(stream: Stream, host: Host) returns (r: Option<Block>)
    requires stream.Valid()
    modifies stream
    ensures stream.Valid() && (r, stream.data) == ParseBody(host, SendType, old(stream.data))
  {
    ghost var data := stream.data;
    var e1, previous := Take(stream, 32, data, 0);
    if e1 { return None; }
    var e2, destination := Take(stream, 32, data, 32);
    if e2 { return None; }
    var e3, balance := Take(stream, 16, data, 64);
    if e3 { return None; }
    var e4, signature := Take(stream, 64, data, 80);
    if e4 { return None; }
    var e5, work := Take(stream, 8, data, 144);
    if e5 { return None; }
    r := Some(Send(previous, destination, balance, signature, NativeValue(host, work)));
    Within(data, 152);
  }

  method ReadReceive(stream: Stream, host: Host) returns (r: Option<Block>)
    requires stream.Valid()
    modifies stream
    ensures stream.Valid() && (r, stream.data) == ParseBody(host, ReceiveType, old(stream.data))
  {
    ghost var data := stream.data;
    var e1, previous := Take(stream, 32, data, 0);
    if e1 { return None; }
    var e2, source := Take(stream, 32, data, 32);
    if e2 { return None; }
    var e3, signature := Take(stream, 64, data, 64);
    if e3 { return None; }
    var e4, work := Take(stream, 8, data, 128);
    if e4 { return None; }
    r := Some(Receive(previous, source, signature, NativeValue(host, work)));
    Within(data, 136);
  }

  method ReadOpen(stream: Stream, host: Host) returns (r: Option<Block>)
    requires stream.Valid()
    modifies stream
    ensures stream.Valid() && (r, stream.data) == ParseBody(host, OpenType, old(stream.data))
  {
    ghost var data := stream.data;
    var e1, source := Take(stream, 32, data, 0);
    if e1 { return None; }
    var e2, representative := Take(stream, 32, data, 32);
    if e2 { return None; }
    var e3, account := Take(stream, 32, data, 64);
    if e3 { return None; }
    var e4, signature := Take(stream, 64, data, 96);
    if e4 { return None; }
    var e5, work := Take(stream, 8, data, 160);
    if e5 { return None; }
    r := Some(Open(source, representative, account, signature, NativeValue(host, work)));
    Within(data, 168);
  }

  method ReadChange(stream: Stream, host: Host) returns (r: Option<Block>)
    requires stream.Valid()
    modifies stream
    ensures stream.Valid() && (r, stream.data) == ParseBody(host, ChangeType, old(stream.data))
  {
    ghost var data := stream.data;
    var e1, previous := Take(stream, 32, data, 0);
    if e1 { return None; }
    var e2, representative := Take(stream, 32, data, 32);
    if e2 { return None; }
    var e3, signature := Take(stream, 64, data, 64);
    if e3 { return None; }
    var e4, work := Take(stream, 8, data, 128);
    if e4 { return None; }
    r := Some(Change(previous, representative, signature, NativeValue(host, work)));
    Within(data, 136);
  }

  method ReadState(stream: Stream, host: Host) returns (r: Option<Block>)
    requires stream.Valid()
    modifies stream
    ensures stream.Valid() && (r, stream.data) == ParseBody(host, StateType, old(stream.data))
  {
    ghost var data := stream.data;
    var e1, account := Take(stream, 32, data, 0);
    if e1 { return None; }
    var e2, previous := Take(stream, 32, data, 32);
    if e2 { return None; }
    var e3, representative := Take(stream, 32, data, 64);
    if e3 { return None; }
    var e4, balance := Take(stream, 16, data, 96);
    if e4 { return None; }
    var e5, link := Take(stream, 32, data, 112);
    if e5 { return None; }
    var e6, signature := Take(stream, 64, data, 144);
    if e6 { return None; }
    var e7, work := Take(stream, 8, data, 208);
    if e7 { return None; }
    r := Some(State(account, previous, representative, balance, link, signature,
                    SwapToBig(host, NativeValue(host, work))));
    Within(data, 216);
  }

  lemma Within(data: seq<nat>, size: nat)
    requires size <= |data|
    ensures forall i, j :: 0 <= i <= j <= size ==> data[..size][i..j] == data[i..j]
  {
  }

  /** deserialize_block with its type byte. */
  method ReadBlock(stream: Stream, host: Host) returns (r: Option<Block>)
    requires stream.Valid()
    modifies stream
    ensures stream.Valid() && (r, stream.data) == ParseBlock(host, old(stream.data))
  {
    var error, bytes := stream.TryRead(1);
    if error { return None; }
    match TypeOfCode(bytes[0]) {
      case None => r := None;
      case Some(SendType) => r := ReadSend(stream, host);
      case Some(ReceiveType) => r := ReadReceive(stream, host);
      case Some(OpenType) => r := ReadOpen(stream, host);
      case Some(ChangeType) => r := ReadChange(stream, host);
      case Some(StateType) => r := ReadState(stream, host);
    }
  }

  // ---------- sequences of blocks ----------

  function Encode(host: Host, b: Block): (bs: seq<nat>)
    ensures |bs| == 1 + Size(TypeOf(b)) && Digits(256, bs)
  {
    [TypeCode(TypeOf(b))] + Serialize(host, b)
  }

  function EncodeAll(host: Host, blocks: seq<Block>): (bs: seq<nat>)
    ensures Digits(256, bs)
  {
    if blocks == [] then [] else Encode(host, blocks[0]) + EncodeAll(host, blocks[1..])
  }

  /** count reads in a row: the blocks, if all of them succeed, and what is left of the stream. */
  function DecodeAll(host: Host, count: nat, data: seq<nat>): (Option<seq<Block>>, seq<nat>)
    requires Digits(256, data)
  {
    if count == 0 then (Some([]), data)
    else
      var (first, rest) := ParseBlock(host, data);
      assert Digits(256, rest);
      if first.None? then (None, rest)
      else
        var (others, end) := DecodeAll(host, count - 1, rest);
        (if others.None? then None else Some([first.value] + others.value), end)
  }

  /** A body decodes exactly when enough bytes are there, and then uses Size(t) of them. */
  lemma BodyDecodesExactly(host: Host, t: BlockType, data: seq<nat>)
    requires Digits(256, data)
    ensures ParseBody(host, t, data).0.Some? <==> |data| >= Size(t)
    ensures ParseBody(host, t, data).0.Some? ==>
              data == Serialize(host, ParseBody(host, t, data).0.value) + ParseBody(host, t, data).1
  {
    if |data| >= Size(t) {
      SerializedLayout(host, t, data[..Size(t)]);
      CutAt(data, Size(t));
    }
  }

  lemma BodyRoundTrip(host: Host, b: Block, body: seq<nat>, trailing: seq<nat>)
    requires body == Serialize(host, b) && Digits(256, trailing)
    ensures Digits(256, body + trailing)
    ensures ParseBody(host, TypeOf(b), body + trailing) == (Some(b), trailing)
  {
    LayoutOfSerialized(host, b);
    assert (body + trailing)[..|body|] == body;
    assert (body + trailing)[|body|..] == trailing;
  }

  lemma CodeOfType(t: BlockType)
    ensures TypeOfCode(TypeCode(t)) == Some(t)
  {
  }

  lemma BlockRoundTrip(host: Host, b: Block, trailing: seq<nat>)
    requires Digits(256, trailing)
    ensures Digits(256, Encode(host, b) + trailing)
    ensures ParseBlock(host, Encode(host, b) + trailing) == (Some(b), trailing)
  {
    TaggedRoundTrip(host, b, Serialize(host, b), trailing);
  }

  lemma ParseTagged(host: Host, t: BlockType, rest: seq<nat>)
    requires Digits(256, rest)
    ensures Digits(256, [TypeCode(t)] + rest) && ParseBlock(host, [TypeCode(t)] + rest) == ParseBody(host, t, rest)
  {
    CodeOfType(t);
    assert ([TypeCode(t)] + rest)[1..] == rest;
  }

  lemma TaggedRoundTrip(host: Host, b: Block, body: seq<nat>, trailing: seq<nat>)
    requires body == Serialize(host, b) && Digits(256, trailing)
    ensures var data := [TypeCode(TypeOf(b))] + body + trailing;
            Digits(256, data) && ParseBlock(host, data) == (Some(b), trailing)
  {
    BodyRoundTrip(host, b, body, trailing);
    ParseTagged(host, TypeOf(b), body + trailing);
    ConcatAssoc([TypeCode(TypeOf(b))], body, trailing);
  }

  lemma DecodeFirst(host: Host, count: nat, data: seq<nat>, first: Block, rest: seq<nat>, others: seq<Block>, end: seq<nat>)
    requires Digits(256, data) && Digits(256, rest) && ParseBlock(host, data) == (Some(first), rest)
    requires DecodeAll(host, count, rest) == (Some(others), end)
    ensures DecodeAll(host, count + 1, data) == (Some([first] + others), end)
  {
  }

  /** Any sequence of blocks decodes to itself, whatever follows it, and what follows is left untouched. */
  lemma {:induction false} SequenceRoundTrip(host: Host, blocks: seq<Block>, trailing: seq<nat>)
    requires Digits(256, trailing)
    ensures Digits(256, EncodeAll(host, blocks) + trailing)
    ensures DecodeAll(host, |blocks|, EncodeAll(host, blocks) + trailing) == (Some(blocks), trailing)
  {
    if blocks == [] {
      assert EncodeAll(host, blocks) + trailing == trailing;
    } else {
      SequenceRoundTrip(host, blocks[1..], trailing);
      var first, rest := Encode(host, blocks[0]), EncodeAll(host, blocks[1..]);
      BlockRoundTrip(host, blocks[0], rest + trailing);
      SequenceStep(host, blocks, first, rest, EncodeAll(host, blocks), trailing);
    }
  }

  lemma SequenceStep(
    host: Host, blocks: seq<Block>, first: seq<nat>, rest: seq<nat>, all: seq<nat>, trailing: seq<nat>)
    requires blocks != [] && all == first + rest
    requires Digits(256, rest + trailing) && Digits(256, first + (rest + trailing))
    requires ParseBlock(host, first + (rest + trailing)) == (Some(blocks[0]), rest + trailing)
    requires DecodeAll(host, |blocks| - 1, rest + trailing) == (Some(blocks[1..]), trailing)
    ensures Digits(256, all + trailing) && DecodeAll(host, |blocks|, all + trailing) == (Some(blocks), trailing)
  {
    ConcatAssoc(first, rest, trailing);
    DecodeFirst(host, |blocks| - 1, all + trailing, blocks[0], rest + trailing, blocks[1..], trailing);
    CutAt(blocks, 1);
    assert blocks[..1] == [blocks[0]];
  }

  /** No encoding of a block is the start of another's: streams of blocks can be cut in one way only. */
  lemma EncodingIsPrefixFree(host: Host, a: Block, b: Block, x: seq<nat>, y: seq<nat>)
    requires Digits(256, x) && Digits(256, y) && Encode(host, a) + x == Encode(host, b) + y
    ensures a == b && x == y
  {
    BlockRoundTrip(host, a, x);
    BlockRoundTrip(host, b, y);
  }

  /** A state block is stored the same way on every host; a legacy block exactly if its work is a byte palindrome. */
  lemma HostIndependence(b: Block)
    ensures Serialize(LittleEndian, b) == Serialize(BigEndian, b)
            <==> b.State? || Reverse(BigBytes(b.work)) == BigBytes(b.work)
  {
    var little, big := Serialize(LittleEndian, b), Serialize(BigEndian, b);
    var n := Size(TypeOf(b)) - 8;
    if b.State? {
      SwappedIsBig(LittleEndian, b.work, BigBytes(b.work));
      SwappedIsBig(BigEndian, b.work, BigBytes(b.work));
    } else {
      assert little[n..] == Reverse(BigBytes(b.work));
      assert big[n..] == BigBytes(b.work);
      assert little[..n] == big[..n];
      assert little == little[..n] + little[n..] && big == big[..n] + big[n..];
    }
  }
}
