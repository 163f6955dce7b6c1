/** The byte streams of stream.hpp: writes append, reads take from the front. */
module ByteStream {
  import opened Numerals

  class Stream {
    var data: seq<nat> // the bytes not read yet

    ghost predicate Valid()
      reads this
    {
      Digits(256, data)
    }

    constructor (bytes: seq<nat>)
      requires Digits(256, bytes)
      ensures Valid() && data == bytes
    {
      data := bytes;
    }

    method Write(bytes: seq<nat>)
      requires Valid() && Digits(256, bytes)
      modifies this
      ensures Valid() && data == old(data) + bytes
    {
      data := data + bytes;
    }

    /** A read that comes up short still uses up what there is. */
    method TryRead(count: nat) returns (error: bool, bytes: seq<nat>)
      requires Valid()
      modifies this
      ensures Valid() && error == (|old(data)| < count)
      ensures !error ==> bytes == old(data)[..count] && data == old(data)[count..]
      ensures error ==> data == []
    {
      var amount := if count <= |data| then count else |data|;
      bytes := data[..amount];
      data := data[amount..];
      error := amount != count;
    }
  }
}
