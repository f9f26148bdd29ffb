/** QDataStream over a QByteArray. */
module Streams {
  import opened Bytes

  /** bytes is what a reader has not read yet, or what a writer has written. */
  class DataStream {
    var bytes: seq<byte>

    constructor (bytes: seq<byte>)
      ensures this.bytes == bytes
    {
      this.bytes := bytes;
    }

    method ReadBig(w: nat) returns (n: nat)
      modifies this
      ensures (n, bytes) == TakeBig(w, old(bytes))
    {
      if |bytes| < w {
        n, bytes := 0, [];
      } else {
        n, bytes := FromBig(bytes[..w]), bytes[w..];
      }
    }

    method ReadLittle(w: nat) returns (n: nat)
      modifies this
      ensures (n, bytes) == TakeLittle(w, old(bytes))
    {
      if |bytes| < w {
        n, bytes := 0, [];
      } else {
        n, bytes := FromLittle(bytes[..w]), bytes[w..];
      }
    }

    method Append(out: seq<byte>)
      modifies this
      ensures bytes == old(bytes) + out
    {
      bytes := bytes + out;
    }
  }
}
