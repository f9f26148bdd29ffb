/** Where everything lies in what is sent: the octets of each kind of message, position by position. */
module Layouts {
  import opened Bytes
  import F = AmqpFrame
  import B = BitcoinTx
  import O = BitcoinObjects
  import P = BitcoinPacket
  import S = BitcoinStore
  import I = BitcoinInventory
  import R = Irc

  // ---------------------------------------------------------------------- AMQP

  /** Type, channel, size, payload, end marker. */
  lemma FrameLayout(kind: byte, channel: nat, payload: seq<byte>)
    requires channel < 0x8000 && |payload| < 0x1_0000_0000
    ensures var s, n := F.WellSized(kind, channel, payload), |payload|;
            && |s| == n + 8 && s[0] == kind && s[1..3] == Big(2, channel) && s[3..7] == Big(4, n)
            && s[7..7 + n] == payload && s[7 + n] == 0xce
  {
    hide Big;
    Pow256Values();
    var head := [kind] + Big(2, channel);
    assert F.WellSized(kind, channel, payload) == head + (Big(4, |payload|) + (payload + [0xce]));
    assert Unsigned(2, channel) == channel && Unsigned(4, |payload|) == |payload|;
  }

  /** Class and id in front of the arguments. */
  lemma MethodLayout(methodClass: nat, id: nat, arguments: seq<byte>)
    requires methodClass < 0x8000 && id < 0x8000
    ensures var s := F.MethodPayload(methodClass, id, arguments);
            |s| == 4 + |arguments| && s[..2] == Big(2, methodClass) && s[2..4] == Big(2, id) && s[4..] == arguments
  {
    hide Big;
    Pow256Values();
    assert Unsigned(2, methodClass) == methodClass && Unsigned(2, id) == id;
  }

  // ------------------------------------------------------------------- bitcoin

  /** The short forms of an integer. 0xffff and 0xffffffff take the next longer one. */
  lemma IntLayout(a: byte, b: byte, c: byte, d: byte)
    ensures var i := a + 0x100 * b + 0x1_0000 * c + 0x100_0000 * d;
            B.EncodeInt(i) == if i < 0xfd then [a]
                              else if i < 0xffff then [0xfd, a, b]
                              else if i < 0xffff_ffff then [0xfe, a, b, c, d]
                              else [0xff] + Little(8, 0xffff_ffff)
  {
    hide Little;
    LittleOrder(a, b, c, d);
  }

  /** A transaction with one input and one output, each with a short script. */
  lemma TxLayout(t: B.Tx)
    requires |t.txIn| == 1 && |t.txOut| == 1 && |t.txIn[0].script| < 253 && |t.txOut[0].script| < 253
    ensures var i, o := t.txIn[0], t.txOut[0];
            B.EncodeTx(t)
              == Little(4, t.version)
               + ([1] + (i.prevOutHash + (Little(4, i.prevOutIndex) + ([|i.script|] + (i.script + (Little(4, i.sequence)
               + ([1] + (Little(8, o.value) + ([|o.script|] + (o.script + Little(4, t.lockTime)))))))))))
  {
    hide Little;
    var i, o := t.txIn[0], t.txOut[0];
    assert t.txIn[1..] == [] && t.txOut[1..] == [];
    OneIn(t.txIn);
    OneOut(t.txOut);
    assert B.EncodeIn(i) == i.prevOutHash + (Little(4, i.prevOutIndex) + (([|i.script|] + i.script) + Little(4, i.sequence)));
  }

  lemma OneIn(ins: seq<B.TxIn>)
    requires |ins| == 1
    ensures B.EncodeIns(ins) == B.EncodeIn(ins[0])
  {
    hide B.EncodeIn;
    assert ins[1..] == [];
  }

  lemma OneOut(outs: seq<B.TxOut>)
    requires |outs| == 1
    ensures B.EncodeOuts(outs) == B.EncodeOut(outs[0])
  {
    hide B.EncodeOut;
    assert outs[1..] == [];
  }

  /** The 80 octets at the front of a block. */
  lemma BlockHeaderLayout(s: seq<byte>)
    requires 80 <= |s|
    ensures O.DecodeHeader(s) == O.Header(FromLittle(s[..4]), s[4..36], s[36..68], FromLittle(s[68..72]),
                                          FromLittle(s[72..76]), FromLittle(s[76..80]))
    ensures S.HeaderOf(s) == s[..80] && S.BodyOf(s) == s[80..]
  {
    hide FromLittle;
    assert s[4..][32..] == s[36..] && s[36..][32..] == s[68..];
    assert s[68..][..4] == s[68..72] && s[68..][4..] == s[72..] && s[72..][..4] == s[72..76];
    assert s[72..][4..] == s[76..] && s[76..][..4] == s[76..80];
    assert s[4..][..32] == s[4..36] && s[36..][..32] == s[36..68];
  }

  /** Magic, name, length, the front of the digest, payload. */
  lemma PacketLayout(hash: seq<byte> -> seq<byte>, p: P.Packet)
    requires P.IsDigest(hash) && |p.command| <= 12 && |p.payload| < 0x1_0000_0000
    ensures var s := P.PacketBytes(hash, p);
            && |s| == 24 + |p.payload| && s[..4] == [0xf9, 0xbe, 0xb4, 0xd9]
            && s[4..4 + |p.command|] == p.command && (forall i | 4 + |p.command| <= i < 16 :: s[i] == 0)
            && s[16..20] == Little(4, |p.payload|) && s[20..24] == hash(p.payload)[..4] && s[24..] == p.payload
  {
    hide Little;
    ModSmall(|p.payload|, B.MAX32);
    var name := p.command + Zeros(12 - |p.command|);
    var sum := hash(p.payload)[..4];
    assert P.PacketBytes(hash, p) == P.MAGIC + (name + (Little(4, |p.payload|) + (sum + p.payload)));
  }

  /** An inventory of a few items: a count, and 36 octets for each. */
  lemma {:induction false} InventoryLayout(items: seq<S.Item>, k: nat)
    requires |items| < 253 && (forall i <- items :: I.ItemOk(i)) && k < |items|
    ensures var s := I.InvBytes(items);
            && |s| == 1 + 36 * |items| && s[0] == |items|
            && s[1 + 36 * k..][..36] == Little(4, items[k].kind) + items[k].id
  {
    hide Little, I.ItemsBytes;
    ItemAt(items, k);
    assert I.InvBytes(items) == [|items|] + I.ItemsBytes(items);
    assert I.InvBytes(items)[1 + 36 * k..] == I.ItemsBytes(items)[36 * k..];
  }

  lemma {:induction false} ItemAt(items: seq<S.Item>, k: nat)
    requires (forall i <- items :: I.ItemOk(i)) && k < |items|
    ensures |I.ItemsBytes(items)| == 36 * |items|
    ensures I.ItemsBytes(items)[36 * k..][..36] == Little(4, items[k].kind) + items[k].id
    decreases k
  {
    hide Little;
    I.ItemsRoundTrip(items, []);
    assert items[k] in items;
    var head, tail := I.ItemBytes(items[0]), I.ItemsBytes(items[1..]);
    assert |head| == 36 by {
      I.ItemSize(items[0]);
    }
    assert I.ItemsBytes(items) == head + tail;
    assert forall i <- items[1..] :: i in items;
    if k > 0 {
      ItemAt(items[1..], k - 1);
      assert (head + tail)[36 * k..] == tail[36 * (k - 1)..];
    } else {
      assert (head + tail)[..36] == head;
    }
  }

  // ----------------------------------------------------------------------- IRC

  function Ascii(s: string): seq<byte> {
    seq(|s|, i requires 0 <= i < |s| => s[i] as int % 256)
  }

  /** A reply with a prefix and three parameters, the last behind a colon. */
  lemma ReplyLayout(prefix: seq<byte>, a: seq<byte>, b: seq<byte>, c: seq<byte>)
    requires prefix != []
    ensures R.Print(R.Message(prefix, [a, b, c]), true)
         == prefix + Ascii(" ") + a + Ascii(" ") + b + Ascii(" :") + c + Ascii("\r\n")
  {
    assert Ascii(" ") == [32] && Ascii(" :") == [32, 58] && Ascii("\r\n") == [13, 10];
    assert [a, b, c][1..] == [b, c] && [b, c][1..] == [c];
    assert R.PrintRest([c], true) == [32, 58] + c;
    assert R.PrintRest([b, c], true) == [32] + b + ([32, 58] + c);
  }
}
