/** Two ends of a connection, packet by packet: what each packet is answered with, and a download as an
    exchange of the packets themselves. */
module BitcoinDialogue {
  import opened Bytes
  import opened BitcoinTx
  import opened BitcoinObjects
  import opened BitcoinPacket
  import opened BitcoinStore
  import opened BitcoinInventory
  import opened BitcoinConnector

  // ------------------------------------------------------------------- answers

  ghost predicate ItemsOk(items: seq<Item>) {
    |items| < 0x8000_0000 && forall i <- items :: ItemOk(i)
  }

  /** A request for these other items and these blocks. */
  predicate Asks(p: Packet, others: seq<Item>, blocks: seq<Hash>) {
    && p.command == Ascii("getdata")
    && OthersOf(ParseInv(p.payload)) == others
    && BlocksOf(ParseInv(p.payload)) == blocks
  }

  lemma {:induction false} WantedAreItems(s: Store, todo: seq<Hash>, items: seq<Item>)
    ensures var wanted := Sort(s, todo, items).wanted;
            |wanted| <= |items| && forall i <- wanted :: i in items
    decreases |items|
  {
    hide Knows;
    if items != [] {
      WantedAreItems(s, todo, items[1..]);
      WantedAreItems(s, todo + [items[0].id], items[1..]);
    }
  }

  lemma {:induction false} NothingWantedIff(items: seq<Item>)
    ensures items == [] <==> OthersOf(items) == [] && BlocksOf(items) == []
    decreases |items|
  {
  }

  /** An announcement: every unknown block joins the list, in order. Nothing is sent iff there is nothing
      else unknown and no block to ask for now; otherwise exactly one packet goes out, which asks for all
      other unknown items, and for the first unknown block iff no block was waiting. */
  lemma AnnouncementIsAnswered(hash: seq<byte> -> seq<byte>, w: World, items: seq<Item>)
    requires ItemsOk(items)
    ensures var r := OnPacket(hash, w, Packet(Ascii("inv"), InvBytes(items)));
            var others, blocks := UnknownOthers(w.store, items), UnknownBlocks(w.store, items);
            var first := if w.todo == [] && blocks != [] then [blocks[0]] else [];
            && r.store == w.store && r.todo == w.todo + blocks
            && if others == [] && first == [] then r.sent == w.sent
               else |r.sent| == |w.sent| + 1 && w.sent <= r.sent && Asks(r.sent[|w.sent|], others, first)
  {
    hide InvBytes, ParseInv, Sort, UnknownOthers, UnknownBlocks, OthersOf, BlocksOf;
    Names();
    InvRoundTrip(items);
    SortedCompletely(w.store, w.todo, items);
    WantedAreItems(w.store, w.todo, items);
    var wanted := Sort(w.store, w.todo, items).wanted;
    NothingWantedIff(wanted);
    InvRoundTrip(wanted);
  }

  /** The names of the packets differ. */
  lemma Names()
    ensures |PING| == 4 && |BLOCK| == 5 && |TX| == 2 && |INV| == 3 && |GETDATA| == 7
    ensures PING == Ascii("ping") && PONG == Ascii("pong") && BLOCK == Ascii("block") && TX == Ascii("tx")
    ensures INV == Ascii("inv") && GETDATA == Ascii("getdata") && NOTFOUND == Ascii("notfound")
  {
  }

  /** A transaction or block handed out under its name: what hashes to it, except that a block which the
      cache has dropped comes empty. */
  ghost predicate Answers(hash: seq<byte> -> seq<byte>, s: Store, p: Packet, i: Item) {
    || (i.kind == 1 && p.command == Ascii("tx") && hash(p.payload) == i.id)
    || (i.kind == 2 && p.command == Ascii("block") && (hash(p.payload) == i.id || (i !in s.cache && p.payload == [])))
  }

  lemma {:induction false} RepliesAsPackets(rs: seq<Reply>)
    requires forall r <- rs :: r.item.kind == 1 || r.item.kind == 2
    ensures |ReplyPackets(rs)| == |rs|
    ensures forall i | 0 <= i < |rs| ::
              ReplyPackets(rs)[i] == Packet(if rs[i].item.kind == 1 then TX else BLOCK, rs[i].data)
    decreases |rs|
  {
    if rs != [] {
      RepliesAsPackets(rs[..|rs| - 1]);
    }
  }

  lemma {:induction false} UnknownAreItems(s: Store, items: seq<Item>)
    ensures |Unknown(s, items)| <= |items| && forall i <- Unknown(s, items) :: i in items
    decreases |items|
  {
    hide Knows;
    if items != [] {
      UnknownAreItems(s, items[1..]);
    }
  }

  /** A request: one packet for each known item, in order, and behind them, iff there are unknown items, one
      that lists exactly those. Transactions handed out stay in the cache. */
  lemma RequestIsAnswered(hash: seq<byte> -> seq<byte>, w: World, items: seq<Item>)
    requires Consistent(hash, w.store) && ItemsOk(items)
    ensures var r := OnPacket(hash, w, Packet(Ascii("getdata"), InvBytes(items)));
            var known, unknown := Known(w.store, items), Unknown(w.store, items);
            var n := |w.sent| + |known|;
            && r.todo == w.todo && r.store.blocks == w.store.blocks && r.store.queue == w.store.queue
            && (forall i <- known :: i.kind == 1 ==> i in r.store.cache)
            && w.sent <= r.sent && |r.sent| == n + (if unknown == [] then 0 else 1)
            && (forall i | 0 <= i < |known| :: Answers(hash, w.store, r.sent[|w.sent| + i], known[i]))
            && (unknown != [] ==> r.sent[n].command == Ascii("notfound") && ParseInv(r.sent[n].payload) == unknown)
  {
    hide InvBytes, ParseInv, Serve, Known, Unknown, Consistent, ReplyPackets;
    Names();
    InvRoundTrip(items);
    ServedCompletely(hash, w.store, items);
    UnknownAreItems(w.store, items);
    InvRoundTrip(Unknown(w.store, items));
    var s := Serve(w.store, items);
    RepliesAsPackets(s.replies);
    forall i | 0 <= i < |s.replies|
      ensures Answers(hash, w.store, ReplyPackets(s.replies)[i], Known(w.store, items)[i])
    {
      assert s.replies[i] in s.replies && ItemsOf(s.replies)[i] == s.replies[i].item;
    }
  }

  /** The k-th block on the list is not stored, and is the one that is asked for. */
  ghost predicate AsksNext(w: World, r: World, k: nat)
    requires k < |w.todo|
  {
    && !Knows(r.store, Item(2, w.todo[k])) && r.todo == w.todo[k + 1..]
    && |r.sent| == |w.sent| + 1 && w.sent <= r.sent && Asks(r.sent[|w.sent|], [], [w.todo[k]])
  }

  /** A block: it is stored or not, what has arrived is dropped from the front of the list, and the next
      one on it, if there is one, is taken off and asked for. */
  lemma BlockIsAnswered(hash: seq<byte> -> seq<byte>, w: World, data: seq<byte>) returns (k: nat)
    requires forall id <- w.todo :: |id| == 32
    ensures var r := OnPacket(hash, w, Packet(Ascii("block"), data));
            && r.store == Arrive(hash, w.store, data)
            && k <= |w.todo| && (forall j | 0 <= j < k :: Knows(r.store, Item(2, w.todo[j])))
            && if k == |w.todo| then r.todo == [] && r.sent == w.sent else AsksNext(w, r, k)
  {
    hide InvBytes, ParseInv, Arrive, Knows, Asks;
    Names();
    var t, r := Arrive(hash, w.store, data), OnPacket(hash, w, Packet(Ascii("block"), data));
    k := SkipKnown(t, w.todo);
    assert w.sent + [] == w.sent;
    if k < |w.todo| {
      assert w.todo[k] in w.todo;
      OneRequest(w.todo[k]);
    }
  }

  lemma OneRequest(id: Hash)
    requires |id| == 32
    ensures Asks(Packet(GETDATA, InvBytes([Item(2, id)])), [], [id])
  {
    hide InvBytes, ParseInv;
    Names();
    assert ItemOk(Item(2, id));
    InvRoundTrip([Item(2, id)]);
    OneMore(Item(2, id), []);
    assert [Item(2, id)] + [] == [Item(2, id)];
  }

  /** A ping is answered with its own payload; a transaction with nothing; and any other packet changes
      nothing at all. */
  lemma OthersAreAnswered(hash: seq<byte> -> seq<byte>, w: World, p: Packet)
    ensures p.command == Ascii("ping") ==> OnPacket(hash, w, p) == w.(sent := w.sent + [Packet(Ascii("pong"), p.payload)])
    ensures p.command == Ascii("tx") ==> OnPacket(hash, w, p) == w.(store := ArriveTx(hash, w.store, p.payload))
    ensures p.command !in {Ascii("ping"), Ascii("tx"), Ascii("block"), Ascii("getdata"), Ascii("inv")} ==>
              OnPacket(hash, w, p) == w
  {
    hide OnBlockPacket, OnGetdata, OnInv, ArriveTx, ParseInv;
    Names();
  }

  // ------------------------------------------------------------- a whole download

  /** The blocks that a peer is asked for by these packets. */
  function RequestsIn(ps: seq<Packet>): seq<Hash> {
    if ps == [] then []
    else (if ps[0].command == GETDATA then BlocksOf(ParseInv(ps[0].payload)) else []) + RequestsIn(ps[1..])
  }

  /** A connection, and the requests that the peer has read and not yet answered. */
  datatype Talk = Talk(world: World, pending: seq<Hash>)

  /** The connector has made this of a packet, and the peer reads what it sends. */
  function PeerReads(t: Talk, w: World, pending: seq<Hash>): Talk {
    Talk(w, if |t.world.sent| <= |w.sent| then pending + RequestsIn(w.sent[|t.world.sent|..]) else pending)
  }

  /** The peer answers its first request with a block packet. */
  function Turn(hash: seq<byte> -> seq<byte>, t: Talk, answer: Hash -> seq<byte>): Talk
    requires t.pending != []
  {
    PeerReads(t, OnPacket(hash, t.world, Packet(BLOCK, answer(t.pending[0]))), t.pending[1..])
  }

  /** The peer announces these items. */
  function Announced(hash: seq<byte> -> seq<byte>, t: Talk, items: seq<Item>): Talk {
    PeerReads(t, OnPacket(hash, t.world, Packet(INV, InvBytes(items))), t.pending)
  }

  lemma CountOfOne(i: Item)
    ensures |ParseInv(InvBytes([i]))| <= 1
  {
    hide EncodeInt, DecodeInt, DecodeItem, ItemsBytes;
    Pow256Values();
    IntRoundTrip(1, ItemsBytes([i]));
    DecodedItemsCount(1, DecodeInt(InvBytes([i])).1);
  }

  lemma {:induction false} NoMoreBlocksThanItems(items: seq<Item>)
    ensures |BlocksOf(items)| <= |items|
    decreases |items|
  {
    if items != [] {
      NoMoreBlocksThanItems(items[1..]);
    }
  }

  lemma OneRead(p: Packet)
    ensures RequestsIn([p]) == if p.command == GETDATA then BlocksOf(ParseInv(p.payload)) else []
  {
    hide ParseInv, BlocksOf;
    assert [p][1..] == [];
  }

  /** Every turn shortens what is to come. */
  lemma TurnShrinks(hash: seq<byte> -> seq<byte>, t: Talk, answer: Hash -> seq<byte>)
    requires t.pending != []
    ensures var n := Turn(hash, t, answer);
            2 * |n.world.todo| + |n.pending| < 2 * |t.world.todo| + |t.pending|
  {
    hide ParseInv, InvBytes, Arrive, BlocksOf, RequestsIn, SkipKnown;
    Names();
    var d := OnBlock(hash, t.world.store, t.world.todo, answer(t.pending[0]));
    var n := Turn(hash, t, answer);
    if d.asked.Some? {
      var p := Packet(GETDATA, InvBytes([Item(2, d.asked.value)]));
      assert n.world.sent[|t.world.sent|..] == [p];
      OneRead(p);
      CountOfOne(Item(2, d.asked.value));
      NoMoreBlocksThanItems(ParseInv(p.payload));
    } else {
      assert n.world.sent[|t.world.sent|..] == [];
      NothingRead();
    }
  }

  lemma NothingRead()
    ensures RequestsIn([]) == []
  {
  }

  /** Until the peer has answered everything. */
  function Talked(hash: seq<byte> -> seq<byte>, t: Talk, answer: Hash -> seq<byte>): Talk
    decreases 2 * |t.world.todo| + |t.pending|
  {
    if t.pending == [] then t
    else
      TurnShrinks(hash, t, answer);
      Talked(hash, Turn(hash, t, answer), answer)
  }

  function DialogueOf(t: Talk): Dialogue {
    Dialogue(t.world.store, t.world.todo, t.pending)
  }

  /** A turn by packets is a turn of the dialogue. */
  lemma TurnIsAnswer(hash: seq<byte> -> seq<byte>, t: Talk, answer: Hash -> seq<byte>)
    requires t.pending != [] && forall id <- t.world.todo :: |id| == 32
    ensures DialogueOf(Turn(hash, t, answer)) == BitcoinInventory.Answer(hash, DialogueOf(t), answer)
    ensures forall id <- Turn(hash, t, answer).world.todo :: id in t.world.todo
  {
    hide ParseInv, InvBytes, Arrive, BlocksOf, OthersOf, RequestsIn, SkipKnown;
    Names();
    var d := OnBlock(hash, t.world.store, t.world.todo, answer(t.pending[0]));
    var n := Turn(hash, t, answer);
    if d.asked.Some? {
      var p := Packet(GETDATA, InvBytes([Item(2, d.asked.value)]));
      assert n.world.sent[|t.world.sent|..] == [p];
      OneRead(p);
      assert d.asked.value in t.world.todo;
      OneRequest(d.asked.value);
    } else {
      assert n.world.sent[|t.world.sent|..] == [];
      NothingRead();
    }
  }

  lemma {:induction false} TalkIsDialogue(hash: seq<byte> -> seq<byte>, t: Talk, answer: Hash -> seq<byte>)
    requires forall id <- t.world.todo :: |id| == 32
    ensures DialogueOf(Talked(hash, t, answer)) == AnswerAll(hash, DialogueOf(t), answer)
    decreases 2 * |t.world.todo| + |t.pending|
  {
    hide Turn, BitcoinInventory.Answer;
    if t.pending != [] {
      TurnShrinks(hash, t, answer);
      TurnIsAnswer(hash, t, answer);
      TalkIsDialogue(hash, Turn(hash, t, answer), answer);
    }
  }

  lemma NamesAreDigests(hash: seq<byte> -> seq<byte>, s: Store, ids: seq<Hash>, answer: Hash -> seq<byte>)
    requires IsDigest(hash) && Servable(hash, s, ids, answer)
    ensures forall id <- ids :: |id| == 32
  {
    hide HeaderOf;
  }

  /** Packet by packet: with a peer that reads the requests and answers each with the block asked for, parents
      first, every block requested or listed is stored in the end, and nothing is left to ask for. */
  lemma PacketsDownload(hash: seq<byte> -> seq<byte>, t: Talk, answer: Hash -> seq<byte>)
    requires IsDigest(hash) && NeverZero(hash) && Consistent(hash, t.world.store)
    requires t.pending == [] ==> t.world.todo == []
    requires Servable(hash, t.world.store, t.pending + t.world.todo, answer)
    requires |Talked(hash, t, answer).world.store.blocks| < MAX32
    ensures var e := Talked(hash, t, answer);
            && Consistent(hash, e.world.store) && e.world.todo == [] && e.pending == []
            && t.world.store.blocks.Keys <= e.world.store.blocks.Keys
            && forall id <- t.pending + t.world.todo :: id in e.world.store.blocks
  {
    hide Consistent, Servable, NeverZero, Talked, AnswerAll, IsDigest;
    NamesAreDigests(hash, t.world.store, t.pending + t.world.todo, answer);
    assert forall id <- t.world.todo :: id in t.pending + t.world.todo;
    TalkIsDialogue(hash, t, answer);
    DownloadCompletes(hash, DialogueOf(t), answer);
  }

  /** The announcement as a packet is the announcement of the dialogue. */
  lemma AnnouncedIsAnnounce(hash: seq<byte> -> seq<byte>, t: Talk, items: seq<Item>)
    requires ItemsOk(items)
    ensures DialogueOf(Announced(hash, t, items)) == Announce(DialogueOf(t), items)
    ensures Announced(hash, t, items).world.todo == t.world.todo + UnknownBlocks(t.world.store, items)
  {
    hide InvBytes, ParseInv, Sort, UnknownOthers, UnknownBlocks, OthersOf, BlocksOf, RequestsIn;
    Names();
    InvRoundTrip(items);
    SortedCompletely(t.world.store, t.world.todo, items);
    WantedAreItems(t.world.store, t.world.todo, items);
    var wanted := Sort(t.world.store, t.world.todo, items).wanted;
    InvRoundTrip(wanted);
    var n := Announced(hash, t, items);
    if wanted == [] {
      assert n.world.sent[|t.world.sent|..] == [];
      NothingRead();
      NothingWantedIff(wanted);
    } else {
      var p := Packet(GETDATA, InvBytes(wanted));
      assert n.world.sent[|t.world.sent|..] == [p];
      OneRead(p);
    }
  }

  /** From the announcement packet to the store, whatever is being downloaded already. */
  lemma PacketsAnnounceAndDownload(hash: seq<byte> -> seq<byte>, t: Talk, items: seq<Item>, answer: Hash -> seq<byte>)
    requires IsDigest(hash) && NeverZero(hash) && Consistent(hash, t.world.store) && ItemsOk(items)
    requires t.pending == [] ==> t.world.todo == []
    requires Servable(hash, t.world.store, t.pending + t.world.todo + UnknownBlocks(t.world.store, items), answer)
    requires |Talked(hash, Announced(hash, t, items), answer).world.store.blocks| < MAX32
    ensures var e := Talked(hash, Announced(hash, t, items), answer);
            && Consistent(hash, e.world.store) && e.world.todo == [] && e.pending == []
            && (forall id <- t.pending + t.world.todo :: id in e.world.store.blocks)
            && forall i <- items :: i.kind == 2 ==> i.id in e.world.store.blocks
  {
    hide Consistent, Servable, NeverZero, Talked, AnswerAll, IsDigest, Announced, Announce, UnknownBlocks, ItemsOk;
    AnnouncedIsAnnounce(hash, t, items);
    var blocks := UnknownBlocks(t.world.store, items);
    var all := t.pending + t.world.todo + blocks;
    NamesAreDigests(hash, t.world.store, all, answer);
    forall id <- t.world.todo + blocks ensures id in all {
      assert all == t.pending + (t.world.todo + blocks);
    }
    TalkIsDialogue(hash, Announced(hash, t, items), answer);
    AnnouncedBlocksArrive(hash, DialogueOf(t), items, answer);
  }
}
