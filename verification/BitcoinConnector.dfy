/** The connector and its connections as objects: packets come in through handleBuffer, change the
    shared store and the download list, and are answered with packets. */
module BitcoinConnector {
  import opened Bytes
  import opened Framing
  import opened BitcoinTx
  import opened Streams
  import opened BitcoinObjects
  import opened BitcoinPacket
  import opened BitcoinStore
  import opened BitcoinInventory

  function Ascii(s: string): seq<byte> {
    seq(|s|, i requires 0 <= i < |s| => s[i] as int % 256)
  }

  const PING := Ascii("ping")
  const PONG := Ascii("pong")
  const BLOCK := Ascii("block")
  const TX := Ascii("tx")
  const INV := Ascii("inv")
  const GETDATA := Ascii("getdata")
  const NOTFOUND := Ascii("notfound")
  const GETBLOCKS := Ascii("getblocks")

  // ----------------------------------------------------- one packet, on values

  /** What a connection sees and changes: the shared store, its list, and what it has sent. */
  datatype World = World(store: Store, todo: seq<Hash>, sent: seq<Packet>)

  function Request(items: seq<Item>): seq<Packet> {
    if items == [] then [] else [Packet(GETDATA, InvBytes(items))]
  }

  function ReplyPacket(r: Reply): seq<Packet> {
    if r.item.kind == 1 then [Packet(TX, r.data)]
    else if r.item.kind == 2 then [Packet(BLOCK, r.data)]
    else []
  }

  function ReplyPackets(rs: seq<Reply>): seq<Packet> {
    if rs == [] then [] else ReplyPackets(rs[..|rs| - 1]) + ReplyPacket(rs[|rs| - 1])
  }

  function OnInv(w: World, items: seq<Item>): World {
    var r := Sort(w.store, w.todo, items);
    World(w.store, r.todo, w.sent + Request(r.wanted))
  }

  function OnGetdata(w: World, items: seq<Item>): World {
    var r := Serve(w.store, items);
    World(r.store, w.todo,
          w.sent + ReplyPackets(r.replies) + if r.missing == [] then [] else [Packet(NOTFOUND, InvBytes(r.missing))])
  }

  function OnBlockPacket(hash: seq<byte> -> seq<byte>, w: World, data: seq<byte>): World {
    var d := OnBlock(hash, w.store, w.todo, data);
    World(d.store, d.todo, w.sent + if d.asked.Some? then Request([Item(2, d.asked.value)]) else [])
  }

  /** The packets with a handler that this model covers; any other packet changes nothing here. */
  function OnPacket(hash: seq<byte> -> seq<byte>, w: World, p: Packet): World {
    if p.command == PING then w.(sent := w.sent + [Packet(PONG, p.payload)])
    else if p.command == BLOCK then OnBlockPacket(hash, w, p.payload)
    else if p.command == TX then w.(store := ArriveTx(hash, w.store, p.payload))
    else if p.command == GETDATA then OnGetdata(w, ParseInv(p.payload))
    else if p.command == INV then OnInv(w, ParseInv(p.payload))
    else w
  }

  function OnPackets(hash: seq<byte> -> seq<byte>, w: World, ps: seq<Packet>): World
    decreases |ps|
  {
    if ps == [] then w else OnPackets(hash, OnPacket(hash, w, ps[0]), ps[1..])
  }

  lemma OnPacketsLast(hash: seq<byte> -> seq<byte>, w: World, ps: seq<Packet>, p: Packet)
    ensures OnPackets(hash, w, ps + [p]) == OnPacket(hash, OnPackets(hash, w, ps), p)
    decreases |ps|
  {
    hide OnPacket;
    if ps == [] {
      assert ([] + [p])[1..] == [];
    } else {
      OnPacketsLast(hash, OnPacket(hash, w, ps[0]), ps[1..], p);
      assert (ps + [p])[1..] == ps[1..] + [p];
    }
  }

  lemma PacketKeeps(hash: seq<byte> -> seq<byte>, w: World, p: Packet)
    requires NeverZero(hash) && Consistent(hash, w.store) && |w.store.blocks| < MAX32
    ensures Consistent(hash, OnPacket(hash, w, p).store)
  {
    hide Arrive, ArriveTx, Consistent, Serve, Sort, ParseInv, SkipKnown;
    StepKeeps(hash, w.store, BlockCame(p.payload));
    StepKeeps(hash, w.store, TxCame(p.payload));
    ServedCompletely(hash, w.store, ParseInv(p.payload));
  }

  lemma {:induction false} PacketsNeverShrink(hash: seq<byte> -> seq<byte>, w: World, ps: seq<Packet>)
    ensures |w.store.blocks| <= |OnPackets(hash, w, ps).store.blocks|
    decreases |ps|
  {
    hide OnPacket;
    if ps != [] {
      AnyPacketGrows(hash, w, ps[0]);
      PacketsNeverShrink(hash, OnPacket(hash, w, ps[0]), ps[1..]);
    }
  }

  lemma AnyPacketGrows(hash: seq<byte> -> seq<byte>, w: World, p: Packet)
    ensures |w.store.blocks| <= |OnPacket(hash, w, p).store.blocks|
  {
    hide Arrive, Serve, Sort, ParseInv, SkipKnown;
    RunGrows(hash, w.store, [BlockCame(p.payload)]);
    OneEvent(hash, w.store, p.payload);
    ServeKeepsBlocks(w.store, ParseInv(p.payload));
  }

  lemma {:induction false} ServeKeepsBlocks(s: Store, items: seq<Item>)
    ensures Serve(s, items).store.blocks == s.blocks
    decreases |items|
  {
    if items != [] {
      ServeKeepsBlocks(if Knows(s, items[0]) then Fetch(s, items[0]) else s, items[1..]);
    }
  }

  /** Whatever packets arrive, the store they leave is a consistent forest, as long as it holds fewer
      than 2^32 blocks. */
  lemma {:induction false} PacketsKeepForest(hash: seq<byte> -> seq<byte>, w: World, ps: seq<Packet>)
    requires NeverZero(hash) && Consistent(hash, w.store) && |OnPackets(hash, w, ps).store.blocks| < MAX32
    ensures Consistent(hash, OnPackets(hash, w, ps).store)
    decreases |ps|
  {
    hide OnPacket, Consistent;
    PacketsNeverShrink(hash, w, ps);
    if ps != [] {
      PacketKeeps(hash, w, ps[0]);
      PacketsKeepForest(hash, OnPacket(hash, w, ps[0]), ps[1..]);
    }
  }

  // ---------------------------------------------------------- reads, on values

  /** A connection between two reads: what is left in the buffer, whether it is closed or stuck, and
      the world it has brought about. */
  datatype Link = Link(inBuf: seq<byte>, closed: bool, endless: bool, world: World)

  /** One read. */
  ghost function AfterRead(hash: seq<byte> -> seq<byte>, l: Link, data: seq<byte>): Link
    requires IsDigest(hash)
  {
    if l.closed || l.endless then l
    else
      var h := Handle(hash, l.inBuf + data);
      Link(h.left, h.closed, h.endless, OnPackets(hash, l.world, h.packets))
  }

  ghost function AfterReads(hash: seq<byte> -> seq<byte>, l: Link, chunks: seq<seq<byte>>): Link
    requires IsDigest(hash)
    decreases |chunks|
  {
    if chunks == [] then l else AfterReads(hash, AfterRead(hash, l, chunks[0]), chunks[1..])
  }

  /** The link that has received these packets. */
  ghost function LinkOf(hash: seq<byte> -> seq<byte>, w: World, h: Handled): Link {
    Link(h.left, h.closed, h.endless, OnPackets(hash, w, h.packets))
  }

  lemma {:induction false} OnPacketsAppend(hash: seq<byte> -> seq<byte>, w: World, a: seq<Packet>, b: seq<Packet>)
    ensures OnPackets(hash, w, a + b) == OnPackets(hash, OnPackets(hash, w, a), b)
    decreases |a|
  {
    hide OnPacket;
    if a == [] {
      assert a + b == b;
    } else {
      OnPacketsAppend(hash, OnPacket(hash, w, a[0]), a[1..], b);
      assert (a + b)[1..] == a[1..] + b;
    }
  }

  /** The reads act on the world as the packets that they complete. */
  lemma {:induction false} ReadsFold(hash: seq<byte> -> seq<byte>, w: World, h: Handled, chunks: seq<seq<byte>>)
    requires IsDigest(hash)
    ensures AfterReads(hash, LinkOf(hash, w, h), chunks) == LinkOf(hash, w, ReceiveAll(hash, h, chunks))
    decreases |chunks|
  {
    hide OnPackets, Handle;
    if chunks != [] {
      if !h.closed && !h.endless {
        OnPacketsAppend(hash, w, h.packets, Handle(hash, h.left + chunks[0]).packets);
      }
      ReadsFold(hash, w, Receive(hash, h, chunks[0]), chunks[1..]);
    }
  }

  /** A connection that starts with an empty buffer: on settled input, the reads, cut in any way, take
      buffer, connection, store, download list and answers where one read of it all takes them. */
  lemma ReadsActAsOne(hash: seq<byte> -> seq<byte>, w: World, chunks: seq<seq<byte>>)
    requires IsDigest(hash) && Settled(hash, Concat(chunks))
    ensures AfterReads(hash, Link([], false, false, w), chunks) == LinkOf(hash, w, Handle(hash, Concat(chunks)))
  {
    hide OnPackets, Handle, Settled, AfterReads, ReceiveAll;
    NothingSoFar(hash, w);
    ReadsFold(hash, w, FRESH, chunks);
    NothingToHandle(hash);
    assert [] + Concat(chunks) == Concat(chunks);
    ReadsDoNotMatter(hash, [], chunks);
  }

  lemma NothingSoFar(hash: seq<byte> -> seq<byte>, w: World)
    ensures LinkOf(hash, w, FRESH) == Link([], false, false, w)
  {
  }

  /** The octets of any packets, read in any pieces, end where the packets one by one end, with nothing
      left over. */
  lemma ReadsActAsPackets(hash: seq<byte> -> seq<byte>, w: World, ps: seq<Packet>, chunks: seq<seq<byte>>)
    requires IsDigest(hash) && (forall p <- ps :: Sendable(p)) && Concat(chunks) == AllBytes(hash, ps)
    ensures AfterReads(hash, Link([], false, false, w), chunks) == Link([], false, false, OnPackets(hash, w, ps))
  {
    hide Sendable, OnPackets, ReceiveAll, AfterReads, AllBytes;
    NothingSoFar(hash, w);
    ReadsFold(hash, w, FRESH, chunks);
    PacketsRoundTrip(hash, ps, chunks);
  }

  // ------------------------------------------------------- what a connection writes

  /** The octets of the packets sent. A name has at most twelve octets. */
  ghost function Wire(hash: seq<byte> -> seq<byte>, ps: seq<Packet>): seq<byte>
    requires IsDigest(hash)
  {
    if ps == [] then []
    else
      var p := ps[|ps| - 1];
      Wire(hash, ps[..|ps| - 1]) + if |p.command| <= NAME then PacketBytes(hash, p) else []
  }

  lemma WireLast(hash: seq<byte> -> seq<byte>, ps: seq<Packet>, p: Packet)
    requires IsDigest(hash) && |p.command| <= NAME
    ensures Wire(hash, ps + [p]) == Wire(hash, ps) + PacketBytes(hash, p)
  {
    hide PacketBytes;
    assert (ps + [p])[..|ps|] == ps;
  }

  lemma {:induction false} WireFirst(hash: seq<byte> -> seq<byte>, p: Packet, ps: seq<Packet>)
    requires IsDigest(hash) && |p.command| <= NAME
    ensures Wire(hash, [p] + ps) == PacketBytes(hash, p) + Wire(hash, ps)
    decreases |ps|
  {
    hide PacketBytes;
    if ps == [] {
      assert ([p] + ps)[..0] == [] && [p] + ps == [p];
      assert Wire(hash, [p]) == Wire(hash, []) + PacketBytes(hash, p);
    } else {
      var front := ps[..|ps| - 1];
      WireFirst(hash, p, front);
      assert ([p] + ps)[..|ps|] == [p] + front;
    }
  }

  lemma {:induction false} WireIsAllBytes(hash: seq<byte> -> seq<byte>, ps: seq<Packet>)
    requires IsDigest(hash) && forall p <- ps :: Sendable(p)
    ensures Wire(hash, ps) == AllBytes(hash, ps)
    decreases |ps|
  {
    hide PacketBytes, Wire;
    if ps == [] {
      NothingOnWire(hash);
    } else {
      assert Sendable(ps[0]);
      assert forall p <- ps[1..] :: p in ps;
      WireFirst(hash, ps[0], ps[1..]);
      WireIsAllBytes(hash, ps[1..]);
      assert [ps[0]] + ps[1..] == ps;
    }
  }

  lemma NothingOnWire(hash: seq<byte> -> seq<byte>)
    requires IsDigest(hash)
    ensures Wire(hash, []) == []
  {
  }

  /** Two connectors back to back: what one has written, read by the other in any pieces, acts there as
      the packets that were sent. */
  lemma SentActsAtPeer(hash: seq<byte> -> seq<byte>, w: World, sent: seq<Packet>, chunks: seq<seq<byte>>)
    requires IsDigest(hash) && (forall p <- sent :: Sendable(p)) && Concat(chunks) == Wire(hash, sent)
    ensures AfterReads(hash, Link([], false, false, w), chunks) == Link([], false, false, OnPackets(hash, w, sent))
  {
    hide Sendable, OnPackets, AfterReads, AllBytes, Wire;
    WireIsAllBytes(hash, sent);
    ReadsActAsPackets(hash, w, sent, chunks);
  }

  /** What a peer reads out of the announcement that the queue is turned into is the queue itself. */
  lemma AnnouncementIsRead(hash: seq<byte> -> seq<byte>, s: Store)
    requires IsDigest(hash) && Consistent(hash, s) && |s.queue| < 0x8000_0000
    ensures ParseInv(EncodeInt(|s.queue|) + ItemsBytes(s.queue)) == s.queue
  {
    hide Forest, ParseInv, ItemsBytes, EncodeInt;
    forall i <- s.queue ensures ItemOk(i) {
      if i.kind == 1 {
        assert hash(s.txs[i.id]) == i.id;
      } else {
        assert hash(s.blocks[i.id].raw) == i.id;
      }
    }
    InvRoundTrip(s.queue);
  }

  // ---------------------------------------------------------------- the locator

  /** 0 + 1 + ... + k. */
  function Triangle(k: nat): nat {
    if k == 0 then 0 else Triangle(k - 1) + k
  }

  function Min(a: nat, b: nat): nat {
    if a < b then a else b
  }

  const LOCATOR_STEPS := 8

  /** The tip, then the ancestors at triangular distances, down to the root or for eight steps. */
  ghost predicate IsLocator(blocks: map<Hash, Stored>, tip: Hash, info: seq<Hash>)
    requires Forest(blocks) && tip in blocks
  {
    var h := blocks[tip].height;
    && 2 <= |info| <= LOCATOR_STEPS + 1
    && info[0] == tip
    && (forall k | 0 <= k < |info| - 1 :: info[k + 1] == Ancestor(blocks, tip, Min(h, Triangle(k))))
    && (forall k | 0 <= k < |info| - 2 :: Triangle(k) < h)
    && (h <= Triangle(|info| - 2) || |info| == LOCATOR_STEPS + 1)
  }

  lemma TriangleGrows(j: nat, k: nat)
    requires j <= k
    ensures Triangle(j) <= Triangle(k)
    decreases k
  {
    if j < k {
      TriangleGrows(j, k - 1);
    }
  }

  lemma TriangleValues()
    ensures Triangle(6) == 21 && Triangle(7) == 28
  {
    assert Triangle(1) == 1;
    assert Triangle(2) == 3;
    assert Triangle(3) == 6;
    assert Triangle(4) == 10;
    assert Triangle(5) == 15;
  }

  /** The last entry of a locator is a root exactly when the tip is at height 28 or lower, and otherwise
      that entry lies 28 blocks back. */
  lemma LocatorEnds(blocks: map<Hash, Stored>, tip: Hash, info: seq<Hash>)
    requires Forest(blocks) && tip in blocks && IsLocator(blocks, tip, info)
    ensures info[|info| - 1] in blocks
    ensures var h, last := blocks[tip].height, blocks[info[|info| - 1]].height;
            last == if h <= 28 then 0 else h - 28
  {
    hide Rooted;
    var h, n := blocks[tip].height, |info| - 2;
    TriangleValues();
    TriangleGrows(n, 7);
    assert info[n + 1] == Ancestor(blocks, tip, Min(h, Triangle(n)));
  }

  lemma LocatorNotShorter(blocks: map<Hash, Stored>, tip: Hash, a: seq<Hash>, b: seq<Hash>)
    requires Forest(blocks) && tip in blocks && IsLocator(blocks, tip, a) && IsLocator(blocks, tip, b)
    ensures |b| <= |a|
  {
    hide Rooted, Ancestor, Triangle;
  }

  /** There is one locator for a tip. */
  lemma LocatorUnique(blocks: map<Hash, Stored>, tip: Hash, a: seq<Hash>, b: seq<Hash>)
    requires Forest(blocks) && tip in blocks && IsLocator(blocks, tip, a) && IsLocator(blocks, tip, b)
    ensures a == b
  {
    hide Rooted, Ancestor;
    LocatorNotShorter(blocks, tip, a, b);
    LocatorNotShorter(blocks, tip, b, a);
    forall i | 0 <= i < |a| ensures a[i] == b[i] {
      if i > 0 {
        var k := i - 1;
        assert a[k + 1] == Ancestor(blocks, tip, Min(blocks[tip].height, Triangle(k))) == b[k + 1];
      }
    }
  }

  // ------------------------------------------------------------------- objects

  lemma ItemsBytesLast(items: seq<Item>, i: Item)
    ensures ItemsBytes(items + [i]) == ItemsBytes(items) + ItemBytes(i)
  {
    hide ItemBytes;
    if items == [] {
      assert ([] + [i])[1..] == [];
    } else {
      ItemsBytesLast(items[1..], i);
      assert (items + [i])[1..] == items[1..] + [i];
    }
  }

  predicate IsLast(blocks: map<Hash, Stored>, tip: Option<Hash>) {
    if tip.None? then blocks == map[]
    else tip.value in blocks && forall id <- blocks :: blocks[id].height <= blocks[tip.value].height
  }

  /** ModBitcoinConnector: the store in its fields. */
  class Connector {
    var blocks: map<Hash, Stored>
    var txs: map<Hash, seq<byte>>
    var cache: map<Item, seq<byte>>
    var queue: seq<Item>

    constructor ()
      ensures Model() == EMPTY
    {
      blocks, txs, cache, queue := map[], map[], map[], [];
    }

    function Model(): Store
      reads this
    {
      Store(blocks, txs, cache, queue)
    }

    method KnowsItem(i: Item) returns (yes: bool)
      ensures yes == Knows(Model(), i)
    {
      if i in cache {
        return true;
      }
      if i.kind == 1 {
        return i.id in txs;
      }
      if i.kind == 2 {
        return i.id in blocks;
      }
      return false;
    }

    method Inventory(i: Item) returns (data: seq<byte>)
      modifies this
      ensures data == GetInventory(old(Model()), i) && Model() == Fetch(old(Model()), i)
    {
      if i in cache {
        return cache[i];
      }
      if i.kind == 1 {
        if i.id !in txs {
          return [];
        }
        data := txs[i.id];
        cache := cache[i := data];
        return;
      }
      return [];
    }

    method AddTransaction(id: Hash, data: seq<byte>, announce: bool)
      modifies this
      ensures Model() == AddTx(old(Model()), id, data, announce)
    {
      var item := Item(1, id);
      cache := cache[item := data];
      if announce {
        queue := queue + [item];
      }
      txs := txs[id := data];
    }

    /** addBlock: data is what the block was made of. */
    method StoreBlock(hash: seq<byte> -> seq<byte>, block: Block, ghost data: seq<byte>)
      requires block.raw == HeaderOf(data) && block.txns == BodyOf(data) && block.hash == hash(block.raw)
      modifies this
      ensures Model() == AddBlock(hash, old(Model()), data, block.height)
    {
      hide Transactions, EncodeTx, Knows, HeaderOf, BodyOf;
      var ts := block.GetTransactions();
      assert ts[0..] == ts;
      for k := 0 to |ts|
        invariant AddTxs(hash, Model(), ts[k..]) == AddTxs(hash, old(Model()), ts)
      {
        var d := EncodeTx(ts[k]);
        var known := KnowsItem(Item(1, hash(d)));
        if !known {
          AddTransaction(hash(d), d, false);
        }
        assert ts[k..][1..] == ts[k + 1..];
      }
      var item := Item(2, block.hash);
      cache := cache[item := block.raw];
      queue := queue + [item];
      blocks := blocks[item.id := Stored(block.raw, block.height)];
    }

    /** getLastBlock: a block of the greatest height, if there is any block. */
    method GetLastBlock() returns (tip: Option<Hash>)
      ensures IsLast(blocks, tip)
    {
      tip := None;
      var todo := blocks.Keys;
      while todo != {}
        invariant todo <= blocks.Keys
        invariant tip.None? <==> todo == blocks.Keys
        invariant tip.Some? ==> tip.value in blocks
        invariant tip.Some? ==> forall id <- blocks.Keys - todo :: blocks[id].height <= blocks[tip.value].height
        decreases |todo|
      {
        var id :| id in todo;
        if tip.None? || blocks[tip.value].height < blocks[id].height {
          tip := Some(id);
        }
        todo := todo - {id};
      }
    }

    /** The newInventory signal: a count and the concatenated keys, after which the queue is empty. */
    method SendQueuedInventory() returns (count: nat, keys: seq<byte>)
      modifies this
      ensures count == |old(queue)| && keys == ItemsBytes(old(queue))
      ensures Model() == old(Model()).(queue := [])
    {
      hide ItemBytes;
      count, keys := 0, [];
      if queue == [] {
        return;
      }
      for k := 0 to |queue|
        invariant Model() == old(Model()) && keys == ItemsBytes(queue[..k])
      {
        ItemsBytesLast(queue[..k], queue[k]);
        assert queue[..k + 1] == queue[..k] + [queue[k]];
        keys := keys + ItemBytes(queue[k]);
      }
      assert queue[..|queue|] == queue;
      count := |queue|;
      queue := [];
    }
  }

  lemma SkipStep(s: Store, todo: seq<Hash>)
    requires todo != []
    ensures SkipKnown(s, todo) == if Knows(s, Item(2, todo[0])) then 1 + SkipKnown(s, todo[1..]) else 0
  {
    hide Knows;
  }

  lemma SkipNothing(s: Store)
    ensures SkipKnown(s, []) == 0
  {
  }

  lemma TailOf(todo: seq<Hash>, k: nat)
    requires k < |todo|
    ensures todo[k..][0] == todo[k] && todo[k..][1..] == todo[k + 1..]
  {
  }

  lemma HeaderSplit(data: seq<byte>, raw: seq<byte>, txns: seq<byte>)
    requires raw + txns == data && |raw| <= HEADER_SIZE && (txns != [] ==> |raw| == HEADER_SIZE)
    ensures raw == HeaderOf(data) && txns == BodyOf(data)
  {
  }

  lemma DecodedItemsCount(n: nat, s: seq<byte>)
    ensures |DecodeItems(n, s).0| == n
    decreases n
  {
    hide DecodeItem;
    if n > 0 {
      DecodedItemsCount(n - 1, DecodeItem(s).1);
    }
  }

  /** ModBitcoinConnectorClient. */
  class Client {
    const parent: Connector
    const sha: seq<byte> -> seq<byte>
    var inBuf: seq<byte>
    var closed: bool
    var endless: bool
    var todo: seq<Hash>
    var written: seq<byte>
    ghost var sent: seq<Packet>

    constructor (parent: Connector, sha: seq<byte> -> seq<byte>)
      requires IsDigest(sha)
      ensures Valid() && this.parent == parent && this.sha == sha
      ensures LinkModel() == Link([], false, false, World(parent.Model(), [], []))
    {
      this.parent, this.sha := parent, sha;
      inBuf, closed, endless, todo, written, sent := [], false, false, [], [], [];
    }

    /** What has been written is the octets of the packets sent. */
    ghost predicate Valid()
      reads this
    {
      IsDigest(sha) && written == Wire(sha, sent)
    }

    ghost function Model(): World
      reads this, parent
    {
      World(parent.Model(), todo, sent)
    }

    ghost function LinkModel(): Link
      reads this, parent
    {
      Link(inBuf, closed, endless, Model())
    }

    /** The input side is as it was. */
    twostate predicate SameInput()
      reads this
    {
      inBuf == old(inBuf) && closed == old(closed) && endless == old(endless)
    }

    method SendPacket(command: seq<byte>, payload: seq<byte>)
      requires Valid() && |command| <= NAME
      modifies this`written, this`sent
      ensures Valid() && written == old(written) + PacketBytes(sha, Packet(command, payload))
      ensures sent == old(sent) + [Packet(command, payload)]
    {
      hide Little, Zeros;
      var pkt := MAGIC;
      pkt := pkt + (command + Zeros(NAME - |command|));
      var stream := new DataStream(pkt);
      stream.Append(Little(4, |payload| % MAX32));
      WriteData(stream, sha(payload)[..4]);
      WriteData(stream, payload);
      assert stream.bytes == PacketBytes(sha, Packet(command, payload));
      WireLast(sha, sent, Packet(command, payload));
      written := written + stream.bytes;
      sent := sent + [Packet(command, payload)];
    }

    /** A count in front of a list of items, as one packet. */
    method SendList(command: seq<byte>, count: nat, items: seq<byte>)
      requires Valid() && |command| <= NAME && count < MAX64
      modifies this`written, this`sent
      ensures Valid() && sent == old(sent) + [Packet(command, EncodeInt(count) + items)]
    {
      hide EncodeInt, PacketBytes;
      var prefix := new DataStream([]);
      WriteInt(prefix, count);
      assert [] + EncodeInt(count) == EncodeInt(count);
      SendPacket(command, prefix.bytes + items);
    }

    /** The body of the loop: whether this item is to be asked for now. */
    method SortItem(item: Item) returns (want: bool)
      modifies this`todo
      ensures var known := Knows(parent.Model(), item);
              && want == (!known && (item.kind != 2 || old(todo) == []))
              && todo == if !known && item.kind == 2 then old(todo) + [item.id] else old(todo)
    {
      hide Knows;
      var known := parent.KnowsItem(item);
      if known {
        return false;
      }
      if item.kind == 2 {
        todo := todo + [item.id];
        if |todo| > 1 {
          return false;
        }
      }
      return true;
    }

    /** The loop of bitcoin_packet_inv. */
    method SortAll(stream: DataStream, count: nat) returns (getCount: nat, getBuf: seq<byte>, ghost wanted: seq<Item>)
      modifies this`todo, stream
      ensures Sort(parent.Model(), old(todo), DecodeItems(count, old(stream.bytes)).0) == Sorted(todo, wanted)
      ensures getCount == |wanted| <= count && getBuf == ItemsBytes(wanted)
    {
      hide Knows, DecodeItem, DecodeItems, ItemBytes, ItemsBytes, Sort;
      ghost var all := DecodeItems(count, stream.bytes).0;
      ghost var rest := all;
      getCount, getBuf, wanted := 0, [], [];
      NoItemsBytes();
      for k := 0 to count
        invariant rest == DecodeItems(count - k, stream.bytes).0
        invariant getCount == |wanted| <= k && getBuf == ItemsBytes(wanted)
        invariant Sort(parent.Model(), old(todo), all) == Resume(wanted, Sort(parent.Model(), todo, rest))
      {
        DecodeStep(count - k, stream.bytes);
        var item := ReadItem(stream);
        SortStep(parent.Model(), todo, rest);
        rest := rest[1..];
        var want := SortItem(item);
        if !want {
          continue;
        }
        getCount := getCount + 1;
        ItemsBytesLast(wanted, item);
        ResumeMore(wanted, item, Sort(parent.Model(), todo, rest));
        wanted := wanted + [item];
        getBuf := getBuf + ItemBytes(item);
      }
      NothingToSort(parent.Model(), todo, stream.bytes);
    }

    method OnInvPacket(pkt: seq<byte>)
      requires Valid()
      modifies this
      ensures Valid()
      ensures Model() == OnInv(old(Model()), ParseInv(pkt)) && SameInput()
    {
      hide DecodeItems, DecodeInt, EncodeInt, ItemsBytes, Sort, PacketBytes;
      var stream := new DataStream(pkt);
      var n := ReadInt(stream);
      var count := Signed(8, n);
      if |pkt| < ITEM_SIZE * count || count < 0 {
        NothingToSort(parent.Model(), todo, []);
        return;
      }
      CountBound(n);
      var getCount, getBuf, wanted := SortAll(stream, count);
      if getCount > 0 {
        SendList(GETDATA, getCount, getBuf);
      }
    }

    /** The body of the loop: hand out what is known. */
    method ServeItem(item: Item) returns (known: bool, ghost reply: Reply)
      requires Valid()
      modifies this`written, this`sent, parent
      ensures Valid()
      ensures known == Knows(old(parent.Model()), item)
      ensures reply == Reply(item, GetInventory(old(parent.Model()), item))
      ensures parent.Model() == if known then Fetch(old(parent.Model()), item) else old(parent.Model())
      ensures sent == if known then old(sent) + ReplyPacket(reply) else old(sent)
    {
      hide Knows, Fetch, GetInventory, PacketBytes;
      reply := Reply(item, GetInventory(parent.Model(), item));
      known := parent.KnowsItem(item);
      if known {
        var res := parent.Inventory(item);
        match item.kind {
          case 1 => SendPacket(TX, res);
          case 2 => SendPacket(BLOCK, res);
          case _ =>
        }
      }
    }

    /** The loop of bitcoin_packet_getdata. */
    method ServeAll(stream: DataStream, count: nat)
      returns (getCount: nat, getBuf: seq<byte>, ghost replies: seq<Reply>, ghost missing: seq<Item>)
      requires Valid()
      modifies this`written, this`sent, parent, stream
      ensures Valid()
      ensures Serve(old(parent.Model()), DecodeItems(count, old(stream.bytes)).0)
           == Served(parent.Model(), replies, missing)
      ensures sent == old(sent) + ReplyPackets(replies)
      ensures getCount == |missing| <= count && getBuf == ItemsBytes(missing)
    {
      hide Knows, Fetch, GetInventory, DecodeItem, DecodeItems, ItemBytes, ItemsBytes, Serve, ReplyPacket, ReplyPackets, Wire;
      ghost var all := DecodeItems(count, stream.bytes).0;
      ghost var rest := all;
      getCount, getBuf, replies, missing := 0, [], [], [];
      NoItemsBytes();
      NothingRejoined(Serve(parent.Model(), all));
      assert sent + ReplyPackets([]) == sent;
      for k := 0 to count
        invariant rest == DecodeItems(count - k, stream.bytes).0
        invariant getCount == |missing| <= k && getBuf == ItemsBytes(missing)
        invariant Valid() && sent == old(sent) + ReplyPackets(replies)
        invariant Serve(old(parent.Model()), all) == Rejoin(replies, missing, Serve(parent.Model(), rest))
      {
        DecodeStep(count - k, stream.bytes);
        var item := ReadItem(stream);
        ServeStep(parent.Model(), rest, replies, missing);
        rest := rest[1..];
        var known, reply := ServeItem(item);
        if known {
          ReplyPacketsLast(replies, reply);
          replies := replies + [reply];
          continue;
        }
        getCount := getCount + 1;
        ItemsBytesLast(missing, item);
        missing := missing + [item];
        getBuf := getBuf + ItemBytes(item);
      }
      NothingToServe(parent.Model(), stream.bytes, replies, missing);
    }

    method OnGetdataPacket(pkt: seq<byte>)
      requires Valid()
      modifies this, parent
      ensures Valid()
      ensures Model() == OnGetdata(old(Model()), ParseInv(pkt)) && SameInput()
    {
      hide DecodeItems, DecodeInt, EncodeInt, ItemsBytes, Serve, ReplyPackets, PacketBytes;
      var stream := new DataStream(pkt);
      var n := ReadInt(stream);
      var count := Signed(8, n);
      if |pkt| < ITEM_SIZE * count || count < 0 {
        NothingToServe(parent.Model(), [], [], []);
        return;
      }
      CountBound(n);
      var getCount, getBuf, replies, missing := ServeAll(stream, count);
      if getCount > 0 {
        SendList(NOTFOUND, getCount, getBuf);
      }
    }

    /** bitcoin_packet_block. */
    method OnBlockData(data: seq<byte>)
      requires Valid()
      modifies this, parent
      ensures Valid()
      ensures Model() == OnBlockPacket(sha, old(Model()), data) && SameInput()
    {
      hide Arrive, SkipKnown, EncodeInt, InvBytes, Wire;
      StoreIfLinked(data);
      var asked := TakeUnknown();
      if asked.Some? {
        OneItemBytes(asked.value);
        SendList(GETDATA, 1, ItemBytes(Item(2, asked.value)));
      }
    }

    /** Its loop: drop what has arrived meanwhile, and take the next block to ask for. */
    method TakeUnknown() returns (asked: Option<Hash>)
      modifies this`todo
      ensures var k := SkipKnown(parent.Model(), old(todo));
              && asked == (if k == |old(todo)| then None else Some(old(todo)[k]))
              && todo == if k == |old(todo)| then [] else old(todo)[k + 1..]
    {
      hide Knows, SkipKnown;
      ghost var skipped := 0;
      while |todo| > 0
        invariant skipped <= |old(todo)| && todo == old(todo)[skipped..]
        invariant SkipKnown(parent.Model(), old(todo)) == skipped + SkipKnown(parent.Model(), todo)
        decreases |todo|
      {
        SkipStep(parent.Model(), todo);
        var id := todo[0];
        TailOf(old(todo), skipped);
        todo := todo[1..];
        var known := parent.KnowsItem(Item(2, id));
        if !known {
          return Some(id);
        }
        skipped := skipped + 1;
      }
      SkipNothing(parent.Model());
      return None;
    }

    /** The storing half of bitcoin_packet_block. */
    method StoreIfLinked(data: seq<byte>)
      modifies parent
      ensures parent.Model() == Arrive(sha, old(parent.Model()), data)
    {
      hide HeaderOf, BodyOf, AddBlock, Knows;
      var block := new Block(data, 0, sha);
      HeaderSplit(data, block.raw, block.txns);
      var p := block.header.parent;
      if p !in parent.blocks && p != NO_PARENT {
        return;
      }
      if p in parent.blocks {
        block.height := (parent.blocks[p].height + 1) % MAX32;
      }
      var known := parent.KnowsItem(Item(2, block.hash));
      if !known {
        parent.StoreBlock(sha, block, data);
      }
    }

    method OnTxData(data: seq<byte>)
      modifies parent
      ensures parent.Model() == ArriveTx(sha, old(parent.Model()), data)
    {
      hide Knows;
      var id := sha(data);
      var known := parent.KnowsItem(Item(1, id));
      if !known {
        parent.AddTransaction(id, data, true);
      }
    }

    /** The slot that handleBuffer finds by the packet's name. */
    method Dispatch(p: Packet)
      requires Valid()
      modifies this, parent
      ensures Valid()
      ensures Model() == OnPacket(sha, old(Model()), p) && SameInput()
    {
      hide Arrive, ArriveTx, OnBlockPacket, OnGetdata, OnInv, ParseInv, PacketBytes;
      if p.command == PING {
        SendPacket(PONG, p.payload);
      } else if p.command == BLOCK {
        OnBlockData(p.payload);
      } else if p.command == TX {
        OnTxData(p.payload);
      } else if p.command == GETDATA {
        OnGetdataPacket(p.payload);
      } else if p.command == INV {
        OnInvPacket(p.payload);
      }
    }

    /** Everything that one read brings about; a closed connection reads nothing more. */
    method HandleBuffer(data: seq<byte>)
      requires Valid()
      modifies this, parent
      ensures Valid()
      ensures LinkModel() == AfterRead(sha, old(LinkModel()), data)
    {
      hide OnPacket, OnPackets, Decide, Handle, Prepend, Wire;
      if closed || endless {
        return;
      }
      inBuf := inBuf + data;
      ghost var packets: seq<Packet> := [];
      NothingYet(sha, Model(), Handle(sha, inBuf));
      while true
        invariant Valid() && !closed && !endless
        invariant Handle(sha, old(inBuf) + data) == Prepend(packets, Handle(sha, inBuf))
        invariant Model() == OnPackets(sha, old(Model()), packets)
        decreases |inBuf|
      {
        HandleStep(sha, inBuf, packets);
        var d := Examine(inBuf);
        match d {
          case Await =>
            return;
          case GiveUp =>
            inBuf, closed := [], true;
            return;
          case Accept(size, p) =>
            OnPacketsLast(sha, old(Model()), packets, p);
            packets := packets + [p];
            Dispatch(p);
            if size == 0 {
              endless := true;
              return;
            }
            inBuf := inBuf[size..];
        }
      }
    }

    /** Header, length and checksum of the packet at the front. */
    method Examine(buf: seq<byte>) returns (d: Decision)
      requires IsDigest(sha)
      ensures d == Decide(sha, buf)
      ensures d.Accept? ==> d.size <= |buf|
    {
      hide FromLittle, WithoutZeros;
      if |buf| < HEADER {
        return Await;
      }
      if buf[..4] != MAGIC {
        return GiveUp;
      }
      var name := WithoutZeros(buf[4..16]);
      var len := LengthField(buf);
      var size := (HEADER + len) % MAX32;
      if |buf| < size {
        return Await;
      }
      var payload := if HEADER + len < MAX32 then buf[HEADER..HEADER + len] else buf[HEADER..];
      if buf[20..24] != sha(payload)[..4] {
        return GiveUp;
      }
      return Accept(size, Packet(name, payload));
    }

    /** The slot behind the newInventory signal. */
    method NewInventory(count: nat, keys: seq<byte>)
      requires Valid() && count < MAX64
      modifies this`written, this`sent
      ensures Valid()
      ensures sent == old(sent) + [Packet(INV, EncodeInt(count) + keys)]
    {
      SendList(INV, count, keys);
    }

    /** The inner loop of sendGetBlocks: that many steps towards the root, as far as there are any. */
    method Descend(start: Hash, steps: nat, ghost tip: Hash, ghost d: nat) returns (cur: Hash)
      requires Forest(parent.blocks) && tip in parent.blocks && d <= parent.blocks[tip].height
      requires start == Ancestor(parent.blocks, tip, d)
      ensures cur == Ancestor(parent.blocks, tip, Min(parent.blocks[tip].height, d + steps))
    {
      hide DecodeHeader, Ancestor, Forest, Zeros;
      var blocks := parent.blocks;
      cur := start;
      for j := 0 to steps
        invariant d + j <= blocks[tip].height && cur == Ancestor(blocks, tip, d + j)
      {
        AncestorNext(blocks, tip, d + j);
        var p := ParentOf(blocks[cur]);
        if p == NO_PARENT {
          break;
        }
        cur := p;
      }
    }

    /** The outer loop of sendGetBlocks. */
    method Locator(tip: Hash) returns (info: seq<Hash>)
      requires Forest(parent.blocks) && tip in parent.blocks
      ensures IsLocator(parent.blocks, tip, info)
    {
      hide DecodeHeader, Ancestor, Triangle, Forest;
      var blocks := parent.blocks;
      var cur := tip;
      FirstAncestor(blocks, tip);
      info := [tip];
      for i := 0 to LOCATOR_STEPS
        invariant IsLocatorSoFar(blocks, tip, info, i)
        invariant cur == Ancestor(blocks, tip, if i == 0 then 0 else Triangle(i - 1))
      {
        TriangleStep(i);
        cur := Descend(cur, i, tip, if i == 0 then 0 else Triangle(i - 1));
        assert cur == Ancestor(blocks, tip, Min(blocks[tip].height, Triangle(i)));
        info := info + [cur];
        AncestorNext(blocks, tip, Min(blocks[tip].height, Triangle(i)));
        if ParentOf(blocks[cur]) == NO_PARENT {
          return;
        }
      }
    }

    /** The packet that carries a locator. */
    method LocatorPacket(info: seq<Hash>) returns (pkt: seq<byte>)
      requires |info| < MAX64
      ensures pkt == GetBlocksBytes(info)
    {
      hide Little, EncodeInt, Concat;
      var stream := new DataStream([]);
      stream.Append(Little(4, 1));
      WriteInt(stream, |info|);
      ConcatNothing();
      for i := 0 to |info|
        invariant stream.bytes == Little(4, 1) + EncodeInt(|info|) + Concat(info[..i])
      {
        ConcatLast(info[..i], info[i]);
        assert info[..i + 1] == info[..i] + [info[i]];
        WriteData(stream, info[i]);
      }
      assert info[..|info|] == info;
      WriteData(stream, NO_PARENT);
      pkt := stream.bytes;
    }

    /** sendGetBlocks. */
    method SendGetBlocks() returns (tip: Option<Hash>, info: seq<Hash>)
      requires Valid() && Forest(parent.blocks)
      modifies this`written, this`sent
      ensures Valid()
      ensures todo == [] ==> IsLast(parent.blocks, tip)
      ensures todo == [] && tip.Some? ==> IsLocator(parent.blocks, tip.value, info)
      ensures sent == old(sent)
                    + if todo != [] then []
                      else if tip.Some? then [Packet(GETBLOCKS, GetBlocksBytes(info))]
                      else [Packet(GETDATA, InvBytes([Item(2, ORIGIN)]))]
    {
      hide EncodeInt, IsLocator, InvBytes, GetBlocksBytes, Forest, Wire, IsLast;
      tip, info := None, [];
      if |todo| > 0 {
        return;
      }
      tip := parent.GetLastBlock();
      TipStored(parent.blocks, tip);
      if tip.None? {
        OneItemBytes(ORIGIN);
        SendList(GETDATA, 1, ItemBytes(Item(2, ORIGIN)));
        return;
      }
      info := Locator(tip.value);
      LocatorLength(parent.blocks, tip.value, info);
      var pkt := LocatorPacket(info);
      SendPacket(GETBLOCKS, pkt);
    }
  }

  lemma TipStored(blocks: map<Hash, Stored>, tip: Option<Hash>)
    requires IsLast(blocks, tip)
    ensures tip.Some? ==> tip.value in blocks
  {
  }

  ghost predicate IsLocatorSoFar(blocks: map<Hash, Stored>, tip: Hash, info: seq<Hash>, i: nat)
    requires Forest(blocks) && tip in blocks
  {
    var h := blocks[tip].height;
    && |info| == i + 1
    && info[0] == tip
    && (forall k | 0 <= k < i :: info[k + 1] == Ancestor(blocks, tip, Min(h, Triangle(k))))
    && (forall k | 0 <= k < i :: Triangle(k) < h)
  }

  lemma LocatorLength(blocks: map<Hash, Stored>, tip: Hash, info: seq<Hash>)
    requires Forest(blocks) && tip in blocks && IsLocator(blocks, tip, info)
    ensures |info| <= LOCATOR_STEPS + 1
  {
  }

  lemma TriangleStep(i: nat)
    ensures Triangle(i) == (if i == 0 then 0 else Triangle(i - 1)) + i
  {
  }

  lemma AncestorNext(blocks: map<Hash, Stored>, tip: Hash, d: nat)
    requires Forest(blocks) && tip in blocks && d <= blocks[tip].height
    ensures var p := ParentOf(blocks[Ancestor(blocks, tip, d)]);
            && (p == NO_PARENT <==> d == blocks[tip].height)
            && (d < blocks[tip].height ==> p == Ancestor(blocks, tip, d + 1))
  {
    hide DecodeHeader, Zeros;
    assert Rooted(blocks, Ancestor(blocks, tip, d));
    if d < blocks[tip].height {
      AncestorStep(blocks, tip, d);
    }
  }

  lemma ConcatNothing()
    ensures Concat([]) == []
  {
  }

  /** The hash of the first block. */
  const ORIGIN: Hash := [
    0x6f, 0xe2, 0x8c, 0x0a, 0xb6, 0xf1, 0xb3, 0x72, 0xc1, 0xa6, 0xa2, 0x46, 0xae, 0x63, 0xf7, 0x4f,
    0x93, 0x1e, 0x83, 0x65, 0xe1, 0x5a, 0x08, 0x9c, 0x68, 0xd6, 0x19, 0x00, 0x00, 0x00, 0x00, 0x00]

  function GetBlocksBytes(info: seq<Hash>): seq<byte> {
    Little(4, 1) + EncodeInt(|info|) + Concat(info) + NO_PARENT
  }

  lemma ConcatLast(parts: seq<seq<byte>>, p: seq<byte>)
    ensures Concat(parts + [p]) == Concat(parts) + p
  {
    ConcatAppend(parts, [p]);
    assert [p][1..] == [];
    assert Concat([p]) == p + [];
  }

  lemma FirstAncestor(blocks: map<Hash, Stored>, tip: Hash)
    requires Forest(blocks) && tip in blocks
    ensures Ancestor(blocks, tip, 0) == tip
  {
  }

  lemma OneItemBytes(id: Hash)
    ensures InvBytes([Item(2, id)]) == EncodeInt(1) + ItemBytes(Item(2, id))
  {
    hide ItemBytes, EncodeInt;
    var i := Item(2, id);
    assert [i][1..] == [];
    assert ItemsBytes([i]) == ItemBytes(i) + [] == ItemBytes(i);
  }

  ghost function Prepend(packets: seq<Packet>, h: Handled): Handled {
    h.(packets := packets + h.packets)
  }

  lemma NothingYet(hash: seq<byte> -> seq<byte>, w: World, h: Handled)
    ensures Prepend([], h) == h && OnPackets(hash, w, []) == w
  {
    assert [] + h.packets == h.packets;
  }

  ghost function AfterOne(hash: seq<byte> -> seq<byte>, s: seq<byte>, packets: seq<Packet>, size: nat): Handled
    requires IsDigest(hash) && size <= |s|
  {
    if size == 0 then Handled(packets, s, false, true) else Prepend(packets, Handle(hash, s[size..]))
  }

  lemma HandleStep(hash: seq<byte> -> seq<byte>, s: seq<byte>, before: seq<Packet>)
    requires IsDigest(hash)
    ensures var d, h := Decide(hash, s), Prepend(before, Handle(hash, s));
            && (d.Await? ==> h == Handled(before, s, false, false))
            && (d.GiveUp? ==> h == Handled(before, [], true, false))
            && (d.Accept? ==> d.size <= |s| && h == AfterOne(hash, s, before + [d.packet], d.size))
  {
    hide LengthField, WithoutZeros;
    assert before + [] == before;
    if Decide(hash, s).Accept? {
      var p, size := Decide(hash, s).packet, Decide(hash, s).size;
      var rest := if size == 0 then [] else Handle(hash, s[size..]).packets;
      assert before + ([p] + rest) == (before + [p]) + rest;
      assert before + [p] + [] == before + [p];
    }
  }

  function Rejoin(replies: seq<Reply>, missing: seq<Item>, r: Served): Served {
    Served(r.store, replies + r.replies, missing + r.missing)
  }

  lemma ServeStep(s: Store, items: seq<Item>, replies: seq<Reply>, missing: seq<Item>)
    requires items != []
    ensures var i := items[0];
            var reply := Reply(i, GetInventory(s, i));
            Rejoin(replies, missing, Serve(s, items)) ==
            (if Knows(s, i) then Rejoin(replies + [reply], missing, Serve(Fetch(s, i), items[1..]))
             else Rejoin(replies, missing + [i], Serve(s, items[1..])))
  {
    hide Knows, Fetch, GetInventory;
    var i := items[0];
    var reply := Reply(i, GetInventory(s, i));
    var known, unknown := Serve(Fetch(s, i), items[1..]), Serve(s, items[1..]);
    assert replies + ([reply] + known.replies) == (replies + [reply]) + known.replies;
    assert missing + ([i] + unknown.missing) == (missing + [i]) + unknown.missing;
  }

  lemma NothingToServe(s: Store, bytes: seq<byte>, replies: seq<Reply>, missing: seq<Item>)
    ensures Rejoin(replies, missing, Serve(s, [])) == Served(s, replies, missing) && DecodeItems(0, bytes).0 == []
    ensures Serve(s, []) == Served(s, [], []) && ReplyPackets([]) == []
  {
    assert replies + [] == replies && missing + [] == missing;
  }

  lemma NothingRejoined(r: Served)
    ensures Rejoin([], [], r) == r && ReplyPackets([]) == []
  {
    assert [] + r.replies == r.replies && [] + r.missing == r.missing;
  }

  lemma ReplyPacketsLast(rs: seq<Reply>, r: Reply)
    ensures ReplyPackets(rs + [r]) == ReplyPackets(rs) + ReplyPacket(r)
  {
    assert (rs + [r])[..|rs|] == rs;
  }

  lemma CountBound(n: nat)
    requires n < MAX64
    ensures Signed(8, n) < MAX64
  {
    Pow256Values();
  }

  method ReadItem(stream: DataStream) returns (i: Item)
    modifies stream
    ensures (i, stream.bytes) == DecodeItem(old(stream.bytes))
  {
    hide TakeLittle, TakeData;
    var kind := stream.ReadLittle(4);
    var id := ReadData(stream, 32);
    i := Item(kind, id);
  }

  function Resume(wanted: seq<Item>, r: Sorted): Sorted {
    r.(wanted := wanted + r.wanted)
  }

  lemma ResumeMore(wanted: seq<Item>, i: Item, r: Sorted)
    ensures Resume(wanted, Resume([i], r)) == Resume(wanted + [i], r)
  {
    assert wanted + ([i] + r.wanted) == (wanted + [i]) + r.wanted;
  }

  lemma NothingToSort(s: Store, todo: seq<Hash>, bytes: seq<byte>)
    ensures Sort(s, todo, []) == Sorted(todo, []) && DecodeItems(0, bytes).0 == []
    ensures forall wanted :: Resume(wanted, Sorted(todo, [])) == Sorted(todo, wanted)
  {
    forall wanted: seq<Item> ensures Resume(wanted, Sorted(todo, [])) == Sorted(todo, wanted) {
      assert wanted + [] == wanted;
    }
  }

  lemma SortStep(s: Store, todo: seq<Hash>, items: seq<Item>)
    requires items != []
    ensures var i := items[0];
            var known := Knows(s, i);
            var r := Sort(s, if !known && i.kind == 2 then todo + [i.id] else todo, items[1..]);
            Sort(s, todo, items) == if !known && (i.kind != 2 || todo == []) then Resume([i], r) else r
  {
    hide Knows;
  }

  lemma DecodeStep(n: nat, s: seq<byte>)
    requires 0 < n
    ensures var items, d := DecodeItems(n, s).0, DecodeItem(s);
            items != [] && items[0] == d.0 && items[1..] == DecodeItems(n - 1, d.1).0
  {
    hide DecodeItem;
  }

  lemma NoItemsBytes()
    ensures ItemsBytes([]) == []
  {
  }
}
