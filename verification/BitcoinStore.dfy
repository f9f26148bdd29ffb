/** The connector's store of blocks and transactions, as ModBitcoinConnector keeps it: a block is
    accepted behind its parent and gets the parent's height plus one. The database is a map. */
module BitcoinStore {
  import opened Bytes
  import opened BitcoinTx
  import opened BitcoinObjects
  import opened BitcoinPacket

  type Hash = seq<byte>

  /** What an inventory entry names: kind 1 is a transaction, kind 2 a block. */
  datatype Item = Item(kind: nat, id: Hash)

  datatype Stored = Stored(raw: seq<byte>, height: nat)

  /** The parent that the stored header names. */
  function ParentOf(b: Stored): Hash {
    DecodeHeader(b.raw).parent
  }

  const NO_PARENT: Hash := Zeros(32)

  datatype Store = Store(
    blocks: map<Hash, Stored>,
    txs: map<Hash, seq<byte>>,
    cache: map<Item, seq<byte>>,
    queue: seq<Item>)

  const EMPTY := Store(map[], map[], map[], [])

  predicate Knows(s: Store, i: Item) {
    i in s.cache || (i.kind == 1 && i.id in s.txs) || (i.kind == 2 && i.id in s.blocks)
  }

  /** getInventory: the cache, or the database for transactions; for anything else nothing. */
  function GetInventory(s: Store, i: Item): seq<byte> {
    if i in s.cache then s.cache[i]
    else if i.kind == 1 && i.id in s.txs then s.txs[i.id]
    else []
  }

  /** getInventory also puts what it got from the database into the cache. */
  function Fetch(s: Store, i: Item): Store {
    if i !in s.cache && i.kind == 1 && i.id in s.txs then s.(cache := s.cache[i := s.txs[i.id]]) else s
  }

  /** addInventory(1, ...). */
  function AddTx(s: Store, id: Hash, data: seq<byte>, announce: bool): Store {
    s.(cache := s.cache[Item(1, id) := data],
       txs := s.txs[id := data],
       queue := if announce then s.queue + [Item(1, id)] else s.queue)
  }

  function AddTxs(hash: seq<byte> -> seq<byte>, s: Store, ts: seq<Tx>): Store
    decreases |ts|
  {
    if ts == [] then s
    else
      var data := EncodeTx(ts[0]);
      var id := hash(data);
      AddTxs(hash, if Knows(s, Item(1, id)) then s else AddTx(s, id, data, false), ts[1..])
  }

  /** The 80 octets of header, and what follows them. */
  function HeaderOf(data: seq<byte>): seq<byte> {
    if |data| <= HEADER_SIZE then data else data[..HEADER_SIZE]
  }

  function BodyOf(data: seq<byte>): seq<byte> {
    if |data| <= HEADER_SIZE then [] else data[HEADER_SIZE..]
  }

  predicate IsOrphan(s: Store, data: seq<byte>) {
    var parent := DecodeHeader(HeaderOf(data)).parent;
    parent !in s.blocks && parent != NO_PARENT
  }

  /** The height a block gets: quint32 arithmetic. */
  function HeightFor(s: Store, data: seq<byte>): nat {
    var parent := DecodeHeader(HeaderOf(data)).parent;
    if parent in s.blocks then (s.blocks[parent].height + 1) % MAX32 else 0
  }

  /** addBlock: the transactions not yet known, then the header itself. */
  function AddBlock(hash: seq<byte> -> seq<byte>, s: Store, data: seq<byte>, height: nat): Store {
    var raw := HeaderOf(data);
    var item := Item(2, hash(raw));
    var t := AddTxs(hash, s, Transactions(BodyOf(data)));
    t.(cache := t.cache[item := raw],
       queue := t.queue + [item],
       blocks := t.blocks[item.id := Stored(raw, height)])
  }

  /** The storing half of bitcoin_packet_block. */
  function Arrive(hash: seq<byte> -> seq<byte>, s: Store, data: seq<byte>): Store {
    if IsOrphan(s, data) || Knows(s, Item(2, hash(HeaderOf(data)))) then s
    else AddBlock(hash, s, data, HeightFor(s, data))
  }

  /** bitcoin_packet_tx. */
  function ArriveTx(hash: seq<byte> -> seq<byte>, s: Store, data: seq<byte>): Store {
    if Knows(s, Item(1, hash(data))) then s else AddTx(s, hash(data), data, true)
  }

  // ------------------------------------------------------------- the invariant

  /** Every stored block is a root of height 0, or sits one above its stored parent. */
  ghost predicate Forest(blocks: map<Hash, Stored>) {
    forall id <- blocks :: Rooted(blocks, id)
  }

  predicate Rooted(blocks: map<Hash, Stored>, id: Hash)
    requires id in blocks
  {
    var p := ParentOf(blocks[id]);
    if p == NO_PARENT then blocks[id].height == 0
    else p in blocks && blocks[id].height == blocks[p].height + 1
  }

  /** A key is the hash of what is stored under it; the all-zero hash is not used. */
  ghost predicate Addressed(hash: seq<byte> -> seq<byte>, s: Store) {
    && NO_PARENT !in s.blocks
    && (forall id <- s.blocks :: hash(s.blocks[id].raw) == id)
    && (forall id <- s.txs :: hash(s.txs[id]) == id)
    && (forall i <- s.cache :: hash(s.cache[i]) == i.id)
  }

  /** The cache and the queue hold nothing the database does not hold. */
  ghost predicate Backed(s: Store) {
    && (forall i <- s.cache :: InDatabase(s, i))
    && (forall i <- s.queue :: InDatabase(s, i))
  }

  predicate InDatabase(s: Store, i: Item) {
    (i.kind == 1 && i.id in s.txs) || (i.kind == 2 && i.id in s.blocks)
  }

  ghost predicate Consistent(hash: seq<byte> -> seq<byte>, s: Store) {
    Forest(s.blocks) && Addressed(hash, s) && Backed(s)
  }

  lemma AddTxKeeps(hash: seq<byte> -> seq<byte>, s: Store, data: seq<byte>, announce: bool)
    requires Consistent(hash, s)
    ensures Consistent(hash, AddTx(s, hash(data), data, announce))
  {
    hide DecodeHeader, Zeros;
    var t := AddTx(s, hash(data), data, announce);
    assert forall i <- t.queue :: i in s.queue || i == Item(1, hash(data));
  }

  lemma {:induction false} AddTxsKeeps(hash: seq<byte> -> seq<byte>, s: Store, ts: seq<Tx>)
    requires Consistent(hash, s)
    ensures var t := AddTxs(hash, s, ts);
            Consistent(hash, t) && t.blocks == s.blocks && t.queue == s.queue
    decreases |ts|
  {
    hide EncodeTx, Consistent;
    if ts != [] {
      var data := EncodeTx(ts[0]);
      if Knows(s, Item(1, hash(data))) {
        AddTxsKeeps(hash, s, ts[1..]);
      } else {
        AddTxKeeps(hash, s, data, false);
        AddTxsKeeps(hash, AddTx(s, hash(data), data, false), ts[1..]);
      }
    }
  }

  lemma AddTxsBlocks(hash: seq<byte> -> seq<byte>, s: Store, ts: seq<Tx>)
    ensures AddTxs(hash, s, ts).blocks == s.blocks
    decreases |ts|
  {
    hide EncodeTx;
    if ts != [] {
      var data := EncodeTx(ts[0]);
      AddTxsBlocks(hash, if Knows(s, Item(1, hash(data))) then s else AddTx(s, hash(data), data, false), ts[1..]);
    }
  }

  lemma KnownIsStored(hash: seq<byte> -> seq<byte>, s: Store, i: Item)
    requires Consistent(hash, s)
    ensures Knows(s, i) <==> InDatabase(s, i)
  {
  }

  lemma ForestGrows(blocks: map<Hash, Stored>, id: Hash, b: Stored)
    requires Forest(blocks) && id !in blocks
    requires ParentOf(b) == NO_PARENT || ParentOf(b) in blocks
    requires b.height == if ParentOf(b) == NO_PARENT then 0 else blocks[ParentOf(b)].height + 1
    ensures Forest(blocks[id := b])
  {
    hide DecodeHeader, Zeros;
    var m := blocks[id := b];
    forall k <- m ensures Rooted(m, k) {
      if k != id {
        assert Rooted(blocks, k);
      }
    }
  }

  /** A new block keeps the store consistent, and its own height never wraps, while there are fewer
      than 2^32 blocks. */
  lemma ArriveKeeps(hash: seq<byte> -> seq<byte>, s: Store, data: seq<byte>)
    requires Consistent(hash, s) && |s.blocks| < MAX32 && hash(HeaderOf(data)) != NO_PARENT
    ensures Consistent(hash, Arrive(hash, s, data))
    ensures s.blocks.Keys <= Arrive(hash, s, data).blocks.Keys
    ensures !IsOrphan(s, data) ==> hash(HeaderOf(data)) in Arrive(hash, s, data).blocks
  {
    hide DecodeHeader, Zeros, HeaderOf, BodyOf, Transactions, AddTxs, Forest, Addressed, Backed;
    KnownIsStored(hash, s, Item(2, hash(HeaderOf(data))));
    AddTxsBlocks(hash, s, Transactions(BodyOf(data)));
    if !IsOrphan(s, data) && !Knows(s, Item(2, hash(HeaderOf(data)))) {
      NewBlockKeeps(hash, s, data);
    }
  }

  lemma NewBlockKeeps(hash: seq<byte> -> seq<byte>, s: Store, data: seq<byte>)
    requires Consistent(hash, s) && |s.blocks| < MAX32 && hash(HeaderOf(data)) != NO_PARENT
    requires !IsOrphan(s, data) && !Knows(s, Item(2, hash(HeaderOf(data))))
    ensures Consistent(hash, AddBlock(hash, s, data, HeightFor(s, data)))
  {
    hide DecodeHeader, Zeros, HeaderOf, BodyOf, Transactions, AddTxs, Forest;
    var raw := HeaderOf(data);
    var t := AddTxs(hash, s, Transactions(BodyOf(data)));
    AddTxsKeeps(hash, s, Transactions(BodyOf(data)));
    HeightFits(hash, s, data);
    ForestGrows(t.blocks, hash(raw), Stored(raw, HeightFor(s, data)));
    AddHeaderKeeps(hash, t, raw, HeightFor(s, data));
  }

  lemma AddHeaderKeeps(hash: seq<byte> -> seq<byte>, t: Store, raw: seq<byte>, height: nat)
    requires Consistent(hash, t) && hash(raw) != NO_PARENT
    requires Forest(t.blocks[hash(raw) := Stored(raw, height)])
    ensures var item := Item(2, hash(raw));
            Consistent(hash, t.(cache := t.cache[item := raw],
                                queue := t.queue + [item],
                                blocks := t.blocks[item.id := Stored(raw, height)]))
  {
    hide Forest, Zeros;
    var item := Item(2, hash(raw));
    assert forall i <- t.queue + [item] :: i in t.queue || i == item;
  }

  // ------------------------------------------------------------- what is stored

  function TxId(hash: seq<byte> -> seq<byte>, t: Tx): Hash {
    hash(EncodeTx(t))
  }

  function TxIds(hash: seq<byte> -> seq<byte>, ts: seq<Tx>): set<Hash> {
    set i | 0 <= i < |ts| :: TxId(hash, ts[i])
  }

  lemma TxIdsNext(hash: seq<byte> -> seq<byte>, ts: seq<Tx>)
    requires ts != []
    ensures TxIds(hash, ts) == {TxId(hash, ts[0])} + TxIds(hash, ts[1..])
  {
    hide EncodeTx;
    forall i | 0 <= i < |ts| ensures TxId(hash, ts[i]) in {TxId(hash, ts[0])} + TxIds(hash, ts[1..]) {
      if i > 0 {
        assert ts[i] == ts[1..][i - 1];
      }
    }
  }

  /** Exactly these transactions become known, and nothing that was known changes. */
  ghost predicate TxsAdded(s: Store, t: Store, ids: set<Hash>) {
    && t.txs.Keys == s.txs.Keys + ids
    && (forall id <- s.txs :: t.txs[id] == s.txs[id])
    && (forall i <- s.cache :: i in t.cache && t.cache[i] == s.cache[i])
    && (forall i <- t.cache :: i in s.cache || (i.kind == 1 && i.id in ids && t.cache[i] == t.txs[i.id]))
    && (forall id <- ids :: id !in s.txs ==> Item(1, id) in t.cache)
  }

  lemma {:induction false} TxsAreAdded(hash: seq<byte> -> seq<byte>, s: Store, ts: seq<Tx>)
    requires Consistent(hash, s)
    ensures Consistent(hash, AddTxs(hash, s, ts)) && TxsAdded(s, AddTxs(hash, s, ts), TxIds(hash, ts))
    decreases |ts|
  {
    hide EncodeTx, Consistent, TxIds, TxsAdded, Knows, AddTx;
    if ts == [] {
      NoTxsAdded(hash, s);
    } else {
      var id, data := TxId(hash, ts[0]), EncodeTx(ts[0]);
      var t := if Knows(s, Item(1, id)) then s else AddTx(s, id, data, false);
      OneTxAdded(hash, s, data);
      TxsAreAdded(hash, t, ts[1..]);
      TxIdsNext(hash, ts);
      TxsAddedAfter(s, t, AddTxs(hash, t, ts[1..]), id, TxIds(hash, ts[1..]));
    }
  }

  lemma NoTxsAdded(hash: seq<byte> -> seq<byte>, s: Store)
    ensures TxsAdded(s, AddTxs(hash, s, []), TxIds(hash, []))
  {
  }

  lemma OneTxAdded(hash: seq<byte> -> seq<byte>, s: Store, data: seq<byte>)
    requires Consistent(hash, s)
    ensures var id := hash(data);
            var t := if Knows(s, Item(1, id)) then s else AddTx(s, id, data, false);
            Consistent(hash, t) && TxsAdded(s, t, {id})
  {
    hide Consistent;
    KnownIsStored(hash, s, Item(1, hash(data)));
    AddTxKeeps(hash, s, data, false);
  }

  lemma TxsAddedAfter(s: Store, t: Store, u: Store, id: Hash, ids: set<Hash>)
    requires TxsAdded(s, t, {id}) && TxsAdded(t, u, ids)
    ensures TxsAdded(s, u, {id} + ids)
  {
  }

  /** A block that arrives behind its parent and is not known: it is stored by the hash of its header, at
      height 0 behind no parent and one above its parent else; all its transactions become known, and
      nothing else does; it alone joins the announcements; and its header is what is handed out for it. A
      block that is an orphan, or known, changes nothing. */
  lemma BlockArrives(hash: seq<byte> -> seq<byte>, s: Store, data: seq<byte>)
    requires NeverZero(hash) && Consistent(hash, s) && |s.blocks| < MAX32
    ensures var id, parent := hash(HeaderOf(data)), DecodeHeader(HeaderOf(data)).parent;
            var t := Arrive(hash, s, data);
            if (parent != NO_PARENT && parent !in s.blocks) || id in s.blocks then t == s
            else
              var height := if parent == NO_PARENT then 0 else s.blocks[parent].height + 1;
              && t.blocks == s.blocks[id := Stored(HeaderOf(data), height)]
              && t.queue == s.queue + [Item(2, id)]
              && t.txs.Keys == s.txs.Keys + TxIds(hash, Transactions(BodyOf(data)))
              && (forall x <- s.txs :: t.txs[x] == s.txs[x]) && (forall x <- t.txs :: hash(t.txs[x]) == x)
              && GetInventory(t, Item(2, id)) == HeaderOf(data)
              && forall x <- s.cache :: x in t.cache && t.cache[x] == s.cache[x]
  {
    hide Transactions, EncodeTx, HeaderOf, BodyOf, DecodeHeader, AddTxs, TxIds, Forest, Zeros;
    var id, parent := hash(HeaderOf(data)), DecodeHeader(HeaderOf(data)).parent;
    KnownIsStored(hash, s, Item(2, id));
    assert NO_PARENT !in s.blocks;
    if !IsOrphan(s, data) && id !in s.blocks {
      HeightFits(hash, s, data);
      TxsAreAdded(hash, s, Transactions(BodyOf(data)));
      AddTxsKeeps(hash, s, Transactions(BodyOf(data)));
    }
  }

  /** A transaction that arrives by itself: it becomes known and joins the announcements, unless it was
      known; and nothing else changes. */
  lemma TxArrives(hash: seq<byte> -> seq<byte>, s: Store, data: seq<byte>)
    requires Consistent(hash, s)
    ensures var id, t := hash(data), ArriveTx(hash, s, data);
            if id in s.txs then t == s
            else t == s.(txs := s.txs[id := data], queue := s.queue + [Item(1, id)], cache := s.cache[Item(1, id) := data])
  {
    hide Consistent;
    KnownIsStored(hash, s, Item(1, hash(data)));
  }

  // --------------------------------------------------------- heights and chains

  /** A block and everything below it. */
  ghost function Chain(blocks: map<Hash, Stored>, id: Hash): set<Hash>
    requires Forest(blocks) && id in blocks
    decreases blocks[id].height
  {
    assert Rooted(blocks, id);
    var p := ParentOf(blocks[id]);
    if p == NO_PARENT then {id} else {id} + Chain(blocks, p)
  }

  lemma {:induction false} ChainSize(blocks: map<Hash, Stored>, id: Hash)
    requires Forest(blocks) && id in blocks
    ensures Chain(blocks, id) <= blocks.Keys
    ensures forall a <- Chain(blocks, id) :: blocks[a].height <= blocks[id].height
    ensures |Chain(blocks, id)| == blocks[id].height + 1
    decreases blocks[id].height
  {
    hide DecodeHeader, Zeros;
    assert Rooted(blocks, id);
    var p := ParentOf(blocks[id]);
    if p != NO_PARENT {
      ChainSize(blocks, p);
      assert id !in Chain(blocks, p);
    }
  }

  lemma SubsetSize<T>(a: set<T>, b: set<T>)
    requires a <= b
    ensures |a| <= |b|
    decreases |a|
  {
    if a != {} {
      var x :| x in a;
      SubsetSize(a - {x}, b - {x});
    }
  }

  /** Heights stay below the number of blocks. */
  lemma HeightBelowSize(blocks: map<Hash, Stored>, id: Hash)
    requires Forest(blocks) && id in blocks
    ensures blocks[id].height < |blocks|
  {
    ChainSize(blocks, id);
    SubsetSize(Chain(blocks, id), blocks.Keys);
    assert |blocks.Keys| == |blocks|;
  }

  lemma HeightFits(hash: seq<byte> -> seq<byte>, s: Store, data: seq<byte>)
    requires Consistent(hash, s) && |s.blocks| < MAX32 && !IsOrphan(s, data)
    ensures var p := DecodeHeader(HeaderOf(data)).parent;
            HeightFor(s, data) == if p == NO_PARENT then 0 else s.blocks[p].height + 1
  {
    hide DecodeHeader, HeaderOf, Forest;
    var p := DecodeHeader(HeaderOf(data)).parent;
    if p in s.blocks {
      HeightBelowSize(s.blocks, p);
    }
  }

  /** The block k steps below id. */
  ghost function Ancestor(blocks: map<Hash, Stored>, id: Hash, k: nat): (a: Hash)
    requires Forest(blocks) && id in blocks && k <= blocks[id].height
    ensures a in blocks && blocks[a].height == blocks[id].height - k
    decreases k
  {
    assert Rooted(blocks, id);
    if k == 0 then id else Ancestor(blocks, ParentOf(blocks[id]), k - 1)
  }

  lemma {:induction false} AncestorStep(blocks: map<Hash, Stored>, id: Hash, k: nat)
    requires Forest(blocks) && id in blocks && k < blocks[id].height
    ensures Ancestor(blocks, id, k + 1) == ParentOf(blocks[Ancestor(blocks, id, k)])
    decreases k
  {
    hide DecodeHeader, Zeros;
    assert Rooted(blocks, id);
    if k > 0 {
      AncestorStep(blocks, ParentOf(blocks[id]), k - 1);
    }
  }

  // -------------------------------------------------------------------- runs

  datatype Event = BlockCame(data: seq<byte>) | TxCame(data: seq<byte>) | QueueSent | Fetched(item: Item) | Evicted(item: Item)

  function After(hash: seq<byte> -> seq<byte>, s: Store, e: Event): Store {
    match e
    case BlockCame(data) => Arrive(hash, s, data)
    case TxCame(data) => ArriveTx(hash, s, data)
    case QueueSent => s.(queue := [])
    case Fetched(item) => Fetch(s, item)
    case Evicted(item) => s.(cache := s.cache - {item})
  }

  function Run(hash: seq<byte> -> seq<byte>, s: Store, es: seq<Event>): Store
    decreases |es|
  {
    if es == [] then s else Run(hash, After(hash, s, es[0]), es[1..])
  }

  ghost predicate NeverZero(hash: seq<byte> -> seq<byte>) {
    forall x :: hash(x) != NO_PARENT
  }

  lemma {:induction false} RunGrows(hash: seq<byte> -> seq<byte>, s: Store, es: seq<Event>)
    ensures |s.blocks| <= |Run(hash, s, es).blocks|
    decreases |es|
  {
    hide IsOrphan, Knows, HeaderOf, BodyOf, Transactions, AddTxs, HeightFor;
    if es != [] {
      if es[0].BlockCame? {
        AddTxsBlocks(hash, s, Transactions(BodyOf(es[0].data)));
      }
      RunGrows(hash, After(hash, s, es[0]), es[1..]);
    }
  }

  /** After any run that stores fewer than 2^32 blocks, the stored blocks are a forest with correct
      heights, and every key is the hash of what it names. */
  lemma {:induction false} RunsAreConsistent(hash: seq<byte> -> seq<byte>, s: Store, es: seq<Event>)
    requires NeverZero(hash) && Consistent(hash, s) && |Run(hash, s, es).blocks| < MAX32
    ensures Consistent(hash, Run(hash, s, es))
    decreases |es|
  {
    hide Arrive, ArriveTx, Consistent;
    RunGrows(hash, s, es);
    if es != [] {
      StepKeeps(hash, s, es[0]);
      RunsAreConsistent(hash, After(hash, s, es[0]), es[1..]);
    }
  }

  lemma StepKeeps(hash: seq<byte> -> seq<byte>, s: Store, e: Event)
    requires NeverZero(hash) && Consistent(hash, s) && |s.blocks| < MAX32
    ensures Consistent(hash, After(hash, s, e))
  {
    hide Arrive, Consistent, Fetch, AddTx, Knows;
    match e {
      case BlockCame(data) => ArriveKeeps(hash, s, data);
      case TxCame(data) => AddTxKeeps(hash, s, data, true);
      case QueueSent => CacheAndQueueKeep(hash, s, Item(0, []));
      case Fetched(item) => CacheAndQueueKeep(hash, s, item);
      case Evicted(item) => CacheAndQueueKeep(hash, s, item);
    }
  }

  lemma CacheAndQueueKeep(hash: seq<byte> -> seq<byte>, s: Store, item: Item)
    requires Consistent(hash, s)
    ensures Consistent(hash, s.(queue := []))
    ensures Consistent(hash, Fetch(s, item))
    ensures Consistent(hash, s.(cache := s.cache - {item}))
  {
    hide Forest;
  }

  /** Handing out a transaction puts it into the cache, and that is all that handing out changes. */
  lemma FetchedIsCached(s: Store, i: Item)
    ensures Fetch(s, i) == s.(cache := if i.kind == 1 && i.id in s.txs && i !in s.cache then s.cache[i := s.txs[i.id]] else s.cache)
    ensures GetInventory(Fetch(s, i), i) == GetInventory(s, i)
  {
  }

  /** In particular when the database started empty. */
  lemma RunsFromEmpty(hash: seq<byte> -> seq<byte>, es: seq<Event>)
    requires NeverZero(hash) && |Run(hash, EMPTY, es).blocks| < MAX32
    ensures Consistent(hash, Run(hash, EMPTY, es))
  {
    hide Run;
    assert Consistent(hash, EMPTY);
    RunsAreConsistent(hash, EMPTY, es);
  }

  /** What is handed out for a known item hashes to its name; the one exception is a block that the
      cache has dropped, for which nothing is handed out. */
  lemma InventoryIsGenuine(hash: seq<byte> -> seq<byte>, s: Store, i: Item)
    requires Consistent(hash, s) && Knows(s, i)
    ensures i.kind == 1 || i.kind == 2
    ensures hash(GetInventory(s, i)) == i.id || (i.kind == 2 && i !in s.cache && GetInventory(s, i) == [])
  {
    hide Forest;
  }
}
