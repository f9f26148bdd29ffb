/** Inventory messages: how lists of items are written and read, how an announcement is sorted into
    what to ask for now and what to ask for later, and how the download of announced blocks proceeds
    one answer at a time. */
module BitcoinInventory {
  import opened Bytes
  import opened BitcoinTx
  import opened BitcoinObjects
  import opened BitcoinStore

  datatype Option<T> = None | Some(value: T)

  // ------------------------------------------------------------------- layout

  function ItemBytes(i: Item): seq<byte> {
    Little(4, i.kind) + i.id
  }

  function ItemsBytes(items: seq<Item>): seq<byte> {
    if items == [] then [] else ItemBytes(items[0]) + ItemsBytes(items[1..])
  }

  function InvBytes(items: seq<Item>): seq<byte> {
    EncodeInt(|items|) + ItemsBytes(items)
  }

  const ITEM_SIZE := 36

  function DecodeItem(s: seq<byte>): (Item, seq<byte>) {
    var (kind, s1) := TakeLittle(4, s);
    var (id, rest) := TakeData(32, s1);
    (Item(kind, id), rest)
  }

  function DecodeItems(n: nat, s: seq<byte>): (seq<Item>, seq<byte>)
    decreases n
  {
    if n == 0 then ([], s)
    else
      var (i, s1) := DecodeItem(s);
      var (items, rest) := DecodeItems(n - 1, s1);
      ([i] + items, rest)
  }

  /** The count is a signed 64-bit integer; a packet shorter than 36 octets an item is dropped. The
      octets of the count itself are not accounted for. */
  function CountOf(pkt: seq<byte>): int {
    Signed(8, DecodeInt(pkt).0)
  }

  function ParseInv(pkt: seq<byte>): seq<Item> {
    var count := CountOf(pkt);
    if |pkt| < ITEM_SIZE * count || count < 0 then [] else DecodeItems(count, DecodeInt(pkt).1).0
  }

  predicate ItemOk(i: Item) {
    i.kind < MAX32 && |i.id| == 32
  }

  lemma ItemRoundTrip(i: Item, rest: seq<byte>)
    requires ItemOk(i)
    ensures DecodeItem(ItemBytes(i) + rest) == (i, rest)
  {
    hide Little, FromLittle;
    Pow256Values();
    assert ItemBytes(i) + rest == Little(4, i.kind) + (i.id + rest);
    TakeLittleOf(4, i.kind, i.id + rest);
    TakeDataOf(i.id, rest);
  }

  lemma {:induction false} ItemsRoundTrip(items: seq<Item>, rest: seq<byte>)
    requires forall i <- items :: ItemOk(i)
    ensures DecodeItems(|items|, ItemsBytes(items) + rest) == (items, rest)
    ensures |ItemsBytes(items)| == ITEM_SIZE * |items|
    decreases |items|
  {
    hide DecodeItem, ItemBytes;
    if items == [] {
      assert ItemsBytes(items) + rest == rest;
    } else {
      assert ItemOk(items[0]);
      assert forall i <- items[1..] :: i in items;
      var tail := ItemsBytes(items[1..]) + rest;
      ItemRoundTrip(items[0], tail);
      ItemsRoundTrip(items[1..], rest);
      assert ItemBytes(items[0]) + tail == (ItemBytes(items[0]) + ItemsBytes(items[1..])) + rest;
      assert |ItemBytes(items[0])| == ITEM_SIZE by {
        ItemSize(items[0]);
      }
      assert [items[0]] + items[1..] == items;
    }
  }

  lemma ItemSize(i: Item)
    requires ItemOk(i)
    ensures |ItemBytes(i)| == ITEM_SIZE
  {
  }

  /** An announcement or request is read as the items it was written for. */
  lemma InvRoundTrip(items: seq<Item>)
    requires |items| < 0x8000_0000 && forall i <- items :: ItemOk(i)
    ensures ParseInv(InvBytes(items)) == items
  {
    hide ItemsBytes, DecodeItems, EncodeInt, DecodeInt;
    Pow256Values();
    IntRoundTrip(|items|, ItemsBytes(items));
    assert ItemsBytes(items) + [] == ItemsBytes(items);
    ItemsRoundTrip(items, []);
  }

  // -------------------------------------------------------- sorting an announcement

  /** The loop of bitcoin_packet_inv: unknown items are asked for at once, except that only the first
      block is, and only if no other block is waiting; every unknown block joins the list. */
  datatype Sorted = Sorted(todo: seq<Hash>, wanted: seq<Item>)

  function Sort(s: Store, todo: seq<Hash>, items: seq<Item>): Sorted
    decreases |items|
  {
    if items == [] then Sorted(todo, [])
    else
      var i := items[0];
      if Knows(s, i) then Sort(s, todo, items[1..])
      else if i.kind == 2 && todo != [] then Sort(s, todo + [i.id], items[1..])
      else
        var r := Sort(s, if i.kind == 2 then todo + [i.id] else todo, items[1..]);
        r.(wanted := [i] + r.wanted)
  }

  function UnknownBlocks(s: Store, items: seq<Item>): seq<Hash> {
    if items == [] then []
    else if !Knows(s, items[0]) && items[0].kind == 2 then [items[0].id] + UnknownBlocks(s, items[1..])
    else UnknownBlocks(s, items[1..])
  }

  function UnknownOthers(s: Store, items: seq<Item>): seq<Item> {
    if items == [] then []
    else if !Knows(s, items[0]) && items[0].kind != 2 then [items[0]] + UnknownOthers(s, items[1..])
    else UnknownOthers(s, items[1..])
  }

  function OthersOf(items: seq<Item>): seq<Item> {
    if items == [] then []
    else if items[0].kind != 2 then [items[0]] + OthersOf(items[1..])
    else OthersOf(items[1..])
  }

  function BlocksOf(items: seq<Item>): seq<Hash> {
    if items == [] then []
    else if items[0].kind == 2 then [items[0].id] + BlocksOf(items[1..])
    else BlocksOf(items[1..])
  }

  /** Nothing announced is forgotten and nothing is asked for twice: all unknown blocks are queued in
      order, all other unknown items are asked for in order, and of the blocks exactly the first is
      asked for, provided that none was waiting. */
  lemma {:induction false} SortedCompletely(s: Store, todo: seq<Hash>, items: seq<Item>)
    ensures var r := Sort(s, todo, items);
            var blocks := UnknownBlocks(s, items);
            && r.todo == todo + blocks
            && OthersOf(r.wanted) == UnknownOthers(s, items)
            && BlocksOf(r.wanted) == if todo == [] && blocks != [] then [blocks[0]] else []
    decreases |items|
  {
    hide Knows;
    if items != [] {
      var i := items[0];
      if Knows(s, i) {
        SortedCompletely(s, todo, items[1..]);
      } else if i.kind == 2 {
        SortedCompletely(s, todo + [i.id], items[1..]);
        assert (todo + [i.id]) + UnknownBlocks(s, items[1..]) == todo + UnknownBlocks(s, items);
        OneMore(i, Sort(s, todo + [i.id], items[1..]).wanted);
      } else {
        SortedCompletely(s, todo, items[1..]);
        OneMore(i, Sort(s, todo, items[1..]).wanted);
      }
    }
  }

  lemma OneMore(i: Item, items: seq<Item>)
    ensures OthersOf([i] + items) == if i.kind != 2 then [i] + OthersOf(items) else OthersOf(items)
    ensures BlocksOf([i] + items) == if i.kind == 2 then [i.id] + BlocksOf(items) else BlocksOf(items)
  {
    assert ([i] + items)[1..] == items;
  }

  // ---------------------------------------------------------- answering a request

  /** The loop of bitcoin_packet_getdata: what is handed out, and what is reported as not found.
      Handing out a transaction puts it into the cache. */
  datatype Reply = Reply(item: Item, data: seq<byte>)

  datatype Served = Served(store: Store, replies: seq<Reply>, missing: seq<Item>)

  function Serve(s: Store, items: seq<Item>): Served
    decreases |items|
  {
    if items == [] then Served(s, [], [])
    else if Knows(s, items[0]) then
      var r := Serve(Fetch(s, items[0]), items[1..]);
      r.(replies := [Reply(items[0], GetInventory(s, items[0]))] + r.replies)
    else
      var r := Serve(s, items[1..]);
      r.(missing := [items[0]] + r.missing)
  }

  function ItemsOf(replies: seq<Reply>): seq<Item> {
    seq(|replies|, i requires 0 <= i < |replies| => replies[i].item)
  }

  predicate Genuine(hash: seq<byte> -> seq<byte>, r: Reply) {
    (r.item.kind == 1 && hash(r.data) == r.item.id)
    || (r.item.kind == 2 && (r.data == [] || hash(r.data) == r.item.id))
  }

  function Known(s: Store, items: seq<Item>): seq<Item> {
    if items == [] then []
    else if Knows(s, items[0]) then [items[0]] + Known(s, items[1..])
    else Known(s, items[1..])
  }

  function Unknown(s: Store, items: seq<Item>): seq<Item> {
    if items == [] then []
    else if Knows(s, items[0]) then Unknown(s, items[1..])
    else [items[0]] + Unknown(s, items[1..])
  }

  lemma {:induction false} FetchChangesNothing(s: Store, i: Item, items: seq<Item>)
    ensures Known(Fetch(s, i), items) == Known(s, items) && Unknown(Fetch(s, i), items) == Unknown(s, items)
    decreases |items|
  {
    if items != [] {
      FetchChangesNothing(s, i, items[1..]);
    }
  }

  /** Every requested item is answered, in order: the known ones with data that hashes to their name
      (a transaction, a block header, or nothing for a header that left the cache), the others as not
      found. */
  lemma {:induction false} ServedCompletely(hash: seq<byte> -> seq<byte>, s: Store, items: seq<Item>)
    requires Consistent(hash, s)
    ensures var r := Serve(s, items);
            && Consistent(hash, r.store) && r.store.blocks == s.blocks && r.store.queue == s.queue
            && ItemsOf(r.replies) == Known(s, items) && r.missing == Unknown(s, items)
            && (forall x <- r.replies :: Genuine(hash, x))
            && (forall x <- r.replies :: x.item in s.cache ==> hash(x.data) == x.item.id)
            && s.cache.Keys <= r.store.cache.Keys
            && (forall i <- Known(s, items) :: i.kind == 1 ==> i in r.store.cache)
    decreases |items|
  {
    hide Consistent, Knows, Fetch, GetInventory;
    if items != [] {
      var i := items[0];
      if Knows(s, i) {
        FetchKeeps(hash, s, i);
        InventoryIsGenuine(hash, s, i);
        FetchChangesNothing(s, i, items[1..]);
        ServedCompletely(hash, Fetch(s, i), items[1..]);
        var r := Serve(Fetch(s, i), items[1..]);
        assert ItemsOf([Reply(i, GetInventory(s, i))] + r.replies) == [i] + ItemsOf(r.replies);
      } else {
        ServedCompletely(hash, s, items[1..]);
      }
    }
  }

  lemma FetchKeeps(hash: seq<byte> -> seq<byte>, s: Store, i: Item)
    requires Consistent(hash, s)
    ensures Consistent(hash, Fetch(s, i)) && Fetch(s, i).blocks == s.blocks && Fetch(s, i).queue == s.queue
    ensures i.kind == 1 && Knows(s, i) ==> hash(GetInventory(s, i)) == i.id
    ensures i in s.cache ==> hash(GetInventory(s, i)) == i.id
    ensures s.cache.Keys <= Fetch(s, i).cache.Keys && (i.kind == 1 && Knows(s, i) ==> i in Fetch(s, i).cache)
  {
    hide Forest;
  }

  // ------------------------------------------------------------- the download list

  /** How many entries at the front of the list have meanwhile arrived. */
  function SkipKnown(s: Store, todo: seq<Hash>): (k: nat)
    ensures k <= |todo|
    ensures forall i | 0 <= i < k :: Knows(s, Item(2, todo[i]))
    ensures k < |todo| ==> !Knows(s, Item(2, todo[k]))
  {
    if todo != [] && Knows(s, Item(2, todo[0])) then 1 + SkipKnown(s, todo[1..]) else 0
  }

  datatype Download = Download(store: Store, todo: seq<Hash>, asked: Option<Hash>)

  /** bitcoin_packet_block: store the block, then ask for the next unknown one on the list. */
  function OnBlock(hash: seq<byte> -> seq<byte>, s: Store, todo: seq<Hash>, data: seq<byte>): Download {
    var t := Arrive(hash, s, data);
    var k := SkipKnown(t, todo);
    if k == |todo| then Download(t, [], None) else Download(t, todo[k + 1..], Some(todo[k]))
  }

  function Asked(d: Download): seq<Hash> {
    if d.asked.Some? then [d.asked.value] else []
  }

  /** A connection with a peer that answers every request, in the order of the requests, with the block
      asked for. pending: the requests not answered yet. */
  datatype Dialogue = Dialogue(store: Store, todo: seq<Hash>, pending: seq<Hash>)

  function Answer(hash: seq<byte> -> seq<byte>, d: Dialogue, answer: Hash -> seq<byte>): Dialogue
    requires d.pending != []
  {
    var n := OnBlock(hash, d.store, d.todo, answer(d.pending[0]));
    Dialogue(n.store, n.todo, d.pending[1..] + Asked(n))
  }

  function AnswerAll(hash: seq<byte> -> seq<byte>, d: Dialogue, answer: Hash -> seq<byte>): Dialogue
    decreases 2 * |d.todo| + |d.pending|
  {
    if d.pending == [] then d else AnswerAll(hash, Answer(hash, d, answer), answer)
  }

  /** An announcement in the middle of it: the list grows, and its first block is asked for if the list
      was empty. */
  function Announce(d: Dialogue, items: seq<Item>): Dialogue {
    var r := Sort(d.store, d.todo, items);
    Dialogue(d.store, r.todo, d.pending + BlocksOf(r.wanted))
  }

  /** The answers are the right blocks, and every parent is stored, or earlier in the list. */
  ghost predicate Servable(hash: seq<byte> -> seq<byte>, s: Store, ids: seq<Hash>, answer: Hash -> seq<byte>) {
    && (forall id <- ids :: hash(HeaderOf(answer(id))) == id)
    && (forall k | 0 <= k < |ids| :: ParentReady(s, ids[..k], answer(ids[k])))
  }

  predicate ParentReady(s: Store, before: seq<Hash>, data: seq<byte>) {
    var p := DecodeHeader(HeaderOf(data)).parent;
    p == NO_PARENT || p in s.blocks || p in before
  }

  /** The download finishes: with such a peer every block asked for or on the list ends up stored, in a
      consistent store that has lost nothing, and nothing is left to ask for. */
  lemma {:induction false} DownloadCompletes(hash: seq<byte> -> seq<byte>, d: Dialogue, answer: Hash -> seq<byte>)
    requires NeverZero(hash) && Consistent(hash, d.store) && (d.pending == [] ==> d.todo == [])
    requires Servable(hash, d.store, d.pending + d.todo, answer)
    requires |AnswerAll(hash, d, answer).store.blocks| < MAX32
    ensures var e := AnswerAll(hash, d, answer);
            && Consistent(hash, e.store) && e.todo == [] && e.pending == []
            && d.store.blocks.Keys <= e.store.blocks.Keys
            && forall id <- d.pending + d.todo :: id in e.store.blocks
    decreases 2 * |d.todo| + |d.pending|
  {
    hide Answer, Consistent, Servable, NeverZero;
    DialogueGrows(hash, d, answer);
    if d.pending != [] {
      AnswerStored(hash, d, answer);
      DownloadCompletes(hash, Answer(hash, d, answer), answer);
    }
  }

  /** One answer: the block asked for is stored, and so is everything the list skipped. */
  lemma AnswerStored(hash: seq<byte> -> seq<byte>, d: Dialogue, answer: Hash -> seq<byte>)
    requires NeverZero(hash) && Consistent(hash, d.store) && d.pending != [] && |d.store.blocks| < MAX32
    requires Servable(hash, d.store, d.pending + d.todo, answer)
    ensures var n := Answer(hash, d, answer);
            && 2 * |n.todo| + |n.pending| < 2 * |d.todo| + |d.pending|
            && Consistent(hash, n.store) && d.store.blocks.Keys <= n.store.blocks.Keys
            && (n.pending == [] ==> n.todo == [])
            && Servable(hash, n.store, n.pending + n.todo, answer)
            && forall id <- d.pending + d.todo :: id in n.store.blocks || id in n.pending + n.todo
  {
    hide Arrive, Consistent, Servable, Knows, SkipKnown, HeaderOf, IsOrphan, NeverZero;
    var a, ids := d.pending[0], d.pending + d.todo;
    FirstIsReady(hash, d.store, ids, answer);
    ArriveKeeps(hash, d.store, answer(a));
    var t := Arrive(hash, d.store, answer(a));
    var k := SkipKnown(t, d.todo);
    SkippedAreStored(hash, t, d.todo);
    var n := Answer(hash, d, answer);
    NextRequests(d.pending[1..], d.todo, k);
    assert n.pending + n.todo == d.pending[1..] + d.todo[k..];
    DropSkipped(hash, d.store, t, d.pending, d.todo, k, answer);
    forall id <- ids ensures id in t.blocks || id in d.pending[1..] + d.todo[k..] {
      StoredOrListed(d.pending, d.todo, k, id);
    }
  }

  lemma NextRequests(pending: seq<Hash>, todo: seq<Hash>, k: nat)
    requires k <= |todo|
    ensures k < |todo| ==> (pending + [todo[k]]) + todo[k + 1..] == pending + todo[k..]
    ensures k == |todo| ==> (pending + []) + [] == pending + todo[k..]
  {
  }

  lemma StoredOrListed(pending: seq<Hash>, todo: seq<Hash>, k: nat, id: Hash)
    requires pending != [] && k <= |todo| && id in pending + todo
    ensures id == pending[0] || id in todo[..k] || id in pending[1..] + todo[k..]
  {
    if id in pending {
      assert pending == [pending[0]] + pending[1..];
    } else {
      assert todo == todo[..k] + todo[k..];
    }
  }

  /** Blocks that are stored meanwhile can be left out of the list. */
  lemma DropSkipped(hash: seq<byte> -> seq<byte>, s: Store, t: Store, pending: seq<Hash>, todo: seq<Hash>, k: nat,
                    answer: Hash -> seq<byte>)
    requires pending != [] && k <= |todo| && Servable(hash, s, pending + todo, answer)
    requires s.blocks.Keys <= t.blocks.Keys && pending[0] in t.blocks && forall i | 0 <= i < k :: todo[i] in t.blocks
    ensures Servable(hash, t, pending[1..] + todo[k..], answer)
  {
    hide DecodeHeader, HeaderOf;
    var ids, rest := pending + todo, pending[1..] + todo[k..];
    var m := |pending| - 1;
    forall j | 0 <= j < |rest| ensures rest[j] in ids && ParentReady(t, rest[..j], answer(rest[j])) {
      var i := if j < m then j + 1 else j + 1 + k;
      assert rest[j] == ids[i] && ParentReady(s, ids[..i], answer(ids[i]));
      BeforeStays(pending, todo, k, j);
    }
  }

  lemma BeforeStays(pending: seq<Hash>, todo: seq<Hash>, k: nat, j: nat)
    requires pending != [] && k <= |todo| && j < |pending| - 1 + |todo| - k
    ensures var m := |pending| - 1;
            var i := if j < m then j + 1 else j + 1 + k;
            forall p <- (pending + todo)[..i] ::
              p == pending[0] || p in todo[..k] || p in (pending[1..] + todo[k..])[..j]
  {
    var m := |pending| - 1;
    var ids, rest := pending + todo, pending[1..] + todo[k..];
    var i := if j < m then j + 1 else j + 1 + k;
    forall x | 0 <= x < i ensures ids[x] == pending[0] || ids[x] in todo[..k] || ids[x] in rest[..j] {
      if 0 < x <= m {
        assert rest[..j][x - 1] == ids[x];
      } else if m + k < x {
        assert rest[..j][x - 1 - k] == ids[x];
      } else if m < x {
        assert todo[..k][x - 1 - m] == ids[x];
      }
    }
  }

  lemma FirstIsReady(hash: seq<byte> -> seq<byte>, s: Store, ids: seq<Hash>, answer: Hash -> seq<byte>)
    requires Servable(hash, s, ids, answer) && ids != [] && NeverZero(hash)
    ensures hash(HeaderOf(answer(ids[0]))) == ids[0] && ids[0] != NO_PARENT
    ensures !IsOrphan(s, answer(ids[0]))
  {
    hide DecodeHeader, HeaderOf;
    assert ids[0] in ids && ParentReady(s, ids[..0], answer(ids[0]));
  }

  lemma SkippedAreStored(hash: seq<byte> -> seq<byte>, s: Store, todo: seq<Hash>)
    requires Consistent(hash, s)
    ensures forall i | 0 <= i < SkipKnown(s, todo) :: todo[i] in s.blocks
  {
    hide Knows, Consistent;
    forall i | 0 <= i < SkipKnown(s, todo) ensures todo[i] in s.blocks {
      KnownIsStored(hash, s, Item(2, todo[i]));
    }
  }

  lemma {:induction false} DialogueGrows(hash: seq<byte> -> seq<byte>, d: Dialogue, answer: Hash -> seq<byte>)
    ensures |d.store.blocks| <= |AnswerAll(hash, d, answer).store.blocks|
    decreases 2 * |d.todo| + |d.pending|
  {
    hide After, SkipKnown;
    if d.pending != [] {
      var data := answer(d.pending[0]);
      RunGrows(hash, d.store, [BlockCame(data)]);
      OneEvent(hash, d.store, data);
      DialogueGrows(hash, Answer(hash, d, answer), answer);
    }
  }

  lemma OneEvent(hash: seq<byte> -> seq<byte>, s: Store, data: seq<byte>)
    ensures Run(hash, s, [BlockCame(data)]) == Arrive(hash, s, data)
  {
    hide Arrive;
    assert [BlockCame(data)][1..] == [];
  }

  /** From announcement to store, whatever is being downloaded already: a peer that announces blocks with
      their parents stored, under way or announced before them, and answers what it is asked, gets all of
      them stored, behind everything that was under way. */
  lemma AnnouncedBlocksArrive(hash: seq<byte> -> seq<byte>, d: Dialogue, items: seq<Item>, answer: Hash -> seq<byte>)
    requires NeverZero(hash) && Consistent(hash, d.store) && (d.pending == [] ==> d.todo == [])
    requires Servable(hash, d.store, d.pending + d.todo + UnknownBlocks(d.store, items), answer)
    requires |AnswerAll(hash, Announce(d, items), answer).store.blocks| < MAX32
    ensures var e := AnswerAll(hash, Announce(d, items), answer);
            && Consistent(hash, e.store) && e.todo == [] && e.pending == []
            && (forall id <- d.pending + d.todo :: id in e.store.blocks)
            && forall i <- items :: i.kind == 2 ==> i.id in e.store.blocks
  {
    hide Consistent, Servable, Announce, NeverZero, AnswerAll, UnknownBlocks;
    AnnouncedServable(hash, d, items, answer);
    DownloadCompletes(hash, Announce(d, items), answer);
    forall i <- items | i.kind == 2 ensures i.id in AnswerAll(hash, Announce(d, items), answer).store.blocks {
      UnknownListed(hash, d.store, items, i);
    }
  }

  /** Where the announcement leaves the list and the requests. */
  lemma AnnouncedServable(hash: seq<byte> -> seq<byte>, d: Dialogue, items: seq<Item>, answer: Hash -> seq<byte>)
    requires d.pending == [] ==> d.todo == []
    requires Servable(hash, d.store, d.pending + d.todo + UnknownBlocks(d.store, items), answer)
    ensures var n := Announce(d, items);
            && n.store == d.store && (n.pending == [] ==> n.todo == [])
            && Servable(hash, n.store, n.pending + n.todo, answer)
            && d.pending <= n.pending && n.todo == d.todo + UnknownBlocks(d.store, items)
  {
    hide Servable, Sort, UnknownBlocks, BlocksOf, OthersOf, UnknownOthers;
    SortedCompletely(d.store, d.todo, items);
    var more := UnknownBlocks(d.store, items);
    Listed(d.pending, d.todo, more);
    if d.todo == [] && more != [] {
      FirstTwiceServable(hash, d.store, d.pending, more, answer);
    }
  }

  lemma Listed(pending: seq<Hash>, todo: seq<Hash>, more: seq<Hash>)
    ensures todo == [] ==> todo + more == more && pending + todo + more == pending + more
    ensures pending + [] == pending && pending + todo + more == pending + (todo + more)
    ensures more != [] ==> pending <= pending + [more[0]]
    ensures more == [] ==> todo + more == todo
  {
  }

  /** The block asked for at once is still the head of the list. */
  lemma FirstTwiceServable(hash: seq<byte> -> seq<byte>, s: Store, pending: seq<Hash>, ids: seq<Hash>, answer: Hash -> seq<byte>)
    requires ids != [] && Servable(hash, s, pending + ids, answer)
    ensures Servable(hash, s, pending + [ids[0]] + ids, answer)
  {
    hide DecodeHeader, HeaderOf;
    var all, twice := pending + ids, pending + [ids[0]] + ids;
    forall k | 0 <= k < |twice| ensures twice[k] in all && ParentReady(s, twice[..k], answer(twice[k])) {
      var i := if k <= |pending| then k else k - 1;
      TwiceBefore(pending, ids, k, i);
      assert ParentReady(s, all[..i], answer(all[i]));
    }
  }

  lemma TwiceBefore(pending: seq<Hash>, ids: seq<Hash>, k: nat, i: nat)
    requires ids != [] && k < |pending| + 1 + |ids| && i == if k <= |pending| then k else k - 1
    ensures var all, twice := pending + ids, pending + [ids[0]] + ids;
            && twice[k] == all[i]
            && forall p <- all[..i] :: p in twice[..k]
  {
    var all, twice := pending + ids, pending + [ids[0]] + ids;
    if k <= |pending| {
      assert all[..i] == twice[..k];
    } else {
      assert twice[..k] == (pending + [ids[0]]) + ids[..k - |pending| - 1];
      assert all[..i] == pending + ids[..i - |pending|];
    }
  }

  lemma {:induction false} UnknownListed(hash: seq<byte> -> seq<byte>, s: Store, items: seq<Item>, i: Item)
    requires Consistent(hash, s) && i in items && i.kind == 2
    ensures i.id in s.blocks || i.id in UnknownBlocks(s, items)
    decreases |items|
  {
    hide Knows, Consistent;
    if items[0] == i {
      KnownIsStored(hash, s, i);
    } else {
      UnknownListed(hash, s, items[1..], i);
    }
  }
}
