/** The packets of the bitcoin connector: what sendPacket writes, how handleBuffer cuts the input into
    packets again, and when the way the input arrives makes no difference. The hash is a parameter. */
module BitcoinPacket {
  import opened Bytes
  import opened Framing
  import opened BitcoinTx

  const MAGIC: seq<byte> := [0xf9, 0xbe, 0xb4, 0xd9]
  const HEADER := 24
  const NAME := 12

  /** All that is assumed of the double SHA-256. */
  ghost predicate IsDigest(hash: seq<byte> -> seq<byte>) {
    forall s :: |hash(s)| == 32
  }

  datatype Packet = Packet(command: seq<byte>, payload: seq<byte>)

  /** QByteArray::replace('\0', ""). */
  function WithoutZeros(s: seq<byte>): seq<byte> {
    if s == [] then []
    else if s[0] == 0 then WithoutZeros(s[1..])
    else [s[0]] + WithoutZeros(s[1..])
  }

  // -------------------------------------------------------------- one packet

  /** sendPacket. Every command the connector sends has at most twelve octets. */
  ghost function PacketBytes(hash: seq<byte> -> seq<byte>, p: Packet): seq<byte>
    requires IsDigest(hash) && |p.command| <= NAME
  {
    MAGIC + (p.command + Zeros(NAME - |p.command|))
    + (Little(4, |p.payload| % MAX32) + (hash(p.payload)[..4] + p.payload))
  }

  datatype Decision = Await | Accept(size: nat, packet: Packet) | GiveUp

  function LengthField(s: seq<byte>): nat
    requires HEADER <= |s|
  {
    FromLittle(s[16..20])
  }

  /** One turn of handleBuffer's loop. 24+len is computed in 32 bits; when it wraps, the payload
      length, taken as a C++ int, is negative and mid() returns everything behind the header. */
  ghost function Decide(hash: seq<byte> -> seq<byte>, s: seq<byte>): Decision
    requires IsDigest(hash)
  {
    if |s| < HEADER then Await
    else if s[..4] != MAGIC then GiveUp
    else
      var len := LengthField(s);
      var size := (HEADER + len) % MAX32;
      if |s| < size then Await
      else
        var payload := if HEADER + len < MAX32 then s[HEADER..HEADER + len] else s[HEADER..];
        if s[20..24] != hash(payload)[..4] then GiveUp
        else Accept(size, Packet(WithoutZeros(s[4..16]), payload))
  }

  // ------------------------------------------------------------- the whole loop

  /** endless: a packet was accepted and nothing removed, so that the loop does not come back. */
  datatype Handled = Handled(packets: seq<Packet>, left: seq<byte>, closed: bool, endless: bool)

  ghost function Handle(hash: seq<byte> -> seq<byte>, s: seq<byte>): Handled
    requires IsDigest(hash)
    decreases |s|
  {
    LengthFieldBound(s);
    match Decide(hash, s)
    case Await => Handled([], s, false, false)
    case GiveUp => Handled([], [], true, false)
    case Accept(size, p) =>
      if size == 0 then Handled([p], s, false, true)
      else
        var h := Handle(hash, s[size..]);
        h.(packets := [p] + h.packets)
  }

  lemma LengthFieldBound(s: seq<byte>)
    ensures HEADER <= |s| ==> LengthField(s) < MAX32
  {
    Pow256Values();
    if HEADER <= |s| {
      FromLittleBound(s[16..20]);
    }
  }

  /** What one read does to a connection. */
  ghost function Receive(hash: seq<byte> -> seq<byte>, c: Handled, data: seq<byte>): Handled
    requires IsDigest(hash)
  {
    if c.closed || c.endless then c
    else
      var h := Handle(hash, c.left + data);
      h.(packets := c.packets + h.packets)
  }

  ghost function ReceiveAll(hash: seq<byte> -> seq<byte>, c: Handled, chunks: seq<seq<byte>>): Handled
    requires IsDigest(hash)
    decreases |chunks|
  {
    if chunks == [] then c else ReceiveAll(hash, Receive(hash, c, chunks[0]), chunks[1..])
  }

  const FRESH := Handled([], [], false, false)

  // ------------------------------------------------- when the arrival does not matter

  /** The front is a header whose length wraps the 32-bit sum. */
  predicate Oversize(s: seq<byte>) {
    HEADER <= |s| && s[..4] == MAGIC && MAX32 <= HEADER + LengthField(s)
  }

  /** The same decision, except that an oversized header closes the connection. */
  ghost function Next(hash: seq<byte> -> seq<byte>): seq<byte> -> Step
    requires IsDigest(hash)
  {
    s => if Oversize(s) then Stop else StepOf(Decide(hash, s))
  }

  function StepOf(d: Decision): Step {
    match d
    case Await => Wait
    case GiveUp => Stop
    case Accept(size, _) => Take(size)
  }

  lemma FrontKept(s: seq<byte>, t: seq<byte>)
    requires HEADER <= |s|
    ensures (s + t)[..4] == s[..4] && (s + t)[4..16] == s[4..16] && (s + t)[16..20] == s[16..20]
    ensures (s + t)[20..24] == s[20..24]
  {
  }

  lemma DecisionKept(hash: seq<byte> -> seq<byte>, s: seq<byte>, t: seq<byte>)
    requires IsDigest(hash) && !Oversize(s) && !Decide(hash, s).Await?
    ensures Decide(hash, s + t) == Decide(hash, s)
    ensures Decide(hash, s).Accept? ==> HEADER <= Decide(hash, s).size <= |s|
  {
    hide FromLittle, WithoutZeros;
    FrontKept(s, t);
    LengthFieldBound(s);
    if s[..4] == MAGIC {
      var len := LengthField(s);
      assert (s + t)[HEADER..HEADER + len] == s[HEADER..HEADER + len];
    }
  }

  lemma NextIsStable(hash: seq<byte> -> seq<byte>)
    requires IsDigest(hash)
    ensures Stable(Next(hash))
  {
    hide Decide, LengthField;
    forall s: seq<byte>, t: seq<byte> ensures StableAt(Next(hash), s, t) {
      if HEADER <= |s| {
        OversizeKept(s, t);
      }
      if !Oversize(s) && !Decide(hash, s).Await? {
        DecisionKept(hash, s, t);
        AwaitsHeader(hash, s);
      }
    }
  }

  lemma OversizeKept(s: seq<byte>, t: seq<byte>)
    requires HEADER <= |s|
    ensures Oversize(s + t) == Oversize(s)
  {
    FrontKept(s, t);
  }

  lemma AwaitsHeader(hash: seq<byte> -> seq<byte>, s: seq<byte>)
    requires IsDigest(hash)
    ensures |s| < HEADER ==> Decide(hash, s).Await?
  {
  }

  /** The loop comes to a header whose length wraps. */
  ghost predicate MeetsOversize(hash: seq<byte> -> seq<byte>, s: seq<byte>)
    requires IsDigest(hash)
    decreases |s|
  {
    NextIsStable(hash);
    assert StableAt(Next(hash), s, []);
    Oversize(s) || (Next(hash)(s).Take? && MeetsOversize(hash, s[Next(hash)(s).n..]))
  }

  lemma {:induction false} OversizeStays(hash: seq<byte> -> seq<byte>, s: seq<byte>, t: seq<byte>)
    requires IsDigest(hash) && MeetsOversize(hash, s)
    ensures MeetsOversize(hash, s + t)
    decreases |s|
  {
    hide Decide, LengthField;
    NextIsStable(hash);
    if Oversize(s) {
      OversizeKept(s, t);
    } else {
      assert StableAt(Next(hash), s, t);
      var n := Next(hash)(s).n;
      assert (s + t)[n..] == s[n..] + t;
      OversizeStays(hash, s[n..], t);
    }
  }

  function PacketOf(unit: seq<byte>): Packet
    requires HEADER <= |unit|
  {
    Packet(WithoutZeros(unit[4..16]), unit[HEADER..])
  }

  function PacketsOf(units: seq<seq<byte>>): seq<Packet>
    requires forall u <- units :: HEADER <= |u|
  {
    if units == [] then [] else [PacketOf(units[0])] + PacketsOf(units[1..])
  }

  ghost function FromCut(c: Cut): Handled
    requires forall u <- c.units :: HEADER <= |u|
  {
    Handled(PacketsOf(c.units), c.left, c.stopped, false)
  }

  lemma AcceptedUnit(hash: seq<byte> -> seq<byte>, s: seq<byte>)
    requires IsDigest(hash) && !Oversize(s) && Decide(hash, s).Accept?
    ensures var d := Decide(hash, s);
            && HEADER <= d.size <= |s|
            && d.packet == PacketOf(s[..d.size])
  {
    hide FromLittle, WithoutZeros;
    LengthFieldBound(s);
    var size := HEADER + LengthField(s);
    assert s[..size][4..16] == s[4..16];
    assert s[..size][HEADER..] == s[HEADER..size];
  }

  /** Away from oversized headers the loop is the generic cutting loop. */
  lemma {:induction false} HandleIsParse(hash: seq<byte> -> seq<byte>, s: seq<byte>)
    requires IsDigest(hash) && !MeetsOversize(hash, s)
    ensures Stable(Next(hash))
    ensures forall u <- Parse(Next(hash), s).units :: HEADER <= |u|
    ensures Handle(hash, s) == FromCut(Parse(Next(hash), s))
    decreases |s|
  {
    hide Decide, PacketOf, LengthField;
    NextIsStable(hash);
    assert StableAt(Next(hash), s, []);
    var d := Decide(hash, s);
    if d.Accept? {
      AcceptedUnit(hash, s);
      HandleIsParse(hash, s[d.size..]);
      var c := Parse(Next(hash), s[d.size..]);
      assert ([s[..d.size]] + c.units)[1..] == c.units;
    }
  }

  // ------------------------------------------------------- reads, on any input

  /** A header whose length wraps is decided on what happens to have arrived behind it. The decision is
      the same for every arrival when nothing is behind it, or when its checksum fits no beginning of
      what is. */
  ghost predicate SettledWrap(hash: seq<byte> -> seq<byte>, s: seq<byte>)
    requires IsDigest(hash) && HEADER <= |s|
  {
    |s| == HEADER || forall j | HEADER <= j <= |s| :: !ChecksumFits(hash, s, j)
  }

  ghost predicate ChecksumFits(hash: seq<byte> -> seq<byte>, s: seq<byte>, j: nat)
    requires IsDigest(hash) && HEADER <= j <= |s|
  {
    s[20..24] == hash(s[HEADER..j])[..4]
  }

  /** No wrapping header is met, or the one that is met is settled. */
  ghost predicate Settled(hash: seq<byte> -> seq<byte>, s: seq<byte>)
    requires IsDigest(hash)
    decreases |s|
  {
    NextIsStable(hash);
    assert StableAt(Next(hash), s, []);
    if Oversize(s) then SettledWrap(hash, s)
    else Next(hash)(s).Take? ==> Settled(hash, s[Next(hash)(s).n..])
  }

  /** However the input is cut into reads, the packets dispatched, the rest kept and the closing point
      are those of one read of it all. */
  ghost predicate ReadsAgree(hash: seq<byte> -> seq<byte>, s: seq<byte>)
    requires IsDigest(hash)
  {
    forall chunks: seq<seq<byte>> :: Concat(chunks) == s ==> ReceiveAll(hash, FRESH, chunks) == Handle(hash, s)
  }

  ghost function Ahead(p: Packet, h: Handled): Handled {
    h.(packets := [p] + h.packets)
  }

  /** One turn of the loop, away from wrapping headers. */
  lemma Turn(hash: seq<byte> -> seq<byte>, s: seq<byte>, t: seq<byte>)
    requires IsDigest(hash) && !Oversize(s) && !Decide(hash, s).Await?
    ensures !Oversize(s + t)
    ensures Decide(hash, s).GiveUp? ==> Handle(hash, s) == Handle(hash, s + t) == Handled([], [], true, false)
    ensures var d := Decide(hash, s);
            d.Accept? ==>
              && HEADER <= d.size <= |s| && (s + t)[d.size..] == s[d.size..] + t
              && Handle(hash, s) == Ahead(d.packet, Handle(hash, s[d.size..]))
              && Handle(hash, s + t) == Ahead(d.packet, Handle(hash, s[d.size..] + t))
              && Settled(hash, s) == Settled(hash, s[d.size..])
              && Settled(hash, s + t) == Settled(hash, s[d.size..] + t)
  {
    hide Decide, Oversize;
    AwaitsHeader(hash, s);
    DecisionKept(hash, s, t);
    OversizeKept(s, t);
    var d := Decide(hash, s);
    if d.Accept? {
      assert (s + t)[d.size..] == s[d.size..] + t;
    }
  }

  lemma AheadReads(hash: seq<byte> -> seq<byte>, p: Packet, h: Handled, t: seq<byte>)
    requires IsDigest(hash)
    ensures Receive(hash, Ahead(p, h), t) == Ahead(p, Receive(hash, h, t))
  {
    hide Handle;
    if !h.closed && !h.endless {
      assert ([p] + h.packets) + Handle(hash, h.left + t).packets == [p] + (h.packets + Handle(hash, h.left + t).packets);
    }
  }

  /** Handling what was left does nothing. */
  lemma {:induction false} LeftIsDone(hash: seq<byte> -> seq<byte>, s: seq<byte>)
    requires IsDigest(hash)
    ensures var h := Handle(hash, s); !h.closed && !h.endless ==> Handle(hash, h.left) == Handled([], h.left, false, false)
    decreases |s|
  {
    hide Decide;
    var d := Decide(hash, s);
    if d.Accept? && d.size != 0 {
      LengthFieldBound(s);
      SizeFits(hash, s);
      LeftIsDone(hash, s[d.size..]);
    }
  }

  lemma SizeFits(hash: seq<byte> -> seq<byte>, s: seq<byte>)
    requires IsDigest(hash) && Decide(hash, s).Accept?
    ensures Decide(hash, s).size <= |s|
  {
    LengthFieldBound(s);
  }

  lemma EmptyRead(hash: seq<byte> -> seq<byte>, s: seq<byte>)
    requires IsDigest(hash)
    ensures Receive(hash, Handle(hash, s), []) == Handle(hash, s)
  {
    hide Handle;
    LeftIsDone(hash, s);
    var h := Handle(hash, s);
    assert h.left + [] == h.left && h.packets + [] == h.packets;
  }

  lemma WrapDecide(hash: seq<byte> -> seq<byte>, s: seq<byte>)
    requires IsDigest(hash) && Oversize(s)
    ensures HEADER + LengthField(s) - MAX32 < HEADER
    ensures Decide(hash, s) ==
            if ChecksumFits(hash, s, |s|)
            then Accept(HEADER + LengthField(s) - MAX32, Packet(WithoutZeros(s[4..16]), s[HEADER..]))
            else GiveUp
  {
    hide WithoutZeros, FromLittle, LengthField;
    LengthFieldBound(s);
    var len := LengthField(s);
    assert (HEADER + len) % MAX32 == HEADER + len - MAX32;
    assert s[HEADER..|s|] == s[HEADER..];
  }

  /** What the loop makes of a wrapping header, by the checksum over all that has arrived. */
  lemma WrapDecision(hash: seq<byte> -> seq<byte>, s: seq<byte>)
    requires IsDigest(hash) && Oversize(s)
    ensures ChecksumFits(hash, s, |s|) ==>
              && Handle(hash, s).packets != []
              && Handle(hash, s).packets[0] == Packet(WithoutZeros(s[4..16]), s[HEADER..])
    ensures !ChecksumFits(hash, s, |s|) ==> Handle(hash, s) == Handled([], [], true, false)
  {
    hide WithoutZeros, LengthField, Decide, ChecksumFits;
    WrapDecide(hash, s);
  }

  lemma PrefixDecision(hash: seq<byte> -> seq<byte>, s: seq<byte>, j: nat)
    requires IsDigest(hash) && Oversize(s) && HEADER <= j <= |s|
    ensures Oversize(s[..j]) && ChecksumFits(hash, s[..j], j) == ChecksumFits(hash, s, j)
  {
    hide FromLittle;
    var u := s[..j];
    assert u + s[j..] == s;
    OversizeKept(u, s[j..]);
    assert u[20..24] == s[20..24] && u[HEADER..j] == s[HEADER..j];
  }

  lemma SettledReads(hash: seq<byte> -> seq<byte>, s: seq<byte>, t: seq<byte>)
    requires IsDigest(hash) && Oversize(s) && Settled(hash, s + t)
    ensures Settled(hash, s) && Receive(hash, Handle(hash, s), t) == Handle(hash, s + t)
  {
    hide Handle, ChecksumFits;
    OversizeKept(s, t);
    assert (s + t)[..|s|] == s;
    if |s + t| == HEADER {
      assert t == [] && s + t == s;
      EmptyRead(hash, s);
    } else {
      forall j | HEADER <= j <= |s| ensures !ChecksumFits(hash, s, j) {
        PrefixDecision(hash, s, j);
        PrefixDecision(hash, s + t, j);
        assert (s + t)[..j] == s[..j];
      }
      WrapDecision(hash, s);
      WrapDecision(hash, s + t);
    }
  }

  lemma {:induction false} OneMoreRead(hash: seq<byte> -> seq<byte>, s: seq<byte>, t: seq<byte>)
    requires IsDigest(hash) && Settled(hash, s + t)
    ensures Settled(hash, s) && Receive(hash, Handle(hash, s), t) == Handle(hash, s + t)
    decreases |s|
  {
    hide Oversize, SettledWrap;
    if Oversize(s) {
      SettledReads(hash, s, t);
    } else if Decide(hash, s).Await? {
      AwaitingRead(hash, s, t);
    } else {
      Turn(hash, s, t);
      if Decide(hash, s).Accept? {
        hide Decide, Handle, Settled;
        var d := Decide(hash, s);
        OneMoreRead(hash, s[d.size..], t);
        AheadReads(hash, d.packet, Handle(hash, s[d.size..]), t);
      }
    }
  }

  lemma AwaitingRead(hash: seq<byte> -> seq<byte>, s: seq<byte>, t: seq<byte>)
    requires IsDigest(hash) && !Oversize(s) && Decide(hash, s).Await?
    ensures Settled(hash, s) && Receive(hash, Handle(hash, s), t) == Handle(hash, s + t)
  {
    hide Decide, Oversize;
    assert Handle(hash, s) == Handled([], s, false, false);
    assert [] + Handle(hash, s + t).packets == Handle(hash, s + t).packets;
  }

  /** On a settled input, what was read before and the reads to come make up what one read of it all
      makes. */
  lemma {:induction false} ReadsDoNotMatter(hash: seq<byte> -> seq<byte>, start: seq<byte>, chunks: seq<seq<byte>>)
    requires IsDigest(hash) && Settled(hash, start + Concat(chunks))
    ensures ReceiveAll(hash, Handle(hash, start), chunks) == Handle(hash, start + Concat(chunks))
    decreases |chunks|
  {
    hide Handle, Settled, Receive;
    if chunks == [] {
      assert start + Concat(chunks) == start;
    } else {
      var tail := Concat(chunks[1..]);
      assert start + Concat(chunks) == (start + chunks[0]) + tail;
      OneMoreRead(hash, start + chunks[0], tail);
      OneMoreRead(hash, start, chunks[0]);
      ReadsDoNotMatter(hash, start + chunks[0], chunks[1..]);
    }
  }

  lemma {:induction false} AheadReadsAll(hash: seq<byte> -> seq<byte>, p: Packet, h: Handled, chunks: seq<seq<byte>>)
    requires IsDigest(hash)
    ensures ReceiveAll(hash, Ahead(p, h), chunks) == Ahead(p, ReceiveAll(hash, h, chunks))
    decreases |chunks|
  {
    hide Receive, Ahead;
    if chunks != [] {
      AheadReads(hash, p, h, chunks[0]);
      AheadReadsAll(hash, p, Receive(hash, h, chunks[0]), chunks[1..]);
    }
  }

  lemma {:induction false} PacketsOnlyGrow(hash: seq<byte> -> seq<byte>, c: Handled, chunks: seq<seq<byte>>)
    requires IsDigest(hash)
    ensures c.packets <= ReceiveAll(hash, c, chunks).packets
    ensures c.closed ==> ReceiveAll(hash, c, chunks) == c
    decreases |chunks|
  {
    hide Handle;
    if chunks != [] {
      PacketsOnlyGrow(hash, Receive(hash, c, chunks[0]), chunks[1..]);
    }
  }

  ghost predicate Differs(hash: seq<byte> -> seq<byte>, s: seq<byte>, chunks: seq<seq<byte>>)
    requires IsDigest(hash)
  {
    Concat(chunks) == s && ReceiveAll(hash, FRESH, chunks) != Handle(hash, s)
  }

  lemma FirstOfTwo(hash: seq<byte> -> seq<byte>, u: seq<byte>, v: seq<byte>)
    requires IsDigest(hash)
    ensures Concat([u, v]) == u + v
    ensures var h := Handle(hash, u);
            && h.packets <= ReceiveAll(hash, FRESH, [u, v]).packets
            && (h.closed ==> ReceiveAll(hash, FRESH, [u, v]) == h)
  {
    hide Handle;
    assert [u, v][1..] == [v] && [v][1..] == [];
    assert Concat([v]) == v + [] == v;
    assert [] + u == u;
    var h := Handle(hash, u);
    assert [] + h.packets == h.packets;
    PacketsOnlyGrow(hash, h, [v]);
  }

  /** An unsettled wrapping header: a cut behind a beginning that fits, or right behind the header if
      only the whole fits, makes a difference. */
  lemma WrapDiffers(hash: seq<byte> -> seq<byte>, s: seq<byte>) returns (chunks: seq<seq<byte>>)
    requires IsDigest(hash) && Oversize(s) && !SettledWrap(hash, s)
    ensures Differs(hash, s, chunks)
  {
    hide Handle, ChecksumFits, Oversize, WithoutZeros, FromLittle;
    var j :| HEADER <= j <= |s| && ChecksumFits(hash, s, j);
    var k := if j < |s| then j else HEADER;
    var u, v := s[..k], s[k..];
    assert u + v == s;
    PrefixDecision(hash, s, k);
    assert |u| == k;
    WrapDecision(hash, u);
    WrapDecision(hash, s);
    FirstOfTwo(hash, u, v);
    chunks := [u, v];
    if ChecksumFits(hash, s, k) {
      var all := ReceiveAll(hash, FRESH, chunks);
      assert all.packets[0] == Handle(hash, u).packets[0];
      assert |u[HEADER..]| < |s[HEADER..]|;
    }
  }

  lemma {:induction false} UnsettledDiffers(hash: seq<byte> -> seq<byte>, s: seq<byte>) returns (chunks: seq<seq<byte>>)
    requires IsDigest(hash) && !Settled(hash, s)
    ensures Differs(hash, s, chunks)
    decreases |s|
  {
    hide SettledWrap, Oversize;
    if Oversize(s) {
      chunks := WrapDiffers(hash, s);
    } else {
      TakenIsAccepted(hash, s);
      var d := Decide(hash, s);
      var u, rest := s[..d.size], s[d.size..];
      var more := UnsettledDiffers(hash, rest);
      chunks := [u] + more;
      UnitFirst(hash, s, more);
    }
  }

  lemma TakenIsAccepted(hash: seq<byte> -> seq<byte>, s: seq<byte>)
    requires IsDigest(hash) && !Oversize(s) && !Settled(hash, s)
    ensures Decide(hash, s).Accept? && HEADER <= Decide(hash, s).size <= |s|
    ensures !Settled(hash, s[Decide(hash, s).size..])
  {
    hide Decide, Oversize;
    DecisionKept(hash, s, []);
  }

  /** A difference behind a packet is a difference of the whole. */
  lemma UnitFirst(hash: seq<byte> -> seq<byte>, s: seq<byte>, more: seq<seq<byte>>)
    requires IsDigest(hash) && !Oversize(s) && Decide(hash, s).Accept? && HEADER <= Decide(hash, s).size <= |s|
    requires Differs(hash, s[Decide(hash, s).size..], more)
    ensures Differs(hash, s, [s[..Decide(hash, s).size]] + more)
  {
    hide Decide, Oversize;
    var d := Decide(hash, s);
    var u, rest := s[..d.size], s[d.size..];
    assert u + rest == s;
    UnitAlone(hash, s);
    ConcatCons(u, more);
    assert ([u] + more)[1..] == more;
    assert [] + u == u;
    var one := Handle(hash, u);
    assert one == Ahead(d.packet, FRESH);
    assert [] + one.packets == one.packets;
    AheadReadsAll(hash, d.packet, FRESH, more);
    Turn(hash, u, rest);
    var x, y := ReceiveAll(hash, FRESH, more), Handle(hash, rest);
    assert ([d.packet] + x.packets)[1..] == x.packets && ([d.packet] + y.packets)[1..] == y.packets;
  }

  lemma UnitAlone(hash: seq<byte> -> seq<byte>, s: seq<byte>)
    requires IsDigest(hash) && !Oversize(s) && Decide(hash, s).Accept? && HEADER <= Decide(hash, s).size <= |s|
    ensures var d := Decide(hash, s);
            var u := s[..d.size];
            && !Oversize(u) && Decide(hash, u) == d && u[d.size..] == []
            && Handle(hash, u) == Ahead(d.packet, FRESH)
  {
    hide WithoutZeros, FromLittle;
    var d := Decide(hash, s);
    var u := s[..d.size];
    LengthFieldBound(s);
    assert u + s[d.size..] == s;
    FrontKept(u, s[d.size..]);
    OversizeKept(u, s[d.size..]);
    assert u[HEADER..HEADER + LengthField(s)] == s[HEADER..HEADER + LengthField(s)];
    assert u[d.size..] == [];
    assert Handle(hash, u) == Ahead(d.packet, Handle(hash, u[d.size..]));
  }

  /** On arbitrary input, all ways of cutting it into reads dispatch the same packets up to the same bad
      magic or checksum exactly when no header with a wrapping length is met, or the one that is met is
      the last thing in the input or fits no beginning of what follows it. */
  lemma ReadsAgreeIff(hash: seq<byte> -> seq<byte>, s: seq<byte>)
    requires IsDigest(hash)
    ensures ReadsAgree(hash, s) <==> Settled(hash, s)
  {
    hide Handle, Settled, ReceiveAll;
    AwaitsHeader(hash, []);
    if Settled(hash, s) {
      forall chunks: seq<seq<byte>> | Concat(chunks) == s ensures ReceiveAll(hash, FRESH, chunks) == Handle(hash, s) {
        assert [] + Concat(chunks) == Concat(chunks);
        NothingToHandle(hash);
        ReadsDoNotMatter(hash, [], chunks);
      }
    } else {
      var chunks := UnsettledDiffers(hash, s);
      assert Concat(chunks) == s;
    }
  }

  lemma NothingToHandle(hash: seq<byte> -> seq<byte>)
    requires IsDigest(hash)
    ensures Handle(hash, []) == FRESH
  {
    AwaitsHeader(hash, []);
  }

  /** In particular inputs in which no length wraps are settled. */
  lemma {:induction false} NoWrapIsSettled(hash: seq<byte> -> seq<byte>, s: seq<byte>)
    requires IsDigest(hash) && !MeetsOversize(hash, s)
    ensures Settled(hash, s)
    decreases |s|
  {
    hide Oversize, Decide;
    NextIsStable(hash);
    assert StableAt(Next(hash), s, []);
    if Next(hash)(s).Take? {
      NoWrapIsSettled(hash, s[Next(hash)(s).n..]);
    }
  }

  // ---------------------------------------------------------------- round trip

  predicate Sendable(p: Packet) {
    |p.command| <= NAME && 0 !in p.command && HEADER + |p.payload| < MAX32
  }

  lemma {:induction false} PaddingDropped(name: seq<byte>, n: nat)
    requires 0 !in name
    ensures WithoutZeros(name + Zeros(n)) == name
    decreases |name|, n
  {
    if name != [] {
      assert (name + Zeros(n))[1..] == name[1..] + Zeros(n);
      PaddingDropped(name[1..], n);
    } else if n > 0 {
      assert (name + Zeros(n))[1..] == name + Zeros(n - 1);
      PaddingDropped(name, n - 1);
    }
  }

  lemma PacketLayout(hash: seq<byte> -> seq<byte>, p: Packet)
    requires IsDigest(hash) && Sendable(p)
    ensures var s := PacketBytes(hash, p);
            && |s| == HEADER + |p.payload|
            && s[..4] == MAGIC
            && s[4..16] == p.command + Zeros(NAME - |p.command|)
            && s[16..20] == Little(4, |p.payload| % MAX32)
            && s[20..24] == hash(p.payload)[..4]
            && s[HEADER..] == p.payload
  {
    hide Little, Zeros;
  }

  lemma PacketIsUnit(hash: seq<byte> -> seq<byte>, p: Packet)
    requires IsDigest(hash) && Sendable(p)
    ensures var s := PacketBytes(hash, p);
            && HEADER <= |s| && !Oversize(s) && PacketOf(s) == p
            && Decide(hash, s) == Accept(|s|, p)
  {
    hide PacketBytes, Little, FromLittle, Zeros, WithoutZeros;
    var s := PacketBytes(hash, p);
    PacketLayout(hash, p);
    PaddingDropped(p.command, NAME - |p.command|);
    Pow256Values();
    LittleRoundTrip(4, |p.payload|);
    assert LengthField(s) == |p.payload|;
    assert s[HEADER..HEADER + |p.payload|] == p.payload;
  }

  ghost function AllBytes(hash: seq<byte> -> seq<byte>, ps: seq<Packet>): seq<byte>
    requires IsDigest(hash) && forall p <- ps :: Sendable(p)
  {
    if ps == [] then []
    else
      assert Sendable(ps[0]);
      assert forall p <- ps[1..] :: p in ps;
      PacketBytes(hash, ps[0]) + AllBytes(hash, ps[1..])
  }

  lemma {:induction false} SentIsHandled(hash: seq<byte> -> seq<byte>, ps: seq<Packet>)
    requires IsDigest(hash) && forall p <- ps :: Sendable(p)
    ensures Handle(hash, AllBytes(hash, ps)) == Handled(ps, [], false, false)
    ensures !MeetsOversize(hash, AllBytes(hash, ps))
    decreases |ps|
  {
    hide PacketBytes, Decide, PacketOf, LengthField;
    if ps == [] {
      AwaitsHeader(hash, []);
    } else {
      assert Sendable(ps[0]);
      assert forall p <- ps[1..] :: p in ps;
      var s, tail := PacketBytes(hash, ps[0]), AllBytes(hash, ps[1..]);
      PacketIsUnit(hash, ps[0]);
      DecisionKept(hash, s, tail);
      OversizeKept(s, tail);
      assert (s + tail)[|s|..] == tail;
      SentIsHandled(hash, ps[1..]);
      assert [ps[0]] + ps[1..] == ps;
    }
  }

  /** Behind any packets, 24 octets that do not start with the magic, or a complete packet whose checksum is
      wrong, close the connection: the packets before are dispatched and nothing else ever is. */
  lemma BadPacketCloses(hash: seq<byte> -> seq<byte>, ps: seq<Packet>, bad: seq<byte>, len: nat)
    requires IsDigest(hash) && (forall p <- ps :: Sendable(p)) && HEADER <= |bad|
    requires bad[..4] != [0xf9, 0xbe, 0xb4, 0xd9]
             || (bad[16..20] == Little(4, len) && HEADER + len < MAX32 && HEADER + len <= |bad|
                 && bad[20..24] != hash(bad[HEADER..HEADER + len])[..4])
    ensures Handle(hash, AllBytes(hash, ps) + bad) == Handled(ps, [], true, false)
    decreases |ps|
  {
    hide PacketBytes, PacketOf, AllBytes, Little, FromLittle, Decide, LengthField;
    if ps == [] {
      NoBytes(hash);
      assert [] + bad == bad;
      BadDecision(hash, bad, len);
    } else {
      assert Sendable(ps[0]);
      assert forall p <- ps[1..] :: p in ps;
      var s, tail := PacketBytes(hash, ps[0]), AllBytes(hash, ps[1..]);
      PacketIsUnit(hash, ps[0]);
      FirstBytes(hash, ps);
      DecisionKept(hash, s, tail + bad);
      assert AllBytes(hash, ps) + bad == s + (tail + bad);
      assert (s + (tail + bad))[|s|..] == tail + bad;
      BadPacketCloses(hash, ps[1..], bad, len);
      assert [ps[0]] + ps[1..] == ps;
    }
  }

  lemma BadDecision(hash: seq<byte> -> seq<byte>, bad: seq<byte>, len: nat)
    requires IsDigest(hash) && HEADER <= |bad|
    requires bad[..4] != [0xf9, 0xbe, 0xb4, 0xd9]
             || (bad[16..20] == Little(4, len) && HEADER + len < MAX32 && HEADER + len <= |bad|
                 && bad[20..24] != hash(bad[HEADER..HEADER + len])[..4])
    ensures Decide(hash, bad).GiveUp?
  {
    hide Little, FromLittle;
    if bad[..4] == MAGIC {
      Pow256Values();
      LittleRoundTrip(4, len);
    }
  }

  lemma NoBytes(hash: seq<byte> -> seq<byte>)
    requires IsDigest(hash)
    ensures AllBytes(hash, []) == []
  {
  }

  lemma FirstBytes(hash: seq<byte> -> seq<byte>, ps: seq<Packet>)
    requires IsDigest(hash) && ps != [] && forall p <- ps :: Sendable(p)
    ensures Sendable(ps[0]) && (forall p <- ps[1..] :: p in ps)
    ensures AllBytes(hash, ps) == PacketBytes(hash, ps[0]) + AllBytes(hash, ps[1..])
  {
    assert ps[0] in ps;
  }

  /** Any sequence of packets, delivered in any reads, is dispatched as that sequence. */
  lemma PacketsRoundTrip(hash: seq<byte> -> seq<byte>, ps: seq<Packet>, chunks: seq<seq<byte>>)
    requires IsDigest(hash) && forall p <- ps :: Sendable(p)
    requires Concat(chunks) == AllBytes(hash, ps)
    ensures ReceiveAll(hash, FRESH, chunks) == Handled(ps, [], false, false)
  {
    hide Sendable, PacketBytes, ReceiveAll, AllBytes, Settled, MeetsOversize;
    SentIsHandled(hash, ps);
    NoWrapIsSettled(hash, AllBytes(hash, ps));
    NothingToHandle(hash);
    assert [] + Concat(chunks) == Concat(chunks);
    ReadsDoNotMatter(hash, [], chunks);
  }

  // ------------------------------------------------- where the arrival does matter

  /** A header that announces 2^32 - 1 octets, with the checksum of the empty payload. */
  ghost function Wrapping(hash: seq<byte> -> seq<byte>): seq<byte>
    requires IsDigest(hash)
  {
    MAGIC + Zeros(NAME) + [255, 255, 255, 255] + hash([])[..4]
  }

  lemma WrappingAlone(hash: seq<byte> -> seq<byte>)
    requires IsDigest(hash)
    ensures var s := Wrapping(hash);
            && |s| == HEADER && s[..4] == MAGIC && s[20..24] == hash([])[..4]
            && LengthField(s) == MAX32 - 1
            && Handle(hash, s).packets != []
  {
    var s := Wrapping(hash);
    assert s[16..20] == [255, 255, 255, 255];
    LittleOnes();
    assert s[HEADER..] == [];
    assert Decide(hash, s).Accept? && Decide(hash, s).size == 23;
  }

  /** Such a header is accepted as an empty packet when it arrives alone, and closes the connection
      when one more octet comes with it. */
  lemma WrappingDependsOnReads(hash: seq<byte> -> seq<byte>, o: byte)
    requires IsDigest(hash) && hash([o])[..4] != hash([])[..4]
    ensures MeetsOversize(hash, Wrapping(hash) + [o])
    ensures Handle(hash, Wrapping(hash) + [o]).packets == []
    ensures ReceiveAll(hash, FRESH, [Wrapping(hash), [o]]).packets != []
  {
    hide WithoutZeros, FromLittle, Wrapping;
    var s := Wrapping(hash);
    WrappingAlone(hash);
    FrontKept(s, [o]);
    assert (s + [o])[HEADER..] == [o];
    assert [] + s == s;
    PacketsOnlyGrow(hash, Receive(hash, FRESH, s), [[o]]);
    assert [s, [o]][1..] == [[o]];
  }

  lemma LittleOnes()
    ensures FromLittle([255, 255, 255, 255]) == MAX32 - 1
  {
    assert [255, 255, 255, 255][1..] == [255, 255, 255];
    assert [255, 255, 255][1..] == [255, 255];
    assert [255, 255][1..] == [255];
    assert FromLittle([255]) == 255;
    assert FromLittle([255, 255]) == 255 + 256 * 255;
    assert FromLittle([255, 255, 255]) == 255 + 256 * (255 + 256 * 255);
  }
}
