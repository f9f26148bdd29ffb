/** Opening a channel: what a queue does with declarations and bindings that are asked for before its
    channel is open, what it then sends, and how channels get their numbers. */
module AmqpChannel {
  import opened Bytes
  import opened Framing
  import opened AmqpField
  import opened AmqpFieldProofs
  import opened AmqpFrame
  import opened AmqpFrames
  import opened Streams

  datatype Binding = Binding(exchange: Text, key: Text)

  /** What the program asks of a queue. */
  datatype Request = DeclareQueue(name: Text, options: int) | BindTo(binding: Binding)

  /** What a queue sends on its channel. */
  datatype Command = Declare(name: Text, options: int) | Bind(name: Text, binding: Binding) | Delete(name: Text)

  datatype QueueChannel = QueueChannel(
    name: Text,
    options: int,
    isOpen: bool,
    declared: bool,
    delayedDeclare: bool,
    delayedBindings: seq<Binding>,
    sent: seq<Command>)

  const FRESH := QueueChannel([], 0, false, false, false, [], [])

  function SendDeclare(q: QueueChannel): QueueChannel {
    if !q.isOpen then q.(delayedDeclare := true)
    else q.(sent := q.sent + [Declare(q.name, q.options)], delayedDeclare := false)
  }

  function SendBind(q: QueueChannel, b: Binding): QueueChannel {
    if !q.isOpen then q.(delayedBindings := q.delayedBindings + [b])
    else q.(sent := q.sent + [Bind(q.name, b)])
  }

  function Ask(q: QueueChannel, r: Request): QueueChannel {
    match r
    case DeclareQueue(name, options) => SendDeclare(q.(name := name, options := options))
    case BindTo(b) => SendBind(q, b)
  }

  function AskAll(q: QueueChannel, rs: seq<Request>): QueueChannel
    decreases |rs|
  {
    if rs == [] then q else AskAll(Ask(q, rs[0]), rs[1..])
  }

  function BindAll(q: QueueChannel, bs: seq<Binding>): QueueChannel
    decreases |bs|
  {
    if bs == [] then q else BindAll(SendBind(q, bs[0]), bs[1..])
  }

  /** Queue::onOpen. */
  function Opening(q: QueueChannel): QueueChannel {
    var q := if q.delayedDeclare then SendDeclare(q) else q;
    BindAll(q, q.delayedBindings).(delayedBindings := [])
  }

  /** slot: what the program asks for in the slots connected to opened() or closed(), which run before
      onOpen() and onClose(). */
  datatype Event =
    | Asked(request: Request)
    | OpenOk(slot: seq<Request>)
    | CloseOk(slot: seq<Request>)
    | Disconnected
    | DeclareOk(name: Text)
    | DeleteOk
    | ConsumeOk

  function After(q: QueueChannel, e: Event): QueueChannel {
    match e
    case Asked(r) => Ask(q, r)
    case OpenOk(slot) => Opening(AskAll(q.(isOpen := true), slot))
    case CloseOk(slot) =>
      var q := AskAll(q, slot);
      (if q.declared then q.(sent := q.sent + [Delete(q.name)]) else q).(isOpen := false)
    case Disconnected => q.(isOpen := false)
    case DeclareOk(name) => q.(name := name, declared := true)
    case DeleteOk => q.(declared := false)
    case ConsumeOk => q.(declared := false)
  }

  // ------------------------------------------------------------------ what was asked

  function BindingsAsked(rs: seq<Request>): seq<Binding> {
    if rs == [] then []
    else (if rs[0].BindTo? then [rs[0].binding] else []) + BindingsAsked(rs[1..])
  }

  function BindingsOf(e: Event): seq<Binding> {
    match e
    case Asked(r) => if r.BindTo? then [r.binding] else []
    case OpenOk(slot) => BindingsAsked(slot)
    case CloseOk(slot) => BindingsAsked(slot)
    case _ => []
  }

  function BindingsSent(cs: seq<Command>): seq<Binding> {
    if cs == [] then []
    else BindingsSent(cs[..|cs| - 1]) + if cs[|cs| - 1].Bind? then [cs[|cs| - 1].binding] else []
  }

  /** Sent or waiting. */
  function Kept(q: QueueChannel): seq<Binding> {
    BindingsSent(q.sent) + q.delayedBindings
  }

  function BindCommands(name: Text, bs: seq<Binding>): seq<Command> {
    seq(|bs|, i requires 0 <= i < |bs| => Bind(name, bs[i]))
  }

  lemma SentLast(cs: seq<Command>, c: Command)
    ensures BindingsSent(cs + [c]) == BindingsSent(cs) + if c.Bind? then [c.binding] else []
  {
    assert (cs + [c])[..|cs|] == cs;
  }

  lemma AskKeeps(q: QueueChannel, r: Request)
    ensures var t := Ask(q, r);
            && t.isOpen == q.isOpen
            && (q.isOpen ==> t.delayedBindings == q.delayedBindings
                             && BindingsSent(t.sent) == BindingsSent(q.sent) + BindingsOf(Asked(r)))
            && (!q.isOpen ==> t.sent == q.sent && t.delayedBindings == q.delayedBindings + BindingsOf(Asked(r)))
            && (q.isOpen && !q.delayedDeclare ==> !t.delayedDeclare)
  {
    hide BindingsSent;
    if q.isOpen {
      match r {
        case DeclareQueue(name, options) => SentLast(q.sent, Declare(name, options));
        case BindTo(b) => SentLast(q.sent, Bind(q.name, b));
      }
    }
  }

  lemma {:induction false} AskAllOpen(q: QueueChannel, rs: seq<Request>)
    requires q.isOpen
    ensures var t := AskAll(q, rs);
            && t.isOpen && t.delayedBindings == q.delayedBindings
            && BindingsSent(t.sent) == BindingsSent(q.sent) + BindingsAsked(rs)
            && (!q.delayedDeclare ==> !t.delayedDeclare)
    decreases |rs|
  {
    hide Ask, BindingsSent, BindingsOf;
    if rs != [] {
      AskKeeps(q, rs[0]);
      AskedFirst(rs);
      AskAllOpen(Ask(q, rs[0]), rs[1..]);
      assert (BindingsSent(q.sent) + BindingsOf(Asked(rs[0]))) + BindingsAsked(rs[1..])
          == BindingsSent(q.sent) + (BindingsOf(Asked(rs[0])) + BindingsAsked(rs[1..]));
    }
  }

  lemma {:induction false} AskAllClosed(q: QueueChannel, rs: seq<Request>)
    requires !q.isOpen
    ensures var t := AskAll(q, rs);
            !t.isOpen && t.sent == q.sent && t.delayedBindings == q.delayedBindings + BindingsAsked(rs)
    decreases |rs|
  {
    hide Ask, BindingsSent, BindingsOf;
    if rs != [] {
      AskKeeps(q, rs[0]);
      AskedFirst(rs);
      AskAllClosed(Ask(q, rs[0]), rs[1..]);
      assert (q.delayedBindings + BindingsOf(Asked(rs[0]))) + BindingsAsked(rs[1..])
          == q.delayedBindings + (BindingsOf(Asked(rs[0])) + BindingsAsked(rs[1..]));
    }
  }

  lemma AskedFirst(rs: seq<Request>)
    requires rs != []
    ensures BindingsAsked(rs) == BindingsOf(Asked(rs[0])) + BindingsAsked(rs[1..])
  {
  }

  lemma {:induction false} BindAllSends(q: QueueChannel, bs: seq<Binding>)
    requires q.isOpen
    ensures BindAll(q, bs) == q.(sent := q.sent + BindCommands(q.name, bs))
    ensures BindingsSent(q.sent + BindCommands(q.name, bs)) == BindingsSent(q.sent) + bs
    decreases |bs|
  {
    hide BindingsSent;
    if bs == [] {
      assert q.sent + BindCommands(q.name, bs) == q.sent;
    } else {
      var t := SendBind(q, bs[0]);
      BindAllSends(t, bs[1..]);
      SentLast(q.sent, Bind(q.name, bs[0]));
      assert [Bind(q.name, bs[0])] + BindCommands(q.name, bs[1..]) == BindCommands(q.name, bs);
      assert t.sent + BindCommands(q.name, bs[1..]) == q.sent + BindCommands(q.name, bs);
      assert [bs[0]] + bs[1..] == bs;
    }
  }

  /** A channel that is open has nothing waiting. */
  predicate Flushed(q: QueueChannel) {
    q.isOpen ==> q.delayedBindings == [] && !q.delayedDeclare
  }

  /** Opening sends what the slot asked for, then the declaration that was waiting (or that the slot
      left waiting), then every waiting binding in the order of the requests, all under the queue's
      current name. */
  lemma OpeningSends(q: QueueChannel, slot: seq<Request>)
    ensures var s, t := AskAll(q.(isOpen := true), slot), After(q, OpenOk(slot));
            && t.sent == s.sent + (if s.delayedDeclare then [Declare(s.name, s.options)] else [])
                         + BindCommands(s.name, q.delayedBindings)
            && t.isOpen && Flushed(t)
            && Kept(t) == BindingsSent(q.sent) + BindingsAsked(slot) + q.delayedBindings
  {
    hide BindingsSent, BindAll, AskAll;
    AskAllOpen(q.(isOpen := true), slot);
    var s := AskAll(q.(isOpen := true), slot);
    var d := if s.delayedDeclare then SendDeclare(s) else s;
    if s.delayedDeclare {
      SentLast(s.sent, Declare(s.name, s.options));
    }
    BindAllSends(d, d.delayedBindings);
  }

  // ------------------------------------------------------------ what goes out when

  /** What requests make an open channel send, one command each: a declaration under the name it gives,
      a binding under the name declared last. */
  function Sends(name: Text, rs: seq<Request>): seq<Command>
    decreases |rs|
  {
    if rs == [] then []
    else
      match rs[0]
      case DeclareQueue(n, options) => [Declare(n, options)] + Sends(n, rs[1..])
      case BindTo(b) => [Bind(name, b)] + Sends(name, rs[1..])
  }

  predicate Declares(rs: seq<Request>) {
    exists r <- rs :: r.DeclareQueue?
  }

  /** Name and options of the declaration asked for last. */
  function LastDeclared(name: Text, options: int, rs: seq<Request>): (Text, int) {
    if rs == [] then (name, options)
    else if rs[|rs| - 1].DeclareQueue? then (rs[|rs| - 1].name, rs[|rs| - 1].options)
    else LastDeclared(name, options, rs[..|rs| - 1])
  }

  lemma {:induction false} LastOfRest(name: Text, options: int, rs: seq<Request>)
    requires rs != []
    ensures LastDeclared(name, options, rs)
         == if rs[0].DeclareQueue? then LastDeclared(rs[0].name, rs[0].options, rs[1..])
            else LastDeclared(name, options, rs[1..])
    decreases |rs|
  {
    if |rs| > 1 {
      var front := rs[..|rs| - 1];
      LastOfRest(name, options, front);
      assert front[1..] == rs[1..][..|rs| - 2];
    }
  }

  lemma DeclaresFirst(rs: seq<Request>)
    requires rs != []
    ensures Declares(rs) <==> rs[0].DeclareQueue? || Declares(rs[1..])
  {
    assert rs == [rs[0]] + rs[1..];
    assert rs[0] in rs;
    assert forall r <- rs[1..] :: r in rs;
  }

  /** Where requests take a queue, while its channel is open and while it is not. */
  predicate Requesting(q: QueueChannel, rs: seq<Request>, t: QueueChannel) {
    && (t.name, t.options) == LastDeclared(q.name, q.options, rs)
    && t.isOpen == q.isOpen && t.declared == q.declared
    && if q.isOpen
       then && t.sent == q.sent + Sends(q.name, rs)
            && t.delayedBindings == q.delayedBindings
            && t.delayedDeclare == (q.delayedDeclare && !Declares(rs))
       else && t.sent == q.sent
            && t.delayedBindings == q.delayedBindings + BindingsAsked(rs)
            && t.delayedDeclare == (q.delayedDeclare || Declares(rs))
  }

  lemma {:induction false} RequestsSend(q: QueueChannel, rs: seq<Request>)
    ensures Requesting(q, rs, AskAll(q, rs))
    decreases |rs|
  {
    hide Requesting, Ask;
    if rs == [] {
      NobodyDeclares(q);
    } else {
      RequestsSend(Ask(q, rs[0]), rs[1..]);
      FirstRequest(q, rs, AskAll(q, rs));
    }
  }

  lemma FirstRequest(q: QueueChannel, rs: seq<Request>, t: QueueChannel)
    requires rs != [] && Requesting(Ask(q, rs[0]), rs[1..], t)
    ensures Requesting(q, rs, t)
  {
    hide Declares, LastDeclared, Sends, BindingsAsked;
    var r, more := rs[0], rs[1..];
    LastOfRest(q.name, q.options, rs);
    DeclaresFirst(rs);
    SendsFirst(q.name, rs);
    AskedFirst(rs);
    if q.isOpen {
      match r {
        case DeclareQueue(n, o) => Reassociate(q.sent, [Declare(n, o)], Sends(n, more));
        case BindTo(b) => Reassociate(q.sent, [Bind(q.name, b)], Sends(q.name, more));
      }
    } else {
      Reassociate(q.delayedBindings, BindingsOf(Asked(r)), BindingsAsked(more));
    }
  }

  lemma SendsFirst(name: Text, rs: seq<Request>)
    requires rs != []
    ensures Sends(name, rs)
         == if rs[0].DeclareQueue? then [Declare(rs[0].name, rs[0].options)] + Sends(rs[0].name, rs[1..])
            else [Bind(name, rs[0].binding)] + Sends(name, rs[1..])
  {
  }

  lemma Reassociate<T>(a: seq<T>, b: seq<T>, c: seq<T>)
    ensures (a + b) + c == a + (b + c) && a + [] == a
  {
  }

  lemma NobodyDeclares(q: QueueChannel)
    ensures Requesting(q, [], q)
  {
  }

  /** What every event makes a queue send. Opening sends what the slot asks for, then the declaration that
      was waiting unless the slot has made one, then the waiting bindings, under the name declared last.
      Closing sends what the slot asks for while the channel is open, and deletes the queue if it is
      declared. A request sends its command at once, or nothing. Answers and a lost connection send
      nothing. */
  function SentOn(q: QueueChannel, e: Event): seq<Command> {
    match e
    case Asked(r) => if q.isOpen then Sends(q.name, [r]) else []
    case OpenOk(slot) =>
      Sends(q.name, slot)
      + (if q.delayedDeclare && !Declares(slot) then [Declare(q.name, q.options)] else [])
      + BindCommands(LastDeclared(q.name, q.options, slot).0, q.delayedBindings)
    case CloseOk(slot) =>
      (if q.isOpen then Sends(q.name, slot) else [])
      + if q.declared then [Delete(LastDeclared(q.name, q.options, slot).0)] else []
    case _ => []
  }

  lemma EventSends(q: QueueChannel, e: Event)
    requires Flushed(q)
    ensures After(q, e).sent == q.sent + SentOn(q, e)
  {
    hide AskAll, SentOn, Opening;
    match e {
      case Asked(r) => AskingSends(q, r);
      case OpenOk(slot) => OpeningSendsAll(q, slot);
      case CloseOk(slot) => ClosingSends(q, slot);
      case _ => AnswersSendNothing(q, e);
    }
  }

  lemma AnswersSendNothing(q: QueueChannel, e: Event)
    requires !e.Asked? && !e.OpenOk? && !e.CloseOk?
    ensures q.sent + SentOn(q, e) == q.sent
  {
  }

  lemma AskingSends(q: QueueChannel, r: Request)
    ensures Ask(q, r).sent == q.sent + SentOn(q, Asked(r))
  {
    hide AskAll, Sends, LastDeclared, Declares, Ask;
    RequestsSend(q, [r]);
    OneRequest(q, r);
    assert q.sent + [] == q.sent;
  }

  lemma OpeningSendsAll(q: QueueChannel, slot: seq<Request>)
    ensures After(q, OpenOk(slot)).sent == q.sent + SentOn(q, OpenOk(slot))
  {
    hide AskAll, Sends, LastDeclared, Declares, After, BindCommands;
    RequestsSend(q.(isOpen := true), slot);
    OpeningSends(q, slot);
    if !Declares(slot) {
      NothingDeclared(q.name, q.options, slot);
    }
    var declare := if q.delayedDeclare && !Declares(slot) then [Declare(q.name, q.options)] else [];
    var bind := BindCommands(LastDeclared(q.name, q.options, slot).0, q.delayedBindings);
    assert ((q.sent + Sends(q.name, slot)) + declare) + bind == q.sent + ((Sends(q.name, slot) + declare) + bind);
  }

  lemma ClosingSends(q: QueueChannel, slot: seq<Request>)
    ensures After(q, CloseOk(slot)).sent == q.sent + SentOn(q, CloseOk(slot))
  {
    hide AskAll, Sends, LastDeclared, Declares;
    RequestsSend(q, slot);
    var own := if q.isOpen then Sends(q.name, slot) else [];
    var delete := if q.declared then [Delete(LastDeclared(q.name, q.options, slot).0)] else [];
    assert (q.sent + own) + delete == q.sent + (own + delete);
  }

  /** What every event leaves waiting, and under which name. Only a closed channel lets requests wait; a lost
      connection and answers leave them; opening leaves none. The broker's answer to a declaration brings
      the name that counts from then on. */
  lemma EventLeaves(q: QueueChannel, e: Event)
    requires Flushed(q)
    ensures var t := After(q, e);
            var rs := RequestsOf(e);
            && (if e.DeclareOk? then t.name == e.name && t.options == q.options
                else (t.name, t.options) == LastDeclared(q.name, q.options, rs))
            && t.delayedDeclare == (!q.isOpen && !e.OpenOk? && (q.delayedDeclare || Declares(rs)))
            && t.delayedBindings == if q.isOpen || e.OpenOk? then [] else q.delayedBindings + BindingsAsked(rs)
  {
    hide AskAll, LastDeclared, Declares, BindAll, BindingsAsked, Opening;
    match e {
      case Asked(r) =>
        RequestsSend(q, [r]);
        OneRequest(q, r);
      case OpenOk(slot) =>
        RequestsSend(q.(isOpen := true), slot);
        OpeningSends(q, slot);
        OpeningNames(AskAll(q.(isOpen := true), slot));
      case CloseOk(slot) =>
        RequestsSend(q, slot);
      case _ =>
        NobodyDeclares(q);
    }
  }

  /** The requests that an event carries. */
  function RequestsOf(e: Event): seq<Request> {
    match e
    case Asked(r) => [r]
    case OpenOk(slot) => slot
    case CloseOk(slot) => slot
    case _ => []
  }

  lemma OpeningNames(q: QueueChannel)
    requires q.isOpen
    ensures Opening(q).name == q.name && Opening(q).options == q.options
  {
    hide BindAll;
    var d := if q.delayedDeclare then SendDeclare(q) else q;
    BindAllSends(d, d.delayedBindings);
  }

  lemma {:induction false} NothingDeclared(name: Text, options: int, rs: seq<Request>)
    requires !Declares(rs)
    ensures LastDeclared(name, options, rs) == (name, options)
    decreases |rs|
  {
    if rs != [] {
      assert rs[|rs| - 1] in rs;
      assert forall r <- rs[..|rs| - 1] :: r in rs;
      NothingDeclared(name, options, rs[..|rs| - 1]);
    }
  }

  /** Whether the queue is open and declared after any events, from the last event that says so. */
  function IsOpenAfter(es: seq<Event>): bool {
    if es == [] then false
    else
      match es[|es| - 1]
      case OpenOk(_) => true
      case CloseOk(_) => false
      case Disconnected => false
      case _ => IsOpenAfter(es[..|es| - 1])
  }

  function IsDeclaredAfter(es: seq<Event>): bool {
    if es == [] then false
    else
      match es[|es| - 1]
      case DeclareOk(_) => true
      case DeleteOk => false
      case ConsumeOk => false
      case _ => IsDeclaredAfter(es[..|es| - 1])
  }

  // ---------------------------------------------------------------------- runs

  ghost predicate IsRun(qs: seq<QueueChannel>, es: seq<Event>) {
    && |qs| == |es| + 1
    && qs[0] == FRESH
    && forall i | 0 <= i < |es| :: qs[i + 1] == After(qs[i], es[i])
  }

  /** All bindings asked for by the first n events, in order. */
  function Requested(es: seq<Event>, n: nat): seq<Binding>
    requires n <= |es|
  {
    if n == 0 then [] else Requested(es, n - 1) + BindingsOf(es[n - 1])
  }

  lemma AskedInOrder(q: QueueChannel, rs: seq<Request>)
    requires Flushed(q)
    ensures var t := AskAll(q, rs);
            Flushed(t) && t.isOpen == q.isOpen && Kept(t) == Kept(q) + BindingsAsked(rs)
  {
    hide BindingsSent, AskAll, BindingsAsked;
    var was, asked := BindingsSent(q.sent), BindingsAsked(rs);
    if q.isOpen {
      AskAllOpen(q, rs);
      assert was + asked + [] == was + [] + asked;
    } else {
      AskAllClosed(q, rs);
      assert was + (q.delayedBindings + asked) == was + q.delayedBindings + asked;
    }
  }

  lemma ClosedInOrder(q: QueueChannel, slot: seq<Request>)
    requires Flushed(q)
    ensures Kept(After(q, CloseOk(slot))) == Kept(q) + BindingsAsked(slot)
  {
    hide BindingsSent, AskAll, BindingsAsked;
    AskedInOrder(q, slot);
    var t := AskAll(q, slot);
    SentLast(t.sent, Delete(t.name));
    assert BindingsSent(t.sent) + [] == BindingsSent(t.sent);
  }

  lemma OneRequest(q: QueueChannel, r: Request)
    ensures AskAll(q, [r]) == Ask(q, r) && BindingsAsked([r]) == BindingsOf(Asked(r))
  {
    assert [r][1..] == [];
  }

  lemma StepKeeps(q: QueueChannel, e: Event)
    requires Flushed(q)
    ensures Flushed(After(q, e))
    ensures !e.OpenOk? ==> Kept(After(q, e)) == Kept(q) + BindingsOf(e)
  {
    hide BindingsSent, AskAll, BindingsAsked, Ask, Opening;
    match e {
      case Asked(r) =>
        OneRequest(q, r);
        AskedInOrder(q, [r]);
      case OpenOk(slot) => OpeningSends(q, slot);
      case CloseOk(slot) => ClosedInOrder(q, slot);
      case _ => assert Kept(q) + [] == Kept(q);
    }
  }

  lemma StepLosesNothing(q: QueueChannel, e: Event)
    requires Flushed(q)
    ensures multiset(Kept(After(q, e))) == multiset(Kept(q)) + multiset(BindingsOf(e))
  {
    hide After, BindingsSent, BindingsAsked;
    StepKeeps(q, e);
    if e.OpenOk? {
      OpeningSends(q, e.slot);
      Swapped(BindingsSent(q.sent), BindingsAsked(e.slot), q.delayedBindings);
    } else {
      Swapped([], Kept(q), BindingsOf(e));
      assert [] + Kept(q) + BindingsOf(e) == Kept(q) + BindingsOf(e);
    }
  }

  lemma Swapped(a: seq<Binding>, b: seq<Binding>, c: seq<Binding>)
    ensures multiset(a + b + c) == multiset(a + c) + multiset(b) == multiset(a) + multiset(b) + multiset(c)
  {
  }

  /** In every run, every binding asked for has been sent once or is waiting once, and nothing waits on
      an open channel. */
  lemma {:induction false} NoBindingIsLost(qs: seq<QueueChannel>, es: seq<Event>, n: nat)
    requires IsRun(qs, es) && n < |qs|
    ensures Flushed(qs[n])
    ensures multiset(BindingsSent(qs[n].sent) + qs[n].delayedBindings) == multiset(Requested(es, n))
    decreases n
  {
    hide After, BindingsSent, BindingsOf;
    if n > 0 {
      NoBindingIsLost(qs, es, n - 1);
      StepKeeps(qs[n - 1], es[n - 1]);
      StepLosesNothing(qs[n - 1], es[n - 1]);
    } else {
      assert BindingsSent([]) == [] by {
        NothingSent();
      }
    }
  }

  /** Over every run the channel is open iff the last word on it was open-ok, and the queue counts as
      declared iff the last word on that was declare-ok; consume-ok takes it back. */
  lemma {:induction false} StatusFollows(qs: seq<QueueChannel>, es: seq<Event>, n: nat)
    requires IsRun(qs, es) && n < |qs|
    ensures qs[n].isOpen == IsOpenAfter(es[..n]) && qs[n].declared == IsDeclaredAfter(es[..n])
    decreases n
  {
    if n > 0 {
      StatusFollows(qs, es, n - 1);
      assert es[..n][..n - 1] == es[..n - 1];
      StatusStep(qs[n - 1], es[n - 1]);
    }
  }

  lemma StatusStep(q: QueueChannel, e: Event)
    ensures After(q, e).isOpen == (e.OpenOk? || (!e.CloseOk? && !e.Disconnected? && q.isOpen))
    ensures After(q, e).declared == (e.DeclareOk? || (!e.DeleteOk? && !e.ConsumeOk? && q.declared))
  {
    hide AskAll, BindAll;
    match e {
      case OpenOk(slot) =>
        RequestsSend(q.(isOpen := true), slot);
        var s := AskAll(q.(isOpen := true), slot);
        var d := if s.delayedDeclare then SendDeclare(s) else s;
        BindAllSends(d, d.delayedBindings);
      case CloseOk(slot) => RequestsSend(q, slot);
      case Asked(r) =>
      case _ =>
    }
  }

  lemma NothingSent()
    ensures BindingsSent([]) == []
  {
  }

  /** The channel opens, and the slot's bindings and the waiting ones can change places. */
  predicate Commutes(q: QueueChannel, e: Event) {
    e.OpenOk? ==> BindingsAsked(e.slot) + q.delayedBindings == q.delayedBindings + BindingsAsked(e.slot)
  }

  /** With no binding on both sides that says: nothing is waiting, or the slot binds nothing. */
  lemma CommutesIff(q: QueueChannel, slot: seq<Request>)
    ensures q.delayedBindings == [] || BindingsAsked(slot) == [] ==> Commutes(q, OpenOk(slot))
    ensures (forall b <- BindingsAsked(slot) :: b !in q.delayedBindings) && Commutes(q, OpenOk(slot)) ==>
              q.delayedBindings == [] || BindingsAsked(slot) == []
  {
    hide BindingsAsked;
    var b, c := BindingsAsked(slot), q.delayedBindings;
    if b == [] || c == [] {
      assert b + c == c + b;
    } else {
      assert (b + c)[0] == b[0] && (c + b)[0] == c[0];
      assert b[0] in b;
    }
  }

  /** One opening keeps the order of the requests exactly if they commute. */
  lemma OrderKeptIff(q: QueueChannel, slot: seq<Request>)
    ensures Kept(After(q, OpenOk(slot))) == Kept(q) + BindingsOf(OpenOk(slot)) <==> Commutes(q, OpenOk(slot))
  {
    hide After, BindingsSent, BindingsAsked;
    OpeningSends(q, slot);
    Cancel(BindingsSent(q.sent), BindingsAsked(slot), q.delayedBindings);
  }

  lemma Cancel(a: seq<Binding>, b: seq<Binding>, c: seq<Binding>)
    ensures a + b + c == a + c + b <==> b + c == c + b
  {
    assert a + b + c == a + (b + c) && a + c + b == a + (c + b);
    assert (a + (b + c))[|a|..] == b + c && (a + (c + b))[|a|..] == c + b;
  }

  ghost predicate AllCommute(qs: seq<QueueChannel>, es: seq<Event>, n: nat)
    requires n <= |es| < |qs|
  {
    forall i | 0 <= i < n :: Commutes(qs[i], es[i])
  }

  lemma RequestsGrow(qs: seq<QueueChannel>, es: seq<Event>, n: nat)
    requires IsRun(qs, es) && n < |es|
    ensures BindingsSent(qs[n].sent) <= BindingsSent(qs[n + 1].sent)
    ensures |BindingsSent(qs[n].sent)| <= |Requested(es, n)|
    ensures Requested(es, n + 1) == Requested(es, n) + BindingsOf(es[n])
    ensures |BindingsSent(qs[n + 1].sent)| <= |Requested(es, n + 1)|
  {
    hide After, BindingsSent, BindingsOf;
    SentGrows(qs[n], es[n]);
    SentAtMost(qs, es, n);
    SentAtMost(qs, es, n + 1);
  }

  lemma SentAtMost(qs: seq<QueueChannel>, es: seq<Event>, n: nat)
    requires IsRun(qs, es) && n < |qs|
    ensures |BindingsSent(qs[n].sent)| <= |Requested(es, n)|
  {
    hide After, BindingsSent, Requested;
    NoBindingIsLost(qs, es, n);
    var kept := BindingsSent(qs[n].sent) + qs[n].delayedBindings;
    assert |multiset(kept)| == |kept| && |multiset(Requested(es, n))| == |Requested(es, n)|;
  }

  lemma SentGrows(q: QueueChannel, e: Event)
    ensures BindingsSent(q.sent) <= BindingsSent(After(q, e).sent)
  {
    hide BindingsSent, AskAll, BindingsAsked, Ask, Opening;
    match e {
      case Asked(r) => AskKeeps(q, r);
      case OpenOk(slot) => OpeningSends(q, slot);
      case CloseOk(slot) =>
        AnySlotSends(q, slot);
        SentLast(AskAll(q, slot).sent, Delete(AskAll(q, slot).name));
      case _ =>
    }
    if e.OpenOk? {
      assert Flushed(After(q, e)) && After(q, e).isOpen;
      assert BindingsSent(After(q, e).sent) + [] == BindingsSent(After(q, e).sent);
    }
  }

  lemma AnySlotSends(q: QueueChannel, slot: seq<Request>)
    ensures BindingsSent(q.sent) <= BindingsSent(AskAll(q, slot).sent)
  {
    hide BindingsSent, AskAll, BindingsAsked;
    if q.isOpen {
      AskAllOpen(q, slot);
    } else {
      AskAllClosed(q, slot);
    }
  }

  lemma PrefixShort(a: seq<Binding>, b: seq<Binding>, c: seq<Binding>, d: seq<Binding>)
    requires a <= b && |a| <= |c|
    ensures b <= c + d ==> a <= c
  {
    if b <= c + d {
      assert a == (c + d)[..|a|] == c[..|a|];
    }
  }

  /** Once bindings have overtaken each other on the wire, that is never mended. */
  lemma {:induction false} DisorderStays(qs: seq<QueueChannel>, es: seq<Event>, n: nat)
    requires IsRun(qs, es) && n < |qs| && !AllCommute(qs, es, n)
    ensures !(BindingsSent(qs[n].sent) <= Requested(es, n))
    decreases n
  {
    hide After, BindingsSent, BindingsOf, Commutes, Requested;
    RequestsGrow(qs, es, n - 1);
    var sent, wanted := BindingsSent(qs[n - 1].sent), Requested(es, n - 1);
    if !AllCommute(qs, es, n - 1) {
      DisorderStays(qs, es, n - 1);
      PrefixShort(sent, BindingsSent(qs[n].sent), wanted, BindingsOf(es[n - 1]));
    } else {
      OrderOverRuns(qs, es, n - 1);
      NoBindingIsLost(qs, es, n - 1);
      Overtaken(qs[n - 1], es[n - 1]);
    }
  }

  lemma Overtaken(q: QueueChannel, e: Event)
    requires !Commutes(q, e)
    ensures var t := After(q, e);
            !(BindingsSent(t.sent) <= Kept(q) + BindingsOf(e))
  {
    hide After, BindingsSent, BindingsAsked;
    OpeningSends(q, e.slot);
    OrderKeptIff(q, e.slot);
    var t := After(q, e);
    assert Kept(t) == BindingsSent(t.sent);
    assert |Kept(t)| == |Kept(q) + BindingsOf(e)|;
  }

  lemma {:induction false} OrderOverRuns(qs: seq<QueueChannel>, es: seq<Event>, n: nat)
    requires IsRun(qs, es) && n < |qs| && AllCommute(qs, es, n)
    ensures Kept(qs[n]) == Requested(es, n)
    decreases n
  {
    hide After, BindingsSent, BindingsOf, Commutes;
    if n > 0 {
      NoBindingIsLost(qs, es, n - 1);
      OrderOverRuns(qs, es, n - 1);
      StepKeeps(qs[n - 1], es[n - 1]);
      assert Commutes(qs[n - 1], es[n - 1]);
      if es[n - 1].OpenOk? {
        OrderKeptIff(qs[n - 1], es[n - 1].slot);
      }
    } else {
      NothingSent();
    }
  }

  /** Over any run: the bindings sent, followed by those waiting, are the requests in order exactly when
      at every opening so far the slot's bindings and the waiting ones could change places. */
  lemma BindingsStayInOrderIff(qs: seq<QueueChannel>, es: seq<Event>, n: nat)
    requires IsRun(qs, es) && n < |qs|
    ensures BindingsSent(qs[n].sent) + qs[n].delayedBindings == Requested(es, n)
       <==> forall i | 0 <= i < n :: Commutes(qs[i], es[i])
  {
    hide After, BindingsSent, BindingsOf, Commutes, Requested;
    if AllCommute(qs, es, n) {
      OrderOverRuns(qs, es, n);
    } else {
      DisorderStays(qs, es, n);
      var sent := BindingsSent(qs[n].sent);
      assert sent <= sent + qs[n].delayedBindings;
    }
  }

  /** A run that fails: one binding is asked for while the channel is closed, another in the slot that
      runs when it opens, and the second goes out first. */
  lemma OvertakingRun(x: Binding, y: Binding)
    requires x != y
    ensures var es := [Asked(BindTo(x)), OpenOk([BindTo(y)])];
            var q1 := After(FRESH, es[0]);
            var qs := [FRESH, q1, After(q1, es[1])];
            IsRun(qs, es) && BindingsSent(qs[2].sent) == [y, x] && Requested(es, 2) == [x, y]
  {
    hide BindingsSent, Opening, AskAll;
    var e0, e1 := Asked(BindTo(x)), OpenOk([BindTo(y)]);
    var q1 := After(FRESH, e0);
    assert q1.delayedBindings == [x];
    OpeningSends(q1, [BindTo(y)]);
    NothingSent();
    assert [BindTo(y)][1..] == [];
    assert BindingsAsked([BindTo(y)]) == [y];
    assert Kept(After(q1, e1)) == [y, x];
    assert BindingsSent(After(q1, e1).sent) + [] == BindingsSent(After(q1, e1).sent);
    assert Requested([e0, e1], 1) == [x];
  }

  // -------------------------------------------------------------- channel numbers

  /** What happens to the static counter: a channel asks for a number, names its own, or the connection
      is lost. */
  datatype Numbering = Automatic | Explicit(number: int) | Reset

  /** next: nextChannelNumber_; given: the numbers handed out so far, in order. */
  datatype Numbers = Numbers(next: int, given: seq<int>)

  /** ChannelPrivate::init, and the reset of _q_disconnected. */
  function Number(s: Numbers, e: Numbering): Numbers {
    match e
    case Automatic => Numbers(MaxInt(-1, s.next + 1 + 1), s.given + [s.next + 1])
    case Explicit(n) => Numbers(MaxInt(n, s.next + 1), s.given + [n])
    case Reset => s.(next := 0)
  }

  function MaxInt(a: int, b: int): int {
    if a < b then b else a
  }

  function NumberAll(s: Numbers, es: seq<Numbering>): Numbers
    decreases |es|
  {
    if es == [] then s else NumberAll(Number(s, es[0]), es[1..])
  }

  /** An explicit number is not -1, which asks for an automatic one. */
  predicate Explicits(es: seq<Numbering>) {
    forall e <- es :: e.Explicit? ==> 0 <= e.number
  }

  lemma {:induction false} NumbersBelow(s: Numbers, es: seq<Numbering>)
    requires 0 <= s.next && (forall n <- s.given :: n <= s.next) && Explicits(es) && Reset !in es
    ensures var t := NumberAll(s, es);
            && 0 <= t.next && forall n <- t.given :: n <= t.next
    decreases |es|
  {
    if es != [] {
      assert es[0] in es;
      assert forall e <- es[1..] :: e in es;
      NumbersBelow(Number(s, es[0]), es[1..]);
    }
  }

  /** The number that an automatic channel would get now. */
  function NextAutomatic(s: Numbers): int {
    var t := Number(s, Automatic);
    t.given[|t.given| - 1]
  }

  predicate AboveAll(n: int, given: seq<int>) {
    forall m <- given :: m < n
  }

  /** Until the connection is lost, an automatic number is larger than every number given before it. */
  lemma AutomaticIsNew(es: seq<Numbering>)
    requires Explicits(es) && Reset !in es
    ensures var s := NumberAll(Numbers(0, []), es);
            AboveAll(NextAutomatic(s), s.given)
  {
    NumbersBelow(Numbers(0, []), es);
  }

  lemma {:induction false} NumberAllFrom(next: int, given: seq<int>, es: seq<Numbering>)
    ensures var t, u := NumberAll(Numbers(next, given), es), NumberAll(Numbers(next, []), es);
            t.next == u.next && t.given == given + u.given
    decreases |es|
  {
    if es != [] {
      var s, t := Number(Numbers(next, given), es[0]), Number(Numbers(next, []), es[0]);
      NumberAllFrom(s.next, s.given, es[1..]);
      NumberAllFrom(t.next, t.given, es[1..]);
      assert s.given == given + t.given;
    } else {
      assert given + [] == given;
    }
  }

  lemma {:induction false} NumberAllAppend(s: Numbers, a: seq<Numbering>, b: seq<Numbering>)
    ensures NumberAll(s, a + b) == NumberAll(NumberAll(s, a), b)
    decreases |a|
  {
    if a == [] {
      assert a + b == b;
    } else {
      NumberAllAppend(Number(s, a[0]), a[1..], b);
      assert (a + b)[1..] == a[1..] + b;
    }
  }

  /** After that the counter starts again while the old channels keep their numbers: the next automatic
      number is larger than all numbers given exactly when the counter has come up again to every number
      given before the loss. */
  lemma AutomaticIsNewAfterLossIff(a: seq<Numbering>, b: seq<Numbering>)
    requires Explicits(b) && Reset !in b
    ensures var s := NumberAll(Numbers(0, []), a + [Reset] + b);
            AboveAll(NextAutomatic(s), s.given) <==>
            AboveAll(NumberAll(Numbers(0, []), b).next + 1, NumberAll(Numbers(0, []), a).given)
  {
    hide NumberAll;
    var before, after := NumberAll(Numbers(0, []), a), NumberAll(Numbers(0, []), b);
    NumberAllAppend(Numbers(0, []), a, [Reset] + b);
    assert a + ([Reset] + b) == a + [Reset] + b;
    ResetFirst(before, b);
    NumberAllFrom(0, before.given, b);
    NumbersBelow(Numbers(0, []), b);
    var s := NumberAll(Numbers(0, []), a + [Reset] + b);
    assert s.given == before.given + after.given && s.next == after.next;
    assert forall n <- before.given :: n in s.given;
    assert forall n <- s.given :: n in before.given || n in after.given;
  }

  lemma ResetFirst(s: Numbers, b: seq<Numbering>)
    ensures NumberAll(s, [Reset] + b) == NumberAll(Numbers(0, s.given), b)
  {
    assert ([Reset] + b)[1..] == b;
  }

  /** Two automatic channels, one before and one after the loss, both get number 1. */
  lemma ResetRepeats()
    ensures NumberAll(Numbers(0, []), [Automatic, Reset, Automatic]).given == [1, 1]
  {
    assert [Automatic, Reset, Automatic][1..] == [Reset, Automatic];
    assert [Reset, Automatic][1..] == [Automatic];
    assert NumberAll(Numbers(0, [1]), [Automatic]).given == [1, 1];
    assert NumberAll(Numbers(2, [1]), [Reset, Automatic]).given == [1, 1];
  }

  /** A channel that names its number gets it, and the counter moves on. */
  lemma NamedNumberIsGiven(s: Numbers, n: int)
    ensures var t := Number(s, Explicit(n));
            t.given == s.given + [n] && s.next < t.next && n <= t.next && (t.next == n || t.next == s.next + 1)
    ensures Number(s, Reset).given == s.given
  {
  }

  function Odd(from: int, count: nat): seq<int> {
    seq(count, i requires 0 <= i < count => from + 2 * i + 1)
  }

  /** Automatic numbers alone go up by two: 1, 3, 5 and so on, because the counter is stepped before and
      after. */
  lemma {:induction false} AutomaticGoesByTwo(s: Numbers, es: seq<Numbering>)
    requires 0 <= s.next && forall e <- es :: e == Automatic
    ensures NumberAll(s, es).given == s.given + Odd(s.next, |es|)
    decreases |es|
  {
    if es == [] {
      assert s.given + Odd(s.next, 0) == s.given;
    } else {
      assert es[0] in es;
      assert forall e <- es[1..] :: e in es;
      AutomaticGoesByTwo(Number(s, Automatic), es[1..]);
      assert [s.next + 1] + Odd(s.next + 2, |es| - 1) == Odd(s.next, |es|);
      assert (s.given + [s.next + 1]) + Odd(s.next + 2, |es| - 1) == s.given + ([s.next + 1] + Odd(s.next + 2, |es| - 1));
    }
  }

  /** nextChannelNumber_. */
  class Counter {
    var next: int
    ghost var given: seq<int>

    constructor ()
      ensures Model() == Numbers(0, [])
    {
      next, given := 0, [];
    }

    ghost function Model(): Numbers
      reads this
    {
      Numbers(next, given)
    }

    /** init: -1 asks for an automatic number. */
    method Init(channelNumber: int) returns (number: int, needOpen: bool)
      modifies this
      ensures Model() == Number(old(Model()), if channelNumber == -1 then Automatic else Explicit(channelNumber))
      ensures given == old(given) + [number] && (needOpen <==> channelNumber == -1)
    {
      needOpen := channelNumber == -1;
      if channelNumber == -1 {
        next := next + 1;
        number := next;
      } else {
        number := channelNumber;
      }
      next := MaxInt(channelNumber, next + 1);
      given := given + [number];
    }

    method Disconnected()
      modifies this
      ensures Model() == Number(old(Model()), Reset)
    {
      next := 0;
    }
  }

  // ---------------------------------------------------------------------- octets

  const QUEUE := 50
  const DECLARE := 10
  const BIND := 20
  const DELETE := 40

  /** if-unused, if-empty and no-wait. */
  const DELETE_FLAGS: byte := 7

  function IdOf(c: Command): int {
    match c
    case Declare(_, _) => DECLARE
    case Bind(_, _) => BIND
    case Delete(_) => DELETE
  }

  /** The arguments, each behind a reserved number; tables are empty. */
  function Arguments(c: Command): seq<byte> {
    match c
    case Declare(name, options) => Big(2, 0) + (EncodeShort(name) + ([options % 256] + Big(4, 0)))
    case Bind(name, b) =>
      Big(2, 0) + (EncodeShort(name) + (EncodeShort(b.exchange) + (EncodeShort(b.key) + ([0] + Big(4, 0)))))
    case Delete(name) => Big(2, 0) + (EncodeShort(name) + [DELETE_FLAGS])
  }

  function CommandFrame(number: int, c: Command): seq<byte> {
    WellSized(METHOD_FRAME, number, MethodPayload(QUEUE, IdOf(c), Arguments(c)))
  }

  function CommandFrames(number: int, cs: seq<Command>): seq<seq<byte>> {
    seq(|cs|, i requires 0 <= i < |cs| => CommandFrame(number, cs[i]))
  }

  datatype Option<T> = None | Some(value: T)

  /** The other end: a method frame of this class, taken apart by the layout of its method. */
  function ReadCommand(f: Frame): Option<Command> {
    if !f.Method? || f.methodClass != QUEUE then None
    else
      var (name, s) := DecodeShort(TakeBig(2, f.arguments).1);
      if f.id == DECLARE then Some(Declare(name, DecodeOctet(s).0))
      else if f.id == BIND then
        var (exchange, s1) := DecodeShort(s);
        Some(Bind(name, Binding(exchange, DecodeShort(s1).0)))
      else if f.id == DELETE then Some(Delete(name))
      else None
  }

  predicate CommandOk(c: Command) {
    && ShortOk(c.name)
    && (c.Declare? ==> 0 <= c.options < 256)
    && (c.Bind? ==> ShortOk(c.binding.exchange) && ShortOk(c.binding.key))
  }

  lemma ArgumentsBound(c: Command)
    requires CommandOk(c)
    ensures |Arguments(c)| < 1000
  {
    hide Big;
  }

  lemma CommandRoundTrip(number: int, c: Command)
    requires FitsSigned(2, number) && CommandOk(c)
    ensures IsUnit(AmqpFrame.Next, CommandFrame(number, c)) && HEADER_SIZE <= |CommandFrame(number, c)|
    ensures ReadCommand(ParseFrame(CommandFrame(number, c))) == Some(c)
  {
    hide Big, FromBig, EncodeShort, DecodeShort, FrameBytes, ParseFrame, AmqpFrame.Next, MethodPayload;
    Pow256Values();
    ArgumentsBound(c) by {
      assert CommandOk(c);
    }
    PayloadLength(c);
    FrameIsUnit(METHOD_FRAME, number, MethodPayload(QUEUE, IdOf(c), Arguments(c)));
    FrameFields(METHOD_FRAME, number, MethodPayload(QUEUE, IdOf(c), Arguments(c)));
    MethodRoundTrip(number, QUEUE, IdOf(c), Arguments(c));
    match c {
      case Declare(name, options) =>
        var s := [options % 256] + Big(4, 0);
        TakeBigOf(2, 0, EncodeShort(name) + s);
        ShortRoundTripIff(name, s);
        OctetOf(options % 256, Big(4, 0));
      case Bind(name, b) =>
        var s2 := [0] + Big(4, 0);
        var s1 := EncodeShort(b.key) + s2;
        var s := EncodeShort(b.exchange) + s1;
        TakeBigOf(2, 0, EncodeShort(name) + s);
        ShortRoundTripIff(name, s);
        ShortRoundTripIff(b.exchange, s1);
        ShortRoundTripIff(b.key, s2);
      case Delete(name) =>
        TakeBigOf(2, 0, EncodeShort(name) + [DELETE_FLAGS]);
        ShortRoundTripIff(name, [DELETE_FLAGS]);
    }
  }

  lemma PayloadLength(c: Command)
    ensures |MethodPayload(QUEUE, IdOf(c), Arguments(c))| == 4 + |Arguments(c)|
  {
    hide Big, Arguments;
  }

  /** What a queue has written is cut apart and read back as the commands it sent, in order. */
  lemma CommandsRoundTrip(number: int, cs: seq<Command>)
    requires FitsSigned(2, number) && forall c <- cs :: CommandOk(c)
    ensures Stable(AmqpFrame.Next)
    ensures var cut := Parse(AmqpFrame.Next, Concat(CommandFrames(number, cs)));
            && cut.left == [] && |cut.units| == |cs|
            && forall i | 0 <= i < |cs| ::
                 HEADER_SIZE <= |cut.units[i]| && ReadCommand(ParseFrame(cut.units[i])) == Some(cs[i])
  {
    hide AmqpFrame.Next, CommandFrame, ParseFrame, ReadCommand, Concat;
    NextIsStable();
    var units := CommandFrames(number, cs);
    forall i | 0 <= i < |cs|
      ensures IsUnit(AmqpFrame.Next, units[i]) && HEADER_SIZE <= |units[i]|
      ensures ReadCommand(ParseFrame(units[i])) == Some(cs[i])
    {
      assert cs[i] in cs;
      CommandRoundTrip(number, cs[i]);
    }
    ParseUnits(AmqpFrame.Next, units, []);
    NothingLeft();
    assert units + [] == units && Concat(units) + [] == Concat(units);
  }

  lemma NothingLeft()
    ensures Stable(AmqpFrame.Next) && Parse(AmqpFrame.Next, []) == Cut([], [], false)
  {
    NextIsStable();
  }

  lemma FramesLast(number: int, cs: seq<Command>, c: Command)
    ensures Concat(CommandFrames(number, cs + [c])) == Concat(CommandFrames(number, cs)) + CommandFrame(number, c)
  {
    hide CommandFrame, Concat;
    assert CommandFrames(number, cs + [c]) == CommandFrames(number, cs) + [CommandFrame(number, c)];
    ConcatAppend(CommandFrames(number, cs), [CommandFrame(number, c)]);
    ConcatCons(CommandFrame(number, c), []);
    assert [CommandFrame(number, c)] + [] == [CommandFrame(number, c)];
    NothingJoined();
  }

  lemma NothingJoined()
    ensures Concat([]) == []
  {
  }

  // -------------------------------------------------------------------- objects

  /** QueuePrivate; written is what it has given to the network, all in method frames. */
  class Queue {
    const number: int
    var name: Text
    var options: int
    var isOpen: bool
    var declared: bool
    var delayedDeclare: bool
    var delayedBindings: seq<Binding>
    var written: seq<byte>
    ghost var sent: seq<Command>

    constructor (number: int)
      ensures Valid() && this.number == number && Model() == FRESH
    {
      this.number := number;
      name, options, isOpen, declared, delayedDeclare := [], 0, false, false, false;
      delayedBindings, written, sent := [], [], [];
    }

    /** The octets written are the frames of the commands sent. */
    ghost predicate Valid()
      reads this
    {
      written == Concat(CommandFrames(number, sent))
    }

    ghost function Model(): QueueChannel
      reads this
    {
      QueueChannel(name, options, isOpen, declared, delayedDeclare, delayedBindings, sent)
    }

    method SendFrame(id: int, arguments: seq<byte>, ghost c: Command)
      requires Valid() && id == IdOf(c) && arguments == Arguments(c)
      modifies this`written, this`sent
      ensures Valid() && sent == old(sent) + [c]
    {
      hide Arguments, IdOf, Concat, WellSized, MethodPayload, CommandFrames;
      var stream := new DataStream(written);
      var frame := new MethodFrame(number, QUEUE, id, arguments);
      frame.ToStream(stream);
      FramesLast(number, sent, c);
      written := stream.bytes;
      sent := sent + [c];
    }

    method DeclareAs(name: Text, options: int)
      requires Valid()
      modifies this
      ensures Valid() && Model() == Ask(old(Model()), DeclareQueue(name, options))
    {
      this.name, this.options := name, options;
      DeclareNow();
    }

    method DeclareNow()
      requires Valid()
      modifies this
      ensures Valid() && Model() == SendDeclare(old(Model()))
    {
      hide Big, EncodeShort, Concat, CommandFrames;
      if !isOpen {
        delayedDeclare := true;
        return;
      }
      var out := Big(2, 0) + (EncodeShort(name) + ([options % 256] + Big(4, 0)));
      SendFrame(DECLARE, out, Declare(name, options));
      delayedDeclare := false;
    }

    method BindTo(b: Binding)
      requires Valid()
      modifies this
      ensures Valid() && Model() == SendBind(old(Model()), b)
    {
      hide Big, EncodeShort, Concat, CommandFrames;
      if !isOpen {
        delayedBindings := delayedBindings + [b];
        return;
      }
      var out := Big(2, 0)
        + (EncodeShort(name) + (EncodeShort(b.exchange) + (EncodeShort(b.key) + ([0] + Big(4, 0)))));
      SendFrame(BIND, out, Bind(name, b));
    }

    method Remove()
      requires Valid()
      modifies this`written, this`sent
      ensures Valid()
      ensures Model() == old(Model()).(sent := if declared then old(sent) + [Delete(name)] else old(sent))
    {
      hide Big, EncodeShort, Concat, CommandFrames;
      if !declared {
        return;
      }
      var out := Big(2, 0) + (EncodeShort(name) + [DELETE_FLAGS]);
      SendFrame(DELETE, out, Delete(name));
    }

    /** The slots of the program. */
    method RunSlot(slot: seq<Request>)
      requires Valid()
      modifies this
      ensures Valid() && Model() == AskAll(old(Model()), slot)
    {
      hide Ask;
      assert slot[0..] == slot;
      for i := 0 to |slot|
        invariant Valid() && AskAll(Model(), slot[i..]) == AskAll(old(Model()), slot)
      {
        assert slot[i..][1..] == slot[i + 1..];
        match slot[i] {
          case DeclareQueue(n, o) => DeclareAs(n, o);
          case BindTo(b) =>
            AskToBind(Model(), b);
            BindTo(b);
        }
      }
    }

    method OnOpen()
      requires Valid()
      modifies this
      ensures Valid() && Model() == Opening(old(Model()))
    {
      hide SendBind;
      if delayedDeclare {
        DeclareNow();
      }
      if delayedBindings != [] {
        var bindings := delayedBindings;
        ghost var start := Model();
        assert bindings[0..] == bindings;
        for i := 0 to |bindings|
          invariant Valid() && BindAll(Model(), bindings[i..]) == BindAll(start, bindings)
        {
          assert bindings[i..][1..] == bindings[i + 1..];
          BindTo(bindings[i]);
        }
        delayedBindings := [];
      }
    }

    method OnOpenOk(slot: seq<Request>)
      requires Valid()
      modifies this
      ensures Valid() && Model() == After(old(Model()), OpenOk(slot))
    {
      isOpen := true;
      RunSlot(slot);
      OnOpen();
    }

    method OnCloseOk(slot: seq<Request>)
      requires Valid()
      modifies this
      ensures Valid() && Model() == After(old(Model()), CloseOk(slot))
    {
      RunSlot(slot);
      Remove();
      isOpen := false;
    }
  }

  lemma AskToBind(q: QueueChannel, b: Binding)
    ensures Ask(q, Request.BindTo(b)) == SendBind(q, b)
  {
  }
}
