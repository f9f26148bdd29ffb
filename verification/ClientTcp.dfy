/** ClientTcp's output side: what the socket does not take at once waits in write_buf. */
module ClientTcp {
  import opened Bytes

  const WRITE_LIMIT := 1024 * 1024

  /** sent is what the socket has accepted. */
  datatype Output = Output(sent: seq<byte>, pending: seq<byte>, closing: bool)

  /** accepted is the result of sock->write: how many octets it took, or negative on an error. */
  datatype Call = Write(dat: seq<byte>, accepted: int) | Flush(accepted: int)

  function Offered(o: Output, c: Call): seq<byte> {
    if c.Write? && o.pending == [] then c.dat else if c.Flush? then o.pending else []
  }

  /** A socket takes no more than it is offered, and nothing once it is closed. */
  predicate Possible(o: Output, c: Call) {
    c.accepted <= |Offered(o, c)| && (o.closing ==> c.accepted < 0)
  }

  function After(o: Output, c: Call): Output
    requires Possible(o, c)
  {
    match c
    case Write(dat, accepted) =>
      if o.pending == [] then
        if accepted < 0 then o.(closing := true)
        else Output(o.sent + dat[..accepted], dat[accepted..], o.closing)
      else if |o.pending + dat| > WRITE_LIMIT then o.(pending := [], closing := true)
      else o.(pending := o.pending + dat)
    case Flush(accepted) =>
      if o.pending == [] then o
      else if accepted < 0 then o.(closing := true)
      else Output(o.sent + o.pending[..accepted], o.pending[accepted..], o.closing)
  }

  class Connection {
    var sent: seq<byte>
    var writeBuf: seq<byte>
    var closing: bool

    constructor ()
      ensures Model() == Output([], [], false)
    {
      sent, writeBuf, closing := [], [], false;
    }

    function Model(): Output
      reads this
    {
      Output(sent, writeBuf, closing)
    }

    method Write(dat: seq<byte>, accepted: int)
      requires Possible(Model(), Call.Write(dat, accepted))
      modifies this
      ensures Model() == After(old(Model()), Call.Write(dat, accepted))
    {
      if writeBuf == [] {
        if accepted < 0 {
          closing := true;
          return;
        }
        sent := sent + dat[..accepted];
        if accepted == |dat| {
          return;
        }
        writeBuf := writeBuf + dat[accepted..];
        return;
      }
      writeBuf := writeBuf + dat;
      if |writeBuf| > WRITE_LIMIT {
        writeBuf := [];
        closing := true;
      }
    }

    method Flush(accepted: int)
      requires Possible(Model(), Call.Flush(accepted))
      modifies this
      ensures Model() == After(old(Model()), Call.Flush(accepted))
    {
      if writeBuf == [] {
        return;
      }
      if accepted < 0 {
        closing := true;
        return;
      }
      sent := sent + writeBuf[..accepted];
      writeBuf := writeBuf[accepted..];
    }
  }

  ghost predicate IsRun(os: seq<Output>, cs: seq<Call>) {
    && |os| == |cs| + 1
    && os[0] == Output([], [], false)
    && forall i | 0 <= i < |cs| :: Possible(os[i], cs[i]) && os[i + 1] == After(os[i], cs[i])
  }

  /** Everything the first n calls were asked to write, in order. */
  function Asked(cs: seq<Call>, n: nat): seq<byte>
    requires n <= |cs|
  {
    if n == 0 then []
    else Asked(cs, n - 1) + if cs[n - 1].Write? then cs[n - 1].dat else []
  }

  predicate Fifo(o: Output, asked: seq<byte>) {
    o.sent <= asked && (!o.closing ==> o.sent + o.pending == asked)
  }

  lemma WriteKeepsFifo(o: Output, dat: seq<byte>, accepted: int, asked: seq<byte>)
    requires Possible(o, Write(dat, accepted)) && Fifo(o, asked)
    ensures Fifo(After(o, Write(dat, accepted)), asked + dat)
  {
    var r := After(o, Write(dat, accepted));
    if o.pending == [] && 0 <= accepted {
      assert asked + dat == (asked + dat[..accepted]) + dat[accepted..];
      assert r.sent + r.pending == asked + dat;
    } else if !r.closing {
      assert r.sent + r.pending == (o.sent + o.pending) + dat;
    }
  }

  lemma FlushKeepsFifo(o: Output, accepted: int, asked: seq<byte>)
    requires Possible(o, Flush(accepted)) && Fifo(o, asked)
    ensures Fifo(After(o, Flush(accepted)), asked)
  {
    if o.pending != [] && 0 <= accepted {
      assert o.pending == o.pending[..accepted] + o.pending[accepted..];
    }
  }

  /** The connection is a FIFO: what was accepted is always a prefix of what was asked for, and
      until the connection is dropped the rest is in the buffer, nothing lost and in order. */
  lemma {:induction false} OutputIsFifo(os: seq<Output>, cs: seq<Call>, n: nat)
    requires IsRun(os, cs) && n < |os|
    ensures os[n].sent <= Asked(cs, n)
    ensures !os[n].closing ==> os[n].sent + os[n].pending == Asked(cs, n)
    decreases n
  {
    if n > 0 {
      OutputIsFifo(os, cs, n - 1);
      match cs[n - 1] {
        case Write(dat, accepted) =>
          WriteKeepsFifo(os[n - 1], dat, accepted, Asked(cs, n - 1));
        case Flush(accepted) =>
          FlushKeepsFifo(os[n - 1], accepted, Asked(cs, n - 1));
          assert Asked(cs, n) == Asked(cs, n - 1);
      }
    }
  }

  /** A call drops the connection exactly when the socket reports an error, or the data does not fit
      behind what is already waiting. */
  lemma DroppedWhen(o: Output, c: Call)
    requires Possible(o, c) && !o.closing
    ensures After(o, c).closing <==>
            if c.Write? && o.pending != [] then |o.pending| + |c.dat| > WRITE_LIMIT
            else c.accepted < 0 && (c.Write? || o.pending != [])
    ensures After(o, c).closing && c.Write? ==> After(o, c) == Output(o.sent, [], true)
    ensures After(o, c).closing && c.Flush? ==> After(o, c) == Output(o.sent, o.pending, true)
  {
  }
}
