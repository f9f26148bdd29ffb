/** Incremental framing. Every connection of the daemon keeps a buffer, appends what a read
    returned, and then cuts complete units off its front. This module says once, for all of
    them, that how the input was cut into reads does not matter. */
module Framing {
  import opened Bytes

  /** What the front of a buffer holds: not enough yet, a unit of n octets, or something that
      makes the connection close. */
  datatype Step = Wait | Take(n: nat) | Stop

  /** A decision that looks only at the front: it never takes more than there is, always makes
      progress, and more input never changes a decision already made. */
  ghost predicate Stable(next: seq<byte> -> Step) {
    forall s: seq<byte>, t: seq<byte> :: StableAt(next, s, t)
  }

  ghost predicate StableAt(next: seq<byte> -> Step, s: seq<byte>, t: seq<byte>) {
    && (next(s).Take? ==> 0 < next(s).n <= |s|)
    && (!next(s).Wait? ==> next(s + t) == next(s))
  }

  /** The units cut so far, what stays in the buffer, and whether the connection is closed. */
  datatype Cut = Cut(units: seq<seq<byte>>, left: seq<byte>, stopped: bool)

  /** The cutting loop on a whole buffer. */
  ghost function Parse(next: seq<byte> -> Step, s: seq<byte>): Cut
    requires Stable(next)
    decreases |s|
  {
    assert StableAt(next, s, []);
    match next(s)
    case Wait => Cut([], s, false)
    case Stop => Cut([], [], true)
    case Take(n) =>
      var c := Parse(next, s[n..]);
      Cut([s[..n]] + c.units, c.left, c.stopped)
  }

  /** One read: append, then run the cutting loop. A closed connection reads nothing more. */
  ghost function Feed(next: seq<byte> -> Step, c: Cut, chunk: seq<byte>): Cut
    requires Stable(next)
  {
    if c.stopped then c
    else
      var d := Parse(next, c.left + chunk);
      Cut(c.units + d.units, d.left, d.stopped)
  }

  ghost function FeedAll(next: seq<byte> -> Step, c: Cut, chunks: seq<seq<byte>>): Cut
    requires Stable(next)
    decreases |chunks|
  {
    if chunks == [] then c else FeedAll(next, Feed(next, c, chunks[0]), chunks[1..])
  }

  function Concat(parts: seq<seq<byte>>): seq<byte> {
    if parts == [] then [] else parts[0] + Concat(parts[1..])
  }

  lemma {:induction false} ConcatAppend(a: seq<seq<byte>>, b: seq<seq<byte>>)
    ensures Concat(a + b) == Concat(a) + Concat(b)
  {
    if a == [] {
      assert a + b == b;
    } else {
      ConcatAppend(a[1..], b);
      assert (a + b)[0] == a[0] && (a + b)[1..] == a[1..] + b;
      assert a[0] + (Concat(a[1..]) + Concat(b)) == (a[0] + Concat(a[1..])) + Concat(b);
    }
  }

  /** Cutting s + t in one go is cutting s, then what is left of it together with t. */
  lemma {:induction false} ParseAppend(next: seq<byte> -> Step, s: seq<byte>, t: seq<byte>)
    requires Stable(next)
    ensures Parse(next, s + t) == Feed(next, Parse(next, s), t)
    decreases |s|
  {
    assert StableAt(next, s, t);
    match next(s) {
      case Wait =>
        var d := Parse(next, s + t);
        assert [] + d.units == d.units;
      case Stop =>
        assert next(s + t) == Stop;
      case Take(n) =>
        assert next(s + t) == Take(n);
        ParseAppend(next, s[n..], t);
        assert (s + t)[n..] == s[n..] + t;
        assert (s + t)[..n] == s[..n];
        var c := Parse(next, s[n..]);
        if !c.stopped {
          var d := Parse(next, c.left + t);
          assert [s[..n]] + (c.units + d.units) == ([s[..n]] + c.units) + d.units;
        }
    }
  }

  /** Any chunking gives what the whole stream gives. */
  lemma {:induction false} ChunkIndependent(next: seq<byte> -> Step, start: seq<byte>, chunks: seq<seq<byte>>)
    requires Stable(next)
    ensures FeedAll(next, Parse(next, start), chunks) == Parse(next, start + Concat(chunks))
    decreases |chunks|
  {
    if chunks == [] {
      assert start + Concat(chunks) == start;
    } else {
      ParseAppend(next, start, chunks[0]);
      ChunkIndependent(next, start + chunks[0], chunks[1..]);
      assert start + Concat(chunks) == (start + chunks[0]) + Concat(chunks[1..]);
    }
  }

  lemma ConcatCons(part: seq<byte>, parts: seq<seq<byte>>)
    ensures Concat([part] + parts) == part + Concat(parts)
  {
    assert ([part] + parts)[1..] == parts;
  }

  function Behind(unit: seq<byte>, c: Cut): Cut {
    Cut([unit] + c.units, c.left, c.stopped)
  }

  /** One turn of the cutting loop. */
  lemma ParseStep(next: seq<byte> -> Step, s: seq<byte>)
    requires Stable(next)
    ensures next(s).Wait? ==> Parse(next, s) == Cut([], s, false)
    ensures next(s).Stop? ==> Parse(next, s) == Cut([], [], true)
    ensures next(s).Take? ==> 0 < next(s).n <= |s|
    ensures next(s).Take? ==> Parse(next, s) == Behind(s[..next(s).n], Parse(next, s[next(s).n..]))
  {
    assert StableAt(next, s, []);
  }

  lemma Reassembled(unit: seq<byte>, c: Cut, s: seq<byte>)
    requires Concat(c.units) + c.left == s
    ensures Concat(Behind(unit, c).units) + c.left == unit + s
  {
    hide Concat;
    ConcatCons(unit, c.units);
    assert (unit + Concat(c.units)) + c.left == unit + (Concat(c.units) + c.left);
  }

  lemma NothingReassembled(s: seq<byte>)
    ensures Concat([]) + s == s
  {
  }

  /** Nothing is lost or invented: while the connection is open, the units in order followed by
      the rest of the buffer are the input. */
  lemma {:induction false} ParseConserves(next: seq<byte> -> Step, s: seq<byte>)
    requires Stable(next)
    ensures var c := Parse(next, s); !c.stopped ==> Concat(c.units) + c.left == s && next(c.left).Wait?
    decreases |s|
  {
    hide Parse, Concat, Stable;
    ParseStep(next, s);
    NothingReassembled(s);
    if next(s).Take? {
      var n := next(s).n;
      ParseConserves(next, s[n..]);
      var c := Parse(next, s[n..]);
      if !c.stopped {
        Reassembled(s[..n], c, s[n..]);
        assert s == s[..n] + s[n..];
      }
    }
  }

  /** A decision that never closes the connection does not close it on any input. */
  lemma {:induction false} NeverStops(next: seq<byte> -> Step, s: seq<byte>)
    requires Stable(next) && forall t :: next(t) != Stop
    ensures !Parse(next, s).stopped
    decreases |s|
  {
    hide Stable, Parse;
    ParseStep(next, s);
    if next(s).Take? {
      NeverStops(next, s[next(s).n..]);
    }
  }

  /** A string that is exactly one unit, whatever follows it. */
  ghost predicate IsUnit(next: seq<byte> -> Step, u: seq<byte>) {
    next(u) == Take(|u|)
  }

  lemma ParseUnit(next: seq<byte> -> Step, u: seq<byte>, rest: seq<byte>)
    requires Stable(next)
    requires IsUnit(next, u)
    ensures var c := Parse(next, rest);
            Parse(next, u + rest) == Cut([u] + c.units, c.left, c.stopped)
  {
    assert StableAt(next, u, rest);
    assert (u + rest)[..|u|] == u && (u + rest)[|u|..] == rest;
  }

  /** Units written back to back are cut apart again. */
  lemma {:induction false} ParseUnits(next: seq<byte> -> Step, units: seq<seq<byte>>, rest: seq<byte>)
    requires Stable(next)
    requires forall u <- units :: IsUnit(next, u)
    ensures var c := Parse(next, rest);
            Parse(next, Concat(units) + rest) == Cut(units + c.units, c.left, c.stopped)
    decreases |units|
  {
    var c := Parse(next, rest);
    if units == [] {
      assert Concat(units) + rest == rest;
      assert units + c.units == c.units;
    } else {
      var u, tail := units[0], units[1..];
      ParseUnits(next, tail, rest);
      ParseUnit(next, u, Concat(tail) + rest);
      assert Concat(units) + rest == u + (Concat(tail) + rest);
      assert [u] + (tail + c.units) == units + c.units;
    }
  }
}
