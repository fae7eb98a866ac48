/** The receive loop that TCP and RUDP share: peel PDUs off a byte stream until it runs dry. */
module PduStream {
  import opened Codec

  /** Open: the bytes in `rest` hold no complete PDU and must wait. Closed: the loop answered -1. */
  datatype Drained<+S> = Closed(state: S) | Open(state: S, rest: seq<byte>)

  /** The greedy decoding of a whole byte sequence. */
  function Drain<S, P>(app: App<S, P>, st: S, bytes: seq<byte>): (r: Drained<S>)
    requires app.Lawful()
    ensures r.Open? ==> |r.rest| <= |bytes| && app.decode(r.rest).NeedMore?
    decreases |bytes|
  {
    match app.decode(bytes)
    case NeedMore => Open(st, bytes)
    case Malformed => Closed(st)
    case Pdu(p, n) =>
      assert app.Sized(bytes);
      var (st', ok) := app.evnMsg(st, p);
      if !ok then Closed(st') else Drain(app, st', bytes[n..])
  }

  /** Decoding what has arrived and then the leftover with the rest is decoding all of it at once. */
  lemma {:induction false} DrainAppend<S, P>(app: App<S, P>, st: S, a: seq<byte>, b: seq<byte>)
    requires app.Lawful()
    ensures var d := Drain(app, st, a);
            Drain(app, st, a + b) == if d.Closed? then d else Drain(app, d.state, d.rest + b)
    decreases |a|
  {
    assert app.Stable(a, b) && app.Sized(a);
    match app.decode(a)
    case NeedMore =>
    case Malformed =>
    case Pdu(p, n) =>
      var (st', ok) := app.evnMsg(st, p);
      if ok {
        DropAppend(a, b, n);
        DrainAppend(app, st', a[n..], b);
      }
  }

  /** Handing a list of PDUs to the handler until one is refused. */
  function Deliver<S, P>(app: App<S, P>, st: S, pdus: seq<P>): (S, bool) {
    if pdus == [] then (st, true) else
    var (st', ok) := app.evnMsg(st, pdus[0]);
    if !ok then (st', false) else Deliver(app, st', pdus[1..])
  }

  function Encoding<P>(enc: P -> seq<byte>, pdus: seq<P>): seq<byte> {
    if pdus == [] then [] else enc(pdus[0]) + Encoding(enc, pdus[1..])
  }

  /** Round trip: a stream of encodings, possibly with the start of one more, delivers exactly the
      complete PDUs in order, up to and including the first refused one, and leaves exactly the tail. */
  lemma {:induction false} DrainEncoding<S, P>(
      app: App<S, P>, enc: P -> seq<byte>, st: S, pdus: seq<P>, tail: seq<byte>)
    requires app.Lawful() && forall p | p in pdus :: app.Encodes(enc, p)
    requires app.decode(tail).NeedMore?
    ensures var (st', ok) := Deliver(app, st, pdus);
            Drain(app, st, Encoding(enc, pdus) + tail) == if ok then Open(st', tail) else Closed(st')
  {
    if pdus == [] {
      assert Encoding(enc, pdus) + tail == tail;
    } else {
      var rest := Encoding(enc, pdus[1..]) + tail;
      assert Encoding(enc, pdus) + tail == enc(pdus[0]) + rest;
      DrainOne(app, enc, st, pdus[0], rest);
      DrainEncoding(app, enc, app.evnMsg(st, pdus[0]).0, pdus[1..], tail);
    }
  }

  /** Behind complete PDUs a format error closes the channel, after they have been delivered. */
  lemma {:induction false} DrainGarbage<S, P>(
      app: App<S, P>, enc: P -> seq<byte>, st: S, pdus: seq<P>, junk: seq<byte>)
    requires app.Lawful() && forall p | p in pdus :: app.Encodes(enc, p)
    requires app.decode(junk).Malformed?
    ensures Drain(app, st, Encoding(enc, pdus) + junk) == Closed(Deliver(app, st, pdus).0)
    decreases |pdus|
  {
    if pdus == [] {
      assert Encoding(enc, pdus) + junk == junk;
    } else {
      var rest := Encoding(enc, pdus[1..]) + junk;
      assert Encoding(enc, pdus) + junk == enc(pdus[0]) + rest;
      DrainOne(app, enc, st, pdus[0], rest);
      DrainGarbage(app, enc, app.evnMsg(st, pdus[0]).0, pdus[1..], junk);
    }
  }

  lemma DrainOne<S, P>(app: App<S, P>, enc: P -> seq<byte>, st: S, p: P, rest: seq<byte>)
    requires app.Lawful() && app.Encodes(enc, p)
    ensures var (st', ok) := app.evnMsg(st, p);
            Drain(app, st, enc(p) + rest) == if ok then Drain(app, st', rest) else Closed(st')
  {
    assert app.Sized(enc(p) + rest) && app.DecodesBefore(enc, p, rest);
    assert (enc(p) + rest)[|enc(p)|..] == rest;
  }

  /** Any part of a stream of encodings delivers some of the PDUs, and leaves what is to be completed
      by the bytes still to come. */
  lemma {:induction false} DrainPart<S, P>(
      app: App<S, P>, enc: P -> seq<byte>, st: S, pdus: seq<P>, bytes: seq<byte>, more: seq<byte>) returns (m: nat)
    requires app.Lawful() && (forall p | p in pdus :: app.Encodes(enc, p)) && bytes + more == Encoding(enc, pdus)
    ensures m <= |pdus|
    ensures var (st', ok) := Deliver(app, st, pdus[..m]);
            var d := Drain(app, st, bytes);
            d.state == st' && (d.Open? <==> ok) && (ok ==> d.rest + more == Encoding(enc, pdus[m..]))
    decreases |pdus|
  {
    m := 0;
    assert pdus[..0] == [] && pdus[0..] == pdus;
    if pdus == [] {
      assert bytes == [];
    } else {
      var e := enc(pdus[0]);
      assert pdus[0] in pdus && app.Encodes(enc, pdus[0]);
      if |bytes| < |e| {
        assert bytes == (bytes + more)[..|bytes|] == e[..|bytes|];
        PrefixWaits(app, enc, pdus[0], |bytes|);
      } else {
        var rest := bytes[|e|..];
        assert bytes[..|e|] == (bytes + more)[..|e|] == e;
        assert bytes == e + rest;
        assert rest + more == (bytes + more)[|e|..] == Encoding(enc, pdus[1..]);
        DrainOne(app, enc, st, pdus[0], rest);
        var (st', ok) := app.evnMsg(st, pdus[0]);
        m := 1;
        if ok {
          var k := DrainPart(app, enc, st', pdus[1..], rest, more);
          m := k + 1;
          assert pdus[..m][1..] == pdus[1..][..k] && pdus[1..][k..] == pdus[m..];
        }
      }
    }
  }

  /** A channel that receives by this loop; the base class presents the unconsumed tail again. */
  class StreamChannel<S, P> {
    const app: App<S, P>
    var state: S

    constructor (app: App<S, P>, state: S)
      ensures this.app == app && this.state == state
    {
      this.app := app;
      this.state := state;
    }

    /** -1 closes the channel; otherwise the number of bytes taken from the front. */
    method EvnRecv(dat: array<byte>, len: nat) returns (r: int)
      requires app.Lawful() && len <= dat.Length
      modifies this`state
      ensures match Drain(app, old(state), dat[..len])
              case Closed(st) => r == -1 && state == st
              case Open(st, rest) => 0 <= r <= len && dat[r..len] == rest && state == st
    {
      var used: nat := 0;
      while true
        invariant used <= len
        invariant Drain(app, old(state), dat[..len]) == Drain(app, state, dat[used..len])
        decreases len - used
      {
        var pdu := app.decode(dat[used..len]);
        if pdu.Pdu? {
          assert app.Sized(dat[used..len]);
          assert dat[used..len][pdu.len..] == dat[used + pdu.len..len];
          used := used + pdu.len;
          var (st, ok) := app.evnMsg(state, pdu.pdu);
          state := st;
          if !ok {
            return -1;
          }
          if used == len {
            return used;
          }
          continue;
        }
        if pdu.Malformed? {
          return -1;
        }
        return used;
      }
    }
  }

  /** The channel between two reads: what the handler has become, and the bytes still waiting. */
  datatype Stream<+S> = Live(state: S, tail: seq<byte>) | Dead(state: S)

  function Receive<S, P>(app: App<S, P>, c: Stream<S>, chunk: seq<byte>): Stream<S>
    requires app.Lawful()
  {
    if c.Dead? then c else
    match Drain(app, c.state, c.tail + chunk)
    case Closed(st) => Dead(st)
    case Open(st, rest) => Live(st, rest)
  }

  function ReceiveAll<S, P>(app: App<S, P>, c: Stream<S>, chunks: seq<seq<byte>>): Stream<S>
    requires app.Lawful()
    decreases |chunks|
  {
    if chunks == [] then c else ReceiveAll(app, Receive(app, c, chunks[0]), chunks[1..])
  }

  lemma ReceiveTwice<S, P>(app: App<S, P>, c: Stream<S>, a: seq<byte>, b: seq<byte>)
    requires app.Lawful()
    ensures Receive(app, Receive(app, c, a), b) == Receive(app, c, a + b)
  {
    if c.Live? {
      assert c.tail + (a + b) == (c.tail + a) + b;
      DrainAppend(app, c.state, c.tail + a, b);
    }
  }

  /** Chunk independence: reads of any sizes do what one read of everything does. */
  lemma {:induction false} ChunkIndependence<S, P>(app: App<S, P>, c: Stream<S>, chunks: seq<seq<byte>>)
    requires app.Lawful() && (c.Live? ==> app.decode(c.tail).NeedMore?)
    ensures ReceiveAll(app, c, chunks) == Receive(app, c, Concat(chunks))
    decreases |chunks|
  {
    if chunks == [] {
      if c.Live? {
        assert c.tail + [] == c.tail;
      }
    } else {
      ChunkIndependence(app, Receive(app, c, chunks[0]), chunks[1..]);
      ReceiveTwice(app, c, chunks[0], Concat(chunks[1..]));
    }
  }

  /** PDUs sent over TCP or RUDP arrive complete and in order however the bytes are read. */
  lemma StreamRoundTrip<S, P>(
      app: App<S, P>, enc: P -> seq<byte>, st: S, pdus: seq<P>, chunks: seq<seq<byte>>)
    requires app.Lawful() && forall p | p in pdus :: app.Encodes(enc, p)
    requires Concat(chunks) == Encoding(enc, pdus)
    ensures var (st', ok) := Deliver(app, st, pdus);
            ReceiveAll(app, Live(st, []), chunks) == if ok then Live(st', []) else Dead(st')
  {
    ChunkIndependence(app, Live(st, []), chunks);
    DrainEncoding(app, enc, st, pdus, []);
    assert [] + Concat(chunks) == Encoding(enc, pdus) + [];
  }
}
