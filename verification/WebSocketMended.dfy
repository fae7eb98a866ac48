/** The decoder as the code around it intends: leftovers are kept from `begin + used` on, and the
    16-bit length is read when it has arrived. Every chunking, every cut into frames, every mask. */
module WebSocketMended {
  import opened Codec
  import opened PduStream
  import opened Framing
  import opened WebSocket
  import opened WebSocketRuns
  import opened WebSocketRoundTrip

  /** JoinFrame with the erase that leaves the undecoded bytes. */
  function MendFrame<S, P>(app: App<S, P>, h: Held<S>, payload: seq<byte>): Held<S>
    requires app.Lawful()
  {
    if !h.Holding? then h else
    match Drain(app, h.state, h.cache + payload)
    case Closed(st) => Refused(st)
    case Open(st, rest) => Holding(st, rest)
  }

  /** The code differs from it on exactly one branch: bytes were cached before, and some are left
      over now. */
  lemma MendExact<S, P>(app: App<S, P>, st: S, cache: seq<byte>, payload: seq<byte>)
    requires app.Lawful()
    ensures JoinFrame(app, Holding(st, cache), payload) == MendFrame(app, Holding(st, cache), payload)
            <==> cache == [] || !Drain(app, st, cache + payload).Open? || Drain(app, st, cache + payload).rest == []
  {
  }

  function MendCut<S, P>(app: App<S, P>, h: Held<S>, c: Cut): Held<S>
    requires app.Lawful()
    decreases c
  {
    match c
    case Stop(_, _) => h
    case Skipped(rest) => MendCut(app, h, rest)
    case Frame(p, rest) => MendCut(app, MendFrame(app, h, p), rest)
  }

  function MendStep<S, P>(app: App<S, P>, mtu: nat, l: Link<S>, chunk: seq<byte>): Link<S>
    requires app.Lawful()
  {
    if !l.Listening? then l else
    var c := Deframe(mtu, l.tail + chunk);
    match MendCut(app, Holding(l.state, l.cache), c)
    case Refused(st) => Down(st)
    case Holding(st, cache) => if c.End().rejected then Down(st) else Listening(st, cache, c.End().tail)
    case Undefined => Corrupted
  }

  function MendRun<S, P>(app: App<S, P>, mtu: nat, l: Link<S>, chunks: seq<seq<byte>>): Link<S>
    requires app.Lawful()
    decreases |chunks|
  {
    if chunks == [] then l else MendRun(app, mtu, MendStep(app, mtu, l, chunks[0]), chunks[1..])
  }

  /** Frame by frame, what is held is the undecoded end of all payloads. */
  lemma {:induction false} MendCutIsIdeal<S, P>(app: App<S, P>, st: S, qs: seq<seq<byte>>, c: Cut)
    requires app.Lawful()
    ensures MendCut(app, Ideal(app, st, qs), c) == Ideal(app, st, qs + c.Payloads())
    decreases c
  {
    match c
    case Stop(_, _) =>
      assert qs + [] == qs;
    case Skipped(rest) =>
      MendCutIsIdeal(app, st, qs, rest);
    case Frame(p, rest) =>
      IdealNext(app, st, qs, p);
      MendCutIsIdeal(app, st, qs + [p], rest);
      Append3(qs, [p], rest.Payloads());
  }

  lemma MendStepIsWhole<S, P>(app: App<S, P>, mtu: nat, st: S, a: seq<byte>, b: seq<byte>)
    requires app.Lawful()
    ensures MendStep(app, mtu, Whole(app, mtu, st, a), b) == Whole(app, mtu, st, a + b)
  {
    hide Deframe, Drain, Ideal, MendCut;
    var c := Deframe(mtu, a);
    if Whole(app, mtu, st, a).Down? {
      WholeStaysDown(app, mtu, st, a, b);
    } else {
      IdealDefined(app, st, c.Payloads());
      CutMore(mtu, a, b);
      MendCutIsIdeal(app, st, c.Payloads(), Deframe(mtu, c.End().tail + b));
    }
  }

  lemma IdealDefined<S, P>(app: App<S, P>, st: S, qs: seq<seq<byte>>)
    requires app.Lawful()
    ensures !Ideal(app, st, qs).Undefined?
  {
  }

  /** Chunk independence: any bytes, even malformed, in any chunks are decoded as the whole stream
      is in one pass, with the same handler calls, leftovers and verdict. */
  lemma {:induction false} MendedChunkIndependence<S, P>(
      app: App<S, P>, mtu: nat, st: S, a: seq<byte>, chunks: seq<seq<byte>>)
    requires app.Lawful()
    ensures MendRun(app, mtu, Whole(app, mtu, st, a), chunks) == Whole(app, mtu, st, a + Concat(chunks))
    decreases |chunks|
  {
    hide Whole, MendStep;
    if chunks == [] {
      assert a + [] == a;
    } else {
      MendStepIsWhole(app, mtu, st, a, chunks[0]);
      MendedChunkIndependence(app, mtu, st, a + chunks[0], chunks[1..]);
      Append3(a, chunks[0], Concat(chunks[1..]));
    }
  }

  /** Round trip: every list of PDUs, every cut of their encodings into text or binary frames, every
      mask, both spellings of the length and every chunking of the frames deliver exactly those PDUs,
      in order, up to the first refused, and leave nothing cached. */
  lemma MendedRoundTrip<S, P>(
      app: App<S, P>, enc: P -> seq<byte>, mtu: nat, st: S, pdus: seq<P>, frames: seq<Wire>, chunks: seq<seq<byte>>)
    requires app.Lawful() && forall p | p in pdus :: app.Encodes(enc, p)
    requires forall f | f in frames :: f.Sendable(mtu)
    requires Concat(PayloadsOf(frames)) == Encoding(enc, pdus)
    requires Concat(chunks) == WireBytes(mtu, frames)
    ensures var (st', ok) := Deliver(app, st, pdus);
            MendRun(app, mtu, Listening(st, [], []), chunks) == if ok then Listening(st', [], []) else Down(st')
  {
    WholeNothing(app, mtu, st);
    MendedChunkIndependence(app, mtu, st, [], chunks);
    assert [] + Concat(chunks) == Concat(chunks);
    WholeRoundTrip(app, enc, mtu, st, pdus, frames);
  }

  lemma WholeNothing<S, P>(app: App<S, P>, mtu: nat, st: S)
    requires app.Lawful()
    ensures Whole(app, mtu, st, []) == Listening(st, [], [])
  {
    NothingWaits(mtu);
  }
}
