/** Whole runs of the WebSocket decoder against the simplest decoder there is: cut all the bytes
    into frames, concatenate the payloads, decode PDUs from that. */
module WebSocketRuns {
  import opened Codec
  import opened PduStream
  import opened Framing
  import opened WebSocket

  // ---- The reassembly cache, frame by frame ----

  /** What the channel should hold after some payloads: the undecoded end of their concatenation. */
  function Ideal<S, P>(app: App<S, P>, st: S, payloads: seq<seq<byte>>): Held<S>
    requires app.Lawful()
  {
    match Drain(app, st, Concat(payloads))
    case Closed(st') => Refused(st')
    case Open(st', rest) => Holding(st', rest)
  }

  /** What the code holds after them. */
  function Joined<S, P>(app: App<S, P>, h: Held<S>, payloads: seq<seq<byte>>): Held<S>
    requires app.Lawful()
  {
    if payloads == [] then h
    else JoinFrame(app, Joined(app, h, payloads[..|payloads| - 1]), payloads[|payloads| - 1])
  }

  /** Some PDU is incomplete after these payloads. */
  predicate Inside<S, P>(app: App<S, P>, st: S, payloads: seq<seq<byte>>)
    requires app.Lawful()
  {
    Ideal(app, st, payloads).Holding? && Ideal(app, st, payloads).cache != []
  }

  /** Two consecutive frame ends both fall inside a PDU. */
  ghost predicate SplitTwice<S, P>(app: App<S, P>, st: S, payloads: seq<seq<byte>>)
    requires app.Lawful()
  {
    exists i {:trigger payloads[..i + 1]} | 0 <= i < |payloads| ::
      Inside(app, st, payloads[..i]) && Inside(app, st, payloads[..i + 1])
  }

  lemma JoinedSnoc<S, P>(app: App<S, P>, h: Held<S>, qs: seq<seq<byte>>, p: seq<byte>)
    requires app.Lawful()
    ensures Joined(app, h, qs + [p]) == JoinFrame(app, Joined(app, h, qs), p)
  {
    assert (qs + [p])[..|qs|] == qs;
  }

  lemma IdealNext<S, P>(app: App<S, P>, st: S, qs: seq<seq<byte>>, p: seq<byte>)
    requires app.Lawful()
    ensures var h := Ideal(app, st, qs);
            && !h.Undefined?
            && Ideal(app, st, qs + [p])
               == if h.Refused? then h else
                  match Drain(app, h.state, h.cache + p)
                  case Closed(st') => Refused(st')
                  case Open(st', rest) => Holding(st', rest)
  {
    ConcatSnoc(qs, p);
    DrainAppend(app, st, Concat(qs), p);
  }

  /** Where one frame end is not inside a PDU, the code joins the frame as it should; where both
      are, it never does. */
  lemma JoinExact<S, P>(app: App<S, P>, st: S, qs: seq<seq<byte>>, p: seq<byte>)
    requires app.Lawful()
    ensures JoinFrame(app, Ideal(app, st, qs), p) == Ideal(app, st, qs + [p])
            <==> !(Inside(app, st, qs) && Inside(app, st, qs + [p]))
  {
    IdealNext(app, st, qs, p);
  }

  /** The cache is exactly the undecoded suffix after every frame, and the PDUs delivered exactly
      those of one stream, if and only if no two consecutive frame ends fall inside PDUs. */
  lemma CacheExact<S, P>(app: App<S, P>, st: S, payloads: seq<seq<byte>>)
    requires app.Lawful()
    ensures (forall k | 0 <= k <= |payloads| ::
              Joined(app, Holding(st, []), payloads[..k]) == Ideal(app, st, payloads[..k]))
            <==> !SplitTwice(app, st, payloads)
  {
    var start := Holding(st, []);
    if !SplitTwice(app, st, payloads) {
      forall k | 0 <= k <= |payloads|
        ensures Joined(app, start, payloads[..k]) == Ideal(app, st, payloads[..k])
      {
        CacheIdeal(app, st, payloads, k);
      }
    } else {
      var i :| 0 <= i < |payloads| && Inside(app, st, payloads[..i]) && Inside(app, st, payloads[..i + 1]);
      TakeNext(payloads, i);
      JoinExact(app, st, payloads[..i], payloads[i]);
      assert Joined(app, start, payloads[..i]) != Ideal(app, st, payloads[..i])
          || Joined(app, start, payloads[..i + 1]) != Ideal(app, st, payloads[..i + 1]);
    }
  }

  lemma TakeNext<T>(s: seq<T>, k: nat)
    requires k < |s|
    ensures s[..k + 1] == s[..k] + [s[k]] && s[..k + 1][..k] == s[..k]
  {
  }

  lemma {:induction false} CacheIdeal<S, P>(app: App<S, P>, st: S, payloads: seq<seq<byte>>, k: nat)
    requires app.Lawful() && k <= |payloads| && !SplitTwice(app, st, payloads)
    ensures Joined(app, Holding(st, []), payloads[..k]) == Ideal(app, st, payloads[..k])
  {
    if k > 0 {
      CacheIdeal(app, st, payloads, k - 1);
      TakeNext(payloads, k - 1);
      JoinExact(app, st, payloads[..k - 1], payloads[k - 1]);
      assert !(Inside(app, st, payloads[..k - 1]) && Inside(app, st, payloads[..k - 1 + 1]));
    }
  }

  lemma {:induction false} JoinedAppend<S, P>(app: App<S, P>, h: Held<S>, a: seq<seq<byte>>, b: seq<seq<byte>>)
    requires app.Lawful()
    ensures Joined(app, h, a + b) == Joined(app, Joined(app, h, a), b)
    decreases |b|
  {
    if b == [] {
      assert a + b == a;
    } else {
      var n := |b| - 1;
      JoinedAppend(app, h, a, b[..n]);
      assert (a + b)[..|a + b| - 1] == a + b[..n];
    }
  }

  lemma {:induction false} ProcessIsJoined<S, P>(app: App<S, P>, h: Held<S>, c: Cut)
    requires app.Lawful()
    ensures Process(app, h, c) == Joined(app, h, c.Payloads())
    decreases c
  {
    match c
    case Stop(_, _) =>
    case Skipped(rest) => ProcessIsJoined(app, h, rest);
    case Frame(p, rest) =>
      ProcessIsJoined(app, JoinFrame(app, h, p), rest);
      JoinedAppend(app, h, [p], rest.Payloads());
      assert [p][..0] == [];
      assert Joined(app, h, [p]) == JoinFrame(app, h, p);
  }

  // ---- Reads of any sizes ----

  /** The channel between two reads. */
  datatype Link<+S> = Listening(state: S, cache: seq<byte>, tail: seq<byte>) | Down(state: S) | Corrupted

  /** One read: the new bytes, and the memory behind them, which was not received. */
  datatype Read = Read(bytes: seq<byte>, beyond: seq<byte>)

  ghost predicate Reads(rs: seq<Read>) {
    forall i | 0 <= i < |rs| :: |rs[i].beyond| >= 2
  }

  function Bytes(rs: seq<Read>): seq<byte> {
    if rs == [] then [] else Bytes(rs[..|rs| - 1]) + rs[|rs| - 1].bytes
  }

  function Step<S, P>(app: App<S, P>, mtu: nat, l: Link<S>, read: Read): Link<S>
    requires app.Lawful() && |read.beyond| >= 2
  {
    if !l.Listening? then l else
    var got := l.tail + read.bytes;
    match Decoded(app, mtu, l.state, l.cache, got + read.beyond, |got|)
    case Awaiting(st, cache, left) => Listening(st, cache, got[|got| - left..])
    case Closing(st) => Down(st)
    case Lost => Corrupted
  }

  function Run<S, P>(app: App<S, P>, mtu: nat, st: S, rs: seq<Read>): Link<S>
    requires app.Lawful() && Reads(rs)
  {
    if rs == [] then Listening(st, [], [])
    else Step(app, mtu, Run(app, mtu, st, rs[..|rs| - 1]), rs[|rs| - 1])
  }

  /** What a channel is, from what its frames left it holding and where the cutting stopped. */
  function LinkOf<S>(h: Held<S>, end: Cut): Link<S>
    requires end.Stop?
  {
    match h
    case Refused(st) => Down(st)
    case Holding(st, cache) => if end.rejected then Down(st) else Listening(st, cache, end.tail)
    case Undefined => Corrupted
  }

  /** One pass over the whole stream with the code's own way of joining frames. */
  function Once<S, P>(app: App<S, P>, mtu: nat, st: S, bytes: seq<byte>): Link<S>
    requires app.Lawful()
  {
    LinkOf(Joined(app, Holding(st, []), Deframe(mtu, bytes).Payloads()), Deframe(mtu, bytes).End())
  }

  /** The reference: cut the whole stream, decode the concatenated payloads. */
  function Whole<S, P>(app: App<S, P>, mtu: nat, st: S, bytes: seq<byte>): Link<S>
    requires app.Lawful()
  {
    LinkOf(Ideal(app, st, Deframe(mtu, bytes).Payloads()), Deframe(mtu, bytes).End())
  }

  /** Some read ends inside the 16-bit length of a frame, and the memory behind it makes that
      length too large for the buffer. */
  ghost predicate ReadsAhead<S, P>(app: App<S, P>, mtu: nat, st: S, rs: seq<Read>)
    requires app.Lawful() && Reads(rs)
  {
    exists k {:trigger rs[..k + 1]} | 0 <= k < |rs| :: AheadAt(app, mtu, st, rs, k)
  }

  predicate AheadAt<S, P>(app: App<S, P>, mtu: nat, st: S, rs: seq<Read>, k: nat)
    requires app.Lawful() && Reads(rs) && k < |rs|
  {
    Ahead(mtu, Once(app, mtu, st, Bytes(rs[..k + 1])), rs[k].beyond)
  }

  predicate Ahead<S>(mtu: nat, l: Link<S>, beyond: seq<byte>)
    requires |beyond| >= 2
  {
    l.Listening? && Overread(mtu, l.tail + beyond, |l.tail|)
  }

  lemma {:induction false} PayloadsThen(c: Cut, last: Cut)
    ensures c.Then(last).Payloads() == c.Payloads() + last.Payloads() && c.Then(last).End() == last.End()
    decreases c
  {
    match c
    case Stop(_, _) =>
      assert [] + last.Payloads() == last.Payloads();
    case Skipped(rest) => PayloadsThen(rest, last);
    case Frame(p, rest) =>
      PayloadsThen(rest, last);
      Append3([p], rest.Payloads(), last.Payloads());
  }

  /** A stream that is not refused yet is cut further from its tail. */
  lemma CutMore(mtu: nat, a: seq<byte>, b: seq<byte>)
    ensures var c, e := Deframe(mtu, a), Deframe(mtu, a + b);
            if c.End().rejected then e.End().rejected && e.Payloads() == c.Payloads()
            else var m := Deframe(mtu, c.End().tail + b);
                 e.Payloads() == c.Payloads() + m.Payloads() && e.End() == m.End()
  {
    DeframeAppend(mtu, a, b);
    var c := Deframe(mtu, a);
    PayloadsThen(c, if c.End().rejected then Stop(true, c.End().tail + b) else Deframe(mtu, c.End().tail + b));
    assert c.Payloads() + [] == c.Payloads();
  }

  /** Once closed, the reference stays closed in the same state. */
  lemma {:induction false} IdealStaysClosed<S, P>(app: App<S, P>, st: S, a: seq<seq<byte>>, b: seq<seq<byte>>)
    requires app.Lawful() && Ideal(app, st, a).Refused?
    ensures Ideal(app, st, a + b) == Ideal(app, st, a)
  {
    ConcatAppend(a, b);
    DrainAppend(app, st, Concat(a), Concat(b));
  }

  lemma WholeStaysDown<S, P>(app: App<S, P>, mtu: nat, st: S, a: seq<byte>, b: seq<byte>)
    requires app.Lawful() && Whole(app, mtu, st, a).Down?
    ensures Whole(app, mtu, st, a + b) == Whole(app, mtu, st, a)
  {
    hide Deframe, Drain;
    CutMore(mtu, a, b);
    var c := Deframe(mtu, a);
    if !c.End().rejected {
      IdealStaysClosed(app, st, c.Payloads(), Deframe(mtu, c.End().tail + b).Payloads());
    }
  }

  lemma {:induction false} JoinedStuck<S, P>(app: App<S, P>, h: Held<S>, qs: seq<seq<byte>>)
    requires app.Lawful() && !h.Holding?
    ensures Joined(app, h, qs) == h
    decreases |qs|
  {
    if qs != [] { JoinedStuck(app, h, qs[..|qs| - 1]); }
  }

  /** A channel that does not listen any more stays as it is. */
  lemma OnceStays<S, P>(app: App<S, P>, mtu: nat, st: S, a: seq<byte>, b: seq<byte>)
    requires app.Lawful() && !Once(app, mtu, st, a).Listening?
    ensures Once(app, mtu, st, a + b) == Once(app, mtu, st, a)
  {
    hide Deframe, JoinFrame;
    CutMore(mtu, a, b);
    var c := Deframe(mtu, a);
    if !c.End().rejected {
      var m := Deframe(mtu, c.End().tail + b);
      JoinedAppend(app, Holding(st, []), c.Payloads(), m.Payloads());
      JoinedStuck(app, Joined(app, Holding(st, []), c.Payloads()), m.Payloads());
    }
  }

  /** One read of any bytes: from one pass over what came before, the code reaches one pass over
      what has come now, unless it reads ahead; then it closes where the pass goes on. */
  lemma StepExact<S, P>(app: App<S, P>, mtu: nat, st: S, a: seq<byte>, read: Read)
    requires app.Lawful() && |read.beyond| >= 2
    ensures var w := Once(app, mtu, st, a + read.bytes);
            var got := Step(app, mtu, Once(app, mtu, st, a), read);
            if Ahead(mtu, w, read.beyond) then got.Down? else got == w
  {
    hide Deframe, Drain, Decoded, Overread, JoinFrame;
    if !Once(app, mtu, st, a).Listening? {
      OnceStays(app, mtu, st, a, read.bytes);
    } else {
      var c := Deframe(mtu, a);
      CutMore(mtu, a, read.bytes);
      var got := c.End().tail + read.bytes;
      var m := Deframe(mtu, got);
      var h := Joined(app, Holding(st, []), c.Payloads());
      JoinedAppend(app, Holding(st, []), c.Payloads(), m.Payloads());
      var d := got + read.beyond;
      assert d[..|got|] == got && d[|got|..] == read.beyond;
      DecodedIsCut(app, mtu, h.state, h.cache, d, |got|);
      ProcessIsJoined(app, h, m);
      DeframeStops(mtu, got);
      assert got[|got| - |m.End().tail|..] == m.End().tail;
    }
  }

  lemma {:induction false} RunOnce<S, P>(app: App<S, P>, mtu: nat, st: S, rs: seq<Read>, k: nat)
    requires app.Lawful() && Reads(rs) && k <= |rs| && !ReadsAhead(app, mtu, st, rs)
    ensures Run(app, mtu, st, rs[..k]) == Once(app, mtu, st, Bytes(rs[..k]))
  {
    hide Once, Step, Ahead;
    if k > 0 {
      RunOnce(app, mtu, st, rs, k - 1);
      TakeNext(rs, k - 1);
      StepExact(app, mtu, st, Bytes(rs[..k - 1]), rs[k - 1]);
      assert !AheadAt(app, mtu, st, rs, k - 1) && rs[..k - 1 + 1] == rs[..k];
    } else {
      OnceNothing(app, mtu, st);
    }
  }

  lemma OnceNothing<S, P>(app: App<S, P>, mtu: nat, st: S)
    requires app.Lawful()
    ensures Once(app, mtu, st, []) == Listening(st, [], [])
  {
    NothingWaits(mtu);
  }

  /** Chunk independence for arbitrary bytes, framed in any way: after every read, of whatever sizes,
      the handler, the cache, the leftover and the verdict are those of one pass over all bytes so
      far, if and only if no read ends where memory behind it decides. */
  lemma ReadsExact<S, P>(app: App<S, P>, mtu: nat, st: S, rs: seq<Read>)
    requires app.Lawful() && Reads(rs)
    ensures (forall k | 0 <= k <= |rs| :: Run(app, mtu, st, rs[..k]) == Once(app, mtu, st, Bytes(rs[..k])))
            <==> !ReadsAhead(app, mtu, st, rs)
  {
    if !ReadsAhead(app, mtu, st, rs) {
      forall k | 0 <= k <= |rs|
        ensures Run(app, mtu, st, rs[..k]) == Once(app, mtu, st, Bytes(rs[..k]))
      {
        RunOnce(app, mtu, st, rs, k);
      }
    } else {
      hide Once, Step;
      var k :| 0 <= k < |rs| && AheadAt(app, mtu, st, rs, k);
      TakeNext(rs, k);
      StepExact(app, mtu, st, Bytes(rs[..k]), rs[k]);
      assert Run(app, mtu, st, rs[..k]) != Once(app, mtu, st, Bytes(rs[..k]))
          || Run(app, mtu, st, rs[..k + 1]) != Once(app, mtu, st, Bytes(rs[..k + 1]));
    }
  }

  /** So two ways to read the same bytes end alike. */
  lemma ReadsAgree<S, P>(app: App<S, P>, mtu: nat, st: S, rs: seq<Read>, qs: seq<Read>)
    requires app.Lawful() && Reads(rs) && Reads(qs) && Bytes(rs) == Bytes(qs)
    requires !ReadsAhead(app, mtu, st, rs) && !ReadsAhead(app, mtu, st, qs)
    ensures Run(app, mtu, st, rs) == Run(app, mtu, st, qs)
  {
    RunOnce(app, mtu, st, rs, |rs|);
    RunOnce(app, mtu, st, qs, |qs|);
    assert rs[..|rs|] == rs && qs[..|qs|] == qs;
  }

  /** Without double splits one pass of the code is the reference. */
  lemma OnceIsWhole<S, P>(app: App<S, P>, mtu: nat, st: S, bytes: seq<byte>)
    requires app.Lawful() && !SplitTwice(app, st, Deframe(mtu, bytes).Payloads())
    ensures Once(app, mtu, st, bytes) == Whole(app, mtu, st, bytes)
  {
    var ps := Deframe(mtu, bytes).Payloads();
    CacheIdeal(app, st, ps, |ps|);
    assert ps[..|ps|] == ps;
  }

  lemma SplitTwiceExtends<S, P>(app: App<S, P>, st: S, a: seq<seq<byte>>, b: seq<seq<byte>>)
    requires app.Lawful() && SplitTwice(app, st, a)
    ensures SplitTwice(app, st, a + b)
  {
    var i :| 0 <= i < |a| && Inside(app, st, a[..i]) && Inside(app, st, a[..i + 1]);
    assert (a + b)[..i] == a[..i] && (a + b)[..i + 1] == a[..i + 1];
  }

  lemma {:induction false} BytesAppend(rs: seq<Read>, k: nat)
    requires k <= |rs|
    ensures exists more :: Bytes(rs) == Bytes(rs[..k]) + more
    decreases |rs|
  {
    if k == |rs| {
      assert rs[..k] == rs;
      assert Bytes(rs) == Bytes(rs[..k]) + [];
    } else {
      var qs := rs[..|rs| - 1];
      BytesAppend(qs, k);
      assert qs[..k] == rs[..k];
      var more :| Bytes(qs) == Bytes(qs[..k]) + more;
      assert Bytes(rs) == Bytes(rs[..k]) + (more + rs[|rs| - 1].bytes);
    }
  }

  lemma PrefixNotSplit<S, P>(app: App<S, P>, mtu: nat, st: S, rs: seq<Read>, k: nat)
    requires app.Lawful() && Reads(rs) && k <= |rs|
    requires !SplitTwice(app, st, Deframe(mtu, Bytes(rs)).Payloads())
    ensures !SplitTwice(app, st, Deframe(mtu, Bytes(rs[..k])).Payloads())
  {
    hide Deframe, Drain, SplitTwice;
    BytesAppend(rs, k);
    var more :| Bytes(rs) == Bytes(rs[..k]) + more;
    CutMore(mtu, Bytes(rs[..k]), more);
    var c := Deframe(mtu, Bytes(rs[..k]));
    if SplitTwice(app, st, c.Payloads()) {
      SplitTwiceExtends(app, st, c.Payloads(), Deframe(mtu, c.End().tail + more).Payloads());
    }
  }

  /** Chunk independence against the reference: exact after every read, when in addition payloads do
      not split PDUs twice. */
  lemma ReadsIdeal<S, P>(app: App<S, P>, mtu: nat, st: S, rs: seq<Read>, k: nat)
    requires app.Lawful() && Reads(rs) && k <= |rs|
    requires !SplitTwice(app, st, Deframe(mtu, Bytes(rs)).Payloads()) && !ReadsAhead(app, mtu, st, rs)
    ensures Run(app, mtu, st, rs[..k]) == Whole(app, mtu, st, Bytes(rs[..k]))
  {
    RunOnce(app, mtu, st, rs, k);
    PrefixNotSplit(app, mtu, st, rs, k);
    OnceIsWhole(app, mtu, st, Bytes(rs[..k]));
  }

  /** A buffer that holds the widest frame is never read ahead of. */
  lemma WideBufferNeverReadsAhead<S, P>(app: App<S, P>, mtu: nat, st: S, rs: seq<Read>)
    requires app.Lawful() && Reads(rs) && mtu >= LARGEST_FRAME
    ensures !ReadsAhead(app, mtu, st, rs)
  {
    forall k | 0 <= k < |rs|
      ensures !AheadAt(app, mtu, st, rs, k)
    {
      var w := Once(app, mtu, st, Bytes(rs[..k + 1]));
      if w.Listening? && 2 <= |w.tail| {
        var d := w.tail + rs[k].beyond;
        Length16Bound(d[2], d[3]);
      }
    }
  }

  /** With a smaller buffer the code can close on the first two bytes of a good frame. */
  lemma ReadAheadCloses<S, P>(app: App<S, P>, mtu: nat, st: S)
    requires app.Lawful() && mtu < LARGEST_FRAME
    ensures var r := Read([0x82, 0xFE], [0xFF, 0xFF]);
            && Step(app, mtu, Listening(st, [], []), r) == Down(st)
            && Whole(app, mtu, st, r.bytes) == Listening(st, [], r.bytes)
  {
    var r := Read([0x82, 0xFE], [0xFF, 0xFF]);
    var d := r.bytes + r.beyond;
    assert [] + r.bytes == r.bytes && |r.bytes| == 2 && |d| == 4;
    assert d[0] == 0x82 && d[1] == 0xFE && d[2] == 0xFF && d[3] == 0xFF;
    assert OpeningOf(0x82, 0xFE) == Long;
    assert Length16(0xFF, 0xFF) == 65535;
    assert ReadHeader(mtu, d, 2) == Reject;
    assert HeaderOf(mtu, r.bytes) == Wait;
    assert Drain(app, st, []) == Open(st, []);
  }
}
