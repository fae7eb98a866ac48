/** From a sender's PDUs to the handler: framing, masking, reads of any sizes, unmasking,
    reassembly and decoding, end to end. */
module WebSocketRoundTrip {
  import opened Codec
  import opened PduStream
  import opened Framing
  import opened WebSocket
  import opened WebSocketRuns

  /** Does position n of the encoding of the PDUs fall between two of them? */
  predicate Boundary<P>(enc: P -> seq<byte>, pdus: seq<P>, n: nat) {
    n == 0 || (pdus != [] && |enc(pdus[0])| <= n && Boundary(enc, pdus[1..], n - |enc(pdus[0])|))
  }

  /** Two consecutive frame ends both fall inside PDUs; a sender can see this in the lengths. */
  ghost predicate CutsTwice<P>(enc: P -> seq<byte>, pdus: seq<P>, payloads: seq<seq<byte>>) {
    exists i {:trigger payloads[..i + 1]} | 0 <= i < |payloads| ::
      !Boundary(enc, pdus, |Concat(payloads[..i])|) && !Boundary(enc, pdus, |Concat(payloads[..i + 1])|)
  }

  lemma {:induction false} DrainPrefix<S, P>(app: App<S, P>, enc: P -> seq<byte>, st: S, pdus: seq<P>, n: nat)
    requires app.Lawful() && forall p | p in pdus :: app.Encodes(enc, p)
    requires Deliver(app, st, pdus).1 && n <= |Encoding(enc, pdus)|
    ensures var d := Drain(app, st, Encoding(enc, pdus)[..n]);
            d.Open? && (d.rest == [] <==> Boundary(enc, pdus, n))
  {
    if n == 0 {
      assert Encoding(enc, pdus)[..0] == [];
    } else {
      var e, more := enc(pdus[0]), Encoding(enc, pdus[1..]);
      assert pdus[0] in pdus && app.Encodes(enc, pdus[0]);
      if n < |e| {
        assert Encoding(enc, pdus)[..n] == e[..n];
        PrefixWaits(app, enc, pdus[0], n);
      } else {
        assert Encoding(enc, pdus)[..n] == e + more[..n - |e|];
        DrainOne(app, enc, st, pdus[0], more[..n - |e|]);
        DrainPrefix(app, enc, app.evnMsg(st, pdus[0]).0, pdus[1..], n - |e|);
      }
    }
  }

  lemma ConcatPrefix<T>(ss: seq<seq<T>>, i: nat)
    requires i <= |ss|
    ensures |Concat(ss[..i])| <= |Concat(ss)| && Concat(ss[..i]) == Concat(ss)[..|Concat(ss[..i])|]
  {
    assert ss == ss[..i] + ss[i..];
    ConcatAppend(ss[..i], ss[i..]);
  }

  /** On encodings, the receiver's condition is the sender's. */
  lemma SplitTwiceIsCutsTwice<S, P>(app: App<S, P>, enc: P -> seq<byte>, st: S, pdus: seq<P>, payloads: seq<seq<byte>>)
    requires app.Lawful() && forall p | p in pdus :: app.Encodes(enc, p)
    requires Deliver(app, st, pdus).1 && Concat(payloads) == Encoding(enc, pdus)
    ensures SplitTwice(app, st, payloads) <==> CutsTwice(enc, pdus, payloads)
  {
    forall i | 0 <= i <= |payloads|
      ensures Inside(app, st, payloads[..i]) <==> !Boundary(enc, pdus, |Concat(payloads[..i])|)
    {
      ConcatPrefix(payloads, i);
      DrainPrefix(app, enc, st, pdus, |Concat(payloads[..i])|);
    }
    if SplitTwice(app, st, payloads) {
      var i :| 0 <= i < |payloads| && Inside(app, st, payloads[..i]) && Inside(app, st, payloads[..i + 1]);
      assert !Boundary(enc, pdus, |Concat(payloads[..i + 1])|);
    }
    if CutsTwice(enc, pdus, payloads) {
      var i :| 0 <= i < |payloads| && !Boundary(enc, pdus, |Concat(payloads[..i])|)
          && !Boundary(enc, pdus, |Concat(payloads[..i + 1])|);
      assert Inside(app, st, payloads[..i + 1]);
    }
  }

  /** Round trip of the reference: the PDUs, in order, and nothing left, for every cut into frames,
      every mask and both spellings of the length. */
  lemma WholeRoundTrip<S, P>(app: App<S, P>, enc: P -> seq<byte>, mtu: nat, st: S, pdus: seq<P>, frames: seq<Wire>)
    requires app.Lawful() && forall p | p in pdus :: app.Encodes(enc, p)
    requires forall f | f in frames :: f.Sendable(mtu)
    requires Concat(PayloadsOf(frames)) == Encoding(enc, pdus)
    ensures var (st', ok) := Deliver(app, st, pdus);
            Whole(app, mtu, st, WireBytes(mtu, frames)) == if ok then Listening(st', [], []) else Down(st')
  {
    DeframeWire(mtu, frames);
    DrainEncoding(app, enc, st, pdus, []);
    assert Encoding(enc, pdus) + [] == Encoding(enc, pdus);
  }

  /** What is left over lies inside a PDU, whether or not the handler refuses one later. */
  lemma {:induction false} RestIsInside<S, P>(app: App<S, P>, enc: P -> seq<byte>, st: S, pdus: seq<P>, n: nat)
    requires app.Lawful() && forall p | p in pdus :: app.Encodes(enc, p)
    requires n <= |Encoding(enc, pdus)|
    ensures var d := Drain(app, st, Encoding(enc, pdus)[..n]);
            d.Open? && d.rest != [] ==> !Boundary(enc, pdus, n)
  {
    if n == 0 {
      assert Encoding(enc, pdus)[..0] == [];
    } else {
      var e, more := enc(pdus[0]), Encoding(enc, pdus[1..]);
      assert pdus[0] in pdus && app.Encodes(enc, pdus[0]);
      if n >= |e| {
        assert Encoding(enc, pdus)[..n] == e + more[..n - |e|];
        DrainOne(app, enc, st, pdus[0], more[..n - |e|]);
        RestIsInside(app, enc, app.evnMsg(st, pdus[0]).0, pdus[1..], n - |e|);
      }
    }
  }

  lemma SplitTwiceCutsTwice<S, P>(app: App<S, P>, enc: P -> seq<byte>, st: S, pdus: seq<P>, payloads: seq<seq<byte>>)
    requires app.Lawful() && forall p | p in pdus :: app.Encodes(enc, p)
    requires Concat(payloads) == Encoding(enc, pdus) && SplitTwice(app, st, payloads)
    ensures CutsTwice(enc, pdus, payloads)
  {
    forall i | 0 <= i <= |payloads| && Inside(app, st, payloads[..i])
      ensures !Boundary(enc, pdus, |Concat(payloads[..i])|)
    {
      ConcatPrefix(payloads, i);
      RestIsInside(app, enc, st, pdus, |Concat(payloads[..i])|);
    }
    var i :| 0 <= i < |payloads| && Inside(app, st, payloads[..i]) && Inside(app, st, payloads[..i + 1]);
    assert !Boundary(enc, pdus, |Concat(payloads[..i + 1])|);
  }

  /** Round trip of the code: for every read of the sent bytes, the PDUs given to the handler are
      exactly those sent, in order, up to the first it refuses, and otherwise the cache ends empty,
      when the sender never lets two consecutive frames end inside PDUs and no read is decided by
      memory behind it. */
  lemma RoundTrip<S, P>(
      app: App<S, P>, enc: P -> seq<byte>, mtu: nat, st: S, pdus: seq<P>, frames: seq<Wire>, rs: seq<Read>)
    requires app.Lawful() && forall p | p in pdus :: app.Encodes(enc, p)
    requires forall f | f in frames :: f.Sendable(mtu)
    requires Concat(PayloadsOf(frames)) == Encoding(enc, pdus)
    requires Reads(rs) && Bytes(rs) == WireBytes(mtu, frames)
    requires !CutsTwice(enc, pdus, PayloadsOf(frames)) && !ReadsAhead(app, mtu, st, rs)
    ensures var (st', ok) := Deliver(app, st, pdus);
            Run(app, mtu, st, rs) == if ok then Listening(st', [], []) else Down(st')
  {
    DeframeWire(mtu, frames);
    if SplitTwice(app, st, PayloadsOf(frames)) {
      SplitTwiceCutsTwice(app, enc, st, pdus, PayloadsOf(frames));
    }
    ReadsIdeal(app, mtu, st, rs, |rs|);
    assert rs[..|rs|] == rs;
    WholeRoundTrip(app, enc, mtu, st, pdus, frames);
  }

  /** A codec whose PDUs are three bytes long, and a handler that keeps them all. */
  function Triple(s: seq<byte>): Parse<seq<byte>> {
    if |s| < 3 then NeedMore else Pdu(s[..3], 3)
  }

  function Log(log: seq<seq<byte>>, pdu: seq<byte>): (seq<seq<byte>>, bool) {
    (log + [pdu], true)
  }

  lemma TripleIsLawful()
    ensures App(Triple, Log).Lawful()
  {
    var app := App(Triple, Log);
    forall s, t
      ensures app.Stable(s, t)
    {
      if |s| >= 3 { assert (s + t)[..3] == s[..3]; }
    }
  }

  lemma DrainTriple(p: seq<byte>, rest: seq<byte>)
    requires |p| == 3 && |rest| < 3
    ensures App(Triple, Log).Lawful()
    ensures Drain(App(Triple, Log), [], p + rest) == Open([p], rest)
  {
    TripleIsLawful();
    assert (p + rest)[..3] == p && (p + rest)[3..] == rest && [] + [p] == [p];
  }

  lemma TwoFrames<S, P>(app: App<S, P>, h: Held<S>, p: seq<byte>, q: seq<byte>)
    requires app.Lawful()
    ensures Concat([p, q]) == p + q
    ensures Joined(app, h, [p, q]) == JoinFrame(app, JoinFrame(app, h, p), q)
  {
    JoinedSnoc(app, h, [], p);
    JoinedSnoc(app, h, [p], q);
    ConcatSnoc([], p);
    ConcatSnoc([p], q);
    assert [] + [p] == [p] && [p] + [q] == [p, q] && [] + p == p;
  }

  lemma ThreeFrames<S, P>(app: App<S, P>, h: Held<S>, p: seq<byte>, q: seq<byte>, r: seq<byte>)
    requires app.Lawful()
    ensures Concat([p, q, r]) == p + q + r
    ensures Joined(app, h, [p, q, r]) == JoinFrame(app, JoinFrame(app, JoinFrame(app, h, p), q), r)
  {
    TwoFrames(app, h, p, q);
    JoinedSnoc(app, h, [p, q], r);
    ConcatSnoc([p, q], r);
    assert [p, q] + [r] == [p, q, r];
  }

  /** The three bytes of a PDU in frames of one, one and three bytes: the second frame empties the
      cache, and the third is taken for a PDU that nobody sent. */
  lemma SplitTwiceForges(a: byte, b: byte, c: byte, d: byte, e: byte)
    ensures App(Triple, Log).Lawful()
    ensures Ideal(App(Triple, Log), [], [[a], [b], [c, d, e]]) == Holding([[a, b, c]], [d, e])
    ensures Joined(App(Triple, Log), Holding([], []), [[a], [b], [c, d, e]]) == Holding([[c, d, e]], [])
  {
    TripleIsLawful();
    var app := App(Triple, Log);
    var h: Held<seq<seq<byte>>> := Holding([], []);
    ThreeFrames(app, h, [a], [b], [c, d, e]);
    assert [a] + [b] + [c, d, e] == [a, b, c] + [d, e];
    DrainTriple([a, b, c], [d, e]);
    assert JoinFrame(app, h, [a]) == Holding([], [a]) by {
      assert [] + [a] == [a];
    }
    assert JoinFrame(app, Holding([], [a]), [b]) == Holding([], []) by {
      assert [a] + [b] == [a, b];
    }
    assert JoinFrame(app, h, [c, d, e]) == Holding([[c, d, e]], []) by {
      assert [] + [c, d, e] == [c, d, e] + [];
      DrainTriple([c, d, e], []);
    }
  }

  /** The second frame ends one PDU and begins the next: undefined. */
  lemma SplitTwiceUndefined(a: byte, b: byte, c: byte, d: byte)
    ensures App(Triple, Log).Lawful()
    ensures Ideal(App(Triple, Log), [], [[a], [b, c, d]]) == Holding([[a, b, c]], [d])
    ensures Joined(App(Triple, Log), Holding([], []), [[a], [b, c, d]]) == Undefined
  {
    TripleIsLawful();
    var app := App(Triple, Log);
    var h: Held<seq<seq<byte>>> := Holding([], []);
    TwoFrames(app, h, [a], [b, c, d]);
    DrainTriple([a, b, c], [d]);
    assert [a] + [b, c, d] == [a, b, c] + [d] && [] + [a] == [a];
    assert JoinFrame(app, h, [a]) == Holding([], [a]);
  }
}
