/** Ping, pong and continuation frames: the receiver steps over two bytes of them and takes what
    follows, mask and payload, for frames. */
module ControlFrames {
  import opened Codec
  import opened Framing
  import opened WebSocket
  import opened WebSocketRuns

  /** The bytes pair up into openings that are stepped over. */
  predicate ControlPairs(x: seq<byte>) {
    x == [] || (|x| >= 2 && OpeningOf(x[0], x[1]).Control? && ControlPairs(x[2..]))
  }

  /** Such bytes are exactly those which the cutting consumes whole without a payload. */
  lemma {:induction false} ControlPairsExact(mtu: nat, x: seq<byte>)
    ensures ControlPairs(x) <==> Deframe(mtu, x).Payloads() == [] && Deframe(mtu, x).End() == Stop(false, [])
    decreases |x|
  {
    match HeaderOf(mtu, x)
    case Skip => ControlPairsExact(mtu, x[2..]);
    case _ =>
  }

  /** What stands before t makes no difference to its frames. */
  predicate Unseen(mtu: nat, front: seq<byte>, t: seq<byte>) {
    Deframe(mtu, front + t).Payloads() == Deframe(mtu, t).Payloads()
    && Deframe(mtu, front + t).End() == Deframe(mtu, t).End()
  }

  /** A control frame is stepped over as a whole, whatever follows it, if and only if its mask and
      masked payload happen to pair up into further control openings. */
  lemma ControlFrameExact(mtu: nat, b0: byte, b1: byte, body: seq<byte>)
    requires OpeningOf(b0, b1).Control?
    ensures (forall t :: Unseen(mtu, [b0, b1] + body, t)) <==> ControlPairs(body)
  {
    var front := [b0, b1] + body;
    ControlPairsExact(mtu, front);
    assert front[2..] == body;
    if ControlPairs(body) {
      forall t
        ensures Unseen(mtu, front, t)
      {
        CutMore(mtu, front, t);
        assert [] + t == t && [] + Deframe(mtu, t).Payloads() == Deframe(mtu, t).Payloads();
      }
    } else {
      NothingWaits(mtu);
      assert front + [] == front && !Unseen(mtu, front, []);
    }
  }

  /** For a control frame without payload the condition is on its mask alone. */
  lemma EmptyControlFrameExact(mtu: nat, b0: byte, b1: byte, m: seq<byte>)
    requires OpeningOf(b0, b1).Control? && |m| == 4
    ensures (forall t :: Unseen(mtu, [b0, b1] + m, t))
            <==> OpeningOf(m[0], m[1]).Control? && OpeningOf(m[2], m[3]).Control?
  {
    ControlFrameExact(mtu, b0, b1, m);
    assert m[2..][0] == m[2] && m[2..][1] == m[3] && m[2..][2..] == [];
    assert ControlPairs(m[2..]) <==> OpeningOf(m[2], m[3]).Control?;
  }

  /** Where the condition is met the frame is harmless at every frame boundary of a stream. */
  lemma ControlFrameHarmless<S, P>(
      app: App<S, P>, mtu: nat, st: S, a: seq<byte>, b0: byte, b1: byte, body: seq<byte>, t: seq<byte>)
    requires app.Lawful() && OpeningOf(b0, b1).Control? && ControlPairs(body)
    requires Deframe(mtu, a).End() == Stop(false, [])
    ensures Once(app, mtu, st, a + ([b0, b1] + body + t)) == Once(app, mtu, st, a + t)
  {
    hide Deframe, Joined;
    var front := [b0, b1] + body;
    ControlFrameExact(mtu, b0, b1, body);
    assert Unseen(mtu, front, t);
    CutMore(mtu, a, front + t);
    CutMore(mtu, a, t);
    assert [] + t == t && [] + (front + t) == front + t;
  }

  /** A masked ping without payload, its mask four zeros, closes the channel and loses what follows. */
  lemma PingCloses<S, P>(app: App<S, P>, mtu: nat, st: S, t: seq<byte>)
    requires app.Lawful()
    ensures OpeningOf(0x89, 0x80).Control? && !ControlPairs([0, 0, 0, 0])
    ensures Once(app, mtu, st, [0x89, 0x80, 0, 0, 0, 0] + t) == Down(st)
  {
    var zeros: seq<byte> := [0, 0, 0, 0];
    assert OpeningOf(zeros[0], zeros[1]).Bad? && !ControlPairs(zeros);
    var d := [0x89, 0x80, 0, 0, 0, 0] + t;
    assert d[0] == 0x89 && d[1] == 0x80 && d[2..][0] == 0 && d[2..][1] == 0;
    assert HeaderOf(mtu, d).Skip? && HeaderOf(mtu, d[2..]).Reject?;
    var c := Skipped(Stop(true, d[2..]));
    assert Deframe(mtu, d) == c;
    hide Deframe;
    assert c.Payloads() == Stop(true, d[2..]).Payloads() == []
        && c.End() == Stop(true, d[2..]).End() == Stop(true, d[2..]);
  }
}
