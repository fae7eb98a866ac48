/** What the receiver makes of the first bytes of a frame, on the bits of section 5.2 of RFC 6455. */
module Openings {
  import opened Codec
  import opened Framing
  import opened WebSocket
  import opened WebSocketRuns

  /** No FIN bit, no mask bit, an opcode other than continuation, text, binary, ping and pong, or a
      text or binary frame that is empty or announces a 64-bit length. */
  predicate RefusedBits(b0: byte, b1: byte) {
    || b0 & 0x80 == 0
    || b1 & 0x80 == 0
    || b0 & 0x0F !in {0x0, 0x1, 0x2, 0x9, 0xA}
    || (b0 & 0x0F in {0x1, 0x2} && (b1 == 0x80 || b1 == 0xFF))
  }

  /** A masked FIN frame of continuation, ping or pong. */
  predicate SteppedOverBits(b0: byte, b1: byte) {
    b0 & 0x80 != 0 && b1 & 0x80 != 0 && b0 & 0x0F in {0x0, 0x9, 0xA}
  }

  /** How long a text or binary frame is: two bytes, for 0xFE two more with the length, high byte
      first, the mask, and the payload. */
  function FrameSize(d: seq<byte>): nat
    requires |d| >= 2 && d[1] >= 0x80 && (d[1] == 0xFE ==> |d| >= 4)
  {
    if d[1] == 0xFE then 2 + 2 + 4 + (d[2] as nat * 256 + d[3] as nat) else 2 + 4 + (d[1] as nat - 128)
  }

  lemma LowBits(b: byte)
    requires b & 0x80 != 0
    ensures b >= 0x80 && (b & 0x7F) as nat == b as nat - 128
  {
    assert b & 0x7F == b - 0x80;
  }

  lemma OpeningBits(b0: byte, b1: byte)
    ensures OpeningOf(b0, b1).Bad? <==> RefusedBits(b0, b1)
    ensures OpeningOf(b0, b1).Control? <==> SteppedOverBits(b0, b1)
    ensures OpeningOf(b0, b1).Long? ==> b1 == 0xFE
    ensures OpeningOf(b0, b1).Short? ==> 0x80 < b1 < 0xFE && OpeningOf(b0, b1).n == b1 as nat - 128
  {
    if b1 & 0x80 != 0 { LowBits(b1); }
  }

  /** The decision on what has arrived of a frame, exactly: what is refused, stepped over, waited for
      and taken. */
  lemma HeaderExact(mtu: nat, d: seq<byte>)
    ensures |d| < 2 ==> HeaderOf(mtu, d).Wait?
    ensures |d| >= 2 && RefusedBits(d[0], d[1]) ==> HeaderOf(mtu, d).Reject?
    ensures |d| >= 2 && SteppedOverBits(d[0], d[1]) ==> HeaderOf(mtu, d).Skip?
    ensures |d| >= 2 && !RefusedBits(d[0], d[1]) && !SteppedOverBits(d[0], d[1]) ==>
              && d[1] >= 0x80
              && if d[1] == 0xFE && |d| < 4 then HeaderOf(mtu, d).Wait?
                 else if FrameSize(d) > mtu then HeaderOf(mtu, d).Reject?
                 else if |d| < FrameSize(d) then HeaderOf(mtu, d).Wait?
                 else HeaderOf(mtu, d) == Data(FrameSize(d), if d[1] == 0xFE then 8 else 6)
  {
    if |d| >= 2 {
      OpeningBits(d[0], d[1]);
      if d[1] & 0x80 != 0 { LowBits(d[1]); }
    }
  }

  /** The same for the decision as the code takes it: a 16-bit length that has not arrived is taken
      from the memory behind what has, and refuses the frame when it is too large. */
  lemma CodedHeaderExact(mtu: nat, d: seq<byte>, len: nat)
    requires len + 2 <= |d|
    ensures var unread := 2 <= len < 4 && d[1] == 0xFE && d[0] & 0x80 != 0 && d[0] & 0x0F in {0x1, 0x2};
            ReadHeader(mtu, d, len)
            == if unread && 8 + (d[2] as nat * 256 + d[3] as nat) > mtu then Reject else HeaderOf(mtu, d[..len])
  {
    ReadHeaderExact(mtu, d, len);
    if len >= 2 {
      OpeningBits(d[0], d[1]);
      assert 0xFE & 0x80 as byte != 0;
    }
  }

  /** How bytes are cut, exactly: a control opening is two bytes and gone, and a complete data frame
      yields its bytes behind the mask, each with its byte of the mask. */
  lemma DeframeExact(mtu: nat, d: seq<byte>)
    requires |d| >= 2 && !RefusedBits(d[0], d[1])
    ensures SteppedOverBits(d[0], d[1]) ==> Deframe(mtu, d) == Skipped(Deframe(mtu, d[2..]))
    ensures !SteppedOverBits(d[0], d[1]) ==> d[1] >= 0x80
    ensures !SteppedOverBits(d[0], d[1]) && (d[1] == 0xFE ==> |d| >= 4) && FrameSize(d) <= mtu
            && FrameSize(d) <= |d| ==>
              var ofst := if d[1] == 0xFE then 8 else 6;
              var c := Deframe(mtu, d);
              && c.Frame? && c.rest == Deframe(mtu, d[FrameSize(d)..]) && |c.payload| + ofst == FrameSize(d)
              && forall i | 0 <= i < |c.payload| :: c.payload[i] == d[ofst + i] ^ d[ofst - 4 + i % 4]
  {
    HeaderExact(mtu, d);
  }

  /** What the first two bytes alone do to a fresh channel. */
  lemma OpeningAlone<S, P>(app: App<S, P>, mtu: nat, st: S, b0: byte, b1: byte)
    requires app.Lawful() && mtu >= LARGEST_FRAME
    ensures Once(app, mtu, st, [b0, b1])
            == if RefusedBits(b0, b1) then Down(st)
               else if SteppedOverBits(b0, b1) then Listening(st, [], [])
               else Listening(st, [], [b0, b1])
  {
    var d := [b0, b1];
    HeaderExact(mtu, d);
    if SteppedOverBits(b0, b1) {
      assert d[2..] == [];
      NothingWaits(mtu);
      var c := Skipped(Stop(false, []));
      assert Deframe(mtu, d) == c;
      hide Deframe;
      assert c.Payloads() == Stop(false, []).Payloads() == [];
      assert c.End() == Stop(false, []).End() == Stop(false, []);
    }
  }

  /** Whatever follows, the channel closes on these two bytes if and only if they are refused. In
      particular it closes on a close frame. */
  lemma RefusalExact<S, P>(app: App<S, P>, mtu: nat, st: S, b0: byte, b1: byte)
    requires app.Lawful() && mtu >= LARGEST_FRAME
    ensures (forall t :: Once(app, mtu, st, [b0, b1] + t) == Down(st))
            <==> || b0 & 0x80 == 0
                 || b1 & 0x80 == 0
                 || b0 & 0x0F !in {0x0, 0x1, 0x2, 0x9, 0xA}
                 || (b0 & 0x0F in {0x1, 0x2} && (b1 == 0x80 || b1 == 0xFF))
    ensures b0 == 0x88 ==> forall t :: Once(app, mtu, st, [b0, b1] + t) == Down(st)
  {
    OpeningAlone(app, mtu, st, b0, b1);
    assert 0x88 & 0x0F as byte == 0x8;
    if RefusedBits(b0, b1) {
      forall t
        ensures Once(app, mtu, st, [b0, b1] + t) == Down(st)
      {
        OnceStays(app, mtu, st, [b0, b1], t);
      }
    } else {
      assert [b0, b1] + [] == [b0, b1];
    }
  }

  /** So decode closes on them at once, in whatever state. */
  lemma RefusedCloses<S, P>(app: App<S, P>, mtu: nat, st: S, cache: seq<byte>, d: seq<byte>, len: nat)
    requires app.Lawful() && 2 <= len && len + 2 <= |d|
    requires || d[0] & 0x80 == 0
             || d[1] & 0x80 == 0
             || d[0] & 0x0F !in {0x0, 0x1, 0x2, 0x9, 0xA}
             || (d[0] & 0x0F in {0x1, 0x2} && (d[1] == 0x80 || d[1] == 0xFF))
    ensures Decoded(app, mtu, st, cache, d, len) == Closing(st)
  {
    OpeningBits(d[0], d[1]);
  }

  /** A frame that announces more than the buffer holds closes the channel as soon as its length is
      known. */
  lemma OversizeCloses<S, P>(app: App<S, P>, mtu: nat, st: S, d: seq<byte>, t: seq<byte>)
    requires app.Lawful() && |d| >= 2 && !RefusedBits(d[0], d[1]) && !SteppedOverBits(d[0], d[1])
    requires d[1] >= 0x80 && (d[1] == 0xFE ==> |d| >= 4) && FrameSize(d) > mtu
    ensures Once(app, mtu, st, d + t) == Down(st)
  {
    HeaderExact(mtu, d);
    assert Deframe(mtu, d) == Stop(true, d);
    OnceStays(app, mtu, st, d, t);
  }
}
