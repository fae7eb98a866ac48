/** WebSocket frames as this server reads them (sections 5.2 and 5.3 of RFC 6455). */
module Framing {
  import opened Codec

  const CONTINUATION: byte := 0x0
  const TEXT: byte := 0x1
  const BINARY: byte := 0x2
  const CLOSE: byte := 0x8
  const PING: byte := 0x9
  const PONG: byte := 0xA

  // The widest frame: a 2-byte opening, a 2-byte length, a mask and 65535 bytes.
  const LARGEST_FRAME: nat := 65543

  /** What the first two bytes of a frame announce. */
  datatype Opening = Bad | Control | Short(n: nat) | Long

  function OpeningOf(b0: byte, b1: byte): Opening {
    if b0 & 0x80 == 0 || b1 & 0x80 == 0 then Bad
    else
      var opcode := b0 & 0x0F;
      if opcode == CLOSE then Bad
      else if opcode == CONTINUATION || opcode == PING || opcode == PONG then Control
      else if opcode != TEXT && opcode != BINARY then Bad
      else if b1 == 0x80 || b1 == 0xFF then Bad
      else if b1 < 0xFE then Short((b1 & 0x7F) as nat)
      else Long
  }

  /** What the receiver does next: wait, close, step over two bytes, or take a frame of `size`
      bytes whose payload starts at `ofst`. */
  datatype Header = Wait | Reject | Skip | Data(size: nat, ofst: nat)

  function Sized(mtu: nat, len: nat, size: nat, ofst: nat): Header {
    if size > mtu then Reject else if len < size then Wait else Data(size, ofst)
  }

  function Length16(hi: byte, lo: byte): nat {
    hi as nat * 256 + lo as nat
  }

  lemma Length16Bound(hi: byte, lo: byte)
    ensures Length16(hi, lo) < 65536
  {
  }

  /** The decision as the code takes it: `d` is the memory from the frame on, of which `len` bytes
      were received. The 16-bit length is read without checking that its bytes have arrived. */
  function ReadHeader(mtu: nat, d: seq<byte>, len: nat): Header
    requires len + 2 <= |d|
  {
    if len < 2 then Wait else
    match OpeningOf(d[0], d[1])
    case Bad => Reject
    case Control => Skip
    case Short(n) => Sized(mtu, len, 6 + n, 6)
    case Long => Sized(mtu, len, 8 + Length16(d[2], d[3]), 8)
  }

  /** The decision on received bytes alone. */
  function HeaderOf(mtu: nat, d: seq<byte>): (h: Header)
    ensures h.Data? ==> 6 <= h.ofst <= h.size <= |d| && h.size <= mtu
    ensures h.Skip? ==> 2 <= |d|
  {
    if |d| < 2 then Wait else
    match OpeningOf(d[0], d[1])
    case Bad => Reject
    case Control => Skip
    case Short(n) => Sized(mtu, |d|, 6 + n, 6)
    case Long => if |d| < 4 then Wait else Sized(mtu, |d|, 8 + Length16(d[2], d[3]), 8)
  }

  /** The case where bytes that have not arrived decide: the frame is refused as too large. */
  predicate Overread(mtu: nat, d: seq<byte>, len: nat)
    requires len + 2 <= |d|
  {
    2 <= len < 4 && OpeningOf(d[0], d[1]).Long? && 8 + Length16(d[2], d[3]) > mtu
  }

  lemma ReadHeaderExact(mtu: nat, d: seq<byte>, len: nat)
    requires len + 2 <= |d|
    ensures ReadHeader(mtu, d, len) == if Overread(mtu, d, len) then Reject else HeaderOf(mtu, d[..len])
  {
    if len >= 2 {
      assert d[..len][0] == d[0] && d[..len][1] == d[1];
    }
  }

  lemma HeaderStable(mtu: nat, a: seq<byte>, b: seq<byte>)
    ensures !HeaderOf(mtu, a).Wait? ==> HeaderOf(mtu, a + b) == HeaderOf(mtu, a)
  {
    if |a| >= 2 {
      assert (a + b)[0] == a[0] && (a + b)[1] == a[1];
      if |a| >= 4 {
        assert (a + b)[2] == a[2] && (a + b)[3] == a[3];
      }
    }
  }

  /** The payload of the frame at the front of `d`; the mask is the four bytes before it. */
  function Payload(d: seq<byte>, ofst: nat, size: nat): seq<byte>
    requires 4 <= ofst <= size <= |d|
  {
    seq(size - ofst, i requires 0 <= i < size - ofst => d[ofst + i] ^ d[ofst - 4 + i % 4])
  }

  lemma PayloadStable(a: seq<byte>, b: seq<byte>, ofst: nat, size: nat)
    requires 4 <= ofst <= size <= |a|
    ensures Payload(a + b, ofst, size) == Payload(a, ofst, size)
  {
  }

  /** A whole byte sequence cut into frames: the unmasked payloads of the complete data frames, the
      openings stepped over, and the tail where the cutting stops, refused or incomplete. */
  datatype Cut = Stop(rejected: bool, tail: seq<byte>) | Skipped(rest: Cut) | Frame(payload: seq<byte>, rest: Cut) {

    function End(): (c: Cut)
      ensures c.Stop?
    {
      match this
      case Stop(_, _) => this
      case Skipped(rest) => rest.End()
      case Frame(_, rest) => rest.End()
    }

    function Payloads(): seq<seq<byte>> {
      match this
      case Stop(_, _) => []
      case Skipped(rest) => rest.Payloads()
      case Frame(p, rest) => [p] + rest.Payloads()
    }

    /** The same frames with another ending. */
    function Then(last: Cut): Cut {
      match this
      case Stop(_, _) => last
      case Skipped(rest) => Skipped(rest.Then(last))
      case Frame(p, rest) => Frame(p, rest.Then(last))
    }
  }

  function Deframe(mtu: nat, d: seq<byte>): Cut
    decreases |d|
  {
    match HeaderOf(mtu, d)
    case Wait => Stop(false, d)
    case Reject => Stop(true, d)
    case Skip => Skipped(Deframe(mtu, d[2..]))
    case Data(size, ofst) => Frame(Payload(d, ofst, size), Deframe(mtu, d[size..]))
  }

  /** The cutting stops at a suffix that is refused or has no complete frame at its front. */
  lemma {:induction false} DeframeStops(mtu: nat, d: seq<byte>)
    ensures var end := Deframe(mtu, d).End();
            HeaderOf(mtu, end.tail) == (if end.rejected then Reject else Wait) && Suffix(end.tail, d)
    decreases |d|
  {
    match HeaderOf(mtu, d)
    case Wait =>
    case Reject =>
    case Skip =>
      DeframeStops(mtu, d[2..]);
      SuffixPast(Deframe(mtu, d[2..]).End().tail, d, 2);
    case Data(size, _) =>
      DeframeStops(mtu, d[size..]);
      SuffixPast(Deframe(mtu, d[size..]).End().tail, d, size);
  }

  predicate Suffix(t: seq<byte>, d: seq<byte>) {
    |t| <= |d| && d[|d| - |t|..] == t
  }

  lemma SuffixPast(t: seq<byte>, d: seq<byte>, n: nat)
    requires n <= |d| && Suffix(t, d[n..])
    ensures Suffix(t, d)
  {
    assert d[n..][|d| - n - |t|..] == d[|d| - |t|..];
  }

  /** Cutting what has arrived and then the leftover with the rest is cutting all of it at once. */
  lemma {:induction false} DeframeAppend(mtu: nat, a: seq<byte>, b: seq<byte>)
    ensures var c := Deframe(mtu, a);
            Deframe(mtu, a + b) == if c.End().rejected then c.Then(Stop(true, c.End().tail + b))
                                   else c.Then(Deframe(mtu, c.End().tail + b))
    decreases |a|
  {
    HeaderStable(mtu, a, b);
    match HeaderOf(mtu, a)
    case Wait =>
    case Reject =>
    case Skip =>
      DropAppend(a, b, 2);
      DeframeAppend(mtu, a[2..], b);
    case Data(size, ofst) =>
      DropAppend(a, b, size);
      PayloadStable(a, b, ofst, size);
      DeframeAppend(mtu, a[size..], b);
  }

  /** The frame at the front of `d` as `decode` leaves it in memory; nothing when it takes none. */
  function Piece(mtu: nat, d: seq<byte>, len: nat): (p: seq<byte>)
    requires len + 2 <= |d|
    ensures |p| <= len
    ensures |p| == match ReadHeader(mtu, d, len) case Skip => 2 case Data(size, _) => size case _ => 0
  {
    ReadHeaderExact(mtu, d, len);
    match ReadHeader(mtu, d, len)
    case Skip => d[..2]
    case Data(size, ofst) => d[..ofst] + Payload(d, ofst, size)
    case _ => []
  }

  /** The memory `d` after `decode` has unmasked the complete frames among its first `len` bytes. */
  function Unmasked(mtu: nat, d: seq<byte>, len: nat): (m: seq<byte>)
    requires len + 2 <= |d|
    ensures |m| == |d|
    decreases len
  {
    var p := Piece(mtu, d, len);
    if p == [] then d else p + Unmasked(mtu, d[|p|..], len - |p|)
  }

  /** Unmasking touches every payload byte once: a second pass restores the masked bytes. */
  lemma {:induction false} UnmaskedTwice(mtu: nat, d: seq<byte>, len: nat)
    requires len + 2 <= |d|
    ensures Unmasked(mtu, Unmasked(mtu, d, len), len) == d
    decreases len
  {
    hide Piece, Unmasked;
    var p := Piece(mtu, d, len);
    UnmaskedFront(mtu, d, len);
    if p != [] {
      var rest := Unmasked(mtu, d[|p|..], len - |p|);
      UnmaskedTwice(mtu, d[|p|..], len - |p|);
      PieceTwice(mtu, d, len, rest);
      UnmaskedFront(mtu, p + rest, len);
      DropFront(p, rest);
      TakeThenDrop(d, |p|);
    }
  }

  lemma UnmaskedFront(mtu: nat, d: seq<byte>, len: nat)
    requires len + 2 <= |d|
    ensures var p := Piece(mtu, d, len);
            Unmasked(mtu, d, len) == if p == [] then d else p + Unmasked(mtu, d[|p|..], len - |p|)
  {
  }

  lemma PieceTwice(mtu: nat, d: seq<byte>, len: nat, rest: seq<byte>)
    requires len + 2 <= |d| && Piece(mtu, d, len) != [] && |Piece(mtu, d, len) + rest| == |d|
    ensures Piece(mtu, Piece(mtu, d, len) + rest, len) == d[..|Piece(mtu, d, len)|]
  {
    ReadHeaderExact(mtu, d, len);
    var p := Piece(mtu, d, len);
    var h := ReadHeader(mtu, d, len);
    assert (p + rest)[0] == p[0] == d[0] && (p + rest)[1] == p[1] == d[1];
    if h.Data? {
      SameData(mtu, d, p + rest, len);
      assert (p + rest)[..h.ofst] == d[..h.ofst];
      assert (p + rest)[h.ofst..h.size] == Payload(d, h.ofst, h.size);
      PayloadTwice(d, p + rest, h.ofst, h.size);
      assert d[..h.ofst] + d[h.ofst..h.size] == d[..h.size];
    } else {
      assert (p + rest)[..2] == d[..2];
    }
  }

  lemma SameData(mtu: nat, d: seq<byte>, m: seq<byte>, len: nat)
    requires len + 2 <= |d| == |m| && ReadHeader(mtu, d, len).Data?
    requires 6 <= ReadHeader(mtu, d, len).ofst && forall i | 0 <= i < ReadHeader(mtu, d, len).ofst :: m[i] == d[i]
    ensures ReadHeader(mtu, m, len) == ReadHeader(mtu, d, len)
  {
  }

  lemma PayloadTwice(d: seq<byte>, m: seq<byte>, ofst: nat, size: nat)
    requires 4 <= ofst <= size <= |d| == |m|
    requires m[..ofst] == d[..ofst] && m[ofst..size] == Payload(d, ofst, size)
    ensures Payload(m, ofst, size) == d[ofst..size]
  {
    forall i | 0 <= i < size - ofst
      ensures Payload(m, ofst, size)[i] == d[ofst + i]
    {
      assert m[ofst + i] == m[ofst..size][i];
      assert m[ofst - 4 + i % 4] == m[..ofst][ofst - 4 + i % 4] == d[..ofst][ofst - 4 + i % 4];
      XorTwice(d[ofst + i], d[ofst - 4 + i % 4]);
    }
  }

  /** A data frame as a client sends it: `size` is what follows the mask bit, one byte of length, or
      0x7E and two bytes of length. */
  datatype Wire = Wire(opcode: byte, size: Size, mask: seq<byte>, payload: seq<byte>) {

    predicate Sendable(mtu: nat) {
      && (opcode == TEXT || opcode == BINARY) && |mask| == 4
      && size.Spells(|payload|)
      && Offset() + |payload| <= mtu
    }

    function Offset(): nat {
      if size.Two? then 8 else 6
    }

    function Head(): (h: seq<byte>)
      ensures |h| == Offset() - 4
    {
      [0x80 | opcode] + match size case One(n) => [0x80 | n] case Two(hi, lo) => [0xFE, hi, lo]
    }

    function Masked(): (m: seq<byte>)
      requires |mask| == 4
      ensures |m| == |payload|
    {
      seq(|payload|, i requires 0 <= i < |payload| => payload[i] ^ mask[i % 4])
    }

    function Bytes(): (b: seq<byte>)
      requires |mask| == 4
      ensures |b| == Offset() + |payload|
    {
      Head() + mask + Masked()
    }
  }

  datatype Size = One(n: byte) | Two(hi: byte, lo: byte) {
    predicate Spells(len: nat) {
      match this
      case One(n) => 1 <= n <= 125 && n as nat == len
      case Two(hi, lo) => Length16(hi, lo) == len
    }
  }

  function WireBytes(mtu: nat, frames: seq<Wire>): seq<byte>
    requires forall f | f in frames :: f.Sendable(mtu)
  {
    if frames == [] then [] else
    assert frames[0] in frames && frames[0].Sendable(mtu);
    frames[0].Bytes() + WireBytes(mtu, frames[1..])
  }

  function PayloadsOf(frames: seq<Wire>): seq<seq<byte>> {
    if frames == [] then [] else [frames[0].payload] + PayloadsOf(frames[1..])
  }

  lemma FrameRoundTrip(mtu: nat, f: Wire, t: seq<byte>)
    requires f.Sendable(mtu)
    ensures HeaderOf(mtu, f.Bytes() + t) == Data(|f.Bytes()|, f.Offset())
    ensures Payload(f.Bytes() + t, f.Offset(), |f.Bytes()|) == f.payload
  {
    assert f.Bytes() + t == f.Head() + (f.mask + f.Masked() + t);
    HeaderRoundTrip(mtu, f, f.mask + f.Masked() + t);
    Unmasking(f.Head(), f, t);
  }

  lemma Unmasking(head: seq<byte>, f: Wire, t: seq<byte>)
    requires |f.mask| == 4
    ensures var d := head + f.mask + f.Masked() + t;
            Payload(d, |head| + 4, |head| + 4 + |f.payload|) == f.payload
  {
    var d := head + f.mask + f.Masked() + t;
    forall i | 0 <= i < |f.payload|
      ensures d[|head| + 4 + i] ^ d[|head| + i % 4] == f.payload[i]
    {
      XorTwice(f.payload[i], f.mask[i % 4]);
    }
  }

  lemma HeaderRoundTrip(mtu: nat, f: Wire, t: seq<byte>)
    requires f.Sendable(mtu) && |t| >= 4 + |f.payload|
    ensures HeaderOf(mtu, f.Head() + t) == Data(f.Offset() + |f.payload|, f.Offset())
  {
    var d := f.Head() + t;
    assert d[0] == f.Head()[0] && d[1] == f.Head()[1];
    match f.size
    case One(n) =>
      ShortOpening(f.opcode, n);
    case Two(hi, lo) =>
      LongOpening(f.opcode);
      assert d[2] == f.Head()[2] && d[3] == f.Head()[3];
  }

  lemma ShortOpening(opcode: byte, n: byte)
    requires (opcode == TEXT || opcode == BINARY) && 1 <= n <= 125
    ensures OpeningOf(0x80 | opcode, 0x80 | n) == Short(n as nat)
  {
    assert (0x80 | n) & 0x7F == n;
  }

  lemma LongOpening(opcode: byte)
    requires opcode == TEXT || opcode == BINARY
    ensures OpeningOf(0x80 | opcode, 0xFE) == Long
  {
  }

  lemma XorTwice(x: byte, m: byte)
    ensures (x ^ m) ^ m == x
  {
  }

  lemma NothingWaits(mtu: nat)
    ensures HeaderOf(mtu, []) == Wait
  {
  }

  /** Cutting the sent bytes yields the sent payloads and nothing else. */
  lemma {:induction false} DeframeWire(mtu: nat, frames: seq<Wire>)
    requires forall f | f in frames :: f.Sendable(mtu)
    ensures var c := Deframe(mtu, WireBytes(mtu, frames));
            c.Payloads() == PayloadsOf(frames) && c.End() == Stop(false, [])
  {
    hide HeaderOf, Payload, Wire.Bytes;
    if frames == [] {
      NothingWaits(mtu);
    } else {
      var rest := WireBytes(mtu, frames[1..]);
      assert frames[0] in frames;
      FrameRoundTrip(mtu, frames[0], rest);
      DropFront(frames[0].Bytes(), rest);
      DeframeWire(mtu, frames[1..]);
    }
  }
}
