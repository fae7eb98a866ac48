/** The WebSocket channel: frames, a reassembly cache across frames, and PDUs (RFC 6455). */
module WebSocket {
  import opened Codec
  import opened PduStream
  import opened Framing

  /** The channel between two frames. Undefined: the cache was erased past its end and nothing
      can be said about the channel any more. */
  datatype Held<+S> = Holding(state: S, cache: seq<byte>) | Refused(state: S) | Undefined

  /** One frame's payload, as the code handles it. With a non-empty cache and bytes left over, the
      erase runs from the front to as many bytes past the end as were decoded: it forgets everything
      when that is none, and is undefined otherwise. */
  function JoinFrame<S, P>(app: App<S, P>, h: Held<S>, payload: seq<byte>): Held<S>
    requires app.Lawful()
  {
    if !h.Holding? then h else
    var bytes := h.cache + payload;
    match Drain(app, h.state, bytes)
    case Closed(st) => Refused(st)
    case Open(st, rest) =>
      if rest == [] || h.cache == [] then Holding(st, rest)
      else if |rest| == |bytes| then Holding(st, [])
      else Undefined
  }

  function Process<S, P>(app: App<S, P>, h: Held<S>, c: Cut): Held<S>
    requires app.Lawful()
    decreases c
  {
    match c
    case Stop(_, _) => h
    case Skipped(rest) => Process(app, h, rest)
    case Frame(p, rest) => Process(app, JoinFrame(app, h, p), rest)
  }

  /** How one call of `decode` ends; `left` bytes at the end must be presented again. */
  datatype Outcome<+S> = Awaiting(state: S, cache: seq<byte>, left: nat) | Closing(state: S) | Lost

  /** `decode` on the memory `d`, of which `len` bytes were received. */
  function Decoded<S, P>(app: App<S, P>, mtu: nat, st: S, cache: seq<byte>, d: seq<byte>, len: nat): (o: Outcome<S>)
    requires app.Lawful() && len + 2 <= |d|
    ensures o.Awaiting? ==> o.left <= len
    decreases len
  {
    ReadHeaderExact(mtu, d, len);
    match ReadHeader(mtu, d, len)
    case Wait => Awaiting(st, cache, len)
    case Reject => Closing(st)
    case Skip => Decoded(app, mtu, st, cache, d[2..], len - 2)
    case Data(size, ofst) =>
      match JoinFrame(app, Holding(st, cache), Payload(d, ofst, size))
      case Holding(st', cache') => Decoded(app, mtu, st', cache', d[size..], len - size)
      case Refused(st') => Closing(st')
      case Undefined => Lost
  }

  /** The interleaved loop is the cutting of all the received bytes followed by the frames, except
      that bytes which have not arrived can refuse the tail. */
  lemma {:induction false} DecodedIsCut<S, P>(app: App<S, P>, mtu: nat, st: S, cache: seq<byte>, d: seq<byte>, len: nat)
    requires app.Lawful() && len + 2 <= |d|
    ensures var end := Deframe(mtu, d[..len]).End();
            Decoded(app, mtu, st, cache, d, len)
            == match Process(app, Holding(st, cache), Deframe(mtu, d[..len]))
               case Undefined => Lost
               case Refused(st') => Closing(st')
               case Holding(st', cache') =>
                 if end.rejected || Overread(mtu, end.tail + d[len..], |end.tail|) then Closing(st')
                 else Awaiting(st', cache', |end.tail|)
    decreases len
  {
    ReadHeaderExact(mtu, d, len);
    match HeaderOf(mtu, d[..len])
    case Wait =>
      assert d[..len] + d[len..] == d;
    case Reject =>
    case Skip =>
      TakeDrop(d, 2, len);
      DecodedIsCut(app, mtu, st, cache, d[2..], len - 2);
    case Data(size, ofst) =>
      TakeDrop(d, size, len);
      PayloadOfTake(d, ofst, size, len);
      var h := JoinFrame(app, Holding(st, cache), Payload(d, ofst, size));
      if h.Holding? {
        DecodedIsCut(app, mtu, h.state, h.cache, d[size..], len - size);
      } else {
        ProcessStuck(app, h, Deframe(mtu, d[size..][..len - size]));
      }
  }

  lemma TakeDrop(d: seq<byte>, n: nat, len: nat)
    requires n <= len <= |d|
    ensures d[..len][n..] == d[n..][..len - n] && d[n..][len - n..] == d[len..]
  {
  }

  lemma PayloadOfTake(d: seq<byte>, ofst: nat, size: nat, len: nat)
    requires 4 <= ofst <= size <= len <= |d|
    ensures Payload(d[..len], ofst, size) == Payload(d, ofst, size)
  {
  }

  lemma {:induction false} ProcessStuck<S, P>(app: App<S, P>, h: Held<S>, c: Cut)
    requires app.Lawful() && !h.Holding?
    ensures Process(app, h, c) == h
  {
    match c
    case Stop(_, _) =>
    case Skipped(rest) => ProcessStuck(app, h, rest);
    case Frame(_, rest) => ProcessStuck(app, h, rest);
  }

  /** Progress: what `decode` leaves for the next read is less than one buffer, so a buffer of mtu
      bytes always has room for more. */
  lemma {:induction false} LeftoverFits<S, P>(app: App<S, P>, mtu: nat, st: S, cache: seq<byte>, d: seq<byte>, len: nat)
    requires app.Lawful() && len + 2 <= |d| && mtu >= 2
    ensures var o := Decoded(app, mtu, st, cache, d, len);
            o.Awaiting? ==> o.left < mtu
    decreases len
  {
    ReadHeaderExact(mtu, d, len);
    match ReadHeader(mtu, d, len)
    case Wait =>
    case Reject =>
    case Skip =>
      LeftoverFits(app, mtu, st, cache, d[2..], len - 2);
    case Data(size, ofst) =>
      var h := JoinFrame(app, Holding(st, cache), Payload(d, ofst, size));
      if h.Holding? {
        LeftoverFits(app, mtu, h.state, h.cache, d[size..], len - size);
      }
  }

  /** What one turn of the loop of `decode` decides. */
  datatype Turn = Leave | Close | Broken | Next(n: nat)

  /** The decision of one turn on the memory d of a frame, of which `len` bytes were received. */
  ghost predicate TurnTaken<S, P>(
      app: App<S, P>, mtu: nat, d: seq<byte>, len: nat, st: S, cache: seq<byte>, st': S, cache': seq<byte>, turn: Turn)
    requires app.Lawful() && len + 2 <= |d|
  {
    ReadHeaderExact(mtu, d, len);
    match ReadHeader(mtu, d, len)
    case Wait => turn == Leave && st' == st && cache' == cache
    case Reject => turn == Close && st' == st
    case Skip => turn == Next(2) && st' == st && cache' == cache
    case Data(size, ofst) =>
      match JoinFrame(app, Holding(st, cache), Payload(d, ofst, size))
      case Holding(s, c) => turn == Next(size) && st' == s && cache' == c
      case Refused(s) => turn == Close && st' == s
      case Undefined => turn == Broken
  }

  /** The loop has taken the front of the memory `d` and left `front` there; `back` is untouched and
      `len` of its bytes were received. */
  ghost predicate Reached<S, P>(
      app: App<S, P>, mtu: nat, st0: S, cache0: seq<byte>, d: seq<byte>, len0: nat,
      st: S, cache: seq<byte>, front: seq<byte>, back: seq<byte>, len: nat)
    requires app.Lawful()
  {
    && len + 2 <= |back| && len0 + 2 <= |d| && |front| + len == len0 && Suffix(back, d)
    && Decoded(app, mtu, st0, cache0, d, len0) == Decoded(app, mtu, st, cache, back, len)
    && Unmasked(mtu, d, len0) == front + Unmasked(mtu, back, len)
  }

  /** Does the blank line that ends a request end at position i? */
  predicate BlankLineAt(d: seq<byte>, i: int) {
    4 <= i < |d| && d[i] == 0x0A && d[i - 1] == 0x0D && d[i - 2] == 0x0A && d[i - 3] == 0x0D
  }

  /** A blank line ends where the scan looks: at every fourth position, counted from the last byte. */
  ghost predicate Recognised(d: seq<byte>) {
    exists i {:trigger BlankLineAt(d, i)} :: i % 4 == (|d| - 1) % 4 && BlankLineAt(d, i)
  }

  /** The last such position. */
  ghost predicate LastBlankLine(d: seq<byte>, e: int) {
    && BlankLineAt(d, e) && e % 4 == (|d| - 1) % 4
    && forall i {:trigger BlankLineAt(d, i)} | e < i && i % 4 == (|d| - 1) % 4 :: !BlankLineAt(d, i)
  }

  lemma LastIsOne(d: seq<byte>, e: int)
    requires LastBlankLine(d, e)
    ensures Recognised(d) && forall f | LastBlankLine(d, f) :: f == e
  {
  }

  /** A request that ends the buffer is recognised at its end. */
  lemma RequestAtEnd(d: seq<byte>)
    requires BlankLineAt(d, |d| - 1)
    ensures LastBlankLine(d, |d| - 1)
  {
  }

  /** A complete request followed by more bytes is recognised exactly when they are a multiple of four. */
  lemma HandshakeExact(request: seq<byte>, extra: seq<byte>)
    requires BlankLineAt(request, |request| - 1)
    requires forall i {:trigger BlankLineAt(request + extra, i)} ::
              BlankLineAt(request + extra, i) ==> i == |request| - 1
    ensures Recognised(request + extra) <==> |extra| % 4 == 0
  {
    assert BlankLineAt(request + extra, |request| - 1);
  }

  /** So one byte sent along with its request hides it. */
  lemma HandshakeMissed(x: byte, y: byte)
    ensures BlankLineAt([x, 0x0D, 0x0A, 0x0D, 0x0A], 4) && !Recognised([x, 0x0D, 0x0A, 0x0D, 0x0A] + [y])
  {
  }

  class WebSocketChannel<S, P> {
    const app: App<S, P>
    const mtu: nat
    const parseSwk: seq<byte> -> Option<seq<byte>>
    var hs: bool
    var cachedXscPdu: seq<byte>
    var state: S
    var handShakes: seq<seq<byte>>

    constructor (app: App<S, P>, mtu: nat, parseSwk: seq<byte> -> Option<seq<byte>>, state: S)
      ensures this.app == app && this.mtu == mtu && this.parseSwk == parseSwk && this.state == state
      ensures !hs && cachedXscPdu == [] && handShakes == []
    {
      this.app, this.mtu, this.parseSwk := app, mtu, parseSwk;
      this.hs, this.cachedXscPdu, this.state, this.handShakes := false, [], state, [];
    }

    /** With `e` the last position of those the scan looks at where a blank line ends: the request
        before it is parsed, the channel is then set up for the key found and the bytes up to `e` are
        taken, or it is closed if there is none. Without such a position the bytes have to wait. */
    method CheckHandShake(dat: array<byte>, len: nat) returns (r: int)
      requires len <= dat.Length
      modifies this`hs, this`handShakes, dat
      ensures r == 0 <==> !Recognised(old(dat[..len]))
      ensures r == 0 ==> hs == old(hs) && handShakes == old(handShakes) && dat[..] == old(dat[..])
      ensures forall e | LastBlankLine(old(dat[..len]), e) ::
                && dat[..] == old(dat[..])[e - 1 := 0]
                && match parseSwk(old(dat[..len])[..e - 1])
                   case Some(key) => r == e + 1 && hs && handShakes == old(handShakes) + [key]
                   case None => r == -1 && hs == old(hs) && handShakes == old(handShakes)
      ensures r != 0 ==> exists e :: LastBlankLine(old(dat[..len]), e)
    {
      var found := false;
      var ofst := 0;
      var i: int := len - 1;
      while i >= 4
        invariant !found && ofst == 0 && i % 4 == (len - 1) % 4 && i < len
        invariant dat[..] == old(dat[..])
        invariant forall j {:trigger BlankLineAt(old(dat[..len]), j)} | i < j && j % 4 == (len - 1) % 4 ::
                    !BlankLineAt(old(dat[..len]), j)
        decreases i
      {
        assert BlankLineAt(old(dat[..len]), i) <==>
          (dat[i] == 0x0A && dat[i - 1] == 0x0D && dat[i - 2] == 0x0A && dat[i - 3] == 0x0D);
        if dat[i] == 0x0A && dat[i - 1] == 0x0D && dat[i - 2] == 0x0A && dat[i - 3] == 0x0D {
          dat[i - 1] := 0;
          ofst := i;
          found := true;
          break;
        }
        i := i - 4;
      }
      if !found {
        return 0;
      }
      assert dat[..ofst - 1] == old(dat[..len])[..ofst - 1];
      assert LastBlankLine(old(dat[..len]), ofst);
      LastIsOne(old(dat[..len]), ofst);
      var swk := parseSwk(dat[..ofst - 1]);
      if swk.None? {
        return -1;
      }
      hs := true;
      handShakes := handShakes + [swk.value];
      return ofst + 1;
    }

    method DecodeXscPdu(dat: seq<byte>) returns (r: int)
      requires app.Lawful()
      modifies this`state
      ensures match Drain(app, old(state), dat)
              case Closed(st) => r == -1 && state == st
              case Open(st, rest) => 0 <= r <= |dat| && dat[r..] == rest && state == st
    {
      var used: nat := 0;
      while true
        invariant used <= |dat|
        invariant Drain(app, old(state), dat) == Drain(app, state, dat[used..])
        decreases |dat| - used
      {
        var pdu := app.decode(dat[used..]);
        if pdu.Pdu? {
          assert app.Sized(dat[used..]);
          DropTwice(dat, used, pdu.len);
          used := used + pdu.len;
          var (st, ok) := app.evnMsg(state, pdu.pdu);
          state := st;
          if !ok {
            return -1;
          }
          if used == |dat| {
            return used;
          }
          continue;
        }
        if pdu.Malformed? {
          return -1;
        }
        return used;
      }
    }

    method PushBack(bytes: seq<byte>)
      modifies this`cachedXscPdu
      ensures cachedXscPdu == old(cachedXscPdu) + bytes
    {
      for i := 0 to |bytes|
        invariant cachedXscPdu == old(cachedXscPdu) + bytes[..i]
      {
        cachedXscPdu := cachedXscPdu + [bytes[i]];
      }
      assert bytes[..|bytes|] == bytes;
    }

    /** Nothing is promised once `defined` is false. */
    method DecodeFrameBinary(payload: seq<byte>) returns (ok: bool, defined: bool)
      requires app.Lawful()
      modifies this`state, this`cachedXscPdu
      ensures match JoinFrame(app, Holding(old(state), old(cachedXscPdu)), payload)
              case Holding(st, cache) => ok && defined && state == st && cachedXscPdu == cache
              case Refused(st) => !ok && defined && state == st
              case Undefined => !defined
    {
      var dat := payload;
      if cachedXscPdu != [] {
        PushBack(payload);
        dat := cachedXscPdu;
      }
      assert dat == old(cachedXscPdu) + payload;
      var used := DecodeXscPdu(dat);
      if used < 0 {
        return false, true;
      }
      var remain := |dat| - used;
      if remain == 0 {
        cachedXscPdu := [];
        return true, true;
      }
      if cachedXscPdu == [] {
        PushBack(dat[used..]);
        return true, true;
      }
      // erase(begin, end + used)
      if used > 0 {
        return true, false;
      }
      cachedXscPdu := [];
      return true, true;
    }

    method UnmaskFrame(dat: array<byte>, at: nat, ofst: nat, size: nat)
      requires 4 <= ofst <= size && at + size <= dat.Length
      modifies dat
      ensures dat[..at + ofst] == old(dat[..at + ofst])
      ensures dat[at + ofst..at + size] == Payload(old(dat[at..]), ofst, size)
      ensures dat[at + size..] == old(dat[at + size..])
    {
      var mask := dat[at + ofst - 4..at + ofst];
      for i := ofst to size
        invariant forall k | 0 <= k < dat.Length ::
                    dat[k] == if at + ofst <= k < at + i then old(dat[k]) ^ mask[(k - at - ofst) % 4] else old(dat[k])
      {
        dat[at + i] := dat[at + i] ^ mask[(i - ofst) % 4];
      }
      UnmaskedPayload(old(dat[..]), dat[..], mask, at, ofst, size);
    }

    /** One turn of the loop of `decode`, on the frame that starts at `at`. */
    method DecodeFrame(dat: array<byte>, at: nat, len: nat) returns (turn: Turn)
      requires app.Lawful() && at <= len && len + 2 <= dat.Length
      modifies this`state, this`cachedXscPdu, dat
      ensures dat[len..] == old(dat[len..])
      ensures TurnTaken(app, mtu, old(dat[at..]), len - at, old(state), old(cachedXscPdu), state, cachedXscPdu, turn)
      ensures turn.Leave? || turn.Next? ==>
                var p := Piece(mtu, old(dat[at..]), len - at);
                dat[..at + |p|] == old(dat[..at]) + p && dat[at + |p|..] == old(dat[at..])[|p|..]
    {
      var h := HeaderAt(dat, at, len);
      match h
      case Wait =>
        turn := Leave;
      case Reject =>
        turn := Close;
      case Skip =>
        turn := Next(2);
      case Data(size, ofst) =>
        ghost var d := dat[..];
        UnmaskFrame(dat, at, ofst, size);
        DataPiece(d, dat[..], at, ofst, size, len);
        var ok, def := DecodeFrameBinary(dat[at + ofst..at + size]);
        turn := if !def then Broken else if ok then Next(size) else Close;
    }

    method HeaderAt(dat: array<byte>, at: nat, len: nat) returns (h: Header)
      requires at <= len && len + 2 <= dat.Length
      ensures h == ReadHeader(mtu, dat[at..], len - at)
      ensures h.Data? ==> 6 <= h.ofst <= h.size <= len - at
    {
      ghost var d := dat[at..];
      if len - at < 2 {
        return Wait;
      }
      assert dat[at] == d[0] && dat[at + 1] == d[1] && dat[at + 2] == d[2] && dat[at + 3] == d[3];
      var opening := OpeningOf(dat[at], dat[at + 1]);
      if opening.Bad? {
        return Reject;
      }
      if opening.Control? {
        return Skip;
      }
      var size := if opening.Short? then 6 + opening.n else 8 + Length16(dat[at + 2], dat[at + 3]);
      var ofst := if opening.Short? then 6 else 8;
      if size > mtu {
        return Reject;
      }
      if len - at < size {
        return Wait;
      }
      return Data(size, ofst);
    }

    /** One call on the received bytes dat[..len]. Nothing is promised once `defined` is false. */
    method Decode(dat: array<byte>, len: nat) returns (r: int, defined: bool)
      requires app.Lawful() && len + 2 <= dat.Length
      modifies this`state, this`cachedXscPdu, dat
      ensures match Decoded(app, mtu, old(state), old(cachedXscPdu), old(dat[..]), len)
              case Awaiting(st, cache, left) =>
                && defined && r == len - left && state == st && cachedXscPdu == cache
                && dat[..] == Unmasked(mtu, old(dat[..]), len) && dat[r..] == old(dat[r..])
              case Closing(st) => defined && r == -1 && state == st
              case Lost => !defined
      ensures dat[len..] == old(dat[len..])
    {
      hide Decoded, Unmasked, Piece, ReadHeader, JoinFrame;
      var used: nat := 0;
      ghost var d, st0, cache0 := dat[..], state, cachedXscPdu;
      ghost var front, back := [], d;
      ReachedStart(app, mtu, st0, cache0, d, len);
      while true
        invariant used <= len && dat[..used] == front && dat[used..] == back && dat[len..] == d[len..]
        invariant Reached(app, mtu, st0, cache0, d, len, state, cachedXscPdu, front, back, len - used)
        decreases len - used
      {
        ghost var st, cache := state, cachedXscPdu;
        var turn := DecodeFrame(dat, used, len);
        ReachedNext(app, mtu, st0, cache0, d, len, st, cache, front, back, len - used, state, cachedXscPdu, turn);
        match turn
        case Leave =>
          TakeThenDrop(dat[..], used);
          return used, true;
        case Close =>
          return -1, true;
        case Broken =>
          return 0, false;
        case Next(n) =>
          front := front + Piece(mtu, back, len - used);
          back := back[n..];
          used := used + n;
          assert dat[used..] == back;
      }
    }

    /** Before the handshake every byte goes to it, afterwards to the decoder. */
    method EvnRecv(dat: array<byte>, len: nat) returns (r: int, defined: bool)
      requires app.Lawful() && len + 2 <= dat.Length
      modifies this`hs, this`handShakes, this`state, this`cachedXscPdu, dat
      ensures !old(hs) ==>
                && defined && state == old(state) && cachedXscPdu == old(cachedXscPdu)
                && (r == 0 <==> !Recognised(old(dat[..len])))
                && (r == 0 ==> !hs && handShakes == old(handShakes))
                && (forall e | LastBlankLine(old(dat[..len]), e) ::
                      match parseSwk(old(dat[..len])[..e - 1])
                      case Some(key) => r == e + 1 && hs && handShakes == old(handShakes) + [key]
                      case None => r == -1 && !hs && handShakes == old(handShakes))
      ensures old(hs) ==>
                && hs && handShakes == old(handShakes)
                && match Decoded(app, mtu, old(state), old(cachedXscPdu), old(dat[..]), len)
                   case Awaiting(st, cache, left) =>
                     defined && r == len - left && state == st && cachedXscPdu == cache
                   case Closing(st) => defined && r == -1 && state == st
                   case Lost => !defined
    {
      if !hs {
        r := CheckHandShake(dat, len);
        return r, true;
      }
      r, defined := Decode(dat, len);
    }
  }

  lemma UnmaskedPayload(d: seq<byte>, m: seq<byte>, mask: seq<byte>, at: nat, ofst: nat, size: nat)
    requires 4 <= ofst <= size && at + size <= |d| == |m| && mask == d[at + ofst - 4..at + ofst]
    requires forall k | 0 <= k < |d| ::
               m[k] == if at + ofst <= k < at + size then d[k] ^ mask[(k - at - ofst) % 4] else d[k]
    ensures m[at + ofst..at + size] == Payload(d[at..], ofst, size)
    ensures m[..at + ofst] == d[..at + ofst] && m[at + size..] == d[at + size..]
  {
    forall k | 0 <= k < size - ofst
      ensures m[at + ofst + k] == Payload(d[at..], ofst, size)[k]
    {
      assert m[at + ofst + k] == d[at + ofst + k] ^ mask[k % 4];
      assert mask[k % 4] == d[at..][ofst - 4 + k % 4];
    }
  }

  lemma DataPiece(d: seq<byte>, m: seq<byte>, at: nat, ofst: nat, size: nat, len: nat)
    requires 4 <= ofst <= size && at + size <= len <= |d| == |m|
    requires m[..at + ofst] == d[..at + ofst] && m[at + size..] == d[at + size..]
    requires m[at + ofst..at + size] == Payload(d[at..], ofst, size)
    ensures m[..at + size] == d[..at] + (d[at..][..ofst] + Payload(d[at..], ofst, size))
    ensures m[at + size..] == d[at..][size..]
    ensures m[len..] == d[len..]
  {
    DropTwice(d, at, size);
    Append3(d[..at], d[at..][..ofst], Payload(d[at..], ofst, size));
    assert d[..at] + d[at..][..ofst] == m[..at + ofst];
    assert m[..at + ofst] + m[at + ofst..at + size] == m[..at + size];
    DropTwice(d, at + size, len - at - size);
    DropTwice(m, at + size, len - at - size);
  }

  lemma ReachedStart<S, P>(app: App<S, P>, mtu: nat, st: S, cache: seq<byte>, d: seq<byte>, len: nat)
    requires app.Lawful() && len + 2 <= |d|
    ensures Reached(app, mtu, st, cache, d, len, st, cache, [], d, len)
  {
    assert d[0..] == d && [] + Unmasked(mtu, d, len) == Unmasked(mtu, d, len);
  }

  /** What a turn establishes: the loop goes on, or its answer is that of the specification. */
  lemma ReachedNext<S, P>(
      app: App<S, P>, mtu: nat, st0: S, cache0: seq<byte>, d: seq<byte>, len0: nat,
      st: S, cache: seq<byte>, front: seq<byte>, back: seq<byte>, len: nat,
      st': S, cache': seq<byte>, turn: Turn)
    requires app.Lawful() && Reached(app, mtu, st0, cache0, d, len0, st, cache, front, back, len)
    requires TurnTaken(app, mtu, back, len, st, cache, st', cache', turn)
    ensures match turn
            case Leave =>
              && Decoded(app, mtu, st0, cache0, d, len0) == Awaiting(st', cache', len)
              && Piece(mtu, back, len) == []
              && front + back == Unmasked(mtu, d, len0) && back == d[len0 - len..]
            case Close => Decoded(app, mtu, st0, cache0, d, len0) == Closing(st')
            case Broken => Decoded(app, mtu, st0, cache0, d, len0) == Lost
            case Next(n) =>
              && 2 <= n == |Piece(mtu, back, len)| <= len
              && Reached(app, mtu, st0, cache0, d, len0, st', cache', front + Piece(mtu, back, len), back[n..], len - n)
  {
    hide Decoded, Unmasked, TurnTaken, Piece, ReadHeader;
    DecodedTurn(app, mtu, st, cache, back, len, st', cache', turn);
    UnmaskedFront(mtu, back, len);
    if turn.Next? {
      SuffixPast2(back, d, turn.n);
      Append3(front, Piece(mtu, back, len), Unmasked(mtu, back[turn.n..], len - turn.n));
    }
  }

  lemma DecodedTurn<S, P>(
      app: App<S, P>, mtu: nat, st: S, cache: seq<byte>, back: seq<byte>, len: nat, st': S, cache': seq<byte>,
          turn: Turn)
    requires app.Lawful() && len + 2 <= |back|
    requires TurnTaken(app, mtu, back, len, st, cache, st', cache', turn)
    ensures turn.Next? || turn.Leave? ==> |Piece(mtu, back, len)| == if turn.Next? then turn.n else 0
    ensures match turn
            case Leave => Decoded(app, mtu, st, cache, back, len) == Awaiting(st', cache', len)
            case Close => Decoded(app, mtu, st, cache, back, len) == Closing(st')
            case Broken => Decoded(app, mtu, st, cache, back, len) == Lost
            case Next(n) =>
              2 <= n <= len
              && Decoded(app, mtu, st, cache, back, len) == Decoded(app, mtu, st', cache', back[n..], len - n)
  {
    hide JoinFrame, Payload;
    ReadHeaderExact(mtu, back, len);
  }

  lemma SuffixPast2(t: seq<byte>, d: seq<byte>, n: nat)
    requires Suffix(t, d) && n <= |t|
    ensures Suffix(t[n..], d)
  {
    DropTwice(d, |d| - |t|, n);
  }
}
