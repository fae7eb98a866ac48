/** What the receive paths assume of the PDU codec (XscProtoPdu, which lives in another library)
    and of the message handler behind it, and one concrete codec that meets the assumptions. */
module Codec {

  type byte = bv8

  datatype Option<+T> = None | Some(value: T)

  /** What XscProtoPdu::decode answers: a PDU that occupies `len` bytes, the `exp` flag, or neither. */
  datatype Parse<+P> = Pdu(pdu: P, len: nat) | Malformed | NeedMore

  /** The two callees of every receive loop. `evnMsg` is an arbitrary stateful handler; answering
      false closes the channel. */
  datatype App<!S, !P> = App(decode: seq<byte> -> Parse<P>, evnMsg: (S, P) -> (S, bool)) {

    /** The laws of `decode`: it consumes at least one byte and no more than it was given, its
        verdicts are not changed by bytes that arrive later, and no bytes at all are not an error. */
    ghost predicate Lawful() {
      decode([]).NeedMore? && (forall s :: Sized(s)) && (forall s, t :: Stable(s, t))
    }

    ghost predicate Sized(s: seq<byte>) {
      decode(s).Pdu? ==> 1 <= decode(s).len <= |s|
    }

    ghost predicate Stable(s: seq<byte>, t: seq<byte>) {
      !decode(s).NeedMore? ==> decode(s + t) == decode(s)
    }

    /** `enc` is an encoder for `decode` on p. */
    ghost predicate Encodes(enc: P -> seq<byte>, p: P) {
      forall t :: DecodesBefore(enc, p, t)
    }

    ghost predicate DecodesBefore(enc: P -> seq<byte>, p: P, t: seq<byte>) {
      decode(enc(p) + t) == Pdu(p, |enc(p)|)
    }
  }

  function Concat<T>(ss: seq<seq<T>>): seq<T> {
    if ss == [] then [] else ss[0] + Concat(ss[1..])
  }

  lemma {:induction false} ConcatAppend<T>(a: seq<seq<T>>, b: seq<seq<T>>)
    ensures Concat(a + b) == Concat(a) + Concat(b)
  {
    if a == [] {
      assert a + b == b;
    } else {
      ConcatAppend(a[1..], b);
      DropAppend(a, b, 1);
      Append3(a[0], Concat(a[1..]), Concat(b));
    }
  }

  lemma ConcatSnoc<T>(a: seq<seq<T>>, x: seq<T>)
    ensures Concat(a + [x]) == Concat(a) + x
  {
    ConcatAppend(a, [x]);
    assert Concat([x]) == x;
  }

  lemma DropTwice<T>(d: seq<T>, n: nat, m: nat)
    requires n + m <= |d|
    ensures d[n..][m..] == d[n + m..]
  {
  }

  lemma DropFront<T>(a: seq<T>, b: seq<T>)
    ensures (a + b)[|a|..] == b
  {
  }

  lemma TakeThenDrop<T>(d: seq<T>, n: nat)
    requires n <= |d|
    ensures d[..n] + d[n..] == d
  {
  }

  lemma Append3<T>(a: seq<T>, b: seq<T>, c: seq<T>)
    ensures a + (b + c) == a + b + c
  {
  }

  lemma DropAppend<T>(a: seq<T>, b: seq<T>, n: nat)
    requires n <= |a|
    ensures (a + b)[n..] == a[n..] + b
  {
  }

  /** A strict prefix of an encoding can only make the codec wait. */
  lemma PrefixWaits<S, P>(app: App<S, P>, enc: P -> seq<byte>, p: P, n: nat)
    requires app.Lawful() && app.Encodes(enc, p) && n < |enc(p)|
    ensures app.decode(enc(p)[..n]).NeedMore?
  {
    assert app.DecodesBefore(enc, p, []) && app.Stable(enc(p)[..n], enc(p)[n..]) && app.Sized(enc(p)[..n]);
    assert enc(p)[..n] + enc(p)[n..] == enc(p) + [];
  }

  /** One codec that meets the laws: a length byte, never zero, and that many bytes. */
  function LengthPrefixed(s: seq<byte>): Parse<seq<byte>> {
    if s == [] then NeedMore
    else if s[0] == 0 then Malformed
    else if |s| <= s[0] as nat then NeedMore
    else Pdu(s[1..1 + s[0] as nat], 1 + s[0] as nat)
  }

  function PrefixLength(p: seq<byte>): seq<byte> {
    if 1 <= |p| < 256 then [|p| as byte] + p else []
  }

  lemma LengthPrefixedIsLawful<S>(evnMsg: (S, seq<byte>) -> (S, bool))
    ensures App(LengthPrefixed, evnMsg).Lawful()
    ensures forall p :: 1 <= |p| < 256 ==> App(LengthPrefixed, evnMsg).Encodes(PrefixLength, p)
  {
    var app := App(LengthPrefixed, evnMsg);
    forall s, t
      ensures app.Stable(s, t)
    {
      LengthPrefixedStable(s, t);
    }
    forall p | 1 <= |p| < 256
      ensures app.Encodes(PrefixLength, p)
    {
      forall t
        ensures app.DecodesBefore(PrefixLength, p, t)
      {
        assert (PrefixLength(p) + t)[1..1 + |p|] == p;
      }
    }
  }

  lemma LengthPrefixedStable(s: seq<byte>, t: seq<byte>)
    ensures !LengthPrefixed(s).NeedMore? ==> LengthPrefixed(s + t) == LengthPrefixed(s)
  {
    if s != [] && s[0] != 0 && |s| > s[0] as nat {
      assert (s + t)[1..1 + s[0] as nat] == s[1..1 + s[0] as nat];
    }
  }

  /** For any list of PDUs of any kind a codec that meets the laws and carries them: a PDU is sent as
      its place in the list, in ones ended by a zero. */
  function BookDecode<P>(book: seq<P>, s: seq<byte>): Parse<P> {
    if s == [] then NeedMore
    else if book == [] then Malformed
    else if s[0] == 0 then Pdu(book[0], 1)
    else match BookDecode(book[1..], s[1..])
      case Pdu(p, n) => Pdu(p, n + 1)
      case Malformed => Malformed
      case NeedMore => NeedMore
  }

  function BookEncode<P(==)>(book: seq<P>, p: P): seq<byte> {
    if book == [] || book[0] == p then [0] else [1] + BookEncode(book[1..], p)
  }

  lemma {:induction false} BookStable<P>(book: seq<P>, s: seq<byte>, t: seq<byte>)
    ensures BookDecode(book, s).Pdu? ==> 1 <= BookDecode(book, s).len <= |s|
    ensures !BookDecode(book, s).NeedMore? ==> BookDecode(book, s + t) == BookDecode(book, s)
    decreases |book|
  {
    if s != [] && book != [] {
      BookStable(book[1..], s[1..], t);
      DropAppend(s, t, 1);
    }
  }

  lemma {:induction false} BookDecodes<P>(book: seq<P>, p: P, t: seq<byte>)
    requires p in book
    ensures BookDecode(book, BookEncode(book, p) + t) == Pdu(p, |BookEncode(book, p)|)
    decreases |book|
  {
    if book[0] != p {
      BookDecodes(book[1..], p, t);
      assert (BookEncode(book, p) + t)[1..] == BookEncode(book[1..], p) + t;
    }
  }

  function Decoder<P>(book: seq<P>): seq<byte> -> Parse<P> {
    s => BookDecode(book, s)
  }

  function Encoder<P(==)>(book: seq<P>): P -> seq<byte> {
    p => BookEncode(book, p)
  }

  lemma BookIsLawful<S, P>(book: seq<P>, evnMsg: (S, P) -> (S, bool))
    ensures App(Decoder(book), evnMsg).Lawful()
    ensures forall p | p in book :: App(Decoder(book), evnMsg).Encodes(Encoder(book), p)
  {
    var app := App(Decoder(book), evnMsg);
    forall s, t
      ensures app.Stable(s, t)
    {
      BookStable(book, s, t);
    }
    forall s
      ensures app.Sized(s)
    {
      BookStable(book, s, []);
    }
    forall p | p in book
      ensures app.Encodes(Encoder(book), p)
    {
      forall t
        ensures app.DecodesBefore(Encoder(book), p, t)
      {
        BookDecodes(book, p, t);
      }
    }
  }
}
