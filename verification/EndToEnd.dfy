/** From one channel's begin() to the other's callbacks, through encoding, chunks or frames, and
    decoding. */
module EndToEnd {
  import opened Codec
  import opened Dispatch
  import opened Framing
  import opened PduStream
  import opened Proto
  import opened Registry
  import opened TransTable
  import WebSocketRoundTrip
  import WebSocketRuns

  /** The other end takes this message: its name is registered, its bytes parse, and it needs no
      user or has one. */
  predicate Welcomes(o: Office, usr: bool, pdu: XscPdu) {
    && o.mgr.Some? && pdu.trans.Some? && Intercepted(o.mgr.value.itcp, pdu).Disabled?
    && var x := pdu.trans.value;
       var stub := Find(o.mgr.value.msgs, x.body.msg);
       stub.Some? && Parses(o, stub.value.begin, x.body.dat) && (stub.value.auth ==> usr)
  }

  /** It takes each of these in turn; one of them may log the user in that later ones need. */
  predicate WelcomesAll(o: Office, usr: bool, pdus: seq<XscPdu>)
    decreases |pdus|
  {
    pdus == []
    || (Welcomes(o, usr, pdus[0]) && WelcomesAll(o, usr || o.serve(ServedOf(pdus[0])).binds, pdus[1..]))
  }

  lemma {:induction false} WelcomedHaveTrans(o: Office, usr: bool, pdus: seq<XscPdu>)
    requires WelcomesAll(o, usr, pdus)
    ensures forall p | p in pdus :: p.trans.Some?
    decreases |pdus|
  {
    if pdus != [] { WelcomedHaveTrans(o, usr || o.serve(ServedOf(pdus[0])).binds, pdus[1..]); }
  }

  function AllServed(pdus: seq<XscPdu>): seq<Served>
    requires forall p | p in pdus :: p.trans.Some?
  {
    if pdus == [] then [] else [ServedOf(pdus[0])] + AllServed(pdus[1..])
  }

  lemma HandleWelcome(o: Office, c: Client, s: Actor, p: XscPdu)
    requires Welcomes(o, s.usr, p) && p.indicator == 0 && p.trans.value.kind.Begin?
    ensures var (s', ok) := Handle(o, c, s, p);
            && ok && s'.started == s.started + [ServedOf(p)] && s'.called == s.called + [ServedOf(p)]
            && s'.usr == (s.usr || o.serve(ServedOf(p)).binds) && s'.pongs == s.pongs && s'.notified == s.notified
  {
    hide StartAll;
    assert 0 as byte & o.ping == 0;
  }

  lemma {:induction false} DeliverBegins(
      o: Office, c: Client, decode: seq<byte> -> Parse<XscPdu>, s: Actor, pdus: seq<XscPdu>)
    requires WelcomesAll(o, s.usr, pdus) && forall p | p in pdus :: p.trans.Some?
    requires forall p | p in pdus :: p.indicator == 0 && p.trans.value.kind.Begin?
    ensures var (s', ok) := Deliver(Loop(decode, o, c), s, pdus);
            && ok && s'.started == s.started + AllServed(pdus) && s'.called == s.called + AllServed(pdus)
            && s'.pongs == s.pongs && s'.notified == s.notified
    decreases |pdus|
  {
    if pdus == [] {
      assert s.started + [] == s.started && s.called + [] == s.called;
    } else {
      var t := ServedOf(pdus[0]);
      HandleWelcome(o, c, s, pdus[0]);
      hide Handle, Welcomes;
      DeliverBegins(o, c, decode, Handle(o, c, s, pdus[0]).0, pdus[1..]);
      Append3(s.started, [t], AllServed(pdus[1..]));
      Append3(s.called, [t], AllServed(pdus[1..]));
    }
  }

  /** The n-th PDU a channel has sent is the BEGIN of its n-th transaction. */
  ghost predicate AllBegins(t0: nat, s: Table) {
    |s.sent| == s.begun && forall j | 0 <= j < |s.sent| ::
      && s.sent[j].indicator == 0 && s.sent[j].trans.Some?
      && s.sent[j].trans.value.kind.Begin? && s.sent[j].trans.value.stid == Tid(t0, j)
  }

  lemma StepBegins(c: Client, t0: nat, s: Table, e: Event)
    requires Inv(t0, s) && AllBegins(t0, s) && Enabled(c, s, e)
    ensures AllBegins(t0, Step(c, s, e))
  {
    hide Tid;
    if e.Start? {
      NextTidIs(t0, s);
      var s' := Step(c, s, e);
      assert forall j | 0 <= j < |s.sent| :: s'.sent[j] == s.sent[j];
    }
  }

  lemma {:induction false} RunBegins(c: Client, t0: nat, s: Table, es: seq<Event>)
    requires Inv(t0, s) && AllBegins(t0, s) && Legal(c, s, es)
    ensures AllBegins(t0, Run(c, s, es))
    decreases |es|
  {
    hide Inv, AllBegins, Step, Enabled;
    if es != [] {
      StepKeeps(c, t0, s, es[0]);
      StepBegins(c, t0, s, es[0]);
      RunBegins(c, t0, Step(c, s, es[0]), es[1..]);
    }
  }

  lemma {:induction false} AllServedAt(pdus: seq<XscPdu>)
    requires forall p | p in pdus :: p.trans.Some?
    ensures |AllServed(pdus)| == |pdus|
    ensures forall j | 0 <= j < |pdus| :: AllServed(pdus)[j] == ServedOf(pdus[j])
  {
    if pdus != [] { AllServedAt(pdus[1..]); }
  }

  /** Every transaction begun was served once, in order, under its own id. */
  ghost predicate ServedInOrder(t0: nat, sent: seq<XscPdu>, served: seq<Served>) {
    |served| == |sent| && forall j | 0 <= j < |sent| ::
      sent[j].trans.Some? && served[j] == Served(Tid(t0, j), sent[j].oob, sent[j].trans.value.body)
  }

  /** The end that was called back for all these BEGINs and for nothing else. */
  ghost predicate CalledFor(t0: nat, sent: seq<XscPdu>, b: Actor, b': Actor) {
    && b.called <= b'.called && ServedInOrder(t0, sent, b'.called[|b.called|..])
    && b'.started == b.started + b'.called[|b.called|..]
    && b'.pongs == b.pongs && b'.notified == b.notified
  }

  /** What the handler at the other end becomes when it is given all that a run of the channel sent. */
  lemma BeginsDelivered(
      c: Client, t0: nat, clock: nat, es: seq<Event>,
      decode: seq<byte> -> Parse<XscPdu>, o: Office, d: Client, b: Actor)
    requires t0 < TIDS && Legal(c, Initial(t0, clock), es)
    requires WelcomesAll(o, b.usr, Run(c, Initial(t0, clock), es).sent)
    ensures var sent := Run(c, Initial(t0, clock), es).sent;
            var (b', ok) := Deliver(Loop(decode, o, d), b, sent);
            && ok && |sent| == Run(c, Initial(t0, clock), es).begun && CalledFor(t0, sent, b, b')
  {
    InitialInv(t0, clock);
    RunBegins(c, t0, Initial(t0, clock), es);
    var sent := Run(c, Initial(t0, clock), es).sent;
    WelcomedHaveTrans(o, b.usr, sent);
    DeliverBegins(o, d, decode, b, sent);
    AllServedAt(sent);
    var b' := Deliver(Loop(decode, o, d), b, sent).0;
    assert b'.called[|b.called|..] == AllServed(sent);
  }

  /** Over TCP or RUDP: however the bytes of a channel's BEGINs are read, the other end calls back
      for each transaction once, in order, with its id, its body and its out-of-band data, and
      nothing is left over. */
  lemma BeginsOverTcp(
      c: Client, t0: nat, clock: nat, es: seq<Event>, decode: seq<byte> -> Parse<XscPdu>,
      enc: XscPdu -> seq<byte>, o: Office, d: Client, b: Actor, chunks: seq<seq<byte>>)
    requires t0 < TIDS && Legal(c, Initial(t0, clock), es) && Loop(decode, o, d).Lawful()
    requires WelcomesAll(o, b.usr, Run(c, Initial(t0, clock), es).sent)
    requires forall p | p in Run(c, Initial(t0, clock), es).sent :: Loop(decode, o, d).Encodes(enc, p)
    requires Concat(chunks) == Encoding(enc, Run(c, Initial(t0, clock), es).sent)
    ensures var x := ReceiveAll(Loop(decode, o, d), Live(b, []), chunks);
            x.Live? && x.tail == [] && CalledFor(t0, Run(c, Initial(t0, clock), es).sent, b, x.state)
  {
    BeginsDelivered(c, t0, clock, es, decode, o, d, b);
    StreamRoundTrip(Loop(decode, o, d), enc, b, Run(c, Initial(t0, clock), es).sent, chunks);
  }

  /** For every run there is such a codec, so all of this can happen together. */
  lemma BeginsTravel(c: Client, t0: nat, clock: nat, es: seq<Event>, o: Office, d: Client, b: Actor)
    returns (decode: seq<byte> -> Parse<XscPdu>, enc: XscPdu -> seq<byte>)
    requires t0 < TIDS && Legal(c, Initial(t0, clock), es)
    requires WelcomesAll(o, b.usr, Run(c, Initial(t0, clock), es).sent)
    ensures Loop(decode, o, d).Lawful()
    ensures var sent := Run(c, Initial(t0, clock), es).sent;
            && (forall p | p in sent :: Loop(decode, o, d).Encodes(enc, p))
            && CalledFor(t0, sent, b, Receive(Loop(decode, o, d), Live(b, []), Encoding(enc, sent)).state)
  {
    var sent := Run(c, Initial(t0, clock), es).sent;
    decode, enc := Decoder(sent), Encoder(sent);
    BookIsLawful(sent, Loop(decode, o, d).evnMsg);
    var bytes := Encoding(enc, sent);
    assert Concat([bytes]) == bytes;
    BeginsOverTcp(c, t0, clock, es, decode, enc, o, d, b, [bytes]);
    assert ReceiveAll(Loop(decode, o, d), Live(b, []), [bytes]) == Receive(Loop(decode, o, d), Live(b, []), bytes);
  }

  /** Over a WebSocket the same, in masked frames and reads of any sizes, when no two consecutive
      frames end inside PDUs and no read is decided by memory behind it. */
  lemma BeginsOverWebSocket(
      c: Client, t0: nat, clock: nat, es: seq<Event>, decode: seq<byte> -> Parse<XscPdu>,
      enc: XscPdu -> seq<byte>, o: Office, d: Client, b: Actor,
      mtu: nat, frames: seq<Wire>, rs: seq<WebSocketRuns.Read>)
    requires t0 < TIDS && Legal(c, Initial(t0, clock), es) && Loop(decode, o, d).Lawful()
    requires WelcomesAll(o, b.usr, Run(c, Initial(t0, clock), es).sent)
    requires forall p | p in Run(c, Initial(t0, clock), es).sent :: Loop(decode, o, d).Encodes(enc, p)
    requires forall f | f in frames :: f.Sendable(mtu)
    requires Concat(PayloadsOf(frames)) == Encoding(enc, Run(c, Initial(t0, clock), es).sent)
    requires WebSocketRuns.Reads(rs) && WebSocketRuns.Bytes(rs) == WireBytes(mtu, frames)
    requires !WebSocketRoundTrip.CutsTwice(enc, Run(c, Initial(t0, clock), es).sent, PayloadsOf(frames))
    requires !WebSocketRuns.ReadsAhead(Loop(decode, o, d), mtu, b, rs)
    ensures var l := WebSocketRuns.Run(Loop(decode, o, d), mtu, b, rs);
            && l.Listening? && l.cache == [] && l.tail == []
            && CalledFor(t0, Run(c, Initial(t0, clock), es).sent, b, l.state)
  {
    BeginsDelivered(c, t0, clock, es, decode, o, d, b);
    WebSocketRoundTrip.RoundTrip(
      Loop(decode, o, d), enc, mtu, b, Run(c, Initial(t0, clock), es).sent, frames, rs);
  }
}
