/** Request, reply and callback over two byte streams: one end begins transactions, the other serves
    and ends them, and everything between them travels as bytes in chunks of any sizes. */
module RequestReply {
  import opened Codec
  import opened PduStream
  import opened Proto
  import opened Trans
  import opened TransTable
  import opened Passive
  import opened Correlation
  import opened Dispatch
  import Registry
  import opened ReplyOrigins

  /** The end that begins; `ends` counts the ENDs it was handed. */
  datatype Near = Near(actor: Actor, ends: nat)

  /** The end that serves; `begins` counts the BEGINs it was handed. */
  datatype Far = Far(actor: Actor, line: Line, begins: nat)

  /** The codec, and registry and client of the two ends. */
  datatype Setup = Setup(
    decode: seq<byte> -> Parse<XscPdu>, enc: XscPdu -> seq<byte>, o: Office, c: Client, farO: Office, farC: Client)

  predicate Is(k: Kind, p: XscPdu) {
    p.trans.Some? && p.trans.value.kind == k
  }

  function NearMsg(u: Setup, s: Near, p: XscPdu): (Near, bool) {
    var (a, ok) := Handle(u.o, u.c, s.actor, p);
    (Near(a, if Is(End, p) then s.ends + 1 else s.ends), ok)
  }

  /** A BEGIN that starts a passive transaction puts it on the line. */
  function FarMsg(u: Setup, s: Far, p: XscPdu): (Far, bool) {
    var (b, ok) := Handle(u.farO, u.farC, s.actor, p);
    if !Is(Begin, p) then (s.(actor := b), ok)
    else if |b.started| <= |s.actor.started| then (Far(b, s.line, s.begins + 1), ok)
    else (Far(b, LineStep(s.line, Arrive(s.begins, p.trans.value.stid)), s.begins + 1), ok)
  }

  function NearApp(u: Setup): App<Near, XscPdu> {
    App(u.decode, (s, p) => NearMsg(u, s, p))
  }

  function FarApp(u: Setup): App<Far, XscPdu> {
    App(u.decode, (s, p) => FarMsg(u, s, p))
  }

  function OfKind(k: Kind, ps: seq<XscPdu>): seq<XscPdu> {
    if ps == [] then [] else (if Is(k, ps[0]) then [ps[0]] else []) + OfKind(k, ps[1..])
  }

  lemma {:induction false} OfKindAppend(k: Kind, a: seq<XscPdu>, b: seq<XscPdu>)
    ensures OfKind(k, a + b) == OfKind(k, a) + OfKind(k, b)
  {
    if a == [] {
      assert a + b == b;
    } else {
      OfKindAppend(k, a[1..], b);
      DropAppend(a, b, 1);
      Append3(if Is(k, a[0]) then [a[0]] else [], OfKind(k, a[1..]), OfKind(k, b));
    }
  }

  function Pdus(sent: seq<Sent>): seq<XscPdu> {
    seq(|sent|, i requires 0 <= i < |sent| => sent[i].pdu)
  }

  // ---- One PDU at the end that begins ----

  lemma {:induction false} StartAllNet(
      c: Client, t0: nat, clock: nat, n: Net, rs: seq<Request>, now: nat) returns (m: Net)
    requires Reachable(c, t0, clock, n)
    ensures Reachable(c, t0, clock, m) && m.a == StartAll(c, n.a, rs, now) && m.b == n.b
    decreases |rs|
  {
    hide Reachable, Step, Opened;
    if rs == [] {
      m := n;
    } else {
      var e := AtA(Start(Opened(rs[0]), now));
      assert NetEnabled(c, n, e);
      ReachNext(c, t0, clock, n, e);
      m := StartAllNet(c, t0, clock, NetStep(c, n, e), rs[1..], now);
    }
  }

  /** The near end's place in what the far end has sent: `ahead` is all that it has still to get. */
  ghost predicate NearAt(s: Near, n: Net, ahead: seq<XscPdu>) {
    n.a == s.actor.table && s.ends <= |n.b.sent| && Pdus(n.b.sent)[s.ends..] == OfKind(End, ahead)
  }

  lemma NearStep(u: Setup, t0: nat, clock: nat, s: Near, n: Net, p: XscPdu, ahead: seq<XscPdu>) returns (m: Net)
    requires Reachable(u.c, t0, clock, n) && NearAt(s, n, [p] + ahead)
    ensures Reachable(u.c, t0, clock, m) && m.b == n.b && NearAt(NearMsg(u, s, p).0, m, ahead)
  {
    hide Reachable, Step, Handle;
    assert ([p] + ahead)[1..] == ahead;
    var k := OfKind(End, ahead);
    var rs := TableOf(u.o, u.c, s.actor, p);
    m := n;
    if Is(End, p) {
      assert OfKind(End, [p] + ahead) == [p] + k;
      NextOf(Pdus(n.b.sent), s.ends, p, k);
      if Completes(u.o, s.actor, p) {
        var e := EndArrives(s.ends, s.actor.clock);
        assert n.b.sent[s.ends].pdu == p;
        ReachNext(u.c, t0, clock, n, e);
        m := NetStep(u.c, n, e);
      }
    } else {
      assert OfKind(End, [p] + ahead) == [] + k == k;
    }
    m := StartAllNet(u.c, t0, clock, m, rs, s.actor.clock);
  }

  lemma NextOf<T>(all: seq<T>, at: nat, p: T, k: seq<T>)
    requires at <= |all| && all[at..] == [p] + k
    ensures at < |all| && all[at] == p && all[at + 1..] == k
  {
    assert all[at..][0] == all[at] && all[at..][1..] == all[at + 1..];
  }

  /** Any PDUs handed to the near end do to the table what a run of the two ends does. */
  lemma {:induction false} NearDeliver(
      u: Setup, t0: nat, clock: nat, s: Near, n: Net, ps: seq<XscPdu>, ahead: seq<XscPdu>) returns (m: Net)
    requires Reachable(u.c, t0, clock, n) && NearAt(s, n, ps + ahead)
    ensures var (s', ok) := Deliver(NearApp(u), s, ps);
            && Reachable(u.c, t0, clock, m) && m.b == n.b && m.a == s'.actor.table
            && (ok ==> NearAt(s', m, ahead))
    decreases |ps|
  {
    hide Reachable, NearAt, NearMsg;
    if ps == [] {
      m := n;
      assert ps + ahead == ahead;
      NearAtTable(s, n, ahead);
    } else {
      var (s', ok) := NearMsg(u, s, ps[0]);
      assert ps + ahead == [ps[0]] + (ps[1..] + ahead);
      m := NearStep(u, t0, clock, s, n, ps[0], ps[1..] + ahead);
      NearAtTable(s', m, ps[1..] + ahead);
      if ok {
        m := NearDeliver(u, t0, clock, s', m, ps[1..], ahead);
      }
    }
  }

  lemma NearAtTable(s: Near, n: Net, ahead: seq<XscPdu>)
    requires NearAt(s, n, ahead)
    ensures n.a == s.actor.table
  {
  }

  // ---- One PDU at the end that serves ----

  /** The far end's place in what the near end has sent. */
  ghost predicate FarAt(s: Far, n: Net, ahead: seq<XscPdu>) {
    n.b == s.line && s.begins <= |n.a.sent| && n.a.sent[s.begins..] == OfKind(Begin, ahead)
  }

  /** Each passive transaction was made from one of the BEGINs sent, later ones from later BEGINs, and
      shows its callback that BEGIN's message, id and out-of-band data. */
  ghost predicate Serves(s: Far, sent: seq<XscPdu>) {
    && |s.line.passives| == |s.actor.started| && s.begins <= |sent|
    && (forall p | 0 <= p < |s.line.passives| :: s.line.passives[p].origin < s.begins)
    && (forall p, q | 0 <= p < q < |s.line.passives| :: s.line.passives[p].origin < s.line.passives[q].origin)
    && (forall p | 0 <= p < |s.line.passives| ::
          Is(Begin, sent[s.line.passives[p].origin])
          && s.actor.started[p] == ServedOf(sent[s.line.passives[p].origin]))
  }

  lemma StartedOne(o: Office, c: Client, s: Actor, p: XscPdu)
    ensures var s' := Handle(o, c, s, p).0;
            s'.started == s.started || (Is(Begin, p) && s'.started == s.started + [ServedOf(p)])
  {
    hide StartAll, Step;
  }

  lemma FarStep(u: Setup, t0: nat, clock: nat, s: Far, n: Net, p: XscPdu, ahead: seq<XscPdu>) returns (m: Net)
    requires Reachable(u.c, t0, clock, n) && FarAt(s, n, [p] + ahead) && Serves(s, n.a.sent)
    ensures Reachable(u.c, t0, clock, m) && m.a == n.a && m.b.sent == n.b.sent
    ensures FarAt(FarMsg(u, s, p).0, m, ahead) && Serves(FarMsg(u, s, p).0, m.a.sent)
  {
    hide Reachable, Handle;
    assert ([p] + ahead)[1..] == ahead;
    var k := OfKind(Begin, ahead);
    StartedOne(u.farO, u.farC, s.actor, p);
    m := n;
    if Is(Begin, p) {
      assert OfKind(Begin, [p] + ahead) == [p] + k;
      NextOf(n.a.sent, s.begins, p, k);
      if |Handle(u.farO, u.farC, s.actor, p).0.started| > |s.actor.started| {
        var e := BeginArrives(s.begins);
        ReachNext(u.c, t0, clock, n, e);
        m := NetStep(u.c, n, e);
      }
    } else {
      assert OfKind(Begin, [p] + ahead) == [] + k == k;
    }
  }

  lemma {:induction false} FarDeliver(
      u: Setup, t0: nat, clock: nat, s: Far, n: Net, ps: seq<XscPdu>, ahead: seq<XscPdu>) returns (m: Net)
    requires Reachable(u.c, t0, clock, n) && FarAt(s, n, ps + ahead) && Serves(s, n.a.sent)
    ensures var (s', ok) := Deliver(FarApp(u), s, ps);
            && Reachable(u.c, t0, clock, m) && m.a == n.a && m.b == s'.line && m.b.sent == n.b.sent
            && Serves(s', m.a.sent) && (ok ==> FarAt(s', m, ahead))
    decreases |ps|
  {
    hide Reachable, FarAt, FarMsg, Serves;
    if ps == [] {
      m := n;
      assert ps + ahead == ahead;
      FarAtLine(s, n, ahead);
    } else {
      var (s', ok) := FarMsg(u, s, ps[0]);
      assert ps + ahead == [ps[0]] + (ps[1..] + ahead);
      m := FarStep(u, t0, clock, s, n, ps[0], ps[1..] + ahead);
      FarAtLine(s', m, ps[1..] + ahead);
      if ok {
        m := FarDeliver(u, t0, clock, s', m, ps[1..], ahead);
      }
    }
  }

  lemma FarAtLine(s: Far, n: Net, ahead: seq<XscPdu>)
    requires FarAt(s, n, ahead)
    ensures n.b == s.line
  {
  }

  // ---- The two ends and the bytes between them ----

  /** `out` is what the near end has sent and `back` what the far end has, of whose bytes `readFar`
      and `readNear` have been read at the other end. */
  datatype Duplex = Duplex(
    near: Stream<Near>, far: Stream<Far>, out: seq<XscPdu>, back: seq<XscPdu>, readNear: nat, readFar: nat)

  /** The near end begins, sweeps and cleans; the far end ends transactions and executes ends; both may
      send anything else in between, as pings or transactions of the far end; time passes; and either
      end reads some of the bytes on their way. */
  datatype Happening =
    | NearDoes(e: Event)
    | FarDoes(le: LineEvent)
    | NearSends(p: XscPdu)
    | FarSends(p: XscPdu)
    | Clock(now: nat)
    | NearReads(n: nat)
    | FarReads(n: nat)

  ghost predicate CanHappen(u: Setup, x: Duplex, h: Happening) {
    match h
    case NearDoes(e) => !e.Reply? && Enabled(u.c, x.near.state.actor.table, e)
    case FarDoes(le) => !le.Arrive? && CanStep(x.far.state.line, le)
    case NearSends(p) => !Is(Begin, p)
    case FarSends(p) => !Is(End, p)
    case Clock(_) => true
    case NearReads(n) => x.near.Live? && x.readNear + n <= |Encoding(u.enc, x.back)|
    case FarReads(n) => x.far.Live? && x.readFar + n <= |Encoding(u.enc, x.out)|
  }

  /** What was appended. */
  function Newly<T>(was: seq<T>, now: seq<T>): seq<T> {
    if |was| <= |now| then now[|was|..] else []
  }

  function NearBecomes(x: Duplex, near: Stream<Near>): Duplex {
    x.(near := near, out := x.out + Newly(x.near.state.actor.table.sent, near.state.actor.table.sent))
  }

  function FarBecomes(x: Duplex, far: Stream<Far>): Duplex {
    x.(far := far, back := x.back + Newly(Pdus(x.far.state.line.sent), Pdus(far.state.line.sent)))
  }

  ghost function Happened(u: Setup, x: Duplex, h: Happening): Duplex
    requires NearApp(u).Lawful() && FarApp(u).Lawful() && CanHappen(u, x, h)
  {
    match h
    case NearDoes(e) =>
      var a := x.near.state.actor;
      NearBecomes(x, x.near.(state := x.near.state.(actor := a.(table := Step(u.c, a.table, e)))))
    case FarDoes(le) => FarBecomes(x, x.far.(state := x.far.state.(line := LineStep(x.far.state.line, le))))
    case NearSends(p) => x.(out := x.out + [p])
    case FarSends(p) => x.(back := x.back + [p])
    case Clock(now) => x.(near := x.near.(state := x.near.state.(actor := x.near.state.actor.(clock := now))))
    case NearReads(n) =>
      var chunk := Encoding(u.enc, x.back)[x.readNear..x.readNear + n];
      NearBecomes(x.(readNear := x.readNear + n), Receive(NearApp(u), x.near, chunk))
    case FarReads(n) =>
      var chunk := Encoding(u.enc, x.out)[x.readFar..x.readFar + n];
      FarBecomes(x.(readFar := x.readFar + n), Receive(FarApp(u), x.far, chunk))
  }

  /** Everything sent is something the codec carries. */
  ghost predicate Carried(u: Setup, ps: seq<XscPdu>) {
    forall p | p in ps :: NearApp(u).Encodes(u.enc, p) && FarApp(u).Encodes(u.enc, p)
  }

  ghost predicate Happens(u: Setup, x: Duplex, hs: seq<Happening>)
    requires NearApp(u).Lawful() && FarApp(u).Lawful()
    decreases |hs|
  {
    hs == []
    || (CanHappen(u, x, hs[0])
        && Carried(u, Happened(u, x, hs[0]).out) && Carried(u, Happened(u, x, hs[0]).back)
        && Happens(u, Happened(u, x, hs[0]), hs[1..]))
  }

  ghost function Result(u: Setup, x: Duplex, hs: seq<Happening>): Duplex
    requires NearApp(u).Lawful() && FarApp(u).Lawful() && Happens(u, x, hs)
    decreases |hs|
  {
    if hs == [] then x else Result(u, Happened(u, x, hs[0]), hs[1..])
  }

  // ---- What every happening keeps ----

  ghost predicate NearWire(u: Setup, x: Duplex, n: Net) {
    x.readNear <= |Encoding(u.enc, x.back)|
    && (x.near.Live? ==> exists g: nat :: NearWireAt(u, x, n, g))
  }

  /** The first g PDUs that the far end has sent are handled, the bytes of the rest are in the buffer or
      on their way. */
  ghost predicate NearWireAt(u: Setup, x: Duplex, n: Net, g: nat)
    requires x.near.Live? && x.readNear <= |Encoding(u.enc, x.back)|
  {
    && g <= |x.back| && NearAt(x.near.state, n, x.back[g..])
    && x.near.tail + Encoding(u.enc, x.back)[x.readNear..] == Encoding(u.enc, x.back[g..])
  }

  ghost predicate FarWire(u: Setup, x: Duplex, n: Net) {
    x.readFar <= |Encoding(u.enc, x.out)|
    && (x.far.Live? ==> exists g: nat :: FarWireAt(u, x, n, g))
  }

  ghost predicate FarWireAt(u: Setup, x: Duplex, n: Net, g: nat)
    requires x.far.Live? && x.readFar <= |Encoding(u.enc, x.out)|
  {
    && g <= |x.out| && FarAt(x.far.state, n, x.out[g..])
    && x.far.tail + Encoding(u.enc, x.out)[x.readFar..] == Encoding(u.enc, x.out[g..])
  }

  ghost predicate DuplexInv(u: Setup, t0: nat, clock: nat, x: Duplex, n: Net) {
    && Reachable(u.c, t0, clock, n)
    && n.a == x.near.state.actor.table && n.b == x.far.state.line
    && Serves(x.far.state, n.a.sent)
    && Carried(u, x.out) && Carried(u, x.back)
    && NearWire(u, x, n) && FarWire(u, x, n)
  }

  lemma {:induction false} EncodingAppend(enc: XscPdu -> seq<byte>, a: seq<XscPdu>, b: seq<XscPdu>)
    ensures Encoding(enc, a + b) == Encoding(enc, a) + Encoding(enc, b)
  {
    if a == [] {
      assert a + b == b;
    } else {
      EncodingAppend(enc, a[1..], b);
      DropAppend(a, b, 1);
      Append3(enc(a[0]), Encoding(enc, a[1..]), Encoding(enc, b));
    }
  }

  /** Bytes on their way stay so when more is sent. */
  lemma WireGrows(enc: XscPdu -> seq<byte>, tail: seq<byte>, sent: seq<XscPdu>, read: nat, g: nat, more: seq<XscPdu>)
    requires read <= |Encoding(enc, sent)| && g <= |sent|
    requires tail + Encoding(enc, sent)[read..] == Encoding(enc, sent[g..])
    ensures read <= |Encoding(enc, sent + more)|
    ensures tail + Encoding(enc, sent + more)[read..] == Encoding(enc, (sent + more)[g..])
  {
    EncodingAppend(enc, sent, more);
    DropAppend(Encoding(enc, sent), Encoding(enc, more), read);
    DropAppend(sent, more, g);
    EncodingAppend(enc, sent[g..], more);
    Append3(tail, Encoding(enc, sent)[read..], Encoding(enc, more));
  }

  lemma {:induction false} AllOfKind(k: Kind, ps: seq<XscPdu>)
    requires forall p | p in ps :: Is(k, p)
    ensures OfKind(k, ps) == ps
  {
    if ps != [] { AllOfKind(k, ps[1..]); }
  }

  // A table sends nothing but BEGINs, a line nothing but ENDs.

  lemma StepSends(c: Client, s: Table, e: Event)
    requires Enabled(c, s, e)
    ensures s.sent <= Step(c, s, e).sent && forall p | p in Newly(s.sent, Step(c, s, e).sent) :: Is(Begin, p)
  {
    hide Replied;
  }

  lemma NewlyTwice<T>(a: seq<T>, b: seq<T>, c: seq<T>)
    requires a <= b <= c
    ensures a <= c && Newly(a, c) == Newly(a, b) + Newly(b, c) && a + Newly(a, b) == b
  {
  }

  lemma {:induction false} StartAllSends(c: Client, s: Table, rs: seq<Request>, now: nat)
    ensures s.sent <= StartAll(c, s, rs, now).sent
    ensures forall p | p in Newly(s.sent, StartAll(c, s, rs, now).sent) :: Is(Begin, p)
    decreases |rs|
  {
    if rs != [] {
      var m := Step(c, s, Start(Opened(rs[0]), now));
      StepSends(c, s, Start(Opened(rs[0]), now));
      hide Step, Opened;
      StartAllSends(c, m, rs[1..], now);
      NewlyTwice(s.sent, m.sent, StartAll(c, m, rs[1..], now).sent);
    }
  }

  lemma HandleSends(o: Office, c: Client, s: Actor, p: XscPdu)
    ensures s.table.sent <= Handle(o, c, s, p).0.table.sent
    ensures forall q | q in Newly(s.table.sent, Handle(o, c, s, p).0.table.sent) :: Is(Begin, q)
  {
    var rs := TableOf(o, c, s, p);
    var b := Before(o, c, s, p);
    StartAllSends(c, b, rs, s.clock);
    assert b.sent == s.table.sent;
  }

  lemma {:induction false} DeliverSends(u: Setup, s: Near, ps: seq<XscPdu>)
    ensures var t := Deliver(NearApp(u), s, ps).0.actor.table;
            s.actor.table.sent <= t.sent && forall q | q in Newly(s.actor.table.sent, t.sent) :: Is(Begin, q)
    decreases |ps|
  {
    if ps != [] {
      HandleSends(u.o, u.c, s.actor, ps[0]);
      var (s', ok) := NearMsg(u, s, ps[0]);
      hide Handle, NearMsg;
      if ok {
        DeliverSends(u, s', ps[1..]);
        NewlyTwice(s.actor.table.sent, s'.actor.table.sent, Deliver(NearApp(u), s', ps[1..]).0.actor.table.sent);
      }
    }
  }

  lemma LineSends(l: Line, le: LineEvent)
    requires CanStep(l, le) && !le.Arrive?
    ensures Pdus(l.sent) <= Pdus(LineStep(l, le).sent)
    ensures forall p | p in Newly(Pdus(l.sent), Pdus(LineStep(l, le).sent)) :: Is(End, p)
    ensures |LineStep(l, le).passives| == |l.passives|
    ensures forall p | 0 <= p < |l.passives| :: LineStep(l, le).passives[p].origin == l.passives[p].origin
  {
    if le.RunFuture? {
      RunFutureIs(l);
    }
  }

  /** The near end's table grew what it sends, and all of that was put on the wire. */
  lemma NearGrew(u: Setup, t0: nat, clock: nat, x: Duplex, n: Net, near: Stream<Near>, m: Net)
    requires Reachable(u.c, t0, clock, m) && m.a == near.state.actor.table && m.b == n.b == x.far.state.line
    requires n.a.sent == x.near.state.actor.table.sent <= m.a.sent
    requires forall p | p in Newly(n.a.sent, m.a.sent) :: Is(Begin, p)
    requires Serves(x.far.state, n.a.sent) && FarWire(u, x, n)
    ensures Serves(x.far.state, m.a.sent) && FarWire(u, NearBecomes(x, near), m)
  {
    var grown := Newly(n.a.sent, m.a.sent);
    assert m.a.sent == n.a.sent + grown;
    AllOfKind(Begin, grown);
    EncodingAppend(u.enc, x.out, grown);
    if x.far.Live? {
      var g: nat :| FarWireAt(u, x, n, g);
      WireGrows(u.enc, x.far.tail, x.out, x.readFar, g, grown);
      DropAppend(x.out, grown, g);
      OfKindAppend(Begin, x.out[g..], grown);
      DropAppend(n.a.sent, grown, x.far.state.begins);
      assert FarWireAt(u, NearBecomes(x, near), m, g);
    }
  }

  lemma FarGrew(u: Setup, x: Duplex, n: Net, far: Stream<Far>, m: Net)
    requires m.a == n.a && n.b == x.far.state.line && m.b == far.state.line
    requires Pdus(n.b.sent) <= Pdus(m.b.sent) && forall p | p in Newly(Pdus(n.b.sent), Pdus(m.b.sent)) :: Is(End, p)
    requires NearWire(u, x, n)
    ensures NearWire(u, FarBecomes(x, far), m)
  {
    var was, grown := Pdus(n.b.sent), Newly(Pdus(n.b.sent), Pdus(m.b.sent));
    assert Pdus(m.b.sent) == was + grown;
    AllOfKind(End, grown);
    EncodingAppend(u.enc, x.back, grown);
    if x.near.Live? {
      var g: nat :| NearWireAt(u, x, n, g);
      WireGrows(u.enc, x.near.tail, x.back, x.readNear, g, grown);
      DropAppend(x.back, grown, g);
      OfKindAppend(End, x.back[g..], grown);
      DropAppend(was, grown, x.near.state.ends);
      assert NearWireAt(u, FarBecomes(x, far), m, g);
    }
  }

  lemma NearDoesKeeps(u: Setup, t0: nat, clock: nat, x: Duplex, n: Net, e: Event) returns (m: Net)
    requires NearApp(u).Lawful() && FarApp(u).Lawful()
    requires DuplexInv(u, t0, clock, x, n) && CanHappen(u, x, NearDoes(e))
    requires Carried(u, Happened(u, x, NearDoes(e)).out)
    ensures DuplexInv(u, t0, clock, Happened(u, x, NearDoes(e)), m)
  {
    hide Reachable, Serves, Carried, FarWire, Step;
    var a := x.near.state.actor;
    var near := x.near.(state := x.near.state.(actor := a.(table := Step(u.c, a.table, e))));
    ReachNext(u.c, t0, clock, n, AtA(e));
    m := NetStep(u.c, n, AtA(e));
    StepSends(u.c, a.table, e);
    NearGrew(u, t0, clock, x, n, near, m);
    if x.near.Live? {
      var g: nat :| NearWireAt(u, x, n, g);
      assert NearWireAt(u, NearBecomes(x, near), m, g);
    }
  }

  lemma FarDoesKeeps(u: Setup, t0: nat, clock: nat, x: Duplex, n: Net, le: LineEvent) returns (m: Net)
    requires NearApp(u).Lawful() && FarApp(u).Lawful()
    requires DuplexInv(u, t0, clock, x, n) && CanHappen(u, x, FarDoes(le))
    requires Carried(u, Happened(u, x, FarDoes(le)).back)
    ensures DuplexInv(u, t0, clock, Happened(u, x, FarDoes(le)), m)
  {
    hide Reachable, Carried, NearWire, LineStep, OfKind;
    var s := x.far.state;
    var far := x.far.(state := s.(line := LineStep(s.line, le)));
    ReachNext(u.c, t0, clock, n, AtB(le));
    m := NetStep(u.c, n, AtB(le));
    LineSends(s.line, le);
    FarGrew(u, x, n, far, m);
    if x.far.Live? {
      var g: nat :| FarWireAt(u, x, n, g);
      assert FarWireAt(u, FarBecomes(x, far), m, g);
    }
  }

  /** Reading k more bytes handles some more PDUs of those sent, and leaves the rest to come. */
  lemma Reads<S>(
      app: App<S, XscPdu>, enc: XscPdu -> seq<byte>, x: Stream<S>, sent: seq<XscPdu>, read: nat, g: nat, k: nat)
    returns (i: nat)
    requires app.Lawful() && (forall p | p in sent :: app.Encodes(enc, p)) && x.Live? && g <= |sent|
    requires read + k <= |Encoding(enc, sent)| && x.tail + Encoding(enc, sent)[read..] == Encoding(enc, sent[g..])
    ensures g + i <= |sent| && sent[g..] == sent[g..g + i] + sent[g + i..]
    ensures var y := Receive(app, x, Encoding(enc, sent)[read..read + k]);
            var (st, ok) := Deliver(app, x.state, sent[g..g + i]);
            && y.state == st && (y.Live? <==> ok)
            && (ok ==> y.tail + Encoding(enc, sent)[read + k..] == Encoding(enc, sent[g + i..]))
  {
    hide Drain, Deliver;
    var bytes := Encoding(enc, sent);
    var chunk, more := bytes[read..read + k], bytes[read + k..];
    assert bytes[read..] == chunk + more;
    Append3(x.tail, chunk, more);
    i := DrainPart(app, enc, x.state, sent[g..], x.tail + chunk, more);
    assert sent[g..][..i] == sent[g..g + i] && sent[g..][i..] == sent[g + i..];
  }

  lemma NearReadsKeeps(u: Setup, t0: nat, clock: nat, x: Duplex, n: Net, k: nat) returns (m: Net)
    requires NearApp(u).Lawful() && FarApp(u).Lawful()
    requires DuplexInv(u, t0, clock, x, n) && CanHappen(u, x, NearReads(k))
    requires Carried(u, Happened(u, x, NearReads(k)).out)
    ensures DuplexInv(u, t0, clock, Happened(u, x, NearReads(k)), m)
  {
    hide Reachable, Serves, FarWire, NearAt, NearMsg, Receive, Deliver, OfKind, Encoding;
    var g: nat :| NearWireAt(u, x, n, g);
    var i := Reads(NearApp(u), u.enc, x.near, x.back, x.readNear, g, k);
    m := NearDeliver(u, t0, clock, x.near.state, n, x.back[g..g + i], x.back[g + i..]);
    DeliverSends(u, x.near.state, x.back[g..g + i]);
    var x' := x.(readNear := x.readNear + k);
    var near := Receive(NearApp(u), x.near, Encoding(u.enc, x.back)[x.readNear..x.readNear + k]);
    FarWireSame(u, x, n, x');
    NearGrew(u, t0, clock, x', n, near, m);
    if near.Live? {
      assert NearWireAt(u, NearBecomes(x', near), m, g + i);
    }
  }

  lemma FarWireSame(u: Setup, x: Duplex, n: Net, x': Duplex)
    requires FarWire(u, x, n) && x'.far == x.far && x'.out == x.out && x'.readFar == x.readFar
    ensures FarWire(u, x', n)
  {
    if x.far.Live? {
      var g: nat :| FarWireAt(u, x, n, g);
      assert FarWireAt(u, x', n, g);
    }
  }

  lemma NearWireSame(u: Setup, x: Duplex, n: Net, x': Duplex, m: Net)
    requires NearWire(u, x, n) && x'.back == x.back && x'.readNear == x.readNear && m == n
    requires x'.near.Live? ==> x.near.Live? && x'.near.tail == x.near.tail
    requires x'.near.state.ends == x.near.state.ends && x'.near.state.actor.table == x.near.state.actor.table
    ensures NearWire(u, x', m)
  {
    if x'.near.Live? {
      var g: nat :| NearWireAt(u, x, n, g);
      assert NearWireAt(u, x', m, g);
    }
  }

  lemma FarReadsKeeps(u: Setup, t0: nat, clock: nat, x: Duplex, n: Net, k: nat) returns (m: Net)
    requires NearApp(u).Lawful() && FarApp(u).Lawful()
    requires DuplexInv(u, t0, clock, x, n) && CanHappen(u, x, FarReads(k))
    requires Carried(u, Happened(u, x, FarReads(k)).back)
    ensures DuplexInv(u, t0, clock, Happened(u, x, FarReads(k)), m)
  {
    hide Reachable, Serves, NearWire, FarAt, FarMsg, Receive, Deliver, OfKind, Encoding;
    var g: nat :| FarWireAt(u, x, n, g);
    var i := Reads(FarApp(u), u.enc, x.far, x.out, x.readFar, g, k);
    m := FarDeliver(u, t0, clock, x.far.state, n, x.out[g..g + i], x.out[g + i..]);
    var x' := x.(readFar := x.readFar + k);
    var far := Receive(FarApp(u), x.far, Encoding(u.enc, x.out)[x.readFar..x.readFar + k]);
    NearWireFar(u, x, n, x', far, m);
    if far.Live? {
      assert FarWireAt(u, FarBecomes(x', far), m, g + i);
    }
  }

  lemma NearWireFar(u: Setup, x: Duplex, n: Net, x': Duplex, far: Stream<Far>, m: Net)
    requires NearWire(u, x, n) && x' == x.(readFar := x'.readFar) && m.a == n.a
    requires n.b == x.far.state.line && m.b == far.state.line && m.b.sent == n.b.sent
    ensures NearWire(u, FarBecomes(x', far), m) && FarBecomes(x', far).back == x.back
  {
    assert Newly(Pdus(n.b.sent), Pdus(m.b.sent)) == [] && x.back + [] == x.back;
    if x.near.Live? {
      var g: nat :| NearWireAt(u, x, n, g);
      assert NearWireAt(u, FarBecomes(x', far), m, g);
    }
  }

  lemma SendsKeep(u: Setup, t0: nat, clock: nat, x: Duplex, n: Net, h: Happening)
    requires NearApp(u).Lawful() && FarApp(u).Lawful()
    requires DuplexInv(u, t0, clock, x, n) && CanHappen(u, x, h) && (h.NearSends? || h.FarSends? || h.Clock?)
    requires Carried(u, Happened(u, x, h).out) && Carried(u, Happened(u, x, h).back)
    ensures DuplexInv(u, t0, clock, Happened(u, x, h), n)
  {
    hide Reachable, Serves, Carried;
    var x' := Happened(u, x, h);
    if h.NearSends? {
      EncodingAppend(u.enc, x.out, [h.p]);
      assert OfKind(Begin, [h.p]) == [] by { assert [h.p][1..] == []; }
      if x.far.Live? {
        var g: nat :| FarWireAt(u, x, n, g);
        WireGrows(u.enc, x.far.tail, x.out, x.readFar, g, [h.p]);
        DropAppend(x.out, [h.p], g);
        OfKindAppend(Begin, x.out[g..], [h.p]);
        assert OfKind(Begin, x'.out[g..]) == OfKind(Begin, x.out[g..]);
        assert FarWireAt(u, x', n, g);
      }
      NearWireSame(u, x, n, x', n);
    } else if h.FarSends? {
      EncodingAppend(u.enc, x.back, [h.p]);
      assert OfKind(End, [h.p]) == [] by { assert [h.p][1..] == []; }
      if x.near.Live? {
        var g: nat :| NearWireAt(u, x, n, g);
        WireGrows(u.enc, x.near.tail, x.back, x.readNear, g, [h.p]);
        DropAppend(x.back, [h.p], g);
        OfKindAppend(End, x.back[g..], [h.p]);
        assert OfKind(End, x'.back[g..]) == OfKind(End, x.back[g..]);
        assert NearWireAt(u, x', n, g);
      }
      FarWireSame(u, x, n, x');
    } else {
      NearWireSame(u, x, n, x', n);
      FarWireSame(u, x, n, x');
    }
  }

  lemma {:induction false} DuplexRun(u: Setup, t0: nat, clock: nat, x: Duplex, n: Net, hs: seq<Happening>)
      returns (m: Net)
    requires NearApp(u).Lawful() && FarApp(u).Lawful()
    requires DuplexInv(u, t0, clock, x, n) && Happens(u, x, hs)
    ensures DuplexInv(u, t0, clock, Result(u, x, hs), m)
    decreases |hs|
  {
    hide DuplexInv, CanHappen, Happened, Carried;
    if hs == [] {
      m := n;
    } else {
      match hs[0] {
        case NearDoes(e) => m := NearDoesKeeps(u, t0, clock, x, n, e);
        case FarDoes(le) => m := FarDoesKeeps(u, t0, clock, x, n, le);
        case NearReads(k) => m := NearReadsKeeps(u, t0, clock, x, n, k);
        case FarReads(k) => m := FarReadsKeeps(u, t0, clock, x, n, k);
        case _ =>
          m := n;
          SendsKeep(u, t0, clock, x, n, hs[0]);
      }
      m := DuplexRun(u, t0, clock, Happened(u, x, hs[0]), m, hs[1..]);
    }
  }

  // ---- Request, reply and callback ----

  /** Two fresh ends; `clock` is what the near end's lastCheckTransTs starts with. */
  ghost predicate Fresh(t0: nat, clock: nat, x: Duplex) {
    && x.near == Live(Near(x.near.state.actor, 0), []) && x.near.state.actor.table == Initial(t0, clock)
    && x.far == Live(Far(x.far.state.actor, Line(false, [], [], [], [], []), 0), []) && x.far.state.actor.started == []
    && x.out == [] && x.back == [] && x.readNear == 0 && x.readFar == 0
  }

  lemma FreshInv(u: Setup, t0: nat, clock: nat, x: Duplex) returns (n: Net)
    requires Fresh(t0, clock, x)
    ensures DuplexInv(u, t0, clock, x, n)
  {
    n := NetInitial(t0, clock);
    assert NetLegal(u.c, n, []) && NetRun(u.c, n, []) == n;
    assert Reachable(u.c, t0, clock, n);
    hide Reachable;
    assert NearWireAt(u, x, n, 0) && FarWireAt(u, x, n, 0);
  }

  /** Whatever bytes travel when: what the two ends do to each other is a run of the two-ended machine,
      so all that holds of its runs holds of theirs. */
  lemma BytesAreSteps(u: Setup, t0: nat, clock: nat, x: Duplex, hs: seq<Happening>) returns (n: Net)
    requires NearApp(u).Lawful() && FarApp(u).Lawful() && Fresh(t0, clock, x) && Happens(u, x, hs)
    ensures var y := Result(u, x, hs);
            Reachable(u.c, t0, clock, n) && n.a == y.near.state.actor.table && n.b == y.far.state.line
            && Serves(y.far.state, n.a.sent)
  {
    n := FreshInv(u, t0, clock, x);
    n := DuplexRun(u, t0, clock, x, n, hs);
  }

  /** The far end starts a passive transaction at most once for each BEGIN, in the order in which they
      were begun, and shows its callback the id, the message and the out-of-band data of that BEGIN. */
  lemma BeginsServed(u: Setup, t0: nat, clock: nat, x: Duplex, hs: seq<Happening>)
    requires NearApp(u).Lawful() && FarApp(u).Lawful() && Fresh(t0, clock, x) && Happens(u, x, hs)
    ensures Serves(Result(u, x, hs).far.state, Result(u, x, hs).near.state.actor.table.sent)
  {
    var n := BytesAreSteps(u, t0, clock, x, hs);
  }

  /** Transaction tx was called back with what the far end answered to its own BEGIN: p was started for
      that BEGIN, r is an executed end of p, and tx is what the END of r makes of a transaction. */
  ghost predicate AnsweredBy(u: Setup, x: Duplex, tx: Tx, p: nat, r: Ran, t: Tx, now: nat) {
    var s, f := x.near.state.actor.table, x.far.state;
    && p < |f.line.passives| == |f.actor.started| && f.line.passives[p].origin == tx.id < |s.sent|
    && Is(Begin, s.sent[tx.id]) && f.actor.started[p] == ServedOf(s.sent[tx.id])
    && r in f.line.ran && r.p == p && r.est && r.tx.ret != Failure
    && t.id == tx.id && tx == Replied(t, EndPdu(r.tx), u.c.parses, now).0
  }

  lemma {:induction false} SentWasRan(ran: seq<Ran>, j: nat) returns (r: Ran)
    requires j < |Replies(ran)|
    ensures r in ran && r.est && r.tx.ret != Failure && Replies(ran)[j] == Sent(r.p, EndPdu(r.tx))
  {
    hide EndPdu;
    if ran[0].est && ran[0].tx.ret != Failure {
      assert Replies(ran) == [Sent(ran[0].p, EndPdu(ran[0].tx))] + Replies(ran[1..]);
      if j == 0 {
        r := ran[0];
      } else {
        r := SentWasRan(ran[1..], j - 1);
      }
    } else {
      assert Replies(ran) == [] + Replies(ran[1..]) == Replies(ran[1..]);
      r := SentWasRan(ran[1..], j);
    }
  }

  /** Request, reply and callback, end to end: on a channel that has begun no more than 2^32
      transactions, every callback by a reply tells what the other end's callback for this very
      request ended with, through any chunking of either stream, anything else sent in between, and
      any order and number of ends. */
  lemma RepliesAnswerRequests(u: Setup, t0: nat, clock: nat, x: Duplex, hs: seq<Happening>, i: nat)
    requires t0 < TIDS && NearApp(u).Lawful() && FarApp(u).Lawful() && Fresh(t0, clock, x) && Happens(u, x, hs)
    requires Result(u, x, hs).near.state.actor.table.begun <= TIDS
    requires i < |Result(u, x, hs).near.state.actor.table.done|
    requires Result(u, x, hs).near.state.actor.table.done[i].cause.ByReply?
    ensures var y := Result(u, x, hs);
            exists p, r, t, now :: AnsweredBy(u, y, y.near.state.actor.table.done[i].tx, p, r, t, now)
  {
    var y := Result(u, x, hs);
    var n := BytesAreSteps(u, t0, clock, x, hs);
    RepliesAreEnds(u.c, t0, clock, n);
    ReachInv(u.c, t0, clock, n);
    hide Reachable, Inv, Happens, Result, Replied;
    var e := n.a.done[i];
    assert EndedByOne(u.c, n, e);
    var j, t, now :| EndedBy(u.c, n, e, j, t, now);
    var r := SentWasRan(n.b.ran, j);
    assert AnsweredBy(u, y, e.tx, r.p, r, t, now);
  }

  // ---- And it does happen ----

  lemma ReceiveOne<S>(app: App<S, XscPdu>, enc: XscPdu -> seq<byte>, st: S, p: XscPdu)
    requires app.Lawful() && app.Encodes(enc, p)
    ensures Encoding(enc, [p]) == enc(p)
    ensures var (st', ok) := app.evnMsg(st, p);
            Receive(app, Live(st, []), enc(p)) == if ok then Live(st', []) else Dead(st')
  {
    DrainOne(app, enc, st, p, []);
    assert enc(p) + [] == enc(p) && [] + enc(p) == enc(p);
    assert [p][1..] == [];
  }

  /** The first BEGIN of a channel. */
  function FirstTx(t0: nat, tx: Tx, now: nat): Tx {
    tx.(id := 0, stid := Tid(t0, 0), its := now)
  }

  lemma FirstStart(c: Client, t0: nat, clock: nat, tx: Tx, now: nat)
    requires t0 < TIDS && tx.calls == 0
    ensures var s := Step(c, Initial(t0, clock), Start(tx, now));
            && s.pending == map[Tid(t0, 0) := FirstTx(t0, tx, now)] && s.begun == 1
            && s.sent == [BeginPdu(FirstTx(t0, tx, now))] && s.done == []
  {
    hide BeginPdu;
    NextTidIs(t0, Initial(t0, clock));
  }

  /** What the far end's callback ends its transaction with. */
  function FirstAnswer(t0: nat, end: LineEvent): PassiveTx
    requires end.CallEnd?
  {
    PassiveTx(0, Tid(t0, 0), end.ret, end.desc, end.endMsg, end.rawMsg, end.ooob, end.lazyClose)
  }

  /** The far end starts for the BEGIN and is ready to end. */
  ghost predicate FarTakes(u: Setup, b: Actor, p: XscPdu) {
    var (b', ok) := Handle(u.farO, u.farC, b, p);
    ok && |b'.started| == |b.started| + 1
  }

  ghost predicate NearTakes(o: Office, p: XscPdu) {
    p.indicator & o.ping == 0 && o.mgr.Some? && Registry.Intercepted(o.mgr.value.itcp, p).Disabled?
  }

  /** The line after it has been started, brought up, ended and run. */
  lemma FirstLine(t0: nat, end: LineEvent)
    requires end.CallEnd? && end.p == 0 && end.ret != Failure
    ensures var l0 := Line(false, [], [], [], [], []);
            var l1 := LineStep(l0, Arrive(0, Tid(t0, 0)));
            var l2 := LineStep(l1, Up);
            && CanStep(l2, end) && CanStep(LineStep(l2, end), RunFuture)
            && l1.sent == l2.sent == LineStep(l2, end).sent == []
            && LineStep(LineStep(l2, end), RunFuture).sent == [Sent(0, EndPdu(FirstAnswer(t0, end)))]
  {
    hide EndPdu, Tid;
    var l1 := LineStep(Line(false, [], [], [], [], []), Arrive(0, Tid(t0, 0)));
    var l3 := LineStep(LineStep(l1, Up), end);
    assert l3.passives[0] == FirstAnswer(t0, end);
    RunFutureIs(l3);
  }

  lemma HappensCons(u: Setup, x: Duplex, h: Happening, hs: seq<Happening>)
    requires NearApp(u).Lawful() && FarApp(u).Lawful() && CanHappen(u, x, h)
    requires Carried(u, Happened(u, x, h).out) && Carried(u, Happened(u, x, h).back)
    requires Happens(u, Happened(u, x, h), hs)
    ensures Happens(u, x, [h] + hs) && Result(u, x, [h] + hs) == Result(u, Happened(u, x, h), hs)
  {
    hide CanHappen, Happened, Carried;
    assert ([h] + hs)[1..] == hs;
  }

  /** From a started passive transaction on: the line comes up, the callback ends it, the end is run,
      and the END is read. */
  lemma AnswerReturns(u: Setup, t0: nat, x: Duplex, end: LineEvent) returns (hs: seq<Happening>)
    requires NearApp(u).Lawful() && FarApp(u).Lawful() && end.CallEnd? && end.p == 0 && end.ret != Failure
    requires x.near.Live? && x.near.tail == [] && x.readNear == 0 && x.back == []
    requires x.far.state.line == LineStep(Line(false, [], [], [], [], []), Arrive(0, Tid(t0, 0)))
    requires var e := EndPdu(FirstAnswer(t0, end));
             && Carried(u, x.out) && Carried(u, [e]) && Carried(u, x.out + NearNews(u, x.near.state, e))
    ensures Happens(u, x, hs)
    ensures Result(u, x, hs).near.state == NearMsg(u, x.near.state, EndPdu(FirstAnswer(t0, end))).0
  {
    var e := EndPdu(FirstAnswer(t0, end));
    FirstLine(t0, end);
    var l1 := x.far.state.line;
    var l2 := LineStep(l1, Up);
    var l3 := LineStep(l2, end);
    var l4 := LineStep(l3, RunFuture);
    hide LineStep, EndPdu, Tid, Handle, Drain;
    var x2 := x.(far := x.far.(state := x.far.state.(line := l2)));
    var x3 := x.(far := x.far.(state := x.far.state.(line := l3)));
    var x4 := x.(far := x.far.(state := x.far.state.(line := l4)), back := [e]);
    assert [] + Newly([], [e]) == [e] && Pdus(l4.sent) == [e];
    assert x.back + Newly(Pdus(l1.sent), Pdus(l2.sent)) == [];
    assert Happened(u, x, FarDoes(Up)) == x2;
    assert Happened(u, x2, FarDoes(end)) == x3;
    assert Happened(u, x3, FarDoes(RunFuture)) == x4;
    var last := EndRead(u, x4, e);
    HappensCons(u, x3, FarDoes(RunFuture), last);
    HappensCons(u, x2, FarDoes(end), [FarDoes(RunFuture)] + last);
    HappensCons(u, x, FarDoes(Up), [FarDoes(end)] + ([FarDoes(RunFuture)] + last));
    hs := [FarDoes(Up)] + ([FarDoes(end)] + ([FarDoes(RunFuture)] + last));
  }

  /** What the near end sends on this END. */
  function NearNews(u: Setup, s: Near, e: XscPdu): seq<XscPdu> {
    Newly(s.actor.table.sent, NearMsg(u, s, e).0.actor.table.sent)
  }

  /** The near end after its first begin. */
  function Begun(u: Setup, s: Near, t0: nat, clock: nat, tx: Tx, now: nat): Near
    requires tx.calls == 0
  {
    s.(actor := s.actor.(table := Step(u.c, Initial(t0, clock), Start(tx, now))))
  }

  lemma EndRead(u: Setup, x: Duplex, e: XscPdu) returns (hs: seq<Happening>)
    requires NearApp(u).Lawful() && FarApp(u).Lawful() && x.near.Live? && x.near.tail == []
    requires x.readNear == 0 && x.back == [e] && Carried(u, [e]) && Carried(u, x.out + NearNews(u, x.near.state, e))
    ensures Happens(u, x, hs) && Result(u, x, hs).near.state == NearMsg(u, x.near.state, e).0
  {
    assert e in [e];
    ReceiveOne(NearApp(u), u.enc, x.near.state, e);
    hide Handle, Drain;
    var h := NearReads(|u.enc(e)|);
    assert u.enc(e)[0..|u.enc(e)|] == u.enc(e);
    hs := [h];
    assert hs[1..] == [];
    assert Happened(u, x, h).near.state == NearMsg(u, x.near.state, e).0;
  }

  /** The far end reads the BEGIN and starts a passive transaction for it. */
  lemma BeginRead(u: Setup, t0: nat, x: Duplex, p: XscPdu)
    requires NearApp(u).Lawful() && FarApp(u).Lawful() && x.far.Live? && x.far.tail == [] && x.far.state.begins == 0
    requires x.readFar == 0 && x.out == [p] && Carried(u, [p]) && x.back == [] && x.far.state.line.sent == []
    requires Is(Begin, p) && p.trans.value.stid == Tid(t0, 0) && FarTakes(u, x.far.state.actor, p)
    ensures var h := FarReads(|u.enc(p)|);
            var y := Happened(u, x, h);
            && CanHappen(u, x, h) && y == x.(far := y.far, readFar := |u.enc(p)|)
            && y.far.state.line == LineStep(x.far.state.line, Arrive(0, Tid(t0, 0)))
  {
    assert p in [p];
    ReceiveOne(FarApp(u), u.enc, x.far.state, p);
    hide Handle, Drain, Tid;
    assert u.enc(p)[0..|u.enc(p)|] == u.enc(p);
    assert Newly(Pdus([]), Pdus([])) == [] && x.back + [] == x.back;
  }

  /** The END completes the first transaction. */
  lemma EndCompletes(u: Setup, t0: nat, clock: nat, tx: Tx, now: nat, s: Near, end: LineEvent)
    requires t0 < TIDS && tx.calls == 0 && end.CallEnd?
              && s.actor.table == Step(u.c, Initial(t0, clock), Start(tx, now))
    requires NearTakes(u.o, EndPdu(FirstAnswer(t0, end)))
    ensures var e := EndPdu(FirstAnswer(t0, end));
            && e.trans.Some?
            && NearMsg(u, s, e).0.actor.table.done
               == [Ending(Replied(FirstTx(t0, tx, now), e, u.c.parses, s.actor.clock).0, ByReply)]
  {
    FirstStart(u.c, t0, clock, tx, now);
    hide Tid, Replied, BeginPdu, StartAll;
    var e := EndPdu(FirstAnswer(t0, end));
    assert e.trans.value.dtid == Tid(t0, 0) && e.trans.value.kind.End?;
    var t := Step(u.c, s.actor.table, Reply(e, s.actor.clock));
    assert t.done == [] + [Ending(Replied(FirstTx(t0, tx, now), e, u.c.parses, s.actor.clock).0, ByReply)];
  }

  /** A request whose message the far end takes, and whose callback there ends it without failure, is
      called back at the near end with that answer. */
  lemma RequestIsAnswered(u: Setup, t0: nat, clock: nat, x: Duplex, tx: Tx, now: nat, end: LineEvent)
      returns (hs: seq<Happening>)
    requires NearApp(u).Lawful() && FarApp(u).Lawful() && t0 < TIDS && Fresh(t0, clock, x)
    requires tx.calls == 0 && end.CallEnd? && end.p == 0 && end.ret != Failure
    requires FarTakes(u, x.far.state.actor, BeginPdu(FirstTx(t0, tx, now)))
    requires var e := EndPdu(FirstAnswer(t0, end));
             && NearTakes(u.o, e) && Carried(u, [e]) && Carried(u, [BeginPdu(FirstTx(t0, tx, now))])
             && Carried(u, NearNews(u, Begun(u, x.near.state, t0, clock, tx, now), e))
    ensures Happens(u, x, hs)
    ensures Result(u, x, hs).near.state.actor.table.done
            == [Ending(Replied(FirstTx(t0, tx, now), EndPdu(FirstAnswer(t0, end)), u.c.parses,
                x.near.state.actor.clock).0, ByReply)]
  {
    var p := BeginPdu(FirstTx(t0, tx, now));
    FirstStart(u.c, t0, clock, tx, now);
    assert Is(Begin, p) && p.trans.value.stid == Tid(t0, 0);
    var h := NearDoes(Start(tx, now));
    var x1 := Happened(u, x, h);
    assert x1.near.state == Begun(u, x.near.state, t0, clock, tx, now);
    assert x1.out == [p] by { assert [] + Newly([], [p]) == [p]; }
    BeginRead(u, t0, x1, p);
    var h1 := FarReads(|u.enc(p)|);
    var x2 := Happened(u, x1, h1);
    EndCompletes(u, t0, clock, tx, now, x2.near.state, end);
    hide Step, BeginPdu, EndPdu, Tid, Handle, LineStep, NearMsg, FarMsg, NearNews, Receive;
    var rest := AnswerReturns(u, t0, x2, end);
    HappensCons(u, x1, h1, rest);
    HappensCons(u, x, h, [h1] + rest);
    hs := [h] + ([h1] + rest);
  }

  /** Setups in which this happens exist for every request and every answer. */
  lemma AnswerPossible(t0: nat, tx: Tx, now: nat, end: LineEvent, table: Table) returns (u: Setup, b: Actor)
    requires tx.calls == 0 && end.CallEnd?
    ensures NearApp(u).Lawful() && FarApp(u).Lawful() && b.started == []
    ensures FarTakes(u, b, BeginPdu(FirstTx(t0, tx, now))) && NearTakes(u.o, EndPdu(FirstAnswer(t0, end)))
    ensures Carried(u, [EndPdu(FirstAnswer(t0, end))]) && Carried(u, [BeginPdu(FirstTx(t0, tx, now))])
    ensures forall s: Near, clock: nat ::
              Carried(u, NearNews(u, Begun(u, s, t0, clock, tx, now), EndPdu(FirstAnswer(t0, end))))
  {
    var p, e := BeginPdu(FirstTx(t0, tx, now)), EndPdu(FirstAnswer(t0, end));
    var book := [p, e];
    var msg := p.trans.value.body.msg;
    var stub := Registry.MsgStub(Some(msg), None, None, 0, false, Registry.Forbidden);
    var quiet := Service(false, []);
    var c := Client(_ => true, _ => [], 0);
    var o := Office(0, 1, Some(Registry.Mgr(map[], None)), (_, _) => true, _ => quiet, _ => quiet);
    var farO := o.(mgr := Some(Registry.Mgr(map[msg := stub], None)));
    u := Setup(Decoder(book), Encoder(book), o, c, farO, c);
    b := Actor(table, false, 0, 0, [], [], []);
    BookIsLawful(book, NearApp(u).evnMsg);
    BookIsLawful(book, FarApp(u).evnMsg);
    assert p in book && e in book;
    Takes(u, b, p, stub);
    forall s: Near, clock: nat
      ensures Carried(u, NearNews(u, Begun(u, s, t0, clock, tx, now), e))
    {
      NoNews(u, Begun(u, s, t0, clock, tx, now), e);
    }
  }

  lemma Takes(u: Setup, b: Actor, p: XscPdu, stub: Registry.MsgStub)
    requires Is(Begin, p) && p.indicator & u.farO.ping == 0 && stub.begin.Some? && !stub.auth
    requires u.farO.mgr == Some(Registry.Mgr(map[p.trans.value.body.msg := stub], None))
    requires u.farO.parse(stub.begin.value, p.trans.value.body.dat)
    ensures FarTakes(u, b, p)
  {
    hide StartAll;
    assert |b.started + [ServedOf(p)]| == |b.started| + 1;
  }

  lemma NoNews(u: Setup, s: Near, e: XscPdu)
    requires Is(End, e) && forall x :: u.c.react(x) == []
    ensures NearNews(u, s, e) == []
  {
    var rs := TableOf(u.o, u.c, s.actor, e);
    hide Step;
    if Completes(u.o, s.actor, e) {
      ReplyDone(u.c, s.actor.table, e, s.actor.clock);
      StartNone(u.c, Before(u.o, u.c, s.actor, e), s.actor.clock);
      StepSends(u.c, s.actor.table, Reply(e, s.actor.clock));
      ReplySends(u.c, s.actor.table, e, s.actor.clock);
    }
  }

  lemma ReplySends(c: Client, t: Table, e: XscPdu, now: nat)
    requires e.trans.Some?
    ensures Step(c, t, Reply(e, now)).sent == t.sent
  {
  }
}
