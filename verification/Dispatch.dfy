/** Message dispatch: what evnMsg does with each PDU, and what a byte stream therefore does to the
    transactions of a channel. */
module Dispatch {
  import opened Codec
  import opened PduStream
  import opened Proto
  import opened Trans
  import opened TransTable
  import opened Registry

  /** A passive transaction as evnBegin makes it. */
  datatype Served = Served(dtid: nat, ioob: Option<Oob>, body: Body)

  function ServedOf(p: XscPdu): Served
    requires p.trans.Some?
  {
    Served(p.trans.value.stid, p.oob, p.trans.value.body)
  }

  /** What a message's callback does to its channel: it may bind a user, and begin transactions. */
  datatype Service = Service(binds: bool, requests: seq<Request>)

  /** What dispatch consults: the indicator constants, the registry (a worker may have none), which
      bytes parse as a message of which name, and the callbacks. */
  datatype Office = Office(
    ping: byte, pong: byte, mgr: Option<Mgr>, parse: (string, seq<byte>) -> bool,
    serve: Served -> Service, notify: Body -> Service)

  /** One end of a channel. `started` lists the passive transactions made, `called` those whose
      callback was called; `usr` says whether a user is bound to the channel. */
  datatype Actor = Actor(
    table: Table, usr: bool, clock: nat, pongs: nat,
    started: seq<Served>, called: seq<Served>, notified: seq<Body>)

  function AfterCallback(c: Client, s: Actor, v: Service): Actor {
    s.(usr := s.usr || v.binds, table := StartAll(c, s.table, v.requests, s.clock))
  }

  /** newBegin and newUnidirection: an empty body is an empty message. */
  predicate Parses(o: Office, desc: Option<string>, dat: seq<byte>) {
    desc.Some? && (dat == [] || o.parse(desc.value, dat))
  }

  function HandleBegin(o: Office, m: Mgr, c: Client, s: Actor, pdu: XscPdu): (Actor, bool)
    requires pdu.trans.Some?
  {
    var x := pdu.trans.value;
    var stub := Find(m.msgs, x.body.msg);
    if stub.None? || !Parses(o, stub.value.begin, x.body.dat) then (s, false)
    else
      var t := ServedOf(pdu);
      var s' := s.(started := s.started + [t]);
      if stub.value.auth && !s.usr then (s', false)
      else (AfterCallback(c, s'.(called := s.called + [t]), o.serve(t)), true)
  }

  function HandleEnd(c: Client, s: Actor, pdu: XscPdu): (Actor, bool)
    requires pdu.trans.Some?
  {
    var k := pdu.trans.value.dtid;
    if k !in s.table.pending then (s, true)
    else
      var t := Step(c, s.table, Reply(pdu, s.clock));
      (s.(table := StartAll(c, t, c.react(t.done[|t.done| - 1]), s.clock)),
       Replied(s.table.pending[k], pdu, c.parses, s.clock).1)
  }

  function HandleUnidirection(o: Office, m: Mgr, c: Client, s: Actor, pdu: XscPdu): (Actor, bool)
    requires pdu.trans.Some?
  {
    var x := pdu.trans.value;
    var stub := Find(m.msgs, x.body.msg);
    if stub.None? || !Parses(o, stub.value.uni, x.body.dat) || (stub.value.auth && !s.usr) then (s, false)
    else (AfterCallback(c, s.(notified := s.notified + [x.body]), o.notify(x.body)), true)
  }

  function Route(o: Office, m: Mgr, c: Client, s: Actor, pdu: XscPdu): (Actor, bool)
    requires pdu.trans.Some?
  {
    match pdu.trans.value.kind
    case Begin => HandleBegin(o, m, c, s, pdu)
    case End => HandleEnd(c, s, pdu)
    case Unidirection => HandleUnidirection(o, m, c, s, pdu)
    case Partial => (s, true)
    case Unknown => (s, false)
  }

  /** Answering false closes the channel. */
  function Handle(o: Office, c: Client, s: Actor, pdu: XscPdu): (Actor, bool) {
    if pdu.indicator & o.ping != 0 then
      if pdu.indicator == o.pong then (s, true) else (s.(pongs := s.pongs + 1), true)
    else if pdu.trans.None? || o.mgr.None? then (s, false)
    else match Intercepted(o.mgr.value.itcp, pdu)
      case Taken => (s, true)
      case Refused => (s, true)
      case Failed => (s, false)
      case Disabled => Route(o, o.mgr.value, c, s, pdu)
  }

  /** The receive loops with this handler. */
  function Loop(decode: seq<byte> -> Parse<XscPdu>, o: Office, c: Client): App<Actor, XscPdu> {
    App(decode, (s, p) => Handle(o, c, s, p))
  }

  /** Whether dispatch reaches evnEnd with a transaction that is pending. */
  predicate Completes(o: Office, s: Actor, pdu: XscPdu) {
    && pdu.indicator & o.ping == 0 && pdu.trans.Some? && o.mgr.Some?
    && Intercepted(o.mgr.value.itcp, pdu).Disabled?
    && pdu.trans.value.kind.End? && pdu.trans.value.dtid in s.table.pending
  }

  /** The table as the PDU leaves it before its callback. */
  function Before(o: Office, c: Client, s: Actor, pdu: XscPdu): Table {
    if Completes(o, s, pdu) then Step(c, s.table, Reply(pdu, s.clock)) else s.table
  }

  /** What a PDU does to the table: at most one transaction ends, then its callback begins some. */
  lemma TableOf(o: Office, c: Client, s: Actor, pdu: XscPdu) returns (rs: seq<Request>)
    ensures Handle(o, c, s, pdu).0.table == StartAll(c, Before(o, c, s, pdu), rs, s.clock)
  {
    hide HandleBegin, HandleUnidirection, StartAll, Step;
    rs := [];
    StartNone(c, s.table, s.clock);
    if Completes(o, s, pdu) {
      ReplyDone(c, s.table, pdu, s.clock);
      var t := Before(o, c, s, pdu);
      rs := c.react(t.done[|t.done| - 1]);
    } else if Handle(o, c, s, pdu).0.table != s.table {
      rs := CallbackBegins(o, o.mgr.value, c, s, pdu);
    }
  }

  lemma StartNone(c: Client, t: Table, now: nat)
    ensures StartAll(c, t, [], now) == t
  {
  }

  lemma ReplyDone(c: Client, t: Table, pdu: XscPdu, now: nat)
    requires pdu.trans.Some? && pdu.trans.value.dtid in t.pending
    ensures |Step(c, t, Reply(pdu, now)).done| == |t.done| + 1
  {
  }

  lemma CallbackBegins(o: Office, m: Mgr, c: Client, s: Actor, pdu: XscPdu) returns (rs: seq<Request>)
    requires pdu.trans.Some? && (pdu.trans.value.kind.Begin? || pdu.trans.value.kind.Unidirection?)
    ensures Route(o, m, c, s, pdu).0.table == StartAll(c, s.table, rs, s.clock)
  {
    rs := [];
    StartNone(c, s.table, s.clock);
    hide StartAll;
    if Route(o, m, c, s, pdu).1 {
      var x := pdu.trans.value;
      rs := if x.kind.Begin? then o.serve(ServedOf(pdu)).requests else o.notify(x.body).requests;
    }
  }

  /** Only an END for a pending transaction calls one back: that transaction, whether or not its body
      parses. Everything else stays, and what callbacks begin is added. */
  lemma OnlyEndsComplete(o: Office, c: Client, t0: nat, s: Actor, pdu: XscPdu)
    requires Inv(t0, s.table)
    ensures var t := Handle(o, c, s, pdu).0.table;
            && (t.done != s.table.done <==> Completes(o, s, pdu))
            && (Completes(o, s, pdu) ==>
                  var id := s.table.pending[pdu.trans.value.dtid].id;
                  |t.done| == |s.table.done| + 1 && t.done[..|s.table.done|] == s.table.done
                  && t.done[|s.table.done|].tx.id == id && !Pending(t0, t, id))
            && (forall id: nat :: Pending(t0, t, id) <==>
                  && t.begun <= id + TIDS
                  && (s.table.begun <= id < t.begun
                      || (Pending(t0, s.table, id)
                          && !(Completes(o, s, pdu) && id == s.table.pending[pdu.trans.value.dtid].id))))
  {
    var rs := TableOf(o, c, s, pdu);
    hide Handle;
    ReplyPending(o, c, t0, s, pdu);
    hide Completes, Step, Pending;
    StartAllKeeps(c, t0, Before(o, c, s, pdu), rs, s.clock);
  }

  lemma ReplyPending(o: Office, c: Client, t0: nat, s: Actor, pdu: XscPdu)
    requires Inv(t0, s.table)
    ensures var u := Before(o, c, s, pdu);
            && Inv(t0, u) && u.begun == s.table.begun
            && (if Completes(o, s, pdu) then
                  |u.done| == |s.table.done| + 1 && u.done[..|s.table.done|] == s.table.done
                  && s.table.pending[pdu.trans.value.dtid].id < u.begun
                  && u.done[|s.table.done|].tx.id == s.table.pending[pdu.trans.value.dtid].id
                else u.done == s.table.done)
            && (forall id: nat :: Pending(t0, u, id) <==>
                  Pending(t0, s.table, id) && !(Completes(o, s, pdu) && id == s.table.pending[pdu.trans.value.dtid].id))
  {
    hide Tid, Replied;
    if Completes(o, s, pdu) {
      StepKeeps(c, t0, s.table, Reply(pdu, s.clock));
      assert Before(o, c, s, pdu).done[..|s.table.done|] == s.table.done;
      RepliedId(s.table.pending[pdu.trans.value.dtid], pdu, c.parses, s.clock);
    }
  }

  lemma RepliedId(t: Tx, pdu: XscPdu, parses: Body -> bool, now: nat)
    requires pdu.trans.Some?
    ensures Replied(t, pdu, parses, now).0.id == t.id
  {
  }

  /** A BEGIN that is understood but needs a user where none is bound. */
  predicate Denied(o: Office, s: Actor, pdu: XscPdu) {
    && pdu.indicator & o.ping == 0 && pdu.trans.Some? && o.mgr.Some?
    && Intercepted(o.mgr.value.itcp, pdu).Disabled? && pdu.trans.value.kind.Begin? && !s.usr
    && var stub := Find(o.mgr.value.msgs, pdu.trans.value.body.msg);
       stub.Some? && stub.value.auth && Parses(o, stub.value.begin, pdu.trans.value.body.dat)
  }

  /** A passive transaction is started without ever being called exactly on a denied BEGIN, which
      also closes the channel. */
  lemma StartedIsCalledExact(o: Office, c: Client, s: Actor, pdu: XscPdu)
    requires s.started == s.called
    ensures var (s', ok) := Handle(o, c, s, pdu);
            && (s'.started == s'.called <==> !Denied(o, s, pdu))
            && (Denied(o, s, pdu) ==> !ok && s'.called == s.called && |s'.started| == |s.started| + 1)
  {
    hide Step, StartAll;
    if Denied(o, s, pdu) {
      assert |s.started + [ServedOf(pdu)]| == |s.called| + 1;
    }
  }

  /** For instance a request that needs a login, before it. */
  lemma DeniedHappens(c: Client, t: Table, dat: seq<byte>) returns (o: Office, s: Actor, pdu: XscPdu)
    ensures s.table == t && s.started == s.called && Denied(o, s, pdu)
    ensures var (s', ok) := Handle(o, c, s, pdu); !ok && s'.started != s'.called
  {
    var stub := MsgStub(Some("Logout"), Some("LogoutRet"), None, 0, true, Forbidden);
    var nothing := Service(false, []);
    o := Office(1, 3, Some(Mgr(map["Logout" := stub], None)), (_, _) => true, _ => nothing, _ => nothing);
    s := Actor(t, false, 0, 0, [], [], []);
    pdu := XscPdu(0, None, Some(XscTrans(Begin, 7, 0, Success, "", Body("Logout", dat))));
    StartedIsCalledExact(o, c, s, pdu);
  }

  /** So over any PDUs, up to the one that closes the channel, all but at most the very last of the
      passive transactions started are called. */
  lemma {:induction false} DeliveredAreCalled(
      o: Office, c: Client, decode: seq<byte> -> Parse<XscPdu>, s: Actor, pdus: seq<XscPdu>)
    requires s.started == s.called
    ensures var (s', ok) := Deliver(Loop(decode, o, c), s, pdus);
            && (ok ==> s'.started == s'.called)
            && s'.called <= s'.started && |s'.started| <= |s'.called| + 1
    decreases |pdus|
  {
    if pdus != [] {
      StartedIsCalledExact(o, c, s, pdus[0]);
      StartedGrows(o, c, s, pdus[0]);
      hide Handle, Denied;
      if Handle(o, c, s, pdus[0]).1 {
        DeliveredAreCalled(o, c, decode, Handle(o, c, s, pdus[0]).0, pdus[1..]);
      }
    }
  }

  lemma StartedGrows(o: Office, c: Client, s: Actor, pdu: XscPdu)
    requires s.started == s.called
    ensures var s' := Handle(o, c, s, pdu).0; s'.called <= s'.started && |s'.started| <= |s'.called| + 1
  {
    hide Step, StartAll;
  }

  /** Every PDU does to the table what some run of single steps does. */
  lemma HandleIsRun(o: Office, c: Client, s: Actor, pdu: XscPdu, more: seq<Event>) returns (es: seq<Event>)
    requires Legal(c, Handle(o, c, s, pdu).0.table, more)
    ensures Legal(c, s.table, es) && Run(c, s.table, es) == Run(c, Handle(o, c, s, pdu).0.table, more)
  {
    var rs := TableOf(o, c, s, pdu);
    hide Handle, StartAll, Legal, Run, Step;
    es := StartAllIsRun(c, Before(o, c, s, pdu), rs, s.clock, more);
    if Completes(o, s, pdu) {
      RunCons(c, s.table, Reply(pdu, s.clock), es);
      es := [Reply(pdu, s.clock)] + es;
    }
  }

  lemma RunCons(c: Client, s: Table, e: Event, es: seq<Event>)
    requires Enabled(c, s, e) && Legal(c, Step(c, s, e), es)
    ensures Legal(c, s, [e] + es) && Run(c, s, [e] + es) == Run(c, Step(c, s, e), es)
  {
    hide Step, Enabled;
    assert ([e] + es)[1..] == es;
  }

  lemma {:induction false} DrainIsRun(
      decode: seq<byte> -> Parse<XscPdu>, o: Office, c: Client, s: Actor, bytes: seq<byte>, more: seq<Event>)
          returns (es: seq<Event>)
    requires Loop(decode, o, c).Lawful() && Legal(c, Drain(Loop(decode, o, c), s, bytes).state.table, more)
    ensures Legal(c, s.table, es)
    ensures Run(c, s.table, es) == Run(c, Drain(Loop(decode, o, c), s, bytes).state.table, more)
    decreases |bytes|
  {
    hide Handle, Legal, Run;
    var app := Loop(decode, o, c);
    match decode(bytes)
    case NeedMore => es := more;
    case Malformed => es := more;
    case Pdu(p, n) =>
      assert app.Sized(bytes);
      var (s', ok) := Handle(o, c, s, p);
      var rest := more;
      if ok {
        rest := DrainIsRun(decode, o, c, s', bytes[n..], more);
      }
      es := HandleIsRun(o, c, s, p, rest);
  }

  // ---- A session: bytes in any chunks, between the channel's own doings ----

  /** A user may also be bound or lost from outside. */
  datatype Input = Chunk(bytes: seq<byte>) | Own(e: Event) | Tick(now: nat) | User(bound: bool)

  ghost predicate Admits(c: Client, x: Stream<Actor>, i: Input) {
    i.Own? ==> Enabled(c, x.state.table, i.e)
  }

  function Fed(decode: seq<byte> -> Parse<XscPdu>, o: Office, c: Client, x: Stream<Actor>, i: Input): Stream<Actor>
    requires Loop(decode, o, c).Lawful() && Admits(c, x, i)
  {
    match i
    case Chunk(bytes) => Receive(Loop(decode, o, c), x, bytes)
    case Own(e) => x.(state := x.state.(table := Step(c, x.state.table, e)))
    case Tick(now) => x.(state := x.state.(clock := now))
    case User(bound) => x.(state := x.state.(usr := bound))
  }

  ghost predicate Session(decode: seq<byte> -> Parse<XscPdu>, o: Office, c: Client, x: Stream<Actor>,
      inputs: seq<Input>)
    requires Loop(decode, o, c).Lawful()
    decreases |inputs|
  {
    inputs == [] || (Admits(c, x, inputs[0]) && Session(decode, o, c, Fed(decode, o, c, x, inputs[0]), inputs[1..]))
  }

  ghost function Outcome(decode: seq<byte> -> Parse<XscPdu>, o: Office, c: Client, x: Stream<Actor>,
      inputs: seq<Input>): Stream<Actor>
    requires Loop(decode, o, c).Lawful() && Session(decode, o, c, x, inputs)
    decreases |inputs|
  {
    if inputs == [] then x else Outcome(decode, o, c, Fed(decode, o, c, x, inputs[0]), inputs[1..])
  }

  /** Whatever bytes arrive, however they are cut and whatever the channel does in between, its table
      is one that a run of begin, END, sweep and clean steps reaches. */
  lemma {:induction false} SessionIsRun(
      decode: seq<byte> -> Parse<XscPdu>, o: Office, c: Client, x: Stream<Actor>, inputs: seq<Input>)
          returns (es: seq<Event>)
    requires Loop(decode, o, c).Lawful() && Session(decode, o, c, x, inputs)
    ensures Legal(c, x.state.table, es)
    ensures Run(c, x.state.table, es) == Outcome(decode, o, c, x, inputs).state.table
    decreases |inputs|
  {
    if inputs == [] {
      es := [];
    } else {
      var i := inputs[0];
      es := SessionIsRun(decode, o, c, Fed(decode, o, c, x, i), inputs[1..]);
      hide Step, Enabled, Handle, Legal, Run;
      match i
      case Chunk(bytes) =>
        if x.Live? {
          es := DrainIsRun(decode, o, c, x.state, x.tail + bytes, es);
        }
      case Own(e) =>
        RunCons(c, x.state.table, e, es);
        es := [e] + es;
      case _ =>
    }
  }

  /** End to end: after any session of a fresh channel every transaction it began is in exactly one
      place, called back never while it waits and exactly once when it is done. */
  lemma SessionExactlyOnce(
      decode: seq<byte> -> Parse<XscPdu>, o: Office, c: Client, t0: nat, a: Actor, inputs: seq<Input>, id: nat)
    requires t0 < TIDS && a.table == Initial(t0, a.clock)
    requires Loop(decode, o, c).Lawful() && Session(decode, o, c, Live(a, []), inputs)
    ensures var s := Outcome(decode, o, c, Live(a, []), inputs).state.table;
            && Places(t0, s, id) == (if id < s.begun then 1 else 0)
            && (forall k | k in s.pending :: s.pending[k].stid == k && s.pending[k].calls == 0)
            && (forall i | 0 <= i < |s.ending| :: s.ending[i].tx.calls == 0)
            && (forall i | 0 <= i < |s.done| :: s.done[i].tx.calls == 1)
  {
    var es := SessionIsRun(decode, o, c, Live(a, []), inputs);
    hide *;
    ExactlyOnce(c, t0, a.clock, es, id);
  }
}
