/** The passive end of a transaction: how it is ended, and what the queued end then does. */
module Passive {
  import opened Codec
  import opened Proto
  import opened Trans

  /** The value of a passive transaction; `origin` numbers the BEGIN it was created from. */
  datatype PassiveTx = PassiveTx(
    origin: nat, dtid: nat, ret: Ret, desc: string, endMsg: Option<Body>, rawMsg: Option<Body>,
    ooob: Option<Oob>, lazyClose: bool)

  function EndPdu(t: PassiveTx): XscPdu {
    var body := if t.rawMsg.Some? then t.rawMsg.value else if t.endMsg.Some? then t.endMsg.value else Body("", []);
    XscPdu(0, t.ooob, Some(XscTrans(End, 0, t.dtid, t.ret, t.desc, body)))
  }

  /** What a queued end does to its channel: the transPassFinished call, sending an END, closing at
      once or when all is written. */
  datatype Deed = Finish | SendPdu(pdu: XscPdu) | Close | LazyClose

  /** The deeds of one queued end, in the order of the code. */
  function Deeds(t: PassiveTx, est: bool): seq<Deed> {
    if t.ret == Failure then
      if !est then [Finish] else [if t.lazyClose then LazyClose else Close, Finish]
    else if !est then [Finish]
    else [Finish, SendPdu(EndPdu(t))] + if t.lazyClose then [LazyClose] else []
  }

  function Finishes(p: nat, ds: seq<Deed>): seq<nat> {
    if ds == [] then [] else (if ds[0].Finish? then [p] else []) + Finishes(p, ds[1..])
  }

  function Sends(p: nat, ds: seq<Deed>): seq<Sent> {
    if ds == [] then [] else (if ds[0].SendPdu? then [Sent(p, ds[0].pdu)] else []) + Sends(p, ds[1..])
  }

  /** On every path of the code: one finish; one END exactly when the outcome is no failure and the
      channel is established, and none otherwise; a close exactly when the channel is established and
      the end failed or asked for it; and nothing after a lazy close but the finish of a failure. */
  lemma DeedsExact(p: nat, t: PassiveTx, est: bool)
    ensures var ds := Deeds(t, est);
            && Finishes(p, ds) == [p]
            && Sends(p, ds) == (if est && t.ret != Failure then [Sent(p, EndPdu(t))] else [])
            && (Close in ds <==> est && t.ret == Failure && !t.lazyClose)
            && (LazyClose in ds <==> est && t.lazyClose)
            && (forall i, j | 0 <= i < j < |ds| && ds[i].LazyClose? :: ds[j].Finish?)
  {
    hide EndPdu;
    var ds := Deeds(t, est);
    if |ds| >= 1 { NextDeed(p, ds); }
    if |ds| >= 2 { NextDeed(p, ds[1..]); }
    if |ds| >= 3 { NextDeed(p, ds[1..][1..]); }
  }

  lemma NextDeed(p: nat, ds: seq<Deed>)
    requires ds != []
    ensures Finishes(p, ds) == (if ds[0].Finish? then [p] else []) + Finishes(p, ds[1..])
    ensures Sends(p, ds) == (if ds[0].SendPdu? then [Sent(p, ds[0].pdu)] else []) + Sends(p, ds[1..])
  {
  }

  /** What a passive transaction uses of its channel; `trace` is what was done on it. */
  class XscLine {
    var est: bool
    var futures: seq<XmsgImTransPassive>
    var trace: seq<Deed>

    method Do(d: Deed)
      modifies this`trace
      ensures trace == old(trace) + [d]
    {
      trace := trace + [d];
    }

    /** XmsgImChannel::sendEnd: a raw message, no message or a message to serialise; each branch
        finishes and sends once, in this order. */
    method SendEnd(trans: XmsgImTransPassive)
      modifies this`trace
      ensures trace == old(trace) + [Finish, SendPdu(EndPdu(trans.Value()))]
    {
      var pdu := XscPdu(0, trans.ooob, Some(XscTrans(End, 0, trans.dtid, trans.ret, trans.desc, Body("", []))));
      if trans.rawMsg.Some? {
        pdu := pdu.(trans := Some(pdu.trans.value.(body := trans.rawMsg.value)));
        Do(Finish);
        Do(SendPdu(pdu));
        return;
      }
      if trans.endMsg.None? {
        Do(Finish);
        Do(SendPdu(pdu));
        return;
      }
      pdu := pdu.(trans := Some(pdu.trans.value.(body := trans.endMsg.value)));
      Do(Finish);
      Do(SendPdu(pdu));
    }

    /** The worker takes the front of its queue; each queued end is run by its own transaction. */
    method RunFuture() returns (trans: XmsgImTransPassive)
      requires futures != [] && futures[0].channel == this
      modifies this`futures, this`trace
      ensures trans == old(futures[0]) && futures == old(futures[1..])
      ensures trace == old(trace) + Deeds(trans.Value(), est)
    {
      trans := futures[0];
      futures := futures[1..];
      trans.RunEnd();
    }
  }

  class XmsgImTransPassive {
    const channel: XscLine
    const origin: nat
    const dtid: nat
    var ret: Ret
    var desc: string
    var endMsg: Option<Body>
    var rawMsg: Option<Body>
    var ooob: Option<Oob>
    var lazyClose: bool

    function Value(): PassiveTx
      reads this
    {
      PassiveTx(origin, dtid, ret, desc, endMsg, rawMsg, ooob, lazyClose)
    }

    constructor (channel: XscLine, origin: nat, dtid: nat)
      ensures this.channel == channel && Value() == PassiveTx(origin, dtid, Success, "", None, None, None, false)
    {
      this.channel, this.origin, this.dtid := channel, origin, dtid;
      ret, desc, endMsg, rawMsg, ooob, lazyClose := Success, "", None, None, None, false;
    }

    method QueueEnd()
      modifies channel`futures
      ensures channel.futures == old(channel.futures) + [this]
    {
      channel.futures := channel.futures + [this];
    }

    method EndWith(end: Option<Body>)
      modifies this`ret, this`endMsg, channel`futures
      ensures Value() == old(Value()).(ret := Success, endMsg := end)
                && channel.futures == old(channel.futures) + [this]
    {
      ret := Success;
      endMsg := end;
      QueueEnd();
    }

    method EndRet(ret: Ret)
      modifies this`ret, channel`futures
      ensures Value() == old(Value()).(ret := ret) && channel.futures == old(channel.futures) + [this]
    {
      this.ret := ret;
      QueueEnd();
    }

    method EndFull(ret: Ret, desc: string, end: Option<Body>)
      modifies this`ret, this`desc, this`endMsg, channel`futures
      ensures Value() == old(Value()).(ret := ret, desc := desc, endMsg := end)
                && channel.futures == old(channel.futures) + [this]
    {
      this.ret := ret;
      this.desc := desc;
      this.endMsg := end;
      QueueEnd();
    }

    method EndRaw(ret: Ret, desc: string, raw: Option<Body>)
      modifies this`ret, this`desc, this`rawMsg, channel`futures
      ensures Value() == old(Value()).(ret := ret, desc := desc, rawMsg := raw)
                && channel.futures == old(channel.futures) + [this]
    {
      this.ret := ret;
      this.desc := desc;
      this.rawMsg := raw;
      QueueEnd();
    }

    method EndAndLazyClose(ret: Ret, desc: Option<string>)
      modifies this`ret, this`desc, this`lazyClose, channel`futures
      ensures Value() == old(Value()).(
                ret := ret, desc := if desc.Some? then desc.value else old(this.desc), lazyClose := true)
      ensures channel.futures == old(channel.futures) + [this]
    {
      lazyClose := true;
      this.ret := ret;
      if desc.Some? {
        this.desc := desc.value;
      }
      QueueEnd();
    }

    method EndMessageAndLazyClose(end: Option<Body>)
      modifies this`ret, this`endMsg, this`lazyClose, channel`futures
      ensures Value() == old(Value()).(ret := Success, endMsg := end, lazyClose := true)
      ensures channel.futures == old(channel.futures) + [this]
    {
      lazyClose := true;
      EndWith(end);
    }

    /** The queued part of every end. */
    method RunEnd()
      modifies channel`trace
      ensures channel.trace == old(channel.trace) + Deeds(Value(), channel.est)
    {
      if ret == Failure {
        if !channel.est {
          channel.Do(Finish);
          return;
        }
        if !lazyClose {
          channel.Do(Close);
        } else {
          channel.Do(LazyClose);
        }
        channel.Do(Finish);
        return;
      }
      if !channel.est {
        channel.Do(Finish);
        return;
      }
      channel.SendEnd(this);
      if lazyClose {
        channel.Do(LazyClose);
      }
    }
  }

  /** The passive side of a channel between events. An end changes the transaction at once and is
      carried out later, by what the transaction says then. */
  datatype Line = Line(
    est: bool, passives: seq<PassiveTx>, futures: seq<nat>, ran: seq<Ran>, sent: seq<Sent>, finished: seq<nat>)

  /** One executed end: the transaction as it was, and whether the channel was established. */
  datatype Ran = Ran(p: nat, tx: PassiveTx, est: bool)

  datatype Sent = Sent(p: nat, pdu: XscPdu)

  datatype LineEvent =
    | Arrive(origin: nat, dtid: nat)
    | CallEnd(
        p: nat, ret: Ret, desc: string, endMsg: Option<Body>, rawMsg: Option<Body>, ooob: Option<Oob>, lazyClose: bool)
    | RunFuture
    | Up
    | Down

  predicate CanStep(l: Line, e: LineEvent) {
    match e
    case CallEnd(p, _, _, _, _, _, _) => p < |l.passives|
    case RunFuture => l.futures != [] && l.futures[0] < |l.passives|
    case _ => true
  }

  function LineStep(l: Line, e: LineEvent): Line
    requires CanStep(l, e)
  {
    match e
    case Arrive(origin, dtid) =>
      l.(passives := l.passives + [PassiveTx(origin, dtid, Success, "", None, None, None, false)])
    case CallEnd(p, ret, desc, endMsg, rawMsg, ooob, lazyClose) =>
      var t := l.passives[p];
      var t' := PassiveTx(t.origin, t.dtid, ret, desc, endMsg, rawMsg, ooob, lazyClose);
      l.(passives := l.passives[p := t'], futures := l.futures + [p])
    case RunFuture =>
      var p := l.futures[0];
      var t := l.passives[p];
      var ds := Deeds(t, l.est);
      l.(futures := l.futures[1..], ran := l.ran + [Ran(p, t, l.est)],
         finished := l.finished + Finishes(p, ds), sent := l.sent + Sends(p, ds))
    case Up => l.(est := true)
    case Down => l.(est := false)
  }

  /** What one executed end should have sent. */
  function Reply(r: Ran): seq<Sent> {
    if r.est && r.tx.ret != Failure then [Sent(r.p, EndPdu(r.tx))] else []
  }

  /** What a sequence of executed ends should have sent: one END for each whose outcome was not a
      failure and whose channel was established, in order. */
  function Replies(ran: seq<Ran>): seq<Sent> {
    if ran == [] then []
    else Reply(ran[0]) + Replies(ran[1..])
  }

  function Who(ran: seq<Ran>): seq<nat> {
    if ran == [] then [] else [ran[0].p] + Who(ran[1..])
  }

  lemma {:induction false} RepliesSnoc(ran: seq<Ran>, r: Ran)
    ensures Replies(ran + [r]) == Replies(ran) + Replies([r]) && Who(ran + [r]) == Who(ran) + [r.p]
  {
    hide EndPdu;
    if ran == [] {
      assert ran + [r] == [r] && [r][1..] == [];
    } else {
      RepliesSnoc(ran[1..], r);
      DropAppend(ran, [r], 1);
      Append3(Reply(ran[0]), Replies(ran[1..]), Replies([r]));
      Append3([ran[0].p], Who(ran[1..]), [r.p]);
    }
  }

  ghost predicate Accounted(l: Line) {
    && l.finished == Who(l.ran) && l.sent == Replies(l.ran)
    && (forall i | 0 <= i < |l.futures| :: l.futures[i] < |l.passives|)
    && (forall i | 0 <= i < |l.sent| :: l.sent[i].p < |l.passives| && l.sent[i].pdu.trans.Some?
          && l.sent[i].pdu.trans.value.dtid == l.passives[l.sent[i].p].dtid)
  }

  /** Every step keeps the accounts: each executed end finished its transaction once, and the ENDs
      sent are exactly those due, none while the channel was not established. */
  lemma LineKeeps(l: Line, e: LineEvent)
    requires Accounted(l) && CanStep(l, e)
    ensures Accounted(LineStep(l, e))
    ensures e.RunFuture? ==> |LineStep(l, e).finished| == |l.finished| + 1
    ensures |LineStep(l, e).sent| > |l.sent| ==>
              e.RunFuture? && l.est && l.passives[l.futures[0]].ret != Failure
  {
    hide EndPdu;
    match e
    case RunFuture => RunFutureKeeps(l);
    case CallEnd(p, _, _, _, _, _, _) =>
      var l' := LineStep(l, e);
      assert forall i | 0 <= i < |l.passives| :: l'.passives[i].dtid == l.passives[i].dtid;
    case _ =>
  }

  ghost predicate CanRun(l: Line, es: seq<LineEvent>)
    decreases |es|
  {
    es == [] || (CanStep(l, es[0]) && CanRun(LineStep(l, es[0]), es[1..]))
  }

  ghost function LineRun(l: Line, es: seq<LineEvent>): Line
    requires CanRun(l, es)
    decreases |es|
  {
    if es == [] then l else LineRun(LineStep(l, es[0]), es[1..])
  }

  /** The transactions that were ended, once for each call. */
  function Called(es: seq<LineEvent>): seq<nat> {
    if es == [] then [] else CalledBy(es[0]) + Called(es[1..])
  }

  function CalledBy(e: LineEvent): seq<nat> {
    if e.CallEnd? then [e.p] else []
  }

  lemma StepQueue(l: Line, e: LineEvent)
    requires CanStep(l, e)
    ensures LineStep(l, e).finished + LineStep(l, e).futures == l.finished + l.futures + CalledBy(e)
  {
    if e.RunFuture? {
      RunFutureIs(l);
    } else if e.CallEnd? {
      Append3(l.finished, l.futures, [e.p]);
    }
  }

  /** Over any run of calls to end, executed ends, disconnections and reconnections: every call is
      executed and finished once, in the order of the calls, or is still queued; the ENDs sent are
      exactly those due, in order, each to the id of the BEGIN it answers. */
  lemma {:induction false} EveryEndAccounted(l: Line, es: seq<LineEvent>)
    requires Accounted(l) && CanRun(l, es)
    ensures var r := LineRun(l, es);
            && r.finished + r.futures == l.finished + l.futures + Called(es)
            && Accounted(r)
    decreases |es|
  {
    hide LineStep, CanStep, Accounted, CalledBy;
    if es == [] {
      assert l.finished + l.futures + [] == l.finished + l.futures;
    } else {
      LineKeeps(l, es[0]);
      StepQueue(l, es[0]);
      EveryEndAccounted(LineStep(l, es[0]), es[1..]);
      Append3(l.finished + l.futures, CalledBy(es[0]), Called(es[1..]));
    }
  }

  // ---- How many ENDs a BEGIN can get ----

  function Times(s: seq<nat>, p: nat): nat {
    if s == [] then 0 else (if s[0] == p then 1 else 0) + Times(s[1..], p)
  }

  function SentBy(sent: seq<Sent>, p: nat): nat {
    if sent == [] then 0 else (if sent[0].p == p then 1 else 0) + SentBy(sent[1..], p)
  }

  /** The ENDs owed by transaction p: its executed ends that were no failure on an established channel. */
  function Owed(ran: seq<Ran>, p: nat): nat {
    if ran == [] then 0
    else (if ran[0].p == p && ran[0].est && ran[0].tx.ret != Failure then 1 else 0) + Owed(ran[1..], p)
  }

  lemma {:induction false} TimesAppend(a: seq<nat>, b: seq<nat>, p: nat)
    ensures Times(a + b, p) == Times(a, p) + Times(b, p)
  {
    if a == [] {
      assert a + b == b;
    } else {
      TimesAppend(a[1..], b, p);
      assert (a + b)[1..] == a[1..] + b;
    }
  }

  lemma {:induction false} RepliesBy(ran: seq<Ran>, p: nat)
    ensures SentBy(Replies(ran), p) == Owed(ran, p) <= Times(Who(ran), p)
  {
    hide EndPdu;
    if ran != [] {
      RepliesBy(ran[1..], p);
      var rest := Replies(ran[1..]);
      assert Replies(ran) == rest || Replies(ran)[1..] == rest;
    }
  }

  /** On a fresh line: a BEGIN is answered once for each call of end on its transaction that was
      executed without failure on an established channel; never more often than end was called, ends
      still queued not counted; and once the queue is empty every call has been executed. */
  lemma EndsPerBegin(est: bool, es: seq<LineEvent>, p: nat)
    requires CanRun(Line(est, [], [], [], [], []), es)
    ensures var r := LineRun(Line(est, [], [], [], [], []), es);
            && SentBy(r.sent, p) == Owed(r.ran, p)
            && SentBy(r.sent, p) + Times(r.futures, p) <= Times(Called(es), p)
            && (r.futures == [] ==> Times(Who(r.ran), p) == Times(Called(es), p))
  {
    var l := Line(est, [], [], [], [], []);
    EveryEndAccounted(l, es);
    var r := LineRun(l, es);
    assert l.finished + l.futures + Called(es) == Called(es);
    TimesAppend(r.finished, r.futures, p);
    RepliesBy(r.ran, p);
  }

  /** Nothing stops a second call of end from answering a second time. */
  lemma TwoEndsTwoReplies(e: LineEvent)
    requires e.CallEnd? && e.p == 0 && e.ret != Failure
    ensures var es := [Arrive(0, 1), e, e, RunFuture, RunFuture];
            CanRun(Line(true, [], [], [], [], []), es)
                && SentBy(LineRun(Line(true, [], [], [], [], []), es).sent, 0) == 2
  {
    hide Deeds, Finishes, Sends, EndPdu;
    var l := Line(true, [], [], [], [], []);
    var t := PassiveTx(0, 1, e.ret, e.desc, e.endMsg, e.rawMsg, e.ooob, e.lazyClose);
    var l3 := Line(true, [t], [0, 0], [], [], []);
    assert LineStep(LineStep(LineStep(l, Arrive(0, 1)), e), e) == l3;
    RunFutureIs(l3);
    RunFutureIs(LineStep(l3, RunFuture));
    var sent := LineStep(LineStep(l3, RunFuture), RunFuture).sent;
    assert sent == [Sent(0, EndPdu(t)), Sent(0, EndPdu(t))] && sent[1..] == [Sent(0, EndPdu(t))]
        && sent[1..][1..] == [];
    hide LineStep;
    RunCons(LineStep(l3, RunFuture), RunFuture, []);
    RunCons(l3, RunFuture, [RunFuture]);
    RunCons(LineStep(LineStep(l, Arrive(0, 1)), e), e, [RunFuture, RunFuture]);
    RunCons(LineStep(l, Arrive(0, 1)), e, [e, RunFuture, RunFuture]);
    RunCons(l, Arrive(0, 1), [e, e, RunFuture, RunFuture]);
    var last: seq<LineEvent> := [RunFuture];
    assert [RunFuture] + [] == last && [RunFuture] + last == [RunFuture, RunFuture];
    assert [e] + [RunFuture, RunFuture] == [e, RunFuture, RunFuture];
    assert [e] + [e, RunFuture, RunFuture] == [e, e, RunFuture, RunFuture];
    assert [Arrive(0, 1)] + [e, e, RunFuture, RunFuture] == [Arrive(0, 1), e, e, RunFuture, RunFuture];
    assert SentBy(sent, 0) == 1 + SentBy(sent[1..], 0);
  }

  lemma RunCons(l: Line, e: LineEvent, es: seq<LineEvent>)
    requires CanStep(l, e) && CanRun(LineStep(l, e), es)
    ensures CanRun(l, [e] + es) && LineRun(l, [e] + es) == LineRun(LineStep(l, e), es)
  {
    hide LineStep, CanStep;
    assert ([e] + es)[1..] == es;
  }

  /** What executing the front of the queue amounts to. */
  lemma RunFutureIs(l: Line)
    requires CanStep(l, RunFuture)
    ensures var p, t := l.futures[0], l.passives[l.futures[0]];
            LineStep(l, RunFuture) == l.(
              futures := l.futures[1..], ran := l.ran + [Ran(p, t, l.est)], finished := l.finished + [p],
              sent := l.sent + if l.est && t.ret != Failure then [Sent(p, EndPdu(t))] else [])
  {
    DeedsExact(l.futures[0], l.passives[l.futures[0]], l.est);
    hide Deeds, Finishes, Sends, EndPdu;
  }

  lemma RunFutureKeeps(l: Line)
    requires Accounted(l) && CanStep(l, RunFuture)
    ensures Accounted(LineStep(l, RunFuture))
    ensures |LineStep(l, RunFuture).finished| == |l.finished| + 1
    ensures |LineStep(l, RunFuture).sent| > |l.sent| ==> l.est && l.passives[l.futures[0]].ret != Failure
  {
    var r := Ran(l.futures[0], l.passives[l.futures[0]], l.est);
    RunFutureIs(l);
    RepliesSnoc(l.ran, r);
    RepliesOne(r);
    EndPduIs(r.tx);
    hide EndPdu, LineStep, Replies, Reply, Who;
    var more: seq<Sent> := if r.est && r.tx.ret != Failure then [Sent(r.p, EndPdu(r.tx))] else [];
    assert forall i | 0 <= i < |l.futures[1..]| :: l.futures[1..][i] == l.futures[i + 1];
    assert forall i | 0 <= i < |l.sent + more| ::
      if i < |l.sent| then (l.sent + more)[i] == l.sent[i] else (l.sent + more)[i] == Sent(r.p, EndPdu(r.tx));
  }

  lemma RepliesOne(r: Ran)
    ensures Replies([r]) == if r.est && r.tx.ret != Failure then [Sent(r.p, EndPdu(r.tx))] else []
  {
    hide EndPdu;
    assert [r][1..] == [] && Replies([]) == [];
    assert Replies([r]) == Reply(r) + [];
  }

  lemma EndPduIs(t: PassiveTx)
    ensures EndPdu(t).trans.Some? && EndPdu(t).trans.value.dtid == t.dtid
  {
  }

  /** The reply's out-of-band list on the initiative side: its entries in the order they were added. */
  lemma ReplyOobArrives(t: PassiveTx, oob: Oob, x: Tx, parses: Body -> bool, now: nat, tag: byte)
    requires t.ooob == Added(None, oob) && x.ioob.None?
    ensures var got := Replied(x, EndPdu(t), parses, now).0.ioob;
            (if got.None? then None else FirstMatch(got.value, tag)) == FirstMatch(oob, tag)
  {
    assert [] + oob == oob;
  }

  /** The reply itself: outcome, description and message are those the passive side ended with; a
      message that does not parse arrives as an exception. */
  lemma ReplyArrives(t: PassiveTx, x: Tx, parses: Body -> bool, now: nat)
    ensures var (u, ok) := Replied(x, EndPdu(t), parses, now);
            var body := if t.rawMsg.Some? then t.rawMsg else t.endMsg;
            && (ok ==> u.ret == t.ret && u.desc == t.desc)
            && (body.None? || body.value.msg == "" ==> ok && u.endMsg == x.endMsg && u.rawMsg == x.rawMsg)
            && (body.Some? && body.value.msg != "" ==>
                  && (x.raw ==> ok && u.rawMsg == body)
                  && (!x.raw ==> (ok <==> parses(body.value)))
                  && (!x.raw && ok ==> u.endMsg == body)
                  && (!ok ==> u.ret == Exception && u.endMsg == x.endMsg))
  {
  }
}
