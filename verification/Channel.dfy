/** The channel object: the transaction table as the code keeps it, in a map of shared objects. */
module Channel {
  import opened Codec
  import opened Dispatch
  import opened Proto
  import opened Registry
  import opened Trans
  import opened TransTable

  /** The values of the transactions in the map. */
  ghost function Snapshot(m: map<nat, XmsgImTrans>): map<nat, Tx>
    reads m.Values
  {
    map k | k in m :: m[k].Value()
  }

  lemma SnapshotKeys(m: map<nat, XmsgImTrans>)
    ensures Snapshot(m).Keys == m.Keys
  {
  }

  lemma SnapshotIs(m: map<nat, XmsgImTrans>, p: map<nat, Tx>)
    requires m.Keys == p.Keys && forall k | k in m :: m[k].Value() == p[k]
    ensures Snapshot(m) == p
  {
  }

  /** No object is in the map twice. */
  ghost predicate Injective(m: map<nat, XmsgImTrans>) {
    forall j, k | j in m && k in m && j != k :: m[j] != m[k]
  }

  ghost predicate Holds(m: map<nat, XmsgImTrans>, t: XmsgImTrans) {
    exists k :: k in m && m[k] == t
  }

  lemma InjectiveUpdate(m: map<nat, XmsgImTrans>, k: nat, t: XmsgImTrans)
    requires Injective(m) && !Holds(m, t)
    ensures Injective(m[k := t])
  {
  }

  lemma InjectiveRemove(m: map<nat, XmsgImTrans>, ks: set<nat>)
    requires Injective(m)
    ensures Injective(m - ks)
    ensures forall j, k | j in m && k in m && j != k :: m[j] != m[k]
  {
  }

  lemma SnapshotUpdate(m: map<nat, XmsgImTrans>, p: map<nat, Tx>, k: nat, t: XmsgImTrans)
    requires m.Keys == p.Keys && forall j | j in m :: m[j].Value() == p[j]
    ensures Snapshot(m[k := t]) == p[k := t.Value()]
  {
  }

  class XmsgImChannel {
    const client: Client
    var transInit: map<nat, XmsgImTrans>
    var tidSeq: nat
    var lastCheckTransTs: nat
    var sent: seq<XscPdu>
    var begun: nat
    var est: bool
    var usr: bool
    var pongs: nat
    var started: seq<Served>
    var called: seq<Served>
    var notified: seq<Body>
    ghost var done: seq<Ending>
    ghost var lost: seq<Tx>

    ghost predicate Valid()
      reads this
    {
      tidSeq < TIDS && Injective(transInit)
    }

    ghost function View(ending: seq<Ending>): Table
      reads this, transInit.Values
    {
      Table(Snapshot(transInit), tidSeq, lastCheckTransTs, begun, ending, done, lost, sent)
    }

    ghost function Look(now: nat): Actor
      reads this, transInit.Values
    {
      Actor(View([]), usr, now, pongs, started, called, notified)
    }

    /** `check` is what lastCheckTransTs starts with, which this constructor leaves to its heirs; `est`
        likewise. */
    constructor (client: Client, random: nat, check: nat, est: bool)
      requires random < TIDS
      ensures Valid() && this.client == client && this.est == est
      ensures forall now :: Look(now) == Actor(Initial(random, check), false, now, 0, [], [], [])
    {
      this.est := est;
      usr, pongs, started, called, notified := false, 0, [], [], [];
      this.client := client;
      transInit, tidSeq, lastCheckTransTs, sent := map[], random, check, [];
      begun, done, lost := 0, [], [];
    }

    method GenTid() returns (tid: nat)
      modifies this`tidSeq
      ensures tid == tidSeq == (old(tidSeq) + 1) % 0x1_0000_0000
    {
      tidSeq := (tidSeq + 1) % TIDS;
      tid := tidSeq;
    }

    static method Number(t: XmsgImTrans, id: nat, stid: nat, now: nat)
      modifies t`id, t`stid, t`its
      ensures t.Value() == old(t.Value()).(id := id, stid := stid, its := now) && t.stid == stid
    {
      t.id, t.stid, t.its := id, stid, now;
    }

    method FutureBegin(t: XmsgImTrans, now: nat)
      requires Valid() && !Holds(transInit, t) && t.Value().calls == 0
      modifies this`transInit, this`tidSeq, this`sent, this`begun, this`lost, t`id, t`stid, t`its
      ensures Valid() && View([]) == Step(client, old(View([])), Start(old(t.Value()), now))
      ensures transInit == old(transInit)[tidSeq := t]
    {
      hide BeginPdu, Injective, XmsgImTrans.Value;
      ghost var before, p := transInit, Snapshot(transInit);
      var tid := GenTid();
      if tid in transInit {
        lost := lost + [transInit[tid].Value()];
      }
      Number(t, begun, tid, now);
      assert forall j | j in before :: before[j].Value() == p[j];
      begun := begun + 1;
      transInit := transInit[t.stid := t];
      sent := sent + [BeginPdu(t.Value())];
      InjectiveUpdate(before, tid, t);
      SnapshotUpdate(before, p, tid, t);
    }

    /** begin and its forward forms, with the queued future run. */
    method Begin(r: Request, now: nat)
      requires Valid()
      modifies this`transInit, this`tidSeq, this`sent, this`begun, this`lost
      ensures Valid() && View([]) == Step(client, old(View([])), Start(Opened(r), now))
      ensures tidSeq in transInit && fresh(transInit[tidSeq])
      ensures transInit[tidSeq].gts == r.gts && transInit[tidSeq].raw == r.raw
      ensures transInit[tidSeq].beginMsg == r.beginMsg
      ensures forall k | k in transInit ::
                (k in old(transInit) && transInit[k] == old(transInit)[k]) || fresh(transInit[k])
    {
      hide BeginPdu, Injective, XmsgImTrans.Value, Opened, Step;
      ghost var p := Snapshot(transInit);
      var t := Open(r);
      SnapshotIs(transInit, p);
      FutureBegin(t, now);
    }

    /** What a callback begins in turn. */
    method Callback(rs: seq<Request>, now: nat)
      requires Valid()
      modifies this`transInit, this`tidSeq, this`sent, this`begun, this`lost
      ensures Valid() && View([]) == StartAll(client, old(View([])), rs, now)
      ensures forall k | k in transInit ::
                (k in old(transInit) && transInit[k] == old(transInit)[k]) || fresh(transInit[k])
    {
      hide Step, Injective, XmsgImTrans.Value, Snapshot, Opened;
      assert rs[0..] == rs;
      for i := 0 to |rs|
        invariant Valid()
        invariant StartAll(client, View([]), rs[i..], now) == StartAll(client, old(View([])), rs, now)
        invariant forall k | k in transInit ::
                    (k in old(transInit) && transInit[k] == old(transInit)[k]) || fresh(transInit[k])
      {
        assert rs[i..][0] == rs[i] && rs[i..][1..] == rs[i + 1..];
        Begin(rs[i], now);
      }
    }

    /** An END whose id is not in the table is ignored; any other removes its transaction, ends it
        and makes its callback, and answers whether the body was understood. */
    method EvnEnd(pdu: XscPdu, now: nat) returns (ok: bool)
      requires Valid() && pdu.trans.Some?
      modifies this`transInit, this`tidSeq, this`sent, this`begun, this`lost, this`done, transInit.Values
      ensures Valid() && (Look(now), ok) == HandleEnd(client, old(Look(now)), pdu)
    {
      hide Injective, XmsgImTrans.Value, Replied, Step, Snapshot;
      var k := pdu.trans.value.dtid;
      SnapshotKeys(transInit);
      if k !in transInit {
        return true;
      }
      var t: XmsgImTrans;
      t, ok := EndPending(pdu, now);
      Callback(client.react(Ending(t.Value(), ByReply)), now);
    }

    method EndPending(pdu: XscPdu, now: nat) returns (t: XmsgImTrans, ok: bool)
      requires Valid() && pdu.trans.Some? && pdu.trans.value.dtid in transInit
      modifies this`transInit, this`done, transInit.Values
      ensures Valid() && pdu.trans.value.dtid in old(View([])).pending
      ensures View([]) == Step(client, old(View([])), Reply(pdu, now))
      ensures ok == Replied(old(View([])).pending[pdu.trans.value.dtid], pdu, client.parses, now).1
      ensures |done| > 0 && done[|done| - 1] == Ending(t.Value(), ByReply)
    {
      hide Injective, XmsgImTrans.Value, Replied;
      var k := pdu.trans.value.dtid;
      ghost var before, p := transInit, Snapshot(transInit);
      t := transInit[k];
      transInit := transInit - {k};
      InjectiveRemove(before, {k});
      ok := t.EndByReply(pdu, client.parses, now);
      assert forall j | j in before && j != k :: before[j].Value() == p[j];
      SnapshotIs(transInit, p - {k});
      done := done + [Ending(t.Value(), ByReply)];
    }

    /** Without a user where one is needed, the transaction has been started but is not called. */
    method EvnBegin(o: Office, mgr: XmsgImMsgMgr, pdu: XscPdu, now: nat) returns (ok: bool)
      requires Valid() && pdu.trans.Some?
      modifies this`transInit, this`tidSeq, this`sent, this`begun, this`lost
      modifies this`started, this`called, this`usr
      ensures Valid()
      ensures (Look(now), ok) == HandleBegin(o, Mgr(mgr.msgs, mgr.itcpCb), client, old(Look(now)), pdu)
    {
      hide StartAll, Injective, Snapshot, XmsgImTrans.Value;
      var x := pdu.trans.value;
      var stub := mgr.GetMsgStub(x.body.msg);
      if stub.None? {
        return false;
      }
      if stub.value.begin.None? || !(x.body.dat == [] || o.parse(stub.value.begin.value, x.body.dat)) {
        return false;
      }
      var t := ServedOf(pdu);
      started := started + [t];
      if stub.value.auth && !usr {
        return false;
      }
      called := called + [t];
      Serve(o.serve(t), now);
      return true;
    }

    /** The callback of a message. */
    method Serve(v: Service, now: nat)
      requires Valid()
      modifies this`transInit, this`tidSeq, this`sent, this`begun, this`lost, this`usr
      ensures Valid() && Look(now) == AfterCallback(client, old(Look(now)), v)
    {
      hide StartAll, Injective, Snapshot, XmsgImTrans.Value;
      usr := usr || v.binds;
      Callback(v.requests, now);
    }

    method EvnUnidirection(o: Office, mgr: XmsgImMsgMgr, pdu: XscPdu, now: nat) returns (ok: bool)
      requires Valid() && pdu.trans.Some?
      modifies this`transInit, this`tidSeq, this`sent, this`begun, this`lost
      modifies this`notified, this`usr
      ensures Valid()
      ensures (Look(now), ok) == HandleUnidirection(o, Mgr(mgr.msgs, mgr.itcpCb), client, old(Look(now)), pdu)
    {
      hide StartAll, Injective, Snapshot, XmsgImTrans.Value;
      var x := pdu.trans.value;
      var stub := mgr.GetMsgStub(x.body.msg);
      if stub.None? {
        return false;
      }
      if stub.value.uni.None? || !(x.body.dat == [] || o.parse(stub.value.uni.value, x.body.dat)) {
        return false;
      }
      if stub.value.auth && !usr {
        return false;
      }
      notified := notified + [x.body];
      Serve(o.notify(x.body), now);
      return true;
    }

    /** `o` tells the constants, the parser and the callbacks; the registry is the given object. */
    method EvnMsg(o: Office, mgr: XmsgImMsgMgr?, pdu: XscPdu, now: nat) returns (ok: bool)
      requires Valid()
      modifies this`transInit, this`tidSeq, this`sent, this`begun, this`lost, this`done, transInit.Values
      modifies this`pongs, this`started, this`called, this`notified, this`usr
      ensures Valid()
      ensures var o' := o.(mgr := if mgr == null then None else Some(Mgr(mgr.msgs, mgr.itcpCb)));
              (Look(now), ok) == Handle(o', client, old(Look(now)), pdu)
    {
      hide Route, Injective, Snapshot, XmsgImTrans.Value;
      if pdu.indicator & o.ping != 0 {
        if pdu.indicator == o.pong {
          return true;
        }
        pongs := pongs + 1;
        return true;
      }
      if pdu.trans.None? {
        return false;
      }
      if mgr == null {
        return false;
      }
      var rt := mgr.Itcp(pdu);
      if rt == Taken {
        return true;
      } else if rt == Refused {
        return true;
      } else if rt == Failed {
        return false;
      }
      ok := Switch(o.(mgr := Some(Mgr(mgr.msgs, mgr.itcpCb))), mgr, pdu, now);
    }

    /** The switch at the end of evnMsg. */
    method Switch(o: Office, mgr: XmsgImMsgMgr, pdu: XscPdu, now: nat) returns (ok: bool)
      requires Valid() && pdu.trans.Some?
      modifies this`transInit, this`tidSeq, this`sent, this`begun, this`lost, this`done, transInit.Values
      modifies this`started, this`called, this`notified, this`usr
      ensures Valid() && (Look(now), ok) == Route(o, Mgr(mgr.msgs, mgr.itcpCb), client, old(Look(now)), pdu)
    {
      hide HandleBegin, HandleEnd, HandleUnidirection, Injective, Snapshot, XmsgImTrans.Value;
      ok := false;
      match pdu.trans.value.kind {
        case Begin => ok := EvnBegin(o, mgr, pdu, now);
        case End => ok := EvnEnd(pdu, now);
        case Unidirection => ok := EvnUnidirection(o, mgr, pdu, now);
        case Partial => ok := true;
        case Unknown =>
      }
    }

    /** The first loop of checkTransInit, with the present time, and of cleanTransInit, without. */
    method TakeOut(now: Option<nat>) returns (tmp: seq<XmsgImTrans>, ghost order: seq<nat>)
      requires Valid()
      modifies this`transInit
      ensures Valid() && Enumerates(order, Falling(old(transInit), client.tm, now))
      ensures Matches(tmp, order, old(transInit)) && transInit == old(transInit) - Keys(order)
    {
      hide Injective;
      tmp, order := [], [];
      ghost var m := transInit;
      var todo := transInit.Keys;
      while todo != {}
        invariant todo <= transInit.Keys && transInit == m - Keys(order)
        invariant Matches(tmp, order, m)
        invariant forall k :: k in order <==> k in Falling(m, client.tm, now) && k !in todo
        invariant forall i, j | 0 <= i < j < |order| :: order[i] != order[j]
        decreases |todo|
      {
        var k :| k in todo;
        todo := todo - {k};
        var t := transInit[k];
        if now.Some? && now.value < t.gts + client.tm {
          continue;
        }
        tmp := tmp + [t];
        order := order + [k];
        transInit := transInit - {k};
      }
      InjectiveRemove(m, Keys(order));
    }

    /** The second loop of both. */
    method EndAll(tmp: seq<XmsgImTrans>, cause: Cause, now: nat)
      requires Valid() && Apart(tmp, transInit)
      modifies this`transInit, this`tidSeq, this`sent, this`begun, this`lost, this`done, set t | t in tmp
      ensures Valid() && View([]) == Settle(client, old(View(Waiting(tmp, cause))), now)
    {
      hide Injective, XmsgImTrans.Value, Step, Snapshot;
      assert tmp[0..] == tmp;
      for i := 0 to |tmp|
        invariant Valid() && Apart(tmp[i..], transInit)
        invariant forall k | k in transInit ::
                    (k in old(transInit) && transInit[k] == old(transInit)[k]) || fresh(transInit[k])
        invariant Settle(client, View(Waiting(tmp[i..], cause)), now)
                  == Settle(client, old(View(Waiting(tmp, cause))), now)
      {
        assert tmp[i..][0] == tmp[i] && tmp[i..][1..] == tmp[i + 1..];
        EndOne(tmp[i..], cause, now);
      }
    }

    /** One turn of it: the transaction ends, and its callback is made. */
    method EndOne(tmp: seq<XmsgImTrans>, cause: Cause, now: nat)
      requires Valid() && tmp != [] && Apart(tmp, transInit)
      modifies this`transInit, this`tidSeq, this`sent, this`begun, this`lost, this`done, tmp[0]
      ensures Valid() && Apart(tmp[1..], transInit)
      ensures forall k | k in transInit ::
                (k in old(transInit) && transInit[k] == old(transInit)[k]) || fresh(transInit[k])
      ensures Settle(client, View(Waiting(tmp[1..], cause)), now) == Settle(client, old(View(Waiting(tmp, cause))), now)
    {
      hide XmsgImTrans.Value, Step, Snapshot, Settle, StartAll, Injective;
      ghost var s := View(Waiting(tmp, cause));
      var e := FinishOne(tmp, cause, now);
      ghost var f, w := View([]), Waiting(tmp[1..], cause);
      WaitingShape(tmp[1..], cause);
      SettleStep(client, s, f, w, e, now);
      Callback(client.react(e), now);
      WaitingIs(tmp[1..], cause, w);
    }

    method FinishOne(tmp: seq<XmsgImTrans>, cause: Cause, now: nat) returns (e: Ending)
      requires Valid() && tmp != [] && Apart(tmp, transInit)
      modifies this`done, tmp[0]
      ensures View(Waiting(tmp[1..], cause)) == Step(client, old(View(Waiting(tmp, cause))), Finish(now))
      ensures e == Local(old(Waiting(tmp, cause))[0], now)
    {
      hide XmsgImTrans.Value, Injective;
      ghost var s := View(Waiting(tmp, cause));
      WaitingShape(tmp, cause);
      tmp[0].EndLocally(TimedOut, if cause.ByClean? then "local clean" else "local timeout", now);
      SnapshotIs(transInit, s.pending);
      WaitingIs(tmp[1..], cause, s.ending[1..]);
      e := Ending(tmp[0].Value(), cause);
      done := done + [e];
    }

    method CheckTransInit(now: nat) returns (ghost order: seq<nat>)
      requires Valid()
      modifies this`transInit, this`tidSeq, this`sent, this`begun, this`lost, this`done
      modifies this`lastCheckTransTs, transInit.Values
      ensures Valid() && Enabled(client, old(View([])), Sweep(now, order))
      ensures now < old(lastCheckTransTs) + 10_000 ==> View([]) == old(View([]))
      ensures now >= old(lastCheckTransTs) + 10_000 ==> lastCheckTransTs == now
      ensures View([]) == Settle(client, Step(client, old(View([])), Sweep(now, order)), now)
    {
      hide Settle, XmsgImTrans.Value, Snapshot, Listing, Waiting;
      order := [];
      if now < lastCheckTransTs + 10 * SECOND {
        SettleNothing(client, View([]), now);
        return;
      }
      ghost var m, s := transInit, View([]);
      lastCheckTransTs := now;
      var tmp: seq<XmsgImTrans>;
      tmp, order := TakeOut(Some(now));
      FallingIs(client, s, m, Some(now));
      TakenOut(m, tmp, order, ByTimeout);
      assert View(Waiting(tmp, ByTimeout)) == Step(client, s, Sweep(now, order));
      EndAll(tmp, ByTimeout, now);
    }

    /** On a channel that is not established nothing is swept. */
    method Dida(now: nat) returns (ghost order: seq<nat>)
      requires Valid()
      modifies this`transInit, this`tidSeq, this`sent, this`begun, this`lost, this`done
      modifies this`lastCheckTransTs, transInit.Values
      ensures Valid()
      ensures !est ==> View([]) == old(View([]))
      ensures est ==>
                && Enabled(client, old(View([])), Sweep(now, order))
                && View([]) == Settle(client, Step(client, old(View([])), Sweep(now, order)), now)
    {
      hide *;
      order := [];
      if !est {
        return;
      }
      order := CheckTransInit(now);
    }

    method CleanTransInit(now: nat) returns (ghost order: seq<nat>)
      requires Valid()
      modifies this`transInit, this`tidSeq, this`sent, this`begun, this`lost, this`done, transInit.Values
      ensures Valid() && Enabled(client, old(View([])), Clean(order))
      ensures View([]) == Settle(client, Step(client, old(View([])), Clean(order)), now)
    {
      hide Settle, XmsgImTrans.Value, Snapshot, Listing, Waiting;
      var tmp: seq<XmsgImTrans>;
      ghost var m, s := transInit, View([]);
      tmp, order := TakeOut(None);
      FallingIs(client, s, m, None);
      TakenOut(m, tmp, order, ByClean);
      assert View(Waiting(tmp, ByClean)) == Step(client, s, Clean(order));
      EndAll(tmp, ByClean, now);
    }
  }

  lemma SettleNothing(c: Client, s: Table, now: nat)
    requires s.ending == []
    ensures Settle(c, s, now) == s
  {
  }

  lemma SettleStep(c: Client, s: Table, f: Table, w: seq<Ending>, e: Ending, now: nat)
    requires s.ending != [] && f.ending == [] && Step(c, s, Finish(now)) == f.(ending := w)
              && e == Local(s.ending[0], now)
    ensures Settle(c, StartAll(c, f, c.react(e), now).(ending := w), now) == Settle(c, s, now)
  {
    StartAllEnding(c, f, c.react(e), now, w);
  }

  /** The keys a sweep or clean takes: those expired at `now`, or all. */
  ghost function Falling(m: map<nat, XmsgImTrans>, tm: nat, now: Option<nat>): set<nat> {
    set k | k in m && (now.None? || now.value >= m[k].gts + tm)
  }

  ghost predicate Matches(tmp: seq<XmsgImTrans>, order: seq<nat>, m: map<nat, XmsgImTrans>) {
    |tmp| == |order| && forall i | 0 <= i < |order| :: order[i] in m && tmp[i] == m[order[i]]
  }

  /** Distinct objects, none of which is in the map. */
  ghost predicate Apart(tmp: seq<XmsgImTrans>, m: map<nat, XmsgImTrans>) {
    && (forall i, j | 0 <= i < j < |tmp| :: tmp[i] != tmp[j])
    && (forall i, k | 0 <= i < |tmp| && k in m :: tmp[i] != m[k])
  }

  ghost function Waiting(tmp: seq<XmsgImTrans>, cause: Cause): seq<Ending>
    reads set t | t in tmp
  {
    if tmp == [] then [] else [Ending(tmp[0].Value(), cause)] + Waiting(tmp[1..], cause)
  }

  lemma {:induction false} WaitingIs(tmp: seq<XmsgImTrans>, cause: Cause, es: seq<Ending>)
    requires |es| == |tmp| && forall i | 0 <= i < |tmp| :: es[i] == Ending(tmp[i].Value(), cause)
    ensures Waiting(tmp, cause) == es
  {
    if tmp != [] { WaitingIs(tmp[1..], cause, es[1..]); }
  }

  lemma {:induction false} WaitingShape(tmp: seq<XmsgImTrans>, cause: Cause)
    ensures |Waiting(tmp, cause)| == |tmp|
    ensures forall i | 0 <= i < |tmp| :: Waiting(tmp, cause)[i] == Ending(tmp[i].Value(), cause)
  {
    if tmp != [] { WaitingShape(tmp[1..], cause); }
  }

  lemma FallingIs(c: Client, s: Table, m: map<nat, XmsgImTrans>, now: Option<nat>)
    requires s.pending == Snapshot(m)
    ensures Falling(m, c.tm, now) == if now.Some? then Expired(c, s, now.value) else s.pending.Keys
  {
  }

  lemma TakenOut(m: map<nat, XmsgImTrans>, tmp: seq<XmsgImTrans>, order: seq<nat>, cause: Cause)
    requires Injective(m) && Matches(tmp, order, m) && forall i, j | 0 <= i < j < |order| :: order[i] != order[j]
    ensures Apart(tmp, m - Keys(order))
    ensures forall k | k in order :: k in m
    ensures Waiting(tmp, cause) == Listing(Snapshot(m), order, cause) == Listing(Snapshot(m), order, cause) + []
    ensures Snapshot(m - Keys(order)) == Snapshot(m) - Keys(order)
  {
    ListingIs(m, tmp, order, cause);
  }

  lemma {:induction false} ListingIs(m: map<nat, XmsgImTrans>, tmp: seq<XmsgImTrans>, order: seq<nat>, cause: Cause)
    requires Matches(tmp, order, m)
    ensures forall k | k in order :: k in m
    ensures Waiting(tmp, cause) == Listing(Snapshot(m), order, cause)
  {
    if order != [] {
      ListingIs(m, tmp[1..], order[1..], cause);
      assert forall k | k in order :: k == order[0] || k in order[1..];
    }
  }
}
