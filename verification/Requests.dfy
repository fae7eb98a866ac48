/** From request to entry, BEGIN, timeout and reply: what callers and callbacks ask for is what is
    begun. */
module Requests {
  import opened Codec
  import opened Dispatch
  import opened Proto
  import Registry
  import opened Trans
  import opened TransTable

  /** This PDU is the BEGIN of that request: its raw message or else its message, its out-of-band list
      behind the intercept entry of the 2ne form, and no header when there is neither. */
  ghost predicate Carries(p: XscPdu, r: Request, stid: nat) {
    && p.indicator == 0 && p.trans.Some?
    && p.trans.value.kind.Begin? && p.trans.value.stid == stid && p.trans.value.dtid == 0
    && (r.rawMsg.Some? ==> p.trans.value.body == r.rawMsg.value)
    && (r.rawMsg.None? && r.beginMsg.Some? ==> p.trans.value.body == r.beginMsg.value)
    && (r.intercept.None? && r.oob == [] ==> p.oob == None)
    && (r.intercept.None? && r.oob != [] ==> p.oob == Some(r.oob))
    && (r.intercept.Some? ==> p.oob == Some([(r.intercept.value, "enable")] + r.oob))
  }

  /** This transaction was begun for that request at that time. */
  ghost predicate Entered(t: Tx, r: Request, id: nat, stid: nat, now: nat) {
    && t.id == id && t.stid == stid && t.its == now
    && t.gts == r.gts && t.raw == r.raw && t.beginMsg == r.beginMsg && t.rawMsg == r.rawMsg
    && t.calls == 0 && t.ioob == None && t.endMsg == None
  }

  /** Between these two tables exactly these requests were begun, in order: each is on the wire under
      its own id, and in the table under it unless 2^32 were begun since. */
  ghost predicate BegunAll(t0: nat, s: Table, s': Table, rs: seq<Request>, now: nat) {
    && s'.begun == s.begun + |rs| && |s'.sent| == |s.sent| + |rs| && s'.sent[..|s.sent|] == s.sent
    && (forall i | 0 <= i < |rs| :: Carries(s'.sent[|s.sent| + i], rs[i], Tid(t0, s.begun + i)))
    && (forall i | 0 <= i < |rs| && s'.begun <= s.begun + i + TIDS :: InTable(t0, s', rs[i], s.begun + i, now))
  }

  ghost predicate InTable(t0: nat, s: Table, r: Request, id: nat, now: nat) {
    Tid(t0, id) in s.pending && Entered(s.pending[Tid(t0, id)], r, id, Tid(t0, id), now)
  }

  lemma OpenedIs(r: Request, id: nat, stid: nat, now: nat)
    ensures var t := Opened(r).(id := id, stid := stid, its := now);
            Entered(t, r, id, stid, now) && Carries(BeginPdu(t), r, stid)
  {
    assert [] + r.oob == r.oob;
    if r.intercept.Some? {
      var first: Oob := [(r.intercept.value, "enable")];
      assert [] + first == first && first + [] == first;
    }
  }

  /** One begin. */
  lemma BeginExact(c: Client, t0: nat, s: Table, r: Request, now: nat)
    requires Inv(t0, s)
    ensures var s' := Step(c, s, Start(Opened(r), now));
            && s'.begun == s.begun + 1 && s'.sent == s.sent + [s'.sent[|s.sent|]]
            && Carries(s'.sent[|s.sent|], r, Tid(t0, s.begun))
            && InTable(t0, s', r, s.begun, now)
  {
    NextTidIs(t0, s);
    OpenedIs(r, s.begun, Tid(t0, s.begun), now);
    hide Tid, BeginPdu, Opened;
  }

  /** A pending transaction is not touched while it stays pending. */
  lemma PendingUntouched(c: Client, t0: nat, s: Table, e: Event, id: nat)
    requires Inv(t0, s) && Enabled(c, s, e) && Pending(t0, s, id) && Pending(t0, Step(c, s, e), id)
    ensures Step(c, s, e).pending[Tid(t0, id)] == s.pending[Tid(t0, id)]
  {
    hide Tid;
  }

  /** What was pending in s is pending in s' unchanged, unless 2^32 were begun since. */
  ghost predicate Untouched(t0: nat, s: Table, s': Table) {
    s.begun <= s'.begun && forall id: nat | Pending(t0, s, id) && s'.begun <= id + TIDS ::
      Pending(t0, s', id) && s'.pending[Tid(t0, id)] == s.pending[Tid(t0, id)]
  }

  lemma StartUntouched(c: Client, t0: nat, s: Table, tx: Tx, now: nat)
    requires Inv(t0, s) && tx.calls == 0
    ensures Untouched(t0, s, Step(c, s, Start(tx, now)))
  {
    hide Inv;
    var s' := Step(c, s, Start(tx, now));
    StartKeyed(c, t0, s, tx, now);
    forall id: nat | Pending(t0, s, id) && s'.begun <= id + TIDS
      ensures Pending(t0, s', id) && s'.pending[Tid(t0, id)] == s.pending[Tid(t0, id)]
    {
      assert id + TIDS != s.begun;
      PendingUntouched(c, t0, s, Start(tx, now), id);
    }
  }

  lemma UntouchedTwice(t0: nat, s: Table, m: Table, s': Table)
    requires Untouched(t0, s, m) && Untouched(t0, m, s')
    ensures Untouched(t0, s, s')
  {
    forall id: nat | Pending(t0, s, id) && s'.begun <= id + TIDS
      ensures Pending(t0, s', id) && s'.pending[Tid(t0, id)] == s.pending[Tid(t0, id)]
    {
      assert Pending(t0, m, id);
    }
  }

  /** Begins after begins. */
  lemma BegunTwice(t0: nat, s: Table, m: Table, s': Table, a: seq<Request>, b: seq<Request>, now: nat)
    requires BegunAll(t0, s, m, a, now) && BegunAll(t0, m, s', b, now) && Untouched(t0, m, s')
    ensures BegunAll(t0, s, s', a + b, now)
  {
    hide Carries, Tid, InTable;
    forall i | 0 <= i < |a + b|
      ensures Carries(s'.sent[|s.sent| + i], (a + b)[i], Tid(t0, s.begun + i))
    {
      if i < |a| {
        assert s'.sent[..|m.sent|][|s.sent| + i] == m.sent[|s.sent| + i];
      } else {
        assert Carries(s'.sent[|m.sent| + (i - |a|)], b[i - |a|], Tid(t0, m.begun + (i - |a|)));
      }
    }
    forall i | 0 <= i < |a + b| && s'.begun <= s.begun + i + TIDS
      ensures InTable(t0, s', (a + b)[i], s.begun + i, now)
    {
      if i < |a| {
        assert InTable(t0, m, a[i], s.begun + i, now);
        StaysInTable(t0, m, s', a[i], s.begun + i, now);
      } else {
        assert InTable(t0, s', b[i - |a|], m.begun + (i - |a|), now);
      }
    }
    assert s'.sent[..|s.sent|] == s'.sent[..|m.sent|][..|s.sent|];
  }

  lemma StaysInTable(t0: nat, m: Table, s': Table, r: Request, id: nat, now: nat)
    requires InTable(t0, m, r, id, now) && Untouched(t0, m, s') && s'.begun <= id + TIDS
    ensures InTable(t0, s', r, id, now)
  {
    assert Pending(t0, m, id);
  }

  /** Only what has been begun and sent before matters. */
  lemma BegunFrom(t0: nat, s: Table, m: Table, s': Table, rs: seq<Request>, now: nat)
    requires BegunAll(t0, m, s', rs, now) && m.begun == s.begun && m.sent == s.sent
    ensures BegunAll(t0, s, s', rs, now)
  {
  }

  lemma BegunNone(t0: nat, s: Table, s': Table, now: nat)
    requires s'.begun == s.begun && s'.sent == s.sent && s'.pending == s.pending
    ensures BegunAll(t0, s, s', [], now) && Untouched(t0, s, s')
  {
  }

  lemma BegunOne(c: Client, t0: nat, s: Table, r: Request, now: nat)
    requires Inv(t0, s)
    ensures BegunAll(t0, s, Step(c, s, Start(Opened(r), now)), [r], now)
    ensures Untouched(t0, s, Step(c, s, Start(Opened(r), now)))
  {
    BeginExact(c, t0, s, r, now);
    StartUntouched(c, t0, s, Opened(r), now);
    hide Step, Opened, Carries, InTable, Tid, Untouched, Inv;
    var s' := Step(c, s, Start(Opened(r), now));
    assert s'.sent[..|s.sent|] == s.sent;
  }

  /** The requests of one callback. */
  lemma {:induction false} StartAllExact(c: Client, t0: nat, s: Table, rs: seq<Request>, now: nat)
    requires Inv(t0, s)
    ensures BegunAll(t0, s, StartAll(c, s, rs, now), rs, now) && Untouched(t0, s, StartAll(c, s, rs, now))
    decreases |rs|
  {
    hide Step, Opened, BegunAll, Untouched, Inv;
    if rs == [] {
      BegunNone(t0, s, s, now);
    } else {
      var m := Step(c, s, Start(Opened(rs[0]), now));
      BegunOne(c, t0, s, rs[0], now);
      StepKeeps(c, t0, s, Start(Opened(rs[0]), now));
      StartAllExact(c, t0, m, rs[1..], now);
      BegunTwice(t0, s, m, StartAll(c, m, rs[1..], now), [rs[0]], rs[1..], now);
      UntouchedTwice(t0, s, m, StartAll(c, m, rs[1..], now));
      assert [rs[0]] + rs[1..] == rs;
    }
  }

  /** What the callbacks of these endings ask for, in order. */
  function Asked(c: Client, es: seq<Ending>, now: nat): seq<Request> {
    if es == [] then [] else c.react(Local(es[0], now)) + Asked(c, es[1..], now)
  }

  lemma FinishBegins(c: Client, t0: nat, s: Table, now: nat)
    requires s.ending != []
    ensures BegunAll(t0, s, Step(c, s, Finish(now)), [], now) && Untouched(t0, s, Step(c, s, Finish(now)))
    ensures Step(c, s, Finish(now)).ending == s.ending[1..]
  {
    BegunNone(t0, s, Step(c, s, Finish(now)), now);
  }

  /** The callbacks of a sweep or clean begin exactly what they ask for: every request is sent with its
      own message and list and is pending for it. */
  lemma {:induction false} SettleBegins(c: Client, t0: nat, s: Table, now: nat)
    requires Inv(t0, s)
    ensures BegunAll(t0, s, Settle(c, s, now), Asked(c, s.ending, now), now)
    ensures Untouched(t0, s, Settle(c, s, now))
    decreases |s.ending|
  {
    hide Step, Opened, BegunAll, Untouched, Inv, Local;
    if s.ending == [] {
      BegunNone(t0, s, s, now);
    } else {
      var f := Step(c, s, Finish(now));
      var rs := c.react(Local(s.ending[0], now));
      FinishBegins(c, t0, s, now);
      StepKeeps(c, t0, s, Finish(now));
      StartAllExact(c, t0, f, rs, now);
      StartAllKeeps(c, t0, f, rs, now);
      var m := StartAll(c, f, rs, now);
      SettleBegins(c, t0, m, now);
      BegunTwice(t0, s, f, m, [], rs, now);
      UntouchedTwice(t0, s, f, m);
      assert [] + rs == rs;
      BegunTwice(t0, s, m, Settle(c, m, now), rs, Asked(c, m.ending, now), now);
      UntouchedTwice(t0, s, m, Settle(c, m, now));
    }
  }

  /** A due sweep, callbacks included: the requests its callbacks make in the order of the sweep. */
  lemma SweepBegins(c: Client, t0: nat, s: Table, now: nat, order: seq<nat>)
    requires Inv(t0, s) && s.ending == [] && Due(s, now) && Enabled(c, s, Sweep(now, order))
    ensures BegunAll(t0, s, Settle(c, Step(c, s, Sweep(now, order)), now),
                     Asked(c, Listing(s.pending, order, ByTimeout), now), now)
  {
    hide Inv, Listing, BegunAll, Keys, Settle, Asked;
    var m := Step(c, s, Sweep(now, order));
    StepKeeps(c, t0, s, Sweep(now, order));
    assert Listing(s.pending, order, ByTimeout) + [] == Listing(s.pending, order, ByTimeout);
    SettleBegins(c, t0, m, now);
    BegunFrom(t0, s, m, Settle(c, m, now), Asked(c, m.ending, now), now);
  }

  lemma CleanBegins(c: Client, t0: nat, s: Table, now: nat, order: seq<nat>)
    requires Inv(t0, s) && s.ending == [] && Enabled(c, s, Clean(order))
    ensures BegunAll(t0, s, Settle(c, Step(c, s, Clean(order)), now),
                     Asked(c, Listing(s.pending, order, ByClean), now), now)
  {
    hide Inv, Listing, BegunAll, Keys, Settle, Asked;
    var m := Step(c, s, Clean(order));
    StepKeeps(c, t0, s, Clean(order));
    assert Listing(s.pending, order, ByClean) + [] == Listing(s.pending, order, ByClean);
    SettleBegins(c, t0, m, now);
    BegunFrom(t0, s, m, Settle(c, m, now), Asked(c, m.ending, now), now);
  }

  // ---- A request's timeout and its reply ----

  /** A due sweep takes a pending request's transaction exactly when the timeout has passed since the
      request was made. */
  lemma RequestExpires(c: Client, t0: nat, s: Table, r: Request, id: nat, at: nat, now: nat, order: seq<nat>)
    requires Inv(t0, s) && Pending(t0, s, id) && Entered(s.pending[Tid(t0, id)], r, id, Tid(t0, id), at)
    requires Enabled(c, s, Sweep(now, order))
    ensures Pending(t0, Step(c, s, Sweep(now, order)), id)
            <==> now < s.lastCheck + 10_000 || now < r.gts + c.tm
    ensures now >= s.lastCheck + 10_000 ==> (Tid(t0, id) in order <==> now >= r.gts + c.tm)
  {
    hide Tid;
    assert Tid(t0, id) in order <==> Tid(t0, id) in Keys(order);
  }

  /** An END that completes it hands its message to the callback: to a raw request as it came, to any
      other one as the message it parses to, or as an exception if it does not. */
  lemma RequestReplied(c: Client, t0: nat, s: Table, r: Request, id: nat, at: nat, pdu: XscPdu, now: nat)
    requires Inv(t0, s) && Pending(t0, s, id) && Entered(s.pending[Tid(t0, id)], r, id, Tid(t0, id), at)
    requires pdu.trans.Some? && pdu.trans.value.dtid == Tid(t0, id)
    ensures var x := pdu.trans.value;
            var s' := Step(c, s, Reply(pdu, now));
            && |s'.done| == |s.done| + 1 && s'.done[..|s.done|] == s.done
            && var t := s'.done[|s.done|].tx;
               && t.id == id && t.calls == 1 && t.ets == now && t.gts == r.gts && t.ioob == pdu.oob
               && (x.body.msg == "" ==> t.ret == x.ret && t.desc == x.desc && t.endMsg == None && t.rawMsg == r.rawMsg)
               && (x.body.msg != "" && r.raw ==>
                     t.ret == x.ret && t.desc == x.desc && t.endMsg == None && t.rawMsg == Some(x.body))
               && (x.body.msg != "" && !r.raw && c.parses(x.body) ==>
                     t.ret == x.ret && t.desc == x.desc && t.endMsg == Some(x.body) && t.rawMsg == r.rawMsg)
               && (x.body.msg != "" && !r.raw && !c.parses(x.body) ==>
                     && t.ret == Exception && t.endMsg == None && t.rawMsg == r.rawMsg
                     && t.desc == x.desc + "(can not reflect to a pb object from data)")
  {
    hide Tid, Inv;
    var s' := Step(c, s, Reply(pdu, now));
    assert s'.done[..|s.done|] == s.done;
  }

  // ---- Dispatch ----

  /** What a PDU's callback asks for is begun, and nothing else is. */
  ghost predicate CallbackBegan(o: Office, c: Client, t0: nat, s: Actor, s': Actor) {
    if |s'.called| > |s.called| then
      BegunAll(t0, s.table, s'.table, o.serve(s'.called[|s.called|]).requests, s.clock)
    else if |s'.notified| > |s.notified| then
      BegunAll(t0, s.table, s'.table, o.notify(s'.notified[|s.notified|]).requests, s.clock)
    else if |s'.table.done| > |s.table.done| then
      BegunAll(t0, s.table, s'.table, c.react(s'.table.done[|s.table.done|]), s.clock)
    else s'.table == s.table
  }

  /** Of a served BEGIN the service, of a notice the notice, of an END the reaction of its transaction. */
  lemma HandleBegins(o: Office, c: Client, t0: nat, s: Actor, pdu: XscPdu)
    requires Inv(t0, s.table)
    ensures CallbackBegan(o, c, t0, s, Handle(o, c, s, pdu).0)
  {
    hide HandleBegin, HandleUnidirection, HandleEnd, BegunAll, Inv;
    if pdu.trans.Some? && o.mgr.Some? {
      RouteBegins(o, o.mgr.value, c, t0, s, pdu);
    }
    hide Route;
  }

  lemma RouteBegins(o: Office, m: Registry.Mgr, c: Client, t0: nat, s: Actor, pdu: XscPdu)
    requires Inv(t0, s.table) && pdu.trans.Some?
    ensures CallbackBegan(o, c, t0, s, Route(o, m, c, s, pdu).0)
  {
    hide HandleBegin, HandleUnidirection, HandleEnd, BegunAll, Inv;
    match pdu.trans.value.kind
    case Begin => BeginBegins(o, m, c, t0, s, pdu);
    case End => EndBegins(c, t0, s, pdu);
    case Unidirection => UnidirectionBegins(o, m, c, t0, s, pdu);
    case _ =>
  }

  lemma BeginBegins(o: Office, m: Registry.Mgr, c: Client, t0: nat, s: Actor, pdu: XscPdu)
    requires Inv(t0, s.table) && pdu.trans.Some?
    ensures var s' := HandleBegin(o, m, c, s, pdu).0;
            && s'.notified == s.notified && s'.table.done == s.table.done
            && (if |s'.called| > |s.called| then
                  BegunAll(t0, s.table, s'.table, o.serve(s'.called[|s.called|]).requests, s.clock)
                else |s'.called| == |s.called| && s'.table == s.table)
  {
    hide Inv, BegunAll, StartAll;
    StartAllExact(c, t0, s.table, o.serve(ServedOf(pdu)).requests, s.clock);
  }

  lemma UnidirectionBegins(o: Office, m: Registry.Mgr, c: Client, t0: nat, s: Actor, pdu: XscPdu)
    requires Inv(t0, s.table) && pdu.trans.Some?
    ensures var s' := HandleUnidirection(o, m, c, s, pdu).0;
            && s'.called == s.called && s'.table.done == s.table.done
            && (if |s'.notified| > |s.notified| then
                  BegunAll(t0, s.table, s'.table, o.notify(s'.notified[|s.notified|]).requests, s.clock)
                else |s'.notified| == |s.notified| && s'.table == s.table)
  {
    hide Inv, BegunAll, StartAll;
    StartAllExact(c, t0, s.table, o.notify(pdu.trans.value.body).requests, s.clock);
  }

  lemma EndBegins(c: Client, t0: nat, s: Actor, pdu: XscPdu)
    requires Inv(t0, s.table) && pdu.trans.Some?
    ensures var s' := HandleEnd(c, s, pdu).0;
            && s'.called == s.called && s'.notified == s.notified
            && (if |s'.table.done| > |s.table.done| then
                  BegunAll(t0, s.table, s'.table, c.react(s'.table.done[|s.table.done|]), s.clock)
                else |s'.table.done| == |s.table.done| && s'.table == s.table)
  {
    if pdu.trans.value.dtid in s.table.pending {
      var t := Step(c, s.table, Reply(pdu, s.clock));
      StepKeeps(c, t0, s.table, Reply(pdu, s.clock));
      ReplyBegins(c, s.table, pdu, s.clock);
      hide Inv, Step, StartAll, BegunAll;
      var rs := c.react(t.done[|t.done| - 1]);
      StartAllExact(c, t0, t, rs, s.clock);
      BegunFrom(t0, s.table, t, StartAll(c, t, rs, s.clock), rs, s.clock);
    }
  }

  lemma ReplyBegins(c: Client, t: Table, pdu: XscPdu, now: nat)
    requires pdu.trans.Some? && pdu.trans.value.dtid in t.pending
    ensures var t' := Step(c, t, Reply(pdu, now));
            t'.begun == t.begun && t'.sent == t.sent && |t'.done| == |t.done| + 1
  {
  }
}
