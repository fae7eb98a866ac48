/** Two endpoints: the initiative table on one side, passive transactions on the other, and PDUs
    that may be delayed, reordered and delivered more than once, also across reconnects. */
module Correlation {
  import opened Codec
  import opened Proto
  import opened Trans
  import opened TransTable
  import opened Passive

  /** `matched` records each END that completed a transaction: which one, the passive transaction
      that produced the END, and how many transactions had been begun by then. */
  datatype Match = Match(id: nat, p: nat, begun: nat)

  datatype Net = Net(a: Table, b: Line, matched: seq<Match>)

  datatype NetEvent =
    | AtA(e: Event)
    | BeginArrives(j: nat)
    | AtB(le: LineEvent)
    | EndArrives(i: nat, now: nat)

  ghost predicate NetEnabled(c: Client, n: Net, e: NetEvent) {
    match e
    case AtA(ev) => !ev.Reply? && Enabled(c, n.a, ev)
    case BeginArrives(j) => j < |n.a.sent| && n.a.sent[j].trans.Some?
    case AtB(le) => !le.Arrive? && CanStep(n.b, le)
    case EndArrives(i, _) => i < |n.b.sent| && n.b.sent[i].pdu.trans.Some?
  }

  function NetStep(c: Client, n: Net, e: NetEvent): Net
    requires NetEnabled(c, n, e)
  {
    match e
    case AtA(ev) => n.(a := Step(c, n.a, ev))
    case BeginArrives(j) => n.(b := LineStep(n.b, Arrive(j, n.a.sent[j].trans.value.stid)))
    case AtB(le) => n.(b := LineStep(n.b, le))
    case EndArrives(i, now) =>
      var s := n.b.sent[i];
      var k := s.pdu.trans.value.dtid;
      n.(a := Step(c, n.a, Reply(s.pdu, now)),
         matched := if k in n.a.pending then n.matched + [Match(n.a.pending[k].id, s.p, n.a.begun)] else n.matched)
  }

  ghost predicate NetLegal(c: Client, n: Net, es: seq<NetEvent>)
    decreases |es|
  {
    es == [] || (NetEnabled(c, n, es[0]) && NetLegal(c, NetStep(c, n, es[0]), es[1..]))
  }

  ghost function NetRun(c: Client, n: Net, es: seq<NetEvent>): Net
    requires NetLegal(c, n, es)
    decreases |es|
  {
    if es == [] then n else NetRun(c, NetStep(c, n, es[0]), es[1..])
  }

  function NetInitial(t0: nat, clock: nat): Net {
    Net(Initial(t0, clock), Line(false, [], [], [], [], []), [])
  }

  /** The n-th BEGIN carries the id of the n-th transaction. */
  ghost predicate SentInOrder(t0: nat, s: Table) {
    |s.sent| == s.begun && forall j | 0 <= j < |s.sent| ::
      s.sent[j].trans.Some? && s.sent[j].trans.value.stid == Tid(t0, j)
  }

  /** Passive transactions answer to the id of the BEGIN they came from. */
  ghost predicate Answerable(t0: nat, n: Net) {
    forall p | 0 <= p < |n.b.passives| ::
      n.b.passives[p].origin < n.a.begun && n.b.passives[p].dtid == Tid(t0, n.b.passives[p].origin)
  }

  /** An END completed the transaction whose BEGIN it answers exactly when fewer than 2^32 others
      had been begun after it. */
  ghost predicate Matched(n: Net) {
    forall m | m in n.matched ::
      m.p < |n.b.passives| && m.begun <= n.a.begun
      && (m.id == n.b.passives[m.p].origin <==> m.begun <= n.b.passives[m.p].origin + TIDS)
  }

  ghost predicate NetInv(t0: nat, n: Net) {
    Inv(t0, n.a) && Accounted(n.b) && SentInOrder(t0, n.a) && Answerable(t0, n) && Matched(n)
  }

  /** Two transactions with one id are the same when both are among the last 2^32, and not when only
      one of them is. */
  lemma SameWindow(t0: nat, begun: nat, m: nat, o: nat)
    requires m < begun <= m + TIDS && o < begun && Tid(t0, m) == Tid(t0, o)
    ensures m == o <==> begun <= o + TIDS
  {
    if begun <= o + TIDS {
      if m <= o { TidUnique(t0, m, o); } else { TidUnique(t0, o, m); }
    }
  }

  lemma SentKept(c: Client, t0: nat, s: Table, e: Event)
    requires Inv(t0, s) && SentInOrder(t0, s) && Enabled(c, s, e)
    ensures SentInOrder(t0, Step(c, s, e)) && s.begun <= Step(c, s, e).begun
  {
    hide Tid;
    if e.Start? {
      NextTidIs(t0, s);
      var s' := Step(c, s, e);
      assert forall j | 0 <= j < |s.sent| :: s'.sent[j] == s.sent[j];
    }
  }

  lemma NetKeeps(c: Client, t0: nat, n: Net, e: NetEvent)
    requires NetInv(t0, n) && NetEnabled(c, n, e)
    ensures NetInv(t0, NetStep(c, n, e))
  {
    hide Inv, Accounted, Tid, Step, SentInOrder, Replied, Deeds, Finishes, Sends;
    var n' := NetStep(c, n, e);
    match e
    case AtA(ev) =>
      StepKeeps(c, t0, n.a, ev);
      SentKept(c, t0, n.a, ev);
    case BeginArrives(j) =>
      BeginKeeps(c, t0, n, j);
    case AtB(le) =>
      LineKeeps(n.b, le);
    case EndArrives(i, now) =>
      EndKeeps(c, t0, n, i, now);
  }

  lemma BeginKeeps(c: Client, t0: nat, n: Net, j: nat)
    requires NetInv(t0, n) && NetEnabled(c, n, BeginArrives(j))
    ensures NetInv(t0, NetStep(c, n, BeginArrives(j)))
  {
    hide Inv, Tid;
    LineKeeps(n.b, Arrive(j, n.a.sent[j].trans.value.stid));
  }

  lemma EndKeeps(c: Client, t0: nat, n: Net, i: nat, now: nat)
    requires NetInv(t0, n) && NetEnabled(c, n, EndArrives(i, now))
    ensures NetInv(t0, NetStep(c, n, EndArrives(i, now)))
  {
    hide Tid, Replied;
    var s := n.b.sent[i];
    var k := s.pdu.trans.value.dtid;
    StepKeeps(c, t0, n.a, Reply(s.pdu, now));
    SentKept(c, t0, n.a, Reply(s.pdu, now));
    if k in n.a.pending {
      SameWindow(t0, n.a.begun, n.a.pending[k].id, n.b.passives[s.p].origin);
    }
  }

  lemma {:induction false} NetRunKeeps(c: Client, t0: nat, n: Net, es: seq<NetEvent>)
    requires NetInv(t0, n) && NetLegal(c, n, es)
    ensures NetInv(t0, NetRun(c, n, es))
    decreases |es|
  {
    if es != [] {
      NetKeeps(c, t0, n, es[0]);
      NetRunKeeps(c, t0, NetStep(c, n, es[0]), es[1..]);
    }
  }

  /** Correlation, exactly, for every run of the two endpoints: an END that completed a transaction
      was produced by a passive transaction of that same BEGIN if and only if the BEGIN it answers
      was among the last 2^32 when the END arrived. */
  lemma CorrelationExact(c: Client, t0: nat, clock: nat, es: seq<NetEvent>)
    requires t0 < TIDS && NetLegal(c, NetInitial(t0, clock), es)
    ensures var n := NetRun(c, NetInitial(t0, clock), es);
            forall m | m in n.matched ::
              m.p < |n.b.passives|
              && (m.id == n.b.passives[m.p].origin <==> m.begun <= n.b.passives[m.p].origin + TIDS)
  {
    InitialInv(t0, clock);
    NetRunKeeps(c, t0, NetInitial(t0, clock), es);
  }

  /** So a channel that has begun no more than 2^32 transactions never mistakes a reply, however
      PDUs are delayed, reordered or repeated. */
  lemma RepliesCorrelate(c: Client, t0: nat, clock: nat, es: seq<NetEvent>)
    requires t0 < TIDS && NetLegal(c, NetInitial(t0, clock), es)
    requires NetRun(c, NetInitial(t0, clock), es).a.begun <= TIDS
    ensures var n := NetRun(c, NetInitial(t0, clock), es);
            forall m | m in n.matched :: m.p < |n.b.passives| && m.id == n.b.passives[m.p].origin
  {
    InitialInv(t0, clock);
    NetRunKeeps(c, t0, NetInitial(t0, clock), es);
  }

  /** Begun and no longer pending. */
  ghost predicate Gone(t0: nat, s: Table, id: nat) {
    id < s.begun && !Pending(t0, s, id)
  }

  lemma StaysGone(c: Client, t0: nat, s: Table, e: Event, id: nat)
    requires Inv(t0, s) && Enabled(c, s, e) && Gone(t0, s, id)
    ensures Gone(t0, Step(c, s, e), id)
  {
    hide Tid;
    if e.Start? {
      StartKeyed(c, t0, s, e.tx, e.now);
    }
  }

  /** The END at place i of the queue answers the transaction numbered `origin`, now gone. */
  ghost predicate Spent(t0: nat, n: Net, i: nat, origin: nat) {
    && i < |n.b.sent| && n.b.sent[i].p < |n.b.passives| && n.b.passives[n.b.sent[i].p].origin == origin
    && n.b.sent[i].pdu.trans.Some? && n.b.sent[i].pdu.trans.value.dtid == Tid(t0, origin)
    && Gone(t0, n.a, origin)
  }

  lemma StaysSpent(c: Client, t0: nat, n: Net, e: NetEvent, i: nat, origin: nat)
    requires NetInv(t0, n) && NetEnabled(c, n, e) && Spent(t0, n, i, origin)
    ensures Spent(t0, NetStep(c, n, e), i, origin)
  {
    hide Tid, Inv, Gone, Step, Deeds, Finishes, Sends, EndPdu;
    match e
    case AtA(ev) => StaysGone(c, t0, n.a, ev, origin);
    case EndArrives(j, now) => StaysGone(c, t0, n.a, Reply(n.b.sent[j].pdu, now), origin);
    case _ =>
  }

  lemma {:induction false} RunStaysSpent(c: Client, t0: nat, n: Net, es: seq<NetEvent>, i: nat, origin: nat)
    requires NetInv(t0, n) && NetLegal(c, n, es) && Spent(t0, n, i, origin)
    ensures NetInv(t0, NetRun(c, n, es)) && Spent(t0, NetRun(c, n, es), i, origin)
    decreases |es|
  {
    hide NetInv, NetEnabled, NetStep, Spent;
    if es != [] {
      NetKeeps(c, t0, n, es[0]);
      StaysSpent(c, t0, n, es[0], i, origin);
      RunStaysSpent(c, t0, NetStep(c, n, es[0]), es[1..], i, origin);
    }
  }

  lemma SpentAfterEnd(c: Client, t0: nat, n: Net, i: nat, now: nat)
    requires NetInv(t0, n) && NetEnabled(c, n, EndArrives(i, now))
    ensures n.b.sent[i].p < |n.b.passives|
    ensures Spent(t0, NetStep(c, n, EndArrives(i, now)), i, n.b.passives[n.b.sent[i].p].origin)
  {
    hide Tid, Replied;
  }

  lemma SpentEndHarmless(c: Client, t0: nat, n: Net, i: nat, origin: nat, later: nat)
    requires NetInv(t0, n) && Spent(t0, n, i, origin) && n.a.begun <= origin + TIDS
    ensures NetEnabled(c, n, EndArrives(i, later)) && NetStep(c, n, EndArrives(i, later)) == n
  {
    hide Replied;
    var k := n.b.sent[i].pdu.trans.value.dtid;
    if k in n.a.pending {
      SameWindow(t0, n.a.begun, n.a.pending[k].id, origin);
    }
  }

  /** Duplicate ENDs: whatever happens after an END has arrived, a second copy of it changes nothing
      as long as fewer than 2^32 transactions were begun after the one it answers. */
  lemma DuplicateEndHarmless(c: Client, t0: nat, n: Net, i: nat, now: nat, es: seq<NetEvent>, later: nat)
    requires NetInv(t0, n) && NetEnabled(c, n, EndArrives(i, now))
    requires NetLegal(c, NetStep(c, n, EndArrives(i, now)), es)
    ensures var r := NetRun(c, NetStep(c, n, EndArrives(i, now)), es);
            && n.b.sent[i].p < |n.b.passives|
            && (r.a.begun <= n.b.passives[n.b.sent[i].p].origin + TIDS ==>
                  NetEnabled(c, r, EndArrives(i, later)) && NetStep(c, r, EndArrives(i, later)) == r)
  {
    SpentAfterEnd(c, t0, n, i, now);
    var origin := n.b.passives[n.b.sent[i].p].origin;
    NetKeeps(c, t0, n, EndArrives(i, now));
    hide NetInv, NetEnabled, NetStep, Spent;
    var m := NetStep(c, n, EndArrives(i, now));
    RunStaysSpent(c, t0, m, es, i, origin);
    if NetRun(c, m, es).a.begun <= origin + TIDS {
      SpentEndHarmless(c, t0, NetRun(c, m, es), i, origin, later);
    }
  }

  // ---- The window is exact ----

  lemma NetCons(c: Client, n: Net, e: NetEvent, es: seq<NetEvent>)
    requires NetEnabled(c, n, e) && NetLegal(c, NetStep(c, n, e), es)
    ensures NetLegal(c, n, [e] + es) && NetRun(c, n, [e] + es) == NetRun(c, NetStep(c, n, e), es)
  {
    hide NetEnabled, NetStep;
    assert ([e] + es)[1..] == es;
  }

  lemma NetStart(c: Client, t0: nat, n: Net, tx: Tx)
    requires tx.calls == 0 && NetInv(t0, n)
    ensures NetEnabled(c, n, AtA(Start(tx, 0)))
    ensures var m := NetStep(c, n, AtA(Start(tx, 0)));
            && NetInv(t0, m) && m.b == n.b && m.matched == n.matched && m.a.begun == n.a.begun + 1
            && Pending(t0, m.a, n.a.begun)
  {
    hide Tid, Inv, Accounted, Pending, SentInOrder;
    NetKeeps(c, t0, n, AtA(Start(tx, 0)));
    StartKeyed(c, t0, n.a, tx, 0);
  }

  /** k begins in a row. */
  function NetStarted(c: Client, n: Net, tx: Tx, k: nat): Net
    requires tx.calls == 0
    decreases k
  {
    if k == 0 then n else NetStarted(c, NetStep(c, n, AtA(Start(tx, 0))), tx, k - 1)
  }

  lemma {:induction false} NetStartedIs(c: Client, t0: nat, n: Net, tx: Tx, k: nat)
    requires tx.calls == 0 && NetInv(t0, n)
    ensures var r := NetStarted(c, n, tx, k);
            && NetInv(t0, r) && r.b == n.b && r.matched == n.matched && r.a.begun == n.a.begun + k
            && (k > 0 ==> Pending(t0, r.a, r.a.begun - 1))
    decreases k
  {
    hide NetStep, NetInv, Pending;
    if k > 0 {
      NetStart(c, t0, n, tx);
      NetStartedIs(c, t0, NetStep(c, n, AtA(Start(tx, 0))), tx, k - 1);
    }
  }

  lemma {:induction false} NetStartedRun(c: Client, n: Net, tx: Tx, k: nat, more: seq<NetEvent>)
      returns (es: seq<NetEvent>)
    requires tx.calls == 0 && NetLegal(c, NetStarted(c, n, tx, k), more)
    ensures NetLegal(c, n, es) && NetRun(c, n, es) == NetRun(c, NetStarted(c, n, tx, k), more)
    decreases k
  {
    hide NetStep, NetLegal, NetRun;
    if k == 0 {
      es := more;
    } else {
      var rest := NetStartedRun(c, NetStep(c, n, AtA(Start(tx, 0))), tx, k - 1, more);
      NetCons(c, n, AtA(Start(tx, 0)), rest);
      es := [AtA(Start(tx, 0))] + rest;
    }
  }

  const ANSWER: LineEvent := CallEnd(0, Success, "", None, None, None, false)

  /** The passive side of the first BEGIN answers it. */
  function Answered(l: Line, stid: nat): Line {
    var tx := PassiveTx(0, stid, Success, "", None, None, None, false);
    Line(true, [tx], [], [Ran(0, tx, true)], [Sent(0, EndPdu(tx))], [0])
  }

  lemma AnswerFirst(c: Client, n: Net, more: seq<NetEvent>) returns (es: seq<NetEvent>)
    requires n.b == Line(false, [], [], [], [], []) && |n.a.sent| > 0 && n.a.sent[0].trans.Some?
    requires NetLegal(c, n.(b := Answered(n.b, n.a.sent[0].trans.value.stid)), more)
    ensures NetLegal(c, n, es)
    ensures NetRun(c, n, es) == NetRun(c, n.(b := Answered(n.b, n.a.sent[0].trans.value.stid)), more)
  {
    hide NetLegal, NetRun, EndPdu, Deeds, Finishes, Sends;
    var n2 := NetStep(c, n, BeginArrives(0));
    var n3 := NetStep(c, n2, AtB(Up));
    var n4 := NetStep(c, n3, AtB(ANSWER));
    RunFutureIs(n4.b);
    assert NetStep(c, n4, AtB(RunFuture)) == n.(b := Answered(n.b, n.a.sent[0].trans.value.stid));
    NetCons(c, n4, AtB(RunFuture), more);
    NetCons(c, n3, AtB(ANSWER), [AtB(RunFuture)] + more);
    NetCons(c, n2, AtB(Up), [AtB(ANSWER)] + ([AtB(RunFuture)] + more));
    es := [BeginArrives(0)] + ([AtB(Up)] + ([AtB(ANSWER)] + ([AtB(RunFuture)] + more)));
    NetCons(c, n, BeginArrives(0), es[1..]);
  }

  lemma AnsweredInv(c: Client, t0: nat, n: Net)
    requires NetInv(t0, n) && n.a.begun == 1 && n.matched == []
    ensures n.a.sent[0].trans.Some? && NetInv(t0, n.(b := Answered(n.b, n.a.sent[0].trans.value.stid)))
  {
    hide Inv, Tid;
    var l := Answered(n.b, n.a.sent[0].trans.value.stid);
    EndPduIs(l.passives[0]);
    hide EndPdu;
    assert l.ran[1..] == [] && l.sent + [] == l.sent && l.finished + [] == l.finished;
    assert Replies(l.ran) == l.sent + Replies([]) && Who(l.ran) == l.finished + Who([]);
  }

  lemma StaleMatch(c: Client, t0: nat, n: Net)
    requires n.a.begun == TIDS + 1 && Pending(t0, n.a, TIDS) && n.matched == []
    requires |n.b.sent| == 1 && n.b.sent[0].p == 0 && n.b.sent[0].pdu.trans.Some?
              && n.b.sent[0].pdu.trans.value.dtid == Tid(t0, 0)
    ensures NetEnabled(c, n, EndArrives(0, 0))
    ensures NetStep(c, n, EndArrives(0, 0)).matched == [Match(TIDS, 0, TIDS + 1)]
  {
    TidRepeats(t0, 0);
    hide Tid, Step;
  }

  /** Answered at once but delivered only after 2^32 more begins, the END for the very first BEGIN
      completes the last transaction instead. */
  lemma StaleEndMisleads(c: Client, t0: nat, clock: nat, tx: Tx) returns (es: seq<NetEvent>)
    requires t0 < TIDS && tx.calls == 0
    ensures NetLegal(c, NetInitial(t0, clock), es)
    ensures var n := NetRun(c, NetInitial(t0, clock), es);
            |n.b.passives| == 1 && n.b.passives[0].origin == 0 && n.matched == [Match(TIDS, 0, TIDS + 1)]
  {
    var n0 := NetInitial(t0, clock);
    InitialInv(t0, clock);
    NetStart(c, t0, n0, tx);
    var n1 := NetStep(c, n0, AtA(Start(tx, 0)));
    var rest := StaleRest(c, t0, n1, tx);
    hide *;
    NetCons(c, n0, AtA(Start(tx, 0)), rest);
    es := [AtA(Start(tx, 0))] + rest;
  }

  lemma StaleRest(c: Client, t0: nat, n: Net, tx: Tx) returns (es: seq<NetEvent>)
    requires NetInv(t0, n) && n.a.begun == 1 && n.matched == [] && n.b == Line(false, [], [], [], [], [])
              && tx.calls == 0
    ensures NetLegal(c, n, es)
    ensures var m := NetRun(c, n, es);
            |m.b.passives| == 1 && m.b.passives[0].origin == 0 && m.matched == [Match(TIDS, 0, TIDS + 1)]
  {
    AnsweredInv(c, t0, n);
    var n5 := n.(b := Answered(n.b, n.a.sent[0].trans.value.stid));
    EndPduIs(n5.b.passives[0]);
    assert n5.b.sent[0].pdu.trans.value.dtid == Tid(t0, 0);
    hide Inv, Accounted, Matched, Tid, EndPdu, NetStarted, Step, Pending;
    NetStartedIs(c, t0, n5, tx, TIDS);
    var m := NetStarted(c, n5, tx, TIDS);
    StaleMatch(c, t0, m);
    var e := EndArrives(0, 0);
    assert NetLegal(c, m, [e]) && NetRun(c, m, [e]) == NetStep(c, m, e) by {
      assert [e][1..] == [];
    }
    hide NetLegal, NetRun;
    var more := NetStartedRun(c, n5, tx, TIDS, [e]);
    es := AnswerFirst(c, n, more);
  }
}
