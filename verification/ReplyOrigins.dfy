/** What the callbacks of the two-ended machine are told: the outcome and message of an END that the
    other end sent for the same BEGIN. */
module ReplyOrigins {
  import opened Codec
  import opened Proto
  import opened Trans
  import opened TransTable
  import opened Passive
  import opened Correlation

  ghost predicate Reachable(c: Client, t0: nat, clock: nat, n: Net) {
    exists es :: NetLegal(c, NetInitial(t0, clock), es) && NetRun(c, NetInitial(t0, clock), es) == n
  }

  lemma {:induction false} NetSnoc(c: Client, n: Net, es: seq<NetEvent>, e: NetEvent)
    requires NetLegal(c, n, es) && NetEnabled(c, NetRun(c, n, es), e)
    ensures NetLegal(c, n, es + [e]) && NetRun(c, n, es + [e]) == NetStep(c, NetRun(c, n, es), e)
    decreases |es|
  {
    hide NetEnabled, NetStep;
    if es == [] {
      assert es + [e] == [e] && [e][1..] == [];
    } else {
      NetSnoc(c, NetStep(c, n, es[0]), es[1..], e);
      assert (es + [e])[1..] == es[1..] + [e];
    }
  }

  lemma ReachNext(c: Client, t0: nat, clock: nat, n: Net, e: NetEvent)
    requires Reachable(c, t0, clock, n) && NetEnabled(c, n, e)
    ensures Reachable(c, t0, clock, NetStep(c, n, e))
  {
    hide NetEnabled, NetStep, NetInitial;
    var es :| NetLegal(c, NetInitial(t0, clock), es) && NetRun(c, NetInitial(t0, clock), es) == n;
    NetSnoc(c, NetInitial(t0, clock), es, e);
    assert NetLegal(c, NetInitial(t0, clock), es + [e]);
  }

  lemma ReachInv(c: Client, t0: nat, clock: nat, n: Net)
    requires t0 < TIDS && Reachable(c, t0, clock, n)
    ensures NetInv(t0, n)
  {
    var es :| NetLegal(c, NetInitial(t0, clock), es) && NetRun(c, NetInitial(t0, clock), es) == n;
    InitialInv(t0, clock);
    NetRunKeeps(c, t0, NetInitial(t0, clock), es);
  }

  /** The called back transaction e is transaction t ended by the j-th END, whose passive transaction
      was made from the BEGIN of e unless 2^32 transactions were begun after that. */
  ghost predicate EndedBy(c: Client, n: Net, e: Ending, j: nat, t: Tx, now: nat) {
    && j < |n.b.sent| && n.b.sent[j].p < |n.b.passives| && n.b.sent[j].pdu.trans.Some?
    && t.id == e.tx.id && e.tx == Replied(t, n.b.sent[j].pdu, c.parses, now).0
    && (n.b.passives[n.b.sent[j].p].origin == e.tx.id || n.a.begun > n.b.passives[n.b.sent[j].p].origin + TIDS)
  }

  ghost predicate EndedByOne(c: Client, n: Net, e: Ending) {
    exists j, t, now :: EndedBy(c, n, e, j, t, now)
  }

  ghost predicate AllEndedByOne(c: Client, n: Net) {
    forall i | 0 <= i < |n.a.done| && n.a.done[i].cause.ByReply? :: EndedByOne(c, n, n.a.done[i])
  }

  /** Nothing that an ending rests on goes away. */
  ghost predicate Grows(n: Net, m: Net) {
    && |n.b.sent| <= |m.b.sent| && |n.b.passives| <= |m.b.passives| && n.a.begun <= m.a.begun
    && (forall j | 0 <= j < |n.b.sent| :: m.b.sent[j] == n.b.sent[j])
    && (forall p | 0 <= p < |n.b.passives| :: m.b.passives[p].origin == n.b.passives[p].origin)
  }

  lemma EndedGrows(c: Client, n: Net, m: Net, e: Ending)
    requires EndedByOne(c, n, e) && Grows(n, m)
    ensures EndedByOne(c, m, e)
  {
    hide Replied;
    var j, t, now :| EndedBy(c, n, e, j, t, now);
    assert EndedBy(c, m, e, j, t, now);
  }

  lemma NetGrows(c: Client, n: Net, e: NetEvent)
    requires NetEnabled(c, n, e)
    ensures Grows(n, NetStep(c, n, e))
  {
    hide Replied, EndPdu, Deeds, Finishes, Sends, BeginPdu;
  }

  /** A step adds to what was done the transaction that an END completed, or what a sweep or clean
      calls back. */
  lemma StepDone(c: Client, s: Table, e: Event)
    requires Enabled(c, s, e) && Causes(s)
    ensures var s' := Step(c, s, e);
            && Causes(s')
            && (var k := if e.Reply? then e.pdu.trans.value.dtid else 0;
                if e.Reply? && k in s.pending then
                  s'.done == s.done + [Ending(Replied(s.pending[k], e.pdu, c.parses, e.now).0, ByReply)]
                else
                  s'.done == s.done
                  || (s'.done == s.done + [s'.done[|s.done|]] && !s'.done[|s.done|].cause.ByReply?))
  {
    hide Replied, BeginPdu, Ended;
    if e.Clean? { ListingCause(s.pending, e.order, ByClean); }
    if e.Sweep? && Due(s, e.now) { ListingCause(s.pending, e.order, ByTimeout); }
  }

  lemma ReplierKnown(c: Client, t0: nat, n: Net, i: nat, now: nat)
    requires NetInv(t0, n) && NetEnabled(c, n, EndArrives(i, now))
    requires n.b.sent[i].pdu.trans.value.dtid in n.a.pending
    ensures var t := n.a.pending[n.b.sent[i].pdu.trans.value.dtid];
            EndedBy(c, n, Ending(Replied(t, n.b.sent[i].pdu, c.parses, now).0, ByReply), i, t, now)
  {
    hide Tid;
    var t := n.a.pending[n.b.sent[i].pdu.trans.value.dtid];
    ReplyKeepsId(t, n.b.sent[i].pdu, c.parses, now);
    hide Replied;
    SameWindow(t0, n.a.begun, t.id, n.b.passives[n.b.sent[i].p].origin);
  }

  lemma ReplyKeepsId(t: Tx, pdu: XscPdu, parses: Body -> bool, now: nat)
    requires pdu.trans.Some?
    ensures Replied(t, pdu, parses, now).0.id == t.id
  {
  }

  lemma NetEnded(c: Client, t0: nat, n: Net, e: NetEvent)
    requires NetInv(t0, n) && NetEnabled(c, n, e) && AllEndedByOne(c, n) && Causes(n.a)
    ensures AllEndedByOne(c, NetStep(c, n, e)) && Causes(NetStep(c, n, e).a)
  {
    hide Inv, Accounted, Step, EndedByOne, Replied, Causes, Grows;
    var m := NetStep(c, n, e);
    NetGrows(c, n, e);
    if e.AtA? {
      StepDone(c, n.a, e.e);
    } else if e.EndArrives? {
      StepDone(c, n.a, Reply(n.b.sent[e.i].pdu, e.now));
      if n.b.sent[e.i].pdu.trans.value.dtid in n.a.pending {
        ReplierKnown(c, t0, n, e.i, e.now);
        var t := n.a.pending[n.b.sent[e.i].pdu.trans.value.dtid];
        assert EndedByOne(c, n, Ending(Replied(t, n.b.sent[e.i].pdu, c.parses, e.now).0, ByReply)) by {
          Introduce(c, n, Ending(Replied(t, n.b.sent[e.i].pdu, c.parses, e.now).0, ByReply), e.i, t, e.now);
        }
      }
    }
    forall i | 0 <= i < |m.a.done| && m.a.done[i].cause.ByReply?
      ensures EndedByOne(c, m, m.a.done[i])
    {
      EndedGrows(c, n, m, m.a.done[i]);
    }
  }

  lemma Introduce(c: Client, n: Net, e: Ending, j: nat, t: Tx, now: nat)
    requires EndedBy(c, n, e, j, t, now)
    ensures EndedByOne(c, n, e)
  {
  }

  lemma {:induction false} NetRunEnded(c: Client, t0: nat, n: Net, es: seq<NetEvent>)
    requires NetInv(t0, n) && NetLegal(c, n, es) && AllEndedByOne(c, n) && Causes(n.a)
    ensures AllEndedByOne(c, NetRun(c, n, es))
    decreases |es|
  {
    hide NetInv, NetEnabled, NetStep, AllEndedByOne, Causes;
    if es != [] {
      NetKeeps(c, t0, n, es[0]);
      NetEnded(c, t0, n, es[0]);
      NetRunEnded(c, t0, NetStep(c, n, es[0]), es[1..]);
    }
  }

  /** Over every run of the two ends: whoever is called back by a reply is called back with what an
      END says that the other end sent for this very BEGIN. */
  lemma RepliesAreEnds(c: Client, t0: nat, clock: nat, n: Net)
    requires t0 < TIDS && Reachable(c, t0, clock, n)
    ensures AllEndedByOne(c, n)
  {
    var es :| NetLegal(c, NetInitial(t0, clock), es) && NetRun(c, NetInitial(t0, clock), es) == n;
    InitialInv(t0, clock);
    NetRunEnded(c, t0, NetInitial(t0, clock), es);
  }
}
