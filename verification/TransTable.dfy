/** The initiative transaction table as a state machine: begin, END, timeout sweep and clean, with
    every callback a step of its own, so that what callbacks start can come between any two. */
module TransTable {
  import opened Codec
  import opened Proto
  import opened Trans

  datatype Cause = ByReply | ByTimeout | ByClean

  datatype Ending = Ending(tx: Tx, cause: Cause)

  /** `ending` holds what a sweep or clean has taken out of the table and not called back yet; `done`
      and `lost` are histories: the called back transactions, and those whose entry was overwritten. */
  datatype Table = Table(
    pending: map<nat, Tx>, tidSeq: nat, lastCheck: nat, begun: nat,
    ending: seq<Ending>, done: seq<Ending>, lost: seq<Tx>, sent: seq<XscPdu>)

  /** What the table calls out to: the parser of END bodies, and what the callback of each ended
      transaction begins in turn; `tm` is the timeout. */
  datatype Client = Client(parses: Body -> bool, react: Ending -> seq<Request>, tm: nat)

  datatype Event =
    | Start(tx: Tx, now: nat)
    | Reply(pdu: XscPdu, now: nat)
    | Sweep(now: nat, order: seq<nat>)
    | Clean(order: seq<nat>)
    | Finish(now: nat)

  function NextTid(s: Table): nat {
    (s.tidSeq + 1) % TIDS
  }

  function Keys(order: seq<nat>): set<nat> {
    set k | k in order
  }

  /** `order` lists exactly these keys, each once: one order in which a loop may visit the map. */
  ghost predicate Enumerates(order: seq<nat>, keys: set<nat>) {
    && (forall k :: k in order <==> k in keys)
    && (forall i, j | 0 <= i < j < |order| :: order[i] != order[j])
  }

  predicate Due(s: Table, now: nat) {
    now >= s.lastCheck + 10 * SECOND
  }

  function Expired(c: Client, s: Table, now: nat): set<nat> {
    set k | k in s.pending && now >= s.pending[k].gts + c.tm
  }

  function Listing(m: map<nat, Tx>, order: seq<nat>, cause: Cause): seq<Ending>
    requires forall k | k in order :: k in m
  {
    if order == [] then [] else [Ending(m[order[0]], cause)] + Listing(m, order[1..], cause)
  }

  ghost predicate Enabled(c: Client, s: Table, e: Event) {
    match e
    case Start(tx, _) => tx.calls == 0
    case Reply(pdu, _) => pdu.trans.Some?
    case Sweep(now, order) => Enumerates(order, if Due(s, now) then Expired(c, s, now) else {})
    case Clean(order) => Enumerates(order, s.pending.Keys)
    case Finish(_) => s.ending != []
  }

  function Local(e: Ending, now: nat): Ending {
    e.(tx := Ended(e.tx, TimedOut, if e.cause.ByClean? then "local clean" else "local timeout", now))
  }

  function Step(c: Client, s: Table, e: Event): Table
    requires Enabled(c, s, e)
  {
    match e
    case Start(tx, now) =>
      var tid := NextTid(s);
      var t := tx.(id := s.begun, stid := tid, its := now);
      s.(tidSeq := tid, begun := s.begun + 1, pending := s.pending[tid := t],
         lost := if tid in s.pending then s.lost + [s.pending[tid]] else s.lost,
         sent := s.sent + [BeginPdu(t)])
    case Reply(pdu, now) =>
      var k := pdu.trans.value.dtid;
      if k !in s.pending then s
      else s.(
        pending := s.pending - {k},
        done := s.done + [Ending(Replied(s.pending[k], pdu, c.parses, now).0, ByReply)])
    case Sweep(now, order) =>
      if !Due(s, now) then s
      else s.(
        lastCheck := now, pending := s.pending - Keys(order),
        ending := Listing(s.pending, order, ByTimeout) + s.ending)
    case Clean(order) =>
      s.(pending := s.pending - Keys(order), ending := Listing(s.pending, order, ByClean) + s.ending)
    case Finish(now) =>
      s.(ending := s.ending[1..], done := s.done + [Local(s.ending[0], now)])
  }

  function Initial(tidSeq: nat, lastCheck: nat): Table {
    Table(map[], tidSeq, lastCheck, 0, [], [], [], [])
  }

  ghost predicate Legal(c: Client, s: Table, es: seq<Event>)
    decreases |es|
  {
    es == [] || (Enabled(c, s, es[0]) && Legal(c, Step(c, s, es[0]), es[1..]))
  }

  ghost function Run(c: Client, s: Table, es: seq<Event>): Table
    requires Legal(c, s, es)
    decreases |es|
  {
    if es == [] then s else Run(c, Step(c, s, es[0]), es[1..])
  }

  // ---- Transaction ids ----

  /** The id of the n-th transaction of a channel whose counter started at t0. */
  function Tid(t0: nat, n: nat): nat {
    (t0 + 1 + n) % TIDS
  }

  /** Within a window of 2^32 transactions no id repeats; at its edge it does. */
  lemma TidUnique(t0: nat, m: nat, n: nat)
    requires m <= n <= m + TIDS && Tid(t0, m) == Tid(t0, n)
    ensures n == m || n == m + TIDS
  {
    var a, b := t0 + 1 + m, t0 + 1 + n;
    assert b - a == TIDS * (b / TIDS - a / TIDS);
  }

  lemma TidRepeats(t0: nat, m: nat)
    ensures Tid(t0, m + TIDS) == Tid(t0, m)
  {
  }

  // ---- Accounting: where each transaction is ----

  function Count(es: seq<Ending>, id: nat): nat {
    if es == [] then 0 else (if es[0].tx.id == id then 1 else 0) + Count(es[1..], id)
  }

  function CountLost(xs: seq<Tx>, id: nat): nat {
    if xs == [] then 0 else (if xs[0].id == id then 1 else 0) + CountLost(xs[1..], id)
  }

  predicate Pending(t0: nat, s: Table, id: nat) {
    Tid(t0, id) in s.pending && s.pending[Tid(t0, id)].id == id
  }

  /** In how many places transaction `id` is. */
  function Places(t0: nat, s: Table, id: nat): nat {
    (if Pending(t0, s, id) then 1 else 0) + Count(s.ending, id) + Count(s.done, id) + CountLost(s.lost, id)
  }

  ghost predicate Keyed(t0: nat, s: Table) {
    forall k | k in s.pending ::
      var t := s.pending[k];
      k == Tid(t0, t.id) == t.stid && t.id < s.begun <= t.id + TIDS && t.calls == 0
  }

  ghost predicate Inv(t0: nat, s: Table) {
    && s.tidSeq == (t0 + s.begun) % TIDS
    && Keyed(t0, s)
    && (forall i | 0 <= i < |s.ending| :: s.ending[i].tx.calls == 0)
    && (forall i | 0 <= i < |s.done| :: s.done[i].tx.calls == 1)
    && (forall i | 0 <= i < |s.lost| :: s.lost[i].calls == 0 && s.lost[i].id + TIDS < s.begun)
    && (forall id: nat :: Places(t0, s, id) == if id < s.begun then 1 else 0)
  }

  lemma {:induction false} CountAppend(a: seq<Ending>, b: seq<Ending>, id: nat)
    ensures Count(a + b, id) == Count(a, id) + Count(b, id)
  {
    if a == [] {
      assert a + b == b;
    } else {
      CountAppend(a[1..], b, id);
      assert (a + b)[1..] == a[1..] + b;
    }
  }

  lemma CountSnoc(a: seq<Ending>, e: Ending, id: nat)
    ensures Count(a + [e], id) == Count(a, id) + if e.tx.id == id then 1 else 0
  {
    CountAppend(a, [e], id);
    assert [e][1..] == [];
  }

  lemma {:induction false} CountLostSnoc(a: seq<Tx>, t: Tx, id: nat)
    ensures CountLost(a + [t], id) == CountLost(a, id) + if t.id == id then 1 else 0
  {
    if a == [] {
      assert a + [t] == [t] && [t][1..] == [];
    } else {
      CountLostSnoc(a[1..], t, id);
      assert (a + [t])[1..] == a[1..] + [t];
    }
  }

  /** A listing holds each listed transaction once, whatever its order. */
  lemma {:induction false} CountListing(t0: nat, s: Table, order: seq<nat>, cause: Cause, id: nat)
    requires Keyed(t0, s)
    requires forall k | k in order :: k in s.pending
    requires forall i, j | 0 <= i < j < |order| :: order[i] != order[j]
    ensures Count(Listing(s.pending, order, cause), id)
            == if Tid(t0, id) in order && s.pending[Tid(t0, id)].id == id then 1 else 0
    ensures forall i | 0 <= i < |Listing(s.pending, order, cause)| ::
              Listing(s.pending, order, cause)[i].tx.calls == 0
  {
    if order != [] {
      CountListing(t0, s, order[1..], cause, id);
      var l := Listing(s.pending, order, cause);
      assert l[1..] == Listing(s.pending, order[1..], cause);
      assert forall k | k in order :: k == order[0] || k in order[1..];
      assert forall j | 0 <= j < |order[1..]| :: order[1..][j] == order[j + 1];
      assert order[0] !in order[1..];
    }
  }

  /** A begin overwrites a live entry exactly when the transaction begun 2^32 before it is pending. */
  lemma OverwriteExact(t0: nat, s: Table)
    requires Keyed(t0, s) && s.tidSeq == (t0 + s.begun) % TIDS
    ensures NextTid(s) == Tid(t0, s.begun)
    ensures NextTid(s) in s.pending <==> Collides(t0, s)
    ensures NextTid(s) in s.pending ==> s.pending[NextTid(s)].id == s.begun - TIDS
  {
    hide Tid;
    NextTidIs(t0, s);
    if NextTid(s) in s.pending {
      TidUnique(t0, s.pending[NextTid(s)].id, s.begun);
    } else if s.begun >= TIDS {
      TidRepeats(t0, s.begun - TIDS);
    }
  }

  lemma NextTidIs(t0: nat, s: Table)
    requires s.tidSeq == (t0 + s.begun) % TIDS
    ensures NextTid(s) == Tid(t0, s.begun)
  {
    var x := t0 + s.begun;
    var q, r := x / TIDS, x % TIDS;
    if r + 1 < TIDS {
      Remainder(x + 1, q, r + 1);
    } else {
      Remainder(x + 1, q + 1, 0);
    }
  }

  lemma Remainder(x: nat, q: nat, r: nat)
    requires x == TIDS * q + r && r < TIDS
    ensures x % TIDS == r
  {
  }

  predicate Collides(t0: nat, s: Table) {
    s.begun >= TIDS && Pending(t0, s, s.begun - TIDS)
  }

  lemma StartKeyed(c: Client, t0: nat, s: Table, tx: Tx, now: nat)
    requires Inv(t0, s) && tx.calls == 0
    ensures var s' := Step(c, s, Start(tx, now));
            && Keyed(t0, s') && s'.tidSeq == (t0 + s'.begun) % TIDS
            && (forall id: nat :: Pending(t0, s', id) <==>
                  id == s.begun || (Pending(t0, s, id) && id + TIDS != s.begun))
  {
    OverwriteExact(t0, s);
    var s' := Step(c, s, Start(tx, now));
    forall k | k in s'.pending
      ensures s'.begun <= s'.pending[k].id + TIDS
    {
      if k != NextTid(s) && s.pending[k].id + TIDS == s.begun {
        TidRepeats(t0, s.pending[k].id);
      }
    }
    forall id: nat
      ensures Pending(t0, s', id) <==> id == s.begun || (Pending(t0, s, id) && id + TIDS != s.begun)
    {
      if Pending(t0, s, id) {
        assert id < s.begun <= id + TIDS;
        if Tid(t0, id) == NextTid(s) {
          TidUnique(t0, id, s.begun);
        } else {
          if id + TIDS == s.begun {
            TidRepeats(t0, id);
          }
        }
      }
    }
  }

  lemma StartKeeps(c: Client, t0: nat, s: Table, tx: Tx, now: nat)
    requires Inv(t0, s) && tx.calls == 0
    ensures Inv(t0, Step(c, s, Start(tx, now)))
  {
    hide Keyed, Pending, Tid;
    var s' := Step(c, s, Start(tx, now));
    StartKeyed(c, t0, s, tx, now);
    StartOverwrites(t0, s);
    forall id: nat
      ensures Places(t0, s', id) == if id < s'.begun then 1 else 0
    {
      assert Places(t0, s, id) == if id < s.begun then 1 else 0;
      if NextTid(s) in s.pending {
        CountLostSnoc(s.lost, s.pending[NextTid(s)], id);
      }
    }
  }

  lemma StartOverwrites(t0: nat, s: Table)
    requires Keyed(t0, s) && s.tidSeq == (t0 + s.begun) % TIDS
    ensures NextTid(s) in s.pending <==> exists id: nat :: id + TIDS == s.begun && Pending(t0, s, id)
    ensures NextTid(s) in s.pending ==> s.pending[NextTid(s)].id + TIDS == s.begun && s.pending[NextTid(s)].calls == 0
  {
    OverwriteExact(t0, s);
    if Collides(t0, s) {
      assert (s.begun - TIDS) + TIDS == s.begun && Pending(t0, s, s.begun - TIDS);
    }
  }

  lemma ReplyKeeps(c: Client, t0: nat, s: Table, pdu: XscPdu, now: nat)
    requires Inv(t0, s) && pdu.trans.Some?
    ensures Inv(t0, Step(c, s, Reply(pdu, now)))
  {
    hide Tid;
    var s' := Step(c, s, Reply(pdu, now));
    var k := pdu.trans.value.dtid;
    if k in s.pending {
      forall id: nat
        ensures Places(t0, s', id) == if id < s'.begun then 1 else 0
      {
        assert Places(t0, s, id) == if id < s.begun then 1 else 0;
        CountSnoc(s.done, s'.done[|s.done|], id);
      }
    }
  }

  /** Taking listed entries out of the table, as sweeps and cleans do. */
  lemma TakeKeeps(t0: nat, s: Table, order: seq<nat>, cause: Cause, lastCheck: nat)
    requires Inv(t0, s)
    requires Enumerates(order, Keys(order)) && Keys(order) <= s.pending.Keys
    ensures forall k | k in order :: k in s.pending
    ensures Inv(t0, s.(lastCheck := lastCheck, pending := s.pending - Keys(order),
                       ending := Listing(s.pending, order, cause) + s.ending))
  {
    hide Tid;
    assert forall k | k in order :: k in Keys(order);
    var l := Listing(s.pending, order, cause);
    var s' := s.(lastCheck := lastCheck, pending := s.pending - Keys(order), ending := l + s.ending);
    CountListing(t0, s, order, cause, 0);
    forall i | 0 <= i < |s'.ending|
      ensures s'.ending[i].tx.calls == 0
    {
      assert s'.ending[i] == if i < |l| then l[i] else s.ending[i - |l|];
    }
    assert Keyed(t0, s');
    forall id: nat
      ensures Places(t0, s', id) == if id < s'.begun then 1 else 0
    {
      assert Places(t0, s, id) == if id < s.begun then 1 else 0;
      CountListing(t0, s, order, cause, id);
      CountAppend(l, s.ending, id);
    }
  }

  lemma FinishKeeps(c: Client, t0: nat, s: Table, now: nat)
    requires Inv(t0, s) && s.ending != []
    ensures Inv(t0, Step(c, s, Finish(now)))
  {
    hide Tid;
    var s' := Step(c, s, Finish(now));
    assert Keyed(t0, s');
    forall id: nat
      ensures Places(t0, s', id) == if id < s'.begun then 1 else 0
    {
      assert Places(t0, s, id) == if id < s.begun then 1 else 0;
      CountSnoc(s.done, Local(s.ending[0], now), id);
    }
  }

  lemma StepKeeps(c: Client, t0: nat, s: Table, e: Event)
    requires Inv(t0, s) && Enabled(c, s, e)
    ensures Inv(t0, Step(c, s, e))
  {
    match e
    case Start(tx, now) => StartKeeps(c, t0, s, tx, now);
    case Reply(pdu, now) => ReplyKeeps(c, t0, s, pdu, now);
    case Sweep(now, order) =>
      if Due(s, now) {
        assert Keys(order) == Expired(c, s, now);
        TakeKeeps(t0, s, order, ByTimeout, now);
      }
    case Clean(order) =>
      assert Keys(order) == s.pending.Keys;
      TakeKeeps(t0, s, order, ByClean, s.lastCheck);
    case Finish(now) => FinishKeeps(c, t0, s, now);
  }

  lemma {:induction false} RunKeeps(c: Client, t0: nat, s: Table, es: seq<Event>)
    requires Inv(t0, s) && Legal(c, s, es)
    ensures Inv(t0, Run(c, s, es))
    decreases |es|
  {
    if es != [] {
      StepKeeps(c, t0, s, es[0]);
      RunKeeps(c, t0, Step(c, s, es[0]), es[1..]);
    }
  }

  lemma InitialInv(t0: nat, lastCheck: nat)
    requires t0 < TIDS
    ensures Inv(t0, Initial(t0, lastCheck))
  {
  }

  /** Exactly once and conservation, for every run of a channel: each transaction ever begun is in
      exactly one place; pending and waiting ones were never called back, done ones exactly once;
      and no live key belongs to two of them. */
  lemma ExactlyOnce(c: Client, t0: nat, lastCheck: nat, es: seq<Event>, id: nat)
    requires t0 < TIDS && Legal(c, Initial(t0, lastCheck), es)
    ensures var s := Run(c, Initial(t0, lastCheck), es);
            && Places(t0, s, id) == (if id < s.begun then 1 else 0)
            && (forall k | k in s.pending :: s.pending[k].stid == k && s.pending[k].calls == 0)
            && (forall i | 0 <= i < |s.ending| :: s.ending[i].tx.calls == 0)
            && (forall i | 0 <= i < |s.done| :: s.done[i].tx.calls == 1)
  {
    InitialInv(t0, lastCheck);
    RunKeeps(c, t0, Initial(t0, lastCheck), es);
  }

  /** What a callback is told: a timeout and a clean each say so. */
  ghost predicate Told(s: Table) {
    forall i | 0 <= i < |s.done| :: var e := s.done[i];
      && (e.cause.ByTimeout? ==> e.tx.ret == TimedOut && e.tx.desc == "local timeout")
      && (e.cause.ByClean? ==> e.tx.ret == TimedOut && e.tx.desc == "local clean")
  }

  ghost predicate Causes(s: Table) {
    forall i | 0 <= i < |s.ending| :: !s.ending[i].cause.ByReply?
  }

  lemma {:induction false} ListingCause(m: map<nat, Tx>, order: seq<nat>, cause: Cause)
    requires forall k | k in order :: k in m
    ensures forall i | 0 <= i < |Listing(m, order, cause)| :: Listing(m, order, cause)[i].cause == cause
  {
    if order != [] { ListingCause(m, order[1..], cause); }
  }

  lemma StepTold(c: Client, s: Table, e: Event)
    requires Told(s) && Causes(s) && Enabled(c, s, e)
    ensures Told(Step(c, s, e)) && Causes(Step(c, s, e))
  {
    hide Replied;
    if e.Clean? { ListingCause(s.pending, e.order, ByClean); }
    if e.Sweep? && Due(s, e.now) { ListingCause(s.pending, e.order, ByTimeout); }
  }

  lemma {:induction false} RunTold(c: Client, s: Table, es: seq<Event>)
    requires Told(s) && Causes(s) && Legal(c, s, es)
    ensures Told(Run(c, s, es))
    decreases |es|
  {
    hide Told, Causes, Step, Enabled;
    if es != [] {
      StepTold(c, s, es[0]);
      RunTold(c, Step(c, s, es[0]), es[1..]);
    }
  }

  /** Every transaction begun is pending, waiting for its callback, or called back. */
  ghost predicate Conserved(t0: nat, s: Table) {
    forall id: nat | id < s.begun :: Pending(t0, s, id) || Count(s.ending, id) > 0 || Count(s.done, id) > 0
  }

  lemma ConservedIsNoneLost(t0: nat, s: Table)
    requires Inv(t0, s)
    ensures Conserved(t0, s) <==> s.lost == []
  {
    hide Pending, Keyed;
    if s.lost != [] {
      var id := s.lost[0].id;
      assert Places(t0, s, id) == 1 && CountLost(s.lost, id) >= 1;
    } else {
      forall id: nat | id < s.begun
        ensures Pending(t0, s, id) || Count(s.ending, id) > 0 || Count(s.done, id) > 0
      {
        assert Places(t0, s, id) == 1;
      }
    }
  }

  /** No begin of this run finds the transaction begun 2^32 before it still pending. */
  ghost predicate NeverCollides(c: Client, t0: nat, s: Table, es: seq<Event>)
    requires Legal(c, s, es)
    decreases |es|
  {
    es == [] || ((es[0].Start? ==> !Collides(t0, s)) && NeverCollides(c, t0, Step(c, s, es[0]), es[1..]))
  }

  lemma {:induction false} LostExact(c: Client, t0: nat, s: Table, es: seq<Event>)
    requires Inv(t0, s) && Legal(c, s, es)
    ensures Run(c, s, es).lost == [] <==> s.lost == [] && NeverCollides(c, t0, s, es)
    decreases |es|
  {
    if es != [] {
      OverwriteExact(t0, s);
      StepKeeps(c, t0, s, es[0]);
      LostExact(c, t0, Step(c, s, es[0]), es[1..]);
    }
  }

  /** Conservation over a whole run holds if and only if no begin was made while the transaction
      begun 2^32 before it was still pending. */
  lemma ConservationExact(c: Client, t0: nat, lastCheck: nat, es: seq<Event>)
    requires t0 < TIDS && Legal(c, Initial(t0, lastCheck), es)
    ensures Conserved(t0, Run(c, Initial(t0, lastCheck), es)) <==> NeverCollides(c, t0, Initial(t0, lastCheck), es)
  {
    var s := Initial(t0, lastCheck);
    InitialInv(t0, lastCheck);
    RunKeeps(c, t0, s, es);
    LostExact(c, t0, s, es);
    ConservedIsNoneLost(t0, Run(c, s, es));
  }

  /** In particular, a channel that has begun at most 2^32 transactions has lost none. */
  lemma FewBeginsConserved(c: Client, t0: nat, lastCheck: nat, es: seq<Event>)
    requires t0 < TIDS && Legal(c, Initial(t0, lastCheck), es)
    requires Run(c, Initial(t0, lastCheck), es).begun <= TIDS
    ensures Conserved(t0, Run(c, Initial(t0, lastCheck), es))
  {
    InitialInv(t0, lastCheck);
    RunKeeps(c, t0, Initial(t0, lastCheck), es);
    var s := Run(c, Initial(t0, lastCheck), es);
    assert |s.lost| > 0 ==> s.lost[0].id + TIDS < s.begun;
    ConservedIsNoneLost(t0, s);
  }

  function Starts(tx: Tx, n: nat): seq<Event> {
    if n == 0 then [] else [Start(tx, 0)] + Starts(tx, n - 1)
  }

  lemma {:induction false} StartsRun(c: Client, s: Table, tx: Tx, n: nat)
    requires tx.calls == 0
    ensures Legal(c, s, Starts(tx, n))
    ensures var r := Run(c, s, Starts(tx, n)); r.begun == s.begun + n && r.done == s.done && r.ending == s.ending
    decreases n
  {
    if n > 0 {
      StartsRun(c, Step(c, s, Start(tx, 0)), tx, n - 1);
    }
  }

  /** One begin more than there are ids, with nothing ended in between, loses the first transaction:
      its callback is never made. */
  lemma WrapLoses(c: Client, t0: nat, lastCheck: nat, tx: Tx)
    requires t0 < TIDS && tx.calls == 0
    ensures Legal(c, Initial(t0, lastCheck), Starts(tx, TIDS + 1))
    ensures !Conserved(t0, Run(c, Initial(t0, lastCheck), Starts(tx, TIDS + 1)))
  {
    var s := Initial(t0, lastCheck);
    StartsRun(c, s, tx, TIDS + 1);
    InitialInv(t0, lastCheck);
    RunKeeps(c, t0, s, Starts(tx, TIDS + 1));
    var r := Run(c, s, Starts(tx, TIDS + 1));
    assert 0 < r.begun && !Pending(t0, r, 0) && Count(r.ending, 0) == 0 && Count(r.done, 0) == 0;
  }

  // ---- Sweeps and cleans ----

  /** What the callbacks of one sweep or clean do: each ends its transaction and may begin others,
      which enter the table at once. */
  function StartAll(c: Client, s: Table, rs: seq<Request>, now: nat): (r: Table)
    ensures r.ending == s.ending && r.done == s.done && r.lastCheck == s.lastCheck && r.begun == s.begun + |rs|
    decreases |rs|
  {
    if rs == [] then s else StartAll(c, Step(c, s, Start(Opened(rs[0]), now)), rs[1..], now)
  }

  lemma StartEnding(c: Client, s: Table, tx: Tx, now: nat, ending: seq<Ending>)
    requires tx.calls == 0
    ensures Step(c, s.(ending := ending), Start(tx, now)) == Step(c, s, Start(tx, now)).(ending := ending)
  {
  }

  /** What is waiting makes no difference to what a callback begins. */
  lemma {:induction false} StartAllEnding(c: Client, s: Table, rs: seq<Request>, now: nat, ending: seq<Ending>)
    ensures StartAll(c, s.(ending := ending), rs, now) == StartAll(c, s, rs, now).(ending := ending)
    decreases |rs|
  {
    hide Step, Opened;
    if rs != [] {
      StartEnding(c, s, Opened(rs[0]), now, ending);
      StartAllEnding(c, Step(c, s, Start(Opened(rs[0]), now)), rs[1..], now, ending);
    }
  }

  function Settle(c: Client, s: Table, now: nat): Table
    decreases |s.ending|
  {
    if s.ending == [] then s
    else Settle(c, StartAll(c, Step(c, s, Finish(now)), c.react(Local(s.ending[0], now)), now), now)
  }

  function Locals(es: seq<Ending>, now: nat): seq<Ending> {
    if es == [] then [] else [Local(es[0], now)] + Locals(es[1..], now)
  }

  lemma {:induction false} StartAllKeeps(c: Client, t0: nat, s: Table, rs: seq<Request>, now: nat)
    requires Inv(t0, s)
    ensures Inv(t0, StartAll(c, s, rs, now))
    ensures forall id: nat :: Pending(t0, StartAll(c, s, rs, now), id) <==>
              StartAll(c, s, rs, now).begun <= id + TIDS && (Pending(t0, s, id) || s.begun <= id < s.begun + |rs|)
    decreases |rs|
  {
    if rs == [] {
      assert forall id: nat :: Pending(t0, s, id) ==> s.begun <= id + TIDS;
    } else {
      StartKeyed(c, t0, s, Opened(rs[0]), now);
      StepKeeps(c, t0, s, Start(Opened(rs[0]), now));
      StartAllKeeps(c, t0, Step(c, s, Start(Opened(rs[0]), now)), rs[1..], now);
    }
  }

  /** All the callbacks made: every waiting transaction was called back, in order, and no other; what
      the callbacks began is pending, as is what was pending before, unless 2^32 begins overwrote it. */
  lemma {:induction false} SettleExact(c: Client, t0: nat, s: Table, now: nat)
    requires Inv(t0, s)
    ensures var r := Settle(c, s, now);
            && Inv(t0, r) && r.ending == [] && r.done == s.done + Locals(s.ending, now)
            && s.begun <= r.begun
            && (forall id: nat :: Pending(t0, r, id) <==>
                  r.begun <= id + TIDS && (Pending(t0, s, id) || s.begun <= id < r.begun))
    decreases |s.ending|
  {
    if s.ending == [] {
      assert s.done + [] == s.done;
    } else {
      var f := Step(c, s, Finish(now));
      StepKeeps(c, t0, s, Finish(now));
      StartAllKeeps(c, t0, f, c.react(Local(s.ending[0], now)), now);
      var r := StartAll(c, f, c.react(Local(s.ending[0], now)), now);
      SettleExact(c, t0, r, now);
      Append3(s.done, [Local(s.ending[0], now)], Locals(s.ending[1..], now));
      assert forall id: nat :: Pending(t0, f, id) <==> Pending(t0, s, id);
    }
  }

  /** A due timeout sweep, callbacks included, calls back exactly the expired transactions, each
      once, in whatever order the map was visited; all others stay, and what the callbacks begin is
      neither ended nor lost by the sweep. */
  lemma SweepExact(c: Client, t0: nat, s: Table, now: nat, order: seq<nat>)
    requires Inv(t0, s) && s.ending == [] && Due(s, now) && Enabled(c, s, Sweep(now, order))
    ensures var r := Settle(c, Step(c, s, Sweep(now, order)), now);
            && Inv(t0, r) && r.ending == [] && r.lastCheck == Step(c, s, Sweep(now, order)).lastCheck == now
            && r.done == s.done + Locals(Listing(s.pending, order, ByTimeout), now)
            && (forall id: nat :: Count(Listing(s.pending, order, ByTimeout), id)
                  == if Pending(t0, s, id) && now >= s.pending[Tid(t0, id)].gts + c.tm then 1 else 0)
            && (forall id: nat :: Pending(t0, r, id) <==>
                  && r.begun <= id + TIDS
                  && (s.begun <= id < r.begun || (Pending(t0, s, id) && now < s.pending[Tid(t0, id)].gts + c.tm)))
  {
    var m := Step(c, s, Sweep(now, order));
    StepKeeps(c, t0, s, Sweep(now, order));
    SettleExact(c, t0, m, now);
    SettleKeepsClock(c, m, now);
    assert Listing(s.pending, order, ByTimeout) + [] == Listing(s.pending, order, ByTimeout);
    forall id: nat
      ensures Count(Listing(s.pending, order, ByTimeout), id)
              == if Pending(t0, s, id) && now >= s.pending[Tid(t0, id)].gts + c.tm then 1 else 0
    {
      CountListing(t0, s, order, ByTimeout, id);
    }
    assert forall k :: k in order <==> k in Keys(order);
    forall id: nat
      ensures Pending(t0, m, id) <==> Pending(t0, s, id) && now < s.pending[Tid(t0, id)].gts + c.tm
    {
    }
  }

  lemma {:induction false} SettleKeepsClock(c: Client, s: Table, now: nat)
    ensures Settle(c, s, now).lastCheck == s.lastCheck
    decreases |s.ending|
  {
    if s.ending != [] {
      SettleKeepsClock(c, StartAll(c, Step(c, s, Finish(now)), c.react(Local(s.ending[0], now)), now), now);
    }
  }

  /** A clean, callbacks included, calls back exactly what was pending, each once, in whatever order;
      afterwards only what its callbacks began is pending. */
  lemma CleanExact(c: Client, t0: nat, s: Table, now: nat, order: seq<nat>)
    requires Inv(t0, s) && s.ending == [] && Enabled(c, s, Clean(order))
    ensures var r := Settle(c, Step(c, s, Clean(order)), now);
            && Inv(t0, r) && r.ending == []
            && r.done == s.done + Locals(Listing(s.pending, order, ByClean), now)
            && (forall id: nat :: Count(Listing(s.pending, order, ByClean), id) == if Pending(t0, s, id) then 1 else 0)
            && (forall id: nat :: Pending(t0, r, id) <==> r.begun <= id + TIDS && s.begun <= id < r.begun)
  {
    var m := Step(c, s, Clean(order));
    StepKeeps(c, t0, s, Clean(order));
    SettleExact(c, t0, m, now);
    assert Listing(s.pending, order, ByClean) + [] == Listing(s.pending, order, ByClean);
    assert forall k :: k in order <==> k in Keys(order);
    assert m.pending == map[];
    forall id: nat
      ensures Count(Listing(s.pending, order, ByClean), id) == if Pending(t0, s, id) then 1 else 0
    {
      CountListing(t0, s, order, ByClean, id);
    }
  }

  /** A sweep or clean with its callbacks is a run of single steps, so what holds of all runs holds
      of it. */
  lemma {:induction false} SettleIsRun(c: Client, s: Table, now: nat) returns (es: seq<Event>)
    ensures Legal(c, s, es) && Run(c, s, es) == Settle(c, s, now)
    decreases |s.ending|
  {
    if s.ending == [] {
      es := [];
    } else {
      var f := Step(c, s, Finish(now));
      var rs := c.react(Local(s.ending[0], now));
      var more := SettleIsRun(c, StartAll(c, f, rs, now), now);
      var all := StartAllIsRun(c, f, rs, now, more);
      es := [Finish(now)] + all;
      assert es[1..] == all;
    }
  }

  lemma {:induction false} StartAllIsRun(c: Client, s: Table, rs: seq<Request>, now: nat, more: seq<Event>)
      returns (es: seq<Event>)
    requires Legal(c, StartAll(c, s, rs, now), more)
    ensures Legal(c, s, es) && Run(c, s, es) == Run(c, StartAll(c, s, rs, now), more)
    decreases |rs|
  {
    if rs == [] {
      es := more;
    } else {
      var rest := StartAllIsRun(c, Step(c, s, Start(Opened(rs[0]), now)), rs[1..], now, more);
      es := [Start(Opened(rs[0]), now)] + rest;
      assert es[1..] == rest;
    }
  }
}
