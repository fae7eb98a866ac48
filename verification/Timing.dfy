/** When timeouts fire. The worker's clock is monotone; while a channel is established `dida` runs on
    it at gaps of at most d. On a channel that is down `dida` returns at once, if it runs at all. */
module Timing {
  import opened Codec
  import opened Proto
  import opened Trans
  import opened TransTable

  /** A channel with its clock, the time of the last dida call, whether it is established and since
      when it last is; at first all times are that of its creation. */
  datatype Timed = Timed(table: Table, clock: nat, dida: nat, est: bool, up: nat)

  datatype Moment = Tick(to: nat) | Act(e: Event) | Idle | Up | Down

  function Max(a: nat, b: nat): nat {
    if a < b then b else a
  }

  /** What may happen next on a channel created at c0: time passes, but on an established channel not
      past the next dida; or something happens now. Only an established channel is swept. A
      transaction is made on the channel before it enters the table. */
  ghost predicate May(c: Client, c0: nat, d: nat, s: Timed, m: Moment) {
    match m
    case Tick(to) => s.clock <= to && (s.est ==> to <= Max(s.dida, s.up) + d)
    case Idle => !s.est
    case Up => !s.est
    case Down => s.est
    case Act(e) =>
      && Enabled(c, s.table, e)
      && match e
         case Start(tx, now) => now == s.clock && c0 <= tx.gts <= now
         case Reply(_, now) => now == s.clock
         case Sweep(now, _) => now == s.clock && s.est
         case Finish(now) => now == s.clock
         case Clean(_) => true
  }

  function Next(c: Client, s: Timed, m: Moment): Timed
    requires m.Act? ==> Enabled(c, s.table, m.e)
  {
    match m
    case Tick(to) => s.(clock := to)
    case Idle => s.(dida := s.clock)
    case Up => s.(est := true, up := s.clock)
    case Down => s.(est := false)
    case Act(e) => s.(table := Step(c, s.table, e), dida := if e.Sweep? then s.clock else s.dida)
  }

  /** `check` is what lastCheckTransTs holds at creation: the clock for TCP, whatever was in memory
      for RUDP, whose constructor does not set it. An N2H channel is created established, an H2N
      channel is not. */
  function Created(t0: nat, check: nat, c0: nat, est: bool): Timed {
    Timed(Initial(t0, check), c0, c0, est, c0)
  }

  ghost predicate Possible(c: Client, c0: nat, d: nat, s: Timed, ms: seq<Moment>)
    decreases |ms|
  {
    ms == [] || (May(c, c0, d, s, ms[0]) && Possible(c, c0, d, Next(c, s, ms[0]), ms[1..]))
  }

  ghost function After(c: Client, c0: nat, d: nat, s: Timed, ms: seq<Moment>): Timed
    requires Possible(c, c0, d, s, ms)
    decreases |ms|
  {
    if ms == [] then s else After(c, c0, d, Next(c, s, ms[0]), ms[1..])
  }

  /** When a transaction may first be swept. */
  function Deadline(c: Client, t: Tx): nat {
    Max(t.gts + c.tm, t.its)
  }

  /** Nothing is pending 10 seconds and one dida gap past its deadline. */
  ghost predicate Bounded(c: Client, d: nat, s: Timed) {
    forall k | k in s.table.pending :: s.clock < Deadline(c, s.table.pending[k]) + 10 * SECOND + d
  }

  /** On an established channel, nothing is so past both its deadline and the last time the channel
      came up. */
  ghost predicate UpBounded(c: Client, d: nat, s: Timed) {
    s.est ==> forall k | k in s.table.pending ::
      s.clock < Max(Deadline(c, s.table.pending[k]), s.up) + 10 * SECOND + d
  }

  /** No transaction has timed out before its time. */
  ghost predicate NotEarly(c: Client, s: Timed) {
    && (forall i | 0 <= i < |s.table.ending| ::
          s.table.ending[i].cause.ByTimeout? ==> s.table.ending[i].tx.gts + c.tm <= s.clock)
    && (forall i | 0 <= i < |s.table.done| ::
          s.table.done[i].cause.ByTimeout? ==> s.table.done[i].tx.gts + c.tm <= s.table.done[i].tx.ets)
  }

  ghost predicate TimedInv(c: Client, c0: nat, d: nat, s: Timed) {
    && c0 <= s.dida <= s.clock && c0 <= s.up <= s.clock
    && (s.est ==> s.clock <= Max(s.dida, s.up) + d)
    && (s.est ==> s.dida <= s.up || s.dida < s.table.lastCheck + 10 * SECOND)
    && (forall k | k in s.table.pending ::
          s.table.lastCheck <= Deadline(c, s.table.pending[k]) && c0 <= s.table.pending[k].its)
    && s.table.lastCheck <= Max(s.clock, c0 + c.tm)
  }

  lemma ListingCauses(m: map<nat, Tx>, order: seq<nat>, cause: Cause, i: nat)
    requires (forall k | k in order :: k in m) && i < |Listing(m, order, cause)|
    ensures |Listing(m, order, cause)| == |order|
    ensures Listing(m, order, cause)[i] == Ending(m[order[i]], cause)
  {
    if i > 0 {
      ListingCauses(m, order[1..], cause, i - 1);
    } else if |order| > 1 {
      ListingLength(m, order, cause);
    }
  }

  lemma {:induction false} ListingLength(m: map<nat, Tx>, order: seq<nat>, cause: Cause)
    requires forall k | k in order :: k in m
    ensures |Listing(m, order, cause)| == |order|
  {
    if order != [] { ListingLength(m, order[1..], cause); }
  }

  lemma NextNotEarly(c: Client, c0: nat, d: nat, s: Timed, m: Moment)
    requires NotEarly(c, s) && May(c, c0, d, s, m)
    ensures NotEarly(c, Next(c, s, m))
  {
    var t := Next(c, s, m);
    if m.Act? && (m.e.Clean? || m.e.Sweep?) && t.table != s.table {
      var cause := if m.e.Clean? then ByClean else ByTimeout;
      var l := Listing(s.table.pending, m.e.order, cause);
      forall i | 0 <= i < |t.table.ending| && t.table.ending[i].cause.ByTimeout?
        ensures t.table.ending[i].tx.gts + c.tm <= t.clock
      {
        if i < |l| {
          ListingCauses(s.table.pending, m.e.order, cause, i);
          assert m.e.order[i] in m.e.order;
        } else {
          assert t.table.ending[i] == s.table.ending[i - |l|];
        }
      }
    }
  }

  lemma NextTimed(c: Client, c0: nat, d: nat, s: Timed, m: Moment)
    requires TimedInv(c, c0, d, s) && May(c, c0, d, s, m)
    ensures TimedInv(c, c0, d, Next(c, s, m))
  {
    if m.Act? && m.e.Sweep? && Due(s.table, m.e.now) {
      assert Keys(m.e.order) == Expired(c, s.table, m.e.now);
    }
  }

  /** Safety over every run: no timeout fires before its time, and, when the first sweep is not held
      back past c0 + tm, nothing stays pending on an established channel 10 seconds and a dida gap
      past its deadline and the last time the channel came up. */
  lemma {:induction false} TimeoutsHold(c: Client, c0: nat, d: nat, s: Timed, ms: seq<Moment>)
    requires Possible(c, c0, d, s, ms) && NotEarly(c, s)
    ensures NotEarly(c, After(c, c0, d, s, ms))
    ensures TimedInv(c, c0, d, s) ==>
              TimedInv(c, c0, d, After(c, c0, d, s, ms)) && UpBounded(c, d, After(c, c0, d, s, ms))
    decreases |ms|
  {
    if ms != [] {
      NextNotEarly(c, c0, d, s, ms[0]);
      if TimedInv(c, c0, d, s) {
        NextTimed(c, c0, d, s, ms[0]);
      }
      TimeoutsHold(c, c0, d, Next(c, s, ms[0]), ms[1..]);
    }
  }

  ghost predicate Stays(ms: seq<Moment>) {
    forall i | 0 <= i < |ms| :: !ms[i].Down?
  }

  lemma {:induction false} StaysUp(c: Client, c0: nat, d: nat, s: Timed, ms: seq<Moment>)
    requires Possible(c, c0, d, s, ms) && s.est && s.up == c0 && Stays(ms)
    ensures After(c, c0, d, s, ms).est && After(c, c0, d, s, ms).up == c0
    decreases |ms|
  {
    if ms != [] {
      assert !ms[0].Down?;
      StaysUp(c, c0, d, Next(c, s, ms[0]), ms[1..]);
    }
  }

  /** The bound for established channels holds over all runs, through any losses and reconnects. */
  ghost predicate AlwaysUpBounded(c: Client, t0: nat, check: nat, c0: nat, d: nat, est: bool) {
    forall ms | Possible(c, c0, d, Created(t0, check, c0, est), ms) ::
      UpBounded(c, d, After(c, c0, d, Created(t0, check, c0, est), ms))
  }

  /** The plain bound holds over all runs; `drops` says whether the channel may be lost in them. */
  ghost predicate AlwaysBounded(c: Client, t0: nat, check: nat, c0: nat, d: nat, est: bool, drops: bool) {
    forall ms | Possible(c, c0, d, Created(t0, check, c0, est), ms) && (drops || Stays(ms)) ::
      Bounded(c, d, After(c, c0, d, Created(t0, check, c0, est), ms))
  }

  /** A dida at each of n ticks, none of which is due. */
  function Ticks(from: nat, n: nat): seq<Moment>
    decreases n
  {
    if n == 0 then [] else [Tick(from + 1), Act(Sweep(from + 1, []))] + Ticks(from + 1, n - 1)
  }

  lemma {:induction false} TicksRun(c: Client, c0: nat, d: nat, s: Timed, n: nat)
    requires d >= 1 && s.est && s.dida == s.clock && s.clock + n < s.table.lastCheck + 10 * SECOND
    ensures Possible(c, c0, d, s, Ticks(s.clock, n)) && Stays(Ticks(s.clock, n))
    ensures After(c, c0, d, s, Ticks(s.clock, n)) == s.(clock := s.clock + n, dida := s.clock + n)
    decreases n
  {
    if n > 0 {
      var ms := Ticks(s.clock, n);
      var s1 := Next(c, s, ms[0]);
      assert ms[1..][0] == Act(Sweep(s.clock + 1, []));
      assert ms[1..][1..] == Ticks(s.clock + 1, n - 1);
      TicksRun(c, c0, d, Next(c, s1, ms[1..][0]), n - 1);
      assert After(c, c0, d, s1, ms[1..]) == After(c, c0, d, Next(c, s1, ms[1..][0]), ms[1..][1..]);
    }
  }

  lemma {:induction false} PossibleAppend(c: Client, c0: nat, d: nat, s: Timed, a: seq<Moment>, b: seq<Moment>)
    requires Possible(c, c0, d, s, a) && Possible(c, c0, d, After(c, c0, d, s, a), b)
    ensures Possible(c, c0, d, s, a + b)
    ensures After(c, c0, d, s, a + b) == After(c, c0, d, After(c, c0, d, s, a), b)
    decreases |a|
  {
    if a == [] {
      assert a + b == b;
    } else {
      PossibleAppend(c, c0, d, Next(c, s, a[0]), a[1..], b);
      assert (a + b)[1..] == a[1..] + b;
    }
  }

  lemma OneMoment(c: Client, c0: nat, d: nat, s: Timed, m: Moment)
    requires May(c, c0, d, s, m)
    ensures Possible(c, c0, d, s, [m]) && After(c, c0, d, s, [m]) == Next(c, s, m)
  {
    assert [m][1..] == [];
  }

  lemma PossibleCons(c: Client, c0: nat, d: nat, s: Timed, m: Moment, ms: seq<Moment>)
    requires May(c, c0, d, s, m) && Possible(c, c0, d, Next(c, s, m), ms)
    ensures Possible(c, c0, d, s, [m] + ms) && After(c, c0, d, s, [m] + ms) == After(c, c0, d, Next(c, s, m), ms)
  {
    assert ([m] + ms)[1..] == ms;
  }

  /** A channel whose lastCheckTransTs starts past c0 + tm can keep a transaction beyond the bound. */
  lemma LateFirstSweep(c: Client, t0: nat, check: nat, c0: nat, d: nat, est: bool) returns (ms: seq<Moment>)
    requires check > c0 + c.tm && d >= 1
    ensures Possible(c, c0, d, Created(t0, check, c0, est), ms) && Stays(ms)
    ensures !UpBounded(c, d, After(c, c0, d, Created(t0, check, c0, est), ms))
    ensures !Bounded(c, d, After(c, c0, d, Created(t0, check, c0, est), ms))
  {
    var s := Created(t0, check, c0, true);
    ms := LateWhenUp(c, t0, check, c0, d);
    if !est {
      assert Next(c, Created(t0, check, c0, false), Up) == s;
      hide Possible, After, Bounded, UpBounded, May, Next;
      assert May(c, c0, d, Created(t0, check, c0, false), Up) by { UpMay(c, c0, d, Created(t0, check, c0, false)); }
      PossibleCons(c, c0, d, Created(t0, check, c0, false), Up, ms);
      ms := [Up] + ms;
    }
  }

  lemma UpMay(c: Client, c0: nat, d: nat, s: Timed)
    requires !s.est
    ensures May(c, c0, d, s, Up)
  {
  }

  lemma LateWhenUp(c: Client, t0: nat, check: nat, c0: nat, d: nat) returns (ms: seq<Moment>)
    requires check > c0 + c.tm && d >= 1
    ensures Possible(c, c0, d, Created(t0, check, c0, true), ms) && Stays(ms)
    ensures !UpBounded(c, d, After(c, c0, d, Created(t0, check, c0, true), ms))
    ensures !Bounded(c, d, After(c, c0, d, Created(t0, check, c0, true), ms))
  {
    var s := Created(t0, check, c0, true);
    var tx := Fresh(c0, false, None, None, None);
    var n := check + 10 * SECOND - 1 - c0;
    var s1 := Next(c, s, Act(Start(tx, c0)));
    TicksRun(c, c0, d, s1, n);
    var s2 := After(c, c0, d, s1, Ticks(c0, n));
    var last := [Tick(s2.clock + d)];
    OneMoment(c, c0, d, s2, last[0]);
    PossibleAppend(c, c0, d, s1, Ticks(c0, n), last);
    PossibleCons(c, c0, d, s, Act(Start(tx, c0)), Ticks(c0, n) + last);
    ms := [Act(Start(tx, c0))] + (Ticks(c0, n) + last);
    var r := After(c, c0, d, s, ms);
    var k := NextTid(s.table);
    assert k in r.table.pending && r.table.pending[k].gts == r.table.pending[k].its == c0;
  }

  /** On a channel that is down, by creation or by loss, a transaction begun stays pending for as
      long as it stays down. */
  lemma DownKeeps(c: Client, t0: nat, check: nat, c0: nat, d: nat, est: bool, wait: nat) returns (ms: seq<Moment>)
    ensures Possible(c, c0, d, Created(t0, check, c0, est), ms) && (!est ==> Stays(ms))
    ensures var r := After(c, c0, d, Created(t0, check, c0, est), ms);
            r.clock == c0 + wait && exists k :: k in r.table.pending && Deadline(c, r.table.pending[k]) == c0 + c.tm
  {
    var s := Created(t0, check, c0, false);
    var tx := Fresh(c0, false, None, None, None);
    var s1 := Next(c, s, Act(Start(tx, c0)));
    OneMoment(c, c0, d, s1, Tick(c0 + wait));
    PossibleCons(c, c0, d, s, Act(Start(tx, c0)), [Tick(c0 + wait)]);
    ms := [Act(Start(tx, c0))] + [Tick(c0 + wait)];
    var r := After(c, c0, d, s, ms);
    assert NextTid(s.table) in r.table.pending && Deadline(c, r.table.pending[NextTid(s.table)]) == c0 + c.tm;
    if est {
      assert May(c, c0, d, Created(t0, check, c0, true), Down) && Next(c, Created(t0, check, c0, true), Down) == s;
      PossibleCons(c, c0, d, Created(t0, check, c0, true), Down, ms);
      ms := [Down] + ms;
    }
  }

  /** The bound for established channels holds over all runs of a channel, whatever is lost and set up
      again in them, if and only if its lastCheckTransTs starts no later than its creation plus the
      timeout. */
  lemma TimeoutBoundExact(c: Client, t0: nat, check: nat, c0: nat, d: nat, est: bool)
    requires d >= 1
    ensures AlwaysUpBounded(c, t0, check, c0, d, est) <==> check <= c0 + c.tm
  {
    if check <= c0 + c.tm {
      forall ms | Possible(c, c0, d, Created(t0, check, c0, est), ms)
        ensures UpBounded(c, d, After(c, c0, d, Created(t0, check, c0, est), ms))
      {
        TimeoutsHold(c, c0, d, Created(t0, check, c0, est), ms);
      }
    } else {
      var ms := LateFirstSweep(c, t0, check, c0, d, est);
    }
  }

  /** The plain bound holds over all runs if and only if, besides, the channel is created established
      and is never lost. */
  lemma PlainBoundExact(c: Client, t0: nat, check: nat, c0: nat, d: nat, est: bool, drops: bool)
    requires d >= 1
    ensures AlwaysBounded(c, t0, check, c0, d, est, drops) <==> check <= c0 + c.tm && est && !drops
  {
    var s := Created(t0, check, c0, est);
    if check > c0 + c.tm {
      var ms := LateFirstSweep(c, t0, check, c0, d, est);
    } else if !est || drops {
      var ms := DownKeeps(c, t0, check, c0, d, est, c.tm + 10 * SECOND + d);
      assert !Bounded(c, d, After(c, c0, d, s, ms));
    } else {
      forall ms | Possible(c, c0, d, s, ms) && Stays(ms)
        ensures Bounded(c, d, After(c, c0, d, s, ms))
      {
        TimeoutsHold(c, c0, d, s, ms);
        StaysUp(c, c0, d, s, ms);
      }
    }
  }
}
