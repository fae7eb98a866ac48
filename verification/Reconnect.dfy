/** The reconnect guard of an H2N channel: callers of connect(), the detached svc threads they start
    and the worker's queue of futures, interleaved one access to shared state at a time. */
module Reconnect {

  datatype Caller = Entered | Checked | Won | Left

  /** Where a svc thread stands: before its test of needWait, at the top of its loop, connecting,
      connected and about to release `trying`, or ended. */
  datatype Svc = Spawned | Looping | Connecting | Releasing | Ended

  datatype Future = Enlist | Establish(cfd: nat)

  /** `listed` counts how often the channel was put in h2ns, `tries` and `waits` the connection
      attempts and the sleeps before them, `doubled` how often a connection was set up over one that
      was still established. */
  datatype H2N = H2N(
    est: bool, cfd: nat, trying: bool, needWait: bool,
    callers: seq<Caller>, svcs: seq<Svc>, futures: seq<Future>,
    listed: nat, tries: nat, waits: nat, doubled: nat)

  datatype Move =
    | Call
    | Check(i: nat)
    | Exchange(i: nat)
    | Spawn(i: nat)
    | Begin(j: nat)
    | Turn(j: nat)
    | Fail(j: nat)
    | Connect(j: nat, cfd: nat)
    | Release(j: nat)
    | RunFuture
    | Lost

  predicate At(h: H2N, j: nat, at: Svc) {
    j < |h.svcs| && h.svcs[j] == at
  }

  predicate CallerAt(h: H2N, i: nat, at: Caller) {
    i < |h.callers| && h.callers[i] == at
  }

  predicate CanMove(h: H2N, m: Move) {
    match m
    case Call => true
    case Check(i) => CallerAt(h, i, Entered)
    case Exchange(i) => CallerAt(h, i, Checked)
    case Spawn(i) => CallerAt(h, i, Won)
    case Begin(j) => At(h, j, Spawned)
    case Turn(j) => At(h, j, Looping)
    case Fail(j) => At(h, j, Connecting)
    case Connect(j, _) => At(h, j, Connecting)
    case Release(j) => At(h, j, Releasing)
    case RunFuture => h.futures != []
    case Lost => h.est
  }

  function Moved(h: H2N, m: Move): H2N
    requires CanMove(h, m)
  {
    match m
    case Call => h.(callers := h.callers + [Entered])
    case Check(i) => h.(callers := h.callers[i := if h.est then Left else Checked])
    case Exchange(i) => h.(callers := h.callers[i := if h.trying then Left else Won], trying := true)
    case Spawn(i) => h.(callers := h.callers[i := Left], svcs := h.svcs + [Spawned])
    case Begin(j) =>
      h.(svcs := h.svcs[j := Looping], futures := if h.needWait then h.futures else h.futures + [Enlist])
    case Turn(j) =>
      h.(svcs := h.svcs[j := Connecting], needWait := true, tries := h.tries + 1,
         waits := if h.needWait then h.waits + 1 else h.waits)
    case Fail(j) => h.(svcs := h.svcs[j := Looping])
    case Connect(j, cfd) => h.(svcs := h.svcs[j := Releasing], futures := h.futures + [Establish(cfd)])
    case Release(j) => h.(svcs := h.svcs[j := Ended], trying := false)
    case RunFuture =>
      var rest := h.(futures := h.futures[1..]);
      if h.futures[0].Enlist? then rest.(listed := h.listed + 1)
      else rest.(est := true, cfd := h.futures[0].cfd, doubled := if h.est then h.doubled + 1 else h.doubled)
    case Lost => h.(est := false)
  }

  ghost predicate Interleaves(h: H2N, ms: seq<Move>)
    decreases |ms|
  {
    ms == [] || (CanMove(h, ms[0]) && Interleaves(Moved(h, ms[0]), ms[1..]))
  }

  ghost function Result(h: H2N, ms: seq<Move>): H2N
    requires Interleaves(h, ms)
    decreases |ms|
  {
    if ms == [] then h else Result(Moved(h, ms[0]), ms[1..])
  }

  function Built(): H2N {
    H2N(false, 0, false, false, [], [], [], 0, 0, 0, 0)
  }

  /** How many threads stand between a winning exchange and its release. */
  function Winners(callers: seq<Caller>): nat {
    if callers == [] then 0 else (if callers[0].Won? then 1 else 0) + Winners(callers[1..])
  }

  /** Only the last svc thread can be running. */
  predicate Active(svcs: seq<Svc>) {
    svcs != [] && !svcs[|svcs| - 1].Ended?
  }

  function Enlists(fs: seq<Future>): nat {
    if fs == [] then 0 else (if fs[0].Enlist? then 1 else 0) + Enlists(fs[1..])
  }

  lemma {:induction false} WinnersUpdate(s: seq<Caller>, i: nat, x: Caller)
    requires i < |s|
    ensures Winners(s[i := x]) == Winners(s) - (if s[i].Won? then 1 else 0) + (if x.Won? then 1 else 0)
    ensures s[i].Won? ==> Winners(s) > 0
  {
    if i > 0 {
      WinnersUpdate(s[1..], i - 1, x);
      assert s[i := x][1..] == s[1..][i - 1 := x];
    } else {
      assert s[i := x][1..] == s[1..];
    }
  }

  lemma {:induction false} WinnersSnoc(s: seq<Caller>, x: Caller)
    ensures Winners(s + [x]) == Winners(s) + if x.Won? then 1 else 0
  {
    if s == [] {
      assert s + [x] == [x] && [x][1..] == [];
    } else {
      WinnersSnoc(s[1..], x);
      assert (s + [x])[1..] == s[1..] + [x];
    }
  }

  lemma {:induction false} EnlistsSnoc(s: seq<Future>, x: Future)
    ensures Enlists(s + [x]) == Enlists(s) + if x.Enlist? then 1 else 0
    ensures Enlists(s) <= |s|
  {
    if s == [] {
      assert s + [x] == [x] && [x][1..] == [];
    } else {
      EnlistsSnoc(s[1..], x);
      assert (s + [x])[1..] == s[1..] + [x];
    }
  }

  ghost predicate Guarded(h: H2N) {
    && Winners(h.callers) + (if Active(h.svcs) then 1 else 0) == (if h.trying then 1 else 0)
    && (forall j | 0 <= j < |h.svcs| - 1 :: h.svcs[j].Ended?)
    && Enlists(h.futures) + h.listed == (if h.svcs == [] || h.svcs[0].Spawned? then 0 else 1)
    && (h.needWait <==> h.tries > 0)
    && h.tries == h.waits + (if h.needWait then 1 else 0)
    && (h.tries == 0 ==> h.svcs == [] || (|h.svcs| == 1 && (h.svcs[0].Spawned? || h.svcs[0].Looping?)))
    && (h.svcs == [] || h.svcs == [Spawned] ==> h.tries == 0)
  }

  lemma MoveGuarded(h: H2N, m: Move)
    requires Guarded(h) && CanMove(h, m)
    ensures Guarded(Moved(h, m))
  {
    hide *;
    if m.Begin? || m.Turn? || m.Fail? || m.Connect? || m.Release? {
      SvcGuarded(h, m);
    } else if m.Spawn? {
      SpawnGuarded(h, m.i);
    } else {
      CallerGuarded(h, m);
    }
  }

  lemma CallerGuarded(h: H2N, m: Move)
    requires Guarded(h) && CanMove(h, m)
    requires m.Call? || m.Check? || m.Exchange? || m.RunFuture? || m.Lost?
    ensures Guarded(Moved(h, m))
  {
    match m
    case Call => WinnersSnoc(h.callers, Entered);
    case Check(i) => WinnersUpdate(h.callers, i, if h.est then Left else Checked);
    case Exchange(i) => WinnersUpdate(h.callers, i, if h.trying then Left else Won);
    case _ =>
  }

  lemma SpawnGuarded(h: H2N, i: nat)
    requires Guarded(h) && CanMove(h, Spawn(i))
    ensures Guarded(Moved(h, Spawn(i)))
  {
    WinnersUpdate(h.callers, i, Left);
  }

  lemma SvcGuarded(h: H2N, m: Move)
    requires Guarded(h) && CanMove(h, m)
    requires m.Begin? || m.Turn? || m.Fail? || m.Connect? || m.Release?
    ensures Guarded(Moved(h, m))
  {
    assert m.j == |h.svcs| - 1;
    if m.Begin? { EnlistsSnoc(h.futures, Enlist); }
    if m.Connect? { EnlistsSnoc(h.futures, Establish(m.cfd)); }
  }

  lemma {:induction false} RunGuarded(h: H2N, ms: seq<Move>)
    requires Guarded(h) && Interleaves(h, ms)
    ensures Guarded(Result(h, ms))
    decreases |ms|
  {
    hide Guarded, Moved;
    if ms != [] {
      MoveGuarded(h, ms[0]);
      RunGuarded(Moved(h, ms[0]), ms[1..]);
    }
  }

  ghost predicate Reachable(h: H2N) {
    exists ms :: Interleaves(Built(), ms) && Result(Built(), ms) == h
  }

  lemma BuiltGuarded()
    ensures Guarded(Built())
  {
  }

  lemma ReachableGuarded(h: H2N)
    requires Reachable(h)
    ensures Guarded(h)
  {
    hide Guarded, Built;
    BuiltGuarded();
    var ms :| Interleaves(Built(), ms) && Result(Built(), ms) == h;
    RunGuarded(Built(), ms);
  }

  lemma {:induction false} WinnersSome(s: seq<Caller>)
    ensures Winners(s) > 0 <==> exists i :: 0 <= i < |s| && s[i].Won?
    ensures Winners(s) <= 1 ==> forall i, j | 0 <= i < j < |s| :: !(s[i].Won? && s[j].Won?)
  {
    if s != [] {
      WinnersSome(s[1..]);
      assert forall j | 0 < j < |s| :: s[j] == s[1..][j - 1];
      if Winners(s[1..]) > 0 {
        var i :| 0 <= i < |s[1..]| && s[1..][i].Won?;
        assert s[i + 1].Won?;
      }
    }
  }

  ghost predicate SomeoneWon(h: H2N) {
    exists i :: 0 <= i < |h.callers| && h.callers[i].Won?
  }

  ghost predicate SomeoneRuns(h: H2N) {
    exists j :: 0 <= j < |h.svcs| && !h.svcs[j].Ended?
  }

  /** The guard over every interleaving: at most one thread stands between a winning exchange and
      its release, and `trying` says exactly whether one does; the channel is queued for h2ns once,
      by the first svc as its first act, and never again; and every attempt but the very first one
      is preceded by a wait. */
  lemma OneAttemptAtATime(h: H2N)
    requires Reachable(h)
    ensures forall i, j | 0 <= i < j < |h.svcs| :: h.svcs[i].Ended? || h.svcs[j].Ended?
    ensures forall i, j | 0 <= i < j < |h.callers| :: !(h.callers[i].Won? && h.callers[j].Won?)
    ensures !(SomeoneWon(h) && SomeoneRuns(h))
    ensures h.trying <==> SomeoneWon(h) || SomeoneRuns(h)
    ensures h.listed + Enlists(h.futures) == if h.svcs != [] && !h.svcs[0].Spawned? then 1 else 0
    ensures h.tries == h.waits + if h.tries > 0 then 1 else 0
  {
    ReachableGuarded(h);
    WinnersSome(h.callers);
    assert Active(h.svcs) ==> !h.svcs[|h.svcs| - 1].Ended?;
  }

  /** No caller has passed the test of `est`. */
  ghost predicate NoneTrying(h: H2N) {
    forall i | 0 <= i < |h.callers| :: h.callers[i].Entered? || h.callers[i].Left?
  }

  /** While a channel is established and stays so, calling connect() starts no thread. */
  lemma {:induction false} EstablishedStartsNothing(h: H2N, ms: seq<Move>)
    requires Interleaves(h, ms) && h.est && NoneTrying(h) && forall k | 0 <= k < |ms| :: !ms[k].Lost?
    ensures Result(h, ms).est && NoneTrying(Result(h, ms)) && |Result(h, ms).svcs| == |h.svcs|
    decreases |ms|
  {
    if ms != [] {
      EstablishedStep(h, ms[0]);
      hide Moved, CanMove, NoneTrying;
      EstablishedStartsNothing(Moved(h, ms[0]), ms[1..]);
    }
  }

  lemma EstablishedStep(h: H2N, m: Move)
    requires CanMove(h, m) && h.est && NoneTrying(h) && !m.Lost?
    ensures Moved(h, m).est && NoneTrying(Moved(h, m)) && |Moved(h, m).svcs| == |h.svcs|
  {
  }

  /** The threads that are through with connecting. */
  function Through(svcs: seq<Svc>): nat {
    if svcs == [] then 0 else (if svcs[0].Releasing? || svcs[0].Ended? then 1 else 0) + Through(svcs[1..])
  }

  function Successes(ms: seq<Move>): nat {
    if ms == [] then 0 else (if ms[0].Connect? then 1 else 0) + Successes(ms[1..])
  }

  lemma {:induction false} ThroughUpdate(s: seq<Svc>, j: nat, x: Svc)
    requires j < |s|
    ensures Through(s[j := x]) + (if s[j].Releasing? || s[j].Ended? then 1 else 0)
            == Through(s) + (if x.Releasing? || x.Ended? then 1 else 0)
  {
    if j > 0 {
      ThroughUpdate(s[1..], j - 1, x);
      assert s[j := x][1..] == s[1..][j - 1 := x];
    } else {
      assert s[j := x][1..] == s[1..];
    }
  }

  lemma {:induction false} ThroughSpawn(s: seq<Svc>)
    ensures Through(s + [Spawned]) == Through(s)
  {
    if s == [] {
      assert s + [Spawned] == [Spawned] && [Spawned][1..] == [];
    } else {
      ThroughSpawn(s[1..]);
      assert (s + [Spawned])[1..] == s[1..] + [Spawned];
    }
  }

  lemma MoveThrough(h: H2N, m: Move)
    requires CanMove(h, m)
    ensures Through(Moved(h, m).svcs) == Through(h.svcs) + if m.Connect? then 1 else 0
  {
    match m
    case Spawn(_) => ThroughSpawn(h.svcs);
    case Begin(j) => ThroughUpdate(h.svcs, j, Looping);
    case Turn(j) => ThroughUpdate(h.svcs, j, Connecting);
    case Fail(j) => ThroughUpdate(h.svcs, j, Looping);
    case Connect(j, _) => ThroughUpdate(h.svcs, j, Releasing);
    case Release(j) => ThroughUpdate(h.svcs, j, Ended);
    case _ =>
  }

  /** A thread does not give up: those that have left their loop are as many as have connected. */
  lemma {:induction false} EndsByConnecting(h: H2N, ms: seq<Move>)
    requires Interleaves(h, ms)
    ensures Through(Result(h, ms).svcs) == Through(h.svcs) + Successes(ms)
    decreases |ms|
  {
    hide Moved, CanMove;
    if ms != [] {
      MoveThrough(h, ms[0]);
      EndsByConnecting(Moved(h, ms[0]), ms[1..]);
    }
  }

  function Connections(ms: seq<Move>): set<nat> {
    set k | 0 <= k < |ms| && ms[k].Connect? :: ms[k].cfd
  }

  /** Of these connections come the present one and those still to be set up. */
  ghost predicate From(h: H2N, cfds: set<nat>) {
    (h.est ==> h.cfd in cfds) && forall k | 0 <= k < |h.futures| && h.futures[k].Establish? :: h.futures[k].cfd in cfds
  }

  lemma {:induction false} RunFrom(h: H2N, ms: seq<Move>, cfds: set<nat>)
    requires Interleaves(h, ms) && From(h, cfds)
    ensures From(Result(h, ms), cfds + Connections(ms))
    decreases |ms|
  {
    if ms == [] {
      assert cfds + Connections(ms) == cfds;
    } else {
      var more := if ms[0].Connect? then cfds + {ms[0].cfd} else cfds;
      assert From(Moved(h, ms[0]), more);
      hide Moved, CanMove, From;
      RunFrom(Moved(h, ms[0]), ms[1..], more);
      assert more + Connections(ms[1..]) == cfds + Connections(ms) by {
        assert forall k | 0 < k < |ms| :: ms[k] == ms[1..][k - 1];
        assert forall k | 0 <= k < |ms[1..]| :: ms[1..][k] == ms[k + 1];
      }
    }
  }

  /** An established channel uses the descriptor of a connection that an svc thread made. */
  lemma EstablishedByConnect(ms: seq<Move>)
    requires Interleaves(Built(), ms) && Result(Built(), ms).est
    ensures exists k :: 0 <= k < |ms| && ms[k].Connect? && ms[k].cfd == Result(Built(), ms).cfd
  {
    RunFrom(Built(), ms, {});
    assert Result(Built(), ms).cfd in {} + Connections(ms);
  }

  // ---- A second connection ----

  function Attempts(h: H2N): nat {
    Winners(h.callers) + if Active(h.svcs) && !h.svcs[|h.svcs| - 1].Releasing? then 1 else 0
  }

  /** Connections that are up, about to be set up by a queued future, or being attempted. */
  function Links(h: H2N): int {
    (if h.est then 1 else 0) + (|h.futures| - Enlists(h.futures)) + Attempts(h)
  }

  /** Without a further winner of the exchange, can a connection be set up over an established one? */
  ghost predicate CanDouble(h: H2N) {
    exists ms :: Settles(h, ms) && Result(h, ms).doubled > h.doubled
  }

  ghost predicate Settles(h: H2N, ms: seq<Move>) {
    Interleaves(h, ms) && forall k | 0 <= k < |ms| :: !ms[k].Exchange?
  }

  lemma MoveLinks(h: H2N, m: Move)
    requires Guarded(h) && CanMove(h, m) && !m.Exchange?
    ensures Links(Moved(h, m)) <= Links(h)
    ensures Links(h) < 2 ==> Moved(h, m).doubled == h.doubled
    ensures !m.Lost? && !(m.RunFuture? && h.est && h.futures[0].Establish?) ==> Links(Moved(h, m)) == Links(h)
  {
    if m.Begin? || m.Turn? || m.Fail? || m.Connect? || m.Release? {
      SvcLinks(h, m);
    } else if m.Spawn? {
      WinnersUpdate(h.callers, m.i, Left);
    } else {
      CallerLinks(h, m);
    }
  }

  lemma SvcLinks(h: H2N, m: Move)
    requires Guarded(h) && CanMove(h, m)
    requires m.Begin? || m.Turn? || m.Fail? || m.Connect? || m.Release?
    ensures Links(Moved(h, m)) == Links(h) && Moved(h, m).doubled == h.doubled
  {
    assert m.j == |h.svcs| - 1;
    if m.Begin? { EnlistsSnoc(h.futures, Enlist); }
    if m.Connect? { EnlistsSnoc(h.futures, Establish(m.cfd)); }
  }

  lemma CallerLinks(h: H2N, m: Move)
    requires CanMove(h, m) && (m.Call? || m.Check? || m.RunFuture? || m.Lost?)
    ensures Links(Moved(h, m)) <= Links(h)
    ensures Links(h) < 2 ==> Moved(h, m).doubled == h.doubled
    ensures !m.Lost? && !(m.RunFuture? && h.est && h.futures[0].Establish?) ==> Links(Moved(h, m)) == Links(h)
  {
    match m
    case Call => WinnersSnoc(h.callers, Entered);
    case Check(i) => WinnersUpdate(h.callers, i, if h.est then Left else Checked);
    case RunFuture => EnlistsSnoc(h.futures[1..], Enlist);
    case _ =>
  }

  lemma {:induction false} SettleLinks(h: H2N, ms: seq<Move>)
    requires Guarded(h) && Settles(h, ms) && Links(h) < 2
    ensures Result(h, ms).doubled == h.doubled
    decreases |ms|
  {
    hide Guarded, Moved, Links;
    if ms != [] {
      MoveLinks(h, ms[0]);
      MoveGuarded(h, ms[0]);
      SettleLinks(Moved(h, ms[0]), ms[1..]);
    }
  }

  lemma SettlesCons(h: H2N, m: Move, ms: seq<Move>)
    requires CanMove(h, m) && !m.Exchange? && Settles(Moved(h, m), ms)
    ensures Settles(h, [m] + ms) && Result(h, [m] + ms) == Result(Moved(h, m), ms)
  {
    hide CanMove, Moved;
    assert ([m] + ms)[1..] == ms;
  }

  /** How far the attempt in progress is from its connection. */
  function Stage(h: H2N): nat {
    if Winners(h.callers) > 0 then 4
    else if !Active(h.svcs) then 0
    else match h.svcs[|h.svcs| - 1]
      case Spawned => 3
      case Looping => 2
      case Connecting => 1
      case _ => 0
  }

  lemma NextMove(h: H2N) returns (m: Move)
    requires Guarded(h) && Links(h) >= 2
    ensures CanMove(h, m) && !m.Exchange? && !m.Lost?
    ensures if h.futures != [] then m == RunFuture else !m.RunFuture?
    ensures h.futures != [] ==> Stage(Moved(h, m)) == Stage(h)
    ensures h.futures == [] ==> Stage(Moved(h, m)) < Stage(h)
  {
    WinnersSome(h.callers);
    if h.futures != [] {
      m := RunFuture;
    } else if Winners(h.callers) > 0 {
      var i :| 0 <= i < |h.callers| && h.callers[i].Won?;
      WinnersUpdate(h.callers, i, Left);
      m := Spawn(i);
    } else {
      var j := |h.svcs| - 1;
      m := if h.svcs[j].Spawned? then Begin(j) else if h.svcs[j].Looping? then Turn(j) else Connect(j, 1);
    }
  }

  lemma {:induction false} Drive(h: H2N) returns (ms: seq<Move>)
    requires Guarded(h) && Links(h) >= 2
    ensures Settles(h, ms) && Result(h, ms).doubled > h.doubled
    decreases Stage(h), |h.futures|
  {
    var m := NextMove(h);
    MoveLinks(h, m);
    MoveGuarded(h, m);
    if m.RunFuture? && h.est && h.futures[0].Establish? {
      SettlesCons(h, m, []);
      ms := [m] + [];
    } else {
      assert Moved(h, m).doubled == h.doubled;
      var rest := Drive(Moved(h, m));
      SettlesCons(h, m, rest);
      ms := [m] + rest;
    }
  }

  /** A connection can be set up over an established one exactly when two links exist. */
  lemma DoubleExact(h: H2N)
    requires Reachable(h)
    ensures CanDouble(h) <==> Links(h) >= 2
  {
    ReachableGuarded(h);
    if CanDouble(h) {
      var ms :| Settles(h, ms) && Result(h, ms).doubled > h.doubled;
      if Links(h) < 2 {
        SettleLinks(h, ms);
      }
    }
    if Links(h) >= 2 {
      var ms := Drive(h);
      assert Settles(h, ms);
    }
  }

  /** The test of `est` in connect() is made before the exchange, and `est` is set by a future that
      may still be queued when `trying` is released: winning the exchange can lead to a second
      connection exactly when a first one is up or queued at that moment. */
  lemma SecondConnection(h: H2N, i: nat)
    requires Reachable(h) && CanMove(h, Exchange(i)) && !h.trying
    ensures CanDouble(Moved(h, Exchange(i))) <==> h.est || exists k :: 0 <= k < |h.futures| && h.futures[k].Establish?
  {
    var w := Moved(h, Exchange(i));
    ReachableGuarded(h);
    ReachNext(h, Exchange(i));
    DoubleExact(w);
    WinnersUpdate(h.callers, i, Won);
    EnlistsAll(h.futures);
  }

  lemma {:induction false} EnlistsAll(fs: seq<Future>)
    ensures Enlists(fs) <= |fs|
    ensures Enlists(fs) < |fs| <==> exists k :: 0 <= k < |fs| && fs[k].Establish?
  {
    if fs != [] {
      EnlistsAll(fs[1..]);
      assert forall k | 0 < k < |fs| :: fs[k] == fs[1..][k - 1];
      if Enlists(fs[1..]) < |fs[1..]| {
        var k :| 0 <= k < |fs[1..]| && fs[1..][k].Establish?;
        assert fs[k + 1].Establish?;
      }
    }
  }

  lemma ReachNext(h: H2N, m: Move)
    requires Reachable(h) && CanMove(h, m)
    ensures Reachable(Moved(h, m))
  {
    hide Moved, CanMove;
    var ms :| Interleaves(Built(), ms) && Result(Built(), ms) == h;
    Extend(Built(), ms, m);
    assert Interleaves(Built(), ms + [m]);
  }

  lemma {:induction false} Extend(h: H2N, ms: seq<Move>, m: Move)
    requires Interleaves(h, ms) && CanMove(Result(h, ms), m)
    ensures Interleaves(h, ms + [m]) && Result(h, ms + [m]) == Moved(Result(h, ms), m)
    decreases |ms|
  {
    hide Moved, CanMove;
    if ms == [] {
      assert ms + [m] == [m] && [m][1..] == [];
    } else {
      Extend(Moved(h, ms[0]), ms[1..], m);
      assert (ms + [m])[1..] == ms[1..] + [m];
    }
  }

  /** It happens: the second caller tests `est` and wins the exchange while the first connection
      still waits in the queue. */
  lemma DoubleHappens(cfd: nat) returns (h: H2N)
    ensures Reachable(h) && !h.trying && CanMove(h, Exchange(1)) && CanDouble(Moved(h, Exchange(1)))
  {
    h := H2N(false, 0, false, true, [Left], [Ended], [Enlist, Establish(cfd)], 0, 1, 0, 0);
    FirstConnected(cfd);
    hide Reachable;
    ReachNext(h, Call);
    h := Moved(h, Call);
    ReachNext(h, Check(1));
    h := Moved(h, Check(1));
    assert h.futures[1].Establish?;
    SecondConnection(h, 1);
  }

  lemma FirstConnected(cfd: nat)
    ensures Reachable(H2N(false, 0, false, true, [Left], [Ended], [Enlist, Establish(cfd)], 0, 1, 0, 0))
  {
    assert Interleaves(Built(), []) && Result(Built(), []) == Built();
    assert Reachable(Built());
    hide Reachable, Interleaves, Result;
    ReachNext(Built(), Call);
    ReachNext(Built().(callers := [Entered]), Check(0));
    ReachNext(Built().(callers := [Checked]), Exchange(0));
    ReachNext(Built().(callers := [Won], trying := true), Spawn(0));
    var h := H2N(false, 0, true, false, [Left], [Spawned], [], 0, 0, 0, 0);
    ReachNext(h, Begin(0));
    ReachNext(h.(svcs := [Looping], futures := [Enlist]), Turn(0));
    ReachNext(h.(svcs := [Connecting], futures := [Enlist], needWait := true, tries := 1), Connect(0, cfd));
    ReachNext(h.(svcs := [Releasing], futures := [Enlist, Establish(cfd)], needWait := true, tries := 1), Release(0));
  }
}
