/** The message registry, and its replication to every worker of a server. */
module Registry {
  import opened Codec
  import opened Proto

  datatype Foreign = Forbidden | Allow | AllowExisted

  datatype Verdict = Disabled | Taken | Refused | Failed

  /** The interceptor that sees a PDU before the registry does. */
  type Interceptor = XscPdu -> Verdict

  datatype MsgStub = MsgStub(
    begin: Option<string>, end: Option<string>, uni: Option<string>, cb: nat, auth: bool, foreign: Foreign)
  {
    function Msg(): string {
      if begin.Some? then begin.value else if uni.Some? then uni.value else ""
    }
  }

  type Msgs = map<string, MsgStub>

  function Find(msgs: Msgs, msg: string): Option<MsgStub> {
    if msg in msgs then Some(msgs[msg]) else None
  }

  class XmsgImMsgMgr {
    var msgs: Msgs
    var itcpCb: Option<Interceptor>

    constructor ()
      ensures msgs == map[] && itcpCb == None
    {
      msgs, itcpCb := map[], None;
    }

    /** A name is registered once: its first stub stays, and a second one is refused. */
    method Reg(begin: Option<string>, end: Option<string>, uni: Option<string>, cb: nat, auth: bool, foreign: Foreign)
      returns (ok: bool)
      modifies this`msgs
      ensures var stub := MsgStub(begin, end, uni, cb, auth, foreign);
              var name := if begin.Some? then begin.value else if uni.Some? then uni.value else "";
              && (ok <==> name !in old(msgs))
              && msgs == if ok then old(msgs)[name := stub] else old(msgs)
    {
      var stub := MsgStub(begin, end, uni, cb, auth, foreign);
      if stub.Msg() in msgs {
        return false;
      }
      msgs := msgs[stub.Msg() := stub];
      return true;
    }

    method SetItcp(cb: Interceptor)
      modifies this`itcpCb
      ensures itcpCb == Some(cb)
    {
      itcpCb := Some(cb);
    }

    method Itcp(pdu: XscPdu) returns (v: Verdict)
      ensures v == Intercepted(itcpCb, pdu)
    {
      v := if itcpCb.None? then Disabled else itcpCb.value(pdu);
    }

    method GetMsgStub(msg: string) returns (stub: Option<MsgStub>)
      ensures stub == Find(msgs, msg)
    {
      stub := if msg in msgs then Some(msgs[msg]) else None;
    }
  }

  function Intercepted(itcpCb: Option<Interceptor>, pdu: XscPdu): Verdict {
    if itcpCb.None? then Disabled else itcpCb.value(pdu)
  }

  // ---- Replication ----

  /** A manager as a value. */
  datatype Mgr = Mgr(msgs: Msgs, itcp: Option<Interceptor>)

  /** What reg and setItcp queue for every worker; `Unrelated` is any other future. */
  datatype Job = PutMsg(msg: string, stub: MsgStub) | PutItcp(cb: Interceptor) | Unrelated

  /** A worker makes its manager when the first job needs one. */
  datatype Worker = Worker(mgr: Option<Mgr>, queue: seq<Job>)

  /** The thread that registers: idle, queueing its job for one worker after another, or waiting for
      the join counter to reach zero. */
  datatype Thread = Idle | Queueing(job: Job, next: nat, before: Mgr) | Joining(job: Job, before: Mgr)

  datatype Server = Server(master: Mgr, workers: seq<Worker>, thread: Thread, counter: nat)

  datatype Act =
    | Reg(stub: MsgStub)
    | SetItcp(cb: Interceptor)
    | Queue
    | Return
    | Work(w: nat)
    | Post(w: nat)

  predicate CanAct(s: Server, a: Act) {
    match a
    case Reg(_) => s.thread.Idle?
    case SetItcp(_) => s.thread.Idle?
    case Queue => s.thread.Queueing?
    case Return => s.thread.Joining? && s.counter == 0
    case Work(w) => w < |s.workers| && s.workers[w].queue != []
    case Post(w) => w < |s.workers|
  }

  function Put(m: Mgr, j: Job): Mgr {
    match j
    case PutMsg(msg, stub) => m.(msgs := m.msgs[msg := stub])
    case PutItcp(cb) => m.(itcp := Some(cb))
    case Unrelated => m
  }

  function Seen(w: Worker): Mgr {
    if w.mgr.Some? then w.mgr.value else Mgr(map[], None)
  }

  function Worked(w: Worker): Worker
    requires w.queue != []
  {
    Worker(if w.queue[0].Unrelated? then w.mgr else Some(Put(Seen(w), w.queue[0])), w.queue[1..])
  }

  function Acted(s: Server, a: Act): Server
    requires CanAct(s, a)
  {
    match a
    case Reg(stub) =>
      if stub.Msg() in s.master.msgs then s
      else
        var j := PutMsg(stub.Msg(), stub);
        s.(master := Put(s.master, j), thread := Queueing(j, 0, s.master), counter := |s.workers|)
    case SetItcp(cb) =>
      var j := PutItcp(cb);
      s.(master := Put(s.master, j), thread := Queueing(j, 0, s.master), counter := |s.workers|)
    case Queue =>
      var i := s.thread.next;
      if i < |s.workers| then
        s.(workers := s.workers[i := s.workers[i].(queue := s.workers[i].queue + [s.thread.job])],
           thread := s.thread.(next := i + 1))
      else s.(thread := Joining(s.thread.job, s.thread.before))
    case Return => s.(thread := Idle)
    case Work(w) =>
      s.(workers := s.workers[w := Worked(s.workers[w])],
         counter := if s.workers[w].queue[0].Unrelated? || s.counter == 0 then s.counter else s.counter - 1)
    case Post(w) => s.(workers := s.workers[w := s.workers[w].(queue := s.workers[w].queue + [Unrelated])])
  }

  // ---- The distributing manager as an object ----

  class XscWorker {
    var mgr: Option<Mgr>
    var queue: seq<Job>

    constructor ()
      ensures Value() == Worker(None, [])
    {
      mgr, queue := None, [];
    }

    function Value(): Worker
      reads this
    {
      Worker(mgr, queue)
    }

    method Future(j: Job)
      modifies this`queue
      ensures queue == old(queue) + [j]
    {
      queue := queue + [j];
    }

    /** One turn of the worker: the front of its queue, with a manager made on first need. */
    method RunFuture()
      requires queue != []
      modifies this
      ensures Value() == Worked(old(Value()))
    {
      var j := queue[0];
      queue := queue[1..];
      if j.Unrelated? {
        return;
      }
      if mgr.None? {
        mgr := Some(Mgr(map[], None));
      }
      mgr := Some(Put(mgr.value, j));
    }
  }

  class XmsgImN2HMsgMgr {
    var msgs: Msgs
    var itcpCb: Option<Interceptor>
    const xscWorker: seq<XscWorker>

    ghost predicate Valid() {
      forall i, j | 0 <= i < j < |xscWorker| :: xscWorker[i] != xscWorker[j]
    }

    constructor (workers: seq<XscWorker>)
      requires forall i, j | 0 <= i < j < |workers| :: workers[i] != workers[j]
      ensures Valid() && xscWorker == workers && msgs == map[] && itcpCb == None
    {
      msgs, itcpCb, xscWorker := map[], None, workers;
    }

    /** The server with the caller between two registrations, or, after the queueing loop, waiting. */
    ghost function View(thread: Thread, counter: nat): Server
      reads this, xscWorker
    {
      Server(Mgr(msgs, itcpCb),
          seq(|xscWorker|, i requires 0 <= i < |xscWorker| reads xscWorker => xscWorker[i].Value()), thread, counter)
    }

    /** reg up to the wait: the loop over the workers is as many queueing steps. */
    method Reg(stub: MsgStub) returns (ok: bool)
      requires Valid()
      modifies this`msgs, (set w | w in xscWorker)`queue
      ensures ok <==> Find(old(msgs), stub.Msg()).None?
      ensures var s := Acted(old(View(Idle, 0)), Act.Reg(stub));
              if ok then View(Joining(PutMsg(stub.Msg(), stub), old(View(Idle, 0)).master), |xscWorker|) == Queued(s)
              else View(Idle, 0) == s
    {
      if stub.Msg() in msgs {
        return false;
      }
      msgs := msgs[stub.Msg() := stub];
      CopyMsg2AllXscWorker(PutMsg(stub.Msg(), stub));
      return true;
    }

    method SetItcp(cb: Interceptor)
      requires Valid()
      modifies this`itcpCb, (set w | w in xscWorker)`queue
      ensures View(Joining(PutItcp(cb), old(View(Idle, 0)).master), |xscWorker|)
                == Queued(Acted(old(View(Idle, 0)), Act.SetItcp(cb)))
    {
      itcpCb := Some(cb);
      CopyMsg2AllXscWorker(PutItcp(cb));
    }

    method CopyMsg2AllXscWorker(j: Job)
      requires Valid()
      modifies (set w | w in xscWorker)`queue
      ensures forall i | 0 <= i < |xscWorker| :: xscWorker[i].queue == old(xscWorker[i].queue) + [j]
    {
      for k := 0 to |xscWorker|
        invariant forall i | 0 <= i < k :: xscWorker[i].queue == old(xscWorker[i].queue) + [j]
        invariant forall i | k <= i < |xscWorker| :: xscWorker[i].queue == old(xscWorker[i].queue)
      {
        xscWorker[k].Future(j);
      }
    }
  }

  /** A server whose caller has queued its job for every worker and waits. */
  function Queued(s: Server): Server
    requires s.thread.Queueing?
  {
    s.(workers := seq(|s.workers|, i requires 0 <= i < |s.workers| =>
        s.workers[i].(queue := s.workers[i].queue + [s.thread.job])),
       thread := Joining(s.thread.job, s.thread.before))
  }

  ghost predicate Acts(s: Server, acts: seq<Act>)
    decreases |acts|
  {
    acts == [] || (CanAct(s, acts[0]) && Acts(Acted(s, acts[0]), acts[1..]))
  }

  ghost function After(s: Server, acts: seq<Act>): Server
    requires Acts(s, acts)
    decreases |acts|
  {
    if acts == [] then s else After(Acted(s, acts[0]), acts[1..])
  }

  function Started(n: nat): Server {
    Server(Mgr(map[], None), seq(n, _ => Worker(None, [])), Idle, 0)
  }

  /** How many registry jobs a queue holds. */
  function Jobs(q: seq<Job>): nat {
    if q == [] then 0 else (if q[0].Unrelated? then 0 else 1) + Jobs(q[1..])
  }

  function AllJobs(ws: seq<Worker>): nat {
    if ws == [] then 0 else Jobs(ws[0].queue) + AllJobs(ws[1..])
  }

  /** A queue with at most this one registry job among others. */
  ghost predicate Only(q: seq<Job>, j: Job) {
    Jobs(q) <= 1 && forall i | 0 <= i < |q| :: q[i].Unrelated? || q[i] == j
  }

  lemma {:induction false} JobsSnoc(q: seq<Job>, j: Job)
    ensures Jobs(q + [j]) == Jobs(q) + if j.Unrelated? then 0 else 1
  {
    if q == [] {
      assert q + [j] == [j] && [j][1..] == [];
    } else {
      JobsSnoc(q[1..], j);
      assert (q + [j])[1..] == q[1..] + [j];
    }
  }

  lemma {:induction false} NoJobs(q: seq<Job>)
    ensures Jobs(q) == 0 <==> forall i | 0 <= i < |q| :: q[i].Unrelated?
  {
    if q != [] {
      NoJobs(q[1..]);
      assert forall i | 0 < i < |q| :: q[i] == q[1..][i - 1];
    }
  }

  lemma {:induction false} AllJobsUpdate(ws: seq<Worker>, i: nat, w: Worker)
    requires i < |ws|
    ensures AllJobs(ws[i := w]) + Jobs(ws[i].queue) == AllJobs(ws) + Jobs(w.queue)
    ensures Jobs(ws[i].queue) <= AllJobs(ws)
  {
    if i > 0 {
      AllJobsUpdate(ws[1..], i - 1, w);
      assert ws[i := w][1..] == ws[1..][i - 1 := w];
    } else {
      assert ws[i := w][1..] == ws[1..];
    }
  }

  /** What one worker may look like while the thread stands where it stands. */
  ghost predicate WorkerOk(s: Server, i: nat)
    requires i < |s.workers|
  {
    var w := s.workers[i];
    match s.thread
    case Idle => Jobs(w.queue) == 0 && Seen(w) == s.master
    case Queueing(j, next, before) =>
      if i < next then Only(w.queue, j) && Seen(w) == (if Jobs(w.queue) == 1 then before else s.master)
      else Jobs(w.queue) == 0 && Seen(w) == before
    case Joining(j, before) => Only(w.queue, j) && Seen(w) == if Jobs(w.queue) == 1 then before else s.master
  }

  ghost predicate Replicated(s: Server) {
    && (forall i | 0 <= i < |s.workers| :: WorkerOk(s, i))
    && (s.thread.Idle? ==> s.counter == 0)
    && (s.thread.Joining? ==> s.counter == AllJobs(s.workers))
    && (s.thread.Queueing? ==>
          s.thread.next <= |s.workers| && s.counter == AllJobs(s.workers) + |s.workers| - s.thread.next)
    && (!s.thread.Idle? ==> !s.thread.job.Unrelated? && s.master == Put(s.thread.before, s.thread.job))
    && (!s.thread.Idle? && s.thread.job.PutMsg? ==> s.thread.job.msg !in s.thread.before.msgs)
  }

  lemma QueueKeeps(s: Server)
    requires Replicated(s) && CanAct(s, Queue)
    ensures Replicated(Acted(s, Queue))
  {
    var s', i, j := Acted(s, Queue), s.thread.next, s.thread.job;
    if i < |s.workers| {
      assert WorkerOk(s, i);
      NoJobs(s.workers[i].queue);
      JobsSnoc(s.workers[i].queue, j);
      AllJobsUpdate(s.workers, i, s'.workers[i]);
      forall k | 0 <= k < |s'.workers|
        ensures WorkerOk(s', k)
      {
        assert WorkerOk(s, k);
      }
    } else {
      assert forall k | 0 <= k < |s.workers| :: WorkerOk(s, k) ==> WorkerOk(s', k);
    }
  }

  lemma WorkKeeps(s: Server, w: nat)
    requires Replicated(s) && CanAct(s, Work(w))
    ensures Replicated(Acted(s, Work(w)))
  {
    var s' := Acted(s, Work(w));
    assert WorkerOk(s, w);
    NoJobs(s.workers[w].queue);
    NoJobs(s'.workers[w].queue);
    AllJobsUpdate(s.workers, w, s'.workers[w]);
    assert s.thread.Idle? ==> s.workers[w].queue[0].Unrelated?;
    forall k | 0 <= k < |s'.workers|
      ensures WorkerOk(s', k)
    {
      assert WorkerOk(s, k);
    }
  }

  lemma PostKeeps(s: Server, w: nat)
    requires Replicated(s) && CanAct(s, Post(w))
    ensures Replicated(Acted(s, Post(w)))
  {
    var s' := Acted(s, Post(w));
    assert WorkerOk(s, w);
    JobsSnoc(s.workers[w].queue, Unrelated);
    AllJobsUpdate(s.workers, w, s'.workers[w]);
    forall k | 0 <= k < |s'.workers|
      ensures WorkerOk(s', k)
    {
      assert WorkerOk(s, k);
    }
  }

  /** Uninterrupted, the queueing steps end where the loop does. */
  lemma {:induction false} QueueLoop(s: Server, acts: seq<Act>)
    requires s.thread.Queueing? && s.thread.next <= |s.workers| && |acts| == |s.workers| - s.thread.next + 1
    requires forall i | 0 <= i < |acts| :: acts[i] == Queue
    ensures Acts(s, acts) && After(s, acts).thread == Joining(s.thread.job, s.thread.before)
    ensures After(s, acts).master == s.master && After(s, acts).counter == s.counter
              && |After(s, acts).workers| == |s.workers|
    ensures forall i | 0 <= i < |s.workers| :: After(s, acts).workers[i]
              == if i < s.thread.next then s.workers[i] else s.workers[i].(queue := s.workers[i].queue + [s.thread.job])
    ensures s.thread.next == 0 ==> After(s, acts) == Queued(s)
    decreases |acts|
  {
    if s.thread.next < |s.workers| {
      QueueLoop(Acted(s, Queue), acts[1..]);
    } else {
      assert acts[1..] == [];
    }
  }

  lemma {:induction false} IdleNoJobs(ws: seq<Worker>)
    ensures AllJobs(ws) == 0 <==> forall i | 0 <= i < |ws| :: Jobs(ws[i].queue) == 0
  {
    if ws != [] {
      IdleNoJobs(ws[1..]);
      assert forall i | 0 < i < |ws| :: ws[i] == ws[1..][i - 1];
    }
  }

  lemma ThreadKeeps(s: Server, a: Act)
    requires Replicated(s) && CanAct(s, a) && (a.Reg? || a.SetItcp? || a.Return?)
    ensures Replicated(Acted(s, a))
  {
    var s' := Acted(s, a);
    IdleNoJobs(s.workers);
    assert s.thread.Idle? ==> forall i | 0 <= i < |s.workers| :: WorkerOk(s, i) && Jobs(s.workers[i].queue) == 0;
    forall k | 0 <= k < |s'.workers|
      ensures WorkerOk(s', k)
    {
      assert WorkerOk(s, k);
    }
  }

  lemma ActKeeps(s: Server, a: Act)
    requires Replicated(s) && CanAct(s, a)
    ensures Replicated(Acted(s, a))
  {
    match a
    case Queue => QueueKeeps(s);
    case Work(w) => WorkKeeps(s, w);
    case Post(w) => PostKeeps(s, w);
    case _ => ThreadKeeps(s, a);
  }

  lemma {:induction false} ActsKeep(s: Server, acts: seq<Act>)
    requires Replicated(s) && Acts(s, acts)
    ensures Replicated(After(s, acts))
    decreases |acts|
  {
    hide Replicated, Acted;
    if acts != [] {
      ActKeeps(s, acts[0]);
      ActsKeep(Acted(s, acts[0]), acts[1..]);
    }
  }

  lemma {:induction false} StartedReplicated(n: nat)
    ensures Replicated(Started(n))
  {
    IdleNoJobs(Started(n).workers);
  }

  /** Replication, for every interleaving of the registering thread and the workers: a lookup by a
      worker finds nothing or the master's stub; whenever no registration is under way, all workers
      equal the master; an interceptor a worker uses is the one in force or the one it replaces. */
  lemma WorkersFollowMaster(n: nat, acts: seq<Act>)
    requires Acts(Started(n), acts)
    ensures var s := After(Started(n), acts);
            && (forall i, msg | 0 <= i < |s.workers| ::
                  var found := Find(Seen(s.workers[i]).msgs, msg);
                  found.None? || found == Find(s.master.msgs, msg))
            && (s.thread.Idle? ==> forall i | 0 <= i < |s.workers| :: Seen(s.workers[i]) == s.master)
            && (forall i | 0 <= i < |s.workers| ::
                  Seen(s.workers[i]).itcp == s.master.itcp
                  || (!s.thread.Idle? && s.thread.job.PutItcp? && Seen(s.workers[i]).itcp == s.thread.before.itcp))
  {
    StartedReplicated(n);
    ActsKeep(Started(n), acts);
    var s := After(Started(n), acts);
    forall i | 0 <= i < |s.workers|
      ensures Seen(s.workers[i]) == s.master || (!s.thread.Idle? && Seen(s.workers[i]) == s.thread.before)
      ensures s.thread.Idle? ==> Seen(s.workers[i]) == s.master
    {
      assert WorkerOk(s, i);
    }
  }

  /** The thread may return from reg or setItcp exactly when no worker has the job before it any
      more, and by then every worker equals the master. */
  lemma ReturnExact(n: nat, acts: seq<Act>)
    requires Acts(Started(n), acts) && After(Started(n), acts).thread.Joining?
    ensures var s := After(Started(n), acts);
            && (CanAct(s, Return) <==> forall i | 0 <= i < |s.workers| :: Jobs(s.workers[i].queue) == 0)
            && (CanAct(s, Return) ==> forall i | 0 <= i < |s.workers| :: Seen(s.workers[i]) == s.master)
  {
    StartedReplicated(n);
    ActsKeep(Started(n), acts);
    var s := After(Started(n), acts);
    IdleNoJobs(s.workers);
    if CanAct(s, Return) {
      forall i | 0 <= i < |s.workers|
        ensures Seen(s.workers[i]) == s.master
      {
        assert WorkerOk(s, i);
      }
    }
  }

  /** The stub first registered under a name. */
  function FirstReg(acts: seq<Act>, msg: string): Option<MsgStub> {
    if acts == [] then None
    else if acts[0].Reg? && acts[0].stub.Msg() == msg then Some(acts[0].stub)
    else FirstReg(acts[1..], msg)
  }

  /** The interceptor last set, `itcp` if none was. */
  function LastItcp(itcp: Option<Interceptor>, acts: seq<Act>): Option<Interceptor>
    decreases |acts|
  {
    if acts == [] then itcp
    else LastItcp(if acts[0].SetItcp? then Some(acts[0].cb) else itcp, acts[1..])
  }

  lemma {:induction false} MasterRun(s: Server, acts: seq<Act>, msg: string)
    requires Acts(s, acts)
    ensures Find(After(s, acts).master.msgs, msg)
            == if Find(s.master.msgs, msg).Some? then Find(s.master.msgs, msg) else FirstReg(acts, msg)
    ensures After(s, acts).master.itcp == LastItcp(s.master.itcp, acts)
    decreases |acts|
  {
    if acts != [] {
      MasterRun(Acted(s, acts[0]), acts[1..], msg);
    }
  }

  /** Registration over a run: of all registrations of a name the first one counts and the others
      change nothing, in the master at once, in a worker from when its job has run, and in every
      worker by the time reg returns. */
  lemma RegExact(n: nat, acts: seq<Act>, msg: string)
    requires Acts(Started(n), acts)
    ensures var s := After(Started(n), acts);
            && Find(s.master.msgs, msg) == FirstReg(acts, msg)
            && (forall i | 0 <= i < |s.workers| ::
                  Find(Seen(s.workers[i]).msgs, msg).None? || Find(Seen(s.workers[i]).msgs, msg) == FirstReg(acts, msg))
            && (s.thread.Idle? ==> forall i | 0 <= i < |s.workers| ::
                  Find(Seen(s.workers[i]).msgs, msg) == FirstReg(acts, msg))
  {
    MasterRun(Started(n), acts, msg);
    WorkersFollowMaster(n, acts);
  }

  /** Interception over a run: a worker lets PDUs through until an interceptor has been set, and
      whenever setItcp is not under way uses the one set last. */
  lemma ItcpExact(n: nat, acts: seq<Act>, pdu: XscPdu)
    requires Acts(Started(n), acts)
    ensures var s := After(Started(n), acts);
            forall i | 0 <= i < |s.workers| ::
              && (LastItcp(None, acts).None? ==> Intercepted(Seen(s.workers[i]).itcp, pdu).Disabled?)
              && (s.thread.Idle? && LastItcp(None, acts).Some? ==>
                    Intercepted(Seen(s.workers[i]).itcp, pdu) == LastItcp(None, acts).value(pdu))
  {
    MasterRun(Started(n), acts, "");
    WorkersFollowMaster(n, acts);
    StartedReplicated(n);
    ActsKeep(Started(n), acts);
  }

  /** What is registered stays, with the same stub. */
  lemma {:induction false} RegisteredForGood(s: Server, acts: seq<Act>, msg: string)
    requires Replicated(s) && Acts(s, acts) && Find(s.master.msgs, msg).Some?
    ensures Find(After(s, acts).master.msgs, msg) == Find(s.master.msgs, msg)
    decreases |acts|
  {
    if acts != [] {
      ActKeeps(s, acts[0]);
      RegisteredForGood(Acted(s, acts[0]), acts[1..], msg);
    }
  }

  /** Called on worker w's own thread, which cannot run its queue meanwhile, reg does not return. */
  ghost predicate Stuck(s: Server, w: nat) {
    w < |s.workers| && match s.thread
    case Idle => false
    case Queueing(_, next, _) => w >= next || Jobs(s.workers[w].queue) > 0
    case Joining(_, _) => Jobs(s.workers[w].queue) > 0
  }

  lemma {:induction false} NeverOnAWorker(s: Server, w: nat, acts: seq<Act>)
    requires Replicated(s) && Stuck(s, w) && Acts(s, acts) && Work(w) !in acts
    ensures !After(s, acts).thread.Idle?
    decreases |acts|
  {
    if acts != [] {
      ActKeeps(s, acts[0]);
      StuckStays(s, w, acts[0]);
      NeverOnAWorker(Acted(s, acts[0]), w, acts[1..]);
    }
  }

  lemma StuckStays(s: Server, w: nat, a: Act)
    requires Replicated(s) && Stuck(s, w) && CanAct(s, a) && a != Work(w)
    ensures Stuck(Acted(s, a), w)
  {
    IdleNoJobs(s.workers);
    if a.Queue? && s.thread.next < |s.workers| {
      JobsSnoc(s.workers[s.thread.next].queue, s.thread.job);
    }
    if a.Post? { JobsSnoc(s.workers[a.w].queue, Unrelated); }
  }

  /** So reg made on a worker's thread returns only for a name that is taken. */
  lemma RegOnWorker(s: Server, w: nat, stub: MsgStub, acts: seq<Act>)
    requires Replicated(s) && s.thread.Idle? && w < |s.workers|
    requires Acts(Acted(s, Reg(stub)), acts) && Work(w) !in acts
    requires forall i | 0 <= i < |acts| :: !acts[i].Reg? && !acts[i].SetItcp?
    ensures After(Acted(s, Reg(stub)), acts).thread.Idle? <==> Find(s.master.msgs, stub.Msg()).Some?
  {
    ActKeeps(s, Reg(stub));
    if Find(s.master.msgs, stub.Msg()).None? {
      NeverOnAWorker(Acted(s, Reg(stub)), w, acts);
    } else {
      StaysIdle(s, acts);
    }
  }

  /** For instance the very first registration, made on the thread of the only worker. */
  lemma WorkerWaits(stub: MsgStub)
    ensures CanAct(Started(1), Reg(stub))
    ensures var s := Acted(Started(1), Reg(stub));
            Acts(s, [Queue, Queue]) && After(s, [Queue, Queue]).thread.Joining?
                && !CanAct(After(s, [Queue, Queue]), Return)
  {
    var s := Acted(Started(1), Reg(stub));
    QueueLoop(s, [Queue, Queue]);
  }

  lemma {:induction false} StaysIdle(s: Server, acts: seq<Act>)
    requires Acts(s, acts) && s.thread.Idle? && forall i | 0 <= i < |acts| :: !acts[i].Reg? && !acts[i].SetItcp?
    ensures After(s, acts).thread.Idle?
    decreases |acts|
  {
    if acts != [] {
      StaysIdle(Acted(s, acts[0]), acts[1..]);
    }
  }
}
