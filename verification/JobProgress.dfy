/** Left alone, the workers come to rest, and then every message sent to a live job has been executed. */
module JobProgress {
  import opened Wrappers
  import opened JobServer
  import opened JobStreams
  import opened JobOrder
  import opened JobRuns

  /** Steps of the server thread and the workers on messages they already have. */
  ghost predicate OwnStep(s: State, s': State) {
    Shape(s) && (ServerPost(s, s') || exists w: nat :: WorkerStep(s, s', w))
  }

  ghost predicate OwnRun(run: seq<State>) {
    run != [] && forall k | 0 <= k < |run| - 1 :: OwnStep(run[k], run[k + 1])
  }

  /** All messages on job queues. */
  ghost function Waiting(jobs: map<nat, Job>): nat
    decreases |jobs|
  {
    if jobs == map[] then 0 else
      var j :| j in jobs;
      |jobs[j].que| + Waiting(jobs - {j})
  }

  lemma {:induction false} WaitingAt(jobs: map<nat, Job>, j: nat)
    requires j in jobs
    ensures Waiting(jobs) == |jobs[j].que| + Waiting(jobs - {j})
    decreases |jobs|
  {
    var i :| i in jobs && Waiting(jobs) == |jobs[i].que| + Waiting(jobs - {i});
    if i != j {
      WaitingAt(jobs - {i}, j);
      WaitingAt(jobs - {j}, i);
      assert jobs - {i} - {j} == jobs - {j} - {i};
    }
  }

  lemma WaitingChange(jobs: map<nat, Job>, j: nat, job: Job)
    requires j in jobs
    ensures Waiting(jobs[j := job]) + |jobs[j].que| == Waiting(jobs) + |job.que|
  {
    WaitingAt(jobs, j);
    WaitingAt(jobs[j := job], j);
    assert jobs[j := job] - {j} == jobs - {j};
  }

  ghost function PoolWork(pool: Pool): nat { |pool.ready| + 2 * pool.sem }

  ghost function PoolsWork(pools: seq<Pool>): seq<nat> {
    seq(|pools|, i requires 0 <= i < |pools| => PoolWork(pools[i]))
  }

  ghost function PcWork(pc: WorkerPc): nat {
    match pc case Pending => 0 case Woken => 1 case Running(_) => 1 case Posting(_) => 3
  }

  ghost function WorkersWork(workers: seq<Worker>): seq<nat> {
    seq(|workers|, w requires 0 <= w < |workers| => PcWork(workers[w].pc))
  }

  /** The steps the messages in the system still need. */
  ghost function Work(s: State): nat {
    4 * Waiting(s.jobs) + Sum(PoolsWork(s.pools)) + Sum(WorkersWork(s.workers)) + if s.server.Some? then 3 else 0
  }

  lemma PoolChange(pools: seq<Pool>, i: nat, pool: Pool)
    requires i < |pools|
    ensures Sum(PoolsWork(pools[i := pool])) + PoolWork(pools[i]) == Sum(PoolsWork(pools)) + PoolWork(pool)
  {
    SumUpdate(PoolsWork(pools), i, PoolWork(pool));
    assert PoolsWork(pools[i := pool]) == PoolsWork(pools)[i := PoolWork(pool)];
  }

  lemma WorkerChange(workers: seq<Worker>, w: nat, x: Worker)
    requires w < |workers|
    ensures Sum(WorkersWork(workers[w := x])) + PcWork(workers[w].pc) == Sum(WorkersWork(workers)) + PcWork(x.pc)
  {
    SumUpdate(WorkersWork(workers), w, PcWork(x.pc));
    assert WorkersWork(workers[w := x]) == WorkersWork(workers)[w := PcWork(x.pc)];
  }

  lemma ServerPostWorks(s: State, s': State)
    requires Shape(s) && ServerPost(s, s')
    ensures Work(s') < Work(s)
  {
    PoolChange(s.pools, s.server.value, s'.pools[s.server.value]);
  }

  lemma WakeWorks(s: State, s': State, w: nat)
    requires Shape(s) && Wake(s, s', w)
    ensures Work(s') < Work(s)
  {
    PoolChange(s.pools, s.workers[w].pool, s'.pools[s.workers[w].pool]);
    WorkerChange(s.workers, w, s'.workers[w]);
  }

  lemma WorkerPostWorks(s: State, s': State, w: nat)
    requires Shape(s) && WorkerPost(s, s', w)
    ensures Work(s') < Work(s)
  {
    PoolChange(s.pools, s.workers[w].pc.pool, s'.pools[s.workers[w].pc.pool]);
    WorkerChange(s.workers, w, s'.workers[w]);
  }

  lemma TakeWorks(s: State, s': State, w: nat)
    requires Inv(s) && Take(s, s', w)
    ensures Work(s') < Work(s)
  {
    WokenFinds(s, w);
    var i := s.workers[w].pool;
    var p := s.pools[i].ready[0];
    PoolChange(s.pools, i, s'.pools[i]);
    WorkerChange(s.workers, w, s'.workers[w]);
    if p.jobId in s.jobs { WaitingChange(s.jobs, p.jobId, Started(s.jobs, p)[p.jobId]); }
  }

  lemma FinishLastWorks(s: State, s': State, w: nat, p: Packet)
    requires Shape(s) && Finish(s, s', w) && s.workers[w].pc == Running(p)
    requires p.jobId in s.jobs ==> s.jobs[p.jobId].que == []
    ensures Work(s') < Work(s)
  {
    WorkerChange(s.workers, w, s'.workers[w]);
    if p.jobId in s.jobs && p.jobId != DISCRETE { WaitingChange(s.jobs, p.jobId, s'.jobs[p.jobId]); }
  }

  lemma FinishPassWorks(s: State, s': State, w: nat, p: Packet)
    requires Inv(s) && Finish(s, s', w) && s.workers[w].pc == Running(p)
    requires p.jobId in s.jobs && s.jobs[p.jobId].que != []
    ensures Work(s') < Work(s)
  {
    HeadNamesPool(|s.pools|, BooksOf(s), p.jobId);
    PassWorks(s, s', w, p, GetPool(|s.pools|, s.jobs[p.jobId].que[0].poolId).value);
  }

  lemma PassWorks(s: State, s': State, w: nat, p: Packet, i: nat)
    requires Shape(s) && Finish(s, s', w) && s.workers[w].pc == Running(p) && p.jobId != DISCRETE
    requires p.jobId in s.jobs && s.jobs[p.jobId].que != []
    requires GetPool(|s.pools|, s.jobs[p.jobId].que[0].poolId) == Some(i)
    ensures Work(s') < Work(s)
  {
    WorkerChange(s.workers, w, s'.workers[w]);
    WaitingChange(s.jobs, p.jobId, s'.jobs[p.jobId]);
    PoolChange(s.pools, i, s'.pools[i]);
  }

  lemma OwnStepWorks(s: State, s': State)
    requires Inv(s) && OwnStep(s, s')
    ensures Inv(s') && Work(s') < Work(s)
  {
    StepInv(s, s');
    if ServerPost(s, s') {
      ServerPostWorks(s, s');
    } else {
      var w: nat :| WorkerStep(s, s', w);
      if Take(s, s', w) {
        TakeWorks(s, s', w);
      } else if Finish(s, s', w) {
        var p := s.workers[w].pc.p;
        if p.jobId in s.jobs && s.jobs[p.jobId].que != [] {
          FinishPassWorks(s, s', w, p);
        } else {
          FinishLastWorks(s, s', w, p);
        }
      } else if Wake(s, s', w) {
        WakeWorks(s, s', w);
      } else {
        WorkerPostWorks(s, s', w);
      }
    }
  }

  /** The same live jobs, with the same messages sent to each. */
  ghost predicate SameSent(s: State, s': State) {
    s.jobs.Keys == s'.jobs.Keys && forall j | j in s.jobs :: s'.jobs[j].sent == s.jobs[j].sent
  }

  lemma OwnStepSent(s: State, s': State)
    requires OwnStep(s, s')
    ensures SameSent(s, s')
  {
  }

  lemma {:induction false} OwnRunWorks(run: seq<State>, k: nat)
    requires OwnRun(run) && Inv(run[0]) && k < |run|
    ensures Inv(run[k]) && Work(run[k]) + k <= Work(run[0])
    ensures SameSent(run[0], run[k])
  {
    if k > 0 {
      OwnRunWorks(run, k - 1);
      OwnStepWorks(run[k - 1], run[k]);
      OwnStepSent(run[k - 1], run[k]);
    }
  }

  /** A worker's next step, when it has one. */
  lemma WorkerCanStep(s: State, w: nat) returns (s': State)
    requires Inv(s) && w < |s.workers|
    requires s.workers[w].pc == Pending ==> s.pools[s.workers[w].pool].sem > 0
    ensures OwnStep(s, s')
  {
    var x := s.workers[w];
    match x.pc
    case Pending =>
      s' := To(s, w, Woken).(pools := s.pools[x.pool := Pool(s.pools[x.pool].ready, s.pools[x.pool].sem - 1)]);
      assert Wake(s, s', w) && WorkerStep(s, s', w);
    case Woken =>
      s' := TakeStep(s, w);
    case Running(p) =>
      s' := FinishStep(s, w, p);
    case Posting(i) =>
      s' := To(s, w, Pending).(pools := Posted(s.pools, i));
      assert WorkerPost(s, s', w) && WorkerStep(s, s', w);
  }

  lemma TakeStep(s: State, w: nat) returns (s': State)
    requires Shape(s) && Accounts(s) && w < |s.workers| && s.workers[w].pc == Woken
    ensures OwnStep(s, s')
  {
    WokenFinds(s, w);
    var i := s.workers[w].pool;
    var p := s.pools[i].ready[0];
    s' := State(s.pools[i := Pool(s.pools[i].ready[1..], s.pools[i].sem)], To(s, w, Running(p)).workers, s.server,
                Started(s.jobs, p));
    assert Take(s, s', w) && WorkerStep(s, s', w);
  }

  lemma FinishStep(s: State, w: nat, p: Packet) returns (s': State)
    requires Inv(s) && w < |s.workers| && s.workers[w].pc == Running(p)
    ensures OwnStep(s, s')
  {
    if p.jobId !in s.jobs {
      s' := To(s, w, Pending);
      assert Finish(s, s', w) && WorkerStep(s, s', w);
    } else if s.jobs[p.jobId].que == [] {
      s' := To(s, w, Pending).(
        jobs := s.jobs[p.jobId := s.jobs[p.jobId].(empty := true, que := [], current := Nothing)]);
      assert Finish(s, s', w) && WorkerStep(s, s', w);
    } else {
      HeadNamesPool(|s.pools|, BooksOf(s), p.jobId);
      s' := PassStep(s, w, p, GetPool(|s.pools|, s.jobs[p.jobId].que[0].poolId).value);
    }
  }

  lemma PassStep(s: State, w: nat, p: Packet, i: nat) returns (s': State)
    requires Shape(s) && w < |s.workers| && s.workers[w].pc == Running(p) && p.jobId != DISCRETE
    requires p.jobId in s.jobs && s.jobs[p.jobId].que != []
    requires GetPool(|s.pools|, s.jobs[p.jobId].que[0].poolId) == Some(i)
    ensures OwnStep(s, s')
  {
    var job := s.jobs[p.jobId];
    s' := To(s, w, Posting(i)).(
      pools := Put(s.pools, i, job.que[0]),
      jobs := s.jobs[p.jobId := job.(que := job.que[1..], current := Queued(job.que[0]))]);
    assert Finish(s, s', w) && WorkerStep(s, s', w);
  }

  ghost predicate HasWorker(s: State, i: nat) {
    exists w :: 0 <= w < |s.workers| && s.workers[w].pool == i
  }

  ghost predicate Staffed(s: State) {
    forall i | 0 <= i < |s.pools| :: HasWorker(s, i)
  }

  ghost predicate AtRest(s: State) {
    forall s' :: !OwnStep(s, s')
  }

  lemma RestIsQuiet(s: State)
    requires Inv(s) && AtRest(s)
    ensures s.server == None
    ensures forall w | 0 <= w < |s.workers| :: s.workers[w].pc == Pending && s.pools[s.workers[w].pool].sem == 0
  {
    if s.server.Some? {
      assert OwnStep(s, s.(pools := Posted(s.pools, s.server.value), server := None));
    }
    forall w | 0 <= w < |s.workers| ensures s.workers[w].pc == Pending && s.pools[s.workers[w].pool].sem == 0 {
      if s.workers[w].pc != Pending || s.pools[s.workers[w].pool].sem > 0 { var s' := WorkerCanStep(s, w); }
    }
  }

  lemma RestIsEmpty(s: State, i: nat)
    requires Inv(s) && AtRest(s) && Staffed(s) && i < |s.pools|
    ensures s.pools[i].ready == []
  {
    RestIsQuiet(s);
    assert AccountOf(s, i);
    SumZero(ClaimsOn(s.workers, i));
    assert HasWorker(s, i);
  }

  lemma QuietIsDone(s: State, j: nat)
    requires BooksInv(|s.pools|, BooksOf(s)) && j in s.jobs
    requires forall i | 0 <= i < |s.pools| :: s.pools[i].ready == []
    requires forall w | 0 <= w < |s.workers| :: s.workers[w].pc == Pending
    ensures s.jobs[j].empty && s.jobs[j].started == s.jobs[j].sent
  {
    var current := s.jobs[j].current;
    assert JobInv(|s.pools|, j, s.jobs[j], AllReady(s.pools), AllRunning(s.workers));
    if current != Nothing { var place := CurrentIsSomewhere(s, j, current); }
  }

  lemma RestIsDone(s: State, j: nat)
    requires Inv(s) && AtRest(s) && Staffed(s) && j in s.jobs
    ensures s.jobs[j].empty && s.jobs[j].started == s.jobs[j].sent
  {
    RestIsQuiet(s);
    forall i | 0 <= i < |s.pools| ensures s.pools[i].ready == [] { RestIsEmpty(s, i); }
    QuietIsDone(s, j);
  }

  /** From any reachable state, once the server accepts no more messages, the workers take at most Work steps;
      when they can take no more, every message sent to a live job has been taken up and executed, in order. */
  lemma EveryMessageRuns(run: seq<State>, k: nat, own: seq<State>)
    requires Run(run) && k < |run| && OwnRun(own) && own[0] == run[k] && Staffed(own[|own| - 1])
    ensures |own| <= Work(run[k]) + 1
    ensures AtRest(own[|own| - 1]) ==>
              && own[|own| - 1].jobs.Keys == run[k].jobs.Keys
              && forall j | j in run[k].jobs :: own[|own| - 1].jobs[j].started == run[k].jobs[j].sent
  {
    RunInv(run, k);
    OwnRunWorks(own, |own| - 1);
    var last := own[|own| - 1];
    if AtRest(last) {
      forall j | j in run[k].jobs ensures j in last.jobs && last.jobs[j].started == run[k].jobs[j].sent {
        RestIsDone(last, j);
      }
    }
  }
}
