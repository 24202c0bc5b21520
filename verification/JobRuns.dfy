/** What every run of the server keeps, and what is left when it comes to rest. */
module JobRuns {
  import opened Wrappers
  import opened JobServer
  import opened JobStreams
  import opened JobOrder

  /** Does a thread claim a packet of pool i's ready queue: woken for it, or put there and not yet posted? */
  ghost function Claims(w: Worker, i: nat): nat {
    if (w.pool == i && w.pc == Woken) || w.pc == Posting(i) then 1 else 0
  }

  ghost function ClaimsOn(workers: seq<Worker>, i: nat): seq<nat> {
    seq(|workers|, w requires 0 <= w < |workers| => Claims(workers[w], i))
  }

  ghost function ServerClaims(server: Option<nat>, i: nat): nat { if server == Some(i) then 1 else 0 }

  ghost predicate AccountOf(s: State, i: nat)
    requires i < |s.pools|
  {
    |s.pools[i].ready| == s.pools[i].sem + Sum(ClaimsOn(s.workers, i)) + ServerClaims(s.server, i)
  }

  /** Each packet on a ready queue is paid for: by the semaphore's count, by a worker woken for it, or by a
      thread that has yet to post. */
  ghost predicate Accounts(s: State) {
    forall i: nat | i < |s.pools| :: AccountOf(s, i)
  }

  ghost predicate Inv(s: State) { Shape(s) && BooksInv(|s.pools|, BooksOf(s)) && Accounts(s) }

  lemma ClaimsChange(workers: seq<Worker>, w: nat, x: Worker, i: nat)
    requires w < |workers|
    ensures Sum(ClaimsOn(workers[w := x], i)) + Claims(workers[w], i) == Sum(ClaimsOn(workers, i)) + Claims(x, i)
  {
    SumUpdate(ClaimsOn(workers, i), w, Claims(x, i));
    assert ClaimsOn(workers[w := x], i) == ClaimsOn(workers, i)[w := Claims(x, i)];
  }

  lemma ClaimsAt(workers: seq<Worker>, w: nat, i: nat)
    requires w < |workers|
    ensures Claims(workers[w], i) <= Sum(ClaimsOn(workers, i))
  {
    SumHas(ClaimsOn(workers, i), w);
  }

  /** A woken worker finds a packet. */
  lemma WokenFinds(s: State, w: nat)
    requires Shape(s) && Accounts(s) && w < |s.workers| && s.workers[w].pc == Woken
    ensures s.pools[s.workers[w].pool].ready != []
  {
    ClaimsAt(s.workers, w, s.workers[w].pool);
    assert AccountOf(s, s.workers[w].pool);
  }

  lemma DispatchAccounts(s: State, s': State, p: Packet)
    requires Shape(s) && Accounts(s) && Dispatch(s, s', p)
    ensures Shape(s') && |s'.pools| == |s.pools| && Accounts(s')
  {
    forall i: nat | i < |s.pools| ensures AccountOf(s', i) { assert AccountOf(s, i); }
  }

  lemma TakeAccounts(s: State, s': State, w: nat)
    requires Shape(s) && Accounts(s) && Take(s, s', w)
    ensures Shape(s') && |s'.pools| == |s.pools| && Accounts(s')
  {
    WokenFinds(s, w);
    forall i: nat | i < |s.pools| ensures AccountOf(s', i) {
      assert AccountOf(s, i);
      ClaimsChange(s.workers, w, s'.workers[w], i);
    }
  }

  lemma FinishAccounts(s: State, s': State, w: nat)
    requires Shape(s) && Accounts(s) && Finish(s, s', w)
    ensures Shape(s') && |s'.pools| == |s.pools| && Accounts(s')
  {
    forall i: nat | i < |s.pools| ensures AccountOf(s', i) {
      assert AccountOf(s, i);
      ClaimsChange(s.workers, w, s'.workers[w], i);
    }
  }

  lemma SignalAccounts(s: State, s': State, w: nat)
    requires Shape(s) && Accounts(s) && (Wake(s, s', w) || WorkerPost(s, s', w))
    ensures Shape(s') && |s'.pools| == |s.pools| && Accounts(s')
  {
    forall i: nat | i < |s.pools| ensures AccountOf(s', i) {
      assert AccountOf(s, i);
      ClaimsChange(s.workers, w, s'.workers[w], i);
    }
  }

  lemma NoMessageOf(s: State, j: nat)
    requires forall p | InFlight(s, p) :: p.jobId != j
    ensures OneOnItsWay(j, Nothing, AllReady(s.pools), AllRunning(s.workers))
  {
    forall p: Packet | p.jobId == j ensures p !in AllReady(s.pools) && p !in AllRunning(s.workers) {
      assert !InFlight(s, p);
      if p in AllReady(s.pools) { var i := UnionFrom(ReadyIn(s.pools), p); }
      if p in AllRunning(s.workers) { var w := UnionFrom(InHands(s.workers), p); }
    }
  }

  lemma AcquireKeeps(s: State, s': State, j: nat)
    requires BooksInv(|s.pools|, BooksOf(s)) && Acquire(s, s', j)
    ensures BooksInv(|s.pools|, BooksOf(s'))
  {
    NoMessageOf(s, j);
    var ready, running := AllReady(s.pools), AllRunning(s.workers);
    forall i | i in s'.jobs ensures JobInv(|s.pools|, i, s'.jobs[i], ready, running) {
      if i != j { assert JobInv(|s.pools|, i, s.jobs[i], ready, running); }
    }
  }

  lemma ReleaseKeeps(s: State, s': State, j: nat)
    requires BooksInv(|s.pools|, BooksOf(s)) && Release(s, s', j)
    ensures BooksInv(|s.pools|, BooksOf(s'))
  {
    var ready, running := AllReady(s.pools), AllRunning(s.workers);
    forall i | i in s'.jobs ensures JobInv(|s.pools|, i, s'.jobs[i], ready, running) {
      assert JobInv(|s.pools|, i, s.jobs[i], ready, running);
    }
  }

  lemma SameAccounts(s: State, s': State)
    requires Shape(s) && Accounts(s) && s'.pools == s.pools && s'.workers == s.workers && s'.server == s.server
    ensures Shape(s') && Accounts(s')
  {
    forall i: nat | i < |s.pools| ensures AccountOf(s', i) { assert AccountOf(s, i); }
  }

  lemma ServerPostAccounts(s: State, s': State)
    requires Shape(s) && Accounts(s) && ServerPost(s, s')
    ensures Shape(s') && |s'.pools| == |s.pools| && Accounts(s')
  {
    forall i: nat | i < |s.pools| ensures AccountOf(s', i) { assert AccountOf(s, i); }
  }

  lemma WorkerKeeps(s: State, s': State, w: nat)
    requires Inv(s) && WorkerStep(s, s', w)
    ensures Inv(s') && |s'.pools| == |s.pools|
  {
    if Take(s, s', w) {
      TakeAccounts(s, s', w);
      TakeKeeps(s, s', w);
    } else if Finish(s, s', w) {
      FinishAccounts(s, s', w);
      FinishKeeps(s, s', w);
    } else {
      SignalAccounts(s, s', w);
      if Wake(s, s', w) { WakeSame(s, s', w); } else { WorkerPostSame(s, s', w); }
    }
  }

  lemma StepInv(s: State, s': State)
    requires Inv(s) && Next(s, s')
    ensures Inv(s') && |s'.pools| == |s.pools|
  {
    if p :| Dispatch(s, s', p) {
      DispatchAccounts(s, s', p);
      DispatchKeeps(s, s', p);
    } else if ServerPost(s, s') {
      ServerPostSame(s, s');
      ServerPostAccounts(s, s');
    } else if w: nat :| WorkerStep(s, s', w) {
      WorkerKeeps(s, s', w);
    } else if j: nat :| Acquire(s, s', j) {
      AcquireKeeps(s, s', j);
      SameAccounts(s, s');
    } else {
      var j: nat :| Release(s, s', j);
      ReleaseKeeps(s, s', j);
      SameAccounts(s, s');
    }
  }

  ghost predicate Init(s: State) {
    && (forall i | 0 <= i < |s.pools| :: s.pools[i] == Pool([], 0))
    && (forall w | 0 <= w < |s.workers| :: s.workers[w].pool < |s.pools| && s.workers[w].pc == Pending)
    && s.server == None && s.jobs == map[]
  }

  /** Init has the shape and every step keeps it, so asking for it here leaves no run out. */
  ghost predicate Run(run: seq<State>) {
    && run != [] && Init(run[0])
    && forall k | 0 <= k < |run| - 1 :: Shape(run[k]) && Next(run[k], run[k + 1])
  }

  lemma InitInv(s: State)
    requires Init(s)
    ensures Inv(s)
  {
    forall i: nat | i < |s.pools| ensures AccountOf(s, i) { SumZero(ClaimsOn(s.workers, i)); }
  }

  lemma {:induction false} RunInv(run: seq<State>, k: nat)
    requires Run(run) && k < |run|
    ensures Inv(run[k])
  {
    if k == 0 {
      InitInv(run[0]);
    } else {
      RunInv(run, k - 1);
      StepInv(run[k - 1], run[k]);
    }
  }

  /** Where a packet can be on its way: on a pool's ready queue or in a worker's hands. */
  datatype Place = OnQueue(pool: nat, at: nat) | InHand(worker: nat)

  ghost predicate At(s: State, place: Place, p: Packet) {
    match place
    case OnQueue(i, k) => i < |s.pools| && k < |s.pools[i].ready| && s.pools[i].ready[k] == p
    case InHand(w) => w < |s.workers| && s.workers[w].pc == Running(p)
  }

  lemma AtCounts(s: State, place: Place, p: Packet)
    requires At(s, place, p)
    ensures place.OnQueue? ==> p in AllReady(s.pools)
    ensures place.InHand? ==> p in AllRunning(s.workers)
  {
    match place
    case OnQueue(i, k) =>
      UnionHas(ReadyIn(s.pools), i);
      assert p in ReadyIn(s.pools)[i];
    case InHand(w) =>
      UnionHas(InHands(s.workers), w);
      assert p in InHands(s.workers)[w];
  }

  lemma TwiceIn(q: seq<Packet>, a: nat, b: nat)
    requires a < b < |q| && q[a] == q[b]
    ensures multiset(q)[q[a]] >= 2
  {
    assert q == q[..b] + q[b..];
    assert q[a] in q[..b] && q[b] in q[b..];
  }

  /** Two places hold two copies. */
  lemma TwoPlaces(s: State, a: Place, b: Place, p: Packet)
    requires At(s, a, p) && At(s, b, p) && a != b && a.OnQueue? == b.OnQueue?
    ensures a.OnQueue? ==> AllReady(s.pools)[p] >= 2
    ensures a.InHand? ==> AllRunning(s.workers)[p] >= 2
  {
    if a.InHand? {
      UnionHasTwo(InHands(s.workers), a.worker, b.worker);
    } else if a.pool != b.pool {
      UnionHasTwo(ReadyIn(s.pools), a.pool, b.pool);
      assert p in ReadyIn(s.pools)[a.pool] && p in ReadyIn(s.pools)[b.pool];
    } else {
      var ready := s.pools[a.pool].ready;
      if a.at < b.at { TwiceIn(ready, a.at, b.at); } else { TwiceIn(ready, b.at, a.at); }
      UnionHas(ReadyIn(s.pools), a.pool);
    }
  }

  lemma SerialIn(s: State, a: Place, p: Packet, b: Place, q: Packet)
    requires Inv(s) && At(s, a, p) && At(s, b, q) && p.jobId == q.jobId && p.jobId in s.jobs
    ensures a == b && p == q
  {
    assert JobInv(|s.pools|, p.jobId, s.jobs[p.jobId], AllReady(s.pools), AllRunning(s.workers));
    AtCounts(s, a, p);
    AtCounts(s, b, q);
    if a != b { TwoPlaces(s, a, b, p); }
  }

  /** At most one message of a live job is on any ready queue or being executed. */
  lemma Serial(run: seq<State>, k: nat, a: Place, p: Packet, b: Place, q: Packet)
    requires Run(run) && k < |run| && At(run[k], a, p) && At(run[k], b, q)
    requires p.jobId == q.jobId && p.jobId in run[k].jobs
    ensures a == b && p == q
  {
    RunInv(run, k);
    SerialIn(run[k], a, p, b, q);
  }

  /** A worker that takes up a live job's message takes up the next in the order of sending. */
  lemma TakesInOrder(run: seq<State>, k: nat, w: nat, p: Packet)
    requires Run(run) && k + 1 < |run| && Take(run[k], run[k + 1], w)
    requires run[k + 1].workers[w].pc == Running(p) && p.jobId in run[k].jobs
    ensures var job, job' := run[k].jobs[p.jobId], run[k + 1].jobs[p.jobId];
            && |job.started| < |job.sent| && p == job.sent[|job.started|]
            && job'.started == job.started + [p] && job'.sent == job.sent
  {
    var s := run[k];
    RunInv(run, k);
    var i := s.workers[w].pool;
    AtCounts(s, OnQueue(i, 0), p);
    assert JobInv(|s.pools|, p.jobId, s.jobs[p.jobId], AllReady(s.pools), AllRunning(s.workers));
  }

  /** What was sent is what was taken up, then at most one message on a ready queue, then the job's own
      queue. */
  lemma SentInOrder(run: seq<State>, k: nat, j: nat)
    requires Run(run) && k < |run| && j in run[k].jobs
    ensures var job := run[k].jobs[j];
            && job.started <= job.sent
            && |job.started| + |job.que| <= |job.sent| <= |job.started| + |job.que| + 1
            && job.que == job.sent[|job.sent| - |job.que|..]
            && (job.empty ==> job.que == [] && job.started == job.sent)
  {
    RunInv(run, k);
    var s, job := run[k], run[k].jobs[j];
    assert JobInv(|s.pools|, j, job, AllReady(s.pools), AllRunning(s.workers));
  }

  lemma CurrentIsSomewhere(s: State, j: nat, current: Current) returns (place: Place)
    requires OneOnItsWay(j, current, AllReady(s.pools), AllRunning(s.workers)) && current != Nothing
    ensures At(s, place, current.p)
  {
    if current.Queued? {
      assert current.p in AllReady(s.pools);
      var i := UnionFrom(ReadyIn(s.pools), current.p);
      var at :| 0 <= at < |s.pools[i].ready| && s.pools[i].ready[at] == current.p;
      place := OnQueue(i, at);
    } else {
      assert current.p in AllRunning(s.workers);
      var w := UnionFrom(InHands(s.workers), current.p);
      place := InHand(w);
    }
  }

  ghost predicate Idle(s: State, j: nat) {
    forall place, p | At(s, place, p) :: p.jobId != j
  }

  /** A job stream is marked empty exactly when no message of it is on its way, and then none is queued. */
  lemma EmptyMeansIdle(run: seq<State>, k: nat, j: nat)
    requires Run(run) && k < |run| && j in run[k].jobs
    ensures run[k].jobs[j].empty <==> Idle(run[k], j)
    ensures Idle(run[k], j) ==> run[k].jobs[j].que == []
  {
    RunInv(run, k);
    var s, current := run[k], run[k].jobs[j].current;
    assert JobInv(|s.pools|, j, s.jobs[j], AllReady(s.pools), AllRunning(s.workers));
    if current == Nothing {
      forall place, p | At(s, place, p) ensures p.jobId != j { AtCounts(s, place, p); }
    } else {
      var place := CurrentIsSomewhere(s, j, current);
    }
  }

  /** A pool's ready queue is as long as its semaphore's count, the workers woken for it and the threads that
      have put a packet there and not yet posted. */
  lemma ReadyIsPaidFor(run: seq<State>, k: nat, i: nat)
    requires Run(run) && k < |run| && i < |run[k].pools|
    ensures |run[k].pools[i].ready|
         == run[k].pools[i].sem + Sum(ClaimsOn(run[k].workers, i)) + ServerClaims(run[k].server, i)
  {
    RunInv(run, k);
    assert AccountOf(run[k], i);
  }

  /** A woken worker finds a packet. */
  lemma NoEmptyWake(run: seq<State>, k: nat, w: nat)
    requires Run(run) && k < |run| && w < |run[k].workers| && run[k].workers[w].pc == Woken
    ensures run[k].workers[w].pool < |run[k].pools| && run[k].pools[run[k].workers[w].pool].ready != []
  {
    RunInv(run, k);
    WokenFinds(run[k], w);
  }

  /** Every queued job message names a pool. */
  lemma QueuedNamesPool(run: seq<State>, k: nat, j: nat, p: Packet)
    requires Run(run) && k < |run| && j in run[k].jobs && p in run[k].jobs[j].que
    ensures p.poolId % 256 < |run[k].pools|
  {
    RunInv(run, k);
    var s := run[k];
    assert JobInv(|s.pools|, j, s.jobs[j], AllReady(s.pools), AllRunning(s.workers));
    assert p in s.jobs[j].sent;
  }

  /** So a worker never runs again a message it has just returned to its client. */
  lemma NoRerun(run: seq<State>, k: nat, w: nat)
    requires Run(run) && k + 1 < |run| && Finish(run[k], run[k + 1], w)
    ensures !run[k + 1].workers[w].pc.Running?
  {
    var s, p := run[k], run[k].workers[w].pc.p;
    if p.jobId in s.jobs && s.jobs[p.jobId].que != [] {
      RunInv(run, k);
      HeadNamesPool(|s.pools|, BooksOf(s), p.jobId);
    }
  }

  /** Job j as a new stream, whatever messages may still carry the id. */
  ghost function Reused(s: State, j: nat): State {
    s.(jobs := s.jobs[j := Job(true, [], [], [], Nothing)])
  }

  /** Two messages of job j are on their way at once. */
  ghost predicate Collides(s: State, j: nat) {
    exists a, b, p, q :: At(s, a, p) && At(s, b, q) && p.jobId == j && q.jobId == j && a != b
  }

  lemma IdleAcquires(s: State, j: nat)
    requires 1 <= j <= 0xFFFF && j !in s.jobs && Idle(s, j)
    ensures Acquire(s, Reused(s, j), j)
  {
    forall p | InFlight(s, p) ensures p.jobId != j {
      if i :| 0 <= i < |s.pools| && p in s.pools[i].ready {
        var at :| 0 <= at < |s.pools[i].ready| && s.pools[i].ready[at] == p;
        assert At(s, OnQueue(i, at), p);
      } else {
        var w :| 0 <= w < |s.workers| && s.workers[w].pc == Running(p);
        assert At(s, InHand(w), p);
      }
    }
  }

  lemma StillThere(s: State, s': State, j: nat, p: Packet, place: Place, q: Packet)
    requires Shape(s) && j in s.jobs && s.jobs[j].empty && j == p.jobId != DISCRETE
    requires GetPool(|s.pools|, p.poolId).Some? && Dispatch(s, s', p) && At(s, place, q) && q.jobId == j
    ensures Collides(s', j)
  {
    var i := GetPool(|s.pools|, p.poolId).value;
    assert At(s', place, q) && At(s', OnQueue(i, |s.pools[i].ready|), p);
  }

  /** The condition under which an id may be used again: the first message dispatched to the new stream runs
      beside an old one exactly if an old one is still on a ready queue or being executed. */
  lemma ReuseCollidesIff(run: seq<State>, k: nat, j: nat, p: Packet, s': State)
    requires Run(run) && k < |run| && Shape(run[k]) && 1 <= j <= 0xFFFF && j !in run[k].jobs
    requires p.jobId == j && GetPool(|run[k].pools|, p.poolId).Some? && Dispatch(Reused(run[k], j), s', p)
    ensures Collides(s', j) <==> !Idle(run[k], j)
  {
    var s := run[k];
    RunInv(run, k);
    if Idle(s, j) {
      IdleAcquires(s, j);
      StepInv(s, Reused(s, j));
      StepInv(Reused(s, j), s');
      if Collides(s', j) {
        var a, b, q, r :| At(s', a, q) && At(s', b, r) && q.jobId == j && r.jobId == j && a != b;
        SerialIn(s', a, q, b, r);
      }
    } else {
      var place, q :| At(s, place, q) && q.jobId == j;
      assert At(Reused(s, j), place, q);
      StillThere(Reused(s, j), s', j, p, place, q);
    }
  }
}
