/** Each live job stream's messages are executed one at a time and in the order they were sent. */
module JobOrder {
  import opened Wrappers
  import opened JobServer
  import opened JobStreams

  /** What the pools, the workers and the job list hold. */
  datatype Books = Books(ready: multiset<Packet>, running: multiset<Packet>, jobs: map<nat, Job>)

  ghost function ReadyIn(pools: seq<Pool>): seq<multiset<Packet>> {
    seq(|pools|, i requires 0 <= i < |pools| => multiset(pools[i].ready))
  }

  ghost function Hand(pc: WorkerPc): multiset<Packet> {
    if pc.Running? then multiset{pc.p} else multiset{}
  }

  ghost function InHands(workers: seq<Worker>): seq<multiset<Packet>> {
    seq(|workers|, w requires 0 <= w < |workers| => Hand(workers[w].pc))
  }

  ghost function AllReady(pools: seq<Pool>): multiset<Packet> { Union(ReadyIn(pools)) }

  ghost function AllRunning(workers: seq<Worker>): multiset<Packet> { Union(InHands(workers)) }

  ghost function BooksOf(s: State): Books { Books(AllReady(s.pools), AllRunning(s.workers), s.jobs) }

  /** Of job j's messages just the current one is on a ready queue or in a worker's hands, once. */
  ghost predicate OneOnItsWay(j: nat, current: Current, ready: multiset<Packet>, running: multiset<Packet>) {
    && (current.Queued? || current.Executing? ==> current.p.jobId == j)
    && forall p: Packet | p.jobId == j ::
         && ready[p] == (if current == Queued(p) then 1 else 0)
         && running[p] == if current == Executing(p) then 1 else 0
  }

  ghost function OnItsWayToAWorker(current: Current): seq<Packet> {
    if current.Queued? then [current.p] else []
  }

  /** The job's own record: nothing is lost, the order is kept, and every message names a pool. */
  ghost predicate InOrder(pools: nat, j: nat, job: Job) {
    && (job.empty <==> job.current == Nothing)
    && (job.empty ==> job.que == [])
    && job.sent == job.started + OnItsWayToAWorker(job.current) + job.que
    && (job.current.Executing? ==> job.started != [] && job.started[|job.started| - 1] == job.current.p)
    && forall p | p in job.sent :: p.jobId == j && GetPool(pools, p.poolId).Some?
  }

  ghost predicate JobInv(pools: nat, j: nat, job: Job, ready: multiset<Packet>, running: multiset<Packet>) {
    InOrder(pools, j, job) && OneOnItsWay(j, job.current, ready, running)
  }

  ghost predicate BooksInv(pools: nat, b: Books) {
    DISCRETE !in b.jobs && forall j | j in b.jobs :: JobInv(pools, j, b.jobs[j], b.ready, b.running)
  }

  lemma FirstSent(pools: nat, job: Job, p: Packet, ready: multiset<Packet>, running: multiset<Packet>)
    requires JobInv(pools, p.jobId, job, ready, running) && job.empty && GetPool(pools, p.poolId).Some?
    ensures JobInv(pools, p.jobId, job.(empty := false, sent := job.sent + [p], current := Queued(p)),
                   ready + multiset{p}, running)
  {
    assert job.sent + [p] == job.started + [p] + [];
  }

  lemma LaterSent(pools: nat, job: Job, p: Packet)
    requires InOrder(pools, p.jobId, job) && !job.empty && GetPool(pools, p.poolId).Some?
    ensures InOrder(pools, p.jobId, job.(sent := job.sent + [p], que := job.que + [p]))
  {
    var before := job.started + OnItsWayToAWorker(job.current);
    assert before + job.que + [p] == before + (job.que + [p]);
  }

  /** The packet a worker takes for a live job is the current one. */
  lemma Taken(pools: nat, job: Job, p: Packet, ready: multiset<Packet>, running: multiset<Packet>)
    requires JobInv(pools, p.jobId, job, ready + multiset{p}, running)
    ensures job.current == Queued(p)
    ensures JobInv(pools, p.jobId, job.(started := job.started + [p], current := Executing(p)), ready,
                   running + multiset{p})
  {
    assert p in ready + multiset{p};
    assert job.started + [p] + job.que == job.started + [p] + [] + job.que;
  }

  lemma Drained(pools: nat, job: Job, p: Packet, ready: multiset<Packet>, running: multiset<Packet>)
    requires JobInv(pools, p.jobId, job, ready, running + multiset{p}) && job.que == []
    ensures JobInv(pools, p.jobId, job.(empty := true, que := [], current := Nothing), ready, running)
  {
    assert p in running + multiset{p};
    assert job.started + [] + [] == job.started;
  }

  /** The head of the job's queue follows the message that is done. */
  lemma Passed(pools: nat, job: Job, p: Packet, ready: multiset<Packet>, running: multiset<Packet>)
    requires JobInv(pools, p.jobId, job, ready, running + multiset{p}) && job.que != []
    ensures GetPool(pools, job.que[0].poolId).Some?
    ensures job.que[0].jobId == p.jobId
    ensures JobInv(pools, p.jobId, job.(que := job.que[1..], current := Queued(job.que[0])),
                   ready + multiset{job.que[0]}, running)
  {
    assert p in running + multiset{p};
    var q := job.que[0];
    assert q == job.sent[|job.started|] && q in job.sent;
    assert job.started + [] + job.que == job.started + [q] + job.que[1..];
  }

  /** A change that concerns job j only keeps every live job's record once it keeps j's. */
  lemma OneJob(pools: nat, b: Books, b': Books, j: nat)
    requires BooksInv(pools, b) && b'.jobs.Keys == b.jobs.Keys
    requires forall i | i in b.jobs && i != j :: b'.jobs[i] == b.jobs[i]
    requires forall p: Packet | p.jobId != j :: b'.ready[p] == b.ready[p] && b'.running[p] == b.running[p]
    requires j in b.jobs ==> JobInv(pools, j, b'.jobs[j], b'.ready, b'.running)
    ensures BooksInv(pools, b')
  {
    forall i | i in b'.jobs ensures JobInv(pools, i, b'.jobs[i], b'.ready, b'.running) {
      if i != j { assert JobInv(pools, i, b.jobs[i], b.ready, b.running); }
    }
  }

  lemma SendDiscrete(pools: nat, b: Books, p: Packet)
    requires BooksInv(pools, b) && p.jobId !in b.jobs
    ensures BooksInv(pools, b.(ready := b.ready + multiset{p}))
  {
    OneJob(pools, b, b.(ready := b.ready + multiset{p}), p.jobId);
  }

  ghost function AfterFirst(b: Books, p: Packet): Books
    requires p.jobId in b.jobs
  {
    var job := b.jobs[p.jobId];
    Books(b.ready + multiset{p}, b.running,
          b.jobs[p.jobId := job.(empty := false, sent := job.sent + [p], current := Queued(p))])
  }

  lemma SendFirst(pools: nat, b: Books, p: Packet)
    requires BooksInv(pools, b) && p.jobId in b.jobs && b.jobs[p.jobId].empty && GetPool(pools, p.poolId).Some?
    ensures BooksInv(pools, AfterFirst(b, p))
  {
    FirstSent(pools, b.jobs[p.jobId], p, b.ready, b.running);
    OneJob(pools, b, AfterFirst(b, p), p.jobId);
  }

  ghost function AfterLater(b: Books, p: Packet): Books
    requires p.jobId in b.jobs
  {
    var job := b.jobs[p.jobId];
    b.(jobs := b.jobs[p.jobId := job.(sent := job.sent + [p], que := job.que + [p])])
  }

  lemma SendLater(pools: nat, b: Books, p: Packet)
    requires BooksInv(pools, b) && p.jobId in b.jobs && !b.jobs[p.jobId].empty && GetPool(pools, p.poolId).Some?
    ensures BooksInv(pools, AfterLater(b, p))
  {
    LaterSent(pools, b.jobs[p.jobId], p);
    OneJob(pools, b, AfterLater(b, p), p.jobId);
  }

  lemma StartOne(pools: nat, b: Books, p: Packet, ready: multiset<Packet>)
    requires BooksInv(pools, b) && b.ready == ready + multiset{p}
    ensures BooksInv(pools, Books(ready, b.running + multiset{p}, Started(b.jobs, p)))
  {
    if p.jobId in b.jobs { Taken(pools, b.jobs[p.jobId], p, ready, b.running); }
    OneJob(pools, b, Books(ready, b.running + multiset{p}, Started(b.jobs, p)), p.jobId);
  }

  lemma StopOther(pools: nat, b: Books, p: Packet, running: multiset<Packet>)
    requires BooksInv(pools, b) && b.running == running + multiset{p} && p.jobId !in b.jobs
    ensures BooksInv(pools, b.(running := running))
  {
    OneJob(pools, b, b.(running := running), p.jobId);
  }

  ghost function AfterLast(b: Books, j: nat, running: multiset<Packet>): Books
    requires j in b.jobs
  {
    Books(b.ready, running, b.jobs[j := b.jobs[j].(empty := true, que := [], current := Nothing)])
  }

  lemma StopLast(pools: nat, b: Books, p: Packet, running: multiset<Packet>)
    requires BooksInv(pools, b) && b.running == running + multiset{p}
    requires p.jobId in b.jobs && b.jobs[p.jobId].que == []
    ensures BooksInv(pools, AfterLast(b, p.jobId, running))
  {
    Drained(pools, b.jobs[p.jobId], p, b.ready, running);
    OneJob(pools, b, AfterLast(b, p.jobId, running), p.jobId);
  }

  ghost function AfterPass(b: Books, j: nat, running: multiset<Packet>): Books
    requires j in b.jobs && b.jobs[j].que != []
  {
    var q := b.jobs[j].que[0];
    Books(b.ready + multiset{q}, running,
          b.jobs[j := b.jobs[j].(que := b.jobs[j].que[1..], current := Queued(q))])
  }

  lemma StopAndPass(pools: nat, b: Books, p: Packet, running: multiset<Packet>)
    requires BooksInv(pools, b) && b.running == running + multiset{p}
    requires p.jobId in b.jobs && b.jobs[p.jobId].que != []
    ensures GetPool(pools, b.jobs[p.jobId].que[0].poolId).Some?
    ensures BooksInv(pools, AfterPass(b, p.jobId, running))
  {
    Passed(pools, b.jobs[p.jobId], p, b.ready, running);
    OneJob(pools, b, AfterPass(b, p.jobId, running), p.jobId);
  }

  lemma ReadyGains(pools: seq<Pool>, i: nat, p: Packet)
    requires i < |pools|
    ensures AllReady(Put(pools, i, p)) == AllReady(pools) + multiset{p}
  {
    UnionGains(ReadyIn(pools), i, multiset{p});
    assert ReadyIn(Put(pools, i, p)) == ReadyIn(pools)[i := multiset(pools[i].ready) + multiset{p}];
  }

  lemma ReadyLoses(pools: seq<Pool>, i: nat, sem: nat)
    requires i < |pools| && pools[i].ready != []
    ensures AllReady(pools) == AllReady(pools[i := Pool(pools[i].ready[1..], sem)]) + multiset{pools[i].ready[0]}
  {
    var ready := pools[i].ready;
    assert ready == [ready[0]] + ready[1..];
    UnionLoses(ReadyIn(pools), i, multiset(ready[1..]), multiset{ready[0]});
    assert ReadyIn(pools[i := Pool(ready[1..], sem)]) == ReadyIn(pools)[i := multiset(ready[1..])];
  }

  /** Semaphores do not matter to what is ready. */
  lemma ReadySame(pools: seq<Pool>, i: nat, sem: nat)
    requires i < |pools|
    ensures AllReady(pools[i := Pool(pools[i].ready, sem)]) == AllReady(pools)
  {
    assert ReadyIn(pools[i := Pool(pools[i].ready, sem)]) == ReadyIn(pools);
  }

  lemma HandChanges(workers: seq<Worker>, w: nat, x: Worker)
    requires w < |workers|
    ensures Hand(workers[w].pc) == multiset{} ==> AllRunning(workers[w := x]) == AllRunning(workers) + Hand(x.pc)
    ensures Hand(x.pc) == multiset{} ==> AllRunning(workers) == AllRunning(workers[w := x]) + Hand(workers[w].pc)
  {
    var hands := InHands(workers);
    assert InHands(workers[w := x]) == hands[w := Hand(x.pc)];
    if Hand(workers[w].pc) == multiset{} {
      UnionGains(hands, w, Hand(x.pc));
      assert hands[w] + Hand(x.pc) == Hand(x.pc);
    }
    if Hand(x.pc) == multiset{} { UnionLoses(hands, w, Hand(x.pc), Hand(workers[w].pc)); }
  }

  lemma DispatchKeeps(s: State, s': State, p: Packet)
    requires Shape(s) && BooksInv(|s.pools|, BooksOf(s)) && Dispatch(s, s', p)
    ensures BooksInv(|s.pools|, BooksOf(s'))
  {
    var n, b, pool := |s.pools|, BooksOf(s), GetPool(|s.pools|, p.poolId);
    if pool.Some? {
      ReadyGains(s.pools, pool.value, p);
      if p.jobId == DISCRETE {
        SendDiscrete(n, b, p);
      } else if p.jobId in s.jobs {
        if s.jobs[p.jobId].empty { SendFirst(n, b, p); } else { SendLater(n, b, p); }
      }
    }
  }

  lemma ServerPostSame(s: State, s': State)
    requires Shape(s) && ServerPost(s, s')
    ensures BooksOf(s') == BooksOf(s)
  {
    ReadySame(s.pools, s.server.value, s.pools[s.server.value].sem + 1);
  }

  lemma WakeSame(s: State, s': State, w: nat)
    requires Shape(s) && Wake(s, s', w)
    ensures BooksOf(s') == BooksOf(s)
  {
    HandChanges(s.workers, w, s'.workers[w]);
    ReadySame(s.pools, s.workers[w].pool, s.pools[s.workers[w].pool].sem - 1);
  }

  lemma WorkerPostSame(s: State, s': State, w: nat)
    requires Shape(s) && WorkerPost(s, s', w)
    ensures BooksOf(s') == BooksOf(s)
  {
    hide AllRunning, AllReady;
    HandChanges(s.workers, w, s'.workers[w]);
    ReadySame(s.pools, s.workers[w].pc.pool, s.pools[s.workers[w].pc.pool].sem + 1);
  }

  lemma TakeKeeps(s: State, s': State, w: nat)
    requires Shape(s) && BooksInv(|s.pools|, BooksOf(s)) && Take(s, s', w)
    ensures BooksInv(|s.pools|, BooksOf(s'))
  {
    var i := s.workers[w].pool;
    HandChanges(s.workers, w, s'.workers[w]);
    if s.pools[i].ready != [] {
      ReadyLoses(s.pools, i, s.pools[i].sem);
      StartOne(|s.pools|, BooksOf(s), s.pools[i].ready[0], AllReady(s'.pools));
    }
  }

  lemma FinishKeeps(s: State, s': State, w: nat)
    requires Shape(s) && BooksInv(|s.pools|, BooksOf(s)) && Finish(s, s', w)
    ensures BooksInv(|s.pools|, BooksOf(s'))
  {
    var p := s.workers[w].pc.p;
    if p.jobId !in s.jobs {
      HandChanges(s.workers, w, Worker(s.workers[w].pool, Pending));
      StopOther(|s.pools|, BooksOf(s), p, AllRunning(s'.workers));
    } else if s.jobs[p.jobId].que == [] {
      HandChanges(s.workers, w, Worker(s.workers[w].pool, Pending));
      StopLast(|s.pools|, BooksOf(s), p, AllRunning(s'.workers));
    } else {
      FinishPasses(s, s', w, p);
    }
  }

  /** The head of a live job's queue names a pool. */
  lemma HeadNamesPool(pools: nat, b: Books, j: nat)
    requires BooksInv(pools, b) && j in b.jobs && b.jobs[j].que != []
    ensures GetPool(pools, b.jobs[j].que[0].poolId).Some?
  {
    var job := b.jobs[j];
    assert JobInv(pools, j, job, b.ready, b.running);
    assert job.que[0] == job.sent[|job.sent| - |job.que|] && job.que[0] in job.sent;
  }

  lemma FinishPasses(s: State, s': State, w: nat, p: Packet)
    requires Shape(s) && BooksInv(|s.pools|, BooksOf(s)) && Finish(s, s', w)
    requires s.workers[w].pc == Running(p) && p.jobId in s.jobs && s.jobs[p.jobId].que != []
    ensures BooksInv(|s.pools|, BooksOf(s'))
  {
    var q := s.jobs[p.jobId].que[0];
    HeadNamesPool(|s.pools|, BooksOf(s), p.jobId);
    var pool := GetPool(|s.pools|, q.poolId).value;
    HandChanges(s.workers, w, Worker(s.workers[w].pool, Posting(pool)));
    StopAndPass(|s.pools|, BooksOf(s), p, AllRunning(s'.workers));
    ReadyGains(s.pools, pool, q);
  }
}
