/** Runs of the server with its pools, workers and job streams.

    A packet is put on a ready queue in one step and the pool's semaphore posted in a later one, by the
    server thread or by a worker. The gate that serializes the job list is not held over that second
    step here, which allows more interleavings than the code does. */
module JobStreams {
  import opened Wrappers
  import opened JobServer

  datatype Pool = Pool(ready: seq<Packet>, sem: nat)

  /** A worker waits for its pool's semaphore, or has been let through and not yet dequeued, or executes a
      packet, or has put a packet on a ready queue and not yet posted that pool. */
  datatype WorkerPc = Pending | Woken | Running(p: Packet) | Posting(pool: nat)

  datatype Worker = Worker(pool: nat, pc: WorkerPc)

  /** Where the one message of a job that is on its way has got to. */
  datatype Current = Nothing | Queued(p: Packet) | Executing(p: Packet)

  /** A live job: its stream object, then history: the packets dispatched to it, those workers have taken
      up, both in order, and the one on its way. */
  datatype Job = Job(empty: bool, que: seq<Packet>, sent: seq<Packet>, started: seq<Packet>, current: Current)

  datatype State = State(pools: seq<Pool>, workers: seq<Worker>, server: Option<nat>, jobs: map<nat, Job>)

  ghost predicate Shape(s: State) {
    && (forall w | 0 <= w < |s.workers| :: s.workers[w].pool < |s.pools|)
    && (forall w | 0 <= w < |s.workers| && s.workers[w].pc.Posting? :: s.workers[w].pc.pool < |s.pools|)
    && (s.server.Some? ==> s.server.value < |s.pools|)
  }

  ghost function Put(pools: seq<Pool>, i: nat, p: Packet): seq<Pool>
    requires i < |pools|
  {
    pools[i := Pool(pools[i].ready + [p], pools[i].sem)]
  }

  ghost function Posted(pools: seq<Pool>, i: nat): seq<Pool>
    requires i < |pools|
  {
    pools[i := Pool(pools[i].ready, pools[i].sem + 1)]
  }

  /** The server thread dispatches a packet; a packet for no pool or no live job goes back to its client. */
  ghost predicate Dispatch(s: State, s': State, p: Packet)
    requires Shape(s)
  {
    && s.server.None?
    && match GetPool(|s.pools|, p.poolId)
       case None => s' == s
       case Some(i) =>
         var put := s.(pools := Put(s.pools, i, p), server := Some(i));
         if p.jobId == DISCRETE then s' == put
         else if p.jobId !in s.jobs then s' == s
         else
           var job := s.jobs[p.jobId].(sent := s.jobs[p.jobId].sent + [p]);
           if job.empty then s' == put.(jobs := s.jobs[p.jobId := job.(empty := false, current := Queued(p))])
           else s' == s.(jobs := s.jobs[p.jobId := job.(que := job.que + [p])])
  }

  ghost predicate ServerPost(s: State, s': State)
    requires Shape(s)
  {
    s.server.Some? && s' == s.(pools := Posted(s.pools, s.server.value), server := None)
  }

  ghost function To(s: State, w: nat, pc: WorkerPc): State
    requires w < |s.workers|
  {
    s.(workers := s.workers[w := s.workers[w].(pc := pc)])
  }

  ghost predicate Wake(s: State, s': State, w: nat)
    requires Shape(s)
  {
    && w < |s.workers| && s.workers[w].pc == Pending
    && var i := s.workers[w].pool;
       && s.pools[i].sem > 0
       && s' == To(s, w, Woken).(pools := s.pools[i := Pool(s.pools[i].ready, s.pools[i].sem - 1)])
  }

  /** History: a worker takes up p. */
  ghost function Started(jobs: map<nat, Job>, p: Packet): map<nat, Job> {
    if p.jobId in jobs && jobs[p.jobId].current == Queued(p) then
      jobs[p.jobId := jobs[p.jobId].(started := jobs[p.jobId].started + [p], current := Executing(p))]
    else jobs
  }

  /** A woken worker takes the next packet; if there is none it goes back to waiting. */
  ghost predicate Take(s: State, s': State, w: nat)
    requires Shape(s)
  {
    && w < |s.workers| && s.workers[w].pc == Woken
    && var i := s.workers[w].pool;
       var ready := s.pools[i].ready;
       if ready == [] then s' == To(s, w, Pending)
       else
         var p := ready[0];
         && s'.pools == s.pools[i := Pool(ready[1..], s.pools[i].sem)]
         && s'.workers == To(s, w, Running(p)).workers && s'.server == s.server
         && s'.jobs == Started(s.jobs, p)
  }

  /** A worker is done with a packet; after a job message it looks for the job's next one. */
  ghost predicate Finish(s: State, s': State, w: nat)
    requires Shape(s)
  {
    && w < |s.workers| && s.workers[w].pc.Running?
    && var j := s.workers[w].pc.p.jobId;
       if j == DISCRETE || j !in s.jobs then s' == To(s, w, Pending)
       else
         var job := s.jobs[j];
         match TakeNext(|s.pools|, job.que)
         case Drained =>
           s' == To(s, w, Pending).(jobs := s.jobs[j := job.(empty := true, que := [], current := Nothing)])
         case Rerun(bad, rest) =>
           s' == To(s, w, Running(bad)).(
             jobs := s.jobs[j := job.(que := rest, started := job.started + [bad], current := Executing(bad))])
         case Ready(q, rest) =>
           var i := GetPool(|s.pools|, q.poolId);
           i.Some? && s' == To(s, w, Posting(i.value)).(
             pools := Put(s.pools, i.value, q), jobs := s.jobs[j := job.(que := rest, current := Queued(q))])
  }

  ghost predicate WorkerPost(s: State, s': State, w: nat)
    requires Shape(s)
  {
    && w < |s.workers| && s.workers[w].pc.Posting?
    && s' == To(s, w, Pending).(pools := Posted(s.pools, s.workers[w].pc.pool))
  }

  /** Packets of job j on ready queues or in workers' hands. */
  ghost predicate InFlight(s: State, p: Packet) {
    || (exists i :: 0 <= i < |s.pools| && p in s.pools[i].ready)
    || (exists w :: 0 <= w < |s.workers| && s.workers[w].pc == Running(p))
  }

  /** A new job stream whose id no message on its way still carries. */
  ghost predicate Acquire(s: State, s': State, j: nat) {
    && 1 <= j <= 0xFFFF && j !in s.jobs && (forall p | InFlight(s, p) :: p.jobId != j)
    && s' == s.(jobs := s.jobs[j := Job(true, [], [], [], Nothing)])
  }

  /** The job stream goes; its queued messages return to the client, one on its way goes on. */
  ghost predicate Release(s: State, s': State, j: nat) {
    j in s.jobs && s' == s.(jobs := s.jobs - {j})
  }

  ghost predicate WorkerStep(s: State, s': State, w: nat)
    requires Shape(s)
  {
    Wake(s, s', w) || Take(s, s', w) || Finish(s, s', w) || WorkerPost(s, s', w)
  }

  ghost predicate Next(s: State, s': State)
    requires Shape(s)
  {
    || (exists p :: Dispatch(s, s', p))
    || ServerPost(s, s')
    || (exists w: nat :: WorkerStep(s, s', w))
    || (exists j: nat :: Acquire(s, s', j))
    || (exists j: nat :: Release(s, s', j))
  }
}
