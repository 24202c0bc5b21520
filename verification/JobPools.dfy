/** Messages go to the pool they name: the one whose index is the low byte of the pool id. */
module JobPools {
  import opened Wrappers
  import opened JobServer
  import opened JobStreams
  import opened JobOrder
  import opened JobRuns

  ghost predicate QueueRouted(s: State, i: nat)
    requires i < |s.pools|
  {
    forall p | p in s.pools[i].ready :: p.poolId % 256 == i
  }

  ghost predicate HandRouted(s: State, w: nat)
    requires w < |s.workers|
  {
    s.workers[w].pc.Running? ==> s.workers[w].pc.p.poolId % 256 == s.workers[w].pool
  }

  /** Ready queues and workers have packets of their own pool only. */
  ghost predicate Routed(s: State) {
    && (forall i: nat | i < |s.pools| :: QueueRouted(s, i))
    && (forall w: nat | w < |s.workers| :: HandRouted(s, w))
  }

  lemma DispatchRoutes(s: State, s': State, p: Packet)
    requires Shape(s) && Routed(s) && Dispatch(s, s', p)
    ensures Routed(s')
  {
    forall i: nat | i < |s'.pools| ensures QueueRouted(s', i) { assert QueueRouted(s, i); }
    forall w: nat | w < |s'.workers| ensures HandRouted(s', w) { assert HandRouted(s, w); }
  }

  lemma PostRoutes(s: State, s': State)
    requires Shape(s) && Routed(s) && ServerPost(s, s')
    ensures Routed(s')
  {
    forall i: nat | i < |s'.pools| ensures QueueRouted(s', i) { assert QueueRouted(s, i); }
    forall w: nat | w < |s'.workers| ensures HandRouted(s', w) { assert HandRouted(s, w); }
  }

  lemma SignalRoutes(s: State, s': State, w: nat)
    requires Shape(s) && Routed(s) && (Wake(s, s', w) || WorkerPost(s, s', w))
    ensures Routed(s')
  {
    forall i: nat | i < |s'.pools| ensures QueueRouted(s', i) { assert QueueRouted(s, i); }
    forall v: nat | v < |s'.workers| ensures HandRouted(s', v) { assert HandRouted(s, v); }
  }

  /** A worker takes packets of its own pool. */
  lemma TakeRoutes(s: State, s': State, w: nat)
    requires Shape(s) && Routed(s) && Take(s, s', w)
    ensures Routed(s')
  {
    assert QueueRouted(s, s.workers[w].pool);
    forall i: nat | i < |s'.pools| ensures QueueRouted(s', i) { assert QueueRouted(s, i); }
    forall v: nat | v < |s'.workers| ensures HandRouted(s', v) { assert HandRouted(s, v); }
  }

  /** The next message of a job goes to its own pool. */
  lemma FinishRoutes(s: State, s': State, w: nat)
    requires Shape(s) && Routed(s) && Finish(s, s', w)
    requires var j := s.workers[w].pc.p.jobId;
             j in s.jobs && s.jobs[j].que != [] ==> GetPool(|s.pools|, s.jobs[j].que[0].poolId).Some?
    ensures Routed(s')
  {
    forall i: nat | i < |s'.pools| ensures QueueRouted(s', i) { assert QueueRouted(s, i); }
    forall v: nat | v < |s'.workers| ensures HandRouted(s', v) { assert HandRouted(s, v); }
  }

  lemma StepRoutes(s: State, s': State)
    requires Inv(s) && Routed(s) && Next(s, s')
    ensures Routed(s')
  {
    if p :| Dispatch(s, s', p) {
      DispatchRoutes(s, s', p);
    } else if ServerPost(s, s') {
      PostRoutes(s, s');
    } else if w: nat :| WorkerStep(s, s', w) {
      if Take(s, s', w) {
        TakeRoutes(s, s', w);
      } else if Finish(s, s', w) {
        var j := s.workers[w].pc.p.jobId;
        if j in s.jobs && s.jobs[j].que != [] { HeadNamesPool(|s.pools|, BooksOf(s), j); }
        FinishRoutes(s, s', w);
      } else {
        SignalRoutes(s, s', w);
      }
    } else {
      forall i: nat | i < |s'.pools| ensures QueueRouted(s', i) { assert QueueRouted(s, i); }
      forall v: nat | v < |s'.workers| ensures HandRouted(s', v) { assert HandRouted(s, v); }
    }
  }

  lemma InitRoutes(s: State)
    requires Init(s)
    ensures Routed(s)
  {
    forall i: nat | i < |s.pools| ensures QueueRouted(s, i) {}
    forall w: nat | w < |s.workers| ensures HandRouted(s, w) {}
  }

  lemma {:induction false} RunRoutes(run: seq<State>, k: nat)
    requires Run(run) && k < |run|
    ensures Routed(run[k])
  {
    hide Inv, Routed, Shape, Next;
    if k > 0 {
      RunRoutes(run, k - 1);
      RunInv(run, k - 1);
      assert Next(run[k - 1], run[k - 1 + 1]);
      StepRoutes(run[k - 1], run[k]);
    } else {
      InitRoutes(run[0]);
    }
  }

  /** In every state of every run a packet on pool i's ready queue has i as the low byte of its pool id, and so
      has one that a worker of pool i executes. */
  lemma OnOwnPool(run: seq<State>, k: nat, i: nat, p: Packet, w: nat)
    requires Run(run) && k < |run|
    ensures i < |run[k].pools| && p in run[k].pools[i].ready ==> p.poolId % 256 == i
    ensures w < |run[k].workers| && run[k].workers[w].pc == Running(p) ==> p.poolId % 256 == run[k].workers[w].pool
  {
    RunRoutes(run, k);
    assert i < |run[k].pools| ==> QueueRouted(run[k], i);
    assert w < |run[k].workers| ==> HandRouted(run[k], w);
  }

  /** The server refuses a discrete message, or one of a live job, exactly if no pool has the low byte of its
      pool id as index; a discrete message it accepts joins the end of that pool's ready queue. */
  lemma RefusesExactly(s: State, s': State, p: Packet)
    requires Shape(s) && Dispatch(s, s', p) && (p.jobId == 0 || p.jobId in s.jobs)
    ensures s' == s <==> p.poolId % 256 >= |s.pools|
    ensures p.jobId == 0 && s' != s ==>
              && |s'.pools| == |s.pools| && p.poolId % 256 < |s.pools|
              && s'.pools[p.poolId % 256].ready == s.pools[p.poolId % 256].ready + [p]
  {
    if p.jobId != 0 && p.poolId % 256 < |s.pools| {
      assert s'.jobs[p.jobId].sent == s.jobs[p.jobId].sent + [p];
    }
  }

  /** q' is q, or q with one packet more at its end. */
  ghost predicate Grows(q: seq<Packet>, q': seq<Packet>) {
    q' == q || (|q'| == |q| + 1 && q' == q + [q'[|q|]])
  }

  /** q' is q without its head, which a worker of pool i now executes. */
  ghost predicate HeadTaken(s: State, s': State, i: nat)
    requires i < |s.pools| && i < |s'.pools|
  {
    var q, q' := s.pools[i].ready, s'.pools[i].ready;
    && |q| == |q'| + 1 && q == [q[0]] + q'
    && exists w: nat :: w < |s.workers| && w < |s'.workers|
                        && s.workers[w].pool == i && s'.workers[w].pc == Running(q[0])
  }

  lemma TakeIsFifo(s: State, s': State, w: nat, i: nat)
    requires Shape(s) && Take(s, s', w) && i < |s.pools|
    ensures i < |s'.pools| && (Grows(s.pools[i].ready, s'.pools[i].ready) || HeadTaken(s, s', i))
  {
    if s.workers[w].pool == i && s.pools[i].ready != [] {
      assert s'.workers[w].pc == Running(s.pools[i].ready[0]);
    }
  }

  lemma WorkerGrows(s: State, s': State, w: nat, i: nat)
    requires Shape(s) && (Wake(s, s', w) || Finish(s, s', w) || WorkerPost(s, s', w)) && i < |s.pools|
    ensures i < |s'.pools| && Grows(s.pools[i].ready, s'.pools[i].ready)
  {
  }

  lemma ServerGrows(s: State, s': State, i: nat)
    requires Shape(s) && (ServerPost(s, s') || exists p :: Dispatch(s, s', p)) && i < |s.pools|
    ensures i < |s'.pools| && Grows(s.pools[i].ready, s'.pools[i].ready)
  {
  }

  /** Each pool's ready queue is first in, first out: a step leaves it, adds one packet at its end, or takes the
      one at its head into the hands of a worker of the pool. */
  lemma ReadyIsFifo(s: State, s': State, i: nat)
    requires Shape(s) && Next(s, s') && i < |s.pools|
    ensures i < |s'.pools| && (Grows(s.pools[i].ready, s'.pools[i].ready) || HeadTaken(s, s', i))
  {
    hide Take, Wake, Finish, WorkerPost, ServerPost, Dispatch, Grows, HeadTaken;
    if ServerPost(s, s') || exists p :: Dispatch(s, s', p) {
      ServerGrows(s, s', i);
    } else if w: nat :| WorkerStep(s, s', w) {
      if Take(s, s', w) { TakeIsFifo(s, s', w, i); } else { WorkerGrows(s, s', w, i); }
    } else {
      QueuesStay(s, s', i);
    }
  }

  lemma QueuesStay(s: State, s': State, i: nat)
    requires Shape(s) && (exists j: nat :: Acquire(s, s', j) || Release(s, s', j)) && i < |s.pools|
    ensures i < |s'.pools| && Grows(s.pools[i].ready, s'.pools[i].ready)
  {
  }
}
