/** How the RCM server hands messages to its worker threads: pools with a ready queue and a counting
    semaphore each, and job streams that keep one message in flight however many pools they use. */
module JobServer {
  import opened Wrappers

  /** poolId is the 16-bit pool id; jobId 0 marks a discrete message. */
  datatype Packet = Packet(jobId: nat, poolId: nat, body: int)

  const DISCRETE: nat := 0

  /** The pool a static pool id names: bits 7..0 are its index. */
  function GetPool(pools: nat, poolId: nat): Option<nat> {
    if poolId % 256 < pools then Some(poolId % 256) else None
  }

  /** What a worker that has finished a job message does next: mark the stream empty, execute a message again
      that it has just returned to its client, or put the next one on a ready queue. */
  datatype Outcome = Drained | Rerun(bad: Packet, rest: seq<Packet>) | Ready(p: Packet, rest: seq<Packet>)

  /** The message at the head of the job's queue goes to its pool; if it names none it is returned to its
      client, and the worker keeps hold of it: the return succeeds, and that ends the loop. */
  function TakeNext(pools: nat, que: seq<Packet>): Outcome {
    if que == [] then Drained
    else if GetPool(pools, que[0].poolId).Some? then Ready(que[0], que[1..])
    else Rerun(que[0], que[1..])
  }

  /** A job stream object. */
  class JobStream {
    var empty: bool
    var msgQue: seq<Packet>

    constructor ()
      ensures empty && msgQue == []
    {
      empty, msgQue := true, [];
    }

    /** The job branch of RcmServer_dispatch_P: true sends the packet to its pool's ready queue. */
    method Dispatch(p: Packet) returns (ready: bool)
      modifies this
      ensures ready == old(empty) && !empty
      ensures msgQue == if ready then old(msgQue) else old(msgQue) + [p]
    {
      if empty {
        empty := false;
        ready := true;
      } else {
        msgQue := msgQue + [p];
        ready := false;
      }
    }

    /** The part of RcmServer_workerThrFxn_P after a job message is done. */
    method Continue(pools: nat) returns (next: Outcome)
      modifies this
      ensures next == TakeNext(pools, old(msgQue))
      ensures msgQue == if next.Drained? then [] else next.rest
      ensures old(msgQue) == (match next
                              case Drained => msgQue
                              case Rerun(bad, _) => [bad] + msgQue
                              case Ready(p, _) => [p] + msgQue)
      ensures empty == (old(empty) || next.Drained?)
      ensures next.Drained? <==> old(msgQue) == []
      ensures next.Ready? <==> old(msgQue) != [] && old(msgQue)[0].poolId % 256 < pools
    {
      if msgQue == [] {
        empty := true;
        return Drained;
      }
      var p := msgQue[0];
      msgQue := msgQue[1..];
      next := if GetPool(pools, p.poolId).Some? then Ready(p, msgQue) else Rerun(p, msgQue);
    }
  }

  /** The id generator and the list of live job streams. */
  class JobIds {
    var jobId: nat
    var jobList: seq<nat>

    constructor ()
      ensures Valid() && jobList == []
    {
      jobId, jobList := 0xFFFF, [];
    }

    ghost predicate Valid()
      reads this
    {
      1 <= jobId <= 0xFFFF
    }

    /** RcmServer_acqJobId_P: the next id in the cycle 1..0xFFFF that no live job has. */
    method Acquire() returns (r: Option<nat>)
      requires Valid()
      modifies this
      ensures Valid()
      ensures r.Some? ==> 1 <= r.value <= 0xFFFF && r.value !in old(jobList) && jobList == old(jobList) + [r.value]
      ensures r.None? ==> jobList == old(jobList)
      ensures r.None? <==> forall j | 1 <= j <= 0xFFFF :: j in old(jobList)
      ensures r.Some? ==> jobId == r.value && FirstFree(old(jobList), old(jobId), r.value)
    {
      var count, first := 0xFFFF, jobId;
      while count > 0
        invariant 0 <= count <= 0xFFFF && Valid() && jobList == old(jobList)
        invariant jobId == Later(first, 0xFFFF - count)
        invariant forall k | 1 <= k <= 0xFFFF - count :: Later(first, k) in jobList
      {
        jobId := if jobId == 0xFFFF then 1 else jobId + 1;
        if jobId !in jobList {
          jobList := jobList + [jobId];
          assert jobId == Later(first, 0x1_0000 - count);
          return Some(jobId);
        }
        count := count - 1;
      }
      forall j | 1 <= j <= 0xFFFF ensures j in jobList {
        assert j == Later(first, if j > first then j - first else 0xFFFF - (first - j));
      }
      r := None;
    }
  }

  /** id is the first free one after j in the cycle 1, 2, ... 65535, 1, ... */
  ghost predicate FirstFree(jobList: seq<nat>, j: nat, id: nat) {
    exists k: nat :: 1 <= k <= 0xFFFF && id == Later(j, k) && forall l | 1 <= l < k :: Later(j, l) in jobList
  }

  /** Going round the cycle: one step leads to the next number, and from 65535 to 1. */
  lemma LaterSteps(j: nat, k: nat)
    requires 1 <= j <= 0xFFFF && k < 0xFFFF
    ensures Later(j, 0) == j && 1 <= Later(j, k) <= 65535
    ensures Later(j, k + 1) == if Later(j, k) == 65535 then 1 else Later(j, k) + 1
  {
  }

  /** The id k steps after j. */
  function Later(j: nat, k: int): int { if j + k <= 0xFFFF then j + k else j + k - 0xFFFF }
}
