/** The histogram kernel on all its threads, in every interleaving of their loop iterations and barrier
    steps. */
module HistogramRuns {
  import opened Wrappers
  import opened Grid
  import opened Histogram
  import opened HistogramStages
  import opened TwoLevel
  import Barrier

  datatype Kernel = Kernel(im: Image, iterations: nat)

  /** done[t]: loop iterations of thread t since its last barrier call. */
  datatype State = State(bar: Barrier.State, done: seq<nat>, data: seq<Local>)

  ghost predicate WellFormed(k: Kernel) {
    WellDivided(k.im) && |k.im.rows| >= 2 && Barrier.WellFormed(Config(k))
  }

  ghost function Config(k: Kernel): Barrier.Config { TwoLevelConfig(k.iterations, |k.im.rows|) }

  ghost predicate Shape(k: Kernel, s: State) {
    && WellFormed(k) && Barrier.Shape(Config(k), s.bar)
    && |s.done| == |s.data| == |k.im.rows|
    && forall t: nat | t < |k.im.rows| :: Sized(k.im, t, s.data[t])
  }

  /** The stage of thread t after p barrier calls and n loop iterations: common_wrapper for the M3 tasks, the
      loop of the DSP's fxnTest1 for the others. */
  function StageOf(im: Image, t: nat, p: nat, n: nat): Stage
    requires t < |im.rows|
  {
    if t == 0 then
      match p % 5
      case 0 => if p == 0 then Start else Painting(n)
      case 1 => if p == 1 then Start else Painting(Cells(im, t))
      case 2 => Computing(n)
      case 3 => Computed
      case _ => Mapping(n)
    else if t == 1 then
      if p % 3 == 0 then (if p == 0 then Start else Painting(n)) else if p % 3 == 1 then Computing(n) else Computed
    else if p % 2 == 1 then Computing(n)
    else if p == 0 then Start
    else if n < MapOps(im) then Mapping(n)
    else Painting(n - MapOps(im))
  }

  /** The loop iterations between calls p - 1 and p. */
  function Ops(im: Image, t: nat, p: nat): nat
    requires t < |im.rows|
  {
    match StageOf(im, t, p, 0)
    case Start => 0
    case Computed => 0
    case Computing(_) => ComputeOps(im, t)
    case Mapping(_) => MapOps(im) + if t == 0 then 0 else Cells(im, t)
    case Painting(_) => if t == 0 && p % 5 == 1 then 0 else Cells(im, t)
  }

  ghost function StageIn(k: Kernel, s: State, t: nat): Stage
    requires Shape(k, s) && t < |k.im.rows|
  {
    StageOf(k.im, t, s.bar.pos[t], s.done[t])
  }

  /** The entry of a thread's histogram that summing iteration n reads. */
  ghost function HistoRead(k: Kernel, s: State, n: nat): int
    requires Shape(k, s)
  {
    if n < SumOps(k.im) then Get(s.data[n / LEVELS].histo, n % LEVELS) else 0
  }

  /** The mapping thread t paints with: its processor's. */
  ghost function MapRead(k: Kernel, s: State, t: nat): seq<int>
    requires Shape(k, s) && t < |k.im.rows|
  {
    s.data[if t == 1 then 0 else t].map_
  }

  /** The data of thread t after its next loop iteration. */
  ghost function Worked(k: Kernel, s: State, t: nat, stage: Stage): Local
    requires Shape(k, s) && t < |k.im.rows|
  {
    var x := s.data[t];
    match stage
    case Start => x
    case Computed => x
    case Computing(n) => ComputeStep(k.im, t, n, x)
    case Mapping(n) => MapStep(k.im, n, HistoRead(k, s, n), x)
    case Painting(n) => PaintStep(n, MapRead(k, s, t), x)
  }

  ghost predicate Work(k: Kernel, s: State, s': State, t: nat)
    requires Shape(k, s)
  {
    && t < |k.im.rows| && s.bar.target[t].None? && s.done[t] < Ops(k.im, t, s.bar.pos[t])
    && s' == State(s.bar, s.done[t := s.done[t] + 1], s.data[t := Worked(k, s, t, StageIn(k, s, t))])
  }

  ghost predicate Arrive(k: Kernel, s: State, s': State, t: nat)
    requires Shape(k, s)
  {
    && Barrier.CanArrive(Config(k), s.bar, t) && s.done[t] == Ops(k.im, t, s.bar.pos[t])
    && s' == s.(bar := Barrier.Arrive(Config(k), s.bar, t))
  }

  ghost predicate Leave(k: Kernel, s: State, s': State, t: nat)
    requires Shape(k, s)
  {
    && Barrier.CanLeave(Config(k), s.bar, t)
    && s' == s.(bar := Barrier.Leave(Config(k), s.bar, t), done := s.done[t := 0])
  }

  ghost predicate StepOf(k: Kernel, s: State, s': State, t: nat)
    requires Shape(k, s)
  {
    Work(k, s, s', t) || Arrive(k, s, s', t) || Leave(k, s, s', t)
  }

  /** Whatever the memory holds at the start. */
  ghost predicate Init(k: Kernel, s: State) {
    Shape(k, s) && s.bar == Barrier.Init(Config(k)) && forall t: nat | t < |k.im.rows| :: s.done[t] == 0
  }

  ghost predicate Next(k: Kernel, s: State, s': State)
    requires Shape(k, s)
  {
    exists t: nat :: StepOf(k, s, s', t)
  }

  ghost predicate Run(k: Kernel, run: seq<State>) {
    && run != [] && Init(k, run[0])
    && (forall i | 0 <= i < |run| :: Shape(k, run[i]))
    && forall i | 0 <= i < |run| - 1 :: Next(k, run[i], run[i + 1])
  }

  ghost predicate ThreadInv(k: Kernel, s: State, t: nat)
    requires Shape(k, s) && t < |k.im.rows|
  {
    && s.done[t] <= Ops(k.im, t, s.bar.pos[t])
    && (s.bar.target[t].Some? ==> s.done[t] == Ops(k.im, t, s.bar.pos[t]))
    && Good(k.im, t, StageIn(k, s, t), s.data[t])
  }

  ghost predicate Inv(k: Kernel, s: State) {
    && Shape(k, s) && Barrier.Inv(Config(k), s.bar)
    && forall t: nat | t < |k.im.rows| :: ThreadInv(k, s, t)
  }

  /** Past its counting for the current round of mapping. */
  ghost predicate Counting(stage: Stage, ops: nat) {
    stage == Start || (stage.Computing? && stage.n < ops)
  }

  /** While a processor adds up the histograms, every thread's is complete. */
  lemma HistogramsComplete(k: Kernel, s: State, t: nat, u: nat)
    requires Inv(k, s) && t < |k.im.rows| && u < |k.im.rows|
    requires StageIn(k, s, t).Mapping? && s.bar.target[t].None?
    ensures !Counting(StageIn(k, s, u), ComputeOps(k.im, u))
    ensures HistoDone(k.im, u, s.data[u])
  {
    assert ThreadInv(k, s, u);
    CountingIsOver(k, s, t, u);
    if StageIn(k, s, u).Computing? { ComputeEnds(k.im, u, s.data[u]); }
  }

  lemma CountingIsOver(k: Kernel, s: State, t: nat, u: nat)
    requires Shape(k, s) && Barrier.Inv(Config(k), s.bar) && t < |k.im.rows| && u < |k.im.rows|
    requires s.bar.target[u].Some? ==> s.done[u] == Ops(k.im, u, s.bar.pos[u])
    requires StageIn(k, s, t).Mapping? && s.bar.target[t].None?
    ensures !Counting(StageIn(k, s, u), ComputeOps(k.im, u))
    ensures StageIn(k, s, u).Computing? ==> StageIn(k, s, u).n == ComputeOps(k.im, u)
  {
    var m := PassedSecond(t, s.bar.pos[t]);
    MapsInSecondPart(k.im, t, s.bar.pos[t], s.done[t]);
    SecondPart(t, s.bar.pos[t]);
    if u == 1 {
      HelperPast(k.iterations, |k.im.rows|, s.bar, t);
      LateHelperStage(k.im, m, s.bar.pos[u], s.done[u]);
    } else {
      ProcessorPast(k.iterations, |k.im.rows|, s.bar, t, u);
      if u == 0 {
        LateLeadStage(k.im, m, s.bar.pos[u], s.done[u]);
      } else {
        LateSingleStage(k.im, u, m, s.bar.pos[u], s.done[u]);
      }
    }
  }

  lemma MapsInSecondPart(im: Image, t: nat, p: nat, n: nat)
    requires t < |im.rows| && StageOf(im, t, p, n).Mapping?
    ensures t != 1 && InSecondPart(t, p)
  {
  }

  lemma LateLeadStage(im: Image, m: nat, p: nat, n: nat)
    requires |im.rows| > 0 && m > 0 && 5 * m - 2 <= p <= 5 * m
    ensures StageOf(im, 0, p, n) != Start && !StageOf(im, 0, p, n).Computing?
  {
  }

  lemma LateHelperStage(im: Image, m: nat, p: nat, n: nat)
    requires |im.rows| > 1 && m > 0 && 3 * m - 2 <= p <= 3 * m
    ensures StageOf(im, 1, p, n) != Start && (StageOf(im, 1, p, n).Computing? ==> p == 3 * m - 2)
    ensures p == 3 * m - 2 ==> StageOf(im, 1, p, n) == Computing(n) && Ops(im, 1, p) == ComputeOps(im, 1)
  {
  }

  lemma LateSingleStage(im: Image, u: nat, m: nat, p: nat, n: nat)
    requires 2 <= u < |im.rows| && m > 0 && 2 * m - 1 <= p <= 2 * m
    ensures StageOf(im, u, p, n) != Start && (StageOf(im, u, p, n).Computing? ==> p == 2 * m - 1)
    ensures p == 2 * m - 1 ==> StageOf(im, u, p, n) == Computing(n) && Ops(im, u, p) == ComputeOps(im, u)
  {
  }

  lemma LeadStage(im: Image, q: nat, p: nat, n: nat)
    requires |im.rows| > 0 && q > 0 && 5 * q - 1 <= p <= 5 * q + 1
    ensures if p == 5 * q - 1 then StageOf(im, 0, p, n) == Mapping(n) && Ops(im, 0, p) == MapOps(im)
            else StageOf(im, 0, p, n).Painting?
  {
  }

  /** While thread 1 maps its pixels, thread 0's mapping is complete. */
  lemma MappingComplete(k: Kernel, s: State)
    requires Inv(k, s) && StageIn(k, s, 1).Painting? && s.bar.target[1].None?
    ensures MappedTo(k.im, LEVELS, s.data[0])
  {
    LeadMapped(k.iterations, |k.im.rows|, s.bar);
    LeadStage(k.im, s.bar.pos[1] / 3, s.bar.pos[0], s.done[0]);
    assert ThreadInv(k, s, 0);
    if StageIn(k, s, 0).Mapping? { MapEnds(k.im, 0, s.data[0]); }
  }

  /** Stage b is one loop iteration on from stage a. */
  predicate Continues(im: Image, t: nat, a: Stage, b: Stage)
    requires t < |im.rows|
  {
    match a
    case Start => false
    case Computed => false
    case Computing(n) => n < ComputeOps(im, t) && b == Computing(n + 1)
    case Mapping(n) =>
      n < MapOps(im) && b == if n + 1 < MapOps(im) || t == 0 then Mapping(n + 1) else Painting(0)
    case Painting(n) => n < Cells(im, t) && b == Painting(n + 1)
  }

  lemma StageContinues(im: Image, t: nat, p: nat, n: nat)
    requires t < |im.rows| && n < Ops(im, t, p)
    ensures Continues(im, t, StageOf(im, t, p, n), StageOf(im, t, p, n + 1))
  {
  }

  /** Thread t is about to do an iteration of stage a that ends in stage b. */
  ghost predicate Doing(k: Kernel, s: State, t: nat, a: Stage, b: Stage) {
    && Shape(k, s) && t < |k.im.rows| && s.bar.target[t].None? && a == StageIn(k, s, t)
    && Continues(k.im, t, a, b) && Good(k.im, t, a, s.data[t])
  }

  /** What the iteration of stage a reads of other threads is complete. */
  ghost predicate Reads(k: Kernel, s: State, t: nat, a: Stage)
    requires Shape(k, s) && t < |k.im.rows|
  {
    && (a.Mapping? && a.n < SumOps(k.im) ==>
          a.n / LEVELS < |k.im.rows|
          && HistoRead(k, s, a.n) == Share(k.im.side, k.im.rows, a.n / LEVELS, a.n % LEVELS))
    && (a.Painting? ==> IsMap(k.im, MapRead(k, s, t)))
  }

  lemma ReadsComplete(k: Kernel, s: State, t: nat)
    requires Inv(k, s) && t < |k.im.rows| && s.bar.target[t].None?
    ensures Reads(k, s, t, StageIn(k, s, t))
  {
    var a := StageIn(k, s, t);
    if a.Mapping? && a.n < SumOps(k.im) {
      HistogramsComplete(k, s, t, a.n / LEVELS);
    } else if a.Painting? {
      if t == 1 { MappingComplete(k, s); } else { assert ThreadInv(k, s, t); }
    }
  }

  lemma ComputedGood(k: Kernel, s: State, t: nat, a: Stage, b: Stage)
    requires Doing(k, s, t, a, b) && a.Computing?
    ensures Good(k.im, t, b, Worked(k, s, t, a))
  {
    ComputeStepGood(k.im, t, a.n, s.data[t]);
  }

  lemma MappedGood(k: Kernel, s: State, t: nat, a: Stage, b: Stage)
    requires Doing(k, s, t, a, b) && Reads(k, s, t, a) && a.Mapping?
    ensures Good(k.im, t, b, Worked(k, s, t, a))
  {
    MapAdvances(k.im, t, a.n, HistoRead(k, s, a.n), s.data[t], b);
  }

  lemma PaintedGood(k: Kernel, s: State, t: nat, a: Stage, b: Stage)
    requires Doing(k, s, t, a, b) && Reads(k, s, t, a) && a.Painting?
    ensures Good(k.im, t, b, Worked(k, s, t, a))
  {
    PaintStepGood(k.im, t, a.n, MapRead(k, s, t), s.data[t]);
  }

  /** A loop iteration keeps the thread's data good: what it reads of the others is complete. */
  lemma WorkedGood(k: Kernel, s: State, t: nat, a: Stage, b: Stage)
    requires Doing(k, s, t, a, b) && Reads(k, s, t, a)
    ensures Good(k.im, t, b, Worked(k, s, t, a))
  {
    if a.Computing? {
      ComputedGood(k, s, t, a, b);
    } else if a.Painting? {
      PaintedGood(k, s, t, a, b);
    } else {
      MappedGood(k, s, t, a, b);
    }
  }

  lemma OthersKeep(k: Kernel, s: State, s': State, t: nat)
    requires Inv(k, s) && Work(k, s, s', t)
    requires Good(k.im, t, StageOf(k.im, t, s.bar.pos[t], s.done[t] + 1), s'.data[t])
    ensures Inv(k, s')
  {
    forall u: nat | u < |k.im.rows| ensures Sized(k.im, u, s'.data[u]) && ThreadInv(k, s', u) {
      assert ThreadInv(k, s, u);
    }
  }

  lemma WorkInv(k: Kernel, s: State, s': State, t: nat)
    requires Inv(k, s) && Work(k, s, s', t)
    ensures Inv(k, s')
  {
    StageContinues(k.im, t, s.bar.pos[t], s.done[t]);
    assert ThreadInv(k, s, t);
    ReadsComplete(k, s, t);
    WorkedGood(k, s, t, StageIn(k, s, t), StageOf(k.im, t, s.bar.pos[t], s.done[t] + 1));
    OthersKeep(k, s, s', t);
  }

  lemma ArriveInv(k: Kernel, s: State, s': State, t: nat)
    requires Inv(k, s) && Arrive(k, s, s', t)
    ensures Inv(k, s')
  {
    Barrier.ArriveInv(Config(k), s.bar, t);
    forall u: nat | u < |k.im.rows| ensures ThreadInv(k, s', u) { assert ThreadInv(k, s, u); }
  }

  /** Stage b can follow stage a at a barrier call. */
  predicate Follows(im: Image, t: nat, a: Stage, b: Stage)
    requires t < |im.rows|
  {
    match a
    case Start => b == Start || b == Computing(0)
    case Computing(n) => n == ComputeOps(im, t) && (b == Computed || b == Mapping(0))
    case Computed => b == if t == 1 then Painting(0) else Mapping(0)
    case Mapping(n) => n == MapOps(im) && b == Painting(0)
    case Painting(n) => n == Cells(im, t) && (b == a || b == Computing(0))
  }

  lemma LeadStagesFollow(im: Image, p: nat)
    requires 0 < |im.rows|
    ensures Follows(im, 0, StageOf(im, 0, p, Ops(im, 0, p)), StageOf(im, 0, p + 1, 0))
  {
    assert p % 5 < 4 ==> (p + 1) % 5 == p % 5 + 1;
    assert p % 5 == 4 ==> (p + 1) % 5 == 0;
  }

  lemma HelperStagesFollow(im: Image, p: nat)
    requires 1 < |im.rows|
    ensures Follows(im, 1, StageOf(im, 1, p, Ops(im, 1, p)), StageOf(im, 1, p + 1, 0))
  {
    assert (p + 1) % 3 == if p % 3 == 2 then 0 else p % 3 + 1;
  }

  lemma SingleStagesFollow(im: Image, t: nat, p: nat)
    requires 2 <= t < |im.rows|
    ensures Follows(im, t, StageOf(im, t, p, Ops(im, t, p)), StageOf(im, t, p + 1, 0))
  {
    assert (p + 1) % 2 == 1 - p % 2;
  }

  lemma StagesFollow(im: Image, t: nat, p: nat)
    requires t < |im.rows|
    ensures Follows(im, t, StageOf(im, t, p, Ops(im, t, p)), StageOf(im, t, p + 1, 0))
  {
    if t == 0 {
      LeadStagesFollow(im, p);
    } else if t == 1 {
      HelperStagesFollow(im, p);
    } else {
      SingleStagesFollow(im, t, p);
    }
  }

  /** A thread begins its next stage with what the last one left. */
  lemma FollowsGood(im: Image, t: nat, a: Stage, b: Stage, x: Local)
    requires WellDivided(im) && t < |im.rows| && Good(im, t, a, x) && Follows(im, t, a, b)
    ensures Good(im, t, b, x)
  {
    match a
    case Computing(n) => ComputeEnds(im, t, x); SummingStarts(im, t, x);
    case Computed => if t != 1 { SummingStarts(im, t, x); }
    case Mapping(n) => MapEnds(im, t, x);
    case _ =>
  }

  lemma SummingStarts(im: Image, t: nat, x: Local)
    requires WellDivided(im) && t < |im.rows| && Good(im, t, Computed, x)
    ensures Good(im, t, Mapping(0), x)
  {
  }

  lemma LeaverGood(k: Kernel, s: State, t: nat)
    requires Inv(k, s) && t < |k.im.rows| && s.bar.target[t].Some?
    ensures Good(k.im, t, StageOf(k.im, t, s.bar.pos[t] + 1, 0), s.data[t])
  {
    var p := s.bar.pos[t];
    assert ThreadInv(k, s, t);
    StagesFollow(k.im, t, p);
    FollowsGood(k.im, t, StageOf(k.im, t, p, Ops(k.im, t, p)), StageOf(k.im, t, p + 1, 0), s.data[t]);
  }

  lemma OthersStay(k: Kernel, s: State, s': State, t: nat)
    requires Inv(k, s) && Leave(k, s, s', t) && Barrier.Inv(Config(k), s'.bar)
    requires Good(k.im, t, StageOf(k.im, t, s.bar.pos[t] + 1, 0), s.data[t])
    ensures Inv(k, s')
  {
    forall u: nat | u < |k.im.rows| ensures ThreadInv(k, s', u) { assert ThreadInv(k, s, u); }
  }

  lemma LeaveInv(k: Kernel, s: State, s': State, t: nat)
    requires Inv(k, s) && Leave(k, s, s', t)
    ensures Inv(k, s')
  {
    Barrier.LeaveInv(Config(k), s.bar, t);
    LeaverGood(k, s, t);
    OthersStay(k, s, s', t);
  }

  lemma StepInv(k: Kernel, s: State, s': State, t: nat)
    requires Inv(k, s) && StepOf(k, s, s', t)
    ensures Inv(k, s')
  {
    if Work(k, s, s', t) {
      WorkInv(k, s, s', t);
    } else if Arrive(k, s, s', t) {
      ArriveInv(k, s, s', t);
    } else {
      LeaveInv(k, s, s', t);
    }
  }

  lemma InitInv(k: Kernel, s: State)
    requires Init(k, s)
    ensures Inv(k, s)
  {
    Barrier.InitInv(Config(k));
    forall t: nat | t < |k.im.rows| ensures ThreadInv(k, s, t) { assert s.bar.pos[t] == 0; }
  }

  lemma {:induction false} RunInv(k: Kernel, run: seq<State>, i: nat)
    requires Run(k, run) && i < |run|
    ensures Inv(k, run[i])
  {
    if i == 0 {
      InitInv(k, run[0]);
    } else {
      RunInv(k, run, i - 1);
      assert Next(k, run[i - 1], run[i - 1 + 1]);
      var t: nat :| StepOf(k, run[i - 1], run[i], t);
      StepInv(k, run[i - 1], run[i], t);
    }
  }

  /** In every state of every run, in which processor t is adding up histograms: every thread's histogram, the
      second M3 task's included, is that of its rows, and together they are the whole image's. */
  lemma MapsWholeImage(k: Kernel, run: seq<State>, i: nat, t: nat, v: nat)
    requires Run(k, run) && i < |run| && t < |k.im.rows| && v < LEVELS
    requires StageIn(k, run[i], t).Mapping? && run[i].bar.target[t].None?
    ensures forall u: nat | u < |k.im.rows| :: HistoDone(k.im, u, run[i].data[u])
    ensures Sum(seq(|k.im.rows|, u requires 0 <= u < |k.im.rows| => Share(k.im.side, k.im.rows, u, v)))
         == Whole(k.im.side, v)
  {
    RunInv(k, run, i);
    forall u: nat | u < |k.im.rows| ensures HistoDone(k.im, u, run[i].data[u]) {
      HistogramsComplete(k, run[i], t, u);
    }
    SharesMakeWhole(k.im.side, k.im.rows, v);
    assert seq(|k.im.rows|, u requires 0 <= u < |k.im.rows| => Share(k.im.side, k.im.rows, u, v))
        == Shares(k.im.side, k.im.rows, v);
  }

  /** In every state of every run, in which thread t maps pixels, its processor has the image's equalizing
      mapping, the same for all, and the pixels mapped so far have the levels it gives. */
  lemma PaintsWithMap(k: Kernel, run: seq<State>, i: nat, t: nat)
    requires Run(k, run) && i < |run| && t < |k.im.rows|
    requires StageIn(k, run[i], t).Painting? && run[i].bar.target[t].None?
    ensures MappedTo(k.im, LEVELS, run[i].data[if t == 1 then 0 else t])
    ensures Painted(k.im, t, StageIn(k, run[i], t).n, run[i].data[t])
  {
    RunInv(k, run, i);
    assert ThreadInv(k, run[i], t);
    if t == 1 { MappingComplete(k, run[i]); }
  }

  ghost predicate Finished(k: Kernel, s: State)
    requires Shape(k, s)
  {
    forall t: nat | t < |k.im.rows| ::
      s.bar.pos[t] == |Program(k.iterations, t)| && s.done[t] == Ops(k.im, t, s.bar.pos[t])
  }

  lemma LastStage(im: Image, iterations: nat, t: nat)
    requires t < |im.rows| && iterations > 0
    ensures var p := |Program(iterations, t)|; StageOf(im, t, p, Ops(im, t, p)) == Painting(Cells(im, t))
  {
    if t == 0 {
      assert 5 * iterations % 5 == 0;
    } else if t == 1 {
      assert 3 * iterations % 3 == 0;
    } else {
      assert 2 * iterations % 2 == 0;
    }
  }

  lemma MappedImage(k: Kernel, run: seq<State>, t: nat, c: nat)
    requires Run(k, run) && k.iterations > 0 && Finished(k, run[|run| - 1])
    requires t < |k.im.rows| && c < Cells(k.im, t)
    ensures |run[|run| - 1].data[t].tile| == Cells(k.im, t)
    ensures run[|run| - 1].data[t].tile[c] == MapTo(k.im.side, Gray(k.im.side, First(k.im, t) + c))
  {
    RunInv(k, run, |run| - 1);
    assert ThreadInv(k, run[|run| - 1], t);
    LastStage(k.im, k.iterations, t);
  }

  /** Of 255, the share that the pixels of level v or less have in the n by n image, whose pixel p has at first
      the level (p / n) * (p % n) % 255. */
  function Equalized(n: nat, v: nat): int
    requires n > 0
  {
    255 * |set p: nat | p < n * n && (p / n) * (p % n) % 255 <= v| / (n * n)
  }

  lemma SomeSide(k: Kernel, run: seq<State>)
    requires Run(k, run)
    ensures WellFormed(k) && k.im.side > 0
  {
    assert Shape(k, run[0]);
  }

  lemma OwnPixels(k: Kernel, t: nat)
    requires WellFormed(k) && t < |k.im.rows|
    ensures First(k.im, t) == k.im.rows[t].0 * k.im.side
    ensures Cells(k.im, t) == k.im.rows[t].1 * k.im.side - k.im.rows[t].0 * k.im.side
  {
    AtIsProduct(k.im.side, k.im.rows[t].0, 0);
    AtIsProduct(k.im.side, k.im.rows[t].1, 0);
    RowMonotone(k.im.side, k.im.rows[t].0, k.im.rows[t].1);
  }

  /** Every finished run leaves the equalized image: pixel x of thread t's rows, first of level
      (x / n) * (x % n) % 255 where n is the side, has that level's share. */
  lemma EqualizedImage(k: Kernel, run: seq<State>, t: nat, x: nat)
    requires Run(k, run) && k.iterations > 0 && Finished(k, run[|run| - 1])
    requires t < |k.im.rows| && k.im.rows[t].0 * k.im.side <= x < k.im.rows[t].1 * k.im.side
    ensures k.im.side > 0 && x - k.im.rows[t].0 * k.im.side < |run[|run| - 1].data[t].tile|
    ensures run[|run| - 1].data[t].tile[x - k.im.rows[t].0 * k.im.side]
         == Equalized(k.im.side, (x / k.im.side) * (x % k.im.side) % 255)
  {
    hide Run, Finished, Gray, MapTo, Cells, First, WellFormed;
    SomeSide(k, run);
    OwnPixels(k, t);
    MappedImage(k, run, t, x - First(k.im, t));
    GrayIsProduct(k.im.side, x);
    MapIsShare(k.im.side, Gray(k.im.side, x));
  }
}
