/** The task sampler: the initial scene (and, for the hardest type, the elapsed time) of one
    task. The random integers it draws are parameters here; each draw is required to lie in the
    range the sampler asks the random source for. */
module Sampler {
  import opened Wrappers
  import opened Scenes
  import Simulator

  /** An inclusive range `lo..hi` of countdown values, as configured. */
  datatype CountRange = CountRange(lo: nat, hi: nat)

  /** The configured ranges of the two single-countdown task types. */
  datatype SamplerConfig = SamplerConfig(type1: CountRange, type2: CountRange)

  /** The shipped defaults: 2..10 for type 1, 8..20 for type 2. */
  const DefaultConfig := SamplerConfig(CountRange(2, 10), CountRange(8, 20))

  /** The integers drawn for one task, in drawing order; a type uses only the first one, two
      or three of them. */
  datatype Draws = Draws(countdownA: nat, countdownB: nat, elapsed: nat)

  /** One sampled task: its initial scene, the elapsed time it asks about (type 4 only) and its
      type. */
  datatype TaskData = TaskData(scene: Scene, elapsed: Option<nat>, taskType: nat)

  predicate InRange(x: nat, r: CountRange) {
    r.lo <= x <= r.hi
  }

  /** The type a requested type is served as: 1 to 4 as they are, anything else as type 1. */
  function ServedType(taskType: int): (t: nat)
    ensures 1 <= t <= 4
    ensures 1 <= taskType <= 4 ==> t == taskType
    ensures !(1 <= taskType <= 4) ==> t == 1
  {
    if 1 <= taskType <= 4 then taskType else 1
  }

  /** The draws lie in the ranges the sampler requests for the served type. */
  predicate DrawsFit(cfg: SamplerConfig, taskType: int, d: Draws) {
    match ServedType(taskType)
    case 2 => InRange(d.countdownA, cfg.type2)
    case 3 => 8 <= d.countdownA <= 15 && 3 <= d.countdownB <= Min(7, d.countdownA - 1)
    case 4 =>
      && 5 <= d.countdownA <= 10 && 3 <= d.countdownB <= 7
      && Max(d.countdownA, d.countdownB) + 2 <= d.elapsed <= Max(d.countdownA, d.countdownB) + 8
    case _ => InRange(d.countdownA, cfg.type1)
  }

  /** The sampler. Every task starts with A red and B green. Types 1 and 2 run only A's
      countdown, type 3 runs both with B's the shorter, type 4 runs both and asks about a time
      past both of them; an unknown type is served as type 1. */
  function GenerateTaskData(taskType: int, cfg: SamplerConfig, d: Draws): (r: TaskData)
    requires DrawsFit(cfg, taskType, d)
    ensures r.scene.aState == Red && r.scene.bState == Green && OneRed(r.scene)
    ensures r.taskType == ServedType(taskType)
    ensures r.scene.aCount == d.countdownA
    ensures r.taskType >= 3 ==> r.scene.bCount == d.countdownB
    ensures r.elapsed.Some? ==> r.elapsed.value == d.elapsed
    ensures r.elapsed.Some? <==> r.taskType == 4
    ensures r.taskType == 1 ==> r.scene.bCount == 0 && InRange(r.scene.aCount, cfg.type1)
    ensures r.taskType == 2 ==> r.scene.bCount == 0 && InRange(r.scene.aCount, cfg.type2)
    ensures r.taskType == 3 ==>
      3 <= r.scene.bCount <= 7 && r.scene.bCount < r.scene.aCount && 8 <= r.scene.aCount <= 15
    ensures r.taskType == 4 ==>
      && 5 <= r.scene.aCount <= 10 && 3 <= r.scene.bCount <= 7
      && r.elapsed.value >= r.scene.aCount + 2 && r.elapsed.value >= r.scene.bCount + 2
      && r.elapsed.value <= Max(r.scene.aCount, r.scene.bCount) + 8
    decreases if 1 <= taskType <= 4 then 0 else 1
  {
    if taskType == 1 then
      TaskData(Scene(Red, d.countdownA, Green, 0), None, 1)
    else if taskType == 2 then
      TaskData(Scene(Red, d.countdownA, Green, 0), None, 2)
    else if taskType == 3 then
      TaskData(Scene(Red, d.countdownA, Green, d.countdownB), None, 3)
    else if taskType == 4 then
      TaskData(Scene(Red, d.countdownA, Green, d.countdownB), Some(d.elapsed), 4)
    else
      GenerateTaskData(1, cfg, d)
  }

  /** Every sampled task with a running countdown ends switched (A green, B red), and the check
      that fires is the one of the light that expires first, red A winning a tie: types 1 and 2
      only run A, type 3's B is always shorter, type 4 depends on the two draws. */
  lemma {:induction false} SampledTaskSwitches(taskType: int, cfg: SamplerConfig, d: Draws)
    requires DrawsFit(cfg, taskType, d)
    ensures var r := GenerateTaskData(taskType, cfg, d);
      var h := Simulator.Horizon(r.scene, r.elapsed);
      && (r.scene.aCount > 0 ==> Simulator.Advance(r.scene, h) == Switched)
      && (r.scene.aCount == 0 ==> Idle(r.scene) && Simulator.Advance(r.scene, h) == r.scene)
      && (r.taskType <= 2 && r.scene.aCount > 0 ==> Simulator.Fired(r.scene, h) == Simulator.RedAExpired)
      && (r.taskType == 3 ==> Simulator.Fired(r.scene, h) == Simulator.GreenBExpired)
      && (r.taskType == 4 ==> Simulator.Fired(r.scene, h)
                              == if r.scene.aCount <= r.scene.bCount then Simulator.RedAExpired
                                 else Simulator.GreenBExpired)
  {
    var r := GenerateTaskData(taskType, cfg, d);
    var s := r.scene;
    var h := Simulator.Horizon(s, r.elapsed);
    if s.aCount == 0 {
      Simulator.NothingToSimulate(s, h);
    } else if r.taskType <= 2 {
      Simulator.RedAFirstOrTied(s, h);
    } else if r.taskType == 3 || s.bCount < s.aCount {
      Simulator.GreenBFirst(s, h);
    } else {
      Simulator.RedAFirstOrTied(s, h);
    }
  }

  /** Under the shipped defaults every task has a running countdown of at most 20 units. */
  lemma DefaultTasksCount(taskType: int, d: Draws)
    requires DrawsFit(DefaultConfig, taskType, d)
    ensures var r := GenerateTaskData(taskType, DefaultConfig, d);
      && 2 <= r.scene.aCount <= 20 && r.scene.bCount <= 7
      && 2 <= Simulator.AutoHorizon(r.scene) <= 20
  {
  }
}
