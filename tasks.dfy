/** One task pair: the sampled initial scene, its simulated final scene, the two stills and the
    ground-truth frame list, with the sequencer's default holds of 5 frames and 2 frames per
    countdown unit. */
module Tasks {
  import opened Scenes
  import Simulator
  import Renderer
  import Sequencer
  import Sampler

  const HoldFrames: nat := 5
  const FramesPerCountdown: nat := 2

  /** A generated task pair, without its prompt text. */
  datatype TaskPair = TaskPair(task: Sampler.TaskData, finalScene: Scene,
                               firstImage: Renderer.Frame, finalImage: Renderer.Frame,
                               video: seq<Renderer.Frame>)

  /** Samples a task of the requested type, renders its initial still, simulates its final
      scene, renders that, and builds the frame list. A task with a running countdown ends
      switched, and its video shows the initial still, two frames for each unit up to the first
      zero (at most 30 units), and the switched still. */
  method GenerateTaskPair(taskType: int, cfg: Sampler.SamplerConfig, d: Sampler.Draws, rcfg: Renderer.RenderConfig)
    returns (p: TaskPair)
    requires Sampler.DrawsFit(cfg, taskType, d)
    ensures p.task == Sampler.GenerateTaskData(taskType, cfg, d)
    ensures p.firstImage == Renderer.Render(rcfg, p.task.scene)
    ensures p.finalImage == Renderer.Render(rcfg, p.finalScene)
    ensures !Idle(p.task.scene) ==>
      && p.finalScene == Switched
      && p.video == Sequencer.Repeat(p.firstImage, HoldFrames)
                    + Sequencer.Groups((s: Scene) => Renderer.Render(rcfg, s), p.task.scene, 0,
                                       Sequencer.ShownUnits(p.task.scene), FramesPerCountdown)
                    + Sequencer.Repeat(p.finalImage, HoldFrames)
      && |p.video| == 2 * HoldFrames + FramesPerCountdown * Sequencer.ShownUnits(p.task.scene)
    ensures Idle(p.task.scene) ==>
      p.finalScene == p.task.scene && p.video == Sequencer.Repeat(p.firstImage, 2 * HoldFrames)
  {
    var task := Sampler.GenerateTaskData(taskType, cfg, d);
    var render := (s: Scene) => Renderer.Render(rcfg, s);
    var firstImage := render(task.scene);
    var finalScene, fired := Simulator.CalculateFinalState(task.scene, task.elapsed);
    var finalImage := render(finalScene);
    var video := Sequencer.CreateCountdownAnimationFrames(render, task.scene, finalScene,
                                                          HoldFrames, FramesPerCountdown);
    p := TaskPair(task, finalScene, firstImage, finalImage, video);
    Sampler.SampledTaskSwitches(taskType, cfg, d);
    if Idle(task.scene) {
      assert video == Sequencer.Repeat(firstImage, HoldFrames) + Sequencer.Repeat(firstImage, HoldFrames);
    } else {
      Sequencer.AnimationOfSwitch(render, task.scene, HoldFrames, FramesPerCountdown);
    }
  }

  /** With configured countdowns of at most 30 units the cap never bites: the video shows
      every unit up to the first zero. Under the shipped defaults that is 2 to 20 units, so the
      video has 14 to 50 frames. */
  lemma CapNeverBites(taskType: int, cfg: Sampler.SamplerConfig, d: Sampler.Draws)
    requires Sampler.DrawsFit(cfg, taskType, d)
    requires cfg.type1.hi <= Sequencer.SafetyCap && cfg.type2.hi <= Sequencer.SafetyCap
    ensures var s := Sampler.GenerateTaskData(taskType, cfg, d).scene;
      Sequencer.ShownUnits(s) == Simulator.AutoHorizon(s)
    ensures cfg == Sampler.DefaultConfig ==>
      var s := Sampler.GenerateTaskData(taskType, cfg, d).scene;
      14 <= 2 * HoldFrames + FramesPerCountdown * Sequencer.ShownUnits(s) <= 50
  {
    var s := Sampler.GenerateTaskData(taskType, cfg, d).scene;
    assert Simulator.AutoHorizon(s) <= s.aCount <= Sequencer.SafetyCap;
    if cfg == Sampler.DefaultConfig {
      Sampler.DefaultTasksCount(taskType, d);
    }
  }
}
