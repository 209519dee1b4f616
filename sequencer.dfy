/** The animation sequencer: the frame list of the ground-truth video. It holds the initial
    still, replays the countdowns one time unit at a time, and holds the final still. */
module Sequencer {
  import opened Sequences
  import opened Scenes
  import Simulator

  /** The walk stops once the unit counter has passed this many units. */
  const SafetyCap: nat := 30

  function Repeat<F>(f: F, n: nat): (r: seq<F>)
    ensures |r| == n
    ensures forall i :: 0 <= i < n ==> r[i] == f
  {
    seq(n, _ => f)
  }

  /** The last unit the walk may render: the larger initial countdown plus one. */
  function TotalTime(init: Scene): nat {
    Max(init.aCount, init.bCount) + 1
  }

  /** The walk's state on entry to a unit: the lagging countdowns used for edge detection and
      the running scene. */
  datatype Walk = Walk(prevA: nat, prevB: nat, cur: Scene)

  /** One unit `t` of the walk. Countdowns are recomputed from the initial ones; a light "just
      reached zero" when its lagging countdown was positive and its new one is zero; then the
      switch rules apply, red A first. The lagging countdowns take the running scene's values
      before the running scene is updated. */
  function WalkStep(init: Scene, w: Walk, t: nat): Walk {
    var newA := Sub(init.aCount, t);
    var newB := Sub(init.bCount, t);
    var aJustZero := w.prevA > 0 && newA == 0;
    var bJustZero := w.prevB > 0 && newB == 0;
    var c := w.cur;
    var next :=
      if aJustZero && bJustZero then
        (if c.aState == Red then Scene(Green, newA, Red, 0)
         else if c.bState == Green then Scene(Green, 0, Red, newB)
         else Scene(c.aState, newA, c.bState, newB))
      else if aJustZero && c.aState == Red then Scene(Green, newA, Red, 0)
      else if bJustZero && c.bState == Green then Scene(Green, 0, Red, newB)
      else Scene(c.aState, newA, c.bState, newB);
    Walk(c.aCount, c.bCount, next)
  }

  /** The frames the walk appends from unit `t` on: `fpc` copies of each running scene, up to
      and including the unit that reaches `final`, the last unit (the larger initial countdown
      plus one), or the unit after which the counter exceeds the safety cap. */
  function WalkFrames<F>(render: Scene -> F, init: Scene, final: Scene, fpc: nat, w: Walk, t: nat): seq<F>
    decreases TotalTime(init) + 1 - t
  {
    if t > TotalTime(init) then []
    else
      var w' := WalkStep(init, w, t);
      var group := Repeat(render(w'.cur), fpc);
      if w'.cur == final || t + 1 > SafetyCap then group
      else group + WalkFrames(render, init, final, fpc, w', t + 1)
  }

  /** The number of units the walk renders from unit `t` on. */
  function WalkUnits(init: Scene, final: Scene, w: Walk, t: nat): nat
    decreases TotalTime(init) + 1 - t
  {
    if t > TotalTime(init) then 0
    else
      var w' := WalkStep(init, w, t);
      if w'.cur == final || t + 1 > SafetyCap then 1
      else 1 + WalkUnits(init, final, w', t + 1)
  }

  /** `frames[:-n]`: all but the last `n` frames; nothing at all when `n` is zero. */
  function DropLast<F>(frames: seq<F>, n: nat): seq<F> {
    if n == 0 || n > |frames| then [] else frames[..|frames| - n]
  }

  /** The walk state before unit 0. */
  function StartWalk(init: Scene): Walk {
    Walk(init.aCount, init.bCount, init)
  }

  /** The whole frame list: with no running countdown, the two held stills; otherwise the held
      initial still and the walk, less its last group when that leaves more than the hold and
      one group, then the held final still. */
  function AnimationFrames<F>(render: Scene -> F, init: Scene, final: Scene, hold: nat, fpc: nat): seq<F> {
    var first := render(init);
    var last := render(final);
    if Idle(init) then Repeat(first, hold) + Repeat(last, hold)
    else
      var walked := Repeat(first, hold) + WalkFrames(render, init, final, fpc, StartWalk(init), 0);
      var trimmed := if |walked| > hold + fpc then DropLast(walked, fpc) else walked;
      trimmed + Repeat(last, hold)
  }

  /** One unit of the walk: its group, then the rest unless the walk stops there. */
  lemma WalkFramesUnfold<F>(render: Scene -> F, init: Scene, final: Scene, fpc: nat, w: Walk, t: nat)
    requires t <= TotalTime(init)
    ensures var w' := WalkStep(init, w, t);
      if w'.cur == final || t + 1 > SafetyCap
      then WalkFrames(render, init, final, fpc, w, t) == Repeat(render(w'.cur), fpc)
      else WalkFrames(render, init, final, fpc, w, t)
           == Repeat(render(w'.cur), fpc) + WalkFrames(render, init, final, fpc, w', t + 1)
  {
  }

  lemma AnimationOfWalk<F>(render: Scene -> F, init: Scene, final: Scene, hold: nat, fpc: nat, walked: seq<F>)
    requires !Idle(init)
    requires walked == Repeat(render(init), hold) + WalkFrames(render, init, final, fpc, StartWalk(init), 0)
    ensures AnimationFrames(render, init, final, hold, fpc)
            == (if |walked| > hold + fpc then DropLast(walked, fpc) else walked) + Repeat(render(final), hold)
  {
  }

  /** Appends `n` copies of `f`. */
  method AppendCopies<F>(frames: seq<F>, f: F, n: nat) returns (r: seq<F>)
    ensures r == frames + Repeat(f, n)
  {
    r := frames;
    for i := 0 to n
      invariant r == frames + Repeat(f, i)
    {
      r := r + [f];
    }
  }

  /** One unit of the walk: the countdowns are recomputed from the initial ones, a light that
      just reached zero triggers its switch rule, and the lagging countdowns move up. */
  method StepUnit(init: Scene, prevA: nat, prevB: nat, cur: Scene, timeElapsed: nat)
    returns (newPrevA: nat, newPrevB: nat, next: Scene)
    ensures Walk(newPrevA, newPrevB, next) == WalkStep(init, Walk(prevA, prevB, cur), timeElapsed)
  {
    var newA: nat := if init.aCount > 0 then Max(0, init.aCount - timeElapsed) else 0;
    var newB: nat := if init.bCount > 0 then Max(0, init.bCount - timeElapsed) else 0;
    var aJustZero := prevA > 0 && newA == 0;
    var bJustZero := prevB > 0 && newB == 0;
    var newAState, newBState := cur.aState, cur.bState;
    if aJustZero && bJustZero {
      if cur.aState == Red {
        newAState := Green;
        newBState := Red;
        newB := 0;
      } else if cur.bState == Green {
        newBState := Red;
        newAState := Green;
        newA := 0;
      }
    } else if aJustZero && cur.aState == Red {
      newAState := Green;
      newBState := Red;
      newB := 0;
    } else if bJustZero && cur.bState == Green {
      newBState := Red;
      newAState := Green;
      newA := 0;
    }
    newPrevA, newPrevB := cur.aCount, cur.bCount;
    next := Scene(newAState, newA, newBState, newB);
  }

  /** The sequencer. */
  method CreateCountdownAnimationFrames<F>(render: Scene -> F, init: Scene, final: Scene, hold: nat, fpc: nat)
    returns (frames: seq<F>)
    ensures frames == AnimationFrames(render, init, final, hold, fpc)
  {
    frames := [];
    var maxCountdown := Max(init.aCount, init.bCount);
    var firstFrame := render(init);
    var finalFrame := render(final);
    if maxCountdown == 0 {
      frames := AppendCopies(frames, firstFrame, hold);
      frames := AppendCopies(frames, finalFrame, hold);
      return;
    }
    var cur := init;
    frames := AppendCopies(frames, firstFrame, hold);
    var timeElapsed: nat := 0;
    var prevA: nat, prevB: nat := cur.aCount, cur.bCount;
    var totalTime := maxCountdown + 1;
    assert frames == Repeat(firstFrame, hold);
    ghost var walked := Repeat(firstFrame, hold) + WalkFrames(render, init, final, fpc, StartWalk(init), 0);
    AnimationOfWalk(render, init, final, hold, fpc, walked);
    while timeElapsed <= totalTime
      invariant totalTime == TotalTime(init)
      invariant frames + WalkFrames(render, init, final, fpc, Walk(prevA, prevB, cur), timeElapsed) == walked
      decreases totalTime + 1 - timeElapsed
    {
      ghost var before := Walk(prevA, prevB, cur);
      prevA, prevB, cur := StepUnit(init, prevA, prevB, cur, timeElapsed);
      var frame := render(cur);
      WalkFramesUnfold(render, init, final, fpc, before, timeElapsed);
      ghost var oldFrames := frames;
      frames := AppendCopies(frames, frame, fpc);
      timeElapsed := timeElapsed + 1;
      if cur == final {
        break;
      }
      if timeElapsed > SafetyCap {
        break;
      }
      ConcatAssoc(oldFrames, Repeat(frame, fpc), WalkFrames(render, init, final, fpc, Walk(prevA, prevB, cur), timeElapsed));
    }
    assert frames == walked;
    if |frames| > hold + fpc {
      frames := DropLast(frames, fpc);
    }
    frames := AppendCopies(frames, finalFrame, hold);
  }

  // ---- What the walk renders for a generated task ----

  /** `fpc` copies of the countdown scene of each unit `lo`, ..., `hi - 1`. */
  function Groups<F>(render: Scene -> F, init: Scene, lo: nat, hi: nat, fpc: nat): seq<F>
    decreases hi - lo
  {
    if lo >= hi then [] else Repeat(render(Countdown(init, lo)), fpc) + Groups(render, init, lo + 1, hi, fpc)
  }

  lemma {:induction false} GroupsLength<F>(render: Scene -> F, init: Scene, lo: nat, hi: nat, fpc: nat)
    requires lo <= hi
    ensures |Groups(render, init, lo, hi, fpc)| == fpc * (hi - lo)
    decreases hi - lo
  {
    if lo < hi {
      GroupsLength(render, init, lo + 1, hi, fpc);
    }
  }

  /** The walk state on entry to unit `t` while no light has switched yet: the running scene
      is the countdown one unit back, the lagging countdowns two units back. */
  function EntryWalk(init: Scene, t: nat): Walk {
    var lag := Countdown(init, Sub(t, 2));
    Walk(lag.aCount, lag.bCount, Countdown(init, Sub(t, 1)))
  }

  /** The number of units rendered before the final still: every unit up to the first zero,
      at most the safety cap. */
  function ShownUnits(init: Scene): nat {
    Min(Simulator.AutoHorizon(init), SafetyCap)
  }

  /** The scene of the group the trim removes: the switched scene, or the countdown at the cap. */
  function LastWalked(init: Scene): Scene {
    if Simulator.AutoHorizon(init) <= SafetyCap then Switched else Countdown(init, SafetyCap)
  }

  /** Before the first zero nothing "just reaches zero": the walk only counts down. */
  lemma StepBeforeFirstZero(init: Scene, t: nat)
    requires init.aState == Red && init.bState == Green
    requires t < Simulator.AutoHorizon(init)
    ensures WalkStep(init, EntryWalk(init, t), t) == EntryWalk(init, t + 1)
    ensures EntryWalk(init, t + 1).cur == Countdown(init, t) != Switched
  {
  }

  /** At the first zero the expiring light's rule fires and the walk reaches the switched scene. */
  lemma StepAtFirstZero(init: Scene, t: nat)
    requires init.aState == Red && init.bState == Green && !Idle(init)
    requires t == Simulator.AutoHorizon(init)
    ensures WalkStep(init, EntryWalk(init, t), t).cur == Switched
  {
  }

  lemma {:induction false} WalkFromEntry<F>(render: Scene -> F, init: Scene, fpc: nat, t: nat)
    requires init.aState == Red && init.bState == Green && !Idle(init)
    requires t <= ShownUnits(init)
    ensures WalkFrames(render, init, Switched, fpc, EntryWalk(init, t), t)
            == Groups(render, init, t, ShownUnits(init), fpc) + Repeat(render(LastWalked(init)), fpc)
    decreases ShownUnits(init) - t
  {
    var m := Simulator.AutoHorizon(init);
    assert t <= TotalTime(init);
    WalkFramesUnfold(render, init, Switched, fpc, EntryWalk(init, t), t);
    if t < m {
      StepBeforeFirstZero(init, t);
    } else {
      StepAtFirstZero(init, t);
    }
    if t < ShownUnits(init) {
      StepBeforeFirstZero(init, t);
      WalkFromEntry(render, init, fpc, t + 1);
      ConcatAssoc(Repeat(render(Countdown(init, t)), fpc), Groups(render, init, t + 1, ShownUnits(init), fpc),
                  Repeat(render(LastWalked(init)), fpc));
    }
  }

  /** The frame list of a generated task (A red, B green, some countdown running, the final
      still being the switched scene): the held initial still, `fpc` frames per unit up to the
      first zero or the safety cap, and the held final still. The group showing the switch
      itself is trimmed. */
  lemma AnimationOfSwitch<F>(render: Scene -> F, init: Scene, hold: nat, fpc: nat)
    requires init.aState == Red && init.bState == Green && !Idle(init)
    ensures AnimationFrames(render, init, Switched, hold, fpc)
            == Repeat(render(init), hold) + Groups(render, init, 0, ShownUnits(init), fpc) + Repeat(render(Switched), hold)
    ensures |AnimationFrames(render, init, Switched, hold, fpc)| == 2 * hold + fpc * ShownUnits(init)
  {
    var k := ShownUnits(init);
    var first := Repeat(render(init), hold);
    var groups := Groups(render, init, 0, k, fpc);
    var last := Repeat(render(LastWalked(init)), fpc);
    assert EntryWalk(init, 0) == StartWalk(init);
    WalkFromEntry(render, init, fpc, 0);
    GroupsLength(render, init, 0, k, fpc);
    var walked := first + WalkFrames(render, init, Switched, fpc, StartWalk(init), 0);
    ConcatAssoc(first, groups, last);
    assert walked == (first + groups) + last;
    if fpc > 0 {
      assert |walked| > hold + fpc;
      assert DropLast(walked, fpc) == first + groups;
    } else {
      assert last == [];
    }
  }

  // ---- The shape of any frame list ----

  /** Every rendered unit contributes `fpc` frames, and the walk renders at least one unit and
      never more than the safety cap allows. */
  lemma {:induction false} WalkLength<F>(render: Scene -> F, init: Scene, final: Scene, fpc: nat, w: Walk, t: nat)
    ensures |WalkFrames(render, init, final, fpc, w, t)| == fpc * WalkUnits(init, final, w, t)
    ensures t <= TotalTime(init) ==> 1 <= WalkUnits(init, final, w, t) <= TotalTime(init) + 1 - t
    ensures t <= SafetyCap ==> WalkUnits(init, final, w, t) <= SafetyCap + 1 - t
    decreases TotalTime(init) + 1 - t
  {
    if t <= TotalTime(init) {
      var w' := WalkStep(init, w, t);
      if !(w'.cur == final || t + 1 > SafetyCap) {
        WalkLength(render, init, final, fpc, w', t + 1);
        var rest := WalkUnits(init, final, w', t + 1);
        assert fpc * (1 + rest) == fpc + fpc * rest;
      }
    }
  }

  lemma MulMonotone(a: nat, x: nat, y: nat)
    requires x <= y
    ensures a * x <= a * y
  {
  }

  /** The walked frames less the trimmed last group: a group is only dropped when more than one
      unit was rendered, so the Python slice `frames[:-fpc]` never sees a zero `fpc`. */
  lemma TrimmedLength<F>(walked: seq<F>, hold: nat, fpc: nat, units: nat)
    requires units >= 1 && |walked| == hold + fpc * units
    ensures var trimmed := if |walked| > hold + fpc then DropLast(walked, fpc) else walked;
      && |trimmed| == hold + fpc * (if units > 1 then units - 1 else 1)
      && trimmed[..hold] == walked[..hold]
  {
    if |walked| > hold + fpc {
      assert fpc * units > fpc * 1;
      assert fpc > 0 && units > 1;
      assert fpc * units == fpc * (units - 1) + fpc;
    } else if units > 1 {
      assert fpc * units == fpc * (units - 1) + fpc;
      MulMonotone(fpc, 1, units - 1);
      assert fpc == 0;
    }
  }

  /** The frame list opens with `hold` initial stills and closes with `hold` final stills. */
  lemma AnimationHolds<F>(render: Scene -> F, init: Scene, final: Scene, hold: nat, fpc: nat)
    ensures var r := AnimationFrames(render, init, final, hold, fpc);
      && |r| >= 2 * hold
      && (forall i :: 0 <= i < hold ==> r[i] == render(init))
      && (forall i :: |r| - hold <= i < |r| ==> r[i] == render(final))
  {
    var r := AnimationFrames(render, init, final, hold, fpc);
    var first := Repeat(render(init), hold);
    var last := Repeat(render(final), hold);
    if !Idle(init) {
      var walked := first + WalkFrames(render, init, final, fpc, StartWalk(init), 0);
      var trimmed := if |walked| > hold + fpc then DropLast(walked, fpc) else walked;
      assert walked[..hold] == first;
      if fpc == 0 {
        WalkLength(render, init, final, fpc, StartWalk(init), 0);
        assert |walked| == hold && trimmed == walked;
      } else if |walked| > hold + fpc {
        assert trimmed == walked[..|walked| - fpc];
      }
      assert |trimmed| >= hold && trimmed[..hold] == first;
      assert r == trimmed + last;
      forall i | 0 <= i < hold
        ensures r[i] == render(init)
      {
        assert r[i] == trimmed[..hold][i];
      }
    }
  }

  /** Each rendered unit but the trimmed last one gives `fpc` frames, so the video never
      exceeds the two holds and `SafetyCap` groups. */
  lemma AnimationLength<F>(render: Scene -> F, init: Scene, final: Scene, hold: nat, fpc: nat)
    ensures |AnimationFrames(render, init, final, hold, fpc)| <= 2 * hold + fpc * SafetyCap
    ensures Idle(init) ==> |AnimationFrames(render, init, final, hold, fpc)| == 2 * hold
    ensures !Idle(init) ==>
      var units := WalkUnits(init, final, StartWalk(init), 0);
      |AnimationFrames(render, init, final, hold, fpc)| == 2 * hold + fpc * (if units > 1 then units - 1 else 1)
  {
    if !Idle(init) {
      var units := WalkUnits(init, final, StartWalk(init), 0);
      var walked := Repeat(render(init), hold) + WalkFrames(render, init, final, fpc, StartWalk(init), 0);
      WalkLength(render, init, final, fpc, StartWalk(init), 0);
      TrimmedLength(walked, hold, fpc, units);
      MulMonotone(fpc, if units > 1 then units - 1 else 1, SafetyCap);
    }
  }
}
