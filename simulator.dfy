/** The transition simulator: the scene some time after a given scene, under the switch rule. */
module Simulator {
  import opened Wrappers
  import opened Sequences
  import opened Scenes

  /** Time simulated when no elapsed time is given: the smaller running countdown, the only
      running one, or nothing when neither light counts. */
  function AutoHorizon(s: Scene): (h: nat)
    ensures h == 0 <==> Idle(s)
    ensures h > 0 ==> h == s.aCount || h == s.bCount
    ensures s.aCount > 0 ==> h <= s.aCount
    ensures s.bCount > 0 ==> h <= s.bCount
  {
    if s.aCount > 0 && s.bCount > 0 then Min(s.aCount, s.bCount)
    else if s.aCount > 0 then s.aCount
    else if s.bCount > 0 then s.bCount
    else 0
  }

  /** The time actually simulated: the explicit elapsed time, or else the automatic horizon. */
  function Horizon(s: Scene, elapsed: Option<nat>): nat {
    match elapsed
    case Some(e) => e
    case None => AutoHorizon(s)
  }

  /** The closed form of the simulation: nothing happens without time or without a running
      countdown; otherwise the lights switch once red A or green B is due within `t` (a green B
      already at zero is due at once), and else both countdowns simply run down. */
  function Advance(s: Scene, t: nat): (r: Scene)
    ensures r.aCount <= s.aCount && r.bCount <= s.bCount
    ensures OneRed(s) ==> OneRed(r)
    ensures r.aState != s.aState || r.bState != s.bState ==> r == Switched
    ensures r == Countdown(s, t) || r == Switched
    ensures r.aState == s.aState && r.bState == s.bState ==> r == Countdown(s, t)
  {
    if t == 0 || Idle(s) then s
    else if (s.aState == Red && s.aCount <= t) || (s.bState == Green && s.bCount <= t) then Switched
    else Countdown(s, t)
  }

  /** Simulating `j` units and then `k` more is simulating `j + k` units. */
  lemma AdvanceAdditive(s: Scene, j: nat, k: nat)
    ensures Advance(Advance(s, j), k) == Advance(s, j + k)
  {
  }

  /** A switched scene is a steady state: no further time changes it. */
  lemma SwitchedIsFixed(t: nat)
    ensures Advance(Switched, t) == Switched
  {
  }

  /** One time unit: every running countdown drops by one, then the red-A check and, failing
      it, the green-B check are applied. */
  function Tick(s: Scene): Scene {
    var d := Countdown(s, 1);
    if d.aCount == 0 && d.aState == Red then Switched
    else if d.bCount == 0 && d.bState == Green then Switched
    else d
  }

  /** `n` single ticks, stopping early once neither light counts. */
  function Ticks(s: Scene, n: nat): Scene
    decreases n
  {
    if n == 0 || Idle(s) then s else Ticks(Tick(s), n - 1)
  }

  /** Jumping from one zero event to the next lands where ticking one unit at a time does. */
  lemma {:induction false} AdvanceIsTicks(s: Scene, n: nat)
    ensures Advance(s, n) == Ticks(s, n)
    decreases n
  {
    if n > 0 && !Idle(s) {
      assert Tick(s) == Advance(s, 1);
      AdvanceIsTicks(Tick(s), n - 1);
      AdvanceAdditive(s, 1, n - 1);
    }
  }

  /** Without time, or without a running countdown, the scene is returned unchanged. */
  lemma NothingToSimulate(s: Scene, t: nat)
    requires t == 0 || Idle(s)
    ensures Advance(s, t) == s
  {
  }

  /** Countdowns never increase as more time is simulated. */
  lemma CountsNonIncreasing(s: Scene, j: nat, k: nat)
    requires j <= k
    ensures Advance(s, k).aCount <= Advance(s, j).aCount
    ensures Advance(s, k).bCount <= Advance(s, j).bCount
  {
    AdvanceAdditive(s, j, k - j);
  }

  /** Which of the two checks, if any, switched the lights. */
  datatype Rule = NoSwitch | RedAExpired | GreenBExpired

  /** The check that fires during `h` units from `s`. The first pass of the loop ends at
      `first`; a due light is caught at the end of the pass in which its countdown reaches zero,
      that is at the later of its countdown and `first`; the red-A check wins a tie. */
  function Fired(s: Scene, h: nat): Rule {
    if h == 0 || Idle(s) then NoSwitch
    else
      var first := Min(AutoHorizon(s), h);
      var aDue := s.aState == Red && s.aCount <= h;
      var bDue := s.bState == Green && s.bCount <= h;
      if aDue && (!bDue || Max(s.aCount, first) <= Max(s.bCount, first)) then RedAExpired
      else if bDue then GreenBExpired
      else NoSwitch
  }

  /** A check fires exactly when the simulation switches the lights rather than only running
      the countdowns down; the red-A check needs a red A due within the time, the green-B check
      a green B. */
  lemma FiredExactlyOnSwitch(s: Scene, h: nat)
    ensures Fired(s, h) != NoSwitch <==> Advance(s, h) == Switched && Advance(s, h) != Countdown(s, h)
    ensures Fired(s, h) == RedAExpired ==> s.aState == Red && s.aCount <= h
    ensures Fired(s, h) == GreenBExpired ==> s.bState == Green && s.bCount <= h
  {
  }

  /** The record of a check: nothing, or the rule that fired. */
  function Emitted(w: Rule): seq<Rule> {
    if w == NoSwitch then [] else [w]
  }

  /** The rules fired by one simulation, in order. */
  function Trace(s: Scene, h: nat): seq<Rule> {
    Emitted(Fired(s, h))
  }

  /** One pass of the simulation loop keeps the outcome: the pass runs both countdowns down to
      the next zero event or the end of the budget and applies the first check that holds, and
      the rest of the budget from there ends where the whole budget from before does. */
  lemma PassPreserves(cur: Scene, rem: nat, k: nat, next: Scene, rule: Rule)
    requires rem > 0 && !Idle(cur) && k == Min(AutoHorizon(cur), rem)
    requires rule == CheckAfterPass(Countdown(cur, k))
    requires next == if rule == NoSwitch then Countdown(cur, k) else Switched
    ensures Advance(next, rem - k) == Advance(cur, rem)
    ensures Trace(cur, rem) == Emitted(rule) + Trace(next, rem - k)
  {
  }

  /** The switch check applied after each pass: the red-A check first, then the green-B check. */
  function CheckAfterPass(d: Scene): Rule {
    if d.aCount == 0 && d.aState == Red then RedAExpired
    else if d.bCount == 0 && d.bState == Green then GreenBExpired
    else NoSwitch
  }

  /** One pass of the simulation loop on a scene with a running countdown: the time to the
      next zero event, capped by the remaining budget, is taken off every running countdown,
      then the checks run. */
  method JumpToNextEvent(cur: Scene, timeRemaining: nat) returns (next: Scene, steps: nat, ghost rule: Rule)
    requires timeRemaining > 0 && !Idle(cur)
    ensures 0 < steps == Min(AutoHorizon(cur), timeRemaining)
    ensures rule == CheckAfterPass(Countdown(cur, steps))
    ensures next == if rule == NoSwitch then Countdown(cur, steps) else Switched
  {
    var aState, bState := cur.aState, cur.bState;
    var aCount: nat, bCount: nat := cur.aCount, cur.bCount;
    if aCount > 0 && bCount > 0 {
      if aCount <= bCount {
        steps := aCount;
      } else {
        steps := bCount;
      }
    } else if aCount > 0 {
      steps := aCount;
    } else {
      steps := bCount;
    }
    steps := Min(steps, timeRemaining);
    if aCount > 0 {
      aCount := aCount - steps;
    }
    if bCount > 0 {
      bCount := bCount - steps;
    }
    rule := NoSwitch;
    if aCount == 0 && aState == Red {
      aState := Green;
      bState := Red;
      if bCount > 0 {
        bCount := 0;
      }
      rule := RedAExpired;
    } else if bCount == 0 && bState == Green {
      bState := Red;
      aState := Green;
      if aCount > 0 {
        aCount := 0;
      }
      rule := GreenBExpired;
    }
    next := Scene(aState, aCount, bState, bCount);
  }

  /** The simulator. The horizon is the explicit elapsed time or the automatic one; the loop
      jumps from one zero event to the next until the budget is spent or neither light counts.
      `fired` records which check switched the lights. */
  method CalculateFinalState(s: Scene, elapsed: Option<nat>) returns (r: Scene, ghost fired: seq<Rule>)
    ensures r == Advance(s, Horizon(s, elapsed))
    ensures fired == Trace(s, Horizon(s, elapsed))
    ensures |fired| <= 1 && (fired == [] <==> r == Countdown(s, Horizon(s, elapsed)))
  {
    var cur := s;
    var timeElapsed: nat;
    if elapsed.None? {
      timeElapsed := AutoHorizon(s);
    } else {
      timeElapsed := elapsed.value;
    }
    ghost var h := timeElapsed;
    var timeRemaining: nat := timeElapsed;
    fired := [];
    while timeRemaining > 0
      invariant Advance(cur, timeRemaining) == Advance(s, h)
      invariant fired + Trace(cur, timeRemaining) == Trace(s, h)
      decreases timeRemaining
    {
      if cur.aCount == 0 && cur.bCount == 0 {
        break;
      }
      var next, steps, rule := JumpToNextEvent(cur, timeRemaining);
      PassPreserves(cur, timeRemaining, steps, next, rule);
      ConcatAssoc(fired, Emitted(rule), Trace(next, timeRemaining - steps));
      fired := fired + Emitted(rule);
      cur, timeRemaining := next, timeRemaining - steps;
    }
    r := cur;
    FiredExactlyOnSwitch(s, h);
  }

  /** Red A reaching zero no later than a running green B: the red-A check switches the
      lights; when both reach zero in the same unit this is the tie-break. */
  lemma RedAFirstOrTied(s: Scene, h: nat)
    requires s.aState == Red && s.bState == Green
    requires 0 < s.aCount <= h && (s.bCount == 0 || s.aCount <= s.bCount)
    ensures Fired(s, h) == RedAExpired && Advance(s, h) == Switched
  {
  }

  /** Green B reaching zero strictly before red A: the green-B check switches the lights. */
  lemma GreenBFirst(s: Scene, h: nat)
    requires s.aState == Red && s.bState == Green
    requires 0 < s.bCount < s.aCount && s.bCount <= h
    ensures Fired(s, h) == GreenBExpired && Advance(s, h) == Switched
  {
  }

  /** A green B that is not counting is "at zero" from the start: any positive time that ends
      before A's countdown switches the lights through the green-B check. */
  lemma IdleGreenBSwitchesAtOnce(s: Scene, h: nat)
    requires s.bState == Green && s.bCount == 0 && 0 < h < s.aCount
    ensures Fired(s, h) == GreenBExpired && Advance(s, h) == Switched
  {
  }

  /** The worked scenarios: red 5 / green 0 with no elapsed time, red 10 / green 4 with no
      elapsed time, the tie red 6 / green 6 with 6 units, and red 5 / green 0 with 2 units. */
  lemma Scenarios()
    ensures var s := Scene(Red, 5, Green, 0);
      AutoHorizon(s) == 5 && Advance(s, 5) == Switched && Fired(s, 5) == RedAExpired
    ensures var s := Scene(Red, 10, Green, 4);
      AutoHorizon(s) == 4 && Advance(s, 4) == Switched && Fired(s, 4) == GreenBExpired
    ensures var s := Scene(Red, 6, Green, 6);
      Advance(s, 6) == Switched && Fired(s, 6) == RedAExpired
    ensures var s := Scene(Red, 5, Green, 0);
      Advance(s, 2) == Switched && Fired(s, 2) == GreenBExpired
  {
  }
}
