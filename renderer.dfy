/** The scene renderer, reduced to the decisions it makes: where each lamp goes, which colour
    it gets, what caption it carries and whether a countdown label is drawn. The pixels
    themselves (road, dashed lines, discs, text) depend only on these and on the image size. */
module Renderer {
  import opened Wrappers
  import opened Scenes

  datatype Rgb = Rgb(red: nat, green: nat, blue: nat)

  /** The static configuration rendering depends on. */
  datatype RenderConfig = RenderConfig(width: nat, height: nat, showCountdownAtZero: bool)

  /** One lamp as drawn: centre, radius, fill colour, caption and, if any, the countdown shown. */
  datatype Lamp = Lamp(centerX: int, centerY: int, radius: nat, fill: Rgb, caption: string,
                       countdownLabel: Option<nat>)

  /** A rendered image, identified by everything that decides its pixels. */
  datatype Frame = Frame(width: nat, height: nat, lampA: Lamp, lampB: Lamp)

  /** Positions of the two lamps: A left, B right, both on the horizontal centre line. */
  datatype Layout = Layout(radius: nat, aX: int, bX: int, y: int)

  function LayoutFor(width: nat, height: nat): (l: Layout)
    ensures l.aX + l.bX == width
    ensures l.radius <= l.aX && l.bX + l.radius <= width
    ensures width > 0 ==> l.bX - l.aX > 2 * l.radius
    ensures 2 * l.y <= height < 2 * l.y + 2
  {
    var radius := width / 12;
    var margin := width / 8;
    Layout(radius, margin + radius, width - margin - radius, height / 2)
  }

  function LampColour(state: LightState): Rgb {
    if state == Red then Rgb(255, 0, 0) else Rgb(0, 200, 0)
  }

  /** A countdown is drawn when it is running, and at zero only if the configuration asks. */
  function CountdownLabel(count: nat, showAtZero: bool): Option<nat> {
    if count > 0 || (count == 0 && showAtZero) then Some(count) else None
  }

  function Render(cfg: RenderConfig, s: Scene): (f: Frame)
    ensures f.lampA.centerX < f.lampB.centerX || cfg.width == 0
    ensures f.lampA.countdownLabel.Some? <==> s.aCount > 0 || cfg.showCountdownAtZero
    ensures f.lampB.countdownLabel.Some? <==> s.bCount > 0 || cfg.showCountdownAtZero
    ensures f.lampA.countdownLabel.Some? ==> f.lampA.countdownLabel.value == s.aCount
    ensures f.lampB.countdownLabel.Some? ==> f.lampB.countdownLabel.value == s.bCount
    ensures f.lampA.fill == Rgb(255, 0, 0) <==> s.aState == Red
    ensures f.lampB.fill == Rgb(255, 0, 0) <==> s.bState == Red
    ensures f.lampA.centerY == f.lampB.centerY
  {
    var l := LayoutFor(cfg.width, cfg.height);
    Frame(cfg.width, cfg.height,
          Lamp(l.aX, l.y, l.radius, LampColour(s.aState), "Traffic A",
               CountdownLabel(s.aCount, cfg.showCountdownAtZero)),
          Lamp(l.bX, l.y, l.radius, LampColour(s.bState), "Traffic B",
               CountdownLabel(s.bCount, cfg.showCountdownAtZero)))
  }

  /** Rendering loses nothing: two scenes drawn alike are the same scene. */
  lemma RenderInjective(cfg: RenderConfig, s: Scene, t: Scene)
    requires Render(cfg, s) == Render(cfg, t)
    ensures s == t
  {
  }
}
