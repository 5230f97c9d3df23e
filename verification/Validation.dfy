/** The movement check of internal/room/validation.go. Only here do values that are not finite
    matter: a report with any such coordinate or angle is refused. */
module Validation {
  import opened Base
  import opened Geometry
  import opened Combat

  datatype Float = NaN | Inf(positive: bool) | Fin(v: real)

  datatype InputReport = InputReport(
    moveX: int, moveY: int, yaw: Float, buttons: Byte, aimX: Float, aimY: Float,
    x: Float, y: Float, z: Float, weapon: Byte, anim: Byte)
  {
    predicate AllFinite() { yaw.Fin? && aimX.Fin? && aimY.Fin? && x.Fin? && y.Fin? && z.Fin? }

    function Pos(): Vec
      requires AllFinite()
    {
      Vec(x.v, y.v, z.v)
    }
  }

  const MAX_HORZ_STEP: real := 1.7
  const MAX_VERT_STEP: real := 4.0
  const MAX_SUSPICIOUS := 3

  function Hypotenuse(m: Maths, dx: real, dz: real): real { m.sqrt(dx * dx + dz * dz) }

  function HorizontalStep(m: Maths, p: Vec, q: Vec): real { Hypotenuse(m, q.x - p.x, q.z - p.z) }

  predicate CheckMove(m: Maths, f: Fighter, report: InputReport): (ok: bool)
    ensures ok ==> report.AllFinite()
  {
    if report.moveX < -1 || report.moveX > 1 || report.moveY < -1 || report.moveY > 1 then false
    else if !report.AllFinite() then false
    else if f.firstReport || f.Dead() then true
    else
      !(HorizontalStep(m, f.pos, report.Pos()) > MAX_HORZ_STEP || Abs(report.y.v - f.pos.y) > MAX_VERT_STEP)
  }

  function MarkViolation(f: Fighter, ok: bool): Fighter
  {
    f.(suspicious := if ok then 0 else f.suspicious + 1)
  }

  predicate IsSuspicious(f: Fighter) { f.suspicious >= MAX_SUSPICIOUS }

  /** The report as recorded once it has been accepted. */
  function Accepted(f: Fighter, report: InputReport): Fighter
    requires report.AllFinite()
  {
    f.(aimX := report.aimX.v, aimY := report.aimY.v, buttons := report.buttons,
       weapon := report.weapon, anim := report.anim,
       pos := report.Pos(), yaw := report.yaw.v, firstReport := false)
  }
}
