/** Movement over a whole life: accepted reports move a player by bounded steps, refused ones not at all. */
module RoomMovement {
  import opened Base
  import opened Geometry
  import opened Combat
  import opened Validation
  import opened RoomModel
  import opened VitalSigns
  import opened RoomInvariant
  import opened RoomLedger

  /** `u` is present, alive and past its first report at every moment of the run. */
  ghost predicate Roaming(cfg: Config, w: World, s: Room, ms: seq<Msg>, u: Uid)
  {
    var s' := Run(cfg, w, s, ms);
    && u in s'.fighters && !s'.fighters[u].Dead() && !s'.fighters[u].firstReport
    && (ms == [] || Roaming(cfg, w, s, ms[..|ms| - 1], u))
  }

  /** 1 for an accepted report of `u`. */
  ghost function Accepting(w: World, u: Uid): (Room, Msg) -> int
  {
    (s: Room, m: Msg) => if Accepts(w, s, m) && m.uid == u then 1 else 0
  }

  // ----- The triangle inequality in the plane -----

  /** What the check accepts: moves of one unit at most, finite numbers, and, but for the first report and for the dead, a
      new position in the cylinder of radius 1.7 and half height 4 around the old one. */
  lemma CheckMoveExactly(m: Maths, f: Fighter, report: InputReport)
    requires m.Valid()
    ensures CheckMove(m, f, report) <==>
              && -1 <= report.moveX <= 1 && -1 <= report.moveY <= 1 && report.AllFinite()
              && (f.firstReport || f.Dead() || InCylinder(f.pos, report.Pos()))
  {
    if report.AllFinite() {
      var dx, dz := report.x.v - f.pos.x, report.z.v - f.pos.z;
      HypotenuseWithin(m, dx, dz, MAX_HORZ_STEP);
      hide Hypotenuse;
    }
  }

  predicate InCylinder(p: Vec, q: Vec)
  {
    WithinCircle(q.x - p.x, q.z - p.z, MAX_HORZ_STEP) && -MAX_VERT_STEP <= q.y - p.y <= MAX_VERT_STEP
  }

  predicate WithinCircle(dx: real, dz: real, r: real) { dx * dx + dz * dz <= r * r }

  lemma HypotenuseWithin(m: Maths, dx: real, dz: real, r: real)
    requires m.Valid() && r >= 0.0
    ensures Hypotenuse(m, dx, dz) <= r <==> WithinCircle(dx, dz, r)
  {
    SquareNonNegative(dx);
    SquareNonNegative(dz);
    var h := m.sqrt(dx * dx + dz * dz);
    assert h >= 0.0 && h * h == dx * dx + dz * dz;
    hide Maths.Valid;
    SquareBound(h, r);
  }

  lemma SqrtIsMonotone(m: Maths, x: real, y: real)
    requires m.Valid() && 0.0 <= x && 0.0 <= y && x <= y * y
    ensures m.sqrt(x) <= y
  {
    if m.sqrt(x) > y {
      SquareStrict(y, m.sqrt(x));
    }
  }

  /** Cauchy and Schwarz for two plane vectors with given lengths. */
  lemma InnerProductBound(a: real, b: real, c: real, d: real, p: real, q: real)
    requires p >= 0.0 && q >= 0.0 && p * p == a * a + b * b && q * q == c * c + d * d
    ensures a * c + b * d <= p * q
  {
    var inner := a * c + b * d;
    var cross := a * d - b * c;
    assert (p * q) * (p * q) == (p * p) * (q * q);
    Lagrange(a, b, c, d);
    assert (p * q) * (p * q) == inner * inner + cross * cross;
    assert p * q >= 0.0;
    if inner > p * q {
      SquareStrict(p * q, inner);
    }
  }

  lemma Lagrange(a: real, b: real, c: real, d: real)
    ensures (a * a + b * b) * (c * c + d * d) ==
            (a * c + b * d) * (a * c + b * d) + (a * d - b * c) * (a * d - b * c)
  {
  }

  lemma PlaneTriangle(m: Maths, a: real, b: real, c: real, d: real)
    requires m.Valid()
    ensures Hypotenuse(m, a + c, b + d) <= Hypotenuse(m, a, b) + Hypotenuse(m, c, d)
  {
    var p, q := m.sqrt(a * a + b * b), m.sqrt(c * c + d * d);
    InnerProductBound(a, b, c, d, p, q);
    SquareOfSum(a, c);
    SquareOfSum(b, d);
    SquareNonNegative(a + c);
    SquareNonNegative(b + d);
    TriangleFromParts(m, a * a + b * b, c * c + d * d, (a + c) * (a + c) + (b + d) * (b + d), a * c + b * d, p, q);
  }

  lemma SquareNonNegative(a: real)
    ensures a * a >= 0.0
  {
  }

  lemma SquareOfSum(a: real, b: real)
    ensures (a + b) * (a + b) == a * a + 2.0 * (a * b) + b * b
  {
  }

  lemma TriangleFromParts(m: Maths, x: real, y: real, z: real, inner: real, p: real, q: real)
    requires m.Valid() && p >= 0.0 && q >= 0.0 && p * p == x && q * q == y
    requires inner <= p * q && z == x + 2.0 * inner + y && z >= 0.0
    ensures m.sqrt(z) <= p + q
  {
    SquareOfSum(p, q);
    SqrtIsMonotone(m, z, p + q);
  }

  lemma HorizontalTriangle(m: Maths, p: Vec, q: Vec, r: Vec)
    requires m.Valid()
    ensures HorizontalStep(m, p, r) <= HorizontalStep(m, p, q) + HorizontalStep(m, q, r)
  {
    PlaneTriangle(m, q.x - p.x, q.z - p.z, r.x - q.x, r.z - q.z);
    hide Hypotenuse;
    assert (q.x - p.x) + (r.x - q.x) == r.x - p.x && (q.z - p.z) + (r.z - q.z) == r.z - p.z;
  }

  // ----- One message -----

  /** The place of a living player changes only by its own accepted reports, and then by one bounded step. */
  lemma PlaceStep(cfg: Config, w: World, s: Room, m: Msg, u: Uid)
    requires Good(cfg, s) && u in s.fighters && !s.fighters[u].Dead() && !s.fighters[u].firstReport
    requires u in Step(cfg, w, s, m).state.fighters
    ensures var f, f' := s.fighters[u], Step(cfg, w, s, m).state.fighters[u];
            if Accepts(w, s, m) && m.uid == u then
              && f'.pos == m.report.Pos() && f'.yaw == m.report.yaw.v && !f'.firstReport
              && HorizontalStep(w.maths, f.pos, f'.pos) <= MAX_HORZ_STEP
              && Abs(f'.pos.y - f.pos.y) <= MAX_VERT_STEP
            else
              f'.pos == f.pos && f'.yaw == f.yaw
  {
    hide Good, InputStep, TickStep, HorizontalStep;
    if m.Input? {
      if Accepts(w, s, m) {
        AcceptedAt(cfg, w, s, m, u);
        assert StanceOf(Step(cfg, w, s, m).state.fighters[u]).pos == Step(cfg, w, s, m).state.fighters[u].pos;
      } else {
        RefusedAt(cfg, w, s, m);
      }
    } else if m.Tick? {
      TickAt(cfg, w, s, m, u);
    }
  }

  lemma StandingStill(m: Maths, p: Vec)
    requires m.Valid()
    ensures HorizontalStep(m, p, p) == 0.0
  {
    var e := m.sqrt(0.0);
    assert e * e == 0.0;
    if e > 0.0 { SquareStrict(0.0, e); }
  }

  /** While a player lives and is past its first report, n accepted reports move it at most 1.7 n horizontally
      in a straight line, and at most 4 n vertically, whatever else happens in the room. */
  lemma {:induction false} MovementBound(cfg: Config, w: World, s: Room, ms: seq<Msg>, u: Uid)
    requires w.Valid() && Good(cfg, s) && Roaming(cfg, w, s, ms, u)
    ensures u in s.fighters
    ensures var p, q := s.fighters[u].pos, Run(cfg, w, s, ms).fighters[u].pos;
            var n := Over(cfg, w, s, ms, Accepting(w, u));
            && HorizontalStep(w.maths, p, q) <= MAX_HORZ_STEP * (n as real)
            && Abs(q.y - p.y) <= MAX_VERT_STEP * (n as real)
  {
    hide Good, Step, Accepts, HorizontalStep;
    if ms == [] {
      StandingStill(w.maths, s.fighters[u].pos);
    } else {
      var init, last := ms[..|ms| - 1], ms[|ms| - 1];
      MovementBound(cfg, w, s, init, u);
      RunGood(cfg, w, s, init);
      var before := Run(cfg, w, s, init);
      PlaceStep(cfg, w, before, last, u);
      HorizontalTriangle(w.maths, s.fighters[u].pos, before.fighters[u].pos, Run(cfg, w, s, ms).fighters[u].pos);
    }
  }

  // ----- Suspicion -----

  /** Length of the trailing run of refused reports of `u`, counting from the start of the run. */
  ghost function Refusals(cfg: Config, w: World, s: Room, ms: seq<Msg>, u: Uid): nat
  {
    if ms == [] then 0
    else
      var init, last := ms[..|ms| - 1], ms[|ms| - 1];
      var before := Run(cfg, w, s, init);
      if last.Input? && last.uid == u && Possible(before, last) then
        if Accepts(w, before, last) then 0 else Refusals(cfg, w, s, init, u) + 1
      else Refusals(cfg, w, s, init, u)
  }

  lemma SuspicionStep(cfg: Config, w: World, s: Room, m: Msg, u: Uid)
    requires Good(cfg, s) && u in s.fighters && u in Step(cfg, w, s, m).state.fighters
    ensures Step(cfg, w, s, m).state.fighters[u].suspicious ==
            if m.Input? && m.uid == u && Possible(s, m) then
              if Accepts(w, s, m) then 0 else s.fighters[u].suspicious + 1
            else s.fighters[u].suspicious
  {
    hide Good, InputStep, TickStep, CheckMove;
    if m.Input? {
      if Accepts(w, s, m) {
        AcceptedAt(cfg, w, s, m, u);
        assert StanceOf(Step(cfg, w, s, m).state.fighters[u]).suspicious == Step(cfg, w, s, m).state.fighters[u].suspicious;
      } else {
        RefusedCount(cfg, w, s, m);
      }
    } else if m.Tick? {
      TickAt(cfg, w, s, m, u);
    }
  }

  /** Since joining, the suspicion count is the number of reports refused since the last accepted one;
      so a player becomes a candidate for removal exactly after three refusals in a row. */
  lemma {:induction false} SuspicionIsRefusals(cfg: Config, w: World, before: Room, join: Msg, ms: seq<Msg>, u: Uid)
    requires Good(cfg, before) && Stay(cfg, w, before, join, ms, u)
    ensures var s := Step(cfg, w, before, join).state;
            && Run(cfg, w, s, ms).fighters[u].suspicious == Refusals(cfg, w, s, ms, u)
            && (IsSuspicious(Run(cfg, w, s, ms).fighters[u]) <==> Refusals(cfg, w, s, ms, u) >= 3)
  {
    hide Good, Step, Accepts, Possible;
    var s := Step(cfg, w, before, join).state;
    StepGood(cfg, w, before, join);
    if ms == [] {
      JoinedFresh(cfg, w, before, join);
    } else {
      var init, last := ms[..|ms| - 1], ms[|ms| - 1];
      SuspicionIsRefusals(cfg, w, before, join, init, u);
      RunGood(cfg, w, s, init);
      SuspicionStep(cfg, w, Run(cfg, w, s, init), last, u);
    }
  }
}
