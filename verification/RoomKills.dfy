/** Kill conservation: over everyone who is or was in the room, kills scored equal deaths suffered;
    and with the death rate of a stay this bounds all kills. */
module RoomKills {
  import opened Base
  import opened Geometry
  import opened Combat
  import opened CombatProofs
  import opened Validation
  import opened RoomModel
  import opened VitalSigns
  import opened RoomInvariant
  import opened RoomLedger

  ghost function Scores(fs: Fighters): map<Uid, int> { map u | u in fs :: fs[u].score }

  ghost function Deaths(fs: Fighters): map<Uid, int> { map u | u in fs :: fs[u].deaths }

  /** Kills scored minus deaths suffered, over the fighters present. */
  ghost function Balance(fs: Fighters): int { Sum(Scores(fs)) - Sum(Deaths(fs)) }

  /** The players a message removes, as they were before it. */
  ghost function Departing(cfg: Config, w: World, s: Room, m: Msg): Fighters
  {
    map u | u in s.fighters && u !in Step(cfg, w, s, m).state.fighters :: s.fighters[u]
  }

  /** Scores and deaths of everyone who has left so far. */
  ghost function DepartedScore(cfg: Config, w: World, ms: seq<Msg>): int
  {
    if ms == [] then 0
    else
      var init := ms[..|ms| - 1];
      DepartedScore(cfg, w, init) + Sum(Scores(Departing(cfg, w, Run(cfg, w, NEW_ROOM, init), ms[|ms| - 1])))
  }

  ghost function DepartedDeaths(cfg: Config, w: World, ms: seq<Msg>): int
  {
    if ms == [] then 0
    else
      var init := ms[..|ms| - 1];
      DepartedDeaths(cfg, w, init) + Sum(Deaths(Departing(cfg, w, Run(cfg, w, NEW_ROOM, init), ms[|ms| - 1])))
  }

  lemma SameScores(fs: Fighters, fs': Fighters)
    requires fs.Keys == fs'.Keys
    requires forall u :: u in fs ==> fs[u].score == fs'[u].score && fs[u].deaths == fs'[u].deaths
    ensures Scores(fs) == Scores(fs') && Deaths(fs) == Deaths(fs')
  {
  }

  /** One hit scores exactly as many kills as it causes deaths. */
  lemma HitBalance(fs: Fighters, shooter: Uid, target: Uid, dmg: nat)
    requires shooter in fs && CanBeHit(fs, shooter, target)
    ensures Balance(Hit(fs, shooter, target, dmg)) == Balance(fs)
  {
    hide Hit, Kills;
    var fs' := Hit(fs, shooter, target, dmg);
    var kill := if Kills(fs[target], dmg) then 1 else 0;
    forall u | u in fs
      ensures fs'[u].score == fs[u].score + (if u == shooter then kill else 0)
      ensures fs'[u].deaths == fs[u].deaths + (if u == target then kill else 0) {
      HitTally(fs, shooter, target, dmg, u);
    }
    assert Scores(fs') == Scores(fs)[shooter := fs[shooter].score + kill];
    assert Deaths(fs') == Deaths(fs)[target := fs[target].deaths + kill];
    SumUpdate(Scores(fs), shooter, fs[shooter].score + kill);
    SumUpdate(Deaths(fs), target, fs[target].deaths + kill);
  }

  lemma HitTally(fs: Fighters, shooter: Uid, target: Uid, dmg: nat, u: Uid)
    requires shooter in fs && CanBeHit(fs, shooter, target) && u in fs
    ensures var f := Hit(fs, shooter, target, dmg)[u];
            var kill := if Kills(fs[target], dmg) then 1 else 0;
            && f.score == fs[u].score + (if u == shooter then kill else 0)
            && f.deaths == fs[u].deaths + (if u == target then kill else 0)
  {
    HitAt(fs, shooter, target, dmg, u);
  }

  lemma {:induction false} VolleyBalance(fs: Fighters, shooter: Uid, targets: seq<Uid>, dmg: nat)
    requires Targets(fs, shooter, targets) && NoDuplicates(targets)
    ensures Balance(StrikeAll(fs, shooter, targets, dmg).fighters) == Balance(fs)
  {
    hide Hit, Balance;
    if targets != [] {
      var init, last := targets[..|targets| - 1], targets[|targets| - 1];
      VolleyBalance(fs, shooter, init, dmg);
      assert last !in init;
      FightersAfter(fs, shooter, init, dmg, last);
      HitBalance(StrikeAll(fs, shooter, init, dmg).fighters, shooter, last, dmg);
    }
  }

  lemma PrimedBalance(fs: Fighters, u: Uid, f: Fighter)
    requires u in fs && f.score == fs[u].score && f.deaths == fs[u].deaths
    ensures Balance(fs[u := f]) == Balance(fs)
  {
    SameScores(fs, fs[u := f]);
  }

  lemma MainBalance(w: World, fs: Fighters, u: Uid, buttons: Byte, order: seq<Uid>)
    requires u in fs && NoDuplicates(order)
    ensures Balance(MainAttack(w, fs, u, buttons, order).fighters) == Balance(fs)
  {
    hide StrikeAll, Balance;
    if Bit(buttons, BTN_FIRE) {
      var f := fs[u].(fireCd := FIRE_COOLDOWN);
      PrimedBalance(fs, u, f);
      VolleyBalance(fs[u := f], u, ShotTargets(w, fs[u := f], u, order), GUN_DAMAGE);
    } else if Bit(buttons, BTN_SWORD) {
      var f := fs[u].(swordCd := SWORD_COOLDOWN);
      PrimedBalance(fs, u, f);
      SwingTargetsDistinct(w.maths, fs[u := f], u, SWORD_RANGE, SWORD_ARC, order);
      VolleyBalance(fs[u := f], u, SwingTargets(w.maths, fs[u := f], u, SWORD_RANGE, SWORD_ARC, order), SWORD_DAMAGE);
    } else {
      var f := fs[u].(dashCd := DASH_COOLDOWN);
      PrimedBalance(fs, u, f);
      SwingTargetsDistinct(w.maths, fs[u := f], u, DASH_RANGE, DASH_ARC, order);
      VolleyBalance(fs[u := f], u, SwingTargets(w.maths, fs[u := f], u, DASH_RANGE, DASH_ARC, order), DASH_DAMAGE);
    }
  }

  lemma LockBalance(w: World, fs: Fighters, u: Uid, order: seq<Uid>)
    requires u in fs
    ensures Balance(ApplyLock(w, fs, u, order).fighters) == Balance(fs)
  {
    hide StrikeAll, Balance;
    if !fs[u].Dead() && fs[u].lockCharges > 0 && fs[u].lockCd == 0 {
      var f := fs[u].(lockCharges := fs[u].lockCharges - 1, lockCd := LOCK_COOLDOWN);
      PrimedBalance(fs, u, f);
      VolleyBalance(fs[u := f], u, LockTargets(w.maths, fs[u := f], u, order), LOCK_DAMAGE);
    }
  }

  lemma InputBalance(cfg: Config, w: World, s: Room, m: Msg)
    requires m.Input?
    ensures Balance(Step(cfg, w, s, m).state.fighters) == Balance(s.fighters)
  {
    hide Balance, MainAttack, ApplyLock;
    if Accepts(w, s, m) {
      StepIsAttack(cfg, w, s, m);
      PrimedBalance(s.fighters, m.uid, Primed(s, m.uid, m.report));
      var fs := s.fighters[m.uid := Primed(s, m.uid, m.report)];
      MainBalance(w, fs, m.uid, m.report.buttons, m.order);
      LockBalance(w, MainAttack(w, fs, m.uid, m.report.buttons, m.order).fighters, m.uid, m.lockOrder);
    } else {
      RefusedAt(cfg, w, s, m);
      if m.uid in s.fighters {
        PrimedBalance(s.fighters, m.uid, s.fighters[m.uid].(lastReport := s.tick, suspicious := s.fighters[m.uid].suspicious + 1));
      }
    }
  }

  /** Apart from reports, a message leaves the tallies of those who stay alone. */
  lemma OtherTally(cfg: Config, w: World, s: Room, m: Msg, u: Uid)
    requires !m.Input? && u in s.fighters && u in Step(cfg, w, s, m).state.fighters
    ensures var f := Step(cfg, w, s, m).state.fighters[u];
            f.score == s.fighters[u].score && f.deaths == s.fighters[u].deaths
  {
    hide InputStep, TickStep;
    if m.Tick? { TickAt(cfg, w, s, m, u); }
  }

  ghost predicate Arrives(cfg: Config, w: World, s: Room, m: Msg)
  {
    m.Join? && m.uid !in s.fighters && !Step(cfg, w, s, m).out.full
  }

  lemma KeysAcrossStep(cfg: Config, w: World, s: Room, m: Msg)
    ensures Step(cfg, w, s, m).state.fighters.Keys + Departing(cfg, w, s, m).Keys ==
            s.fighters.Keys + if Arrives(cfg, w, s, m) then {m.uid} else {}
    ensures Arrives(cfg, w, s, m) ==>
              Departing(cfg, w, s, m) == map[] && Step(cfg, w, s, m).state.fighters == s.fighters[m.uid := Newcomer(m.at, s.tick)]
  {
    hide Newcomer, Step, Arrives;
    var fs' := Step(cfg, w, s, m).state.fighters;
    if Arrives(cfg, w, s, m) {
      ArrivalState(cfg, w, s, m);
    } else {
      forall u | u in fs' ensures u in s.fighters {
        if u !in s.fighters { NobodyElseArrives(cfg, w, s, m, u); }
      }
    }
  }

  lemma ArrivalState(cfg: Config, w: World, s: Room, m: Msg)
    requires Arrives(cfg, w, s, m)
    ensures Step(cfg, w, s, m).state.fighters == s.fighters[m.uid := Newcomer(m.at, s.tick)] && m.uid !in s.fighters
  {
    hide Newcomer;
  }

  lemma NobodyElseArrives(cfg: Config, w: World, s: Room, m: Msg, u: Uid)
    requires u !in s.fighters && u in Step(cfg, w, s, m).state.fighters
    ensures Arrives(cfg, w, s, m)
  {
    OnlyJoinAdds(cfg, w, s, m, u);
  }

  /** What a message takes out of the room, it takes from scores and deaths alike. */
  lemma StepBalance(cfg: Config, w: World, s: Room, m: Msg)
    ensures var gone := Departing(cfg, w, s, m);
            Balance(Step(cfg, w, s, m).state.fighters) + Sum(Scores(gone)) - Sum(Deaths(gone)) == Balance(s.fighters)
  {
    var fs, fs' := s.fighters, Step(cfg, w, s, m).state.fighters;
    var gone := Departing(cfg, w, s, m);
    KeysAcrossStep(cfg, w, s, m);
    hide Step, Balance;
    if m.Input? {
      InputKeys(cfg, w, s, m);
      InputBalance(cfg, w, s, m);
      assert gone == map[];
      assert Scores(gone) == map[] && Deaths(gone) == map[];
    } else if Arrives(cfg, w, s, m) {
      ArrivalBalance(fs, m.uid, Newcomer(m.at, s.tick));
      assert Scores(gone) == map[] && Deaths(gone) == map[];
    } else {
      forall u | u in fs' ensures u in fs && fs'[u].score == fs[u].score && fs'[u].deaths == fs[u].deaths {
        OtherTally(cfg, w, s, m, u);
      }
      SplitBalance(fs, fs', gone);
    }
  }

  lemma ArrivalBalance(fs: Fighters, u: Uid, f: Fighter)
    requires u !in fs && f.score == 0 && f.deaths == 0
    ensures Balance(fs[u := f]) == Balance(fs)
  {
    assert Scores(fs[u := f]) == Scores(fs)[u := 0] && Deaths(fs[u := f]) == Deaths(fs)[u := 0];
    SumAdd(Scores(fs), u, 0);
    SumAdd(Deaths(fs), u, 0);
  }

  lemma SplitBalance(fs: Fighters, fs': Fighters, gone: Fighters)
    requires forall u :: u in fs' ==> u in fs && fs'[u].score == fs[u].score && fs'[u].deaths == fs[u].deaths
    requires forall u :: u in gone <==> u in fs && u !in fs'
    requires forall u :: u in gone ==> gone[u] == fs[u]
    ensures Balance(fs') + Sum(Scores(gone)) - Sum(Deaths(gone)) == Balance(fs)
  {
    assert fs.Keys == fs'.Keys + gone.Keys;
    SplitScores(fs, fs', gone);
    SplitDeaths(fs, fs', gone);
  }

  lemma SplitScores(fs: Fighters, fs': Fighters, gone: Fighters)
    requires fs.Keys == fs'.Keys + gone.Keys && fs'.Keys !! gone.Keys
    requires forall u :: u in fs' ==> fs'[u].score == fs[u].score
    requires forall u :: u in gone ==> gone[u].score == fs[u].score
    ensures Sum(Scores(fs)) == Sum(Scores(fs')) + Sum(Scores(gone))
  {
    SumParts(Scores(fs), Scores(fs'), Scores(gone));
  }

  lemma SplitDeaths(fs: Fighters, fs': Fighters, gone: Fighters)
    requires fs.Keys == fs'.Keys + gone.Keys && fs'.Keys !! gone.Keys
    requires forall u :: u in fs' ==> fs'[u].deaths == fs[u].deaths
    requires forall u :: u in gone ==> gone[u].deaths == fs[u].deaths
    ensures Sum(Deaths(fs)) == Sum(Deaths(fs')) + Sum(Deaths(gone))
  {
    SumParts(Deaths(fs), Deaths(fs'), Deaths(gone));
  }

  /** Kill conservation: at every moment of every run, all kills scored equal all deaths suffered,
      counting the players present and the players who have left. */
  lemma {:induction false} KillsAreDeaths(cfg: Config, w: World, ms: seq<Msg>)
    ensures var fs := Run(cfg, w, NEW_ROOM, ms).fighters;
            Sum(Scores(fs)) + DepartedScore(cfg, w, ms) == Sum(Deaths(fs)) + DepartedDeaths(cfg, w, ms)
  {
    hide Step, Departing;
    if ms == [] {
      assert Scores(map[]) == map[] && Deaths(map[]) == map[];
    } else {
      var init := ms[..|ms| - 1];
      KillsAreDeaths(cfg, w, init);
      StepBalance(cfg, w, Run(cfg, w, NEW_ROOM, init), ms[|ms| - 1]);
    }
  }

  // ----- The bound -----

  /** Number of times somebody has joined anew. */
  ghost function Arrivals(cfg: Config, w: World, ms: seq<Msg>): nat
  {
    if ms == [] then 0
    else
      var init, last := ms[..|ms| - 1], ms[|ms| - 1];
      var s := Run(cfg, w, NEW_ROOM, init);
      Arrivals(cfg, w, init) + if Arrives(cfg, w, s, last) then 1 else 0
  }

  lemma {:induction false} TicksMonotone(ms: seq<Msg>, i: nat)
    requires i <= |ms|
    ensures Ticks(ms[i..]) <= Ticks(ms)
  {
    if ms != [] && i < |ms| {
      TicksMonotone(ms[..|ms| - 1], i);
      assert ms[i..][..|ms[i..]| - 1] == ms[..|ms| - 1][i..];
    } else {
      assert ms[i..] == [];
    }
  }

  lemma DeathsOfOne(cfg: Config, w: World, ms: seq<Msg>, u: Uid)
    requires cfg.Valid() && u in Run(cfg, w, NEW_ROOM, ms).fighters
    ensures Run(cfg, w, NEW_ROOM, ms).fighters[u].deaths <= Ticks(ms) / 60 + 1
  {
    hide Step, Good;
    var i := StayOf(cfg, w, ms, u);
    NewRoomGood(cfg);
    RunGood(cfg, w, NEW_ROOM, ms[..i]);
    DeathRate(cfg, w, Run(cfg, w, NEW_ROOM, ms[..i]), ms[i], ms[i + 1..], u);
    TicksMonotone(ms, i + 1);
    RunFromStay(cfg, w, ms, i);
  }

  /** Deaths of a group of players, each below a bound. */
  lemma DeathsOfGroup(fs: Fighters, bound: nat)
    requires forall u :: u in fs ==> fs[u].deaths <= bound
    ensures Sum(Deaths(fs)) <= |fs| * bound
  {
    var most: map<Uid, int> := map u | u in fs :: bound;
    SumBound(Deaths(fs), most);
    SumConstant(most, bound);
    assert most.Keys == fs.Keys;
    assert |most| == |most.Keys| == |fs.Keys| == |fs|;
  }

  lemma HeadCount(cfg: Config, w: World, s: Room, m: Msg)
    ensures |Step(cfg, w, s, m).state.fighters| + |Departing(cfg, w, s, m)| ==
            |s.fighters| + if Arrives(cfg, w, s, m) then 1 else 0
  {
    KeysAcrossStep(cfg, w, s, m);
    hide Step;
    var fs, fs' := s.fighters, Step(cfg, w, s, m).state.fighters;
    var gone := Departing(cfg, w, s, m);
    var added := if Arrives(cfg, w, s, m) then {m.uid} else {};
    assert fs'.Keys !! gone.Keys && fs.Keys !! added;
    assert |fs'.Keys + gone.Keys| == |fs'.Keys| + |gone.Keys|;
    assert |fs.Keys + added| == |fs.Keys| + |added|;
  }

  lemma {:induction false} DeathsBound(cfg: Config, w: World, ms: seq<Msg>, bound: nat)
    requires cfg.Valid() && bound >= Ticks(ms) / 60 + 1
    ensures |Run(cfg, w, NEW_ROOM, ms).fighters| <= Arrivals(cfg, w, ms)
    ensures DepartedDeaths(cfg, w, ms) <= (Arrivals(cfg, w, ms) - |Run(cfg, w, NEW_ROOM, ms).fighters|) * bound
  {
    FewerTicks(ms);
    hide Step, Departing, Arrives, Ticks;
    if ms != [] {
      var init, last := ms[..|ms| - 1], ms[|ms| - 1];
      DeathsBound(cfg, w, init, bound);
      var s := Run(cfg, w, NEW_ROOM, init);
      HeadCount(cfg, w, s, last);
      DepartingBound(cfg, w, init, last, bound);
      Distribute(Arrivals(cfg, w, init) - |s.fighters|, |Departing(cfg, w, s, last)|, bound);
    }
  }

  lemma FewerTicks(ms: seq<Msg>)
    ensures ms != [] ==> Ticks(ms[..|ms| - 1]) / 60 <= Ticks(ms) / 60
  {
  }

  lemma Distribute(a: int, b: int, c: int)
    ensures a * c + b * c == (a + b) * c
  {
  }

  lemma DepartingBound(cfg: Config, w: World, init: seq<Msg>, last: Msg, bound: nat)
    requires cfg.Valid() && bound >= Ticks(init) / 60 + 1
    ensures var gone := Departing(cfg, w, Run(cfg, w, NEW_ROOM, init), last);
            Sum(Deaths(gone)) <= |gone| * bound
  {
    var gone := Departing(cfg, w, Run(cfg, w, NEW_ROOM, init), last);
    hide Step;
    forall u | u in gone ensures gone[u].deaths <= bound {
      DeathsOfOne(cfg, w, init, u);
    }
    DeathsOfGroup(gone, bound);
  }

  /** In T ticks there are at most T/60 + 1 kills for every player who ever joined. */
  lemma KillBound(cfg: Config, w: World, ms: seq<Msg>)
    requires cfg.Valid()
    ensures var fs := Run(cfg, w, NEW_ROOM, ms).fighters;
            Sum(Scores(fs)) + DepartedScore(cfg, w, ms) <= Arrivals(cfg, w, ms) * (Ticks(ms) / 60 + 1)
  {
    hide Step, Run, Departing, Arrives, Ticks, Arrivals, DepartedScore, Sum, Scores;
    var bound := Ticks(ms) / 60 + 1;
    var fs := Run(cfg, w, NEW_ROOM, ms).fighters;
    KillsAreDeaths(cfg, w, ms);
    DeathsBound(cfg, w, ms, bound);
    forall u | u in fs ensures fs[u].deaths <= bound {
      DeathsOfOne(cfg, w, ms, u);
    }
    DeathsOfGroup(fs, bound);
    Distribute(Arrivals(cfg, w, ms) - |fs|, |fs|, bound);
  }
}
