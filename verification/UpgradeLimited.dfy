/**
 Coinciding upgrades under the rate limit of pressure events: two events of one level are at least
 a window apart. The counted event falls in the wait for a death, so that its handler only pauses.
 */
module UpgradeLimited {
  import opened Options
  import opened RegistryModel
  import opened SelectionModel
  import opened Watermark
  import opened Time
  import opened PsiModel
  import opened DaemonModel
  import opened UpgradeRuns
  import opened UpgradeExact
  import opened KillRun

  /** Two pressure events of one level are at least a window apart. */
  ghost predicate Limited(evs: seq<Event>, cfg: Settings) {
    forall i, j :: 0 <= i < j < |evs| && evs[i].Pressure? && evs[j].Pressure? && evs[i].level == evs[j].level
                   ==> evs[j].checkTm - evs[i].checkTm >= cfg.windowMs * NS_PER_MS
  }

  // ---------- the instants ----------

  /** When the event comes that is counted and kills. */
  function TB(cfg: Settings): int {
    (3 * cfg.windowMs + 3) * NS_PER_SEC
  }

  function TA(cfg: Settings): int {
    TB(cfg) - cfg.windowMs * NS_PER_MS
  }

  /** When both upgrades are decided. */
  function TU(cfg: Settings): int {
    TB(cfg) + (cfg.windowMs + 1) * NS_PER_MS
  }

  lemma Instants(cfg: Settings)
    requires cfg.windowMs >= 2
    ensures var (w, a, b, u) := (cfg.windowMs, TA(cfg), TB(cfg), TU(cfg));
            && 0 < a < a + 1 < b < b + 1 < u
            && Elapsed(0, a + 1) >= w * 3 / 2 && Elapsed(a, b) == w && Elapsed(0, b) > w
            && Elapsed(a + 1, b + 1) == w && Elapsed(b, b + 1) == 0 && Elapsed(b, u) == w + 1 && Elapsed(b + 1, u) < w * 3 / 2
  {
    hide Elapsed;
    var (w, a, b, u) := (cfg.windowMs, TA(cfg), TB(cfg), TU(cfg));
    ElapsedBounds(0, a + 1);
    ElapsedMs(a, w);
    ElapsedBounds(0, b);
    ElapsedMs(a + 1, w);
    ElapsedMs(b, w + 1);
    ElapsedBounds(b + 1, u);
    NextInstant(3 * w + 3, w);
  }

  /** Just after a full second. */
  lemma NextInstant(sec: int, w: int)
    requires w >= 2
    ensures Elapsed(sec * NS_PER_SEC, sec * NS_PER_SEC + 1) == 0
    ensures w < 999 ==> Elapsed(sec * NS_PER_SEC + 1, sec * NS_PER_SEC + (w + 1) * NS_PER_MS) == w
  {
    AtSecond(sec, 0);
    AtSecond(sec, 1);
    if w < 999 {
      AtSecond(sec, (w + 1) * NS_PER_MS);
    }
  }

  lemma AtSecond(sec: int, ns: int)
    requires 0 <= ns < NS_PER_SEC
    ensures At(sec * NS_PER_SEC + ns) == Timespec(sec, ns)
  {
  }

  // ---------- the run ----------

  predicate Close(cfg: Settings) {
    Sane(cfg) && cfg.contThresh == 1 && cfg.windowMs >= 2
  }

  /** Registration; a stall; a critical event; the counted event, that kills; one in the wait; the death; a poll; a last event. */
  function Course(cfg: Settings): seq<Event> {
    var (a, b, u) := (TA(cfg), TB(cfg), TU(cfg));
    [Arrival(),
     Pressure(VMPRESS_LEVEL_MEDIUM, a, Look(a, 1, true), a),
     Pressure(VMPRESS_LEVEL_CRITICAL, a + 1, Look(a + 1, 1, false), a + 1),
     Pressure(VMPRESS_LEVEL_MEDIUM, b, Breach(b, 2), b),
     Pressure(VMPRESS_LEVEL_CRITICAL, b + 1, Look(b + 1, 2, false), b + 1),
     DeathNotice(b + 1),
     PollTurn(Look(u, 3, true), u),
     Pressure(VMPRESS_LEVEL_CRITICAL, u, Look(u, 3, false), u)]
  }

  /** Before the kill: process 10 is there and `n` stalls have been seen. */
  ghost predicate Before(s: Sys, n: int, t: int, level: Option<int>, u: Upgrade) {
    Ready(s.d.reg) && Calm(s.d, n) && s.clock == t && s.d.poll.poll == level && s.d.up == u
  }

  /** In the wait: the kill was made at `tm`. */
  ghost predicate During(s: Sys, tm: int, t: int, paused: int, u: Upgrade) {
    && WellFormed(s.d.reg) && Killed10(s.d, 2, tm) && s.clock == t
    && s.d.poll.poll.None? && s.d.poll.paused == Some(paused) && s.d.up == u
  }

  lemma Stage1(cfg: Settings)
    requires Close(cfg)
    ensures var (s, ev) := (Started(true, cfg), Course(cfg)[0]);
            && WellFormed(s.d.reg) && Enabled(s, ev, cfg) && !Decides(s.d, ev, cfg)
            && Before(Step(s, ev, cfg), 0, 0, None, Upgrade(0, 0, 0, 0, false))
  {
    ArrivalStep(cfg);
    hide Step, Ready;
  }

  lemma Stage2(s: Sys, cfg: Settings)
    requires Close(cfg) && Before(s, 0, 0, None, Upgrade(0, 0, 0, 0, false))
    ensures var (ev, a) := (Course(cfg)[1], TA(cfg));
            && WellFormed(s.d.reg) && Enabled(s, ev, cfg) && !Decides(s.d, ev, cfg)
            && Before(Step(s, ev, cfg), 1, a, Some(VMPRESS_LEVEL_MEDIUM), Upgrade(a, 0, 0, 0, true))
  {
    hide Step, Elapsed, Shape, FdsOwned, TA, TB, TU, Decides;
    Instants(cfg);
    DirectStep(s, Course(cfg)[1], 0, cfg);
    StepClock(s, Course(cfg)[1], cfg);
  }

  lemma Stage3(s: Sys, cfg: Settings)
    requires Close(cfg) && Before(s, 1, TA(cfg), Some(VMPRESS_LEVEL_MEDIUM), Upgrade(TA(cfg), 0, 0, 0, true))
    ensures var (ev, a) := (Course(cfg)[2], TA(cfg));
            && WellFormed(s.d.reg) && Enabled(s, ev, cfg) && !Decides(s.d, ev, cfg)
            && Before(Step(s, ev, cfg), 1, a + 1, Some(VMPRESS_LEVEL_CRITICAL), Upgrade(a, a + 1, 0, 0, true))
  {
    hide Step, Elapsed, Shape, FdsOwned, TA, TB, TU, Decides;
    Instants(cfg);
    IdleDecides(s, Course(cfg)[2], 1, cfg);
    IdleStep(s, Course(cfg)[2], 1, cfg);
    StepClock(s, Course(cfg)[2], cfg);
  }

  lemma Stage4(s: Sys, cfg: Settings)
    requires Close(cfg) && Before(s, 1, TA(cfg) + 1, Some(VMPRESS_LEVEL_CRITICAL), Upgrade(TA(cfg), TA(cfg) + 1, 0, 0, true))
    ensures var (ev, a, b) := (Course(cfg)[3], TA(cfg), TB(cfg));
            && WellFormed(s.d.reg) && Enabled(s, ev, cfg) && !Decides(s.d, ev, cfg)
            && During(Step(s, ev, cfg), b, b, VMPRESS_LEVEL_MEDIUM, Upgrade(b, a + 1, b, 1, true))
  {
    hide Step, Elapsed, Shape, FdsOwned, TA, TB, TU, Decides, BodyOf;
    Instants(cfg);
    KillStep(s, TB(cfg), 1, cfg);
    StepWellFormed(s, Course(cfg)[3], cfg);
  }

  /** An event in the wait, before the timeout: polling stays paused. */
  lemma SkipStep(s: Sys, ev: Event, tm: int, paused: int, u: Upgrade, cfg: Settings)
    requires Sane(cfg) && During(s, tm, tm, paused, u) && ev == Pressure(VMPRESS_LEVEL_CRITICAL, tm + 1, Look(tm + 1, 2, false), tm + 1)
    requires Elapsed(tm, tm + 1) == 0
    ensures Enabled(s, ev, cfg) && !Decides(s.d, ev, cfg)
    ensures During(Step(s, ev, cfg), tm, tm + 1, VMPRESS_LEVEL_CRITICAL, CheckCont(u, VMPRESS_LEVEL_CRITICAL, tm + 1, cfg))
  {
    hide CheckCont, Elapsed, Shape, FdsOwned, Measure, FindAndKill;
  }

  lemma Stage5(s: Sys, cfg: Settings)
    requires Close(cfg) && During(s, TB(cfg), TB(cfg), VMPRESS_LEVEL_MEDIUM, Upgrade(TB(cfg), TA(cfg) + 1, TB(cfg), 1, true))
    ensures var (ev, b) := (Course(cfg)[4], TB(cfg));
            && Enabled(s, ev, cfg) && !Decides(s.d, ev, cfg)
            && During(Step(s, ev, cfg), b, b + 1, VMPRESS_LEVEL_CRITICAL, Upgrade(b, b + 1, b, 1, true))
  {
    hide Step, Elapsed, Shape, FdsOwned, TA, TB, TU, Decides;
    Instants(cfg);
    SkipStep(s, Course(cfg)[4], TB(cfg), VMPRESS_LEVEL_MEDIUM, s.d.up, cfg);
  }

  /** The death resumes polling of the handler paused last. */
  lemma Stage6(s: Sys, cfg: Settings)
    requires Close(cfg) && During(s, TB(cfg), TB(cfg) + 1, VMPRESS_LEVEL_CRITICAL, Upgrade(TB(cfg), TB(cfg) + 1, TB(cfg), 1, true))
    ensures var (ev, b) := (Course(cfg)[5], TB(cfg));
            && Enabled(s, ev, cfg) && !Decides(s.d, ev, cfg)
            && After(Step(s, ev, cfg), b + 1, Upgrade(b, b + 1, b, 1, true))
  {
    StepWellFormed(s, Course(cfg)[5], cfg);
    hide Elapsed, Shape, FdsOwned, TA, TB, TU;
  }

  /** After the death: the critical handler is polled again. */
  ghost predicate After(s: Sys, t: int, u: Upgrade) {
    && WellFormed(s.d.reg) && s.d.reg.lastKill < 0 && Steady(s.d.psi, 2) && s.clock == t
    && s.d.poll.poll == Some(VMPRESS_LEVEL_CRITICAL) && s.d.up == u
  }

  lemma Stage7(s: Sys, cfg: Settings)
    requires Close(cfg) && After(s, TB(cfg) + 1, Upgrade(TB(cfg), TB(cfg) + 1, TB(cfg), 1, true))
    ensures var (ev, b, u) := (Course(cfg)[6], TB(cfg), TU(cfg));
            && Enabled(s, ev, cfg) && Decides(s.d, ev, cfg)
            && var t := Step(s, ev, cfg);
               WellFormed(t.d.reg) && Calm(t.d, 3) && t.clock == u && t.d.up == Upgrade(b, b + 1, b, 0, true)
  {
    Instants(cfg);
    hide Handle, CheckCont, Elapsed, Shape, FdsOwned, TA, TB, TU;
    var ev := Course(cfg)[6];
    DirectCycle(s.d, VMPRESS_LEVEL_CRITICAL, false, TU(cfg), 2, cfg);
    assert Enabled(s, ev, cfg);
    StepWellFormed(s, ev, cfg);
  }

  lemma Stage8(s: Sys, cfg: Settings)
    requires Close(cfg) && WellFormed(s.d.reg) && Calm(s.d, 3) && s.clock == TU(cfg)
    requires s.d.up == Upgrade(TB(cfg), TB(cfg) + 1, TB(cfg), 0, true)
    ensures Enabled(s, Course(cfg)[7], cfg) && Decides(s.d, Course(cfg)[7], cfg)
  {
    hide Step, Elapsed, Shape, FdsOwned, TA, TB, TU, Decides;
    Instants(cfg);
    IdleDecides(s, Course(cfg)[7], 3, cfg);
  }

  lemma CourseLimited(cfg: Settings)
    requires Close(cfg)
    ensures Limited(Course(cfg), cfg)
  {
    hide Look, Breach;
  }

  /** The states the events lead through; the last two decide to upgrade. */
  lemma CourseStates(cfg: Settings) returns (ss: seq<Sys>)
    requires Close(cfg)
    ensures IsRun(ss, Course(cfg), cfg) && ss[0] == Started(true, cfg) && |ss| == 9
    ensures WellFormed(ss[6].d.reg) && Decides(ss[6].d, Course(cfg)[6], cfg) && WellFormed(ss[7].d.reg) && Decides(ss[7].d, Course(cfg)[7], cfg)
  {
    hide Step, WellFormed, Enabled, Decides, BodyOf, CheckCont, Before, During, After, Calm, TA, TB, TU, Started;
    var evs := Course(cfg);
    var s0 := Started(true, cfg);
    Stage1(cfg);
    var s1 := Step(s0, evs[0], cfg);
    Stage2(s1, cfg);
    var s2 := Step(s1, evs[1], cfg);
    Stage3(s2, cfg);
    var s3 := Step(s2, evs[2], cfg);
    Stage4(s3, cfg);
    var s4 := Step(s3, evs[3], cfg);
    DuringIs(s4, TB(cfg), TB(cfg), VMPRESS_LEVEL_MEDIUM, Upgrade(TB(cfg), TA(cfg) + 1, TB(cfg), 1, true));
    Stage5(s4, cfg);
    var s5 := Step(s4, evs[4], cfg);
    DuringIs(s5, TB(cfg), TB(cfg) + 1, VMPRESS_LEVEL_CRITICAL, Upgrade(TB(cfg), TB(cfg) + 1, TB(cfg), 1, true));
    Stage6(s5, cfg);
    var s6 := Step(s5, evs[5], cfg);
    AfterIs(s6, TB(cfg) + 1, Upgrade(TB(cfg), TB(cfg) + 1, TB(cfg), 1, true));
    Stage7(s6, cfg);
    var s7 := Step(s6, evs[6], cfg);
    Stage8(s7, cfg);
    ss := [s0, s1, s2, s3, s4, s5, s6, s7, Step(s7, evs[7], cfg)];
    hide Course;
    forall k | 0 <= k < 8 ensures StepAt(ss, evs, k, cfg) {
      if k == 0 {} else if k == 1 {} else if k == 2 {} else if k == 3 {} else if k == 4 {} else if k == 5 {} else if k == 6 {} else {}
    }
  }

  /** The history of a run from the start, up to its k-th state. */
  ghost function History(ss: seq<Sys>, evs: seq<Event>, k: nat, cfg: Settings): Trace
    requires IsRun(ss, evs, cfg) && k <= |evs|
  {
    if k == 0 then Trace(None, 0, 0)
    else
      assert StepAt(ss, evs, k - 1, cfg);
      TraceStep(History(ss, evs, k - 1, cfg), ss[k - 1].d, evs[k - 1], cfg)
  }

  lemma HistoryIs(ss: seq<Sys>, evs: seq<Event>, cfg: Settings) returns (trs: seq<Trace>)
    requires IsRun(ss, evs, cfg)
    ensures Traces(ss, evs, trs, cfg) && trs[0] == Trace(None, 0, 0)
  {
    trs := seq(|ss|, k requires 0 <= k < |ss| && IsRun(ss, evs, cfg) => History(ss, evs, k, cfg));
    hide TraceStep, Step, Enabled, WellFormed;
    forall k | 0 <= k < |evs| ensures TracesAt(ss, evs, trs, k, cfg) {
      assert StepAt(ss, evs, k, cfg);
    }
  }

  /**
   At threshold 1, for every window of at least 2 ms: a run from the start, within the rate limit,
   that upgrades twice in one instant.
   */
  lemma LimitedUpgrades(cfg: Settings) returns (ss: seq<Sys>, evs: seq<Event>, trs: seq<Trace>)
    requires Close(cfg)
    ensures UpgradesAgain(ss, evs, trs, 7, true, cfg) && Limited(evs, cfg)
    ensures evs[7].r.now == trs[7].since && evs[7].r.now.Some?
  {
    CourseLimited(cfg);
    evs := Course(cfg);
    ss := CourseStates(cfg);
    trs := HistoryIs(ss, evs, cfg);
    hide Step, Enabled, WellFormed, Limited, Started, BodyOf, CheckCont, Look, Breach;
    assert StepAt(ss, evs, 7, cfg) && TracesAt(ss, evs, trs, 6, cfg);
    assert RunsHandler(ss[6].d, evs[6]);
    LooksAt(TU(cfg));
  }

  lemma LooksAt(t: int)
    ensures Look(t, 3, true).now == Look(t, 3, false).now == Some(t)
  {
  }

  lemma DuringIs(s: Sys, tm: int, t: int, paused: int, u: Upgrade)
    requires During(s, tm, t, paused, u)
    ensures WellFormed(s.d.reg)
  {
  }

  lemma AfterIs(s: Sys, t: int, u: Upgrade)
    requires After(s, t, u)
    ensures WellFormed(s.d.reg) && s.d.poll.poll.Some?
  {
  }

  // ---------- the bound is exact under the rate limit ----------

  /** An event of this level came at instant `tm`, or `tm` is the start. */
  predicate CameAt(evs: seq<Event>, level: int, tm: int, k: nat)
    requires k <= |evs|
  {
    tm == 0 || exists i :: 0 <= i < k && IsAt(evs[i], level, tm)
  }

  predicate IsAt(ev: Event, level: int, tm: int) {
    ev.Pressure? && ev.level == level && ev.checkTm == tm
  }

  /** With a window of 1 ms no two events are close enough to be counted. */
  ghost predicate Uncounted(u: Upgrade, evs: seq<Event>, k: nat)
    requires k <= |evs|
  {
    u.count == 0 && u.tupgrad == 0 && CameAt(evs, VMPRESS_LEVEL_MEDIUM, u.tmed, k) && CameAt(evs, VMPRESS_LEVEL_CRITICAL, u.tcrit, k)
  }

  lemma CameLater(evs: seq<Event>, level: int, tm: int, k: nat)
    requires k < |evs|
    ensures CameAt(evs, level, tm, k) ==> CameAt(evs, level, tm, k + 1)
    ensures IsAt(evs[k], level, tm) ==> CameAt(evs, level, tm, k + 1)
  {
    if tm != 0 && CameAt(evs, level, tm, k) {
      var i :| 0 <= i < k && IsAt(evs[i], level, tm);
      assert IsAt(evs[i], level, tm);
    }
  }

  /** An event that is counted neither follows another of its level closely nor comes late enough after the start. */
  lemma NotCounted(u: Upgrade, evs: seq<Event>, k: nat, cfg: Settings)
    requires cfg.windowMs == 1 && Limited(evs, cfg) && k < |evs| && Uncounted(u, evs, k)
    requires evs[k].Pressure? && evs[k].level in {VMPRESS_LEVEL_MEDIUM, VMPRESS_LEVEL_CRITICAL}
    ensures Uncounted(CheckCont(u, evs[k].level, evs[k].checkTm, cfg), evs, k + 1)
  {
    var (level, now) := (evs[k].level, evs[k].checkTm);
    var prev := if level == VMPRESS_LEVEL_MEDIUM then u.tmed else u.tcrit;
    CameLater(evs, VMPRESS_LEVEL_MEDIUM, u.tmed, k);
    CameLater(evs, VMPRESS_LEVEL_CRITICAL, u.tcrit, k);
    assert IsAt(evs[k], level, now);
    CameLater(evs, level, now, k);
    hide CameAt, IsAt;
    if prev != 0 {
      Apart(evs, level, prev, k, cfg);
    }
    ElapsedBounds(prev, now);
    hide Elapsed;
  }

  lemma Apart(evs: seq<Event>, level: int, tm: int, k: nat, cfg: Settings)
    requires Limited(evs, cfg) && k < |evs| && CameAt(evs, level, tm, k) && tm != 0 && evs[k].Pressure? && evs[k].level == level
    ensures evs[k].checkTm - tm >= cfg.windowMs * NS_PER_MS
  {
    var i :| 0 <= i < k && IsAt(evs[i], level, tm);
  }

  lemma CountUncounted(d: Daemon, evs: seq<Event>, k: nat, cfg: Settings)
    requires k < |evs| && cfg.windowMs == 1 && Limited(evs, cfg) && Uncounted(d.up, evs, k)
    ensures Uncounted(Counted(d, evs[k], cfg).up, evs, k + 1)
  {
    CameLater(evs, VMPRESS_LEVEL_MEDIUM, d.up.tmed, k);
    CameLater(evs, VMPRESS_LEVEL_CRITICAL, d.up.tcrit, k);
    hide CheckCont, CameAt, Limited;
    var ev := evs[k];
    if ev.Pressure? && ev.level in {VMPRESS_LEVEL_MEDIUM, VMPRESS_LEVEL_CRITICAL} {
      NotCounted(d.up, evs, k, cfg);
    }
  }

  /** Beyond counting the event, a step at most raises the flag and resets the counter. */
  lemma StepCounter(s: Sys, ev: Event, cfg: Settings)
    requires WellFormed(s.d.reg) && Sane(cfg) && Enabled(s, ev, cfg)
    ensures var (u, v) := (Counted(s.d, ev, cfg).up, Step(s, ev, cfg).d.up);
            v == u.(count := v.count, flag := v.flag) && v.count in {0, u.count}
  {
    hide Handle, PsiCycle, RunCommand, WellFormed, Elapsed, CheckCont;
    if RunsHandler(s.d, ev) {
      CycleCount(Counted(s.d, ev, cfg), LevelOf(s.d, ev), ev.Pressure?, ev.r, cfg);
    }
  }

  lemma StepUncounted(s: Sys, evs: seq<Event>, k: nat, cfg: Settings)
    requires WellFormed(s.d.reg) && Sane(cfg) && k < |evs| && Enabled(s, evs[k], cfg)
    requires cfg.windowMs == 1 && Limited(evs, cfg) && Uncounted(s.d.up, evs, k)
    ensures Uncounted(Step(s, evs[k], cfg).d.up, evs, k + 1)
    ensures Uncounted(Counted(s.d, evs[k], cfg).up, evs, k + 1)
  {
    hide Step, Counted, CameAt, Limited, Enabled, WellFormed;
    CountUncounted(s.d, evs, k, cfg);
    StepCounter(s, evs[k], cfg);
  }

  lemma {:induction false} RunUncounted(ss: seq<Sys>, evs: seq<Event>, k: nat, cfg: Settings)
    requires IsRun(ss, evs, cfg) && Limited(evs, cfg) && cfg.windowMs == 1 && k <= |evs| && Uncounted(ss[0].d.up, evs, 0)
    ensures Uncounted(ss[k].d.up, evs, k)
  {
    hide Step, WellFormed, Enabled, Uncounted, Limited;
    if k > 0 {
      RunUncounted(ss, evs, k - 1, cfg);
      RunStep(ss, evs, k - 1, cfg);
      StepUncounted(ss[k - 1], evs, k - 1, cfg);
    }
  }

  /** The same question as of all runs, asked of those within the rate limit. */
  ghost predicate LimitedStrict(cfg: Settings) {
    forall ss, evs, trs, k: nat, pidfdSupported ::
      UpgradesAgain(ss, evs, trs, k, pidfdSupported, cfg) && Limited(evs, cfg) ==> FarApart(evs, trs, k, cfg)
  }

  lemma NeverUpgrades(ss: seq<Sys>, evs: seq<Event>, k: nat, pidfdSupported: bool, cfg: Settings)
    requires IsRun(ss, evs, cfg) && ss[0] == Started(pidfdSupported, cfg) && k < |evs|
    requires Limited(evs, cfg) && cfg.windowMs == 1 && cfg.contThresh == 1
    ensures WellFormed(ss[k].d.reg) && !Decides(ss[k].d, evs[k], cfg)
  {
    RunStep(ss, evs, k, cfg);
    hide Limited, Step, Enabled, WellFormed, Counted;
    assert Uncounted(ss[0].d.up, evs, 0);
    RunUncounted(ss, evs, k, cfg);
    StepUncounted(ss[k], evs, k, cfg);
    SameReg(ss[k].d, evs[k], cfg);
    if RunsHandler(ss[k].d, evs[k]) {
      CycleCount(Counted(ss[k].d, evs[k], cfg), LevelOf(ss[k].d, evs[k]), evs[k].Pressure?, evs[k].r, cfg);
    }
  }

  lemma NeverAgain(ss: seq<Sys>, evs: seq<Event>, trs: seq<Trace>, k: nat, pidfdSupported: bool, cfg: Settings)
    requires cfg.windowMs == 1 && cfg.contThresh == 1
    ensures !(UpgradesAgain(ss, evs, trs, k, pidfdSupported, cfg) && Limited(evs, cfg))
  {
    hide Limited, Step, Enabled, WellFormed, Decides;
    if IsRun(ss, evs, cfg) && ss[0] == Started(pidfdSupported, cfg) && k < |evs| && Limited(evs, cfg) {
      NeverUpgrades(ss, evs, k, pidfdSupported, cfg);
    }
  }

  lemma SameReg(d: Daemon, ev: Event, cfg: Settings)
    ensures Counted(d, ev, cfg).reg == d.reg
  {
  }

  /** Within the rate limit a window of 1 ms is strict too, and nothing else changes. */
  lemma LimitedStrictIff(cfg: Settings)
    requires Sane(cfg)
    ensures LimitedStrict(cfg) <==> StrictFor(cfg) || (cfg.contThresh == 1 && cfg.windowMs == 1)
  {
    hide UpgradesAgain, Limited;
    if StrictFor(cfg) {
      StrictIff(cfg);
    } else if cfg.contThresh == 1 && cfg.windowMs == 1 {
      forall ss, evs, trs, k: nat, pidfdSupported
        ensures !(UpgradesAgain(ss, evs, trs, k, pidfdSupported, cfg) && Limited(evs, cfg))
      {
        NeverAgain(ss, evs, trs, k, pidfdSupported, cfg);
      }
    } else if cfg.contThresh == 1 {
      var ss, evs, trs := LimitedUpgrades(cfg);
      assert !FarApart(evs, trs, 7, cfg);
    } else {
      var ss, evs, trs := UpgradesAtOnce(true, cfg);
      NoWindow(evs, cfg);
      assert !FarApart(evs, trs, 1, cfg);
    }
  }

  lemma NoWindow(evs: seq<Event>, cfg: Settings)
    requires cfg.windowMs == 0 && |evs| == 2 && evs[0] == evs[1]
    ensures Limited(evs, cfg)
  {
  }
}
