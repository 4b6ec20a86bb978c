/** A run from the start of the daemon to the wait for a death: one process registers and is killed. */
module KillRun {
  import opened Options
  import opened RegistryModel
  import opened SelectionModel
  import opened Watermark
  import opened Time
  import opened PsiModel
  import opened DaemonModel
  import opened UpgradeRuns
  import opened UpgradeExact
  import opened PollingRuns
  import Decisions

  // ---------- the kill ----------

  /** Process 10 is registered at adj 1000 with descriptor 5, and nothing else. */
  ghost predicate Ready(st: State) {
    && WellFormed(st) && st.recs == map[10 := Rec(5, 0, 1000, 1, true)] && st.slots[AdjToSlot(1000)] == [10]
    && st.lastKill < 0 && st.pidfdSupported
  }

  /** Every process has 100 pages and can be killed. */
  function Killable(): World {
    World((t, p) => 100, (t, p) => false, (t, p) => Probe(true, 100, 0, true, true))
  }

  /** In direct reclaim, below the min watermark, stalled. */
  function Breach(now: int, n: int): Reading {
    var zones := Some(Zones(0, 0, Marks(1, 1, 1), Some(true)));
    Look(now, n, true).(first := zones, second := zones, world := Killable())
  }

  lemma PickTen(st: State, heaviest: bool)
    requires Ready(st)
    ensures Select(st, 1000, heaviest, Killable(), 0) == Pick(st, Some(10))
  {
    var xs := st.slots[AdjToSlot(1000)];
    RemoveAllNone(st, Unreadable(Killable(), 0, xs));
    HeaviestIsHeaviest(Killable(), 0, xs);
    assert 10 in xs && Killable().size(0, 10) == 100;
  }

  lemma ScanKills(st: State, choose: bool, debuggable: bool, script: int)
    requires Ready(st)
    ensures var r := FindAndKill(st, 0, choose, Killable(), 0, debuggable, script);
            && r.killed == 100 && AnyKilled(r.attempts)
            && r.st.recs == map[] && r.st.lastKill == 5 && r.st.pidfdSupported
  {
    hide Shape, FdsOwned, Select;
    var w := Killable();
    SelectWellFormed(st, 1000, choose, w, 0);
    PickTen(st, choose);
    var pr := w.probe(0, 10);
    KillOneKeeps(st, 10, pr);
    KillOneOpen(st, 10, pr);
    var o := KillOne(st, 10, pr);
    assert DrainSlot(st, 1000, choose, 0, w, 0) == Scan(o.st, [o.att], 100, 1);
    assert [o.att][0].kind == Killed;
  }

  /** Two looks below the min watermark, with no thrashing: a kill is decided, and nothing else. */
  lemma BreachVerdict(wbf: int, firstKill: bool, f: Facts, now: int, n: int, cfg: Settings)
    requires Sane(cfg) && f.thrashing == 0 && f.limit >= 0
    ensures var v := Passes(wbf, firstKill, false, f, Breach(now, n), cfg);
            && v.complete && v.stall && !v.firstKill && v.dec.reason != NoReason && !v.dec.cut && !v.dec.checkFilecache
            && MinScore(v) == 0
  {
    hide Decide;
    Decisions.FreshLook(false, WmarkMin, f, cfg);
    Decisions.ThrashReason(false, WmarkMin, f, cfg);
    AtMin(f, cfg);
    Decisions.SecondLook(Decide(Decisions.Undecided(false), WmarkMin, f, cfg), WmarkMin, f, cfg);
    assert WatermarkOf(Breach(now, n).first.value, wbf, f, cfg) == WmarkMin;
  }

  /** Below the min watermark there is always a reason, and without thrashing none that looks at the file cache. */
  lemma AtMin(f: Facts, cfg: Settings)
    requires f.thrashing == 0 && f.limit >= 0
    ensures var d := Decide(Decisions.Undecided(false), WmarkMin, f, cfg);
            d.reason != NoReason && d.reason != LowFilecacheAfterThrashing
  {
  }

  /** The kill has been made at `tm` and its death is awaited. */
  predicate Killed10(d: Daemon, n: int, tm: int) {
    && d.reg.pidfdSupported && d.reg.lastKill == 5 && d.reg.recs == map[]
    && d.psi.killing && !d.psi.firstKill && d.psi.lastKillTm == tm && Steady(d.psi, n)
  }

  lemma KillCycle(d: Daemon, now: int, n: int, cfg: Settings)
    requires Ready(d.reg) && Sane(cfg) && Calm(d, n)
    ensures var b := Handle(d, VMPRESS_LEVEL_MEDIUM, true, Breach(now, n + 1), cfg);
            && !b.early && Killed10(b.d, n + 1, now) && AnyKilled(b.attempts)
            && b.d.poll == d.poll.(update := DoNotChange) && b.d.up == d.up.(flag := true)
  {
    hide Thrash, FindAndKill, Elapsed, Shape, FdsOwned, Passes, KillBoost, MinScore, AnyKilled;
    var e := Entered(d, VMPRESS_LEVEL_MEDIUM, true, cfg);
    var r := Breach(now, n + 1);
    var p2 := AfterReclaim(e.psi, r.vm.value, DirectReclaim);
    CalmThrash(p2, r.vm.value, now, cfg);
    var th := Thrash(p2, r.vm.value, now, cfg);
    BreachVerdict(e.wbf, th.p.firstKill,
                  FactsOf(th.p.limit, false, VMPRESS_LEVEL_MEDIUM, true, DirectReclaim, false, th.thrashing, r.vm.value, r.mem.value, r, cfg),
                  now, n + 1, cfg);
    ScanKills(d.reg, cfg.killHeaviest, cfg.debuggable, r.script);
  }

  // ---------- the events of the run ----------

  function Arrival(): Event {
    ClientCommand(1, ProcPrio(Request(10, 0, 1000, PROC_TYPE_APP), Answers(true, true, true, 5, true), false), 0)
  }

  lemma ArrivalStep(cfg: Settings)
    requires Sane(cfg)
    ensures var s := Started(true, cfg);
            && WellFormed(s.d.reg) && Enabled(s, Arrival(), cfg)
            && var t := Step(s, Arrival(), cfg);
               && Ready(t.d.reg) && Calm(t.d, 0) && t.d.poll.poll.None? && t.d.poll.paused.None?
               && t.d.up == Upgrade(0, 0, 0, 0, false) && t.clock == 0 && t.dog == Idle
  {
    hide Shape, FdsOwned;
    var s := Started(true, cfg);
    StepWellFormed(s, Arrival(), cfg);
    assert [10] + s.d.reg.slots[AdjToSlot(1000)] == [10];
  }

  /** A pressure event whose handler kills process 10: polling is paused. */
  lemma KillStep(s: Sys, t: int, n: int, cfg: Settings)
    requires Ready(s.d.reg) && Sane(cfg) && Calm(s.d, n) && s.clock <= t
    ensures var ev := Pressure(VMPRESS_LEVEL_MEDIUM, t, Breach(t, n + 1), t);
            && Enabled(s, ev, cfg) && !Decides(s.d, ev, cfg)
            && AnyKilled(BodyOf(s.d, ev, cfg).attempts)
            && var d := Step(s, ev, cfg).d;
               && Killed10(d, n + 1, t) && d.poll.poll.None? && d.poll.paused == Some(VMPRESS_LEVEL_MEDIUM)
               && d.up == CheckCont(s.d.up, VMPRESS_LEVEL_MEDIUM, t, cfg).(flag := true)
    ensures Step(s, Pressure(VMPRESS_LEVEL_MEDIUM, t, Breach(t, n + 1), t), cfg).clock == t
  {
    hide Handle, CheckCont, Elapsed, Shape, FdsOwned, AnyKilled;
    var ev := Pressure(VMPRESS_LEVEL_MEDIUM, t, Breach(t, n + 1), t);
    KillCycle(Counted(s.d, ev, cfg), t, n, cfg);
  }

  // ---------- what the start leads to ----------

  /** Some run from the start of the daemon leads to s. */
  ghost predicate Reachable(s: Sys, cfg: Settings) {
    exists ss, evs :: IsRun(ss, evs, cfg) && ss[0] == Started(true, cfg) && ss[|evs|] == s
  }

  lemma StartReachable(cfg: Settings)
    requires Sane(cfg)
    ensures Reachable(Started(true, cfg), cfg)
  {
    assert IsRun([Started(true, cfg)], [], cfg);
  }

  lemma NextReachable(s: Sys, ev: Event, cfg: Settings)
    requires Reachable(s, cfg) && Sane(cfg) && WellFormed(s.d.reg) && Enabled(s, ev, cfg)
    ensures Reachable(Step(s, ev, cfg), cfg)
  {
    hide Step, Enabled, WellFormed, Sane;
    var ss, evs :| IsRun(ss, evs, cfg) && ss[0] == Started(true, cfg) && ss[|evs|] == s;
    var (ts, fs) := (ss + [Step(s, ev, cfg)], evs + [ev]);
    forall k | 0 <= k < |fs| ensures StepAt(ts, fs, k, cfg) {
      assert k < |evs| ==> StepAt(ss, evs, k, cfg);
    }
    assert IsRun(ts, fs, cfg);
  }

  lemma ReachableWellFormed(s: Sys, cfg: Settings)
    requires Reachable(s, cfg)
    ensures WellFormed(s.d.reg) && PausedWhileWaiting(s.d)
  {
    hide StepAt, WellFormed;
    var ss, evs :| IsRun(ss, evs, cfg) && ss[0] == Started(true, cfg) && ss[|evs|] == s;
    RunWellFormed(ss, evs, |evs|, cfg);
    RunPauses(ss, evs, |evs|, cfg);
  }

  /** From the start: process 10 registers and is killed, and its death is awaited. */
  lemma KilledFromStart(cfg: Settings) returns (s: Sys)
    requires Sane(cfg)
    ensures Reachable(s, cfg) && WellFormed(s.d.reg) && Waiting(s.d.reg) && PausedWhileWaiting(s.d)
    ensures Killed10(s.d, 1, 0) && s.clock == 0 && s.d.poll.poll.None?
  {
    hide Step, Enabled, Decides, BodyOf, Reachable, CheckCont;
    StartReachable(cfg);
    ArrivalStep(cfg);
    NextReachable(Started(true, cfg), Arrival(), cfg);
    var s1 := Step(Started(true, cfg), Arrival(), cfg);
    KillStep(s1, 0, 0, cfg);
    var ev := Pressure(VMPRESS_LEVEL_MEDIUM, 0, Breach(0, 1), 0);
    NextReachable(s1, ev, cfg);
    s := Step(s1, ev, cfg);
    ReachableWellFormed(s, cfg);
  }
}
