/** Concrete inputs on which the daemon does not do what one would expect of it. */
module Instances {
  import opened RegistryModel
  import opened SelectionModel
  import opened Time
  import opened PsiModel
  import opened DaemonModel
  import DescriptorRuns
  import PollingRuns
  import UpgradeRuns
  import UpgradeExact
  import opened KillRun

  /** Process 10, registered with descriptor 5 at adj 900; `allocOk` as the allocator answers. */
  function OneProcess(allocOk: bool): State {
    ApplyProcPrio(Init(true), Request(10, 0, 900, PROC_TYPE_APP), 1, false, Answers(true, true, true, 5, allocOk))
  }

  lemma OneProcessIs()
    ensures WellFormed(OneProcess(true)) && OneProcess(true).recs == map[10 := Rec(5, 0, 900, 1, true)]
    ensures OneProcess(true).openFds == {5} && OneProcess(true).strayCloses == 0
  {
    RegisterWellFormed(Init(true), Request(10, 0, 900, PROC_TYPE_APP), 1, false, Answers(true, true, true, 5, true));
  }

  /** A refused epoll registration, or a refused signal, closes descriptor 5 twice. */
  lemma ClosedTwice()
    ensures WellFormed(OneProcess(true)) && 10 in OneProcess(true).recs
    ensures KillOne(OneProcess(true), 10, Probe(true, 100, 0, false, true)).st.strayCloses == 1
    ensures KillOne(OneProcess(true), 10, Probe(true, 100, 0, true, false)).st.strayCloses == 1
    ensures KillOne(OneProcess(true), 10, Probe(true, 100, 0, true, true)).st.strayCloses == 0
  {
    OneProcessIs();
    hide OneProcess, KillOne, Shape;
    KillOneFds(OneProcess(true), 10, Probe(true, 100, 0, false, true));
    KillOneFds(OneProcess(true), 10, Probe(true, 100, 0, true, false));
    KillOneFds(OneProcess(true), 10, Probe(true, 100, 0, true, true));
  }

  /** A failed allocation leaves descriptor 5 open with no record that owns it. */
  lemma LeftOpen()
    ensures OneProcess(false).recs == map[] && OneProcess(false).openFds == {5}
    ensures !DescriptorRuns.Exact(OneProcess(false)) && DescriptorRuns.Exact(OneProcess(true))
  {
    OneProcessIs();
    assert 5 !in OwnedFds(OneProcess(false));
    assert OneProcess(true).recs[10].pidfd == 5;
    assert OwnedFds(OneProcess(true)) == {5};
  }

  /**
   From the start: a death is awaited in state s, and a pressure event after the timeout, for which
   vmstat cannot be read, leaves neither a wait nor polling.
   */
  lemma PollingLeftOff(cfg: Settings) returns (s: Sys, ev: Event)
    requires Sane(cfg) && cfg.killTimeoutMs > 0
    ensures Reachable(s, cfg) && WellFormed(s.d.reg) && Waiting(s.d.reg) && Enabled(s, ev, cfg) && ev.Pressure?
    ensures var d := Step(s, ev, cfg).d; !Waiting(d.reg) && d.poll.poll.None?
  {
    hide Handle, Elapsed, Reachable, Shape, FdsOwned;
    s := KilledFromStart(cfg);
    var t := cfg.killTimeoutMs * NS_PER_MS;
    ev := Pressure(VMPRESS_LEVEL_MEDIUM, t, UpgradeExact.Blind(t), t);
    UpgradeExact.ElapsedMs(0, cfg.killTimeoutMs);
    PollingRuns.PressureEndsWait(s, ev, cfg);
  }

  /** From the start: a stall, then an event that is counted and kills, two windows after the start. */
  lemma CountedAndKilled(cfg: Settings) returns (s: Sys)
    requires Sane(cfg) && cfg.windowMs >= 2
    requires cfg.contThresh >= 1
    ensures Reachable(s, cfg) && WellFormed(s.d.reg) && PollingRuns.PausedWhileWaiting(s.d)
    ensures Killed10(s.d, 2, 2 * cfg.windowMs * NS_PER_MS) && s.clock == 2 * cfg.windowMs * NS_PER_MS && s.d.up.count == 1
  {
    var (t1, t2) := (cfg.windowMs * NS_PER_MS, 2 * cfg.windowMs * NS_PER_MS);
    UpgradeExact.ElapsedMs(0, 2 * cfg.windowMs);
    UpgradeExact.ElapsedMs(t1, cfg.windowMs);
    hide Step, UpgradeRuns.Decides, BodyOf, Reachable, Elapsed, Shape, FdsOwned, Started;
    StartReachable(cfg);
    ArrivalStep(cfg);
    NextReachable(Started(true, cfg), Arrival(), cfg);
    var s1 := Step(Started(true, cfg), Arrival(), cfg);
    var e1 := Pressure(VMPRESS_LEVEL_MEDIUM, t1, UpgradeExact.Look(t1, 1, true), t1);
    UpgradeExact.DirectStep(s1, e1, 0, cfg);
    UpgradeExact.StepClock(s1, e1, cfg);
    NextReachable(s1, e1, cfg);
    var s2 := Step(s1, e1, cfg);
    KillStep(s2, t2, 1, cfg);
    var e2 := Pressure(VMPRESS_LEVEL_MEDIUM, t2, Breach(t2, 2), t2);
    NextReachable(s2, e2, cfg);
    s := Step(s2, e2, cfg);
    ReachableWellFormed(s, cfg);
  }

  /** At threshold 1 an event at the highest level does so too, by its upgrade. */
  lemma PollingLeftOffByUpgrade(cfg: Settings) returns (s: Sys, ev: Event)
    requires Sane(cfg) && cfg.killTimeoutMs > 0 && cfg.contThresh == 1 && cfg.windowMs >= 2
    ensures Reachable(s, cfg) && WellFormed(s.d.reg) && Waiting(s.d.reg) && Enabled(s, ev, cfg) && ev.Pressure?
    ensures !PollingRuns.ReadFails(Counted(s.d, ev, cfg), ev.level, true, ev.r, cfg)
    ensures var d := Step(s, ev, cfg).d; !Waiting(d.reg) && d.poll.poll.None?
  {
    hide Handle, Elapsed, Reachable, Shape, FdsOwned;
    s := CountedAndKilled(cfg);
    var t := s.clock + cfg.killTimeoutMs * NS_PER_MS;
    ev := Pressure(VMPRESS_LEVEL_SUPER_CRITICAL, t, UpgradeExact.Look(t, 2, false), t);
    UpgradeExact.ElapsedMs(s.clock, cfg.killTimeoutMs);
    IdleNobody(s.d, ev.level, t, 2, cfg);
    PollingRuns.EarlyIff(s.d, ev.level, true, ev.r, cfg);
    PollingRuns.PressureEndsWait(s, ev, cfg);
  }

  lemma IdleNobody(d: Daemon, level: int, now: int, n: int, cfg: Settings)
    requires WellFormed(d.reg) && Sane(cfg) && UpgradeExact.Steady(d.psi, n)
    ensures var b := Handle(d, level, true, UpgradeExact.Look(now, n, false), cfg); b.attempts == [] && !b.early
  {
    hide Thrash, FindAndKill, Elapsed, Passes, Shape, FdsOwned;
  }

  /** From the start: the wait times out in the main loop, and the failure reported later turns polling off. */
  lemma FailureAfterTimeout(cfg: Settings) returns (s: Sys, later: Event)
    requires Sane(cfg) && cfg.killTimeoutMs > 0
    ensures Reachable(s, cfg) && WellFormed(s.d.reg) && s.d.poll.poll.Some?
    ensures later.FailureNotice? && Enabled(s, later, cfg) && Step(s, later, cfg).d.poll.poll.None?
  {
    var killed := KilledFromStart(cfg);
    var t := cfg.killTimeoutMs * NS_PER_MS;
    UpgradeExact.ElapsedMs(0, 0);
    hide Elapsed, Reachable, Shape, FdsOwned;
    assert Enabled(killed, LoopTimeout(0, t), cfg);
    PollingRuns.LateFailureCancels(killed, 0, t, 10, t, cfg);
    NextReachable(killed, LoopTimeout(0, t), cfg);
    s, later := Step(killed, LoopTimeout(0, t), cfg), FailureNotice(10, t);
  }
}
