/** The upgrade to critical polling: how events are counted and how far upgrades are apart. */
module UpgradeRuns {
  import opened CInt
  import opened Options
  import opened RegistryModel
  import opened Time
  import opened PsiModel
  import opened DaemonModel
  import opened PollingRuns

  /** The last upgrade decision, how often the reclaim flag was raised, and how many events counted. */
  datatype Trace = Trace(since: Option<int>, raised: nat, counted: nat)

  /** The handler run by this event decides to upgrade. */
  predicate Decides(d: Daemon, ev: Event, cfg: Settings)
    requires WellFormed(d.reg) && Sane(cfg)
  {
    RunsHandler(d, ev)
    && PsiCycle(Counted(d, ev, cfg), LevelOf(d, ev), ev.Pressure?, ev.r, cfg).poll.update == CritUpgrade
  }

  function TraceStep(tr: Trace, d: Daemon, ev: Event, cfg: Settings): Trace
    requires WellFormed(d.reg) && Sane(cfg)
  {
    if !RunsHandler(d, ev) then tr
    else
      var u := Counted(d, ev, cfg).up;
      var raisedNow := !u.flag && BodyOf(d, ev, cfg).d.up.flag;
      var countedNow := d.up.flag && !u.flag;
      Trace(if Decides(d, ev, cfg) then ev.r.now else tr.since,
            tr.raised + (if raisedNow then 1 else 0), tr.counted + (if countedNow then 1 else 0))
  }

  /** The nanoseconds in n windows. */
  function Windows(n: int, cfg: Settings): int {
    n * (cfg.windowMs * NS_PER_MS)
  }

  lemma WindowsNext(n: int, cfg: Settings)
    ensures Windows(n + 1, cfg) == Windows(n, cfg) + cfg.windowMs * NS_PER_MS
    ensures Windows(0, cfg) == 0
  {
  }

  /**
   The events counted since the last upgrade are each more than a window after the one before,
   and every counted event used up one raising of the flag.
   */
  predicate Spaced(u: Upgrade, tr: Trace, clock: int, cfg: Settings) {
    && u.count >= 0 && u.tupgrad <= clock && u.tmed <= clock && u.tcrit <= clock
    && (cfg.windowMs == 0 ==> u.count == 0)
    && (tr.since.Some? ==> tr.since.value <= clock)
    && (tr.since.Some? && u.count >= 1 ==>
          u.tupgrad - tr.since.value >= Windows(u.count - 1, cfg))
    && (tr.since.Some? && u.count >= 2 ==>
          u.tupgrad - tr.since.value > Windows(u.count - 1, cfg))
    && tr.counted + (if u.flag then 1 else 0) == tr.raised
  }

  lemma CountSpaced(u: Upgrade, level: int, now: int, tr: Trace, clock: int, cfg: Settings)
    requires Spaced(u, tr, clock, cfg) && clock <= now
    ensures var v := CheckCont(u, level, now, cfg);
            Spaced(v, tr.(counted := tr.counted + if u.flag && !v.flag then 1 else 0), now, cfg)
  {
    var v := CheckCont(u, level, now, cfg);
    ElapsedForward(u.tmed, now);
    ElapsedForward(u.tcrit, now);
    if v.count == u.count + 1 {
      MeasuredMoreThan(u.tupgrad, now, cfg.windowMs);
    }
    WindowsNext(u.count - 1, cfg);
    hide Elapsed, Windows;
  }

  /** The handler leaves the counter alone, may raise the flag, and resets the counter on an upgrade. */
  lemma CycleCount(d: Daemon, level: int, events: bool, r: Reading, cfg: Settings)
    requires WellFormed(d.reg) && Sane(cfg)
    ensures var b := Handle(d, level, events, r, cfg);
            var e := PsiCycle(d, level, events, r, cfg);
            && b.d.up in {d.up, d.up.(flag := true)}
            && (if e.poll.update == CritUpgrade
                then r.now.Some? && d.up.count >= cfg.contThresh && e.up == b.d.up.(count := 0)
                else e.up == b.d.up)
  {
    hide Handle, WellFormed, Finish, SystemIdle, FirstDecision;
    HandleCount(d, level, events, r, cfg);
    HandleReg(d, level, events, r, cfg);
    EarlyIff(d, level, events, r, cfg);
    var b := Handle(d, level, events, r, cfg);
    FinishKeeps(b.d, level, events, b.rs, b.swapIsLow, cfg);
  }

  lemma CountedSpaced(s: Sys, ev: Event, tr: Trace, cfg: Settings)
    requires WellFormed(s.d.reg) && Sane(cfg) && Enabled(s, ev, cfg) && RunsHandler(s.d, ev) && Spaced(s.d.up, tr, s.clock, cfg)
    ensures var u := Counted(s.d, ev, cfg).up;
            var at := if ev.Pressure? then ev.checkTm else s.clock;
            && Spaced(u, tr.(counted := tr.counted + if s.d.up.flag && !u.flag then 1 else 0), at, cfg)
            && at <= ClockAfter(s.clock, ev) && (ev.r.now.Some? ==> at <= ev.r.now.value <= ClockAfter(s.clock, ev))
  {
    if ev.Pressure? {
      CountSpaced(s.d.up, ev.level, ev.checkTm, tr, s.clock, cfg);
    }
  }

  lemma StepSpaced(s: Sys, ev: Event, tr: Trace, cfg: Settings)
    requires WellFormed(s.d.reg) && Sane(cfg) && Enabled(s, ev, cfg) && Spaced(s.d.up, tr, s.clock, cfg)
    ensures Spaced(Step(s, ev, cfg).d.up, TraceStep(tr, s.d, ev, cfg), Step(s, ev, cfg).clock, cfg)
  {
    hide Handle, PsiCycle, RunCommand, WellFormed, Elapsed, CheckCont;
    if RunsHandler(s.d, ev) {
      CountedSpaced(s, ev, tr, cfg);
      CycleCount(Counted(s.d, ev, cfg), LevelOf(s.d, ev), ev.Pressure?, ev.r, cfg);
    } else {
      assert Step(s, ev, cfg).d.up == s.d.up;
    }
  }

  /** The threshold and the window for which two upgrades never are exactly at the bound. */
  predicate StrictFor(cfg: Settings) {
    cfg.contThresh >= 2 || (cfg.contThresh == 1 && cfg.windowMs == 0) || (cfg.contThresh <= 0 && cfg.windowMs > 0)
  }

  /** Two successive upgrade decisions are at least (threshold - 1) windows apart in exact time. */
  lemma UpgradesApart(s: Sys, ev: Event, tr: Trace, cfg: Settings)
    requires WellFormed(s.d.reg) && Sane(cfg) && Enabled(s, ev, cfg) && Spaced(s.d.up, tr, s.clock, cfg)
    requires tr.since.Some? && Decides(s.d, ev, cfg)
    ensures ev.r.now.Some?
    ensures var gap := ev.r.now.value - tr.since.value;
            var bound := Windows(cfg.contThresh - 1, cfg);
            gap >= bound && (StrictFor(cfg) ==> gap > bound)
  {
    hide Handle, PsiCycle, RunCommand, WellFormed, Elapsed, CheckCont;
    CountedSpaced(s, ev, tr, cfg);
    var d := Counted(s.d, ev, cfg);
    CycleCount(d, LevelOf(s.d, ev), ev.Pressure?, ev.r, cfg);
    if cfg.contThresh >= 1 {
      Scaled(cfg.contThresh - 1, d.up.count - 1, cfg.windowMs * NS_PER_MS);
    } else {
      Scaled(cfg.contThresh - 1, -1, cfg.windowMs * NS_PER_MS);
    }
  }

  // ---------- every run ----------

  /** `trs` is the history of the run. */
  ghost predicate Traces(ss: seq<Sys>, evs: seq<Event>, trs: seq<Trace>, cfg: Settings) {
    |ss| == |evs| + 1 && |trs| == |ss| && forall k :: 0 <= k < |evs| ==> TracesAt(ss, evs, trs, k, cfg)
  }

  ghost predicate TracesAt(ss: seq<Sys>, evs: seq<Event>, trs: seq<Trace>, k: int, cfg: Settings)
    requires |ss| == |evs| + 1 && |trs| == |ss|
  {
    && 0 <= k < |evs| && WellFormed(ss[k].d.reg) && Sane(cfg)
    && trs[k + 1] == TraceStep(trs[k], ss[k].d, evs[k], cfg)
  }

  lemma {:induction false} RunSpaced(ss: seq<Sys>, evs: seq<Event>, trs: seq<Trace>, k: nat, cfg: Settings)
    requires IsRun(ss, evs, cfg) && Traces(ss, evs, trs, cfg) && k <= |evs|
    requires Spaced(ss[0].d.up, trs[0], ss[0].clock, cfg)
    ensures Spaced(ss[k].d.up, trs[k], ss[k].clock, cfg)
  {
    hide Step, WellFormed, Enabled, Spaced, TraceStep;
    if k > 0 {
      RunSpaced(ss, evs, trs, k - 1, cfg);
      RunStep(ss, evs, k - 1, cfg);
      assert TracesAt(ss, evs, trs, k - 1, cfg);
      StepSpaced(ss[k - 1], evs[k - 1], trs[k - 1], cfg);
    }
  }

  lemma BootSpaced(pidfdSupported: bool, cfg: Settings)
    ensures Spaced(Boot(pidfdSupported, cfg).up, Trace(None, 0, 0), 0, cfg)
  {
  }

  /** Event k of a run from the start decides to upgrade, and an earlier one did. */
  ghost predicate UpgradesAgain(ss: seq<Sys>, evs: seq<Event>, trs: seq<Trace>, k: nat, pidfdSupported: bool, cfg: Settings) {
    && IsRun(ss, evs, cfg) && Traces(ss, evs, trs, cfg) && k < |evs|
    && ss[0] == Started(pidfdSupported, cfg) && trs[0] == Trace(None, 0, 0) && trs[k].since.Some?
    && StepAt(ss, evs, k, cfg) && Decides(ss[k].d, evs[k], cfg)
  }

  /** On every run from the start, an upgrade decision is that far from the one before it. */
  lemma RunUpgradesApart(ss: seq<Sys>, evs: seq<Event>, trs: seq<Trace>, k: nat, pidfdSupported: bool, cfg: Settings)
    requires UpgradesAgain(ss, evs, trs, k, pidfdSupported, cfg)
    ensures evs[k].r.now.Some?
    ensures var gap := evs[k].r.now.value - trs[k].since.value;
            var bound := Windows(cfg.contThresh - 1, cfg);
            gap >= bound && (StrictFor(cfg) ==> gap > bound)
  {
    BootSpaced(pidfdSupported, cfg);
    RunSpaced(ss, evs, trs, k, cfg);
    RunStep(ss, evs, k, cfg);
    assert RunsHandler(ss[k].d, evs[k]);
    hide Step, WellFormed, Enabled, Spaced, TraceStep, Decides;
    UpgradesApart(ss[k], evs[k], trs[k], cfg);
  }
}
