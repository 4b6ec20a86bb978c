/**
 What the count of contiguous events is, on every run: the events counted since the last upgrade,
 the last gap between two events of one level, or the last event for which no stall was seen.
 */
module UpgradeCount {
  import opened RegistryModel
  import opened SelectionModel
  import opened Watermark
  import opened Time
  import opened PsiModel
  import opened DaemonModel
  import opened UpgradeRuns

  // ---------- what the events say ----------

  /** The event is one of those that are looked at: at level medium or critical. */
  predicate LookedAt(ev: Event) {
    ev.Pressure? && (ev.level == VMPRESS_LEVEL_MEDIUM || ev.level == VMPRESS_LEVEL_CRITICAL)
  }

  /** When the last event of this level came before event k, 0 if none did. */
  function LastOf(evs: seq<Event>, level: int, k: nat): int
    requires k <= |evs|
  {
    if k == 0 then 0
    else if evs[k - 1].Pressure? && evs[k - 1].level == level then evs[k - 1].checkTm
    else LastOf(evs, level, k - 1)
  }

  /** One and a half windows or more have passed since the last event of the same level. */
  predicate Gap(evs: seq<Event>, k: nat, cfg: Settings)
    requires k < |evs|
  {
    LookedAt(evs[k]) && Elapsed(LastOf(evs, evs[k].level, k), evs[k].checkTm) >= cfg.windowMs * 3 / 2
  }

  /** The handler run by the event finds a stall in direct reclaim, below the critical level. */
  ghost predicate SeesStall(s: Sys, ev: Event, cfg: Settings) {
    && WellFormed(s.d.reg) && Sane(cfg) && RunsHandler(s.d, ev)
    && var b := BodyOf(s.d, ev, cfg);
       b.thrashed.Some? && b.rs.IsDirect() && LevelOf(s.d, ev) < VMPRESS_LEVEL_CRITICAL && ev.r.first.Some?
  }

  /** The event comes more than a window after the last one counted, and after no gap. */
  ghost predicate Due(ss: seq<Sys>, evs: seq<Event>, k: nat, cfg: Settings)
    requires |ss| == |evs| + 1 && k < |evs|
    decreases k, 1
  {
    LookedAt(evs[k]) && !Gap(evs, k, cfg) && Elapsed(LastCounted(ss, evs, k, cfg), evs[k].checkTm) > cfg.windowMs
  }

  /** The event is counted: it is due, and a stall was seen since the last one counted. */
  ghost predicate Counts(ss: seq<Sys>, evs: seq<Event>, k: nat, cfg: Settings)
    requires |ss| == |evs| + 1 && k < |evs|
    decreases k, 2
  {
    Due(ss, evs, k, cfg) && StallSeen(ss, evs, k, cfg)
  }

  /** When the last event counted before event k came, 0 if none was. */
  ghost function LastCounted(ss: seq<Sys>, evs: seq<Event>, k: nat, cfg: Settings): int
    requires |ss| == |evs| + 1 && k <= |evs|
    decreases k, 0
  {
    if k == 0 then 0
    else if evs[k - 1].Pressure? && Counts(ss, evs, k - 1, cfg) then evs[k - 1].checkTm
    else LastCounted(ss, evs, k - 1, cfg)
  }

  /** A stall was seen by the event counted last or by one after it, before event k. */
  ghost predicate StallSeen(ss: seq<Sys>, evs: seq<Event>, k: nat, cfg: Settings)
    requires |ss| == |evs| + 1 && k <= |evs|
    decreases k, 0
  {
    k > 0 && (SeesStall(ss[k - 1], evs[k - 1], cfg)
              || (!Counts(ss, evs, k - 1, cfg) && StallSeen(ss, evs, k - 1, cfg)))
  }

  /** The event ends the chain: it comes after a gap, or is due without a stall seen. */
  ghost predicate Breaks(ss: seq<Sys>, evs: seq<Event>, k: nat, cfg: Settings)
    requires |ss| == |evs| + 1 && k < |evs|
  {
    Gap(evs, k, cfg) || (Due(ss, evs, k, cfg) && !StallSeen(ss, evs, k, cfg))
  }

  ghost predicate Upgrades(s: Sys, ev: Event, cfg: Settings) {
    WellFormed(s.d.reg) && Sane(cfg) && Decides(s.d, ev, cfg)
  }

  /** The number of events counted from event b on, before event k. */
  ghost function NumCounted(ss: seq<Sys>, evs: seq<Event>, b: nat, k: nat, cfg: Settings): nat
    requires |ss| == |evs| + 1 && b <= k <= |evs|
  {
    if b == k then 0
    else NumCounted(ss, evs, b, k - 1, cfg) + if Counts(ss, evs, k - 1, cfg) then 1 else 0
  }

  // ---------- one step ----------

  lemma HandleFlag(d: Daemon, level: int, events: bool, r: Reading, cfg: Settings)
    requires WellFormed(d.reg) && Sane(cfg)
    ensures var b := Handle(d, level, events, r, cfg);
            var seen := b.thrashed.Some? && b.rs.IsDirect() && level < VMPRESS_LEVEL_CRITICAL && r.first.Some?;
            b.d.up == if seen then d.up.(flag := true) else d.up
  {
    hide FindAndKill, AfterScan, StopWait, WellFormed, Thrash, Passes, ReclaimState, AfterKill, AfterReclaim, FactsOf, MinScore, KillBoost;
    StopWaitWellFormed(d.reg);
    if r.now.Some? && r.vm.Some? && r.mem.Some? {
      var e := Entered(d, level, events, cfg);
      PrepareMin(e.psi, e.up, e.wbf, level, events, r.now.value, r.vm.value, r.mem.value, r, cfg);
    }
  }

  /** What a step makes of the counter and its times. */
  lemma UpStep(s: Sys, ev: Event, cfg: Settings)
    requires WellFormed(s.d.reg) && Sane(cfg) && Enabled(s, ev, cfg)
    ensures var (u, v) := (Counted(s.d, ev, cfg).up, Step(s, ev, cfg).d.up);
            && v.tmed == u.tmed && v.tcrit == u.tcrit && v.tupgrad == u.tupgrad
            && v.flag == (u.flag || SeesStall(s, ev, cfg))
            && v.count == (if Upgrades(s, ev, cfg) then 0 else u.count)
            && (Upgrades(s, ev, cfg) ==> u.count >= cfg.contThresh)
  {
    hide Handle, PsiCycle, RunCommand, WellFormed, Elapsed, CheckCont;
    if RunsHandler(s.d, ev) {
      var d := Counted(s.d, ev, cfg);
      CycleCount(d, LevelOf(s.d, ev), ev.Pressure?, ev.r, cfg);
      HandleFlag(d, LevelOf(s.d, ev), ev.Pressure?, ev.r, cfg);
    }
  }

  /** The counter's times and its flag are what the events say. */
  ghost predicate Tracks(ss: seq<Sys>, evs: seq<Event>, k: nat, cfg: Settings)
    requires |ss| == |evs| + 1 && k <= |evs|
  {
    var u := ss[k].d.up;
    && u.tmed == LastOf(evs, VMPRESS_LEVEL_MEDIUM, k) && u.tcrit == LastOf(evs, VMPRESS_LEVEL_CRITICAL, k)
    && u.tupgrad == LastCounted(ss, evs, k, cfg) && u.flag == StallSeen(ss, evs, k, cfg)
  }

  /** Counting the event, where the times and the flag are what the events say. */
  lemma CountStep(ss: seq<Sys>, evs: seq<Event>, k: nat, cfg: Settings)
    requires |ss| == |evs| + 1 && k < |evs| && Tracks(ss, evs, k, cfg)
    ensures var (u, v) := (ss[k].d.up, Counted(ss[k].d, evs[k], cfg).up);
            && v.tmed == LastOf(evs, VMPRESS_LEVEL_MEDIUM, k + 1) && v.tcrit == LastOf(evs, VMPRESS_LEVEL_CRITICAL, k + 1)
            && v.tupgrad == LastCounted(ss, evs, k + 1, cfg) && v.flag == (u.flag && !Counts(ss, evs, k, cfg))
            && v.count == if Breaks(ss, evs, k, cfg) then 0
                          else if Counts(ss, evs, k, cfg) then u.count + 1 else u.count
  {
    hide Elapsed;
    var ev := evs[k];
    assert Counts(ss, evs, k, cfg) <==> Due(ss, evs, k, cfg) && ss[k].d.up.flag;
    if LookedAt(ev) {
      assert Due(ss, evs, k, cfg) <==> !Gap(evs, k, cfg) && Elapsed(ss[k].d.up.tupgrad, ev.checkTm) > cfg.windowMs;
    }
  }

  lemma TracksStep(ss: seq<Sys>, evs: seq<Event>, k: nat, cfg: Settings)
    requires |ss| == |evs| + 1 && k < |evs| && Goes(ss[k], evs[k], ss[k + 1], cfg) && Tracks(ss, evs, k, cfg)
    ensures Tracks(ss, evs, k + 1, cfg)
    ensures var (n, m) := (ss[k].d.up.count, ss[k + 1].d.up.count);
            m == if Upgrades(ss[k], evs[k], cfg) || Breaks(ss, evs, k, cfg) then 0
                 else if Counts(ss, evs, k, cfg) then n + 1 else n
  {
    CountStep(ss, evs, k, cfg);
    UpStep(ss[k], evs[k], cfg);
    hide Counts, LastOf, SeesStall, Upgrades, Breaks, Counted, Step, WellFormed, Enabled;
  }

  lemma {:induction false} RunTracks(ss: seq<Sys>, evs: seq<Event>, k: nat, pidfdSupported: bool, cfg: Settings)
    requires IsRun(ss, evs, cfg) && ss[0] == Started(pidfdSupported, cfg) && k <= |evs|
    ensures Tracks(ss, evs, k, cfg)
  {
    hide Goes, Tracks;
    if k == 0 {
      TracksStart(ss, evs, pidfdSupported, cfg);
    } else {
      RunTracks(ss, evs, k - 1, pidfdSupported, cfg);
      RunStep(ss, evs, k - 1, cfg);
      TracksStep(ss, evs, k - 1, cfg);
    }
  }

  lemma TracksStart(ss: seq<Sys>, evs: seq<Event>, pidfdSupported: bool, cfg: Settings)
    requires |ss| == |evs| + 1 && ss[0] == Started(pidfdSupported, cfg)
    ensures Tracks(ss, evs, 0, cfg)
  {
  }

  // ---------- every run ----------

  /** Event m neither upgrades nor breaks the chain. */
  ghost predicate GoesOn(ss: seq<Sys>, evs: seq<Event>, m: nat, cfg: Settings)
    requires |ss| == |evs| + 1 && m < |evs|
  {
    !Upgrades(ss[m], evs[m], cfg) && !Breaks(ss, evs, m, cfg)
  }

  /** The chain that event k may go on with began with event b: after an upgrade, a break or the start. */
  ghost predicate Chain(ss: seq<Sys>, evs: seq<Event>, b: nat, k: nat, cfg: Settings)
    requires |ss| == |evs| + 1 && k <= |evs|
  {
    && b <= k && (b == 0 || !GoesOn(ss, evs, b - 1, cfg))
    && (forall m :: b <= m < k ==> GoesOn(ss, evs, m, cfg))
  }

  /** On every run the count is the number of events counted in the chain. */
  lemma {:induction false} CountIs(ss: seq<Sys>, evs: seq<Event>, k: nat, pidfdSupported: bool, cfg: Settings)
    returns (b: nat)
    requires IsRun(ss, evs, cfg) && ss[0] == Started(pidfdSupported, cfg) && k <= |evs|
    ensures Chain(ss, evs, b, k, cfg) && ss[k].d.up.count == NumCounted(ss, evs, b, k, cfg)
  {
    hide Goes, Tracks, Upgrades, Breaks, Counts;
    b := 0;
    if k > 0 {
      var c := CountIs(ss, evs, k - 1, pidfdSupported, cfg);
      RunTracks(ss, evs, k - 1, pidfdSupported, cfg);
      RunStep(ss, evs, k - 1, cfg);
      TracksStep(ss, evs, k - 1, cfg);
      b := if GoesOn(ss, evs, k - 1, cfg) then c else k;
    }
  }

  /**
   On every run, an upgrade has as many counted events behind it as the threshold asks for, with no
   break between them: from the first of them on, no event of either level came one and a half
   windows or more after the one before it of its level, and a stall was seen whenever one was due.
   */
  lemma UpgradeIsContiguous(ss: seq<Sys>, evs: seq<Event>, k: nat, pidfdSupported: bool, cfg: Settings) returns (b: nat)
    requires IsRun(ss, evs, cfg) && ss[0] == Started(pidfdSupported, cfg) && k < |evs| && Upgrades(ss[k], evs[k], cfg)
    ensures b <= k + 1 && NumCounted(ss, evs, b, k + 1, cfg) >= cfg.contThresh
    ensures forall m :: b <= m <= k ==> !Gap(evs, m, cfg) && !Breaks(ss, evs, m, cfg)
    ensures forall m :: b <= m < k ==> !Upgrades(ss[m], evs[m], cfg)
  {
    hide Goes, Upgrades, Counts, Gap, StallSeen, Due;
    b := CountIs(ss, evs, k, pidfdSupported, cfg);
    RunTracks(ss, evs, k, pidfdSupported, cfg);
    RunStep(ss, evs, k, cfg);
    UpgradeCounts(ss, evs, k, cfg);
    if Breaks(ss, evs, k, cfg) {
      b := k + 1;
    } else {
      assert NumCounted(ss, evs, b, k + 1, cfg)
             == NumCounted(ss, evs, b, k, cfg) + if Counts(ss, evs, k, cfg) then 1 else 0;
      forall m | b <= m <= k ensures !Gap(evs, m, cfg) && !Breaks(ss, evs, m, cfg) {
        assert m < k ==> GoesOn(ss, evs, m, cfg);
      }
      forall m | b <= m < k ensures !Upgrades(ss[m], evs[m], cfg) {
        assert GoesOn(ss, evs, m, cfg);
      }
    }
  }

  lemma UpgradeCounts(ss: seq<Sys>, evs: seq<Event>, k: nat, cfg: Settings)
    requires |ss| == |evs| + 1 && k < |evs| && Goes(ss[k], evs[k], ss[k + 1], cfg) && Tracks(ss, evs, k, cfg)
    requires Upgrades(ss[k], evs[k], cfg)
    ensures cfg.contThresh <= if Breaks(ss, evs, k, cfg) then 0
                              else ss[k].d.up.count + if Counts(ss, evs, k, cfg) then 1 else 0
  {
    hide Counts, Breaks, Counted, Step, WellFormed, Enabled;
    CountStep(ss, evs, k, cfg);
    UpStep(ss[k], evs[k], cfg);
  }
}
