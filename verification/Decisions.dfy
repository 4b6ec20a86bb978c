/**
 What the decision of the pressure handler means: which reason wins, whom each reason puts at
 risk, what a second look may change, and what is measured before and after a kill.
 */
module Decisions {
  import opened CInt
  import opened Options
  import opened RegistryModel
  import opened SelectionModel
  import opened Watermark
  import opened Time
  import opened PsiModel
  import opened DaemonModel

  // ---------- which reason wins ----------

  /** The condition each reason stands for, whatever else holds; `checking` is the file cache check. */
  predicate Holds(reason: Reason, checking: bool, w: Level, f: Facts, cfg: Settings) {
    match reason
    case NoReason => false
    case PressureAfterKill => f.cycleAfterKill && w in {WmarkMin, WmarkLow}
    case DirectReclAndThrot => f.rs == DirectThrottle
    case NotResponding => f.events && f.level in {VMPRESS_LEVEL_CRITICAL, VMPRESS_LEVEL_SUPER_CRITICAL} && w != WmarkNone
    case LowSwapAndThrashing => f.mem.swapIsLow && f.thrashing > cfg.limitPct
    case LowMemAndSwap => f.mem.swapIsLow && w != WmarkNone
    case LowMemAndSwapUtil => w in {WmarkMin, WmarkLow} && cfg.swapUtilMax < 100 && f.mem.swapUtil > cfg.swapUtilMax
    case LowMemAndThrashing => w != WmarkNone && f.thrashing > f.limit
    case DirectReclAndThrashing => f.rs == DirectReclaim && f.thrashing > f.limit
    case DirectReclStuck => f.rs == DirectReclaim && f.directMs > cfg.directThresholdMs > 0
    case LowFilecacheAfterThrashing => checking && f.fileKb < cfg.filecacheMinKb
    case Compaction => f.compaction && w != WmarkNone
    case LowMem => w in {WmarkMin, WmarkLow}
  }

  /** The order in which reasons win over each other. */
  function Priority(reason: Reason): nat {
    match reason
    case PressureAfterKill => 1
    case DirectReclAndThrot => 2
    case NotResponding => 3
    case LowSwapAndThrashing => 4
    case LowMemAndSwap => 5
    case LowMemAndSwapUtil => 6
    case LowMemAndThrashing => 7
    case DirectReclAndThrashing => 8
    case DirectReclStuck => 9
    case LowFilecacheAfterThrashing => 10
    case Compaction => 11
    case LowMem => 12
    case NoReason => 13
  }

  /** `reason` holds and none of higher priority does; NoReason, if none holds at all. */
  ghost predicate Wins(reason: Reason, checking: bool, w: Level, f: Facts, cfg: Settings) {
    && (reason == NoReason || Holds(reason, checking, w, f, cfg))
    && (forall q :: Holds(q, checking, w, f, cfg) ==> Priority(reason) <= Priority(q))
  }

  /** The winner would be compaction, but the file cache is still being checked and is large enough. */
  ghost predicate Masked(checking: bool, w: Level, f: Facts, cfg: Settings) {
    checking && Wins(Compaction, checking, w, f, cfg)
  }

  lemma WinsOnce(a: Reason, b: Reason, checking: bool, w: Level, f: Facts, cfg: Settings)
    requires Wins(a, checking, w, f, cfg) && Wins(b, checking, w, f, cfg)
    ensures a == b
  {
    assert a != NoReason ==> Priority(b) <= Priority(a);
    assert b != NoReason ==> Priority(a) <= Priority(b);
  }

  function Undecided(checking: bool): Decision {
    Decision(NoReason, 0, false, checking)
  }

  /**
   A look at the watermarks decides for the reason of highest priority that holds, and for none
   exactly if none holds, unless that reason is compaction and the check of the file cache, passed
   in the same look, takes its place.
   */
  lemma HighestReasonWins(checking: bool, w: Level, f: Facts, cfg: Settings)
    ensures var reason := Decide(Undecided(checking), w, f, cfg).reason;
            && (Wins(reason, checking, w, f, cfg) <==> !Masked(checking, w, f, cfg))
            && (Masked(checking, w, f, cfg) ==> reason == if w.Rank() < WmarkHigh.Rank() then LowMem else NoReason)
  {
    var reason := Decide(Undecided(checking), w, f, cfg).reason;
    if checking && reason in {LowMem, NoReason} && Holds(Compaction, checking, w, f, cfg) {
      assert Wins(Compaction, checking, w, f, cfg);
    }
    if Masked(checking, w, f, cfg) && Wins(reason, checking, w, f, cfg) {
      WinsOnce(reason, Compaction, checking, w, f, cfg);
    }
  }

  /** Such a look: compaction below the high watermark, file cache checked and large: no kill. */
  lemma MaskedCompaction(cfg: Settings)
    requires cfg.filecacheMinKb <= 0
    ensures var f := Facts(false, 0, true, NoReclaim, true, 0, 0, Mem(false, 0), 0, 0);
            && Masked(true, WmarkHigh, f, cfg)
            && Decide(Undecided(true), WmarkHigh, f, cfg).reason == NoReason
            && Decide(Undecided(false), WmarkHigh, f, cfg).reason == Compaction
  {
    var f := Facts(false, 0, true, NoReclaim, true, 0, 0, Mem(false, 0), 0, 0);
    assert Holds(Compaction, true, WmarkHigh, f, cfg);
  }

  // ---------- whom a reason puts at risk ----------

  /** The lowest adj a look that decides for `reason` puts at risk. */
  function Floor(reason: Reason, w: Level, f: Facts, cfg: Settings): int {
    match reason
    case PressureAfterKill => if w == WmarkMin then PERCEPTIBLE_RECENT_FOREGROUND_APP_ADJ else VISIBLE_APP_ADJ
    case NotResponding => if f.level == VMPRESS_LEVEL_CRITICAL then PERCEPTIBLE_RECENT_FOREGROUND_APP_ADJ else 0
    case LowSwapAndThrashing => if w == WmarkMin || f.thrashing >= cfg.criticalPct then 0 else PERCEPTIBLE_APP_ADJ + 1
    case LowMemAndSwap => if w == WmarkMin || f.thrashing >= cfg.criticalPct then 0 else PERCEPTIBLE_APP_ADJ + 1
    case LowMemAndThrashing => VISIBLE_APP_ADJ
    case Compaction => VISIBLE_APP_ADJ
    case DirectReclAndThrashing => PERCEPTIBLE_APP_ADJ + 1
    case LowFilecacheAfterThrashing => PERCEPTIBLE_APP_ADJ + 1
    case LowMem => cfg.lowmemMinScore
    case _ => 0
  }

  /** A fresh look has the floor of its reason, and cuts the limit exactly for the thrashing reasons. */
  lemma FreshLook(checking: bool, w: Level, f: Facts, cfg: Settings)
    ensures var d := Decide(Undecided(checking), w, f, cfg);
            && d.min == Floor(d.reason, w, f, cfg)
            && (d.cut <==> d.reason in {LowMemAndThrashing, DirectReclAndThrashing})
            && (d.checkFilecache <==>
                d.reason in {LowSwapAndThrashing, LowMemAndThrashing, DirectReclAndThrashing, LowFilecacheAfterThrashing}
                || (checking && d.reason in {PressureAfterKill, DirectReclAndThrot, NotResponding, LowMemAndSwap,
                                             LowMemAndSwapUtil, DirectReclStuck}))
  {
  }

  lemma JudgeReason(d: Decision, w: Level, f: Facts, cfg: Settings)
    ensures var (anew, again) := (Judge(Undecided(d.checkFilecache), w, f, cfg), Judge(d, w, f, cfg));
            && again.reason == (if anew.reason == NoReason then d.reason else anew.reason)
            && anew.reason != LowMem && (anew.reason == NoReason ==> anew.min == 0)
  {
  }

  lemma JudgeFloor(d: Decision, w: Level, f: Facts, cfg: Settings)
    ensures var (anew, again) := (Judge(Undecided(d.checkFilecache), w, f, cfg), Judge(d, w, f, cfg));
            again.min == (if anew.min == 0 then d.min else anew.min)
  {
  }

  lemma JudgeFlags(d: Decision, w: Level, f: Facts, cfg: Settings)
    ensures var (anew, again) := (Judge(Undecided(d.checkFilecache), w, f, cfg), Judge(d, w, f, cfg));
            (again.cut <==> d.cut || anew.cut) && again.checkFilecache == anew.checkFilecache
  {
    hide SparePerceptible;
  }

  /**
   A second look never takes a kill back. It replaces reason and floor by those of a fresh look,
   except that low memory alone counts for nothing and a floor of 0 does not lower the one found.
   */
  lemma SecondLook(d: Decision, w: Level, f: Facts, cfg: Settings)
    requires d.reason != NoReason && Sane(cfg)
    ensures var (anew, again) := (Decide(Undecided(d.checkFilecache), w, f, cfg), Decide(d, w, f, cfg));
            && again.reason == (if anew.reason in {NoReason, LowMem} then d.reason else anew.reason)
            && again.min == (if anew.reason == LowMem || anew.min == 0 then d.min else anew.min)
            && (again.cut <==> d.cut || anew.cut)
            && again.checkFilecache == anew.checkFilecache
  {
    hide Judge;
    JudgeReason(d, w, f, cfg);
    JudgeFloor(d, w, f, cfg);
    JudgeFlags(d, w, f, cfg);
  }

  /** The floor after the looks made: that of the first, unless a second look finds another above 0. */
  function LooksFloor(wbf: int, firstKill: bool, checking: bool, f: Facts, r: Reading, cfg: Settings): int
    requires r.first.Some?
  {
    var w1 := WatermarkOf(r.first.value, wbf, f, cfg);
    var d1 := Decide(Undecided(checking), w1, f, cfg);
    var floor := Floor(d1.reason, w1, f, cfg);
    if !firstKill || d1.reason == NoReason || r.second.None? then floor
    else
      var w2 := WatermarkOf(r.second.value, wbf, f, cfg);
      var reason := Decide(Undecided(d1.checkFilecache), w2, f, cfg).reason;
      if reason == LowMem || Floor(reason, w2, f, cfg) == 0 then floor else Floor(reason, w2, f, cfg)
  }

  /** The last look that could tell found the system stalled. */
  predicate StallFound(twice: bool, r: Reading)
    requires r.first.Some?
  {
    if twice && r.second.Some? && r.second.value.stall.Some? then r.second.value.stall.value
    else r.first.value.stall == Some(true)
  }

  /** Nothing is decided exactly if the first look decides nothing; a second one precedes only the first kill. */
  lemma LooksVerdict(wbf: int, firstKill: bool, checking: bool, f: Facts, r: Reading, cfg: Settings)
    requires Sane(cfg) && r.first.Some?
    ensures var v := Passes(wbf, firstKill, checking, f, r, cfg);
            var d1 := Decide(Undecided(checking), WatermarkOf(r.first.value, wbf, f, cfg), f, cfg);
            && (v.dec.reason == NoReason <==> d1.reason == NoReason)
            && (v.firstKill <==> firstKill && d1.reason == NoReason)
            && (v.complete <==> !firstKill || d1.reason == NoReason || r.second.Some?)
            && v.dec.min == LooksFloor(wbf, firstKill, checking, f, r, cfg)
            && (v.complete ==> (v.stall <==> StallFound(firstKill && d1.reason != NoReason, r)))
  {
    hide Decide, WatermarkOf, Floor;
    var w1 := WatermarkOf(r.first.value, wbf, f, cfg);
    FreshLook(checking, w1, f, cfg);
    var d1 := Decide(Undecided(checking), w1, f, cfg);
    if d1.reason != NoReason && r.second.Some? {
      var w2 := WatermarkOf(r.second.value, wbf, f, cfg);
      FreshLook(d1.checkFilecache, w2, f, cfg);
      SecondLook(d1, w2, f, cfg);
    }
  }

  // ---------- the handler ----------

  /** What the handler measures, from the readings. */
  function Seen(d: Daemon, level: int, events: bool, r: Reading, cfg: Settings): Facts
    requires r.now.Some? && r.vm.Some? && r.mem.Some?
  {
    var (now, vm) := (r.now.value, r.vm.value);
    var p1 := AfterKill(d.psi, vm, now);
    var rs := ReclaimState(p1, vm, r, cfg);
    var th := Thrash(AfterReclaim(p1, vm, rs), vm, now, cfg);
    FactsOf(th.p.limit, d.psi.killing, level, events, rs, vm.compactStall > p1.initCompactStall,
            th.thrashing, vm, r.mem.value, r, cfg)
  }

  /** What it looks at beside thrashing, reading by reading. */
  lemma SeenIs(d: Daemon, level: int, events: bool, r: Reading, cfg: Settings)
    requires r.now.Some? && r.vm.Some? && r.mem.Some?
    ensures var (f, vm) := (Seen(d, level, events, r, cfg), r.vm.value);
            var late := Elapsed(d.psi.resetTm, r.now.value) > THRASHING_RESET_INTERVAL_MS;
            && f.level == level && f.events == events && f.mem == r.mem.value && f.directMs == r.directMs
            && f.fileKb == vm.inactiveFile * cfg.pageK + vm.activeFile * cfg.pageK
            && (f.cycleAfterKill <==> d.psi.killing)
            && (f.compaction <==> vm.compactStall > d.psi.initCompactStall)
            && f.limit == (if late && !d.psi.killing then cfg.limitPct else d.psi.limit)
  {
    hide Elapsed, Growth, ShiftRight, ToInt32, ReclaimState;
    var (vm, now) := (r.vm.value, r.now.value);
    NoTime(now);
    assert (vm.inactiveFile + vm.activeFile) * cfg.pageK == vm.inactiveFile * cfg.pageK + vm.activeFile * cfg.pageK;
  }

  lemma PrepareLooks(d: Daemon, wbf: int, level: int, events: bool, r: Reading, cfg: Settings)
    requires r.now.Some? && r.vm.Some? && r.mem.Some?
    ensures var q := Prepare(d.psi, d.up, wbf, level, events, r.now.value, r.vm.value, r.mem.value, r, cfg);
            q.judged.Some? ==> q.judged.value.1 == Passes(wbf, d.psi.firstKill, d.psi.checkFilecache,
                                                          Seen(d, level, events, r, cfg), r, cfg)
  {
    hide Passes, Thrash, ReclaimState, FactsOf;
    var p1 := AfterKill(d.psi, r.vm.value, r.now.value);
    ThrashKeeps(AfterReclaim(p1, r.vm.value, ReclaimState(p1, r.vm.value, r, cfg)), r.vm.value, r.now.value, cfg);
  }

  /** A handler that comes to a verdict reaches it by looking at what it measured. */
  lemma HandleLooks(d: Daemon, level: int, events: bool, r: Reading, cfg: Settings)
    requires WellFormed(d.reg) && Sane(cfg)
    ensures var b := Handle(d, level, events, r, cfg);
            b.verdict.Some? ==>
              && r.now.Some? && r.vm.Some? && r.mem.Some?
              && b.verdict.value == Passes(Boosted(d, level, events, cfg), d.psi.firstKill, d.psi.checkFilecache,
                                           Seen(d, level, events, r, cfg), r, cfg)
  {
    hide FindAndKill, AfterScan, Passes, WellFormed, StopWait, Prepare, Seen, Elapsed, MinScore, KillBoost, Boosted;
    StopWaitWellFormed(d.reg);
    if r.now.Some? && r.vm.Some? && r.mem.Some? {
      var e := Entered(d, level, events, cfg);
      PrepareMin(e.psi, e.up, e.wbf, level, events, r.now.value, r.vm.value, r.mem.value, r, cfg);
      PrepareLooks(d, e.wbf, level, events, r, cfg);
    }
  }

  /** The reasons that spare perceptible applications, whose adj is at most 200. */
  predicate Mild(reason: Reason, w: Level, f: Facts, cfg: Settings) {
    || reason in {DirectReclAndThrashing, LowFilecacheAfterThrashing, LowMem}
    || (reason in {LowSwapAndThrashing, LowMemAndSwap} && w != WmarkMin && f.thrashing < cfg.criticalPct)
  }

  lemma MildFloor(reason: Reason, w: Level, f: Facts, cfg: Settings)
    requires Sane(cfg)
    ensures Mild(reason, w, f, cfg) <==> Floor(reason, w, f, cfg) > PERCEPTIBLE_APP_ADJ
  {
  }

  /** The first look of a handler with these readings finds the winning reason `reason` mild. */
  predicate MildLook(d: Daemon, level: int, events: bool, r: Reading, cfg: Settings)
    requires r.now.Some? && r.vm.Some? && r.mem.Some? && r.first.Some?
  {
    var f := Seen(d, level, events, r, cfg);
    var w := WatermarkOf(r.first.value, Boosted(d, level, events, cfg), f, cfg);
    Mild(Decide(Undecided(d.psi.checkFilecache), w, f, cfg).reason, w, f, cfg)
  }

  /**
   A handler tries a perceptible application only if the system is stalled or the floor of its
   looks allows it, which, once the first kill has been made, means that the reason found is not
   a mild one.
   */
  lemma PerceptibleSpared(d: Daemon, level: int, events: bool, r: Reading, k: nat, cfg: Settings)
    requires WellFormed(d.reg) && Sane(cfg)
    ensures var b := Handle(d, level, events, r, cfg);
            k < |b.attempts| && b.attempts[k].rec.oomadj <= PERCEPTIBLE_APP_ADJ ==>
              && r.now.Some? && r.vm.Some? && r.mem.Some? && r.first.Some? && b.verdict.Some?
              && (b.verdict.value.stall
                  || LooksFloor(Boosted(d, level, events, cfg), d.psi.firstKill, d.psi.checkFilecache,
                                Seen(d, level, events, r, cfg), r, cfg) <= PERCEPTIBLE_APP_ADJ)
              && (!d.psi.firstKill ==> r.first.value.stall == Some(true) || !MildLook(d, level, events, r, cfg))
  {
    hide Handle, WellFormed, FindAndKill, Seen, Decide, Floor;
    HandleReg(d, level, events, r, cfg);
    HandleLooks(d, level, events, r, cfg);
    var b := Handle(d, level, events, r, cfg);
    if b.Scanned() && r.first.Some? {
      FindAndKillOrderly(StopWait(d.reg), MinScore(b.verdict.value), cfg.killHeaviest, r.world, 0, cfg.debuggable, r.script);
      var f := Seen(d, level, events, r, cfg);
      var wbf := Boosted(d, level, events, cfg);
      LooksVerdict(wbf, d.psi.firstKill, d.psi.checkFilecache, f, r, cfg);
      var w := WatermarkOf(r.first.value, wbf, f, cfg);
      MildFloor(Decide(Undecided(d.psi.checkFilecache), w, f, cfg).reason, w, f, cfg);
    }
  }

  /** What a handler remembers of its verdict: whether a kill was ever decided, and whether to check the file cache. */
  lemma HandleRemembers(d: Daemon, level: int, events: bool, r: Reading, cfg: Settings)
    requires WellFormed(d.reg) && Sane(cfg)
    ensures var b := Handle(d, level, events, r, cfg);
            if b.verdict.Some?
            then && b.d.psi.firstKill == b.verdict.value.firstKill && b.d.psi.checkFilecache == b.verdict.value.dec.checkFilecache
                 && (b.verdict.value.firstKill <==> d.psi.firstKill && b.verdict.value.dec.reason == NoReason)
            else b.d.psi.firstKill == d.psi.firstKill && b.d.psi.checkFilecache == d.psi.checkFilecache
  {
    hide FindAndKill, StopWait, Prepare, MinScore, WellFormed, KillBoost, Passes, Seen, AfterScan, KillPending;
    StopWaitWellFormed(d.reg);
    HandleLooks(d, level, events, r, cfg);
    if r.now.Some? && r.vm.Some? && r.mem.Some? {
      var e := Entered(d, level, events, cfg);
      PrepareMin(e.psi, e.up, e.wbf, level, events, r.now.value, r.vm.value, r.mem.value, r, cfg);
      PrepareRemembers(e.psi, e.up, e.wbf, level, events, r.now.value, r.vm.value, r.mem.value, r, cfg);
      ScanRemembers();
      if Handle(d, level, events, r, cfg).verdict.Some? {
        PassesFirst(Boosted(d, level, events, cfg), d.psi.firstKill, d.psi.checkFilecache, Seen(d, level, events, r, cfg), r, cfg);
      }
    }
  }

  lemma ScanRemembers()
    ensures forall p: Psi, pages: int, atts: seq<Attempt>, cut: bool, now: int, cfg: Settings ::
              var q := AfterScan(p, pages, atts, cut, now, cfg); q.firstKill == p.firstKill && q.checkFilecache == p.checkFilecache
  {
  }

  lemma PrepareRemembers(p: Psi, up: Upgrade, wbf: int, level: int, events: bool, now: int, vm: VmStat, mem: Mem,
                         r: Reading, cfg: Settings)
    ensures var q := Prepare(p, up, wbf, level, events, now, vm, mem, r, cfg).psi;
            q.firstKill == p.firstKill && q.checkFilecache == p.checkFilecache
  {
    hide Passes, Thrash, ReclaimState, FactsOf;
    var p1 := AfterKill(p, vm, now);
    ThrashKeeps(AfterReclaim(p1, vm, ReclaimState(p1, vm, r, cfg)), vm, now, cfg);
  }

  lemma PassesFirst(wbf: int, firstKill: bool, checking: bool, f: Facts, r: Reading, cfg: Settings)
    requires Sane(cfg)
    ensures var v := Passes(wbf, firstKill, checking, f, r, cfg);
            v.firstKill <==> firstKill && v.dec.reason == NoReason
  {
    hide Decide, WatermarkOf, Passes;
    if r.first.Some? {
      LooksVerdict(wbf, firstKill, checking, f, r, cfg);
    } else {
      NoLook(wbf, firstKill, checking, f, r, cfg);
    }
  }

  lemma NoLook(wbf: int, firstKill: bool, checking: bool, f: Facts, r: Reading, cfg: Settings)
    requires r.first.None?
    ensures var v := Passes(wbf, firstKill, checking, f, r, cfg);
            v.firstKill == firstKill && v.dec.reason == NoReason && v.dec.checkFilecache == checking
  {
  }

  /** The event runs a handler that decides to kill. */
  ghost predicate DecidesKill(s: Sys, ev: Event, cfg: Settings) {
    && WellFormed(s.d.reg) && Sane(cfg) && RunsHandler(s.d, ev)
    && var v := BodyOf(s.d, ev, cfg).verdict; v.Some? && v.value.dec.reason != NoReason
  }

  lemma FirstKillStep(s: Sys, ev: Event, cfg: Settings)
    requires WellFormed(s.d.reg) && Sane(cfg) && Enabled(s, ev, cfg)
    ensures Step(s, ev, cfg).d.psi.firstKill <==> s.d.psi.firstKill && !DecidesKill(s, ev, cfg)
  {
    hide Handle, RunCommand, WellFormed, Elapsed, CheckCont, Finish, StopWait;
    if RunsHandler(s.d, ev) {
      var d := Counted(s.d, ev, cfg);
      HandleRemembers(d, LevelOf(s.d, ev), ev.Pressure?, ev.r, cfg);
      HandleReg(d, LevelOf(s.d, ev), ev.Pressure?, ev.r, cfg);
      var b := Handle(d, LevelOf(s.d, ev), ev.Pressure?, ev.r, cfg);
      FinishKeeps(b.d, LevelOf(s.d, ev), ev.Pressure?, b.rs, b.swapIsLow, cfg);
    }
  }

  /** On every run from the start the next kill decided is the first one, looked at twice, if and only if none was decided before. */
  lemma {:induction false} FirstKillOnce(ss: seq<Sys>, evs: seq<Event>, k: nat, pidfdSupported: bool, cfg: Settings)
    requires IsRun(ss, evs, cfg) && ss[0] == Started(pidfdSupported, cfg) && k <= |evs|
    ensures ss[k].d.psi.firstKill <==> forall j :: 0 <= j < k ==> !DecidesKill(ss[j], evs[j], cfg)
  {
    hide Step, WellFormed, Enabled, DecidesKill;
    if k > 0 {
      FirstKillOnce(ss, evs, k - 1, pidfdSupported, cfg);
      RunStep(ss, evs, k - 1, cfg);
      FirstKillStep(ss[k - 1], evs[k - 1], cfg);
    }
  }

  /** A handler that kills scans down to adj 0 if the system is stalled, else to the floor of its looks. */
  lemma ScansDownTo(d: Daemon, level: int, events: bool, r: Reading, cfg: Settings)
    requires WellFormed(d.reg) && Sane(cfg) && Handle(d, level, events, r, cfg).Scanned()
    ensures r.now.Some? && r.vm.Some? && r.mem.Some? && r.first.Some? && WellFormed(StopWait(d.reg))
    ensures var b := Handle(d, level, events, r, cfg);
            var floor := if StallFound(d.psi.firstKill, r) then 0
                         else LooksFloor(Boosted(d, level, events, cfg), d.psi.firstKill, d.psi.checkFilecache,
                                         Seen(d, level, events, r, cfg), r, cfg);
            floor >= 0
            && b.attempts == FindAndKill(StopWait(d.reg), floor, cfg.killHeaviest, r.world, 0, cfg.debuggable, r.script).attempts
  {
    hide Handle, WellFormed, Seen, Decide, WatermarkOf, FindAndKill, StopWait, LooksFloor;
    HandleReg(d, level, events, r, cfg);
    HandleLooks(d, level, events, r, cfg);
    LooksVerdict(Boosted(d, level, events, cfg), d.psi.firstKill, d.psi.checkFilecache,
                 Seen(d, level, events, r, cfg), r, cfg);
  }

  /**
   Cached pages are taken as free only if a percentage is configured, never in compaction, and only
   below the critical level or by polling at it.
   */
  lemma CacheCounts(z: Zones, wbf: int, f: Facts, cfg: Settings)
    ensures var counts := cfg.cachePercent && !f.compaction
                          && (f.level < VMPRESS_LEVEL_CRITICAL || (f.level == VMPRESS_LEVEL_CRITICAL && !f.events));
            WatermarkOf(z, wbf, f, cfg) == LowestWatermark(z.free, if counts then z.cached else 0, wbf, z.marks)
  {
  }

  // ---------- thrashing around a kill ----------

  /** The first cycle after a kill measures no thrashing and starts no new window. */
  lemma KillResetsThrashing(d: Daemon, level: int, events: bool, r: Reading, cfg: Settings)
    requires d.psi.killing && r.now.Some? && r.vm.Some? && r.mem.Some?
    ensures var f := Seen(d, level, events, r, cfg);
            f.thrashing == 0 && f.limit == d.psi.limit && f.cycleAfterKill
  {
    hide Thrash, ReclaimState;
    var (now, vm) := (r.now.value, r.vm.value);
    var p1 := AfterKill(d.psi, vm, now);
    NothingSince(AfterReclaim(p1, vm, ReclaimState(p1, vm, r, cfg)), vm, now, cfg);
  }

  lemma NothingSince(p: Psi, vm: VmStat, now: int, cfg: Settings)
    requires p.resetTm == now && p.initRefault == vm.refault && p.prevGrowth == 0
    ensures var th := Thrash(p, vm, now, cfg);
            th.thrashing == 0 && !th.crossed && th.p.limit == p.limit
  {
    ElapsedBounds(now, now);
    hide Elapsed, ToInt32, ShiftRight;
    assert Growth(p, vm) == 0;
  }

  predicate Thrashes(reason: Reason) {
    reason in {LowSwapAndThrashing, LowMemAndThrashing, DirectReclAndThrashing}
  }

  lemma ThrashReason(checking: bool, w: Level, f: Facts, cfg: Settings)
    requires f.thrashing <= 0 && f.limit >= 0
    ensures !Thrashes(Decide(Undecided(checking), w, f, cfg).reason)
  {
  }

  /** So right after a kill that freed memory no process is killed for thrashing. */
  lemma NoThrashKillAfterKill(d: Daemon, level: int, events: bool, r: Reading, cfg: Settings)
    requires WellFormed(d.reg) && Sane(cfg) && d.psi.killing && d.psi.limit >= 0
    ensures var b := Handle(d, level, events, r, cfg);
            b.verdict.Some? ==> !Thrashes(b.verdict.value.dec.reason) && !b.verdict.value.dec.cut
  {
    hide Handle, WellFormed, Seen, Decide, WatermarkOf;
    HandleLooks(d, level, events, r, cfg);
    if Handle(d, level, events, r, cfg).verdict.Some? && r.first.Some? {
      KillResetsThrashing(d, level, events, r, cfg);
      var f := Seen(d, level, events, r, cfg);
      var wbf := Boosted(d, level, events, cfg);
      var w1 := WatermarkOf(r.first.value, wbf, f, cfg);
      var d1 := Decide(Undecided(d.psi.checkFilecache), w1, f, cfg);
      ThrashReason(d.psi.checkFilecache, w1, f, cfg);
      FreshLook(d.psi.checkFilecache, w1, f, cfg);
      if d1.reason != NoReason && r.second.Some? {
        var w2 := WatermarkOf(r.second.value, wbf, f, cfg);
        ThrashReason(d1.checkFilecache, w2, f, cfg);
        FreshLook(d1.checkFilecache, w2, f, cfg);
        SecondLook(d1, w2, f, cfg);
      }
    }
  }

  // ---------- the window of refaults ----------

  lemma Quotients(x: nat, n: nat)
    requires n >= 1
    ensures 0 <= x / n <= x && (n == 1 ==> x / n == x) && (n >= 2 ==> 2 * (x / n) <= x)
  {
    var q := x / n;
    assert x == n * q + x % n;
    Scaled(1, n, q);
    Scaled(2, n, q);
  }

  lemma Halving(m: nat)
    ensures if m == 0 then Pow2(m) == 1 else Pow2(m) >= 2
  {
  }

  lemma Shifted(x: int, n: nat)
    requires x >= 1
    ensures 0 <= ShiftRight(x, n) <= x
    ensures 2 * ShiftRight(x, n) <= x <==> n % 64 != 0
  {
    Halving(n % 64);
    hide Pow2;
    Quotients(x, Pow2(n % 64));
  }

  /**
   When a new window starts, the growth carried over from the last is at most half of it if and
   only if the last was not a single one at or over the limit and the number of windows passed is
   not a multiple of 64, by which the shift is taken.
   */
  lemma WindowHalves(p: Psi, vm: VmStat, now: int, cfg: Settings)
    requires Elapsed(p.resetTm, now) > THRASHING_RESET_INTERVAL_MS && Growth(p, vm) >= 1
    ensures var windows := Elapsed(p.resetTm, now) / THRASHING_RESET_INTERVAL_MS;
            var kept := NextWindow(p, vm, now, cfg).prevGrowth;
            && 0 <= kept <= Growth(p, vm)
            && (2 * kept <= Growth(p, vm) <==> !(windows == 1 && Growth(p, vm) >= p.limit) && windows % 64 != 0)
  {
    hide Elapsed, Growth;
    var n := Elapsed(p.resetTm, now) / THRASHING_RESET_INTERVAL_MS;
    Shifted(Growth(p, vm), n);
    hide ShiftRight;
  }

  /** After 64 windows the growth of 100 percent, below the limit, is carried over undiminished. */
  lemma SixtyFourWindows(p: Psi, cfg: Settings)
    requires p.resetTm == 0 && p.initRefault == 0 && p.baseFileLru == 0 && p.limit > 100
    ensures var (vm, now) := (VmStat(0, 0, 1, 0, 0, 0, 0, 0), 64 * NS_PER_SEC);
            && Elapsed(p.resetTm, now) == 64 * THRASHING_RESET_INTERVAL_MS
            && Growth(p, vm) == 100 && NextWindow(p, vm, now, cfg).prevGrowth == 100
  {
    ElapsedBounds(0, 64 * NS_PER_SEC);
  }

  // ---------- stalls ----------

  /** Reading the same counters again, without anything having happened since. */
  function Again(p: Psi, vm: VmStat, r: Reading, cfg: Settings): Reclaim {
    ReclaimState(AfterReclaim(p, vm, ReclaimState(p, vm, r, cfg)), vm, r, cfg)
  }

  /**
   Where reclaim is told by the counters of vmstat, a stall is reported once: the same counters
   show direct reclaim, throttling or kswapd no second time, and compaction neither. A throttled
   stall hidden by direct reclaim is not lost but reported by the next cycle.
   */
  lemma StallReportedOnce(p: Psi, vm: VmStat, r: Reading, cfg: Settings)
    requires !cfg.listener
    ensures var rs := ReclaimState(p, vm, r, cfg);
            && (rs == NoReclaim <==> vm.direct == p.initDirect && vm.throttle <= p.initThrottle
                                     && vm.kswapd == p.initKswapd && vm.pgrefill == p.initPgrefill)
            && (rs != NoReclaim ==> Again(p, vm, r, cfg) != rs)
            && (Again(p, vm, r, cfg) == DirectThrottle <==> rs == DirectReclaim && vm.throttle > p.initThrottle)
            && (Again(p, vm, r, cfg) == KswapdReclaim ==> rs == DirectThrottle)
            && vm.compactStall <= AfterReclaim(p, vm, rs).initCompactStall
  {
  }

  /**
   Where it is told by a memevent listener, direct reclaim and kswapd are what the listener says,
   throttling is told by its counter and only where the listener sees no direct reclaim; a throttled
   stall is then reported once, and is not lost when direct reclaim hides it.
   */
  lemma StallByListener(p: Psi, vm: VmStat, r: Reading, later: Reading, cfg: Settings)
    requires cfg.listener
    ensures var rs := ReclaimState(p, vm, r, cfg);
            var next := ReclaimState(AfterReclaim(p, vm, rs), vm, later, cfg);
            && (rs == DirectReclaim <==> r.inDirect)
            && (rs == DirectThrottle <==> !r.inDirect && vm.throttle > p.initThrottle)
            && (rs == KswapdReclaim <==> !r.inDirect && vm.throttle <= p.initThrottle && r.inKswapd)
            && (next == DirectThrottle <==> rs == DirectReclaim && vm.throttle > p.initThrottle && !later.inDirect)
  {
  }

  // ---------- the boost ----------

  /** The reasons that call for a stronger boost: nothing else helps, or reclaim is throttled. */
  predicate Urgent(reason: Reason) {
    reason == NotResponding || reason == DirectReclAndThrot
  }

  /**
   The boost a handler leaves behind. A pressure event at or above the polled level restores it.
   A kill that frees memory then takes it one up, to the factor at most, for an urgent reason, and
   one down, to 1 at least, for any other; without one it stays.
   */
  lemma BoostAfterHandler(d: Daemon, level: int, events: bool, r: Reading, cfg: Settings)
    requires WellFormed(d.reg) && Sane(cfg) && 1 <= d.wbf <= cfg.boostFactor
    ensures var b := Handle(d, level, events, r, cfg);
            var w := if events && (d.poll.poll.None? || d.poll.poll.value <= level) then cfg.boostFactor else d.wbf;
            if b.pages <= 0 then b.d.wbf == w
            else
              && b.Scanned()
              && (if Urgent(b.verdict.value.dec.reason)
                  then w <= b.d.wbf <= w + 1 && (b.d.wbf == w <==> w == cfg.boostFactor)
                  else w - 1 <= b.d.wbf <= w && (b.d.wbf == w <==> w == 1))
  {
    hide FindAndKill, StopWait, Prepare, MinScore, AfterScan, WellFormed;
    StopWaitWellFormed(d.reg);
    if r.now.Some? && r.vm.Some? && r.mem.Some? {
      var e := Entered(d, level, events, cfg);
      PrepareMin(e.psi, e.up, e.wbf, level, events, r.now.value, r.vm.value, r.mem.value, r, cfg);
    }
  }

  // ---------- what a cycle asks of the polling loop ----------

  /** The cycle saw something that polling should go on for. */
  predicate Alarmed(events: bool, e: Daemon, b: Body) {
    events || e.psi.killing || b.rs == DirectReclaim || b.rs == DirectThrottle
  }

  /**
   A cycle that is not cut short and leaves no wait asks for an upgrade exactly if it is alarmed and
   enough events were counted; for a start exactly if it is alarmed, they were not, and its level is
   not below the polled one; the boost is lowered by a start without a kill, and by nothing else. The
   next turn is 10 ms away after a kill or with low swap, else the period of the super critical level
   at that level and 100 ms at any other.
   */
  lemma CycleAsks(d: Daemon, level: int, events: bool, r: Reading, cfg: Settings)
    requires WellFormed(d.reg) && Sane(cfg)
    requires !Handle(d, level, events, r, cfg).early && !Waiting(Handle(d, level, events, r, cfg).d.reg)
    ensures var (b, e) := (Handle(d, level, events, r, cfg), PsiCycle(d, level, events, r, cfg));
            var enough := d.up.count >= cfg.contThresh;
            && (e.poll.update == CritUpgrade <==> Alarmed(events, e, b) && enough)
            && (e.poll.update == Start <==>
                  Alarmed(events, e, b) && !enough && (d.poll.poll.None? || d.poll.poll.value <= level))
            && (e.poll.update != CritUpgrade && e.poll.update != Start ==> e.poll.update == DoNotChange)
            && e.wbf == (if e.poll.update == Start && !e.psi.killing && b.d.wbf > 1 then b.d.wbf - 1
                         else if e.poll.update == Start && !e.psi.killing then 1 else b.d.wbf)
            && e.poll.intervalMs == (if e.psi.killing || b.swapIsLow then 10
                                     else if level == VMPRESS_LEVEL_SUPER_CRITICAL then cfg.scritPeriodMs else 100)
            && (b.swapIsLow <==> PastWait(d, r, cfg) && r.mem.Some? && r.mem.value.swapIsLow)
  {
    hide FindAndKill, StopWait, Prepare, MinScore, AfterScan, WellFormed, KillBoost;
    HandleReg(d, level, events, r, cfg);
    StopWaitWellFormed(d.reg);
    if r.now.Some? && r.vm.Some? && r.mem.Some? {
      var e := Entered(d, level, events, cfg);
      PrepareMin(e.psi, e.up, e.wbf, level, events, r.now.value, r.vm.value, r.mem.value, r, cfg);
    }
  }
}
