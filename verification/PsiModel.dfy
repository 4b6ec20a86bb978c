/**
 One run of the pressure handler mp_event_psi: from the readings of the system to the kills made
 and the request to start, pause or upgrade polling. The static variables of the handler and the
 shared polling parameters are fields of `Daemon`.
 */
module PsiModel {
  import opened CInt
  import opened Options
  import opened RegistryModel
  import opened SelectionModel
  import opened Watermark
  import opened Time

  const VMPRESS_LEVEL_MEDIUM := 1
  const VMPRESS_LEVEL_SUPER_CRITICAL := 3
  const THRASHING_RESET_INTERVAL_MS := 1000
  const PSI_POLL_PERIOD_SHORT_MS := 10
  const PSI_POLL_PERIOD_LONG_MS := 100
  const PERCEPTIBLE_RECENT_FOREGROUND_APP_ADJ := 50
  const VISIBLE_APP_ADJ := 100

  /** The configuration, fixed within a run and within its documented ranges. */
  datatype Settings = Settings(
    windowMs: nat, contThresh: int, boostFactor: int,
    limitPct: nat, decayPct: nat, criticalPct: nat, swapUtilMax: int,
    killTimeoutMs: nat, lowmemMinScore: int, directThresholdMs: int,
    filecacheMinKb: int, pageK: int, scritPeriodMs: int, cachePercent: bool,
    killHeaviest: bool, debuggable: bool, listener: bool)

  predicate Sane(cfg: Settings) {
    cfg.boostFactor >= 1 && cfg.decayPct <= 100 && cfg.lowmemMinScore > PERCEPTIBLE_APP_ADJ
  }

  // ---------- readings ----------

  datatype VmStat = VmStat(
    inactiveFile: nat, activeFile: nat, refault: int,
    pgrefill: int, kswapd: int, direct: int, throttle: int, compactStall: int)

  datatype Mem = Mem(swapIsLow: bool, swapUtil: int)

  /** Zone totals outside CMA, cached pages, watermarks, and the stall test if it could be read. */
  datatype Zones = Zones(free: int, cached: nat, marks: Marks, stall: Option<bool>)

  /** Everything the handler asks the system for; None where the reading fails. */
  datatype Reading = Reading(
    now: Option<int>, alive: bool, vm: Option<VmStat>, mem: Option<Mem>,
    first: Option<Zones>, second: Option<Zones>,
    inDirect: bool, inKswapd: bool, directMs: int,
    world: World, script: int)

  // ---------- state ----------

  datatype Update = DoNotChange | Start | Pause | Resume | CritUpgrade

  /** struct polling_params; handlers are named by their pressure level. */
  datatype Polling = Polling(
    poll: Option<int>, paused: Option<int>, startTm: int, lastPollTm: int, intervalMs: int, update: Update)

  datatype Psi = Psi(
    initRefault: int, prevRefault: int, baseFileLru: nat,
    initPgrefill: int, initKswapd: int, initDirect: int, initThrottle: int, initCompactStall: int,
    killing: bool, limit: int, resetTm: int, prevGrowth: int,
    checkFilecache: bool, maxThrashing: int, firstKill: bool, lastKillTm: int)

  /** check_cont_lmkd_events: times of the last events, the count, and the direct-reclaim flag. */
  datatype Upgrade = Upgrade(tmed: int, tcrit: int, tupgrad: int, count: int, flag: bool)

  datatype Daemon = Daemon(reg: State, poll: Polling, psi: Psi, up: Upgrade, wbf: int)

  function Boot(pidfdSupported: bool, cfg: Settings): Daemon {
    Daemon(Init(pidfdSupported), Polling(None, None, 0, 0, 0, DoNotChange),
           Psi(0, 0, 0, 0, 0, 0, 0, 0, false, cfg.limitPct, 0, 0, false, 0, true, 0),
           Upgrade(0, 0, 0, 0, false), cfg.boostFactor)
  }

  predicate Waiting(st: State) {
    st.pidfdSupported && st.lastKill >= 0
  }

  // ---------- stages ----------

  predicate NotBelowPolled(poll: Polling, level: int) {
    poll.poll.None? || level >= poll.poll.value
  }

  function Boosted(d: Daemon, level: int, events: bool, cfg: Settings): int {
    if events && NotBelowPolled(d.poll, level) then cfg.boostFactor else d.wbf
  }

  predicate KillPending(st: State, alive: bool) {
    st.lastKill >= 0 && (st.pidfdSupported || alive)
  }

  /** The cycle does nothing while a kill is in progress and its timeout has not passed. */
  predicate Skips(d: Daemon, alive: bool, now: int, cfg: Settings) {
    KillPending(d.reg, alive) && (cfg.killTimeoutMs == 0 || Elapsed(d.psi.lastKillTm, now) < cfg.killTimeoutMs)
  }

  /** The first cycle after a kill starts measuring afresh. */
  function AfterKill(p: Psi, vm: VmStat, now: int): Psi {
    if p.killing
    then p.(killing := false, baseFileLru := vm.inactiveFile + vm.activeFile,
            initRefault := vm.refault, resetTm := now, prevGrowth := 0)
    else p
  }

  datatype Reclaim = NoReclaim | KswapdReclaim | DirectReclaim | DirectThrottle {
    predicate IsDirect() { this == DirectReclaim || this == DirectThrottle }
  }

  function ReclaimState(p: Psi, vm: VmStat, r: Reading, cfg: Settings): Reclaim {
    var direct := if cfg.listener then r.inDirect else vm.direct != p.initDirect;
    var kswapd := if cfg.listener then r.inKswapd else vm.kswapd != p.initKswapd || vm.pgrefill != p.initPgrefill;
    if direct then DirectReclaim
    else if vm.throttle > p.initThrottle then DirectThrottle
    else if kswapd then KswapdReclaim
    else NoReclaim
  }

  function AfterReclaim(p: Psi, vm: VmStat, rs: Reclaim): Psi {
    var q := if vm.compactStall > p.initCompactStall then p.(initCompactStall := vm.compactStall) else p;
    match rs
    case DirectReclaim => q.(initDirect := vm.direct, initKswapd := vm.kswapd, initPgrefill := vm.pgrefill)
    case DirectThrottle => q.(initThrottle := vm.throttle)
    case KswapdReclaim => q.(initKswapd := vm.kswapd, initPgrefill := vm.pgrefill)
    case NoReclaim => q
  }

  function Pow2(n: nat): (r: nat)
    ensures r >= 1
  {
    if n == 0 then 1 else 2 * Pow2(n - 1)
  }

  /** `x >> n`; the shift count is taken modulo the width, as processors do. */
  function ShiftRight(x: int, n: nat): int {
    x / Pow2(n % 64)
  }

  /** Percentage of the file-backed page cache refaulted since the last reset. */
  function Growth(p: Psi, vm: VmStat): int {
    TruncDiv((vm.refault - p.initRefault) * 100, p.baseFileLru + 1)
  }

  /** Crossing the reset interval: decay the growth of the window just left and start another. */
  function NextWindow(p: Psi, vm: VmStat, now: int, cfg: Settings): Psi
    requires Elapsed(p.resetTm, now) > THRASHING_RESET_INTERVAL_MS
  {
    var growth := Growth(p, vm);
    var windows := Elapsed(p.resetTm, now) / THRASHING_RESET_INTERVAL_MS;
    p.(prevGrowth := if windows > 1 || growth < p.limit then ShiftRight(growth, windows) else growth,
       baseFileLru := vm.inactiveFile + vm.activeFile, initRefault := vm.refault, resetTm := now,
       limit := cfg.limitPct)
  }

  /** The statics and the thrashing measured, and whether a new window was started. */
  datatype Thrashed = Thrashed(p: Psi, thrashing: int, crossed: bool)

  function Thrash(p0: Psi, vm: VmStat, now: int, cfg: Settings): Thrashed {
    var p := p0.(prevRefault := vm.refault);
    var crossed := Elapsed(p.resetTm, now) > THRASHING_RESET_INTERVAL_MS;
    var q := if crossed then NextWindow(p, vm, now, cfg) else p;
    var thrashing := (if crossed then 0 else Growth(p, vm)) + q.prevGrowth;
    Thrashed(q.(maxThrashing := if q.maxThrashing < thrashing then ToInt32(thrashing) else q.maxThrashing), thrashing, crossed)
  }

  lemma ThrashKeeps(p: Psi, vm: VmStat, now: int, cfg: Settings)
    ensures Thrash(p, vm, now, cfg).p.firstKill == p.firstKill && Thrash(p, vm, now, cfg).p.checkFilecache == p.checkFilecache
  {
  }

  // ---------- the decision ----------

  datatype Reason =
    | NoReason | PressureAfterKill | NotResponding | LowSwapAndThrashing | LowMemAndSwap
    | LowMemAndThrashing | DirectReclAndThrashing | LowMemAndSwapUtil | LowFilecacheAfterThrashing
    | LowMem | Compaction | DirectReclAndThrot | DirectReclStuck

  datatype Decision = Decision(reason: Reason, min: int, cut: bool, checkFilecache: bool)

  /** What the decision looks at, beside the watermark. */
  datatype Facts = Facts(
    cycleAfterKill: bool, level: int, events: bool, rs: Reclaim, compaction: bool,
    thrashing: int, limit: int, mem: Mem, directMs: int, fileKb: int)

  /** Spare perceptible applications unless the min watermark is breached or thrashing is critical. */
  function SparePerceptible(w: Level, f: Facts, min: int, cfg: Settings): int {
    if w != WmarkMin && f.thrashing < cfg.criticalPct then PERCEPTIBLE_APP_ADJ + 1 else min
  }

  /** The chain of conditions; `d` holds the values left by the previous pass. */
  function Judge(d: Decision, w: Level, f: Facts, cfg: Settings): Decision {
    if f.cycleAfterKill && w.Rank() <= WmarkLow.Rank() then
      d.(reason := PressureAfterKill,
         min := if w == WmarkMin then PERCEPTIBLE_RECENT_FOREGROUND_APP_ADJ else VISIBLE_APP_ADJ)
    else if f.rs == DirectThrottle then d.(reason := DirectReclAndThrot)
    else if f.level == VMPRESS_LEVEL_CRITICAL && f.events && w != WmarkNone then
      d.(reason := NotResponding, min := PERCEPTIBLE_RECENT_FOREGROUND_APP_ADJ)
    else if f.level == VMPRESS_LEVEL_SUPER_CRITICAL && f.events && w != WmarkNone then d.(reason := NotResponding)
    else if f.mem.swapIsLow && f.thrashing > cfg.limitPct then
      d.(reason := LowSwapAndThrashing, min := SparePerceptible(w, f, d.min, cfg), checkFilecache := true)
    else if f.mem.swapIsLow && w != WmarkNone then
      d.(reason := LowMemAndSwap, min := SparePerceptible(w, f, d.min, cfg))
    else if w.Rank() < WmarkHigh.Rank() && cfg.swapUtilMax < 100 && f.mem.swapUtil > cfg.swapUtilMax then
      d.(reason := LowMemAndSwapUtil)
    else if w != WmarkNone && f.thrashing > f.limit then
      d.(reason := LowMemAndThrashing, min := VISIBLE_APP_ADJ, cut := true, checkFilecache := true)
    else if f.rs == DirectReclaim && f.thrashing > f.limit then
      d.(reason := DirectReclAndThrashing, min := PERCEPTIBLE_APP_ADJ + 1, cut := true, checkFilecache := true)
    else if f.rs == DirectReclaim && cfg.directThresholdMs > 0 && f.directMs > cfg.directThresholdMs then
      d.(reason := DirectReclStuck)
    else if d.checkFilecache then
      if f.fileKb < cfg.filecacheMinKb
      then d.(reason := LowFilecacheAfterThrashing, min := PERCEPTIBLE_APP_ADJ + 1)
      else d.(checkFilecache := false)
    else if f.compaction && w != WmarkNone then d.(reason := Compaction, min := VISIBLE_APP_ADJ)
    else d
  }

  function Decide(d: Decision, w: Level, f: Facts, cfg: Settings): Decision {
    var j := Judge(d, w, f, cfg);
    if j.reason == NoReason && w.Rank() < WmarkHigh.Rank()
    then j.(reason := LowMem, min := cfg.lowmemMinScore) else j
  }

  function WatermarkOf(z: Zones, wbf: int, f: Facts, cfg: Settings): Level {
    LowestWatermark(z.free, if ConsiderCacheFree(cfg.cachePercent, f.events, f.level, f.compaction) then z.cached else 0,
                    wbf, z.marks)
  }

  /** The outcome of the passes over the watermarks; None if a pass could not read the zones. */
  datatype Verdict = Verdict(dec: Decision, stall: bool, firstKill: bool, complete: bool)

  /** The decision of the first pass, which starts from nothing decided. */
  function FirstPass(wbf: int, checkFilecache: bool, f: Facts, z: Zones, cfg: Settings): Decision {
    Decide(Decision(NoReason, 0, false, checkFilecache), WatermarkOf(z, wbf, f, cfg), f, cfg)
  }

  /** One pass, repeated once before the first kill ever without resetting the decision. */
  function Passes(wbf: int, firstKill: bool, checkFilecache: bool, f: Facts, r: Reading, cfg: Settings): Verdict {
    var d0 := Decision(NoReason, 0, false, checkFilecache);
    if r.first.None? then Verdict(d0, false, firstKill, false)
    else
      var z1 := r.first.value;
      var d1 := FirstPass(wbf, checkFilecache, f, z1, cfg);
      var stall := z1.stall == Some(true);
      if d1.reason == NoReason || !firstKill then Verdict(d1, stall, firstKill, true)
      else if r.second.None? then Verdict(d1, stall, false, false)
      else
        var z2 := r.second.value;
        Verdict(Decide(d1, WatermarkOf(z2, wbf, f, cfg), f, cfg),
                if z2.stall.Some? then z2.stall.value else stall, false, true)
  }

  // ---------- the kill ----------

  function MinScore(v: Verdict): int {
    if v.stall then 0 else v.dec.min
  }

  function KillBoost(wbf: int, reason: Reason, cfg: Settings): int {
    if reason == NotResponding || reason == DirectReclAndThrot
    then (if wbf + 1 < cfg.boostFactor then wbf + 1 else cfg.boostFactor)
    else Lowered(wbf)
  }

  function Lowered(wbf: int): int {
    if wbf - 1 > 1 then wbf - 1 else 1
  }

  /** What a kill changes in the statics and the boost. */
  function AfterScan(p: Psi, pages: int, atts: seq<Attempt>, cut: bool, now: int, cfg: Settings): Psi {
    var q := if AnyKilled(atts) then p.(lastKillTm := now) else p;
    if pages > 0
    then q.(killing := true, maxThrashing := 0, limit := if cut then TruncDiv(q.limit * (100 - cfg.decayPct), 100) else q.limit)
    else q
  }

  // ---------- polling ----------

  predicate Extends(events: bool, killing: bool, rs: Reclaim) {
    events || killing || rs.IsDirect()
  }

  /** The part from `no_kill` on: pause while waiting, otherwise upgrade or start polling. */
  function Finish(d: Daemon, level: int, events: bool, rs: Reclaim, swapIsLow: bool, cfg: Settings): Daemon {
    if Waiting(d.reg) then d.(poll := d.poll.(update := Pause))
    else
      var upgrade := Extends(events, d.psi.killing, rs) && d.up.count >= cfg.contThresh;
      var start := Extends(events, d.psi.killing, rs) && !upgrade && NotBelowPolled(d.poll, level);
      var interval := if swapIsLow || d.psi.killing then PSI_POLL_PERIOD_SHORT_MS
                      else if level == VMPRESS_LEVEL_SUPER_CRITICAL then cfg.scritPeriodMs
                      else PSI_POLL_PERIOD_LONG_MS;
      d.(up := if upgrade then d.up.(count := 0) else d.up,
         wbf := if start && !d.psi.killing then Lowered(d.wbf) else d.wbf,
         poll := d.poll.(intervalMs := interval,
                         update := if upgrade then CritUpgrade else if start then Start else d.poll.update))
  }

  // ---------- the whole handler ----------

  /**
   The handler up to `no_kill`: the daemon, what is known about reclaim and swap, whether the
   handler returned early, the kills tried, and what was measured and decided if it came that far.
   */
  datatype Body = Body(
    d: Daemon, rs: Reclaim, swapIsLow: bool, early: bool,
    attempts: seq<Attempt>, thrashed: Option<Thrashed>, verdict: Option<Verdict>, pages: int)
  {
    /** The handler came to the point of killing. */
    predicate Scanned() {
      verdict.Some? && verdict.value.complete && verdict.value.dec.reason != NoReason
    }
  }

  function FactsOf(limit: int, afterKill: bool, level: int, events: bool, rs: Reclaim, compaction: bool,
                   thrashing: int, vm: VmStat, mem: Mem, r: Reading, cfg: Settings): Facts {
    Facts(afterKill, level, events, rs, compaction, thrashing, limit, mem, r.directMs,
          (vm.inactiveFile + vm.activeFile) * cfg.pageK)
  }

  /** From the verdict on. */
  function Act(d: Daemon, v: Verdict, rs: Reclaim, swapIsLow: bool, th: Thrashed, now: int, r: Reading, cfg: Settings): Body
    requires WellFormed(d.reg) && MinScore(v) >= OOM_SCORE_ADJ_MIN
  {
    var p := d.psi.(checkFilecache := v.dec.checkFilecache, firstKill := v.firstKill);
    if !v.complete || v.dec.reason == NoReason
    then Body(d.(psi := p), rs, swapIsLow, !v.complete, [], Some(th), Some(v), 0)
    else
      var scan := FindAndKill(d.reg, MinScore(v), cfg.killHeaviest, r.world, 0, cfg.debuggable, r.script);
      var d1 := d.(reg := scan.st, psi := AfterScan(p, scan.killed, scan.attempts, v.dec.cut, now, cfg),
                   wbf := if scan.killed > 0 then KillBoost(d.wbf, v.dec.reason, cfg) else d.wbf);
      Body(d1, rs, swapIsLow, false, scan.attempts, Some(th), Some(v), scan.killed)
  }

  /** The statics, the reclaim state and, unless the system is idle, what was measured and decided. */
  datatype Prep = Prep(psi: Psi, up: Upgrade, rs: Reclaim, judged: Option<(Thrashed, Verdict)>)

  /** From the readings of vmstat and meminfo to the verdict. */
  function Prepare(p: Psi, up: Upgrade, wbf: int, level: int, events: bool, now: int, vm: VmStat, mem: Mem,
                   r: Reading, cfg: Settings): Prep {
    var p1 := AfterKill(p, vm, now);
    var rs := ReclaimState(p1, vm, r, cfg);
    var compaction := vm.compactStall > p1.initCompactStall;
    var p2 := AfterReclaim(p1, vm, rs);
    if rs == NoReclaim && vm.refault == p2.prevRefault && !compaction then Prep(p2, up, rs, None)
    else
      var th := Thrash(p2, vm, now, cfg);
      var flagged := level < VMPRESS_LEVEL_CRITICAL && rs.IsDirect() && r.first.Some?;
      var f := FactsOf(th.p.limit, p.killing, level, events, rs, compaction, th.thrashing, vm, mem, r, cfg);
      var v := Passes(wbf, th.p.firstKill, th.p.checkFilecache, f, r, cfg);
      Prep(th.p, if flagged then up.(flag := true) else up, rs, Some((th, v)))
  }

  /** From the readings of vmstat and meminfo on. */
  function Measure(d: Daemon, level: int, events: bool, now: int, vm: VmStat, mem: Mem, r: Reading, cfg: Settings): Body
    requires WellFormed(d.reg) && Sane(cfg)
  {
    PrepareMin(d.psi, d.up, d.wbf, level, events, now, vm, mem, r, cfg);
    var q := Prepare(d.psi, d.up, d.wbf, level, events, now, vm, mem, r, cfg);
    var d1 := d.(psi := q.psi, up := q.up);
    match q.judged
    case None => Body(d1, q.rs, mem.swapIsLow, false, [], None, None, 0)
    case Some(j) => Act(d1, j.1, q.rs, mem.swapIsLow, j.0, now, r, cfg)
  }

  function Entered(d: Daemon, level: int, events: bool, cfg: Settings): Daemon {
    d.(wbf := Boosted(d, level, events, cfg), poll := d.poll.(update := DoNotChange))
  }

  function Handle(d0: Daemon, level: int, events: bool, r: Reading, cfg: Settings): Body
    requires WellFormed(d0.reg) && Sane(cfg)
  {
    var d := Entered(d0, level, events, cfg);
    if r.now.None? then Body(d, NoReclaim, false, true, [], None, None, 0)
    else if Skips(d, r.alive, r.now.value, cfg) then Body(d, NoReclaim, false, false, [], None, None, 0)
    else
      StopWaitWellFormed(d.reg);
      var d1 := d.(reg := StopWait(d.reg));
      if r.vm.None? || r.mem.None? then Body(d1, NoReclaim, false, true, [], None, None, 0)
      else Measure(d1, level, events, r.now.value, r.vm.value, r.mem.value, r, cfg)
  }

  /** mp_event_psi */
  function PsiCycle(d: Daemon, level: int, events: bool, r: Reading, cfg: Settings): Daemon
    requires WellFormed(d.reg) && Sane(cfg)
  {
    var b := Handle(d, level, events, r, cfg);
    if b.early then b.d else Finish(b.d, level, events, b.rs, b.swapIsLow, cfg)
  }

  // ---------- nobody below zero ----------

  lemma DecideMin(d: Decision, w: Level, f: Facts, cfg: Settings)
    requires d.min >= 0 && Sane(cfg)
    ensures Decide(d, w, f, cfg).min >= 0
    ensures d.reason != NoReason ==> Decide(d, w, f, cfg).reason != NoReason
  {
  }

  /** Every decision path, the repeated first pass included, keeps the floor at or above zero. */
  lemma VerdictMin(wbf: int, firstKill: bool, checkFilecache: bool, f: Facts, r: Reading, cfg: Settings)
    requires Sane(cfg)
    ensures var v := Passes(wbf, firstKill, checkFilecache, f, r, cfg);
            v.dec.min >= 0 && MinScore(v) >= 0
  {
    var d0 := Decision(NoReason, 0, false, checkFilecache);
    if r.first.Some? {
      var d1 := Decide(d0, WatermarkOf(r.first.value, wbf, f, cfg), f, cfg);
      DecideMin(d0, WatermarkOf(r.first.value, wbf, f, cfg), f, cfg);
      if r.second.Some? {
        DecideMin(d1, WatermarkOf(r.second.value, wbf, f, cfg), f, cfg);
      }
    }
  }

  lemma PrepareMin(p: Psi, up: Upgrade, wbf: int, level: int, events: bool, now: int, vm: VmStat, mem: Mem,
                   r: Reading, cfg: Settings)
    requires Sane(cfg)
    ensures var q := Prepare(p, up, wbf, level, events, now, vm, mem, r, cfg);
            && (q.judged.Some? ==> MinScore(q.judged.value.1) >= 0)
            && q.up in {up, up.(flag := true)}
  {
    hide Thrash, Passes, AfterKill, AfterReclaim, ReclaimState, FactsOf, MinScore;
    var p1 := AfterKill(p, vm, now);
    var rs := ReclaimState(p1, vm, r, cfg);
    var th := Thrash(AfterReclaim(p1, vm, rs), vm, now, cfg);
    var f := FactsOf(th.p.limit, p.killing, level, events, rs, vm.compactStall > p1.initCompactStall,
                     th.thrashing, vm, mem, r, cfg);
    VerdictMin(wbf, th.p.firstKill, th.p.checkFilecache, f, r, cfg);
  }
}
