/** Pause, resume and upgrade of polling over every run of the daemon. */
module PollingRuns {
  import opened Options
  import opened RegistryModel
  import opened SelectionModel
  import opened Watermark
  import opened Time
  import opened PsiModel
  import opened DaemonModel

  /** While a death is awaited, polling is paused and can be resumed. */
  predicate PausedWhileWaiting(d: Daemon) {
    Waiting(d.reg) ==> d.poll.poll.None? && d.poll.paused.Some?
  }

  /** The handler has run at `level`, and the switch of call_handler acts on what it asked for. */
  lemma HandlerThenSwitch(d: Daemon, level: int, events: bool, r: Reading, now: int, cfg: Settings)
    requires WellFormed(d.reg) && Sane(cfg) && PausedWhileWaiting(d)
    ensures PausedWhileWaiting(Switch(PsiCycle(d, level, events, r, cfg), Some(level), now, cfg))
  {
    hide PsiCycle, Handle, WellFormed, Elapsed;
    CyclePoll(d, level, events, r, cfg);
  }

  lemma CommandKeepsWait(st: State, client: int, cmd: Command)
    requires WellFormed(st)
    ensures var r := RunCommand(st, client, cmd);
            r.lastKill == st.lastKill && r.pidfdSupported == st.pidfdSupported
  {
  }

  lemma MainStepPauses(d: Daemon, ev: Event, cfg: Settings)
    requires WellFormed(d.reg) && Sane(cfg) && PausedWhileWaiting(d)
    requires ev.PollTurn? ==> d.poll.poll.Some?
    ensures PausedWhileWaiting(MainStep(d, ev, cfg))
  {
    hide PsiCycle, RunCommand, WellFormed, Elapsed;
    match ev
    case Pressure(level, checkTm, r, now) => HandlerThenSwitch(Counted(d, ev, cfg), level, true, r, now, cfg);
    case PollTurn(r, now) => HandlerThenSwitch(d, d.poll.poll.value, false, r, now, cfg);
    case ClientCommand(client, cmd, now) => CommandKeepsWait(d.reg, client, cmd);
    case _ => StopWaitWellFormed(d.reg);
  }

  lemma StepPauses(s: Sys, ev: Event, cfg: Settings)
    requires WellFormed(s.d.reg) && Sane(cfg) && Enabled(s, ev, cfg) && PausedWhileWaiting(s.d)
    ensures PausedWhileWaiting(Step(s, ev, cfg).d)
  {
    hide MainStep, WellFormed;
    MainStepPauses(s.d, ev, cfg);
  }

  /**
   In every reachable state, waiting for a pidfd to report a death means that polling is off
   and that the handler to resume is known.
   */
  lemma {:induction false} RunPauses(ss: seq<Sys>, evs: seq<Event>, k: nat, cfg: Settings)
    requires IsRun(ss, evs, cfg) && k <= |evs| && PausedWhileWaiting(ss[0].d)
    ensures PausedWhileWaiting(ss[k].d)
  {
    hide Step, WellFormed, Enabled;
    if k > 0 {
      RunPauses(ss, evs, k - 1, cfg);
      RunStep(ss, evs, k - 1, cfg);
      StepPauses(ss[k - 1], evs[k - 1], cfg);
    }
  }

  /** A notice or the loop's own timeout that ends a wait restarts polling where it was paused. */
  lemma NoticeResumes(s: Sys, ev: Event, cfg: Settings)
    requires WellFormed(s.d.reg) && Sane(cfg) && Enabled(s, ev, cfg) && PausedWhileWaiting(s.d)
    requires Waiting(s.d.reg) && (ev.DeathNotice? || ev.FailureNotice? || ev.LoopTimeout?)
    ensures var d := Step(s, ev, cfg).d;
            && !Waiting(d.reg) && d.poll.poll == s.d.poll.paused && d.poll.poll.Some? && d.poll.paused.None?
            && d.poll.startTm == ev.now && d.poll.intervalMs == PSI_POLL_PERIOD_SHORT_MS
  {
    StopWaitWellFormed(s.d.reg);
  }

  // ---------- whether a scan leaves a death to wait for ----------

  /** Whether a wait is on after these attempts, of which each signal starts or gives up one. */
  predicate AwaitsAfter(waiting: bool, atts: seq<Attempt>)
    decreases atts
  {
    if atts == [] then waiting
    else AwaitsAfter(if atts[0].Signals() then atts[0].kind == Killed && atts[0].epollOk else waiting, atts[1..])
  }

  lemma {:induction false} AwaitsAppend(waiting: bool, a: seq<Attempt>, b: seq<Attempt>)
    ensures AwaitsAfter(waiting, a + b) == AwaitsAfter(AwaitsAfter(waiting, a), b)
    decreases a
  {
    if a == [] {
      assert a + b == b;
    } else {
      assert (a + b)[1..] == a[1..] + b;
      AwaitsAppend(if a[0].Signals() then a[0].kind == Killed && a[0].epollOk else waiting, a[1..], b);
    }
  }

  lemma KillOneAwaits(st: State, pid: int, pr: Probe)
    requires WellFormed(st) && pid in st.recs && st.pidfdSupported
    ensures var r := KillOne(st, pid, pr);
            Waiting(r.st) == AwaitsAfter(Waiting(st), [r.att]) && r.st.pidfdSupported
  {
    KillOneOpen(st, pid, pr);
    var a := [KillOne(st, pid, pr).att];
    assert a[1..] == [];
  }

  lemma {:induction false} DrainAwaits(st: State, adj: OomAdj, heaviest: bool, killed: int, w: World, t: nat)
    requires WellFormed(st) && st.pidfdSupported
    ensures var r := DrainSlot(st, adj, heaviest, killed, w, t);
            Waiting(r.st) == AwaitsAfter(Waiting(st), r.attempts) && r.st.pidfdSupported
    decreases st.recs.Keys
  {
    SelectWellFormed(st, adj, heaviest, w, t);
    var p := Select(st, adj, heaviest, w, t);
    assert p.st.lastKill == st.lastKill && p.st.pidfdSupported;
    hide KillOne, Select, Shape, FdsOwned;
    if p.pid.Some? {
      var pid := p.pid.value;
      var pr := w.probe(t, pid);
      KillOneKeeps(p.st, pid, pr);
      KillOneAwaits(p.st, pid, pr);
      var o := KillOne(p.st, pid, pr);
      if o.att.result < 0 {
        assert pid in st.recs.Keys && pid !in o.st.recs.Keys;
        DrainAwaits(o.st, adj, heaviest, o.att.result, w, t + 1);
        AwaitsAppend(Waiting(st), [o.att], DrainSlot(o.st, adj, heaviest, o.att.result, w, t + 1).attempts);
      }
    }
  }

  lemma {:induction false} ScanAwaits(st: State, i: int, min: int, choose: bool, w: World, t: nat)
    requires WellFormed(st) && OOM_SCORE_ADJ_MIN <= min && i <= OOM_SCORE_ADJ_MAX && st.pidfdSupported
    ensures var r := ScanDown(st, i, min, choose, w, t);
            Waiting(r.st) == AwaitsAfter(Waiting(st), r.attempts)
    decreases i - min + 1
  {
    hide DrainSlot, WellFormed;
    if i >= min {
      var heavy := choose || i <= PERCEPTIBLE_APP_ADJ;
      var a := DrainSlot(st, i, heavy, 0, w, t);
      DrainAwaits(st, i, heavy, 0, w, t);
      if a.killed == 0 {
        ScanAwaits(a.st, i - 1, min, choose, w, a.t);
        AwaitsAppend(Waiting(st), a.attempts, ScanDown(a.st, i - 1, min, choose, w, a.t).attempts);
      }
    }
  }

  /** A handler that gets past the wait leaves one on exactly if its attempts do. */
  lemma HandleAwaits(d: Daemon, level: int, events: bool, r: Reading, cfg: Settings)
    requires WellFormed(d.reg) && Sane(cfg) && d.reg.pidfdSupported && PastWait(d, r, cfg)
    ensures var b := Handle(d, level, events, r, cfg);
            Waiting(b.d.reg) <==> AwaitsAfter(false, b.attempts)
  {
    hide Handle, Shape, FdsOwned, ScanDown, PastWait, MinScore;
    HandleReg(d, level, events, r, cfg);
    var b := Handle(d, level, events, r, cfg);
    if b.Scanned() {
      ScanAwaits(StopWait(d.reg), OOM_SCORE_ADJ_MAX, MinScore(b.verdict.value), cfg.killHeaviest, r.world, 0);
    }
  }

  /**
   A pressure event may end a wait too, when the kill timed out. It then leaves polling off with
   nothing to restart it if and only if a reading fails, or it asks to upgrade a super critical
   handler and no kill of its own is being waited for.
   */
  lemma PressureEndsWait(s: Sys, ev: Event, cfg: Settings)
    requires WellFormed(s.d.reg) && Sane(cfg) && Enabled(s, ev, cfg) && PausedWhileWaiting(s.d)
    requires Waiting(s.d.reg) && ev.Pressure?
    ensures var d := Step(s, ev, cfg).d;
            !Waiting(d.reg) && d.poll.poll.None? <==>
            && PastWait(s.d, ev.r, cfg)
            && (|| ReadFails(Counted(s.d, ev, cfg), ev.level, true, ev.r, cfg)
                || (&& ev.level > VMPRESS_LEVEL_CRITICAL && s.d.up.count >= cfg.contThresh
                    && !AwaitsAfter(false, BodyOf(s.d, ev, cfg).attempts)))
  {
    hide Handle, WellFormed, Elapsed, ReadFails, AwaitsAfter;
    var d := Counted(s.d, ev, cfg);
    EarlyIff(d, ev.level, true, ev.r, cfg);
    HandleReg(d, ev.level, true, ev.r, cfg);
    HandleCount(d, ev.level, true, ev.r, cfg);
    if PastWait(d, ev.r, cfg) {
      HandleAwaits(d, ev.level, true, ev.r, cfg);
      if Handle(d, ev.level, true, ev.r, cfg).early {
        EarlyReturn(d, ev.level, true, ev.r, cfg);
      }
    }
  }

  lemma HandleCount(d: Daemon, level: int, events: bool, r: Reading, cfg: Settings)
    requires WellFormed(d.reg) && Sane(cfg)
    ensures Handle(d, level, events, r, cfg).d.up in {d.up, d.up.(flag := true)}
  {
    hide FindAndKill, AfterScan, Prepare, WellFormed, StopWait;
    StopWaitWellFormed(d.reg);
    if r.now.Some? && r.vm.Some? && r.mem.Some? {
      var e := Entered(d, level, events, cfg);
      PrepareMin(e.psi, e.up, e.wbf, level, events, r.now.value, r.vm.value, r.mem.value, r, cfg);
    }
  }

  /** Neither reclaim nor compaction nor refaults: the handler does not look at the zones. */
  predicate SystemIdle(p: Psi, vm: VmStat, now: int, r: Reading, cfg: Settings) {
    var p1 := AfterKill(p, vm, now);
    && ReclaimState(p1, vm, r, cfg) == NoReclaim
    && vm.refault == p1.prevRefault && vm.compactStall <= p1.initCompactStall
  }

  /** What the first look at the zones, `z`, makes the handler decide. */
  function FirstDecision(d: Daemon, level: int, events: bool, now: int, vm: VmStat, mem: Mem, r: Reading, z: Zones,
                         cfg: Settings): Decision {
    var p1 := AfterKill(d.psi, vm, now);
    var rs := ReclaimState(p1, vm, r, cfg);
    var th := Thrash(AfterReclaim(p1, vm, rs), vm, now, cfg);
    var f := FactsOf(th.p.limit, d.psi.killing, level, events, rs, vm.compactStall > p1.initCompactStall,
                     th.thrashing, vm, mem, r, cfg);
    FirstPass(Boosted(d, level, events, cfg), th.p.checkFilecache, f, z, cfg)
  }

  /**
   A reading the handler asks for fails: the clock; then, unless it skips the event, vmstat or
   meminfo; then, unless the system is idle, the zones; and the zones a second time if the first
   kill ever is about to be made.
   */
  predicate ReadFails(d: Daemon, level: int, events: bool, r: Reading, cfg: Settings) {
    r.now.None? ||
    (&& !Skips(d, r.alive, r.now.value, cfg)
     && (r.vm.None? || r.mem.None? ||
         (&& !SystemIdle(d.psi, r.vm.value, r.now.value, r, cfg)
          && (r.first.None? ||
              (&& r.second.None? && d.psi.firstKill
               && FirstDecision(d, level, events, r.now.value, r.vm.value, r.mem.value, r, r.first.value, cfg).reason != NoReason)))))
  }

  /** The handler returns early exactly when a reading it asks for fails. */
  lemma EarlyIff(d: Daemon, level: int, events: bool, r: Reading, cfg: Settings)
    requires WellFormed(d.reg) && Sane(cfg)
    ensures Handle(d, level, events, r, cfg).early <==> ReadFails(d, level, events, r, cfg)
  {
    hide FindAndKill, AfterScan, Prepare, Passes, FirstPass, WellFormed, StopWait, Thrash, ReclaimState, FactsOf, Elapsed;
    StopWaitWellFormed(d.reg);
    if r.now.Some? && r.vm.Some? && r.mem.Some? {
      PrepareEarly(d, level, events, r, cfg);
    }
  }

  lemma PrepareEarly(d: Daemon, level: int, events: bool, r: Reading, cfg: Settings)
    requires r.now.Some? && r.vm.Some? && r.mem.Some?
    ensures var (now, vm, mem) := (r.now.value, r.vm.value, r.mem.value);
            var q := Prepare(d.psi, d.up, Boosted(d, level, events, cfg), level, events, now, vm, mem, r, cfg);
            && (q.judged.None? <==> SystemIdle(d.psi, vm, now, r, cfg))
            && (q.judged.Some? ==>
                  (!q.judged.value.1.complete <==>
                   r.first.None? ||
                   (r.second.None? && d.psi.firstKill && FirstDecision(d, level, events, now, vm, mem, r, r.first.value, cfg).reason != NoReason)))
  {
    hide FirstPass, Thrash, ReclaimState, FactsOf, Decide, WatermarkOf;
    var p1 := AfterKill(d.psi, r.vm.value, r.now.value);
    ThrashKeeps(AfterReclaim(p1, r.vm.value, ReclaimState(p1, r.vm.value, r, cfg)), r.vm.value, r.now.value, cfg);
  }

  /**
   Outside resumption a polled level is given up only for a pause or when its window is over,
   and otherwise never falls below the smaller of itself and CRITICAL.
   */
  lemma PolledLevelKept(s: Sys, ev: Event, cfg: Settings)
    requires WellFormed(s.d.reg) && Sane(cfg) && Enabled(s, ev, cfg) && PausedWhileWaiting(s.d)
    requires s.d.poll.poll.Some? && !ev.FailureNotice? && !ev.DeathNotice?
    ensures var l := s.d.poll.poll.value;
            var d := Step(s, ev, cfg).d;
            if d.poll.poll.Some?
            then d.poll.poll.value >= l || d.poll.poll.value >= VMPRESS_LEVEL_CRITICAL
            else Waiting(d.reg) || Elapsed(s.d.poll.startTm, ClockAfter(s.clock, ev)) > cfg.windowMs
  {
    hide PsiCycle, RunCommand, WellFormed, Elapsed;
    if ev.Pressure? {
      CyclePoll(Counted(s.d, ev, cfg), ev.level, true, ev.r, cfg);
    } else if ev.PollTurn? {
      CyclePoll(s.d, s.d.poll.poll.value, false, ev.r, cfg);
    }
  }

  /**
   A notice is obeyed even when no wait is on, as after a wait that timed out: polling then goes
   on, at the level paused last, if and only if some handler is still paused.
   */
  lemma StaleNotice(s: Sys, ev: Event, cfg: Settings)
    requires WellFormed(s.d.reg) && Sane(cfg) && Enabled(s, ev, cfg) && !Waiting(s.d.reg)
    requires ev.DeathNotice? || ev.FailureNotice?
    ensures var d := Step(s, ev, cfg).d;
            && d.poll.poll == s.d.poll.paused && d.poll.paused.None?
            && (d.poll.poll.Some? <==> s.d.poll.paused.Some?)
  {
  }

  /** A kill that times out in the main loop and then reports its failure leaves polling off. */
  lemma LateFailureCancels(s: Sys, before: int, now: int, pid: int, later: int, cfg: Settings)
    requires WellFormed(s.d.reg) && Sane(cfg) && PausedWhileWaiting(s.d)
    requires Enabled(s, LoopTimeout(before, now), cfg) && now <= later
    ensures var s1 := Step(s, LoopTimeout(before, now), cfg);
            && WellFormed(s1.d.reg) && Enabled(s1, FailureNotice(pid, later), cfg) && s1.d.poll.poll.Some?
            && Step(s1, FailureNotice(pid, later), cfg).d.poll.poll.None?
  {
    NoticeResumes(s, LoopTimeout(before, now), cfg);
    var s1 := Step(s, LoopTimeout(before, now), cfg);
    StepWellFormed(s, LoopTimeout(before, now), cfg);
    StaleNotice(s1, FailureNotice(pid, later), cfg);
  }

  // ---------- how long polling lasts ----------

  /** What the event asks of the polling loop; None if it does not come by call_handler. */
  function Asks(s: Sys, ev: Event, cfg: Settings): Option<Update>
    requires WellFormed(s.d.reg) && Sane(cfg) && Enabled(s, ev, cfg)
  {
    match ev
    case Pressure(level, _, r, _) => Some(PsiCycle(Counted(s.d, ev, cfg), level, true, r, cfg).poll.update)
    case PollTurn(r, _) => Some(PsiCycle(s.d, s.d.poll.poll.value, false, r, cfg).poll.update)
    case DeathNotice(_) => Some(Resume)
    case FailureNotice(_, _) => Some(Resume)
    case LoopTimeout(_, _) => if s.d.poll.paused.Some? then Some(Resume) else None
    case ClientCommand(_, _, _) => Some(DoNotChange)
    case _ => None
  }

  /** The event starts a stretch of polling: by a start, an upgrade or a resumption. */
  predicate Begins(s: Sys, ev: Event, cfg: Settings)
    requires WellFormed(s.d.reg) && Sane(cfg) && Enabled(s, ev, cfg)
  {
    Asks(s, ev, cfg) in {Some(Start), Some(CritUpgrade), Some(Resume)}
  }

  /** The level polled after an event that does. */
  function PolledAfter(s: Sys, ev: Event, cfg: Settings): Option<int>
    requires WellFormed(s.d.reg) && Sane(cfg) && Enabled(s, ev, cfg) && Begins(s, ev, cfg)
  {
    if Asks(s, ev, cfg) == Some(Resume) then s.d.poll.paused
    else if Asks(s, ev, cfg) == Some(Start) || LevelOf(s.d, ev) <= VMPRESS_LEVEL_CRITICAL
    then Some(if Asks(s, ev, cfg) == Some(Start) then LevelOf(s.d, ev) else VMPRESS_LEVEL_CRITICAL)
    else s.d.poll.poll
  }

  lemma PollStep(s: Sys, ev: Event, cfg: Settings)
    requires WellFormed(s.d.reg) && Sane(cfg) && Enabled(s, ev, cfg)
    ensures var (p, d) := (s.d.poll, Step(s, ev, cfg).d);
            && (Begins(s, ev, cfg) ==> d.poll.startTm == ev.now && d.poll.poll == PolledAfter(s, ev, cfg))
            && (!Begins(s, ev, cfg) ==> d.poll.startTm == p.startTm)
            && (Asks(s, ev, cfg) == Some(DoNotChange) && p.poll.Some? ==>
                  if Elapsed(p.startTm, ev.now) > cfg.windowMs
                  then d.poll.poll.None? && d.poll.paused.None? && d.wbf == cfg.boostFactor
                  else d.poll.poll == p.poll && d.poll.paused == p.paused)
            && (Asks(s, ev, cfg) == None ==> d.poll == p)
            && (RunsHandler(s.d, ev) && p.poll == Some(LevelOf(s.d, ev)) ==> d.poll.lastPollTm == ev.now)
            && (!(RunsHandler(s.d, ev) && p.poll == Some(LevelOf(s.d, ev))) ==> d.poll.lastPollTm == p.lastPollTm)
  {
    hide PsiCycle, Handle, RunCommand, WellFormed, Elapsed, CheckCont, StopWait;
    if RunsHandler(s.d, ev) {
      CyclePoll(Counted(s.d, ev, cfg), LevelOf(s.d, ev), ev.Pressure?, ev.r, cfg);
    }
  }

  /** Event j begins a stretch of polling, and no event after it before event k does. */
  ghost predicate BegunBy(ss: seq<Sys>, evs: seq<Event>, j: nat, k: nat, cfg: Settings) {
    && IsRun(ss, evs, cfg) && j < k <= |evs|
    && StepAt(ss, evs, j, cfg) && Begins(ss[j], evs[j], cfg)
    && (forall m :: j < m < k ==> StepAt(ss, evs, m, cfg) && !Begins(ss[m], evs[m], cfg))
  }

  lemma {:induction false} StartKept(ss: seq<Sys>, evs: seq<Event>, j: nat, k: nat, cfg: Settings)
    requires BegunBy(ss, evs, j, k, cfg)
    ensures ss[k].d.poll.startTm == evs[j].now
    decreases k
  {
    hide Step, WellFormed, Enabled, Asks, PolledAfter, Elapsed;
    assert StepAt(ss, evs, k - 1, cfg);
    PollStep(ss[k - 1], evs[k - 1], cfg);
    if k > j + 1 {
      StartKept(ss, evs, j, k - 1, cfg);
    }
  }

  /**
   On every run: an event that asks for nothing ends polling, and restores the boost, if and only
   if it comes more than a window after the event that began the stretch.
   */
  lemma PollingLasts(ss: seq<Sys>, evs: seq<Event>, j: nat, k: nat, cfg: Settings)
    requires BegunBy(ss, evs, j, k, cfg) && k < |evs| && ss[k].d.poll.poll.Some?
    requires StepAt(ss, evs, k, cfg) && Asks(ss[k], evs[k], cfg) == Some(DoNotChange)
    ensures ss[k + 1].d.poll.poll.None? <==> Elapsed(evs[j].now, evs[k].now) > cfg.windowMs
    ensures ss[k + 1].d.poll.poll.None? ==> ss[k + 1].d.wbf == cfg.boostFactor
    ensures ss[k + 1].d.poll.poll.Some? ==> ss[k + 1].d.poll.poll == ss[k].d.poll.poll
  {
    StartKept(ss, evs, j, k, cfg);
    hide Step, WellFormed, Enabled, PolledAfter, Elapsed;
    PollStep(ss[k], evs[k], cfg);
  }
}
