/**
 The whole daemon as a step system: pressure events, polling turns, death and failure notices,
 timeouts, client commands, dropped connections, and the steps of the watchdog thread, in any
 order. What every run keeps is proved here.
 */
module DaemonModel {
  import opened Options
  import opened RegistryModel
  import opened SelectionModel
  import opened Watermark
  import opened Time
  import opened PsiModel

  // ---------- call_handler ----------

  function ResumePolling(p: Polling, now: int): Polling {
    p.(startTm := now, poll := p.paused, intervalMs := PSI_POLL_PERIOD_SHORT_MS, paused := None)
  }

  /** The switch of call_handler; `handler` is the pressure level of the handler, None for others. */
  function Switch(d: Daemon, handler: Option<int>, now: int, cfg: Settings): Daemon {
    var p := if handler.Some? && d.poll.poll == handler then d.poll.(lastPollTm := now) else d.poll;
    match p.update
    case Start => d.(poll := p.(startTm := now, poll := handler))
    case Pause => d.(poll := p.(paused := handler, poll := None))
    case Resume => d.(poll := ResumePolling(p, now))
    case DoNotChange =>
      if p.poll.Some? && Elapsed(p.startTm, now) > cfg.windowMs
      then d.(poll := p.(poll := None, paused := None), wbf := cfg.boostFactor)
      else d.(poll := p)
    case CritUpgrade =>
      var q := p.(startTm := now);
      d.(poll := if handler.Some? && handler.value <= VMPRESS_LEVEL_CRITICAL
                 then q.(poll := Some(VMPRESS_LEVEL_CRITICAL)) else q)
  }

  /** check_cont_lmkd_events */
  function CheckCont(u: Upgrade, level: int, now: int, cfg: Settings): Upgrade {
    var prev := if level == VMPRESS_LEVEL_MEDIUM then u.tmed else u.tcrit;
    var u1 := if level == VMPRESS_LEVEL_MEDIUM then u.(tmed := now) else u.(tcrit := now);
    if Elapsed(prev, now) < cfg.windowMs * 3 / 2 then
      if Elapsed(u.tupgrad, now) > cfg.windowMs then
        if u.flag then u1.(count := u.count + 1, flag := false, tupgrad := now) else u1.(count := 0)
      else u1
    else u1.(count := 0)
  }

  // ---------- events ----------

  datatype Command =
    | ProcPrio(req: Request, env: Answers, perAppMemcg: bool)
    | ProcRemoveCmd(pid: int)
    | ProcPurge
    | OtherCmd

  /** The watchdog thread: the victim it copied, and whether it still has to invalidate the record. */
  datatype Dog = Idle | Aiming(pid: int, rec: Rec) | Hit(pid: int)

  datatype Sys = Sys(d: Daemon, dog: Dog, clock: int)

  datatype Event =
    | Pressure(level: int, checkTm: int, r: Reading, now: int)
    | PollTurn(r: Reading, now: int)
    | DeathNotice(now: int)
    | FailureNotice(pid: int, now: int)
    | LoopTimeout(before: int, now: int)
    | ClientCommand(client: int, cmd: Command, now: int)
    | Hangup(client: int)
    | DogAims(adj: OomAdj, pid: int)
    | DogFires(ok: bool)
    | DogMarks

  /** The instants an event reads off the clock, none before `clock`, none after the next. */
  predicate Timely(clock: int, ev: Event) {
    match ev
    case Pressure(_, checkTm, r, now) =>
      clock <= checkTm <= now && (r.now.Some? ==> checkTm <= r.now.value <= now)
    case PollTurn(r, now) => clock <= now && (r.now.Some? ==> clock <= r.now.value <= now)
    case LoopTimeout(before, now) => clock <= before <= now
    case DeathNotice(now) => clock <= now
    case FailureNotice(_, now) => clock <= now
    case ClientCommand(_, _, now) => clock <= now
    case _ => true
  }

  function ClockAfter(clock: int, ev: Event): int {
    match ev
    case Hangup(_) => clock
    case DogAims(_, _) => clock
    case DogFires(_) => clock
    case DogMarks => clock
    case _ => ev.now
  }

  /** The kernel hands out unused descriptors and the process named exists. */
  predicate Plausible(st: State, cmd: Command) {
    cmd.ProcPrio? ==> FreshFd(st, cmd.env) && (cmd.env.writeOk ==> cmd.req.pid > 0)
  }

  predicate Enabled(s: Sys, ev: Event, cfg: Settings) {
    && Timely(s.clock, ev)
    && (match ev
        case Pressure(level, _, _, _) => 0 <= level <= VMPRESS_LEVEL_SUPER_CRITICAL
        case PollTurn(_, _) => s.d.poll.poll.Some?
        case LoopTimeout(before, now) =>
          // epoll_wait slept for what was left of the timeout
          && s.d.poll.poll.None? && cfg.killTimeoutMs != 0 && Waiting(s.d.reg)
          && now - before >= (cfg.killTimeoutMs - Elapsed(s.d.psi.lastKillTm, before)) * NS_PER_MS
        case ClientCommand(client, cmd, _) => client != 0 && Plausible(s.d.reg, cmd)
        case Hangup(client) => client != 0
        case DogAims(adj, pid) =>
          s.dog.Idle? && adj >= 0 && |s.d.reg.slots| == ADJTOSLOT_COUNT
          && pid in s.d.reg.slots[AdjToSlot(adj)] && pid in s.d.reg.recs
        case DogFires(_) => s.dog.Aiming?
        case DogMarks => s.dog.Hit?
        case DeathNotice(_) => true   // one fetched earlier may be handled after the wait has ended
        case FailureNotice(_, _) => true)
  }

  function RunCommand(st: State, client: int, cmd: Command): State
    requires |st.slots| == ADJTOSLOT_COUNT
  {
    match cmd
    case ProcPrio(req, env, perAppMemcg) => ApplyProcPrio(st, req, client, perAppMemcg, env)
    case ProcRemoveCmd(pid) => ProcRemove(st, pid, client)
    case ProcPurge => Purge(st, client)
    case OtherCmd => st
  }

  /** What a pressure event does before its handler is called: count the event. */
  function Counted(d: Daemon, ev: Event, cfg: Settings): Daemon {
    if ev.Pressure? && (ev.level == VMPRESS_LEVEL_MEDIUM || ev.level == VMPRESS_LEVEL_CRITICAL)
    then d.(up := CheckCont(d.up, ev.level, ev.checkTm, cfg)) else d
  }

  /** The level whose handler an event runs. */
  function LevelOf(d: Daemon, ev: Event): int
    requires ev.Pressure? || ev.PollTurn?
    requires ev.PollTurn? ==> d.poll.poll.Some?
  {
    if ev.Pressure? then ev.level else d.poll.poll.value
  }

  predicate RunsHandler(d: Daemon, ev: Event) {
    ev.Pressure? || (ev.PollTurn? && d.poll.poll.Some?)
  }

  /** The body of the handler an event runs. */
  function BodyOf(d: Daemon, ev: Event, cfg: Settings): Body
    requires WellFormed(d.reg) && Sane(cfg) && RunsHandler(d, ev)
  {
    Handle(Counted(d, ev, cfg), LevelOf(d, ev), ev.Pressure?, ev.r, cfg)
  }

  /** kill_done_handler and kill_fail_handler */
  function EndWait(d: Daemon): Daemon {
    d.(reg := StopWait(d.reg), poll := d.poll.(update := Resume))
  }

  function MainStep(d: Daemon, ev: Event, cfg: Settings): Daemon
    requires WellFormed(d.reg) && Sane(cfg)
    requires ev.PollTurn? ==> d.poll.poll.Some?
  {
    match ev
    case Pressure(level, _, r, now) => Switch(PsiCycle(Counted(d, ev, cfg), level, true, r, cfg), Some(level), now, cfg)
    case PollTurn(r, now) => Switch(PsiCycle(d, d.poll.poll.value, false, r, cfg), d.poll.poll, now, cfg)
    case DeathNotice(now) => Switch(EndWait(d), None, now, cfg)
    case FailureNotice(_, now) => Switch(EndWait(d), None, now, cfg)
    case LoopTimeout(_, now) =>
      var d1 := d.(reg := StopWait(d.reg));
      if d.poll.paused.Some? then d1.(poll := ResumePolling(d.poll.(update := Resume), now)) else d1
    case ClientCommand(client, cmd, now) =>
      Switch(d.(reg := RunCommand(d.reg, client, cmd), poll := d.poll.(update := DoNotChange)), None, now, cfg)
    case Hangup(client) => d.(reg := Unclaim(d.reg, client))
    case DogAims(_, _) => d
    case DogFires(_) => d
    case DogMarks => d
  }

  function DogStep(dog: Dog, st: State, ev: Event): Dog {
    match ev
    case DogAims(_, pid) => if pid in st.recs then Aiming(pid, st.recs[pid]) else dog
    case DogFires(ok) => if dog.Aiming? && dog.rec.valid && ok then Hit(dog.pid) else Idle
    case DogMarks => Idle
    case _ => dog
  }

  function Step(s: Sys, ev: Event, cfg: Settings): Sys
    requires WellFormed(s.d.reg) && Sane(cfg) && Enabled(s, ev, cfg)
  {
    var d := MainStep(s.d, ev, cfg);
    Sys(if ev.DogMarks? && s.dog.Hit? then d.(reg := Invalidate(d.reg, s.dog.pid)) else d,
        DogStep(s.dog, s.d.reg, ev), ClockAfter(s.clock, ev))
  }

  // ---------- the registry stays well formed ----------

  lemma ApplyPrioWellFormed(st: State, req: Request, client: int, perAppMemcg: bool, env: Answers)
    requires WellFormed(st) && FreshFd(st, env) && (env.writeOk ==> req.pid > 0)
    ensures WellFormed(ApplyProcPrio(st, req, client, perAppMemcg, env))
  {
    if InRange(req.oomadj) && env.writeOk {
      RegisterWellFormed(st, req, client, perAppMemcg, env);
    }
  }

  lemma CommandWellFormed(st: State, client: int, cmd: Command)
    requires WellFormed(st) && Plausible(st, cmd)
    ensures WellFormed(RunCommand(st, client, cmd))
  {
    match cmd
    case ProcPrio(req, env, perAppMemcg) => ApplyPrioWellFormed(st, req, client, perAppMemcg, env);
    case ProcRemoveCmd(pid) => RemoveOne(st, pid);
    case ProcPurge => RemoveAllWellFormed(st, ClaimableBy(st, client));
    case OtherCmd =>
  }

  /** The handler got past the wait for an earlier kill. */
  predicate PastWait(d: Daemon, r: Reading, cfg: Settings) {
    r.now.Some? && !Skips(d, r.alive, r.now.value, cfg)
  }

  ghost predicate ScanOf(st: State, b: Body, r: Reading, cfg: Settings)
    requires WellFormed(st) && b.Scanned() && MinScore(b.verdict.value) >= 0
  {
    var scan := FindAndKill(st, MinScore(b.verdict.value), cfg.killHeaviest, r.world, 0, cfg.debuggable, r.script);
    b.d.reg == scan.st && b.attempts == scan.attempts && b.pages == scan.killed
  }

  /** Whatever the readings say, the registry sees the end of a wait and at most one scan. */
  lemma HandleReg(d: Daemon, level: int, events: bool, r: Reading, cfg: Settings)
    requires WellFormed(d.reg) && Sane(cfg)
    ensures var b := Handle(d, level, events, r, cfg);
            && WellFormed(StopWait(d.reg)) && WellFormed(b.d.reg)
            && (b.Scanned() ==> PastWait(d, r, cfg) && MinScore(b.verdict.value) >= 0 && ScanOf(StopWait(d.reg), b, r, cfg))
            && (!b.Scanned() ==> b.attempts == [] && b.pages == 0
                                 && b.d.reg == if PastWait(d, r, cfg) then StopWait(d.reg) else d.reg)
            && b.d.poll == d.poll.(update := DoNotChange)
  {
    hide FindAndKill, AfterScan, Prepare, WellFormed, StopWait, MinScore;
    StopWaitWellFormed(d.reg);
    if PastWait(d, r, cfg) && r.vm.Some? && r.mem.Some? {
      var e := Entered(d, level, events, cfg);
      PrepareMin(e.psi, e.up, e.wbf, level, events, r.now.value, r.vm.value, r.mem.value, r, cfg);
    }
  }

  lemma FinishKeeps(d: Daemon, level: int, events: bool, rs: Reclaim, swapIsLow: bool, cfg: Settings)
    requires d.poll.update == DoNotChange
    ensures var e := Finish(d, level, events, rs, swapIsLow, cfg);
            && e.reg == d.reg && e.psi == d.psi
            && e.poll == d.poll.(update := e.poll.update, intervalMs := e.poll.intervalMs)
            && (if Waiting(d.reg) then e.poll.update == Pause && e.up == d.up
                else && e.poll.update in {DoNotChange, Start, CritUpgrade}
                     && (e.poll.update == Start ==> NotBelowPolled(d.poll, level))
                     && (if e.poll.update == CritUpgrade
                         then d.up.count >= cfg.contThresh && e.up == d.up.(count := 0) else e.up == d.up))
  {
  }

  /** The handler and the polling parameters: a wait is always announced, and only a wait. */
  lemma CyclePoll(d: Daemon, level: int, events: bool, r: Reading, cfg: Settings)
    requires WellFormed(d.reg) && Sane(cfg)
    ensures var b := Handle(d, level, events, r, cfg);
            var e := PsiCycle(d, level, events, r, cfg);
            && e.reg == b.d.reg && WellFormed(e.reg)
            && e.poll == d.poll.(update := e.poll.update, intervalMs := e.poll.intervalMs)
            && (Waiting(e.reg) ==> e.poll.update == Pause || (b.early && e.reg == d.reg && e.poll.update == DoNotChange))
            && (!Waiting(e.reg) ==> e.poll.update in {DoNotChange, Start, CritUpgrade})
            && (e.poll.update == Start ==> NotBelowPolled(d.poll, level))
            && (e.poll.update == Pause ==> Waiting(e.reg))
  {
    hide FindAndKill, Handle, WellFormed, Finish;
    HandleReg(d, level, events, r, cfg);
    var b := Handle(d, level, events, r, cfg);
    FinishKeeps(b.d, level, events, b.rs, b.swapIsLow, cfg);
    if b.early {
      EarlyReturn(d, level, events, r, cfg);
    }
  }

  /** A handler that returns early either changed nothing of the wait or has ended it. */
  lemma EarlyReturn(d: Daemon, level: int, events: bool, r: Reading, cfg: Settings)
    requires WellFormed(d.reg) && Sane(cfg) && Handle(d, level, events, r, cfg).early
    ensures var b := Handle(d, level, events, r, cfg);
            && !b.Scanned() && (b.d.reg == d.reg || b.d.reg == StopWait(d.reg))
            && (Waiting(b.d.reg) ==> b.d.reg == d.reg)
  {
    hide FindAndKill, AfterScan, Prepare, WellFormed;
    StopWaitWellFormed(d.reg);
  }

  lemma MainStepWellFormed(d: Daemon, ev: Event, cfg: Settings)
    requires WellFormed(d.reg) && Sane(cfg)
    requires ev.PollTurn? ==> d.poll.poll.Some?
    requires ev.ClientCommand? ==> Plausible(d.reg, ev.cmd)
    ensures WellFormed(MainStep(d, ev, cfg).reg)
  {
    hide WellFormed, PsiCycle, StopWait, RunCommand, CheckCont;
    match ev
    case Pressure(level, checkTm, r, now) => CyclePoll(Counted(d, ev, cfg), level, true, r, cfg);
    case PollTurn(r, now) => CyclePoll(d, d.poll.poll.value, false, r, cfg);
    case ClientCommand(client, cmd, now) => CommandWellFormed(d.reg, client, cmd);
    case Hangup(client) => UnclaimWellFormed(d.reg, client);
    case _ => StopWaitWellFormed(d.reg);
  }

  // ---------- runs ----------

  /** The daemon as started. */
  function Started(pidfdSupported: bool, cfg: Settings): Sys {
    Sys(Boot(pidfdSupported, cfg), Idle, 0)
  }

  /** Event `ev` is enabled in `s` and leads to `s'`. */
  ghost predicate Goes(s: Sys, ev: Event, s': Sys, cfg: Settings) {
    WellFormed(s.d.reg) && Sane(cfg) && Enabled(s, ev, cfg) && s' == Step(s, ev, cfg)
  }

  ghost predicate StepAt(ss: seq<Sys>, evs: seq<Event>, k: int, cfg: Settings)
    requires |ss| == |evs| + 1
  {
    0 <= k < |evs| && Goes(ss[k], evs[k], ss[k + 1], cfg)
  }

  /** A run: the states passed through and the events between them. */
  ghost predicate IsRun(ss: seq<Sys>, evs: seq<Event>, cfg: Settings) {
    && Sane(cfg) && |ss| == |evs| + 1 && WellFormed(ss[0].d.reg)
    && (forall k :: 0 <= k < |evs| ==> StepAt(ss, evs, k, cfg))
  }

  lemma RunStep(ss: seq<Sys>, evs: seq<Event>, k: nat, cfg: Settings)
    requires IsRun(ss, evs, cfg) && k < |evs|
    ensures Goes(ss[k], evs[k], ss[k + 1], cfg)
  {
    assert StepAt(ss, evs, k, cfg);
  }

  /** The well-formedness asked for along a run is no restriction: every enabled step keeps it. */
  lemma StepWellFormed(s: Sys, ev: Event, cfg: Settings)
    requires WellFormed(s.d.reg) && Sane(cfg) && Enabled(s, ev, cfg)
    ensures WellFormed(Step(s, ev, cfg).d.reg)
  {
    hide MainStep, WellFormed;
    MainStepWellFormed(s.d, ev, cfg);
    if s.dog.Hit? {
      InvalidateWellFormed(MainStep(s.d, ev, cfg).reg, s.dog.pid);
    }
  }

  lemma RunWellFormed(ss: seq<Sys>, evs: seq<Event>, k: nat, cfg: Settings)
    requires IsRun(ss, evs, cfg) && k <= |evs|
    ensures WellFormed(ss[k].d.reg)
  {
    hide Step, WellFormed, Enabled;
    if k > 0 {
      RunStep(ss, evs, k - 1, cfg);
      StepWellFormed(ss[k - 1], evs[k - 1], cfg);
    }
  }
}
