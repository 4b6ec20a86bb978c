/**
 The pressure handler, the polling switch and the event counter as lmkd runs them, on the linked
 registry and on variables that keep their values between calls. Each method is proved to be the
 step of the value model, to which the run theorems apply.
 */
module Monitor {
  import opened CInt
  import opened Options
  import opened RegistryModel
  import opened SelectionModel
  import opened Registry
  import Selection
  import opened Watermark
  import opened Time
  import opened PsiModel
  import opened DaemonModel

  class Monitor {
    const reg: Registry
    const cfg: Settings
    /** struct polling_params */
    var poll: Polling
    /** The static variables of mp_event_psi, and last_kill_tm. */
    var psi: Psi
    /** The static variables of check_cont_lmkd_events. */
    var up: Upgrade
    var wbfEffective: int

    /** The state of the daemon these variables and the registry hold. */
    ghost function Value(): Daemon
      reads this, reg
    {
      Daemon(reg.st, poll, psi, up, wbfEffective)
    }

    ghost predicate Valid()
      reads this, reg, reg.Repr()
    {
      reg.Valid() && Sane(cfg) && this !in reg.Repr()
    }

    constructor (reg: Registry, cfg: Settings)
      requires reg.Valid() && Sane(cfg) && reg.st == Init(reg.pidfdSupported)
      ensures Valid() && Value() == Boot(reg.pidfdSupported, cfg) && this.reg == reg && this.cfg == cfg
    {
      this.reg, this.cfg, wbfEffective := reg, cfg, cfg.boostFactor;
      poll := Polling(None, None, 0, 0, 0, DoNotChange);
      psi := Psi(0, 0, 0, 0, 0, 0, 0, 0, false, cfg.limitPct, 0, 0, false, 0, true, 0);
      up := Upgrade(0, 0, 0, 0, false);
    }

    /** The part of call_handler after the handler has run. */
    method ApplyUpdate(handler: Option<int>, now: int)
      modifies `poll, `wbfEffective
      ensures Value() == Switch(old(Value()), handler, now, cfg)
    {
      hide Elapsed;
      if handler.Some? && poll.poll == handler {
        poll := poll.(lastPollTm := now);
      }
      match poll.update
      case Start => poll := poll.(startTm := now, poll := handler);
      case Pause => poll := poll.(paused := handler, poll := None);
      case Resume => poll := ResumePolling(poll, now);
      case DoNotChange =>
        if poll.poll.Some? && Elapsed(poll.startTm, now) > cfg.windowMs {
          poll := poll.(poll := None, paused := None);
          wbfEffective := cfg.boostFactor;
        }
      case CritUpgrade =>
        poll := poll.(startTm := now);
        if handler.Some? && handler.value <= VMPRESS_LEVEL_CRITICAL {
          poll := poll.(poll := Some(VMPRESS_LEVEL_CRITICAL));
        }
    }

    /** What a scan that freed `pagesFreed` pages changes in the statics. */
    method AccountKill(pagesFreed: int, any: bool, v: Verdict, now: int, ghost atts: seq<Attempt>)
      requires any == AnyKilled(atts)
      modifies `psi, `wbfEffective
      ensures psi == AfterScan(old(psi), pagesFreed, atts, v.dec.cut, now, cfg)
      ensures wbfEffective == if pagesFreed > 0 then KillBoost(old(wbfEffective), v.dec.reason, cfg) else old(wbfEffective)
    {
      hide AnyKilled, KillBoost, TruncDiv;
      if any {
        psi := psi.(lastKillTm := now);
      }
      if pagesFreed > 0 {
        psi := psi.(killing := true, maxThrashing := 0);
        wbfEffective := KillBoost(wbfEffective, v.dec.reason, cfg);
        if v.dec.cut {
          psi := psi.(limit := TruncDiv(psi.limit * (100 - cfg.decayPct), 100));
        }
      }
    }

    /** The kill and its bookkeeping. */
    method KillAndAccount(v: Verdict, now: int, r: Reading)
      requires Valid() && MinScore(v) >= 0
      modifies reg.Repr(), `psi, `wbfEffective
      ensures Valid() && WellFormed(old(reg.st))
      ensures var scan := FindAndKill(old(reg.st), MinScore(v), cfg.killHeaviest, r.world, 0, cfg.debuggable, r.script);
              && reg.st == scan.st
              && psi == AfterScan(old(psi), scan.killed, scan.attempts, v.dec.cut, now, cfg)
              && wbfEffective == (if scan.killed > 0 then KillBoost(old(wbfEffective), v.dec.reason, cfg) else old(wbfEffective))
    {
      hide FindAndKill, WellFormed, AnyKilled, KillBoost, AfterScan;
      hide Shape, Rings, Chains, ChainShape, Objects, Distinct;
      var min := if v.stall then 0 else v.dec.min;
      var pagesFreed, any, t, atts :=
        Selection.FindAndKillProcess(reg, min, cfg.killHeaviest, r.world, 0, cfg.debuggable, r.script);
      AccountKill(pagesFreed, any, v, now, atts);
    }

    /** What to ask of polling; `waiting` tells whether a death is awaited. */
    method AskPolling(waiting: bool, level: int, events: bool, rs: Reclaim, swapIsLow: bool, ghost st: State)
      requires waiting == Waiting(st)
      modifies `poll, `up, `wbfEffective
      ensures Daemon(st, poll, psi, up, wbfEffective)
              == Finish(Daemon(st, old(poll), old(psi), old(up), old(wbfEffective)), level, events, rs, swapIsLow, cfg)
    {
      if waiting {
        poll := poll.(update := Pause);
        return;
      }
      if events || psi.killing || rs == DirectReclaim || rs == DirectThrottle {
        if up.count >= cfg.contThresh {
          poll := poll.(update := CritUpgrade);
          up := up.(count := 0);
        } else if poll.poll.None? || level >= poll.poll.value {
          poll := poll.(update := Start);
          if !psi.killing {
            wbfEffective := Lowered(wbfEffective);
          }
        }
      }
      if swapIsLow || psi.killing {
        poll := poll.(intervalMs := PSI_POLL_PERIOD_SHORT_MS);
      } else if level == VMPRESS_LEVEL_SUPER_CRITICAL {
        poll := poll.(intervalMs := cfg.scritPeriodMs);
      } else {
        poll := poll.(intervalMs := PSI_POLL_PERIOD_LONG_MS);
      }
    }

    /** From `no_kill` on. */
    method NoKill(level: int, events: bool, rs: Reclaim, swapIsLow: bool)
      requires Valid()
      modifies `poll, `up, `wbfEffective
      ensures Valid() && Value() == Finish(old(Value()), level, events, rs, swapIsLow, cfg)
    {
      hide WellFormed, Finish, Shape, Rings, Chains, ChainShape, Objects, Distinct;
      AskPolling(reg.pidfdSupported && reg.lastKillPidOrFd >= 0, level, events, rs, swapIsLow, reg.st);
    }

    /** From the readings of vmstat and meminfo to the verdict. */
    method PrepareKill(level: int, events: bool, now: int, vm: VmStat, mem: Mem, r: Reading)
      returns (rs: Reclaim, v: Option<Verdict>, ghost th: Option<Thrashed>)
      modifies `psi, `up
      ensures var q := Prepare(old(psi), old(up), wbfEffective, level, events, now, vm, mem, r, cfg);
              && q.rs == rs && up == q.up && (v.Some? <==> th.Some?)
              && q.judged == (if v.Some? then Some((th.value, v.value)) else None)
              && psi == (if v.Some? then q.psi.(checkFilecache := v.value.dec.checkFilecache, firstKill := v.value.firstKill)
                         else q.psi)
    {
      hide Prepare;
      var q := Prepare(psi, up, wbfEffective, level, events, now, vm, mem, r, cfg);
      psi, up, rs := q.psi, q.up, q.rs;
      if q.judged.None? {
        return rs, None, None;
      }
      var verdict := q.judged.value.1;
      psi := psi.(checkFilecache := verdict.dec.checkFilecache, firstKill := verdict.firstKill);
      v, th := Some(verdict), Some(q.judged.value.0);
    }

    /** From the readings of vmstat and meminfo to the kill, and whether the handler returned early. */
    method MeasureAndKill(level: int, events: bool, now: int, vm: VmStat, mem: Mem, r: Reading)
      returns (rs: Reclaim, early: bool)
      requires Valid()
      modifies reg.Repr(), `psi, `up, `wbfEffective
      ensures Valid() && WellFormed(old(reg.st))
      ensures var b := Measure(old(Value()), level, events, now, vm, mem, r, cfg);
              b.d == Value() && b.rs == rs && b.early == early && b.swapIsLow == mem.swapIsLow
    {
      hide FindAndKill, Prepare, AfterScan, KillBoost, WellFormed, MinScore;
      hide Shape, Rings, Chains, ChainShape, Objects, Distinct;
      PrepareMin(psi, up, wbfEffective, level, events, now, vm, mem, r, cfg);
      ghost var th;
      var v;
      rs, v, th := PrepareKill(level, events, now, vm, mem, r);
      early := v.Some? && !v.value.complete;
      if v.Some? && v.value.complete && v.value.dec.reason != NoReason {
        KillAndAccount(v.value, now, r);
      }
    }

    /** is_kill_pending, with `alive` telling whether the process still exists. */
    method IsKillPending(alive: bool) returns (pending: bool)
      requires reg.Linked()
      ensures pending == KillPending(reg.st, alive)
    {
      if reg.lastKillPidOrFd < 0 {
        return false;
      }
      if reg.pidfdSupported {
        return true;
      }
      return alive;
    }

    /** The first lines of mp_event_psi: restore the boost on an event at or above the polled level. */
    method EnterHandler(level: int, events: bool)
      requires Valid()
      modifies `poll, `wbfEffective
      ensures Valid() && Value() == Entered(old(Value()), level, events, cfg)
    {
      hide WellFormed, Shape, Rings, Chains, ChainShape, Objects, Distinct;
      var boosted := events && (poll.poll.None? || level >= poll.poll.value);
      poll, wbfEffective := poll.(update := DoNotChange), if boosted then cfg.boostFactor else wbfEffective;
    }

    /** From the check for a kill in progress up to `no_kill`. */
    method PassWait(level: int, events: bool, now: int, r: Reading) returns (rs: Reclaim, swapIsLow: bool, early: bool)
      requires Valid() && r.now == Some(now)
      modifies reg.Repr(), `psi, `up, `wbfEffective
      ensures Valid() && WellFormed(old(reg.st)) && WellFormed(StopWait(old(reg.st)))
      ensures if Skips(old(Value()), r.alive, now, cfg)
              then Value() == old(Value()) && rs == NoReclaim && !swapIsLow && !early
              else
                var d1 := old(Value()).(reg := StopWait(old(reg.st)));
                if r.vm.None? || r.mem.None? then Value() == d1 && rs == NoReclaim && !swapIsLow && early
                else
                  var b := Measure(d1, level, events, now, r.vm.value, r.mem.value, r, cfg);
                  b.d == Value() && b.rs == rs && b.early == early && b.swapIsLow == swapIsLow
    {
      hide Measure, Elapsed, WellFormed, StopWait, Shape, Rings, Chains, ChainShape, Objects, Distinct;
      StopWaitWellFormed(reg.st);
      rs, swapIsLow, early := NoReclaim, false, true;
      var killPending := IsKillPending(r.alive);
      if killPending && (cfg.killTimeoutMs == 0 || Elapsed(psi.lastKillTm, now) < cfg.killTimeoutMs) {
        early := false;
        return;
      }
      reg.StopWaitForProcKill();
      if r.vm.None? {
        return;
      }
      if r.mem.None? {
        return;
      }
      swapIsLow := r.mem.value.swapIsLow;
      rs, early := MeasureAndKill(level, events, now, r.vm.value, r.mem.value, r);
    }

    /** mp_event_psi up to `no_kill`. */
    method HandlePressure(level: int, events: bool, r: Reading) returns (rs: Reclaim, swapIsLow: bool, early: bool)
      requires Valid()
      modifies reg.Repr(), `poll, `psi, `up, `wbfEffective
      ensures Valid() && WellFormed(old(reg.st))
      ensures var b := Handle(old(Value()), level, events, r, cfg);
              b.d == Value() && b.rs == rs && b.early == early && b.swapIsLow == swapIsLow
    {
      hide Measure, Skips, WellFormed, StopWait, Shape, Rings, Chains, ChainShape, Objects, Distinct, Boosted;
      EnterHandler(level, events);
      if r.now.None? {
        return NoReclaim, false, true;
      }
      rs, swapIsLow, early := PassWait(level, events, r.now.value, r);
    }

    /** mp_event_psi */
    method MpEventPsi(level: int, events: bool, r: Reading)
      requires Valid()
      modifies reg.Repr(), `poll, `psi, `up, `wbfEffective
      ensures Valid() && WellFormed(old(reg.st))
      ensures Value() == PsiCycle(old(Value()), level, events, r, cfg)
    {
      hide Handle, Finish, WellFormed, Shape, Rings, Chains, ChainShape, Objects, Distinct;
      var rs, swapIsLow, early := HandlePressure(level, events, r);
      if !early {
        NoKill(level, events, rs, swapIsLow);
      }
    }

    /** One pressure event of the main loop: count it, run the handler, apply what it asked for. */
    method OnPressure(level: int, checkTm: int, r: Reading, now: int)
      requires Valid() && 0 <= level <= VMPRESS_LEVEL_SUPER_CRITICAL
      modifies reg.Repr(), `poll, `psi, `up, `wbfEffective
      ensures Valid() && WellFormed(old(reg.st))
      ensures Value() == MainStep(old(Value()), Pressure(level, checkTm, r, now), cfg)
    {
      hide PsiCycle, Switch, CheckCont, WellFormed, Shape, Rings, Chains, ChainShape, Objects, Distinct;
      if level == VMPRESS_LEVEL_MEDIUM || level == VMPRESS_LEVEL_CRITICAL {
        up := CheckCont(up, level, checkTm, cfg);
      }
      MpEventPsi(level, true, r);
      ApplyUpdate(Some(level), now);
    }

    /** One polling turn of the main loop. */
    method OnPollTurn(r: Reading, now: int)
      requires Valid() && poll.poll.Some?
      modifies reg.Repr(), `poll, `psi, `up, `wbfEffective
      ensures Valid() && WellFormed(old(reg.st)) && old(poll.poll).Some?
      ensures Value() == MainStep(old(Value()), PollTurn(r, now), cfg)
    {
      hide PsiCycle, Switch, WellFormed, Shape, Rings, Chains, ChainShape, Objects, Distinct;
      var level := poll.poll.value;
      MpEventPsi(level, false, r);
      ApplyUpdate(Some(level), now);
    }

    /** kill_done_handler or kill_fail_handler, called through call_handler. */
    method OnNotice(ev: Event)
      requires Valid() && (ev.DeathNotice? || ev.FailureNotice?)
      modifies reg.Repr(), `poll, `wbfEffective
      ensures Valid() && WellFormed(old(reg.st))
      ensures Value() == MainStep(old(Value()), ev, cfg)
    {
      hide Switch, WellFormed, StopWait, Shape, Rings, Chains, ChainShape, Objects, Distinct;
      StopWaitWellFormed(reg.st);
      reg.StopWaitForProcKill();
      poll := poll.(update := Resume);
      ApplyUpdate(None, ev.now);
    }

    /** The branch of the main loop in which the wait for a death timed out. */
    method OnLoopTimeout(before: int, now: int)
      requires Valid()
      modifies reg.Repr(), `poll
      ensures Valid() && WellFormed(old(reg.st))
      ensures Value() == MainStep(old(Value()), LoopTimeout(before, now), cfg)
    {
      hide WellFormed, StopWait, Shape, Rings, Chains, ChainShape, Objects, Distinct;
      StopWaitWellFormed(reg.st);
      reg.StopWaitForProcKill();
      if poll.paused.Some? {
        poll := poll.(update := Resume);
        poll := ResumePolling(poll, now);
      }
    }

    /** A client command, handled through call_handler. */
    method OnCommand(client: int, cmd: Command, now: int)
      requires Valid() && Plausible(reg.st, cmd)
      modifies reg.Repr(), `poll, `wbfEffective
      ensures Valid() && WellFormed(old(reg.st)) && fresh(reg.Repr() - old(reg.Repr()))
      ensures Value() == MainStep(old(Value()), ClientCommand(client, cmd, now), cfg)
    {
      hide Switch, WellFormed, ApplyProcPrio, ProcRemove, Purge, Shape, Rings, Chains, ChainShape, Objects, Distinct;
      RunOnRegistry(client, cmd);
      poll := poll.(update := DoNotChange);
      ApplyUpdate(None, now);
    }

    method RunOnRegistry(client: int, cmd: Command)
      requires Valid() && Plausible(reg.st, cmd)
      modifies reg.Repr()
      ensures Valid() && old(|reg.st.slots|) == ADJTOSLOT_COUNT && fresh(reg.Repr() - old(reg.Repr()))
      ensures reg.st == RunCommand(old(reg.st), client, cmd)
    {
      hide ApplyProcPrio, ProcRemove, Purge, Shape, Rings, Chains, ChainShape, Objects, Distinct;
      match cmd
      case ProcPrio(req, env, perAppMemcg) => reg.ApplyPrio(req, client, perAppMemcg, env);
      case ProcRemoveCmd(pid) => reg.CmdProcRemove(pid, client);
      case ProcPurge => reg.CmdProcPurge(client);
      case OtherCmd =>
    }

    /** ctrl_data_close, as far as the registry is concerned. */
    method OnHangup(client: int)
      requires Valid()
      modifies reg.Repr()
      ensures Valid() && WellFormed(old(reg.st))
      ensures Value() == MainStep(old(Value()), Hangup(client), cfg)
    {
      hide WellFormed, Unclaim, Shape, Rings, Chains, ChainShape, Objects, Distinct;
      reg.RemoveClaims(client);
    }
  }
}
