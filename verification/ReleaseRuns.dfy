/** When a kill in progress stops the next one, over every run. */
module ReleaseRuns {
  import opened CInt
  import opened Options
  import opened RegistryModel
  import opened SelectionModel
  import opened Time
  import opened PsiModel
  import opened DaemonModel
  import opened PollingRuns

  /** The event sends a signal from the main thread. */
  predicate Signals(d: Daemon, ev: Event, cfg: Settings)
    requires WellFormed(d.reg) && Sane(cfg) && (ev.PollTurn? ==> d.poll.poll.Some?)
  {
    RunsHandler(d, ev) && exists k :: 0 <= k < |BodyOf(d, ev, cfg).attempts| && BodyOf(d, ev, cfg).attempts[k].Signals()
  }

  lemma OnlyHandlersSignal(d: Daemon, ev: Event, cfg: Settings)
    requires WellFormed(d.reg) && Sane(cfg) && (ev.PollTurn? ==> d.poll.poll.Some?)
    ensures Signals(d, ev, cfg) ==> RunsHandler(d, ev)
  {
  }

  /** The instant a handler reads off the clock before it decides. */
  function HandlerTime(ev: Event): Option<int> {
    if ev.Pressure? || ev.PollTurn? then ev.r.now else None
  }

  /** A handler that signals has read the clock before, no earlier than the event began. */
  lemma SignalsKnowTime(s: Sys, ev: Event, cfg: Settings)
    requires WellFormed(s.d.reg) && Sane(cfg) && Enabled(s, ev, cfg) && Signals(s.d, ev, cfg)
    ensures HandlerTime(ev).Some? && HandlerTime(ev).value >= s.clock && PastWait(Counted(s.d, ev, cfg), ev.r, cfg)
  {
    hide Handle, WellFormed, Elapsed, CheckCont;
    HandleReg(Counted(s.d, ev, cfg), LevelOf(s.d, ev), ev.Pressure?, ev.r, cfg);
  }

  /** More than the timeout, up to the 1 ms the clock arithmetic loses, has passed since `killTm`. */
  predicate TimedOut(killTm: int, now: int, cfg: Settings) {
    cfg.killTimeoutMs != 0 && now - killTm > (cfg.killTimeoutMs - 1) * NS_PER_MS
  }

  /** Still waiting for the kill of `killTm`, or its timeout is over. */
  predicate HeldBack(s: Sys, killTm: int, cfg: Settings) {
    (Waiting(s.d.reg) && s.d.psi.lastKillTm == killTm) || TimedOut(killTm, s.clock, cfg)
  }

  /** A cycle that gets past a wait has measured the timeout. */
  lemma PastWaitTimedOut(d: Daemon, r: Reading, cfg: Settings)
    requires Waiting(d.reg) && PastWait(d, r, cfg)
    ensures cfg.killTimeoutMs != 0 && Elapsed(d.psi.lastKillTm, r.now.value) >= cfg.killTimeoutMs
    ensures TimedOut(d.psi.lastKillTm, r.now.value, cfg)
  {
    ElapsedBounds(d.psi.lastKillTm, r.now.value);
    hide Elapsed;
  }

  /**
   Without pidfds a kill holds cycles back only while its process is alive; with them, until the
   wait has ended. In both cases the timeout, if there is one, lets them go on.
   */
  lemma HeldBackBy(d: Daemon, r: Reading, cfg: Settings)
    ensures PastWait(d, r, cfg) <==>
            && r.now.Some?
            && (d.reg.lastKill < 0 || (!d.reg.pidfdSupported && !r.alive)
                || (cfg.killTimeoutMs > 0 && Elapsed(d.psi.lastKillTm, r.now.value) >= cfg.killTimeoutMs))
  {
  }

  /** While waiting, a cycle that does not get past the wait changes nothing of it and signals nobody. */
  lemma HeldCycle(d: Daemon, level: int, events: bool, r: Reading, cfg: Settings)
    requires WellFormed(d.reg) && Sane(cfg) && !PastWait(d, r, cfg)
    ensures var b := Handle(d, level, events, r, cfg);
            b.attempts == [] && b.d.reg == d.reg && b.d.psi == d.psi
  {
    hide Measure, WellFormed, Elapsed;
  }

  lemma HeldHandler(s: Sys, ev: Event, killTm: int, cfg: Settings)
    requires WellFormed(s.d.reg) && Sane(cfg) && Enabled(s, ev, cfg) && RunsHandler(s.d, ev)
    requires Waiting(s.d.reg) && s.d.psi.lastKillTm == killTm
    ensures HeldBack(Step(s, ev, cfg), killTm, cfg)
    ensures Signals(s.d, ev, cfg) ==> HandlerTime(ev).Some? && TimedOut(killTm, HandlerTime(ev).value, cfg)
  {
    hide Handle, WellFormed, Elapsed, CheckCont, Finish;
    var d := Counted(s.d, ev, cfg);
    if Signals(s.d, ev, cfg) {
      SignalsKnowTime(s, ev, cfg);
    }
    if PastWait(d, ev.r, cfg) {
      PastWaitTimedOut(d, ev.r, cfg);
    } else {
      HeldCycle(d, LevelOf(s.d, ev), ev.Pressure?, ev.r, cfg);
      var b := BodyOf(s.d, ev, cfg);
      HandleReg(d, LevelOf(s.d, ev), ev.Pressure?, ev.r, cfg);
      FinishKeeps(b.d, LevelOf(s.d, ev), ev.Pressure?, b.rs, b.swapIsLow, cfg);
    }
  }

  lemma HeldStep(s: Sys, ev: Event, killTm: int, cfg: Settings)
    requires WellFormed(s.d.reg) && Sane(cfg) && Enabled(s, ev, cfg) && HeldBack(s, killTm, cfg)
    requires !ev.DeathNotice? && !ev.FailureNotice?
    ensures HeldBack(Step(s, ev, cfg), killTm, cfg)
    ensures Signals(s.d, ev, cfg) ==> HandlerTime(ev).Some? && TimedOut(killTm, HandlerTime(ev).value, cfg)
  {
    hide PsiCycle, RunCommand, WellFormed, Elapsed, Signals;
    OnlyHandlersSignal(s.d, ev, cfg);
    if TimedOut(killTm, s.clock, cfg) {
      assert ClockAfter(s.clock, ev) >= s.clock;
      if Signals(s.d, ev, cfg) {
        SignalsKnowTime(s, ev, cfg);
      }
    } else if RunsHandler(s.d, ev) {
      HeldHandler(s, ev, killTm, cfg);
    } else if ev.ClientCommand? {
      CommandKeepsWait(s.d.reg, ev.client, ev.cmd);
    } else if ev.LoopTimeout? {
      ElapsedBounds(killTm, ev.before);
    }
  }

  predicate IsNotice(ev: Event) {
    ev.DeathNotice? || ev.FailureNotice?
  }

  lemma {:induction false} RunHeldBack(ss: seq<Sys>, evs: seq<Event>, killTm: int, m: nat, k: nat, cfg: Settings)
    requires IsRun(ss, evs, cfg) && m <= k <= |evs| && HeldBack(ss[m], killTm, cfg)
    requires forall j :: m <= j < k ==> !IsNotice(evs[j])
    ensures HeldBack(ss[k], killTm, cfg)
  {
    hide Step, WellFormed, Enabled, HeldBack;
    if k > m {
      RunHeldBack(ss, evs, killTm, m, k - 1, cfg);
      RunStep(ss, evs, k - 1, cfg);
      assert !IsNotice(evs[k - 1]);
      HeldStep(ss[k - 1], evs[k - 1], killTm, cfg);
    }
  }

  // ---------- the kill that is waited for ----------

  lemma {:induction false} AwaitedWasKilled(atts: seq<Attempt>)
    ensures forall waiting :: AwaitsAfter(waiting, atts) ==> waiting || AnyKilled(atts)
  {
    if atts != [] {
      AwaitedWasKilled(atts[1..]);
      AnyKilledAppend([atts[0]], atts[1..]);
      assert [atts[0]] + atts[1..] == atts;
      if atts[0].kind == Killed {
        assert [atts[0]][0].kind == Killed;
      }
    }
  }

  /** A handler that gets past a wait and leaves one on has made a kill, at the instant it read. */
  lemma HandleKillTime(d: Daemon, level: int, events: bool, r: Reading, cfg: Settings)
    requires WellFormed(d.reg) && Sane(cfg) && PastWait(d, r, cfg)
    ensures var b := Handle(d, level, events, r, cfg);
            Waiting(b.d.reg) ==> AnyKilled(b.attempts) && b.d.psi.lastKillTm == r.now.value
  {
    HandleSupport(d, level, events, r, cfg);
    if d.reg.pidfdSupported {
      HandleAwaits(d, level, events, r, cfg);
      AwaitedWasKilled(Handle(d, level, events, r, cfg).attempts);
    }
    HandleTime(d, level, events, r, cfg);
    hide Handle, PastWait, WellFormed, AnyKilled, AwaitsAfter;
  }

  lemma HandleSupport(d: Daemon, level: int, events: bool, r: Reading, cfg: Settings)
    requires WellFormed(d.reg) && Sane(cfg)
    ensures Handle(d, level, events, r, cfg).d.reg.pidfdSupported == d.reg.pidfdSupported
  {
    hide Handle, WellFormed, ScanDown, PastWait, MinScore;
    HandleReg(d, level, events, r, cfg);
    var b := Handle(d, level, events, r, cfg);
    if b.Scanned() {
      ScanSupport(StopWait(d.reg), OOM_SCORE_ADJ_MAX, MinScore(b.verdict.value), cfg.killHeaviest, r.world, 0);
    }
  }

  lemma {:induction false} DrainSupport(st: State, adj: OomAdj, heaviest: bool, killed: int, w: World, t: nat)
    requires WellFormed(st)
    ensures DrainSlot(st, adj, heaviest, killed, w, t).st.pidfdSupported == st.pidfdSupported
    decreases st.recs.Keys
  {
    SelectWellFormed(st, adj, heaviest, w, t);
    var p := Select(st, adj, heaviest, w, t);
    assert p.st.pidfdSupported == st.pidfdSupported;
    hide KillOne, Select, Shape, FdsOwned;
    if p.pid.Some? {
      KillOneKeeps(p.st, p.pid.value, w.probe(t, p.pid.value));
      var o := KillOne(p.st, p.pid.value, w.probe(t, p.pid.value));
      if o.att.result < 0 {
        assert p.pid.value in st.recs.Keys && p.pid.value !in o.st.recs.Keys;
        DrainSupport(o.st, adj, heaviest, o.att.result, w, t + 1);
      }
    }
  }

  lemma {:induction false} ScanSupport(st: State, i: int, min: int, choose: bool, w: World, t: nat)
    requires WellFormed(st) && OOM_SCORE_ADJ_MIN <= min && i <= OOM_SCORE_ADJ_MAX
    ensures ScanDown(st, i, min, choose, w, t).st.pidfdSupported == st.pidfdSupported
    decreases i - min + 1
  {
    hide DrainSlot, WellFormed;
    if i >= min {
      var heavy := choose || i <= PERCEPTIBLE_APP_ADJ;
      var a := DrainSlot(st, i, heavy, 0, w, t);
      DrainSupport(st, i, heavy, 0, w, t);
      if a.killed == 0 {
        ScanSupport(a.st, i - 1, min, choose, w, a.t);
      }
    }
  }

  lemma HandleTime(d: Daemon, level: int, events: bool, r: Reading, cfg: Settings)
    requires WellFormed(d.reg) && Sane(cfg) && PastWait(d, r, cfg)
    ensures var b := Handle(d, level, events, r, cfg);
            AnyKilled(b.attempts) ==> b.d.psi.lastKillTm == r.now.value
  {
    hide FindAndKill, Prepare, WellFormed, StopWait, AnyKilled, MinScore, KillBoost, Boosted, Elapsed, TruncDiv;
    StopWaitWellFormed(d.reg);
    if r.vm.Some? && r.mem.Some? {
      var e := Entered(d, level, events, cfg);
      PrepareMin(e.psi, e.up, e.wbf, level, events, r.now.value, r.vm.value, r.mem.value, r, cfg);
    }
    assert !AnyKilled([]) by {
      NobodyKilled();
    }
  }

  lemma NobodyKilled()
    ensures !AnyKilled([])
  {
  }

  /** The handler run by the event makes a kill and leaves its victim's death to be waited for. */
  predicate StartsWait(s: Sys, ev: Event, cfg: Settings)
    requires WellFormed(s.d.reg) && Sane(cfg) && Enabled(s, ev, cfg)
  {
    RunsHandler(s.d, ev) && AnyKilled(BodyOf(s.d, ev, cfg).attempts) && Waiting(Step(s, ev, cfg).d.reg)
  }

  /** A wait on after a step was on before, with the same time of the kill, or was started by a kill of that step. */
  lemma WaitTimeStep(s: Sys, ev: Event, cfg: Settings)
    requires WellFormed(s.d.reg) && Sane(cfg) && Enabled(s, ev, cfg) && Waiting(Step(s, ev, cfg).d.reg)
    ensures var t := Step(s, ev, cfg);
            || (Waiting(s.d.reg) && t.d.psi.lastKillTm == s.d.psi.lastKillTm)
            || (StartsWait(s, ev, cfg) && HandlerTime(ev) == Some(t.d.psi.lastKillTm))
  {
    hide Handle, RunCommand, WellFormed, Elapsed, CheckCont, Finish, StopWait, PastWait;
    if RunsHandler(s.d, ev) {
      var d := Counted(s.d, ev, cfg);
      var b := BodyOf(s.d, ev, cfg);
      CyclePoll(d, LevelOf(s.d, ev), ev.Pressure?, ev.r, cfg);
      HandleReg(d, LevelOf(s.d, ev), ev.Pressure?, ev.r, cfg);
      FinishKeeps(b.d, LevelOf(s.d, ev), ev.Pressure?, b.rs, b.swapIsLow, cfg);
      if PastWait(d, ev.r, cfg) {
        HandleKillTime(d, LevelOf(s.d, ev), ev.Pressure?, ev.r, cfg);
        PastKnowsTime(d, ev.r, cfg);
      } else {
        HeldCycle(d, LevelOf(s.d, ev), ev.Pressure?, ev.r, cfg);
      }
    } else if ev.ClientCommand? {
      CommandKeepsWait(s.d.reg, ev.client, ev.cmd);
    } else {
      StopWaitWellFormed(s.d.reg);
    }
  }

  lemma PastKnowsTime(d: Daemon, r: Reading, cfg: Settings)
    requires PastWait(d, r, cfg)
    ensures r.now.Some?
  {
  }

  /** The wait on in state k was started by event i, and lastKillTm is the instant its handler read. */
  ghost predicate WaitsSince(ss: seq<Sys>, evs: seq<Event>, i: int, k: nat, cfg: Settings)
    requires |ss| == |evs| + 1 && k < |ss|
  {
    && 0 <= i < k && StepAt(ss, evs, i, cfg) && StartsWait(ss[i], evs[i], cfg)
    && HandlerTime(evs[i]) == Some(ss[k].d.psi.lastKillTm)
    && (forall j :: i < j <= k ==> Waiting(ss[j].d.reg))
  }

  /** On every run from the start, whoever is waited for was killed at lastKillTm and has been waited for since. */
  lemma {:induction false} WaitIsOfKill(ss: seq<Sys>, evs: seq<Event>, k: nat, cfg: Settings)
    requires IsRun(ss, evs, cfg) && k <= |evs| && !Waiting(ss[0].d.reg)
    ensures Waiting(ss[k].d.reg) ==> exists i :: WaitsSince(ss, evs, i, k, cfg)
  {
    hide Step, WellFormed, Enabled, StartsWait, Waiting;
    if k > 0 && Waiting(ss[k].d.reg) {
      WaitIsOfKill(ss, evs, k - 1, cfg);
      RunStep(ss, evs, k - 1, cfg);
      WaitTimeStep(ss[k - 1], evs[k - 1], cfg);
      if Waiting(ss[k - 1].d.reg) && ss[k].d.psi.lastKillTm == ss[k - 1].d.psi.lastKillTm {
        var i :| WaitsSince(ss, evs, i, k - 1, cfg);
        assert WaitsSince(ss, evs, i, k, cfg);
      } else {
        assert StepAt(ss, evs, k - 1, cfg);
        assert WaitsSince(ss, evs, k - 1, k, cfg);
      }
    }
  }

  /**
   Once event i has made a kill and started the wait for it, then along any run without a death or
   failure notice a process is signalled only by a handler that has read off the clock an instant
   after the timeout of that kill; with timeout 0, never.
   */
  lemma NoKillBeforeRelease(ss: seq<Sys>, evs: seq<Event>, i: nat, k: nat, cfg: Settings)
    requires IsRun(ss, evs, cfg) && i < k < |evs| && WaitsSince(ss, evs, i, i + 1, cfg)
    requires forall j :: i < j <= k ==> !IsNotice(evs[j])
    ensures StepAt(ss, evs, k, cfg) && HandlerTime(evs[i]).Some?
    ensures Signals(ss[k].d, evs[k], cfg) ==>
              HandlerTime(evs[k]).Some? && TimedOut(HandlerTime(evs[i]).value, HandlerTime(evs[k]).value, cfg)
  {
    hide Step, WellFormed, Enabled, Signals, StartsWait;
    var killTm := ss[i + 1].d.psi.lastKillTm;
    assert Waiting(ss[i + 1].d.reg);
    RunHeldBack(ss, evs, killTm, i + 1, k, cfg);
    RunStep(ss, evs, k, cfg);
    assert !IsNotice(evs[k]);
    HeldStep(ss[k], evs[k], killTm, cfg);
  }
}
