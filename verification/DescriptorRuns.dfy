/** The pidfds of the daemon over every run: who owns each, and how often it is closed. */
module DescriptorRuns {
  import opened RegistryModel
  import opened SelectionModel
  import opened Time
  import opened PsiModel
  import opened DaemonModel

  /** The open pidfds are exactly those of live records and the one being waited on. */
  ghost predicate Exact(st: State) {
    st.openFds == OwnedFds(st)
  }

  lemma LiveFdsSame(a: map<int, Rec>, b: map<int, Rec>)
    requires a.Keys == b.Keys && (forall p :: p in a ==> a[p].pidfd == b[p].pidfd)
    ensures LiveFds(a) == LiveFds(b)
  {
    forall fd ensures fd in LiveFds(a) <==> fd in LiveFds(b) {
      if fd in LiveFds(a) {
        var p :| p in a && a[p].pidfd >= 0 && a[p].pidfd == fd;
        assert p in b && b[p].pidfd == fd;
      }
      if fd in LiveFds(b) {
        var p :| p in b && b[p].pidfd >= 0 && b[p].pidfd == fd;
        assert p in a && a[p].pidfd == fd;
      }
    }
  }

  lemma LiveFdsAdd(recs: map<int, Rec>, pid: int, rec: Rec)
    requires pid !in recs
    ensures LiveFds(recs[pid := rec]) == LiveFds(recs) + (if rec.pidfd >= 0 then {rec.pidfd} else {})
  {
    var more := recs[pid := rec];
    forall fd ensures fd in LiveFds(more) <==> fd in LiveFds(recs) || (rec.pidfd >= 0 && fd == rec.pidfd) {
      if fd in LiveFds(recs) {
        var p :| p in recs && recs[p].pidfd >= 0 && recs[p].pidfd == fd;
        assert p in more && more[p].pidfd == fd;
      }
      if rec.pidfd >= 0 && fd == rec.pidfd {
        assert pid in more && more[pid].pidfd == fd;
      }
    }
  }

  lemma StopWaitExact(st: State)
    requires WellFormed(st) && Exact(st)
    ensures Exact(StopWait(st)) && StopWait(st).strayCloses == st.strayCloses
  {
    StopWaitWellFormed(st);
    LiveFdsRemove(st, {});
  }

  /** The request makes the daemon open a pidfd for which it then cannot allocate a record. */
  predicate Leaks(st: State, req: Request, perAppMemcg: bool, env: Answers) {
    && InRange(req.oomadj) && 0 <= req.ptype < PROC_TYPE_COUNT && env.tgidOk && env.writeOk
    && !(req.ptype == PROC_TYPE_APP && perAppMemcg && !env.cgroupOk)
    && req.pid !in st.recs && st.pidfdSupported && env.newFd >= 0 && !env.allocOk
  }

  /** A registration keeps the account exact if and only if it does not fail to allocate a record. */
  lemma ApplyPrioExact(st: State, req: Request, client: int, perAppMemcg: bool, env: Answers)
    requires WellFormed(st) && FreshFd(st, env) && Exact(st)
    ensures var r := ApplyProcPrio(st, req, client, perAppMemcg, env);
            && (Exact(r) <==> !Leaks(st, req, perAppMemcg, env))
            && r.strayCloses == st.strayCloses
  {
    var r := ApplyProcPrio(st, req, client, perAppMemcg, env);
    if req.pid in r.recs && req.pid !in st.recs {
      LiveFdsAdd(st.recs, req.pid, r.recs[req.pid]);
    } else if Leaks(st, req, perAppMemcg, env) {
      assert r.recs == st.recs && env.newFd in r.openFds && env.newFd !in st.openFds;
    } else if r != st {
      LiveFdsSame(st.recs, r.recs);
    }
  }

  /** The command does not leak a descriptor. */
  predicate Clean(st: State, cmd: Command) {
    cmd.ProcPrio? ==> !Leaks(st, cmd.req, cmd.perAppMemcg, cmd.env)
  }

  lemma CommandExact(st: State, client: int, cmd: Command)
    requires WellFormed(st) && Plausible(st, cmd) && Exact(st) && Clean(st, cmd)
    ensures var r := RunCommand(st, client, cmd); Exact(r) && r.strayCloses == st.strayCloses
  {
    match cmd
    case ProcPrio(req, env, perAppMemcg) => ApplyPrioExact(st, req, client, perAppMemcg, env);
    case ProcRemoveCmd(pid) =>
      RemoveOne(st, pid);
      RemoveAllFds(st, {pid});
    case ProcPurge => RemoveAllFds(st, ClaimableBy(st, client));
    case OtherCmd =>
  }

  lemma HandleExact(d: Daemon, level: int, events: bool, r: Reading, cfg: Settings)
    requires WellFormed(d.reg) && Sane(cfg) && Exact(d.reg)
    ensures var b := Handle(d, level, events, r, cfg);
            && Exact(b.d.reg) && b.d.reg.strayCloses == d.reg.strayCloses + DoubleCloses(b.attempts)
  {
    hide Handle, WellFormed, ScanDown, StopWait, OwnedFds;
    HandleReg(d, level, events, r, cfg);
    StopWaitExact(d.reg);
    var b := Handle(d, level, events, r, cfg);
    if b.Scanned() {
      ScanFds(StopWait(d.reg), OOM_SCORE_ADJ_MAX, MinScore(b.verdict.value), cfg.killHeaviest, r.world, 0);
    }
  }

  /** The victims of an event that the daemon closed twice. */
  function ClosedTwice(d: Daemon, ev: Event, cfg: Settings): nat
    requires WellFormed(d.reg) && Sane(cfg)
  {
    if RunsHandler(d, ev) then DoubleCloses(BodyOf(d, ev, cfg).attempts) else 0
  }

  lemma StepExact(s: Sys, ev: Event, cfg: Settings)
    requires WellFormed(s.d.reg) && Sane(cfg) && Enabled(s, ev, cfg)
    requires Exact(s.d.reg) && (ev.ClientCommand? ==> Clean(s.d.reg, ev.cmd))
    ensures var r := Step(s, ev, cfg).d.reg;
            Exact(r) && r.strayCloses == s.d.reg.strayCloses + ClosedTwice(s.d, ev, cfg)
  {
    hide Handle, RunCommand, WellFormed, Elapsed, StopWait, Finish, CheckCont;
    if RunsHandler(s.d, ev) {
      var d := Counted(s.d, ev, cfg);
      HandleExact(d, LevelOf(s.d, ev), ev.Pressure?, ev.r, cfg);
      CyclePoll(d, LevelOf(s.d, ev), ev.Pressure?, ev.r, cfg);
    } else if ev.ClientCommand? {
      CommandExact(s.d.reg, ev.client, ev.cmd);
    } else if ev.Hangup? {
      LiveFdsSame(s.d.reg.recs, Unclaim(s.d.reg, ev.client).recs);
    } else if ev.DogMarks? {
      LiveFdsSame(s.d.reg.recs, Invalidate(s.d.reg, s.dog.pid).recs);
    } else {
      StopWaitExact(s.d.reg);
    }
  }

  /** No command of the run leaks a descriptor. */
  ghost predicate CleanRun(ss: seq<Sys>, evs: seq<Event>) {
    |ss| == |evs| + 1 && forall k :: 0 <= k < |evs| ==> CleanAt(ss, evs, k)
  }

  ghost predicate CleanAt(ss: seq<Sys>, evs: seq<Event>, k: int)
    requires |ss| == |evs| + 1
  {
    0 <= k < |evs| && (evs[k].ClientCommand? ==> Clean(ss[k].d.reg, evs[k].cmd))
  }

  /** How many victims each event of the run closed twice. */
  ghost predicate CountsTwice(ss: seq<Sys>, evs: seq<Event>, twice: seq<nat>, cfg: Settings)
    requires IsRun(ss, evs, cfg)
  {
    |twice| == |evs| && forall k :: 0 <= k < |evs| ==> CountsTwiceAt(ss, evs, twice, k, cfg)
  }

  ghost predicate CountsTwiceAt(ss: seq<Sys>, evs: seq<Event>, twice: seq<nat>, k: int, cfg: Settings)
    requires |ss| == |evs| + 1 && |twice| == |evs|
  {
    0 <= k < |evs| && WellFormed(ss[k].d.reg) && Sane(cfg) && twice[k] == ClosedTwice(ss[k].d, evs[k], cfg)
  }

  function Total(xs: seq<nat>): nat {
    if xs == [] then 0 else Total(xs[..|xs| - 1]) + xs[|xs| - 1]
  }

  /**
   On every run in which records can be allocated, the open pidfds are exactly those of live
   records plus the awaited one, and the only closes of a descriptor that is not open are the
   second closes of victims whose epoll registration or signal failed.
   */
  lemma {:induction false} RunExact(ss: seq<Sys>, evs: seq<Event>, twice: seq<nat>, k: nat, cfg: Settings)
    requires IsRun(ss, evs, cfg) && CleanRun(ss, evs) && CountsTwice(ss, evs, twice, cfg) && k <= |evs|
    requires Exact(ss[0].d.reg)
    ensures Exact(ss[k].d.reg) && ss[k].d.reg.strayCloses == ss[0].d.reg.strayCloses + Total(twice[..k])
  {
    hide Step, WellFormed, Enabled, Exact, ClosedTwice;
    if k > 0 {
      RunExact(ss, evs, twice, k - 1, cfg);
      RunStep(ss, evs, k - 1, cfg);
      assert CleanAt(ss, evs, k - 1) && CountsTwiceAt(ss, evs, twice, k - 1, cfg);
      assert twice[..k][..k - 1] == twice[..k - 1];
      StepExact(ss[k - 1], evs[k - 1], cfg);
    }
  }
}
