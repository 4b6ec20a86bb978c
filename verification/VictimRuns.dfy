/** Who is signalled, and whose records a command may touch, over every run and both threads. */
module VictimRuns {
  import opened CInt
  import opened RegistryModel
  import opened SelectionModel
  import opened Time
  import opened PsiModel
  import opened DaemonModel

  // ---------- what a handler may do to the records ----------

  /** Records only leave, and every attempt is on a record at or above adj 0, as it was recorded. */
  ghost predicate OnlyVictims(st: State, b: Body) {
    && (forall p :: p in b.d.reg.recs ==> p in st.recs && b.d.reg.recs[p] == st.recs[p])
    && (forall k :: 0 <= k < |b.attempts| ==>
          && b.attempts[k].pid in st.recs && b.attempts[k].rec == st.recs[b.attempts[k].pid]
          && b.attempts[k].rec.oomadj >= 0
          && (b.attempts[k].kind == Spared <==> b.attempts[k].pid in b.d.reg.recs))
  }

  lemma HandleVictims(d: Daemon, level: int, events: bool, r: Reading, cfg: Settings)
    requires WellFormed(d.reg) && Sane(cfg)
    ensures OnlyVictims(d.reg, Handle(d, level, events, r, cfg))
  {
    hide Handle, WellFormed, FindAndKill;
    HandleReg(d, level, events, r, cfg);
    var b := Handle(d, level, events, r, cfg);
    assert StopWait(d.reg).recs == d.reg.recs;
    if b.Scanned() {
      FindAndKillOrderly(StopWait(d.reg), MinScore(b.verdict.value), cfg.killHeaviest, r.world, 0, cfg.debuggable, r.script);
    }
  }

  lemma StepRecs(s: Sys, ev: Event, cfg: Settings)
    requires WellFormed(s.d.reg) && Sane(cfg) && Enabled(s, ev, cfg) && RunsHandler(s.d, ev)
    ensures OnlyVictims(s.d.reg, BodyOf(s.d, ev, cfg))
    ensures Step(s, ev, cfg).d.reg == BodyOf(s.d, ev, cfg).d.reg
  {
    hide Handle, WellFormed, Elapsed, Finish, CheckCont, OnlyVictims;
    var d := Counted(s.d, ev, cfg);
    HandleVictims(d, LevelOf(s.d, ev), ev.Pressure?, ev.r, cfg);
    CyclePoll(d, LevelOf(s.d, ev), ev.Pressure?, ev.r, cfg);
  }

  // ---------- nobody below adj 0 ----------

  /** The watchdog only aims at records found in a slot at or above 0. */
  predicate AimsHigh(s: Sys) {
    s.dog.Aiming? ==> s.dog.rec.oomadj >= 0
  }

  /**
   A handler signals only processes whose record says adj 0 or above at that moment; the watchdog
   signals on a copy that said so when it was made.
   */
  ghost predicate SparesNegative(s: Sys, ev: Event, cfg: Settings)
    requires WellFormed(s.d.reg) && Sane(cfg) && Enabled(s, ev, cfg)
  {
    && (RunsHandler(s.d, ev) ==> OnlyVictims(s.d.reg, BodyOf(s.d, ev, cfg)))
    && (ev.DogFires? ==> s.dog.rec.oomadj >= 0)
  }

  lemma StepSpares(s: Sys, ev: Event, cfg: Settings)
    requires WellFormed(s.d.reg) && Sane(cfg) && Enabled(s, ev, cfg) && AimsHigh(s)
    ensures SparesNegative(s, ev, cfg) && AimsHigh(Step(s, ev, cfg))
  {
    hide MainStep, BodyOf, OnlyVictims;
    if RunsHandler(s.d, ev) {
      StepRecs(s, ev, cfg);
    }
    if ev.DogAims? {
      var x := ev.pid;
      assert x in s.d.reg.slots[AdjToSlot(ev.adj)];
    }
  }

  lemma {:induction false} RunAimsHigh(ss: seq<Sys>, evs: seq<Event>, k: nat, cfg: Settings)
    requires IsRun(ss, evs, cfg) && k <= |evs| && AimsHigh(ss[0])
    ensures AimsHigh(ss[k])
  {
    hide Step, WellFormed, Enabled, AimsHigh;
    if k > 0 {
      RunAimsHigh(ss, evs, k - 1, cfg);
      RunStep(ss, evs, k - 1, cfg);
      StepSpares(ss[k - 1], evs[k - 1], cfg);
    }
  }

  /** On every run no record with a negative adj is used to signal a process, by either thread. */
  lemma RunSparesNegative(ss: seq<Sys>, evs: seq<Event>, k: nat, cfg: Settings)
    requires IsRun(ss, evs, cfg) && k < |evs| && AimsHigh(ss[0])
    ensures StepAt(ss, evs, k, cfg) && SparesNegative(ss[k], evs[k], cfg)
  {
    hide Step, WellFormed, Enabled, SparesNegative;
    RunAimsHigh(ss, evs, k, cfg);
    RunStep(ss, evs, k, cfg);
    StepSpares(ss[k], evs[k], cfg);
  }

  /** prop_log_lmk_kill_occurred: the bucket of the kill histogram. */
  function HistogramIndex(adj: int): int {
    var i := TruncDiv(adj, 50);
    if i > 20 then 20 else i
  }

  /** The bucket exists exactly when the adj is above -50; so it does for every victim of a run. */
  lemma HistogramInRange(adj: int)
    ensures 0 <= HistogramIndex(adj) <= 20 <==> adj > -50
  {
  }

  lemma RegisterElsewhere(st: State, req: Request, client: int, perAppMemcg: bool, env: Answers, p: int)
    requires WellFormed(st)
    ensures var r := ApplyProcPrio(st, req, client, perAppMemcg, env);
            && (p != req.pid ==> (p in r.recs <==> p in st.recs) && (p in r.recs ==> r.recs[p] == st.recs[p]))
            && (p in st.recs ==> p in r.recs && r.recs[p].pidfd == st.recs[p].pidfd && r.recs[p].valid == st.recs[p].valid
                                 && (!Claimable(st.recs[p], client) ==> r.recs[p] == st.recs[p]))
  {
  }

  lemma RecordsOnlyLeave(st: State, b: Body, p: int)
    requires OnlyVictims(st, b)
    ensures p in b.d.reg.recs ==> p in st.recs && b.d.reg.recs[p] == st.recs[p]
  {
  }

  /** The watchdog goes on to mark a record exactly after a shot, on a copy that was valid, that is delivered. */
  lemma MarksAfterShot(s: Sys, ev: Event, p: int, cfg: Settings)
    requires WellFormed(s.d.reg) && Sane(cfg) && Enabled(s, ev, cfg)
    ensures Step(s, ev, cfg).dog == Hit(p) <==>
            || (s.dog == Hit(p) && ev != DogMarks)
            || (ev == DogFires(true) && s.dog.Aiming? && s.dog.pid == p && s.dog.rec.valid)
  {
  }

  // ---------- claims ----------

  /** The same registration; the watchdog may have marked it. */
  predicate SameClaim(a: Rec, b: Rec) {
    a.pidfd == b.pidfd && a.uid == b.uid && a.oomadj == b.oomadj && a.regPid == b.regPid
  }

  /** The event comes from client `a`: a command, or the loss of its connection. */
  predicate From(ev: Event, a: int) {
    (ev.ClientCommand? && ev.client == a) || (ev.Hangup? && ev.client == a)
  }

  /** A record claimed by `a` is left as it is by everybody else, except that it may be killed. */
  lemma ClaimStep(s: Sys, ev: Event, p: int, a: int, cfg: Settings)
    requires WellFormed(s.d.reg) && Sane(cfg) && Enabled(s, ev, cfg)
    requires a != 0 && p in s.d.reg.recs && s.d.reg.recs[p].regPid == a && !From(ev, a)
    ensures var r := Step(s, ev, cfg).d.reg;
            if p in r.recs then SameClaim(r.recs[p], s.d.reg.recs[p]) else RunsHandler(s.d, ev)
  {
    hide Handle, PsiCycle, WellFormed, Elapsed, OnlyVictims, ApplyProcPrio;
    if RunsHandler(s.d, ev) {
      StepRecs(s, ev, cfg);
      RecordsOnlyLeave(s.d.reg, BodyOf(s.d, ev, cfg), p);
    } else if ev.ClientCommand? && ev.cmd.ProcPrio? {
      RegisterElsewhere(s.d.reg, ev.cmd.req, ev.client, ev.cmd.perAppMemcg, ev.cmd.env, p);
    }
  }

  /** The claim itself ends only with the registrant's connection or with the record. */
  lemma ClaimantKept(s: Sys, ev: Event, p: int, a: int, cfg: Settings)
    requires WellFormed(s.d.reg) && Sane(cfg) && Enabled(s, ev, cfg)
    requires a != 0 && p in s.d.reg.recs && s.d.reg.recs[p].regPid == a && !(ev.Hangup? && ev.client == a)
    ensures var r := Step(s, ev, cfg).d.reg; p in r.recs ==> r.recs[p].regPid == a
  {
    hide Handle, PsiCycle, WellFormed, Elapsed, OnlyVictims;
    if !From(ev, a) {
      ClaimStep(s, ev, p, a, cfg);
    }
  }

  /**
   Along every run in which the registrant's connection is not closed, its record stays claimed
   by it for as long as it is registered, and no event of anybody else changes it: the record
   then stays as it is or is removed by a handler.
   */
  lemma {:induction false} RunClaim(ss: seq<Sys>, evs: seq<Event>, p: int, a: int, k: nat, cfg: Settings)
    requires IsRun(ss, evs, cfg) && k <= |evs|
    requires a != 0 && p in ss[0].d.reg.recs && ss[0].d.reg.recs[p].regPid == a
    requires forall j :: 0 <= j <= k ==> p in ss[j].d.reg.recs
    requires forall j :: 0 <= j < k ==> evs[j] != Hangup(a)
    ensures ss[k].d.reg.recs[p].regPid == a
    ensures k < |evs| && !From(evs[k], a) ==>
              if p in ss[k + 1].d.reg.recs then SameClaim(ss[k + 1].d.reg.recs[p], ss[k].d.reg.recs[p])
              else RunsHandler(ss[k].d, evs[k])
  {
    hide Step, WellFormed, Enabled, RunsHandler, From;
    assert p in ss[k].d.reg.recs;
    if k > 0 {
      RunClaim(ss, evs, p, a, k - 1, cfg);
      RunStep(ss, evs, k - 1, cfg);
      assert p in ss[k - 1].d.reg.recs && evs[k - 1] != Hangup(a);
      ClaimantKept(ss[k - 1], evs[k - 1], p, a, cfg);
    }
    if k < |evs| && !From(evs[k], a) {
      RunStep(ss, evs, k, cfg);
      ClaimStep(ss[k], evs[k], p, a, cfg);
    }
  }

  /**
   A dropped connection frees exactly the records its client had claimed: nothing else of them
   changes, and nothing of any other record.
   */
  lemma HangupFrees(s: Sys, a: int, p: int, cfg: Settings)
    requires WellFormed(s.d.reg) && Sane(cfg) && Enabled(s, Hangup(a), cfg)
    ensures var r := Step(s, Hangup(a), cfg).d.reg;
            && (p in r.recs <==> p in s.d.reg.recs)
            && (p in r.recs ==>
                  && r.recs[p].regPid != a
                  && (if s.d.reg.recs[p].regPid == a then Claimable(r.recs[p], 0) && r.recs[p].(regPid := a) == s.d.reg.recs[p]
                      else r.recs[p] == s.d.reg.recs[p]))
  {
  }

  /** So what nobody but a could do before, register the process anew, any client can do then. */
  lemma FreedForOthers(s: Sys, a: int, b: int, cmd: Command, cfg: Settings)
    requires WellFormed(s.d.reg) && Sane(cfg) && Enabled(s, Hangup(a), cfg) && cmd.ProcPrio? && b != a && b != 0
    requires cmd.req.pid in s.d.reg.recs && s.d.reg.recs[cmd.req.pid].regPid == a
    requires Accepted(s.d.reg, cmd.req, a, cmd.perAppMemcg, cmd.env)
    ensures var r := Step(s, Hangup(a), cfg).d.reg;
            && !Accepted(s.d.reg, cmd.req, b, cmd.perAppMemcg, cmd.env) && Accepted(r, cmd.req, b, cmd.perAppMemcg, cmd.env)
            && RunCommand(s.d.reg, b, cmd).recs == s.d.reg.recs
            && |r.slots| == ADJTOSLOT_COUNT
            && cmd.req.pid in RunCommand(r, b, cmd).recs && RunCommand(r, b, cmd).recs[cmd.req.pid].regPid == b
  {
  }

  /** A purge by `client` leaves exactly the records claimed by somebody else. */
  lemma PurgeExact(st: State, client: int, p: int)
    ensures p in Purge(st, client).recs <==> p in st.recs && st.recs[p].regPid != client && st.recs[p].regPid != 0
    ensures p in Purge(st, client).recs ==> Purge(st, client).recs[p] == st.recs[p]
  {
  }
}
