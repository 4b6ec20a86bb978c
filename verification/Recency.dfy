/**
 The order within a slot: a registration puts its process in front, nothing else changes the order,
 so the tail of a slot is the process whose last registration is the oldest, on every run.
 */
module Recency {
  import opened RegistryModel
  import opened SelectionModel
  import opened PsiModel
  import opened Time
  import opened DaemonModel
  import opened ScanSteps

  // ---------- one registration ----------

  /** ys is xs with p cut out, the rest in its order. */
  predicate CutOut(ys: seq<int>, xs: seq<int>, p: int) {
    if p in xs then exists k :: 0 <= k < |xs| && xs[k] == p && ys == xs[..k] + xs[k + 1..] else ys == xs
  }

  lemma DropCuts(xs: seq<int>, p: int)
    requires NoDup(xs)
    ensures CutOut(Drop(xs, {p}), xs, p)
  {
    if p in xs {
      var k :| 0 <= k < |xs| && xs[k] == p;
      DropAt(xs, k);
    } else {
      DropNothing(xs, {p});
    }
  }

  /** An application at 600 to 699 is kept at 200 where applications have memory cgroups of their own. */
  predicate LandsAt(req: Request, perAppMemcg: bool, adj: int) {
    if perAppMemcg && req.ptype == PROC_TYPE_APP && req.oomadj / 100 == 6 then adj == PERCEPTIBLE_APP_ADJ else adj == req.oomadj
  }

  /** What an accepted registration records. */
  predicate Recorded(st: State, req: Request, client: int, env: Answers, rec: Rec) {
    && rec.regPid == client
    && (if req.pid in st.recs
        then rec.pidfd == st.recs[req.pid].pidfd && rec.uid == st.recs[req.pid].uid && rec.valid == st.recs[req.pid].valid
        else rec.pidfd == (if st.pidfdSupported then env.newFd else -1) && rec.uid == req.uid && rec.valid)
  }

  /**
   An accepted registration records the process, makes it the first of the slot of its adj and
   takes it out of any other place; the other records keep their places. Any other registration
   leaves records and slots as they are.
   */
  lemma RegisteredFirst(st: State, req: Request, client: int, perAppMemcg: bool, env: Answers)
    requires WellFormed(st)
    ensures var r := ApplyProcPrio(st, req, client, perAppMemcg, env);
            if !Accepted(st, req, client, perAppMemcg, env) then r.recs == st.recs && r.slots == st.slots
            else
              && req.pid in r.recs && r.recs - {req.pid} == st.recs - {req.pid}
              && Recorded(st, req, client, env, r.recs[req.pid]) && LandsAt(req, perAppMemcg, r.recs[req.pid].oomadj)
              && var here := AdjToSlot(r.recs[req.pid].oomadj);
                 && |r.slots[here]| > 0 && r.slots[here][0] == req.pid && CutOut(r.slots[here][1..], st.slots[here], req.pid)
                 && (forall s :: 0 <= s < ADJTOSLOT_COUNT && s != here ==> CutOut(r.slots[s], st.slots[s], req.pid))
  {
    hide CutOut;
    var r := ApplyProcPrio(st, req, client, perAppMemcg, env);
    if Accepted(st, req, client, perAppMemcg, env) {
      forall s | 0 <= s < ADJTOSLOT_COUNT ensures CutOut(Drop(st.slots[s], {req.pid}), st.slots[s], req.pid) {
        DropCuts(st.slots[s], req.pid);
      }
      if req.pid !in st.recs {
        forall s | 0 <= s < ADJTOSLOT_COUNT ensures Drop(st.slots[s], {req.pid}) == st.slots[s] {
          DropNothing(st.slots[s], {req.pid});
        }
      }
      assert r.recs - {req.pid} == st.recs - {req.pid};
      var here := AdjToSlot(r.recs[req.pid].oomadj);
      assert r.slots[here][1..] == Drop(st.slots[here], {req.pid});
    }
  }

  // ---------- every other event ----------

  /** The event is an accepted registration. */
  predicate Registering(s: Sys, ev: Event) {
    ev.ClientCommand? && ev.cmd.ProcPrio? && Accepted(s.d.reg, ev.cmd.req, ev.client, ev.cmd.perAppMemcg, ev.cmd.env)
  }

  /** It is one of p. */
  predicate Registers(s: Sys, ev: Event, p: int) {
    Registering(s, ev) && ev.cmd.req.pid == p
  }

  lemma SameDrops(st: State, r: State)
    requires r.recs.Keys == st.recs.Keys && r.slots == st.slots
    ensures OnlyDrops(st, r)
  {
    NothingDropped(st);
  }

  lemma HandleDrops(d: Daemon, level: int, events: bool, r: Reading, cfg: Settings)
    requires WellFormed(d.reg) && Sane(cfg)
    ensures OnlyDrops(d.reg, Handle(d, level, events, r, cfg).d.reg)
  {
    SameDrops(d.reg, StopWait(d.reg));
    NothingDropped(d.reg);
    hide Handle, WellFormed, StopWait, OnlyDrops, ScanDown, MinScore;
    HandleReg(d, level, events, r, cfg);
    var b := Handle(d, level, events, r, cfg);
    if b.Scanned() {
      ScanDrops(StopWait(d.reg), OOM_SCORE_ADJ_MAX, MinScore(b.verdict.value), cfg.killHeaviest, r.world, 0);
      DropsThen(d.reg, StopWait(d.reg), b.d.reg);
    }
  }

  lemma CommandDrops(st: State, client: int, cmd: Command)
    requires WellFormed(st)
    requires cmd.ProcPrio? ==> !Accepted(st, cmd.req, client, cmd.perAppMemcg, cmd.env)
    ensures OnlyDrops(st, RunCommand(st, client, cmd))
  {
    hide WellFormed, OnlyDrops, ApplyProcPrio, Accepted;
    NothingDropped(st);
    match cmd
    case ProcPrio(req, env, memcg) =>
      RegisteredFirst(st, req, client, memcg, env);
      SameDrops(st, ApplyProcPrio(st, req, client, memcg, env));
    case ProcRemoveCmd(pid) =>
      RemoveOne(st, pid);
      RemovalDrops(st, {pid});
    case ProcPurge => RemovalDrops(st, ClaimableBy(st, client));
    case OtherCmd =>
  }

  /** Only an accepted registration changes the order of records that stay. */
  lemma OrderStep(s: Sys, ev: Event, cfg: Settings)
    requires WellFormed(s.d.reg) && Sane(cfg) && Enabled(s, ev, cfg) && !Registering(s, ev)
    ensures OnlyDrops(s.d.reg, Step(s, ev, cfg).d.reg)
  {
    hide WellFormed, OnlyDrops, PsiCycle, RunCommand, StopWait, CheckCont, Handle, Elapsed, Timely, Unclaim, Invalidate;
    WaitDrops(s.d.reg);
    if RunsHandler(s.d, ev) {
      CyclePoll(Counted(s.d, ev, cfg), LevelOf(s.d, ev), ev.Pressure?, ev.r, cfg);
      HandleDrops(Counted(s.d, ev, cfg), LevelOf(s.d, ev), ev.Pressure?, ev.r, cfg);
    } else if ev.ClientCommand? {
      CommandDrops(s.d.reg, ev.client, ev.cmd);
    } else if ev.Hangup? {
      MarksDrop(s.d.reg, ev.client, 0);
    } else if ev.DogMarks? && s.dog.Hit? {
      MarksDrop(s.d.reg, 0, s.dog.pid);
    }
  }

  lemma WaitDrops(st: State)
    ensures OnlyDrops(st, st) && OnlyDrops(st, StopWait(st))
  {
    SameDrops(st, st);
    SameDrops(st, StopWait(st));
  }

  lemma MarksDrop(st: State, client: int, pid: int)
    ensures OnlyDrops(st, Unclaim(st, client)) && OnlyDrops(st, Invalidate(st, pid))
  {
    SameDrops(st, Unclaim(st, client));
    SameDrops(st, Invalidate(st, pid));
  }

  // ---------- every run ----------

  /** The number of the last accepted registration of p before state k, -1 if there is none. */
  ghost function LastReg(ss: seq<Sys>, evs: seq<Event>, p: int, k: nat): (j: int)
    requires |ss| == |evs| + 1 && k <= |evs|
    ensures -1 <= j < k
    ensures j >= 0 ==> Registers(ss[j], evs[j], p)
    ensures forall m :: j < m < k ==> !Registers(ss[m], evs[m], p)
  {
    if k == 0 then -1
    else if Registers(ss[k - 1], evs[k - 1], p) then k - 1
    else LastReg(ss, evs, p, k - 1)
  }

  ghost predicate NewerFirst(xs: seq<int>, ss: seq<Sys>, evs: seq<Event>, k: nat)
    requires |ss| == |evs| + 1 && k <= |evs|
  {
    && (forall a :: 0 <= a < |xs| ==> LastReg(ss, evs, xs[a], k) >= 0)
    && (forall a, b :: 0 <= a < b < |xs| ==> LastReg(ss, evs, xs[a], k) > LastReg(ss, evs, xs[b], k))
  }

  lemma {:induction false} DropNewer(xs: seq<int>, gone: set<int>, ss: seq<Sys>, evs: seq<Event>, k: nat)
    requires |ss| == |evs| + 1 && k <= |evs| && NewerFirst(xs, ss, evs, k)
    ensures NewerFirst(Drop(xs, gone), ss, evs, k)
  {
    hide LastReg;
    if xs != [] {
      var rest := Drop(xs[1..], gone);
      DropNewer(xs[1..], gone, ss, evs, k);
      DropKeeps(xs[1..], gone);
      forall b | 0 <= b < |rest| ensures LastReg(ss, evs, xs[0], k) > LastReg(ss, evs, rest[b], k) {
        assert rest[b] in rest;
        var c :| 0 <= c < |xs[1..]| && xs[1..][c] == rest[b];
        assert xs[c + 1] == rest[b];
      }
    }
  }

  lemma CutNewer(ys: seq<int>, xs: seq<int>, p: int, ss: seq<Sys>, evs: seq<Event>, k: nat)
    requires |ss| == |evs| + 1 && k <= |evs| && NewerFirst(xs, ss, evs, k) && CutOut(ys, xs, p) && NoDup(xs)
    ensures NewerFirst(ys, ss, evs, k) && forall a :: 0 <= a < |ys| ==> ys[a] != p
  {
    hide LastReg;
  }

  /** What the next event leaves as it is stays in order; p, if registered by it, is the newest. */
  lemma NewerNext(xs: seq<int>, p: int, ss: seq<Sys>, evs: seq<Event>, k: nat)
    requires |ss| == |evs| + 1 && k < |evs| && NewerFirst(xs, ss, evs, k)
    requires Registering(ss[k], evs[k]) ==> Registers(ss[k], evs[k], p) && forall a :: 0 <= a < |xs| ==> xs[a] != p
    ensures NewerFirst(xs, ss, evs, k + 1)
    ensures Registers(ss[k], evs[k], p) ==> NewerFirst([p] + xs, ss, evs, k + 1)
  {
    hide Registering;
    forall a | 0 <= a < |xs| ensures LastReg(ss, evs, xs[a], k + 1) == LastReg(ss, evs, xs[a], k) {
      assert !Registers(ss[k], evs[k], xs[a]);
    }
  }

  ghost predicate AllNewerFirst(ss: seq<Sys>, evs: seq<Event>, k: nat)
    requires |ss| == |evs| + 1 && k <= |evs|
  {
    |ss[k].d.reg.slots| == ADJTOSLOT_COUNT
    && forall s :: 0 <= s < ADJTOSLOT_COUNT ==> NewerFirst(ss[k].d.reg.slots[s], ss, evs, k)
  }

  lemma NoDupAt(st: State, s: nat)
    requires WellFormed(st) && s < ADJTOSLOT_COUNT
    ensures |st.slots| == ADJTOSLOT_COUNT && NoDup(st.slots[s])
  {
  }

  lemma NewerRegistered(ss: seq<Sys>, evs: seq<Event>, k: nat, p: int, s: nat, cfg: Settings)
    requires |ss| == |evs| + 1 && k < |evs| && Goes(ss[k], evs[k], ss[k + 1], cfg) && AllNewerFirst(ss, evs, k)
    requires Registers(ss[k], evs[k], p) && s < ADJTOSLOT_COUNT
    ensures |ss[k + 1].d.reg.slots| == ADJTOSLOT_COUNT && NewerFirst(ss[k + 1].d.reg.slots[s], ss, evs, k + 1)
  {
    var (st, cmd) := (ss[k].d.reg, evs[k].cmd);
    var r := ss[k + 1].d.reg;
    assert r == ApplyProcPrio(st, cmd.req, evs[k].client, cmd.perAppMemcg, cmd.env);
    RegisteredFirst(st, cmd.req, evs[k].client, cmd.perAppMemcg, cmd.env);
    NoDupAt(st, s);
    hide Step, WellFormed, Enabled, Accepted, ApplyProcPrio, NewerFirst, CutOut, LandsAt, Recorded;
    var here := AdjToSlot(r.recs[p].oomadj);
    var ys := if s == here then r.slots[s][1..] else r.slots[s];
    CutNewer(ys, st.slots[s], p, ss, evs, k);
    NewerNext(ys, p, ss, evs, k);
    assert s == here ==> r.slots[s] == [p] + ys;
  }

  lemma NewerDropped(ss: seq<Sys>, evs: seq<Event>, k: nat, s: nat, cfg: Settings)
    requires |ss| == |evs| + 1 && k < |evs| && Goes(ss[k], evs[k], ss[k + 1], cfg) && AllNewerFirst(ss, evs, k)
    requires s < ADJTOSLOT_COUNT && !Registering(ss[k], evs[k])
    ensures |ss[k + 1].d.reg.slots| == ADJTOSLOT_COUNT && NewerFirst(ss[k + 1].d.reg.slots[s], ss, evs, k + 1)
  {
    hide Step, WellFormed, Enabled, NewerFirst, Registering;
    OrderStep(ss[k], evs[k], cfg);
    var gone := ss[k].d.reg.recs.Keys - ss[k + 1].d.reg.recs.Keys;
    DropNewer(ss[k].d.reg.slots[s], gone, ss, evs, k);
    NewerNext(Drop(ss[k].d.reg.slots[s], gone), 0, ss, evs, k);
  }

  lemma NewerStep(ss: seq<Sys>, evs: seq<Event>, k: nat, cfg: Settings)
    requires |ss| == |evs| + 1 && k < |evs| && Goes(ss[k], evs[k], ss[k + 1], cfg) && AllNewerFirst(ss, evs, k)
    ensures AllNewerFirst(ss, evs, k + 1)
  {
    hide Goes, NewerFirst, Accepted;
    NewSlots(ss[k], evs[k], ss[k + 1], cfg);
    var slots := ss[k + 1].d.reg.slots;
    forall s | 0 <= s < |slots| ensures NewerFirst(slots[s], ss, evs, k + 1) {
      if Registering(ss[k], evs[k]) {
        NewerRegistered(ss, evs, k, evs[k].cmd.req.pid, s, cfg);
      } else {
        NewerDropped(ss, evs, k, s, cfg);
      }
    }
  }

  lemma NewSlots(s: Sys, ev: Event, s': Sys, cfg: Settings)
    requires Goes(s, ev, s', cfg)
    ensures |s'.d.reg.slots| == ADJTOSLOT_COUNT
  {
    hide Step, WellFormed, Enabled;
    StepWellFormed(s, ev, cfg);
    SlotCount(s'.d.reg);
  }

  lemma NewerStart(ss: seq<Sys>, evs: seq<Event>, pidfdSupported: bool, cfg: Settings)
    requires |ss| == |evs| + 1 && ss[0] == Started(pidfdSupported, cfg)
    ensures AllNewerFirst(ss, evs, 0)
  {
  }

  /** On every run from the start every slot is ordered by the last registration, the newest first. */
  lemma {:induction false} RunNewerFirst(ss: seq<Sys>, evs: seq<Event>, k: nat, pidfdSupported: bool, cfg: Settings)
    requires IsRun(ss, evs, cfg) && ss[0] == Started(pidfdSupported, cfg) && k <= |evs|
    ensures AllNewerFirst(ss, evs, k)
  {
    hide AllNewerFirst, Goes, Started;
    if k == 0 {
      NewerStart(ss, evs, pidfdSupported, cfg);
    } else {
      RunNewerFirst(ss, evs, k - 1, pidfdSupported, cfg);
      RunStep(ss, evs, k - 1, cfg);
      NewerStep(ss, evs, k - 1, cfg);
    }
  }

  /** Event j is the last accepted registration of p before state k. */
  ghost predicate LastAccepted(ss: seq<Sys>, evs: seq<Event>, p: int, j: int, k: nat)
    requires |ss| == |evs| + 1 && k <= |evs|
  {
    0 <= j < k && Registers(ss[j], evs[j], p) && forall m :: j < m < k ==> !Registers(ss[m], evs[m], p)
  }

  lemma LastIsLast(ss: seq<Sys>, evs: seq<Event>, p: int, j: int, k: nat)
    requires |ss| == |evs| + 1 && k <= |evs|
    ensures LastAccepted(ss, evs, p, j, k) <==> j >= 0 && j == LastReg(ss, evs, p, k)
  {
    hide Registers;
    var _ := LastReg(ss, evs, p, k);
  }

  /** The tail of a slot is the record whose last accepted registration is the oldest of the slot. */
  lemma OldestAtTail(ss: seq<Sys>, evs: seq<Event>, k: nat, s: nat, x: int, pidfdSupported: bool, cfg: Settings)
    returns (i: int, j: int)
    requires IsRun(ss, evs, cfg) && ss[0] == Started(pidfdSupported, cfg) && k <= |evs| && s < ADJTOSLOT_COUNT
    requires s < |ss[k].d.reg.slots| && x in ss[k].d.reg.slots[s]
    ensures var xs := ss[k].d.reg.slots[s];
            && LastAccepted(ss, evs, xs[|xs| - 1], i, k) && LastAccepted(ss, evs, x, j, k)
            && (if x == xs[|xs| - 1] then i == j else i < j)
  {
    hide Step, WellFormed, Enabled, Registers, LastReg;
    RunNewerFirst(ss, evs, k, pidfdSupported, cfg);
    var xs := ss[k].d.reg.slots[s];
    var a :| 0 <= a < |xs| && xs[a] == x;
    i, j := LastReg(ss, evs, xs[|xs| - 1], k), LastReg(ss, evs, x, k);
    LastIsLast(ss, evs, xs[|xs| - 1], i, k);
    LastIsLast(ss, evs, x, j, k);
  }

  /** A scan for tails whose first attempt is not in a slot looked through for the heaviest. */
  lemma FirstOfScan(st: State, min: int, w: World)
    requires WellFormed(st) && OOM_SCORE_ADJ_MIN <= min
    requires var atts := ScanDown(st, OOM_SCORE_ADJ_MAX, min, false, w, 0).attempts;
             atts != [] && atts[0].rec.oomadj > PERCEPTIBLE_APP_ADJ
    ensures |st.slots| == ADJTOSLOT_COUNT
    ensures var att := ScanDown(st, OOM_SCORE_ADJ_MAX, min, false, w, 0).attempts[0];
            var xs := st.slots[AdjToSlot(att.rec.oomadj)];
            && xs != [] && att.pid == xs[|xs| - 1] && (forall q :: q in st.recs ==> st.recs[q].oomadj <= att.rec.oomadj)
  {
    hide ScanDown, WellFormed;
    FirstTried(st, OOM_SCORE_ADJ_MAX, min, false, w, 0);
    var top := ScanDown(st, OOM_SCORE_ADJ_MAX, min, false, w, 0).attempts[0].rec.oomadj;
    forall q | q in st.recs ensures st.recs[q].oomadj <= top {
      var adj := st.recs[q].oomadj;
      assert adj > top ==> NobodyIn(st.slots[AdjToSlot(adj)], false, w, OOM_SCORE_ADJ_MAX - adj);
      InItsSlot(st, q);
    }
  }

  lemma InItsSlot(st: State, q: int)
    requires WellFormed(st) && q in st.recs
    ensures |st.slots| == ADJTOSLOT_COUNT && q in st.slots[AdjToSlot(st.recs[q].oomadj)]
  {
  }

  /** The event runs a handler that scans for tails, and its first attempt is one from such a slot. */
  ghost predicate TriesTail(s: Sys, ev: Event, cfg: Settings) {
    && WellFormed(s.d.reg) && Sane(cfg) && RunsHandler(s.d, ev) && !cfg.killHeaviest
    && var atts := BodyOf(s.d, ev, cfg).attempts; atts != [] && atts[0].rec.oomadj > PERCEPTIBLE_APP_ADJ
  }

  lemma EndedWait(st: State)
    ensures StopWait(st).slots == st.slots && StopWait(st).recs == st.recs
  {
  }

  /** The scan of that handler is on the registry as it stands, but for the wait that has ended. */
  lemma FirstOfHandler(s: Sys, ev: Event, cfg: Settings) returns (att: Attempt)
    requires TriesTail(s, ev, cfg)
    ensures |s.d.reg.slots| == ADJTOSLOT_COUNT && att == BodyOf(s.d, ev, cfg).attempts[0]
    ensures var xs := s.d.reg.slots[AdjToSlot(att.rec.oomadj)];
            && xs != [] && att.pid == xs[|xs| - 1]
            && (forall q :: q in s.d.reg.recs ==> s.d.reg.recs[q].oomadj <= att.rec.oomadj)
  {
    hide Handle, StopWait, ScanDown, MinScore, Counted, WellFormed;
    CountedReg(s.d, ev, cfg);
    EndedWait(s.d.reg);
    HandleReg(Counted(s.d, ev, cfg), LevelOf(s.d, ev), ev.Pressure?, ev.r, cfg);
    var b := BodyOf(s.d, ev, cfg);
    att := b.attempts[0];
    FirstOfScan(StopWait(s.d.reg), MinScore(b.verdict.value), ev.r.world);
  }

  lemma RunLength(ss: seq<Sys>, evs: seq<Event>, cfg: Settings)
    requires IsRun(ss, evs, cfg)
    ensures |ss| == |evs| + 1
  {
  }

  lemma TailWellFormed(s: Sys, ev: Event, cfg: Settings)
    requires TriesTail(s, ev, cfg)
    ensures WellFormed(s.d.reg)
  {
  }

  lemma CountedReg(d: Daemon, ev: Event, cfg: Settings)
    ensures Counted(d, ev, cfg).reg == d.reg
  {
  }

  /**
   On every run, a handler that scans for tails tries first a process of the highest adj of all
   that are registered, and of those the one whose last accepted registration is the oldest.
   */
  lemma OldestTriedFirst(ss: seq<Sys>, evs: seq<Event>, k: nat, q: int, pidfdSupported: bool, cfg: Settings)
    returns (i: int, j: int)
    requires IsRun(ss, evs, cfg) && ss[0] == Started(pidfdSupported, cfg) && k < |evs|
    requires TriesTail(ss[k], evs[k], cfg) && q in ss[k].d.reg.recs
    ensures var att := BodyOf(ss[k].d, evs[k], cfg).attempts[0];
            && ss[k].d.reg.recs[q].oomadj <= att.rec.oomadj
            && (ss[k].d.reg.recs[q].oomadj == att.rec.oomadj ==>
                  && LastAccepted(ss, evs, att.pid, i, k) && LastAccepted(ss, evs, q, j, k)
                  && (if q == att.pid then i == j else i < j))
  {
    hide *;
    RunLength(ss, evs, cfg);
    var st := ss[k].d.reg;
    TailWellFormed(ss[k], evs[k], cfg);
    var att := FirstOfHandler(ss[k], evs[k], cfg);
    InItsSlot(st, q);
    i, j := 0, 0;
    if st.recs[q].oomadj == att.rec.oomadj {
      i, j := OldestAtTail(ss, evs, k, AdjToSlot(att.rec.oomadj), q, pidfdSupported, cfg);
    }
  }
}
