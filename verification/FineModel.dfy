/**
 The main thread, the watchdog thread and the reaper pool in small steps. call_handler arms the
 watchdog while a handler is in progress, so its steps fall between any two steps of the main
 thread, also inside one kill attempt: after the test of the `valid` flag and before the signal.
 Every pidfd, the pool's duplicates included, has a number of one common space.
 */
module FineModel {
  import opened RegistryModel
  import opened DaemonModel

  // ---------- the state ----------

  /**
   Where the main thread is in kill_one_process; `a` numbers the attempt. Tested: the flag has
   been looked at. Permitted: nothing stands against the signal. Awaiting: the wait is set up.
   Doomed: only pid_remove is left.
   */
  datatype Main =
    | Free
    | Tested(pid: int, a: int, valid: bool)
    | Permitted(pid: int, a: int)
    | Awaiting(pid: int, a: int)
    | Doomed(pid: int, waited: bool)

  /** One opening of a descriptor: the process it refers to, and its place in the order of openings. */
  datatype Opening = Opening(pid: int, serial: int)

  type Table = map<int, Opening>

  datatype JobState = Queued | Delivered | Refused

  /** A kill handed over to the pool; `fd` is its duplicate, -1 if dup failed. */
  datatype Job = Job(pid: int, fd: int, state: JobState)

  /**
   `tab` says what the open pidfds of the registry stand for, `dups` the same for the duplicates.
   `jobs` are the attempts handed over, `notices` the failures in the pipe, `awaited` the attempt
   whose death is waited for if one is, `n` the number of steps made.
   */
  datatype Fine = Fine(
    st: State, main: Main, dog: Dog, tab: Table, dups: Table,
    jobs: map<int, Job>, notices: seq<int>, awaited: int, n: int)

  // ---------- steps ----------

  datatype Micro =
    | Enrol(client: int, req: Request, env: Answers, memcg: bool)
    | Drop(pid: int)
    | Disown(client: int)
    | EndWait
    | HandleFailure
    | Begin(pid: int)
    | Read(statusOk: bool, hook: int)
    | Await(epollOk: bool)
    | SignalNow(ok: bool)
    | HandOver(fd: int)
    | Discard
    | JobRuns(a: int, ok: bool)
    | DupCloses(fd: int)
    | Aim(adj: OomAdj, pid: int)
    | Fire(ok: bool)
    | Mark

  /** What the kernel and the threads' own positions allow. */
  predicate May(s: Fine, ev: Micro) {
    |s.st.slots| == ADJTOSLOT_COUNT &&
    match ev
    case Enrol(client, req, env, _) =>
      s.main.Free? && client != 0 && FreshFd(s.st, env) && env.newFd !in s.dups && (env.writeOk ==> req.pid > 0)
    case Drop(_) => s.main.Free?
    case Disown(client) => s.main.Free? && client != 0
    case EndWait => s.main.Free?
    case HandleFailure => s.main.Free? && s.notices != []
    case Begin(pid) => s.main.Free? && pid in s.st.recs && s.st.recs[pid].oomadj >= 0
    case Read(_, _) => s.main.Tested?
    case Await(_) => s.main.Permitted? && s.main.pid in s.st.recs
    case SignalNow(_) => s.main.Awaiting?
    case HandOver(fd) =>
      && s.main.Awaiting? && s.st.pidfdSupported && s.main.pid in s.st.recs
      && (if s.st.recs[s.main.pid].pidfd in s.st.openFds
          then fd >= 0 && fd !in s.st.openFds && fd !in s.dups else fd == -1)
    case Discard => s.main.Doomed?
    case JobRuns(a, ok) => a in s.jobs && s.jobs[a].state == Queued && (ok ==> s.jobs[a].fd >= 0)
    case DupCloses(fd) => fd in s.dups
    case Aim(adj, pid) => s.dog.Idle? && adj >= 0 && pid in s.st.slots[AdjToSlot(adj)] && pid in s.st.recs
    case Fire(_) => s.dog.Aiming?
    case Mark => s.dog.Hit?
  }

  /** last_kill_pid_or_fd for a victim. */
  function AwaitedBy(rec: Rec, pid: int): int {
    if rec.pidfd < 0 then pid else rec.pidfd
  }

  function NextReg(s: Fine, ev: Micro): State
    requires May(s, ev)
  {
    match ev
    case Enrol(client, req, env, memcg) => ApplyProcPrio(s.st, req, client, memcg, env)
    case Drop(pid) => Remove(s.st, pid)
    case Disown(client) => Unclaim(s.st, client)
    case EndWait => StopWait(s.st)
    case HandleFailure => StopWait(s.st)
    case Await(epollOk) => StartWait(s.st, AwaitedBy(s.st.recs[s.main.pid], s.main.pid), epollOk)
    case SignalNow(ok) => if ok then s.st else StopWait(s.st)
    case Discard => Remove(s.st, s.main.pid)
    case Mark => Invalidate(s.st, s.dog.pid)
    case _ => s.st
  }

  function NextMain(s: Fine, ev: Micro): Main
    requires May(s, ev)
  {
    match ev
    case Begin(pid) => Tested(pid, s.n, s.st.recs[pid].valid)
    case Read(statusOk, hook) =>
      if !s.main.valid || !statusOk then Doomed(s.main.pid, false)
      else if hook > 0 then Free
      else Permitted(s.main.pid, s.main.a)
    case Await(_) => Awaiting(s.main.pid, s.main.a)
    case SignalNow(_) => Doomed(s.main.pid, true)
    case HandOver(_) => Doomed(s.main.pid, true)
    case Discard => Free
    case _ => s.main
  }

  function NextDog(s: Fine, ev: Micro): Dog
    requires May(s, ev)
  {
    match ev
    case Aim(_, pid) => DaemonModel.Aiming(pid, s.st.recs[pid])
    case Fire(ok) => if s.dog.rec.valid && ok then Hit(s.dog.pid) else Idle
    case Mark => Idle
    case _ => s.dog
  }

  /** A number open before and after stands for the same opening, any other for one of this step. */
  function NextTable(tab: Table, before: State, after: State, pid: int, n: int): Table {
    map fd | fd in after.openFds :: if fd in before.openFds && fd in tab then tab[fd] else Opening(pid, n)
  }

  function NextDups(s: Fine, ev: Micro): Table
    requires May(s, ev)
  {
    match ev
    case HandOver(fd) => if fd >= 0 then s.dups[fd := Opening(s.main.pid, s.n)] else s.dups
    case DupCloses(fd) => s.dups - {fd}
    case _ => s.dups
  }

  function NextJobs(s: Fine, ev: Micro): map<int, Job>
    requires May(s, ev)
  {
    match ev
    case HandOver(fd) => s.jobs[s.main.a := Job(s.main.pid, fd, Queued)]
    case JobRuns(a, ok) => s.jobs[a := s.jobs[a].(state := if ok then Delivered else Refused)]
    case _ => s.jobs
  }

  function NextNotices(s: Fine, ev: Micro): seq<int>
    requires May(s, ev)
  {
    match ev
    case JobRuns(a, ok) => if ok then s.notices else s.notices + [a]
    case HandleFailure => s.notices[1..]
    case _ => s.notices
  }

  function Next(s: Fine, ev: Micro): Fine
    requires May(s, ev)
  {
    var st := NextReg(s, ev);
    Fine(st, NextMain(s, ev), NextDog(s, ev),
         NextTable(s.tab, s.st, st, if ev.Enrol? then ev.req.pid else 0, s.n),
         NextDups(s, ev), NextJobs(s, ev), NextNotices(s, ev),
         if ev.Await? then s.main.a else s.awaited, s.n + 1)
  }

  function AtStart(pidfdSupported: bool): Fine {
    Fine(Init(pidfdSupported), Free, Idle, map[], map[], map[], [], -1, 0)
  }

  // ---------- the registry, also in the middle of an attempt ----------

  /** After the wait for its death is set up, the victim's descriptor is the awaited one or is closed. */
  ghost predicate Mid(st: State, v: int) {
    && v in st.recs && |st.slots| == ADJTOSLOT_COUNT && Shape(st.recs, st.slots)
    && (forall p :: p in st.recs ==>
          if !st.pidfdSupported then st.recs[p].pidfd == -1
          else if p == v then st.recs[p].pidfd >= 0 && (st.recs[p].pidfd == st.lastKill || st.recs[p].pidfd !in st.openFds)
          else st.recs[p].pidfd >= 0 && st.recs[p].pidfd in st.openFds && st.recs[p].pidfd != st.lastKill)
    && (st.pidfdSupported ==>
          forall p, q :: p in st.recs && q in st.recs && p != q ==> st.recs[p].pidfd != st.recs[q].pidfd)
    && (st.pidfdSupported && st.lastKill >= 0 ==> st.lastKill in st.openFds)
  }

  /** The record of the current victim, with its wait set up. */
  predicate MidAttempt(m: Main) {
    m.Awaiting? || (m.Doomed? && m.waited)
  }

  ghost predicate RegInv(s: Fine) {
    && (s.main.Free? || (s.main.pid in s.st.recs && s.st.recs[s.main.pid].oomadj >= 0))
    && (if MidAttempt(s.main) then Mid(s.st, s.main.pid) else WellFormed(s.st))
  }

  lemma AwaitMid(st: State, v: int, epollOk: bool)
    requires WellFormed(st) && v in st.recs
    ensures Mid(StartWait(st, AwaitedBy(st.recs[v], v), epollOk), v)
  {
    StopWaitWellFormed(st);
  }

  lemma MidStops(st: State, v: int)
    requires Mid(st, v)
    ensures Mid(StopWait(st), v)
  {
  }

  lemma MidMarked(st: State, v: int, p: int)
    requires Mid(st, v)
    ensures Mid(Invalidate(st, p), v)
  {
    var r := Invalidate(st, p);
    assert forall q :: q in r.recs ==> r.recs[q].pidfd == st.recs[q].pidfd && r.recs[q].oomadj == st.recs[q].oomadj;
  }

  lemma MidRemoved(st: State, v: int)
    requires Mid(st, v)
    ensures WellFormed(Remove(st, v))
    ensures var r := Remove(st, v);
            r.recs == st.recs - {v} && r.openFds == st.openFds && r.lastKill == st.lastKill
  {
    DropAllShape(st.recs, st.slots, {v});
  }

  lemma RegStep(s: Fine, ev: Micro)
    requires RegInv(s) && May(s, ev)
    ensures RegInv(Next(s, ev))
  {
    hide Shape, FdsOwned, Mid, ApplyProcPrio, StartWait, StopWait, Remove, Unclaim;
    var (v, r) := (if s.main.Free? then 0 else s.main.pid, NextReg(s, ev));
    if ev.Enrol? {
      ApplyPrioWellFormed(s.st, ev.req, ev.client, ev.memcg, ev.env);
    } else if ev.Drop? {
      RemoveOne(s.st, ev.pid);
    } else if ev.Disown? {
      UnclaimWellFormed(s.st, ev.client);
    } else if ev.EndWait? || ev.HandleFailure? {
      StopWaitWellFormed(s.st);
    } else if ev.Await? {
      AwaitMid(s.st, v, ev.epollOk);
      WaitKeepsRecs(s.st, AwaitedBy(s.st.recs[v], v), ev.epollOk);
    } else if ev.SignalNow? {
      MidStops(s.st, v);
      WaitKeepsRecs(s.st, 0, true);
    } else if ev.Discard? && s.main.waited {
      MidRemoved(s.st, v);
    } else if ev.Discard? {
      RemoveOne(s.st, v);
    } else if ev.Mark? && MidAttempt(s.main) {
      MidMarked(s.st, v, s.dog.pid);
    } else if ev.Mark? {
      InvalidateWellFormed(s.st, s.dog.pid);
    }
  }

  lemma WaitKeepsRecs(st: State, x: int, epollOk: bool)
    ensures StartWait(st, x, epollOk).recs == StopWait(st).recs == st.recs
  {
  }

  // ---------- descriptors ----------

  /** The step opens a descriptor of the registry, for a process without a record. */
  predicate Opens(s: Fine, ev: Micro, fd: int) {
    ev.Enrol? && ev.env.newFd == fd && fd >= 0 && fd !in s.st.openFds && fd !in s.dups && ev.req.pid !in s.st.recs
  }

  /** Descriptors are opened for new records only, and records keep the descriptor they have. */
  ghost predicate Owners(s: Fine, ev: Micro, r: State) {
    && r.pidfdSupported == s.st.pidfdSupported
    && (forall fd :: fd in r.openFds ==> fd in s.st.openFds || Opens(s, ev, fd))
    && (forall p :: p in r.recs && !(p in s.st.recs && r.recs[p].pidfd == s.st.recs[p].pidfd)
          ==> ev.Enrol? && p == ev.req.pid && p !in s.st.recs && (r.recs[p].pidfd == -1 || Opens(s, ev, r.recs[p].pidfd)))
  }

  lemma OwnersStep(s: Fine, ev: Micro)
    requires May(s, ev)
    ensures Owners(s, ev, NextReg(s, ev))
  {
    hide Slotted, DropAll;
  }

  /** The tables list what is open, and the descriptor of a record refers to the record's process. */
  ghost predicate Tabled(st: State, tab: Table, dups: Table, n: int) {
    && tab.Keys == st.openFds && dups.Keys !! st.openFds
    && (forall fd :: fd in tab ==> fd >= 0 && tab[fd].serial < n)
    && (forall fd :: fd in dups ==> fd >= 0 && dups[fd].serial < n)
    && (forall p :: p in st.recs && st.recs[p].pidfd in tab ==> tab[st.recs[p].pidfd].pid == p)
    && (forall p :: p in st.recs ==> st.recs[p].pidfd !in dups)
  }

  ghost predicate TabInv(s: Fine) {
    Tabled(s.st, s.tab, s.dups, s.n)
  }

  lemma TabledNext(s: Fine, ev: Micro, r: State)
    requires TabInv(s) && Owners(s, ev, r)
    requires ev.Enrol? ==> forall p :: p in s.st.recs ==> s.st.recs[p].pidfd < 0 || s.st.recs[p].pidfd in s.st.openFds
    ensures Tabled(r, NextTable(s.tab, s.st, r, if ev.Enrol? then ev.req.pid else 0, s.n), s.dups, s.n + 1)
  {
    var tab := NextTable(s.tab, s.st, r, if ev.Enrol? then ev.req.pid else 0, s.n);
    forall fd | fd in r.openFds ensures fd >= 0 && fd !in s.dups {
      assert fd in s.st.openFds ==> fd in s.tab;
      assert fd in s.dups ==> fd in s.dups.Keys;
    }
    forall p | p in r.recs
      ensures r.recs[p].pidfd in tab ==> tab[r.recs[p].pidfd].pid == p
      ensures r.recs[p].pidfd !in s.dups
    {
      var fd := r.recs[p].pidfd;
      assert fd in r.openFds ==> fd in s.st.openFds || Opens(s, ev, fd);
    }
  }

  lemma TabledDups(st: State, tab: Table, dups: Table, n: int, fd: int, o: Opening)
    requires Tabled(st, tab, dups, n) && o.serial < n
    ensures Tabled(st, tab, dups - {fd}, n)
    ensures fd >= 0 && fd !in st.openFds && (forall p :: p in st.recs ==> st.recs[p].pidfd != fd)
            ==> Tabled(st, tab, dups[fd := o], n)
  {
  }

  lemma TabStep(s: Fine, ev: Micro)
    requires RegInv(s) && May(s, ev) && TabInv(s)
    ensures TabInv(Next(s, ev))
  {
    hide NextReg, NextMain, NextDog, NextJobs, NextNotices, RegInv, Tabled, NextTable, Owners;
    OwnersStep(s, ev);
    var t := Next(s, ev);
    AllOpen(s, ev);
    TabledNext(s, ev, t.st);
    if ev.HandOver? {
      HandOverReg(s, ev);
      NotTaken(s, ev);
      TabledDups(t.st, t.tab, s.dups, t.n, ev.fd, Opening(s.main.pid, s.n));
    } else if ev.DupCloses? {
      TabledDups(t.st, t.tab, s.dups, t.n, ev.fd, Opening(0, s.n));
    }
  }

  lemma AllOpen(s: Fine, ev: Micro)
    requires RegInv(s) && May(s, ev)
    ensures ev.Enrol? ==> forall p :: p in s.st.recs ==> s.st.recs[p].pidfd < 0 || s.st.recs[p].pidfd in s.st.openFds
  {
  }

  lemma HandOverReg(s: Fine, ev: Micro)
    requires May(s, ev) && ev.HandOver?
    ensures NextReg(s, ev) == s.st
  {
  }

  /** The number of a duplicate is that of no record, not even of the victim's closed descriptor. */
  lemma NotTaken(s: Fine, ev: Micro)
    requires RegInv(s) && May(s, ev) && ev.HandOver?
    ensures ev.fd >= 0 ==> forall p :: p in s.st.recs ==> s.st.recs[p].pidfd != ev.fd
  {
  }

  // ---------- hand-overs and their failures ----------

  predicate InPipe(s: Fine, a: int) {
    a in s.notices
  }

  /**
   A failure in the pipe is that of one refused hand-over, and is there once. While the death of
   a victim handed over is awaited, its refused signal is still in the pipe.
   */
  ghost predicate JobInv(s: Fine) {
    && (forall a :: a in s.jobs ==> a < s.n) && s.awaited < s.n
    && (s.main.Tested? || s.main.Permitted? || s.main.Awaiting? ==> s.main.a < s.n && s.main.a !in s.jobs)
    && (s.main.Awaiting? ==> s.awaited == s.main.a)
    && NoDup(s.notices) && (forall i :: 0 <= i < |s.notices| ==> s.notices[i] in s.jobs && s.jobs[s.notices[i]].state == Refused)
    && (s.st.pidfdSupported && s.st.lastKill >= 0 && s.awaited in s.jobs && s.jobs[s.awaited].state == Refused
        ==> InPipe(s, s.awaited))
  }

  /** Only setting up a wait makes one be on. */
  lemma WaitStep(s: Fine, ev: Micro)
    requires May(s, ev)
    ensures var r := NextReg(s, ev);
            && r.pidfdSupported == s.st.pidfdSupported
            && (r.lastKill == s.st.lastKill || r.lastKill < 0 || ev.Await?)
            && (ev.HandleFailure? || ev.EndWait? ==> r.lastKill < 0)
  {
    hide Slotted, DropAll;
  }

  lemma JobStep(s: Fine, ev: Micro)
    requires RegInv(s) && May(s, ev) && JobInv(s)
    ensures JobInv(Next(s, ev))
  {
    WaitStep(s, ev);
    hide NextReg, NextTable, NextDups, NextDog, RegInv;
    var t := Next(s, ev);
    if ev.JobRuns? && !ev.ok {
      assert t.notices[|s.notices|] == ev.a;
      forall i | 0 <= i < |s.notices| ensures s.notices[i] != ev.a {
      }
      assert InPipe(s, t.awaited) ==> InPipe(t, t.awaited);
    }
  }

  // ---------- runs ----------

  ghost predicate Inv(s: Fine) {
    RegInv(s) && TabInv(s) && JobInv(s)
  }

  ghost predicate Moves(ss: seq<Fine>, evs: seq<Micro>, k: int)
    requires |ss| == |evs| + 1
  {
    0 <= k < |evs| && May(ss[k], evs[k]) && ss[k + 1] == Next(ss[k], evs[k])
  }

  /** A run of the three parties in small steps. */
  ghost predicate FineRun(ss: seq<Fine>, evs: seq<Micro>) {
    |ss| == |evs| + 1 && Inv(ss[0]) && forall k :: 0 <= k < |evs| ==> Moves(ss, evs, k)
  }

  lemma StepInv(s: Fine, ev: Micro)
    requires Inv(s) && May(s, ev)
    ensures Inv(Next(s, ev))
  {
    hide RegInv, TabInv, JobInv, Next;
    RegStep(s, ev);
    TabStep(s, ev);
    JobStep(s, ev);
  }

  lemma {:induction false} RunInv(ss: seq<Fine>, evs: seq<Micro>, k: nat)
    requires FineRun(ss, evs) && k <= |evs|
    ensures Inv(ss[k]) && ss[k].n == ss[0].n + k && ss[k].st.pidfdSupported == ss[0].st.pidfdSupported
  {
    hide Inv, May, NextReg;
    if k > 0 {
      RunInv(ss, evs, k - 1);
      assert Moves(ss, evs, k - 1);
      StepInv(ss[k - 1], evs[k - 1]);
      WaitStep(ss[k - 1], evs[k - 1]);
    }
  }

  /** Some run leads from s to t. */
  ghost predicate Reaches(s: Fine, t: Fine) {
    exists ss, evs :: FineRun(ss, evs) && ss[0] == s && ss[|evs|] == t
  }

  lemma ReachesSelf(s: Fine)
    requires Inv(s)
    ensures Reaches(s, s)
  {
    assert FineRun([s], []);
  }

  lemma ReachesNext(s: Fine, t: Fine, ev: Micro)
    requires Reaches(s, t) && May(t, ev)
    ensures Reaches(s, Next(t, ev))
  {
    hide Inv, May, Next;
    var ss, evs :| FineRun(ss, evs) && ss[0] == s && ss[|evs|] == t;
    var (ts, fs) := (ss + [Next(t, ev)], evs + [ev]);
    forall k | 0 <= k < |fs| ensures Moves(ts, fs, k) {
      assert k < |evs| ==> Moves(ss, evs, k);
    }
    assert FineRun(ts, fs);
  }

  lemma ReachesInv(s: Fine, t: Fine)
    requires Reaches(s, t)
    ensures Inv(s) && Inv(t)
  {
    hide Inv, May, Next;
    var ss, evs :| FineRun(ss, evs) && ss[0] == s && ss[|evs|] == t;
    RunInv(ss, evs, |evs|);
  }

  lemma StartInv(pidfdSupported: bool)
    ensures Inv(AtStart(pidfdSupported))
  {
  }
}
