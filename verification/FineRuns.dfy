/**
 Kill attempts, marks of the watchdog and failures of handed-over kills over every interleaving of
 the small steps.
 */
module FineRuns {
  import opened RegistryModel
  import opened PsiModel
  import opened DaemonModel
  import opened FineModel

  // ---------- one attempt ----------

  /** The step signals p: at once, or by handing the kill over. */
  predicate SignalsTo(s: Fine, ev: Micro, p: int) {
    (ev.SignalNow? || ev.HandOver?) && s.main.Awaiting? && s.main.pid == p
  }

  /** The attempt begun by event i is still going on before event m, and over after it. */
  ghost predicate AttemptOver(ss: seq<Fine>, evs: seq<Micro>, i: nat, m: nat) {
    && FineRun(ss, evs) && i < m < |ss| && evs[i].Begin? && ss[m].main.Free?
    && (forall j :: i < j < m ==> !ss[j].main.Free?)
  }

  ghost predicate SignalledBetween(ss: seq<Fine>, evs: seq<Micro>, i: nat, m: nat, p: int)
    requires |ss| == |evs| + 1 && m < |ss|
  {
    exists k :: i < k < m && SignalsTo(ss[k], evs[k], p)
  }

  /** Up to the answers of the system the attempt remembers what it saw when it looked at the flag. */
  lemma {:induction false} TestRemembered(ss: seq<Fine>, evs: seq<Micro>, i: nat, j: nat)
    requires FineRun(ss, evs) && i < j < |ss| && evs[i].Begin?
    requires forall k :: i < k < j ==> !evs[k].Read?
    ensures evs[i].pid in ss[i].st.recs
    ensures ss[j].main == Tested(evs[i].pid, ss[i].n, ss[i].st.recs[evs[i].pid].valid)
    decreases j
  {
    assert Moves(ss, evs, i);
    if j > i + 1 {
      TestRemembered(ss, evs, i, j - 1);
      assert Moves(ss, evs, j - 1);
      hide NextReg;
    }
  }

  /** Once nothing stands against it, an attempt cannot end without its signal. */
  lemma {:induction false} SignalFollows(ss: seq<Fine>, evs: seq<Micro>, r: nat, j: nat, p: int)
    requires FineRun(ss, evs) && r < j < |ss| && ss[r + 1].main.Permitted? && ss[r + 1].main.pid == p
    ensures SignalledBetween(ss, evs, r, j, p) || ((ss[j].main.Permitted? || ss[j].main.Awaiting?) && ss[j].main.pid == p)
    decreases j
  {
    hide NextReg;
    if j > r + 1 {
      SignalFollows(ss, evs, r, j - 1, p);
      assert Moves(ss, evs, j - 1);
      if SignalledBetween(ss, evs, r, j - 1, p) {
        var k :| r < k < j - 1 && SignalsTo(ss[k], evs[k], p);
        assert SignalsTo(ss[k], evs[k], p);
      } else if SignalsTo(ss[j - 1], evs[j - 1], p) {
        assert r < j - 1 < j;
      }
    }
  }

  /** An attempt that is refused is over with the removal of the record, and sends no signal. */
  lemma {:induction false} NoSignalAfterRefusal(ss: seq<Fine>, evs: seq<Micro>, r: nat, j: nat)
    requires FineRun(ss, evs) && r < j < |ss| && ss[r + 1].main.Doomed?
    requires forall k :: r < k < j ==> !ss[k].main.Free?
    ensures ss[j].main.Doomed? || ss[j].main.Free?
    decreases j
  {
    hide NextReg;
    if j > r + 1 {
      NoSignalAfterRefusal(ss, evs, r, j - 1);
      assert Moves(ss, evs, j - 1);
    }
  }

  /**
   On every interleaving an attempt signals its victim if and only if the record was valid when
   the attempt looked at it and the answers of the system permit. What the watchdog does to the
   flag after that look makes no difference.
   */
  lemma AttemptSignals(ss: seq<Fine>, evs: seq<Micro>, i: nat, r: nat, m: nat)
    requires AttemptOver(ss, evs, i, m) && i < r < m && evs[r].Read? && (forall k :: i < k < r ==> !evs[k].Read?)
    ensures evs[i].pid in ss[i].st.recs
    ensures SignalledBetween(ss, evs, i, m, evs[i].pid) <==>
            ss[i].st.recs[evs[i].pid].valid && evs[r].statusOk && evs[r].hook <= 0
  {
    var p := evs[i].pid;
    TestRemembered(ss, evs, i, r);
    forall k | i < k <= r ensures !SignalsTo(ss[k], evs[k], p) {
      TestRemembered(ss, evs, i, k);
    }
    assert Moves(ss, evs, r);
    hide NextReg, May;
    if ss[r + 1].main.Permitted? {
      SignalFollows(ss, evs, r, m, p);
      assert SignalledBetween(ss, evs, r, m, p);
    } else if ss[r + 1].main.Doomed? {
      forall k | r < k < m ensures !SignalsTo(ss[k], evs[k], p) {
        NoSignalAfterRefusal(ss, evs, r, k);
      }
    }
  }

  // ---------- marks ----------

  /** The record is there, marked invalid, and the watchdog does not hold an older copy of it. */
  predicate Spent(s: Fine, p: int) {
    && p in s.st.recs && !s.st.recs[p].valid
    && (s.dog.Aiming? && s.dog.pid == p ==> !s.dog.rec.valid)
  }

  /** The main thread is in an attempt on p that found the record valid. */
  predicate PastTest(m: Main, p: int) {
    (m.Tested? && m.pid == p && m.valid) || (m.Permitted? && m.pid == p) || (m.Awaiting? && m.pid == p)
  }

  lemma MarkedIsSpent(s: Fine)
    requires May(s, Mark)
    ensures s.dog.pid in Next(s, Mark).st.recs ==> Spent(Next(s, Mark), s.dog.pid)
  {
  }

  lemma StepSpent(s: Fine, ev: Micro, p: int)
    requires May(s, ev) && Spent(s, p)
    ensures p in Next(s, ev).st.recs ==> Spent(Next(s, ev), p)
    ensures PastTest(Next(s, ev).main, p) ==> PastTest(s.main, p)
    ensures SignalsTo(s, ev, p) ==> PastTest(s.main, p)
    ensures ev.Fire? && s.dog.pid == p ==> NextDog(s, ev) == Idle
  {
    hide Slotted, DropAll;
  }

  /**
   Once the watchdog has marked a record, and for as long as the record is there: the watchdog
   does not signal through it again, and the main thread does so exactly in an attempt that had
   looked at the flag before the mark.
   */
  lemma {:induction false} RunSpent(ss: seq<Fine>, evs: seq<Micro>, p: int, k: nat)
    requires FineRun(ss, evs) && k < |evs| && Spent(ss[0], p)
    requires forall j :: 0 <= j <= k ==> p in ss[j].st.recs
    ensures Spent(ss[k], p) && (PastTest(ss[k].main, p) ==> PastTest(ss[0].main, p))
    ensures SignalsTo(ss[k], evs[k], p) ==> PastTest(ss[0].main, p)
    ensures evs[k].Fire? && ss[k].dog.Aiming? && ss[k].dog.pid == p ==> ss[k + 1].dog == Idle
  {
    hide May, Next, Spent, PastTest;
    if k > 0 {
      RunSpent(ss, evs, p, k - 1);
      assert Moves(ss, evs, k - 1) && p in ss[k].st.recs;
      StepSpent(ss[k - 1], evs[k - 1], p);
    }
    assert Moves(ss, evs, k);
    StepSpent(ss[k], evs[k], p);
    NextDogIs(ss[k], evs[k]);
  }

  lemma NextDogIs(s: Fine, ev: Micro)
    requires May(s, ev)
    ensures Next(s, ev).dog == NextDog(s, ev)
  {
  }

  /** Process `pid` registers with descriptor `fd`, at the adj the scan looks at first. */
  function Arrives(pid: int, fd: int, adj: OomAdj): Micro {
    Enrol(1, Request(pid, 0, adj, PROC_TYPE_APP), Answers(true, true, true, fd, true), false)
  }

  lemma ArrivesStep(s: Fine, pid: int, fd: int, adj: OomAdj)
    requires s.main.Free? && |s.st.slots| == ADJTOSLOT_COUNT && s.st.pidfdSupported && pid > 0 && pid !in s.st.recs
    requires fd >= 0 && fd !in s.st.openFds && fd !in s.dups
    ensures May(s, Arrives(pid, fd, adj))
    ensures var t := Next(s, Arrives(pid, fd, adj));
            && t.st == s.st.(recs := s.st.recs[pid := Rec(fd, 0, adj, 1, true)], openFds := s.st.openFds + {fd},
                             slots := Slotted(s.st.slots, pid, adj))
            && t == s.(st := t.st, tab := t.tab, n := s.n + 1)
            && t.tab == NextTable(s.tab, s.st, t.st, pid, s.n)
  {
  }

  /** The watchdog aims at the victim of an attempt that has looked at the flag, and its signal is delivered. */
  lemma ShotInAttempt(s: Fine, p: int, adj: OomAdj)
    requires s.main.Free? && s.dog.Idle? && |s.st.slots| == ADJTOSLOT_COUNT && adj >= 0 && p in s.st.slots[AdjToSlot(adj)]
    requires p in s.st.recs && s.st.recs[p].valid && s.st.recs[p].oomadj >= 0
    ensures May(s, Begin(p)) && May(Next(s, Begin(p)), Aim(adj, p))
    ensures var s2 := Next(Next(s, Begin(p)), Aim(adj, p));
            && May(s2, Fire(true))
            && var s3 := Next(s2, Fire(true));
               s3.dog == Hit(p) && s3.main == Tested(p, s.n, true) && s3.st == s.st
  {
  }

  /** The attempt goes on to its signal although the record has been marked in the meantime. */
  lemma SecondSignal(s: Fine, p: int, a: int)
    requires s.main == Tested(p, a, true) && s.dog == Hit(p) && p in s.st.recs && |s.st.slots| == ADJTOSLOT_COUNT
    ensures May(s, Mark)
    ensures var s1 := Next(s, Mark);
            && Spent(s1, p) && May(s1, Read(true, 0))
            && var s2 := Next(s1, Read(true, 0));
               && May(s2, Await(true))
               && var s3 := Next(s2, Await(true));
                  May(s3, SignalNow(true)) && SignalsTo(s3, SignalNow(true), p) && Spent(s3, p)
  {
  }

  /**
   From the start: the main thread looks at the flag of process 10 and is held up, the watchdog
   kills the process and is about to mark the record in state s, and in state t, after the mark,
   the main thread signals the process again.
   */
  lemma SignalledTwice() returns (s: Fine, t: Fine)
    ensures Reaches(AtStart(true), s) && s.dog == Hit(10) && May(s, Mark)
    ensures Reaches(Next(s, Mark), t) && Spent(t, 10) && May(t, SignalNow(true)) && SignalsTo(t, SignalNow(true), 10)
  {
    StartInv(true);
    var s0 := AtStart(true);
    ArrivesStep(s0, 10, 5, 1000);
    SlottedFirst(s0.st.slots, 10, 1000);
    hide Inv, May, Next, Slotted, Spent, Reaches;
    var s1 := Next(s0, Arrives(10, 5, 1000));
    ShotInAttempt(s1, 10, 1000);
    var s2 := Next(s1, Begin(10));
    var s3 := Next(s2, Aim(1000, 10));
    s := Next(s3, Fire(true));
    SecondSignal(s, 10, s1.n);
    ReachesSelf(s0);
    ReachesNext(s0, s0, Arrives(10, 5, 1000));
    ReachesNext(s0, s1, Begin(10));
    ReachesNext(s0, s2, Aim(1000, 10));
    ReachesNext(s0, s3, Fire(true));
    ReachesInv(s0, s);
    var s5 := Next(s, Mark);
    StepInv(s, Mark);
    ReachesSelf(s5);
    ReachesNext(s5, s5, Read(true, 0));
    t := Next(Next(s5, Read(true, 0)), Await(true));
    ReachesNext(s5, Next(s5, Read(true, 0)), Await(true));
  }

  lemma SlottedFirst(slots: seq<seq<int>>, pid: int, adj: OomAdj)
    requires |slots| == ADJTOSLOT_COUNT
    ensures pid in Slotted(slots, pid, adj)[AdjToSlot(adj)]
  {
  }

  // ---------- failures of handed-over kills ----------

  /** The death awaited is that of the victim of attempt a. */
  predicate WaitedFor(s: Fine, a: int) {
    Waiting(s.st) && s.awaited == a
  }

  predicate BeforeWait(m: Main, a: int) {
    (m.Tested? || m.Permitted?) && m.a == a
  }

  lemma AttemptNumbers(s: Fine, ev: Micro, a: int)
    requires May(s, ev)
    ensures BeforeWait(Next(s, ev).main, a) ==> BeforeWait(s.main, a) || a == s.n
    ensures ev.Await? ==> s.main.Permitted? && Next(s, ev).main.Awaiting?
  {
    hide NextReg;
  }

  /** An attempt whose wait has been set up does not come back to that point. */
  lemma {:induction false} NoReturn(ss: seq<Fine>, evs: seq<Micro>, i: nat, j: nat)
    requires FineRun(ss, evs) && i < j < |ss| && evs[i].Await?
    ensures ss[i].main.Permitted? && ss[i].main.a < ss[i].n
    ensures !BeforeWait(ss[j].main, ss[i].main.a)
    decreases j
  {
    hide May, Next, Inv, BeforeWait;
    RunInv(ss, evs, i);
    RunInv(ss, evs, j - 1);
    NumberBelow(ss[i]);
    assert Moves(ss, evs, i) && Moves(ss, evs, j - 1);
    AttemptNumbers(ss[i], evs[i], 0);
    AttemptNumbers(ss[j - 1], evs[j - 1], ss[i].main.a);
    NotWaiting(ss[j].main, ss[i].main.a);
    if j > i + 1 {
      NoReturn(ss, evs, i, j - 1);
    }
  }

  lemma NumberBelow(s: Fine)
    requires Inv(s)
    ensures s.main.Permitted? ==> s.main.a < s.n
  {
  }

  lemma NotWaiting(m: Main, a: int)
    ensures m.Awaiting? ==> !BeforeWait(m, a)
  {
  }

  /** A wait that is on has been on ever since it was set up. */
  lemma {:induction false} SameWait(ss: seq<Fine>, evs: seq<Micro>, i: nat, j: nat, k: nat)
    requires FineRun(ss, evs) && i < j <= k < |ss| && evs[i].Await?
    ensures ss[i].main.Permitted?
    ensures WaitedFor(ss[k], ss[i].main.a) ==> WaitedFor(ss[j], ss[i].main.a)
    decreases k
  {
    assert Moves(ss, evs, i);
    if j < k {
      SameWait(ss, evs, i, j, k - 1);
      assert Moves(ss, evs, k - 1);
      WaitStep(ss[k - 1], evs[k - 1]);
      NoReturn(ss, evs, i, k - 1);
      hide NextReg;
    }
  }

  predicate WaitedThrough(ss: seq<Fine>, a: int, i: nat, k: nat)
    requires k < |ss|
  {
    forall j :: i < j <= k ==> WaitedFor(ss[j], a)
  }

  /**
   A failure handled is that of one refused hand-over. It ends whatever wait is on: that of its own
   kill exactly if it has been on ever since it was set up, else that of another one.
   */
  lemma FailureEndsWait(ss: seq<Fine>, evs: seq<Micro>, i: nat, k: nat)
    requires FineRun(ss, evs) && i < k < |evs| && evs[i].Await? && evs[k].HandleFailure?
    requires ss[k].notices != [] && ss[i].main.Permitted? && ss[k].notices[0] == ss[i].main.a
    ensures var a := ss[i].main.a;
            && a in ss[k].jobs && ss[k].jobs[a].state == Refused && a !in ss[k + 1].notices
            && !Waiting(ss[k + 1].st)
            && (WaitedFor(ss[k], a) <==> WaitedThrough(ss, a, i, k))
  {
    var a := ss[i].main.a;
    RunInv(ss, evs, k);
    assert Moves(ss, evs, k);
    WaitStep(ss[k], evs[k]);
    assert NoDup(ss[k].notices) && ss[k].notices[0] in ss[k].jobs;
    hide NextReg, RegInv, TabInv, WaitedFor;
    if WaitedFor(ss[k], a) {
      forall j | i < j <= k ensures WaitedFor(ss[j], a) {
        SameWait(ss, evs, i, j, k);
      }
    }
  }

  /** While the death of a victim handed over is awaited, its refused signal is in the pipe and will end the wait. */
  lemma RefusalIsReported(ss: seq<Fine>, evs: seq<Micro>, k: nat, a: int)
    requires FineRun(ss, evs) && k <= |evs| && WaitedFor(ss[k], a) && a in ss[k].jobs && ss[k].jobs[a].state == Refused
    ensures a in ss[k].notices
    ensures ss[k].main.Free? ==> May(ss[k], HandleFailure) && !Waiting(Next(ss[k], HandleFailure).st)
  {
    RunInv(ss, evs, k);
    hide TabInv, Shape, FdsOwned;
    assert InPipe(ss[k], a);
  }

  /** The first half of an attempt on p, up to the wait for its death. */
  lemma SetsUp(s0: Fine, s: Fine, p: int) returns (t: Fine)
    requires Reaches(s0, s) && s.main.Free? && p in s.st.recs && s.st.recs[p].valid && s.st.recs[p].oomadj >= 0
    ensures Reaches(s0, t)
    ensures t == s.(main := Awaiting(p, s.n), st := StartWait(s.st, AwaitedBy(s.st.recs[p], p), true), tab := t.tab,
                    awaited := s.n, n := s.n + 3)
  {
    ReachesInv(s0, s);
    hide Slotted, DropAll, Shape, FdsOwned, TabInv, JobInv, Reaches, StartWait, NextTable;
    var s1 := Next(s, Begin(p));
    var s2 := Next(s1, Read(true, 0));
    t := Next(s2, Await(true));
    ReachesNext(s0, s, Begin(p));
    ReachesNext(s0, s1, Read(true, 0));
    ReachesNext(s0, s2, Await(true));
  }

  /** The second half: the hand-over with duplicate `fd`, and the removal of the record. */
  lemma PassesOn(s0: Fine, s: Fine, fd: int) returns (t: Fine)
    requires Reaches(s0, s) && s.main.Awaiting? && May(s, HandOver(fd)) && fd >= 0
    ensures Reaches(s0, t)
    ensures t == s.(main := Free, st := Remove(s.st, s.main.pid), tab := t.tab, dups := s.dups[fd := Opening(s.main.pid, s.n)],
                    jobs := s.jobs[s.main.a := Job(s.main.pid, fd, Queued)], n := s.n + 2)
  {
    hide Slotted, DropAll, Shape, FdsOwned, Reaches, Remove, NextTable;
    var s1 := Next(s, HandOver(fd));
    t := Next(s1, Discard);
    ReachesNext(s0, s, HandOver(fd));
    ReachesNext(s0, s1, Discard);
  }

  lemma KilledState(st: State, p: int)
    requires WellFormed(st) && p in st.recs && st.pidfdSupported
    ensures var mid := StartWait(st, AwaitedBy(st.recs[p], p), true);
            var r := Remove(mid, p);
            && mid.recs == st.recs && mid.pidfdSupported && |mid.slots| == ADJTOSLOT_COUNT
            && mid.openFds == r.openFds == (if st.lastKill >= 0 then st.openFds - {st.lastKill} else st.openFds)
            && st.recs[p].pidfd in mid.openFds
            && r.recs == st.recs - {p} && r.lastKill == st.recs[p].pidfd >= 0 && r.pidfdSupported
  {
  }

  /** A whole attempt on p that ends in a hand-over with duplicate `fd`. */
  lemma HandsOver(s0: Fine, s: Fine, p: int, fd: int) returns (t: Fine)
    requires Reaches(s0, s) && s.main.Free? && s.st.pidfdSupported && p in s.st.recs && s.st.recs[p].valid
    requires s.st.recs[p].oomadj >= 0 && fd >= 0 && fd !in s.st.openFds && fd !in s.dups
    ensures Reaches(s0, t) && t.main.Free? && t.st.pidfdSupported && t.notices == s.notices
    ensures t.st.recs == s.st.recs - {p} && t.st.lastKill == s.st.recs[p].pidfd >= 0
    ensures t.st.openFds == (if s.st.lastKill >= 0 then s.st.openFds - {s.st.lastKill} else s.st.openFds)
    ensures t.dups == s.dups[fd := Opening(p, s.n + 3)] && t.awaited == s.n && t.jobs == s.jobs[s.n := Job(p, fd, Queued)]
    ensures t.n == s.n + 5 && t.dog == s.dog
  {
    ReachesInv(s0, s);
    KilledState(s.st, p);
    hide Shape, FdsOwned, TabInv, JobInv, Reaches, StartWait, Remove;
    var mid := SetsUp(s0, s, p);
    t := PassesOn(s0, mid, fd);
  }

  /**
   From the start: the kill of process 10 is given up after its timeout, process 11 is killed, and
   the failure of the first kill ends the wait for the second.
   */
  lemma ForeignFailure() returns (t: Fine)
    ensures Reaches(AtStart(true), t) && May(t, HandleFailure) && Waiting(t.st) && !Waiting(Next(t, HandleFailure).st)
    ensures t.notices[0] in t.jobs && t.jobs[t.notices[0]] == Job(10, 7, Refused)
    ensures t.awaited in t.jobs && t.jobs[t.awaited].pid == 11
  {
    hide Inv, Reaches, Next, May, StopWait, AtStart;
    var s0 := AtStart(true);
    var s2 := TwoArrive();
    var s3 := HandsOver(s0, s2, 10, 7);
    var s4 := GivesUp(s0, s3);
    var s5 := HandsOver(s0, s4, 11, 8);
    t := Fails(s0, s5, 2);
  }

  /** Processes 10 and 11 have registered. */
  lemma TwoArrive() returns (s: Fine)
    ensures Reaches(AtStart(true), s) && s.main.Free? && s.dog.Idle? && s.st.pidfdSupported && s.st.openFds == {5, 6}
    ensures s.st.recs == map[10 := Rec(5, 0, 1000, 1, true), 11 := Rec(6, 0, 1000, 1, true)]
    ensures s.dups == map[] && s.jobs == map[] && s.notices == [] && s.st.lastKill == -1 && s.n == 2
    ensures |s.st.slots| == ADJTOSLOT_COUNT && 10 in s.st.slots[AdjToSlot(1000)] && 11 in s.st.slots[AdjToSlot(1000)]
  {
    StartInv(true);
    var s0 := AtStart(true);
    ReachesSelf(s0);
    ArrivesStep(s0, 10, 5, 1000);
    hide Inv, Reaches, Next, May;
    var s1 := Next(s0, Arrives(10, 5, 1000));
    ArrivesStep(s1, 11, 6, 1000);
    s := Next(s1, Arrives(11, 6, 1000));
    ReachesNext(s0, s0, Arrives(10, 5, 1000));
    ReachesNext(s0, s1, Arrives(11, 6, 1000));
  }

  lemma GivesUp(s0: Fine, s: Fine) returns (t: Fine)
    requires Reaches(s0, s) && s.main.Free? && s.st.pidfdSupported && s.st.lastKill >= 0
    ensures Reaches(s0, t) && t == s.(st := StopWait(s.st), tab := t.tab, n := s.n + 1)
    ensures t.st.recs == s.st.recs && t.st.openFds == s.st.openFds - {s.st.lastKill} && t.st.pidfdSupported
  {
    ReachesInv(s0, s);
    hide Shape, TabInv, JobInv, Reaches;
    t := Next(s, EndWait);
    ReachesNext(s0, s, EndWait);
  }

  lemma Fails(s0: Fine, s: Fine, a: int) returns (t: Fine)
    requires Reaches(s0, s) && s.main.Free? && Waiting(s.st) && a in s.jobs && s.jobs[a].state == Queued && s.notices == []
    ensures Reaches(s0, t) && t == s.(tab := t.tab, n := s.n + 1, notices := [a], jobs := s.jobs[a := s.jobs[a].(state := Refused)])
    ensures May(t, HandleFailure) && !Waiting(Next(t, HandleFailure).st)
  {
    ReachesInv(s0, s);
    hide Shape, FdsOwned, TabInv, JobInv, Reaches;
    t := Next(s, JobRuns(a, false));
    ReachesNext(s0, s, JobRuns(a, false));
  }
}
