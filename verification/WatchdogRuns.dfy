/**
 Whom the watchdog thread signals. It copies a record under the lock and signals later without
 it, so the registry and the meaning of the copied descriptor may have changed in between.
 */
module WatchdogRuns {
  import opened Options
  import opened RegistryModel
  import opened FineModel
  import FineRuns

  // ---------- whom a descriptor number stands for ----------

  /** Descriptor `fd` is open and is that of p's record or the one kept for p's death. */
  predicate Held(st: State, p: int, fd: int) {
    (p in st.recs && st.recs[p].pidfd == fd && fd in st.openFds) || st.lastKill == fd
  }

  /** A descriptor held for p is held on until it is closed, whatever step is made. */
  lemma HeldOrClosed(s: Fine, ev: Micro, p: int, fd: int)
    requires RegInv(s) && May(s, ev) && s.st.pidfdSupported && fd >= 0 && Held(s.st, p, fd)
    ensures fd in s.st.openFds && (Held(NextReg(s, ev), p, fd) <==> fd in NextReg(s, ev).openFds)
  {
    hide Shape, Slotted, DropAll;
  }

  predicate HeldAt(ss: seq<Fine>, p: int, fd: int, j: int)
    requires 0 <= j < |ss|
  {
    Held(ss[j].st, p, fd)
  }

  /** From the start of the run up to its k-th state the descriptor stayed p's. */
  predicate HeldThrough(ss: seq<Fine>, p: int, fd: int, k: nat)
    requires k < |ss|
  {
    forall j :: 0 <= j <= k ==> HeldAt(ss, p, fd, j)
  }

  /**
   Along every run a descriptor number held for p at the start stands for the same opening if and
   only if it has been held for p in every state since. Once let go it is closed, or stands for
   an opening made during the run, be it for a record or a duplicate for the pool.
   */
  lemma {:induction false} OpeningKept(ss: seq<Fine>, evs: seq<Micro>, p: int, fd: int, k: nat)
    requires FineRun(ss, evs) && k <= |evs| && ss[0].st.pidfdSupported && fd >= 0 && HeldAt(ss, p, fd, 0)
    ensures fd in ss[0].tab
    ensures HeldThrough(ss, p, fd, k) <==> fd in ss[k].tab && ss[k].tab[fd] == ss[0].tab[fd]
    ensures HeldThrough(ss, p, fd, k) ==> fd !in ss[k].dups
    ensures !HeldThrough(ss, p, fd, k) && fd in ss[k].tab ==> ss[0].n <= ss[k].tab[fd].serial < ss[k].n
    ensures !HeldThrough(ss, p, fd, k) && fd in ss[k].dups ==> ss[0].n <= ss[k].dups[fd].serial < ss[k].n
  {
    hide Inv, RegInv, TabInv, JobInv, May, Next, NextReg, Held;
    RunInv(ss, evs, 0);
    RunInv(ss, evs, k);
    InvParts(ss[0]);
    HeldIsOpen(ss[0], p, fd);
    if k > 0 {
      OpeningKept(ss, evs, p, fd, k - 1);
      RunInv(ss, evs, k - 1);
      InvParts(ss[k - 1]);
      assert Moves(ss, evs, k - 1);
      TableFate(ss[k - 1], evs[k - 1], fd);
      assert HeldThrough(ss, p, fd, k) <==> HeldThrough(ss, p, fd, k - 1) && HeldAt(ss, p, fd, k);
      if HeldThrough(ss, p, fd, k - 1) {
        assert HeldAt(ss, p, fd, k - 1);
        HeldOrClosed(ss[k - 1], evs[k - 1], p, fd);
      }
    }
  }

  lemma InvParts(s: Fine)
    requires Inv(s)
    ensures RegInv(s) && TabInv(s)
  {
  }

  /** What a step makes of a descriptor number: its opening stays, or it is closed, or it gets a new one. */
  lemma TableFate(s: Fine, ev: Micro, fd: int)
    requires TabInv(s) && May(s, ev)
    ensures var t := Next(s, ev);
            && t.st == NextReg(s, ev) && t.n == s.n + 1
            && (fd in t.tab <==> fd in t.st.openFds)
            && (fd in t.tab && fd in s.tab ==> t.tab[fd] == s.tab[fd])
            && (fd in t.tab && fd !in s.tab ==> t.tab[fd].serial == s.n)
            && (fd in t.dups ==> (fd in s.dups && t.dups[fd] == s.dups[fd]) || t.dups[fd].serial == s.n)
            && (fd in t.dups && fd in s.tab ==> fd in s.dups)
  {
    hide NextReg, NextMain, NextDog, NextJobs, NextNotices;
  }

  lemma HeldIsOpen(s: Fine, p: int, fd: int)
    requires Inv(s) && s.st.pidfdSupported && fd >= 0 && Held(s.st, p, fd)
    ensures fd in s.tab && fd !in s.dups && s.tab[fd].serial < s.n
  {
  }

  // ---------- from the aim to the shot ----------

  /** The watchdog has just copied a record. */
  predicate JustAimed(s: Fine) {
    s.dog.Aiming? && s.dog.pid in s.st.recs && s.st.recs[s.dog.pid] == s.dog.rec && s.dog.rec.oomadj >= 0
  }

  /** The watchdog aimed at the start of the run and has not fired before its k-th event. */
  ghost predicate AimedSince(ss: seq<Fine>, evs: seq<Micro>, k: nat) {
    FineRun(ss, evs) && k <= |evs| && JustAimed(ss[0]) && (forall j :: 0 <= j < k ==> !evs[j].Fire?)
  }

  lemma {:induction false} DogKept(ss: seq<Fine>, evs: seq<Micro>, k: nat)
    requires AimedSince(ss, evs, k)
    ensures ss[k].dog == ss[0].dog
  {
    hide NextReg;
    if k > 0 {
      DogKept(ss, evs, k - 1);
      assert Moves(ss, evs, k - 1);
    }
  }

  /** The process a signal of the watchdog would reach now: nobody, if its descriptor is closed. */
  function Reached(s: Fine): Option<int>
    requires s.dog.Aiming?
  {
    var fd := s.dog.rec.pidfd;
    if fd < 0 then Some(s.dog.pid)
    else if fd in s.tab then Some(s.tab[fd].pid)
    else if fd in s.dups then Some(s.dups[fd].pid)
    else None
  }

  /** The copied descriptor is open where the record has it open. */
  lemma AimHeld(s: Fine)
    requires Inv(s) && JustAimed(s) && s.dog.rec.pidfd >= 0
    ensures s.st.pidfdSupported
    ensures Held(s.st, s.dog.pid, s.dog.rec.pidfd) <==> s.dog.rec.pidfd in s.tab
    ensures s.dog.rec.pidfd in s.tab ==> s.tab[s.dog.rec.pidfd].pid == s.dog.pid
    ensures s.dog.rec.pidfd !in s.dups
  {
  }

  /** The number stands for the opening it stood for when the watchdog aimed. */
  predicate SameOpening(ss: seq<Fine>, fd: int, k: nat)
    requires 0 < |ss| && k < |ss|
  {
    fd in ss[0].tab && fd in ss[k].tab && ss[k].tab[fd] == ss[0].tab[fd]
  }

  /** What the number stands for otherwise, if it is open. */
  function LaterOpening(s: Fine, fd: int): Option<Opening> {
    if fd in s.tab then Some(s.tab[fd]) else if fd in s.dups then Some(s.dups[fd]) else None
  }

  /** Whatever was open at the start and is not now stands for an opening made since. */
  lemma {:induction false} OpenedSince(ss: seq<Fine>, evs: seq<Micro>, fd: int, k: nat)
    requires FineRun(ss, evs) && k <= |evs|
    ensures fd in ss[k].tab && !SameOpening(ss, fd, k) ==> ss[0].n <= ss[k].tab[fd].serial < ss[k].n
    ensures fd in ss[k].dups && fd !in ss[0].dups ==> ss[0].n <= ss[k].dups[fd].serial < ss[k].n
  {
    hide Inv, RegInv, TabInv, May, Next, NextReg;
    RunInv(ss, evs, k);
    if k > 0 {
      OpenedSince(ss, evs, fd, k - 1);
      RunInv(ss, evs, k - 1);
      InvParts(ss[k - 1]);
      assert Moves(ss, evs, k - 1);
      TableFate(ss[k - 1], evs[k - 1], fd);
    }
  }

  /**
   On every run from an aim at p, the descriptor the watchdog holds stands for the opening it
   stood for when it aimed if and only if p's record, or the wait for p's death, has kept it open
   since. Otherwise the signal reaches nobody, or whoever a later opening was made for: a process
   registered since, or the victim of a kill handed to the pool since.
   */
  lemma WatchdogReaches(ss: seq<Fine>, evs: seq<Micro>, k: nat)
    requires AimedSince(ss, evs, k)
    ensures ss[k].dog == ss[0].dog
    ensures var (p, fd) := (ss[0].dog.pid, ss[0].dog.rec.pidfd);
            if fd < 0 then Reached(ss[k]) == Some(p)
            else
              var o := LaterOpening(ss[k], fd);
              && (HeldThrough(ss, p, fd, k) <==> SameOpening(ss, fd, k))
              && Reached(ss[k]) == (if SameOpening(ss, fd, k) then Some(p) else if o.Some? then Some(o.value.pid) else None)
              && (!SameOpening(ss, fd, k) && o.Some? ==> ss[0].n <= o.value.serial < ss[k].n)
  {
    hide Next, Held;
    DogKept(ss, evs, k);
    var (p, fd) := (ss[0].dog.pid, ss[0].dog.rec.pidfd);
    if fd >= 0 {
      AimHeld(ss[0]);
      OpenedSince(ss, evs, fd, k);
      assert HeldThrough(ss, p, fd, k) ==> HeldAt(ss, p, fd, 0);
      if HeldAt(ss, p, fd, 0) {
        OpeningKept(ss, evs, p, fd, k);
      }
    }
  }

  // ---------- who is recorded below adj 0 ----------

  predicate Negative(st: State, q: int) {
    q in st.recs && st.recs[q].oomadj < 0
  }

  /** The event is a registration of q that the daemon accepts. */
  predicate Accepts(st: State, ev: Micro, q: int) {
    ev.Enrol? && ev.req.pid == q && Accepted(st, ev.req, ev.client, ev.memcg, ev.env)
  }

  predicate AcceptsNegative(st: State, ev: Micro, q: int) {
    Accepts(st, ev, q) && ev.req.oomadj < 0
  }

  /**
   A step leaves q recorded below adj 0 if and only if it accepts a registration of q below 0, or
   q was below 0, is still recorded, and no registration of q was accepted.
   */
  lemma NegativeStep(s: Fine, ev: Micro, q: int)
    requires May(s, ev)
    ensures Negative(Next(s, ev).st, q) <==>
            if Accepts(s.st, ev, q) then ev.req.oomadj < 0 else Negative(s.st, q) && q in Next(s, ev).st.recs
  {
    hide Slotted, DropAll, NextTable, NextDups, NextJobs, NextNotices;
  }

  /** Event n neither takes q's record away nor registers q anew. */
  predicate Lasting(ss: seq<Fine>, evs: seq<Micro>, q: int, n: int)
    requires |ss| == |evs| + 1 && 0 <= n < |evs|
  {
    q in ss[n + 1].st.recs && !Accepts(ss[n].st, evs[n], q)
  }

  /** Event j registers q below adj 0, and that registration is still the last word at state k. */
  predicate DemotedAt(ss: seq<Fine>, evs: seq<Micro>, q: int, j: int, k: nat)
    requires |ss| == |evs| + 1 && k <= |evs| && 0 <= j < k
  {
    AcceptsNegative(ss[j].st, evs[j], q) && (forall n :: j < n < k ==> Lasting(ss, evs, q, n))
  }

  predicate Demoted(ss: seq<Fine>, evs: seq<Micro>, q: int, m: nat, k: nat)
    requires |ss| == |evs| + 1 && k <= |evs|
  {
    exists j :: m <= j < k && DemotedAt(ss, evs, q, j, k)
  }

  lemma DemotedNext(ss: seq<Fine>, evs: seq<Micro>, q: int, m: nat, k: nat)
    requires |ss| == |evs| + 1 && m < k <= |evs|
    ensures Demoted(ss, evs, q, m, k) <==>
            AcceptsNegative(ss[k - 1].st, evs[k - 1], q)
            || (Lasting(ss, evs, q, k - 1) && Demoted(ss, evs, q, m, k - 1))
  {
    hide Accepts, AcceptsNegative;
    if AcceptsNegative(ss[k - 1].st, evs[k - 1], q) {
      assert DemotedAt(ss, evs, q, k - 1, k);
    }
    if j :| m <= j < k - 1 && DemotedAt(ss, evs, q, j, k) {
      assert Lasting(ss, evs, q, k - 1);
      assert DemotedAt(ss, evs, q, j, k - 1) by {
        forall n | j < n < k - 1 ensures Lasting(ss, evs, q, n) {
        }
      }
    }
    var h := k - 1;
    if Lasting(ss, evs, q, h) {
      if j :| m <= j < h && DemotedAt(ss, evs, q, j, h) {
        forall n | j < n < k ensures Lasting(ss, evs, q, n) {
          assert n < h ==> Lasting(ss, evs, q, n);
        }
        assert DemotedAt(ss, evs, q, j, k);
      }
    }
  }

  /**
   On every run, a process not below adj 0 at state m is below it at state k if and only if a
   registration below 0 was accepted for it in between and nothing has superseded it since.
   */
  lemma {:induction false} NegativeRun(ss: seq<Fine>, evs: seq<Micro>, q: int, m: nat, k: nat)
    requires FineRun(ss, evs) && m <= k <= |evs|
    ensures Demoted(ss, evs, q, m, k) ==> Negative(ss[k].st, q)
    ensures Negative(ss[k].st, q) && !Negative(ss[m].st, q) ==> Demoted(ss, evs, q, m, k)
  {
    hide Next, May, Inv, Accepts, Negative, Demoted;
    if k > m {
      NegativeRun(ss, evs, q, m, k - 1);
      assert Moves(ss, evs, k - 1);
      NegativeStep(ss[k - 1], evs[k - 1], q);
      DemotedNext(ss, evs, q, m, k);
      NegativeIsRecorded(ss[k].st, q);
    } else {
      NoneDemoted(ss, evs, q, m);
    }
  }

  lemma NegativeIsRecorded(st: State, q: int)
    ensures Negative(st, q) ==> q in st.recs
  {
  }

  lemma NoneDemoted(ss: seq<Fine>, evs: seq<Micro>, q: int, m: nat)
    requires |ss| == |evs| + 1 && m <= |evs|
    ensures !Demoted(ss, evs, q, m, m)
  {
  }

  lemma DemotedEarlier(ss: seq<Fine>, evs: seq<Micro>, q: int, m: nat, k: nat)
    requires |ss| == |evs| + 1 && m <= k <= |evs| && Demoted(ss, evs, q, m, k)
    ensures Demoted(ss, evs, q, 0, k)
  {
  }

  // ---------- whom the watchdog hits ----------

  /** An opening was made for a process that was not recorded below adj 0 then. */
  lemma OpenedNotNegative(s: Fine, ev: Micro, fd: int)
    requires RegInv(s) && TabInv(s) && May(s, ev)
    ensures var t := Next(s, ev);
            && (fd in t.tab && fd !in s.tab ==> !Negative(s.st, t.tab[fd].pid))
            && (fd in t.dups && t.dups[fd].serial == s.n ==> !Negative(s.st, t.dups[fd].pid))
  {
    OwnersStep(s, ev);
    hide NextReg, Shape, FdsOwned, Mid, WellFormed, NextJobs, NextNotices;
    var t := Next(s, ev);
    if fd in t.tab && fd !in s.tab {
      assert Opens(s, ev, fd);
    }
  }

  /** So it is on every run: at the moment of its opening the process was not below adj 0. */
  lemma {:induction false} OpeningsNotNegative(ss: seq<Fine>, evs: seq<Micro>, fd: int, k: nat)
    requires FineRun(ss, evs) && k <= |evs|
    ensures var n := ss[0].n;
            && (fd in ss[k].tab && ss[k].tab[fd].serial >= n ==>
                  ss[k].tab[fd].serial - n < k && !Negative(ss[ss[k].tab[fd].serial - n].st, ss[k].tab[fd].pid))
            && (fd in ss[k].dups && ss[k].dups[fd].serial >= n ==>
                  ss[k].dups[fd].serial - n < k && !Negative(ss[ss[k].dups[fd].serial - n].st, ss[k].dups[fd].pid))
  {
    hide Inv, RegInv, JobInv, May, Next, NextReg, Negative;
    RunInv(ss, evs, k);
    TabSerials(ss[k]);
    if k > 0 {
      OpeningsNotNegative(ss, evs, fd, k - 1);
      RunInv(ss, evs, k - 1);
      InvParts(ss[k - 1]);
      assert Moves(ss, evs, k - 1);
      TableFate(ss[k - 1], evs[k - 1], fd);
      OpenedNotNegative(ss[k - 1], evs[k - 1], fd);
    }
  }

  lemma TabSerials(s: Fine)
    requires Inv(s)
    ensures forall fd :: fd in s.tab ==> s.tab[fd].serial < s.n
    ensures forall fd :: fd in s.dups ==> s.dups[fd].serial < s.n
  {
  }

  /** A signal of the watchdog would now reach a process recorded below adj 0. */
  predicate HitsNegative(s: Fine)
    requires s.dog.Aiming?
  {
    Reached(s).Some? && Negative(s.st, Reached(s).value)
  }

  /**
   On every run from an aim, the watchdog's signal reaches a process recorded below adj 0 if and
   only if it reaches somebody for whom a registration below 0 was accepted since the aim and
   not superseded. So with no such registration it never does, whatever happens to descriptors.
   */
  lemma WatchdogHits(ss: seq<Fine>, evs: seq<Micro>, k: nat)
    requires AimedSince(ss, evs, k)
    ensures ss[k].dog == ss[0].dog
    ensures var q := Reached(ss[k]);
            HitsNegative(ss[k]) <==> q.Some? && Demoted(ss, evs, q.value, 0, k)
  {
    hide Inv, Demoted, HeldThrough, Next, May;
    WatchdogReaches(ss, evs, k);
    var (dog, reached) := (ss[0].dog, Reached(ss[k]));
    if reached.Some? {
      var q := reached.value;
      NegativeRun(ss, evs, q, 0, k);
      if q != dog.pid {
        OpeningsNotNegative(ss, evs, dog.rec.pidfd, k);
        var m := LaterOpening(ss[k], dog.rec.pidfd).value.serial - ss[0].n;
        NegativeRun(ss, evs, q, m, k);
        if Negative(ss[k].st, q) {
          DemotedEarlier(ss, evs, q, m, k);
        }
      }
    }
  }

  // ---------- the races happen ----------

  /** A registration of the target below 0 is accepted between aim and shot: the target is hit. */
  lemma DemotionRace(s: Fine, ev: Micro, ok: bool)
    requires Inv(s) && JustAimed(s) && s.dog.rec.pidfd in s.tab && May(s, ev) && AcceptsNegative(s.st, ev, s.dog.pid)
    ensures var t := Next(s, ev);
            t.dog == s.dog && May(t, Fire(ok)) && HitsNegative(t) && Reached(t) == Some(s.dog.pid)
  {
    hide Shape, Slotted, DropAll;
    NegativeStep(s, ev, s.dog.pid);
  }

  /** The watchdog has aimed at process 10, which then leaves; its descriptor 5 is closed. */
  lemma TargetGone() returns (s: Fine, t: Fine)
    ensures Reaches(AtStart(true), s) && JustAimed(s) && s.dog.pid == 10 && s.dog.rec == Rec(5, 0, 1000, 1, true) && 5 in s.tab
    ensures Reaches(s, t) && t.main.Free? && t.dog == s.dog && t.st.pidfdSupported && t.st.openFds == {6} && t.dups == map[]
    ensures t.st.recs == map[11 := Rec(6, 0, 1000, 1, true)] && t.st.lastKill == -1 && |t.st.slots| == ADJTOSLOT_COUNT
  {
    hide Reaches, AtStart, Inv, May, Next, JustAimed;
    var s0 := FineRuns.TwoArrive();
    ReachesInv(AtStart(true), s0);
    AimsAt(s0, 10, 1000);
    s := Next(s0, Aim(1000, 10));
    ReachesNext(AtStart(true), s0, Aim(1000, 10));
    ReachesInv(AtStart(true), s);
    ReachesSelf(s);
    Leaves(s, 10);
    t := Next(s, Drop(10));
    ReachesNext(s, s, Drop(10));
  }

  lemma AimsAt(s: Fine, p: int, adj: OomAdj)
    requires Inv(s) && s.main.Free? && s.dog.Idle? && s.st.pidfdSupported && |s.st.slots| == ADJTOSLOT_COUNT
    requires adj >= 0 && p in s.st.slots[AdjToSlot(adj)] && p in s.st.recs
    ensures May(s, Aim(adj, p))
    ensures var t := Next(s, Aim(adj, p));
            && JustAimed(t) && t.dog == DaemonModel.Aiming(p, s.st.recs[p]) && t.dog.rec.pidfd in t.tab
            && t == s.(dog := t.dog, tab := t.tab, n := s.n + 1)
  {
  }

  lemma Leaves(s: Fine, p: int)
    requires Inv(s) && s.main.Free? && p in s.st.recs && s.st.pidfdSupported
    ensures May(s, Drop(p))
    ensures var t := Next(s, Drop(p));
            && t == s.(st := t.st, tab := t.tab, n := s.n + 1) && |t.st.slots| == ADJTOSLOT_COUNT
            && t.st.recs == s.st.recs - {p} && t.st.openFds == s.st.openFds - {s.st.recs[p].pidfd}
            && t.st.lastKill == s.st.lastKill && t.st.pidfdSupported
  {
    hide Shape;
  }

  /** The number of the descriptor goes to process 12, registered below 0: that one is hit. */
  lemma ReuseRace() returns (s: Fine, t: Fine)
    ensures Reaches(AtStart(true), s) && JustAimed(s) && s.dog.pid == 10
    ensures Reaches(s, t) && t.dog == s.dog && May(t, Fire(true)) && Reached(t) == Some(12) && HitsNegative(t)
  {
    var gone;
    s, gone := TargetGone();
    hide Reaches, AtStart;
    FineRuns.ArrivesStep(gone, 12, 5, -1);
    ReachesNext(s, gone, FineRuns.Arrives(12, 5, -1));
    t := Next(gone, FineRuns.Arrives(12, 5, -1));
  }

  /** The number of the descriptor goes to the pool's duplicate for process 11: that one is hit. */
  lemma PoolRace() returns (s: Fine, t: Fine)
    ensures Reaches(AtStart(true), s) && JustAimed(s) && s.dog.pid == 10
    ensures Reaches(s, t) && t.dog == s.dog && May(t, Fire(true)) && Reached(t) == Some(11)
  {
    var gone;
    s, gone := TargetGone();
    t := FineRuns.HandsOver(s, gone, 11, 5);
    ReachesInv(s, t);
  }
}
