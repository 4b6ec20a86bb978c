/** The scans of whole handlers are runs of the small steps, with no other thread in between. */
module FineScan {
  import opened RegistryModel
  import opened SelectionModel
  import opened FineModel

  /** Main thread free, the other threads as they were. */
  predicate Between(s: Fine, t: Fine) {
    t.main.Free? && t.dog == s.dog && t.dups == s.dups && t.jobs == s.jobs && t.notices == s.notices
  }

  lemma DropFine(s0: Fine, s: Fine, p: int) returns (t: Fine)
    requires Reaches(s0, s) && s.main.Free?
    ensures Reaches(s0, t) && Between(s, t) && t.st == Remove(s.st, p)
  {
    ReachesInv(s0, s);
    hide Shape, FdsOwned, TabInv, JobInv, Reaches, Remove, NextTable;
    t := Next(s, Drop(p));
    ReachesNext(s0, s, Drop(p));
  }

  /** Removing the records of `gone` met along xs, one at a time. */
  lemma {:induction false} DropsFine(s0: Fine, s: Fine, xs: seq<int>, gone: set<int>) returns (t: Fine)
    requires Reaches(s0, s) && s.main.Free?
    ensures Reaches(s0, t) && Between(s, t) && t.st == RemoveAll(s.st, Members(xs) * gone)
    decreases xs
  {
    ReachesInv(s0, s);
    FreeWellFormed(s);
    hide Inv, Reaches, Next, May, Remove, RemoveAll, WellFormed;
    if xs == [] {
      t := s;
      RemoveAllNone(s.st, Members(xs) * gone);
    } else {
      var n := |xs| - 1;
      var mid := DropsFine(s0, s, xs[..n], gone);
      MembersSplit(xs, n);
      assert xs[..n + 1] == xs;
      if xs[n] in gone {
        t := DropFine(s0, mid, xs[n]);
        RemoveAllStep(s.st, Members(xs[..n]) * gone, xs[n]);
        assert Members(xs) * gone == Members(xs[..n]) * gone + {xs[n]};
      } else {
        t := mid;
        assert Members(xs) * gone == Members(xs[..n]) * gone;
      }
    }
  }

  lemma FreeWellFormed(s: Fine)
    requires Inv(s) && s.main.Free?
    ensures WellFormed(s.st)
  {
  }

  /** kill_one_process without anybody interfering is the attempt on values. */
  lemma KillOneFine(s0: Fine, s: Fine, p: int, pr: Probe) returns (t: Fine)
    requires Reaches(s0, s) && s.main.Free? && p in s.st.recs && s.st.recs[p].oomadj >= 0
    ensures Reaches(s0, t) && Between(s, t) && t.st == KillOne(s.st, p, pr).st
  {
    ReachesInv(s0, s);
    hide Shape, FdsOwned, TabInv, JobInv, Reaches, Remove, StartWait, StopWait, NextTable;
    var s1 := Next(s, Begin(p));
    var s2 := Next(s1, Read(pr.statusOk, pr.hook));
    ReachesNext(s0, s, Begin(p));
    ReachesNext(s0, s1, Read(pr.statusOk, pr.hook));
    if s2.main.Free? {
      t := s2;
    } else if s2.main.Doomed? {
      t := Next(s2, Discard);
      ReachesNext(s0, s2, Discard);
    } else {
      t := SignalFine(s0, s2, pr);
    }
  }

  lemma SignalFine(s0: Fine, s: Fine, pr: Probe) returns (t: Fine)
    requires Reaches(s0, s) && s.main.Permitted?
    ensures s.main.pid in s.st.recs
    ensures Reaches(s0, t) && Between(s, t)
    ensures var st1 := StartWait(s.st, AwaitedBy(s.st.recs[s.main.pid], s.main.pid), pr.epollOk);
            t.st == Remove(if pr.killOk then st1 else StopWait(st1), s.main.pid)
  {
    ReachesInv(s0, s);
    SlotsKept(s.st, AwaitedBy(s.st.recs[s.main.pid], s.main.pid), pr.epollOk);
    hide Shape, FdsOwned, TabInv, JobInv, Reaches, Remove, StartWait, StopWait, NextTable;
    var s1 := Next(s, Await(pr.epollOk));
    var s2 := Next(s1, SignalNow(pr.killOk));
    t := Next(s2, Discard);
    ReachesNext(s0, s, Await(pr.epollOk));
    ReachesNext(s0, s1, SignalNow(pr.killOk));
    ReachesNext(s0, s2, Discard);
  }

  lemma SlotsKept(st: State, x: int, epollOk: bool)
    ensures StartWait(st, x, epollOk).slots == StopWait(StartWait(st, x, epollOk)).slots == st.slots
  {
  }

  /** The attempts in one slot. */
  lemma {:induction false} DrainFine(s0: Fine, s: Fine, adj: OomAdj, heaviest: bool, killed: int, w: World, k: nat) returns (t: Fine)
    requires Reaches(s0, s) && s.main.Free? && adj >= 0
    ensures WellFormed(s.st) && Reaches(s0, t) && Between(s, t)
    ensures t.st == DrainSlot(s.st, adj, heaviest, killed, w, k).st
    decreases s.st.recs.Keys
  {
    ReachesInv(s0, s);
    FreeWellFormed(s);
    hide Inv, Reaches, Next, May, KillOne, RemoveAll, Shape, FdsOwned;
    SelectWellFormed(s.st, adj, heaviest, w, k);
    var p := Select(s.st, adj, heaviest, w, k);
    var mid := SelectFine(s0, s, adj, heaviest, w, k);
    if p.pid.None? {
      t := mid;
    } else {
      var pid := p.pid.value;
      var pr := w.probe(k, pid);
      KillOneKeeps(p.st, pid, pr);
      var o := KillOne(p.st, pid, pr);
      t := KillOneFine(s0, mid, pid, pr);
      if o.att.result < 0 {
        assert pid in s.st.recs.Keys && pid !in o.st.recs.Keys;
        t := DrainFine(s0, t, adj, heaviest, o.att.result, w, k + 1);
      }
    }
  }

  lemma SelectFine(s0: Fine, s: Fine, adj: OomAdj, heaviest: bool, w: World, k: nat) returns (t: Fine)
    requires Reaches(s0, s) && s.main.Free? && |s.st.slots| == ADJTOSLOT_COUNT
    ensures Reaches(s0, t) && Between(s, t) && t.st == Select(s.st, adj, heaviest, w, k).st
  {
    hide Reaches, RemoveAll, Heaviest;
    var xs := s.st.slots[AdjToSlot(adj)];
    if heaviest {
      t := DropsFine(s0, s, xs, Unreadable(w, k, xs));
      assert Members(xs) * Unreadable(w, k, xs) == Unreadable(w, k, xs);
    } else {
      t := s;
    }
  }

  lemma ScanUnfolds(st: State, i: int, min: int, choose: bool, w: World, k: nat)
    requires WellFormed(st) && 0 <= min && i <= OOM_SCORE_ADJ_MAX
    ensures i < min ==> ScanDown(st, i, min, choose, w, k).st == st
    ensures i >= min ==>
              var a := DrainSlot(st, i, choose || i <= PERCEPTIBLE_APP_ADJ, 0, w, k);
              && WellFormed(a.st)
              && ScanDown(st, i, min, choose, w, k).st
                 == if a.killed != 0 then a.st else ScanDown(a.st, i - 1, min, choose, w, a.t).st
  {
    hide DrainSlot, WellFormed;
  }

  /** Every scan of a handler is such a run, from the same registry to the same registry. */
  lemma {:induction false} ScanFine(s0: Fine, s: Fine, i: int, min: int, choose: bool, w: World, k: nat) returns (t: Fine)
    requires Reaches(s0, s) && s.main.Free? && 0 <= min && i <= OOM_SCORE_ADJ_MAX
    ensures WellFormed(s.st) && Reaches(s0, t) && Between(s, t)
    ensures t.st == ScanDown(s.st, i, min, choose, w, k).st
    decreases i - min + 1
  {
    hide Inv, Reaches, DrainSlot, ScanDown, WellFormed, Next, May, Between;
    ReachesInv(s0, s);
    FreeWellFormed(s);
    ScanUnfolds(s.st, i, min, choose, w, k);
    BetweenSelf(s);
    if i < min {
      t := s;
    } else {
      var heavy := choose || i <= PERCEPTIBLE_APP_ADJ;
      var a := DrainSlot(s.st, i, heavy, 0, w, k);
      t := DrainFine(s0, s, i, heavy, 0, w, k);
      if a.killed == 0 {
        var mid := t;
        BetweenFree(s, mid);
        t := ScanFine(s0, mid, i - 1, min, choose, w, a.t);
        BetweenThen(s, mid, t);
      }
    }
  }

  lemma BetweenSelf(s: Fine)
    requires s.main.Free?
    ensures Between(s, s)
  {
  }

  lemma BetweenFree(s: Fine, t: Fine)
    requires Between(s, t)
    ensures t.main.Free?
  {
  }

  lemma BetweenThen(s: Fine, t: Fine, u: Fine)
    requires Between(s, t) && Between(t, u)
    ensures Between(s, u)
  {
  }

  // ---------- a mark inside a scan ----------

  /**
   To the registry a mark before the test is the same as an unreadable process, and a mark
   elsewhere can as well come after the attempt: what is proved of runs of whole handlers, for
   any answers of the system, covers marks inside them.
   */
  lemma MarkInScan(st: State, p: int, q: int, pr: Probe)
    requires WellFormed(st) && p in st.recs
    ensures p in Invalidate(st, q).recs
    ensures q == p ==>
              && KillOne(Invalidate(st, q), p, pr).st == KillOne(st, p, pr.(statusOk := false)).st
              && KillOne(Invalidate(st, q), p, pr).att.result == KillOne(st, p, pr.(statusOk := false)).att.result
    ensures q != p ==> KillOne(Invalidate(st, q), p, pr) == KillOne(st, p, pr).(st := Invalidate(KillOne(st, p, pr).st, q))
  {
    hide Remove, StartWait, StopWait, WellFormed;
    var fd := AwaitedBy(st.recs[p], p);
    var wait := StartWait(st, fd, pr.epollOk);
    WaitKeepsRecs(st, fd, pr.epollOk);
    WaitKeepsRecs(wait, 0, true);
    MarkThenWait(st, q, fd, pr.epollOk);
    MarkThenWait(wait, q, 0, true);
    MarkThenRemove(st, p, q);
    MarkThenRemove(wait, p, q);
    MarkThenRemove(StopWait(wait), p, q);
  }

  lemma MarkThenWait(st: State, q: int, x: int, epollOk: bool)
    ensures StartWait(Invalidate(st, q), x, epollOk) == Invalidate(StartWait(st, x, epollOk), q)
    ensures StopWait(Invalidate(st, q)) == Invalidate(StopWait(st), q)
  {
    MarkThenStop(st, q);
    hide StopWait;
    WaitKeepsRecs(st, x, epollOk);
  }

  lemma MarkThenStop(st: State, q: int)
    ensures StopWait(Invalidate(st, q)) == Invalidate(StopWait(st), q)
  {
  }

  lemma MarkThenRemove(st: State, p: int, q: int)
    ensures Remove(Invalidate(st, q), p) == if q == p then Remove(st, p) else Invalidate(Remove(st, p), q)
  {
    if q in st.recs && q != p {
      assert st.recs[q := st.recs[q].(valid := false)] - {p} == (st.recs - {p})[q := st.recs[q].(valid := false)];
    } else if q in st.recs {
      assert st.recs[p := st.recs[p].(valid := false)] - {p} == st.recs - {p};
    }
  }

  lemma MarkInSelect(st: State, q: int, adj: OomAdj, heaviest: bool, w: World, k: nat)
    requires WellFormed(st)
    ensures |Invalidate(st, q).slots| == ADJTOSLOT_COUNT
    ensures var (a, b) := (Select(Invalidate(st, q), adj, heaviest, w, k), Select(st, adj, heaviest, w, k));
            a.pid == b.pid && a.st == Invalidate(b.st, q)
  {
    hide Heaviest, Shape, FdsOwned;
    var gone := Unreadable(w, k, st.slots[AdjToSlot(adj)]);
    var m := Invalidate(st, q);
    assert ClosedFds(m, gone) == ClosedFds(st, gone) by {
      assert forall p :: p in m.recs ==> m.recs[p].pidfd == st.recs[p].pidfd;
      SameClosed(m, st, gone);
    }
    if q in st.recs && q !in gone {
      assert st.recs[q := st.recs[q].(valid := false)] - gone == (st.recs - gone)[q := st.recs[q].(valid := false)];
    } else if q in gone {
      assert m.recs - gone == st.recs - gone;
    }
  }

  lemma SameClosed(a: State, b: State, gone: set<int>)
    requires a.recs.Keys == b.recs.Keys && a.lastKill == b.lastKill && (forall p :: p in a.recs ==> a.recs[p].pidfd == b.recs[p].pidfd)
    ensures ClosedFds(a, gone) == ClosedFds(b, gone)
  {
    forall fd ensures fd in ClosedFds(a, gone) <==> fd in ClosedFds(b, gone) {
      if fd in ClosedFds(a, gone) {
        var p :| p in gone && p in a.recs && a.recs[p].pidfd >= 0 && a.recs[p].pidfd != a.lastKill && a.recs[p].pidfd == fd;
        assert p in b.recs && b.recs[p].pidfd == fd;
      }
      if fd in ClosedFds(b, gone) {
        var p :| p in gone && p in b.recs && b.recs[p].pidfd >= 0 && b.recs[p].pidfd != b.lastKill && b.recs[p].pidfd == fd;
        assert p in a.recs && a.recs[p].pidfd == fd;
      }
    }
  }
}
