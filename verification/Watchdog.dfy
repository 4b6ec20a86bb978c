/**
 The watchdog thread's walk over the registry: victims are found one at a time by the pid of
 the previous one, from the least important slot down and from the tail of each ring up.
 */
module Watchdog {
  import opened Options
  import opened RegistryModel
  import opened Registry
  import opened Selection

  // ---------- the order of the walk ----------

  /** The valid records met with `n` records of slot `adj` still ahead, then the lower slots. */
  function Walk(st: State, adj: int, n: nat): (r: seq<int>)
    requires |st.slots| == ADJTOSLOT_COUNT && adj <= OOM_SCORE_ADJ_MAX
    requires adj >= 0 ==> n <= |st.slots[AdjToSlot(adj)]|
    decreases adj, n
  {
    if adj < 0 then []
    else if n == 0 then Walk(st, adj - 1, if adj == 0 then 0 else |st.slots[AdjToSlot(adj - 1)]|)
    else
      var x := st.slots[AdjToSlot(adj)][n - 1];
      (if x in st.recs && st.recs[x].valid then [x] else []) + Walk(st, adj, n - 1)
  }

  /** Everybody the watchdog may signal, in the order it would. */
  function Order(st: State): (r: seq<int>)
    requires |st.slots| == ADJTOSLOT_COUNT
  {
    Walk(st, OOM_SCORE_ADJ_MAX, |st.slots[AdjToSlot(OOM_SCORE_ADJ_MAX)]|)
  }

  /** The candidates up to and including the first whose signal is delivered. */
  function UpToFirst(killOk: int -> bool, xs: seq<int>): (r: seq<int>) {
    if xs == [] then []
    else if killOk(xs[0]) then [xs[0]]
    else [xs[0]] + UpToFirst(killOk, xs[1..])
  }

  /** The last of those tried, if its signal was delivered. */
  function Hit(killOk: int -> bool, tried: seq<int>): Option<int> {
    if tried != [] && killOk(tried[|tried| - 1]) then Some(tried[|tried| - 1]) else None
  }

  lemma {:induction false} UpToFirstIsPrefix(killOk: int -> bool, xs: seq<int>)
    ensures var r := UpToFirst(killOk, xs);
            && |r| <= |xs| && r == xs[..|r|]
            && (forall i :: 0 <= i < |r| - 1 ==> !killOk(r[i]))
            && (|r| < |xs| ==> r != [] && killOk(r[|r| - 1]))
  {
    if xs != [] && !killOk(xs[0]) {
      UpToFirstIsPrefix(killOk, xs[1..]);
    }
  }

  /** Before or at the same place in the walk: a higher adj, or the same ring and nearer its tail. */
  ghost predicate Ahead(st: State, p: int, q: int)
    requires p in st.recs && q in st.recs && |st.slots| == ADJTOSLOT_COUNT
  {
    || st.recs[p].oomadj > st.recs[q].oomadj
    || (st.recs[p].oomadj == st.recs[q].oomadj
        && exists i, j :: 0 <= j < i < |st.slots[AdjToSlot(st.recs[p].oomadj)]|
                          && st.slots[AdjToSlot(st.recs[p].oomadj)][i] == p
                          && st.slots[AdjToSlot(st.recs[p].oomadj)][j] == q)
  }

  /** A record the walk still has ahead of it. */
  ghost predicate Pending(st: State, adj: int, n: nat, p: int)
    requires |st.slots| == ADJTOSLOT_COUNT && adj <= OOM_SCORE_ADJ_MAX
    requires adj >= 0 ==> n <= |st.slots[AdjToSlot(adj)]|
  {
    && p in st.recs && 0 <= st.recs[p].oomadj <= adj
    && (st.recs[p].oomadj == adj ==> p in st.slots[AdjToSlot(adj)][..n])
  }

  lemma NothingBelow(st: State, adj: int, n: nat, p: int)
    requires |st.slots| == ADJTOSLOT_COUNT && adj < 0
    ensures !Pending(st, adj, n, p)
  {
  }

  lemma PendingNext(st: State, adj: int, n: nat, p: int)
    requires WellFormed(st) && 0 <= adj <= OOM_SCORE_ADJ_MAX && n <= |st.slots[AdjToSlot(adj)]|
    ensures n == 0 ==>
              (Pending(st, adj, n, p) <==> Pending(st, adj - 1, if adj == 0 then 0 else |st.slots[AdjToSlot(adj - 1)]|, p))
    ensures n > 0 ==>
              (Pending(st, adj, n, p) <==> Pending(st, adj, n - 1, p) || p == st.slots[AdjToSlot(adj)][n - 1])
    ensures n > 0 ==> st.slots[AdjToSlot(adj)][n - 1] in st.recs
  {
    var xs := st.slots[AdjToSlot(adj)];
    if n == 0 {
      if adj > 0 {
        var ys := st.slots[AdjToSlot(adj - 1)];
        assert ys[..|ys|] == ys;
      }
    } else {
      assert xs[..n] == xs[..n - 1] + [xs[n - 1]];
      ShapeAt(st.recs, st.slots, AdjToSlot(adj), n - 1);
    }
  }

  lemma WalkMember(st: State, adj: int, n: nat, p: int)
    requires |st.slots| == ADJTOSLOT_COUNT && adj <= OOM_SCORE_ADJ_MAX
    requires adj >= 0 ==> n <= |st.slots[AdjToSlot(adj)]|
    ensures p in Walk(st, adj, n) <==>
            && adj >= 0
            && (if n == 0 then p in Walk(st, adj - 1, if adj == 0 then 0 else |st.slots[AdjToSlot(adj - 1)]|)
                else (p == st.slots[AdjToSlot(adj)][n - 1] && p in st.recs && st.recs[p].valid) || p in Walk(st, adj, n - 1))
  {
  }

  /** The walk meets exactly the valid records ahead of it. */
  lemma {:induction false} WalkComplete(st: State, adj: int, n: nat, p: int)
    requires WellFormed(st) && adj <= OOM_SCORE_ADJ_MAX
    requires adj >= 0 ==> n <= |st.slots[AdjToSlot(adj)]|
    ensures p in Walk(st, adj, n) <==> Pending(st, adj, n, p) && st.recs[p].valid
    decreases adj, n
  {
    hide Pending, WellFormed, Walk;
    SlotCount(st);
    WalkMember(st, adj, n, p);
    if adj < 0 {
      NothingBelow(st, adj, n, p);
    } else {
      PendingNext(st, adj, n, p);
      if n == 0 {
        WalkComplete(st, adj - 1, if adj == 0 then 0 else |st.slots[AdjToSlot(adj - 1)]|, p);
      } else {
        WalkComplete(st, adj, n - 1, p);
      }
    }
  }

  lemma PendingBehind(st: State, adj: int, n: nat, q: int)
    requires WellFormed(st) && 0 <= adj <= OOM_SCORE_ADJ_MAX && 0 < n <= |st.slots[AdjToSlot(adj)]|
    requires Pending(st, adj, n - 1, q)
    ensures var x := st.slots[AdjToSlot(adj)][n - 1];
            x in st.recs && q in st.recs && x != q && Ahead(st, x, q)
  {
    var xs := st.slots[AdjToSlot(adj)];
    ShapeAt(st.recs, st.slots, AdjToSlot(adj), n - 1);
    if st.recs[q].oomadj == adj {
      var j :| 0 <= j < n - 1 && xs[j] == q;
      assert xs[n - 1] == xs[n - 1] && xs[j] == q;
    }
  }

  lemma {:induction false} WalkSorted(st: State, adj: int, n: nat, i: nat, j: nat)
    requires WellFormed(st) && adj <= OOM_SCORE_ADJ_MAX
    requires adj >= 0 ==> n <= |st.slots[AdjToSlot(adj)]|
    requires i < j < |Walk(st, adj, n)|
    ensures var r := Walk(st, adj, n);
            r[i] in st.recs && r[j] in st.recs && r[i] != r[j] && Ahead(st, r[i], r[j])
    decreases adj, n
  {
    hide Ahead, Shape, FdsOwned, Pending;
    if n == 0 {
      WalkSorted(st, adj - 1, if adj == 0 then 0 else |st.slots[AdjToSlot(adj - 1)]|, i, j);
    } else {
      var x := st.slots[AdjToSlot(adj)][n - 1];
      var rest := Walk(st, adj, n - 1);
      if x in st.recs && st.recs[x].valid {
        if i == 0 {
          var q := rest[j - 1];
          assert q in rest;
          WalkComplete(st, adj, n - 1, q);
          PendingBehind(st, adj, n, q);
        } else {
          WalkSorted(st, adj, n - 1, i - 1, j - 1);
        }
      } else {
        assert [] + rest == rest;
        WalkSorted(st, adj, n - 1, i, j);
      }
    }
  }

  /**
   The watchdog's order: exactly the valid records with oom_score_adj >= 0, each once, in
   descending adj and, within a slot, from the least recently slotted record up.
   */
  lemma OrderSpec(st: State)
    requires WellFormed(st)
    ensures forall p :: p in Order(st) <==> p in st.recs && st.recs[p].valid && st.recs[p].oomadj >= 0
    ensures forall i, j :: 0 <= i < j < |Order(st)| ==>
              && Order(st)[i] in st.recs && Order(st)[j] in st.recs
              && Order(st)[i] != Order(st)[j] && Ahead(st, Order(st)[i], Order(st)[j])
  {
    var top := st.slots[AdjToSlot(OOM_SCORE_ADJ_MAX)];
    assert top[..|top|] == top;
    forall p ensures p in Order(st) <==> p in st.recs && st.recs[p].valid && st.recs[p].oomadj >= 0 {
      WalkComplete(st, OOM_SCORE_ADJ_MAX, |top|, p);
      if p in st.recs && st.recs[p].oomadj == OOM_SCORE_ADJ_MAX {
        assert p in top;
      }
    }
    forall i, j | 0 <= i < j < |Order(st)|
      ensures && Order(st)[i] in st.recs && Order(st)[j] in st.recs
              && Order(st)[i] != Order(st)[j] && Ahead(st, Order(st)[i], Order(st)[j])
    {
      WalkSorted(st, OOM_SCORE_ADJ_MAX, |top|, i, j);
    }
  }

  // ---------- the walk on the rings ----------

  lemma RecordsAreNotHeads(reg: Registry, now: State, s: nat, k: nat)
    requires reg.Lookable(now) && s < ADJTOSLOT_COUNT && k <= |now.slots[s]|
    ensures RingAt(reg.heads[s], reg.objs, now.slots[s], k) == reg.heads[s] <==> k == 0
  {
    if k > 0 {
      var x := now.slots[s][k - 1];
      assert x in reg.objs && reg.objs[x].headOf == -1;
    }
  }

  /** What one look at a slot yields: a null dereference, nobody, or a copy of a record. */
  datatype Look = NullDeref | Nobody | Found(pid: int, rec: Rec)

  function PosOf(xs: seq<int>, x: int): (k: nat)
    requires x in xs
    ensures k < |xs| && xs[k] == x
  {
    if xs[0] == x then 0 else 1 + PosOf(xs[1..], x)
  }

  function FoundAt(st: State, x: int): Look {
    if x in st.recs then Found(x, st.recs[x]) else Nobody
  }

  /** find_victim on the registry of the moment; a ring emptied since `prevPid` was met has no tail to start from. */
  function LookAt(st: State, adj: OomAdj, prevPid: int): Look
    requires |st.slots| == ADJTOSLOT_COUNT
  {
    var xs := st.slots[AdjToSlot(adj)];
    if prevPid != 0 && xs == [] then NullDeref
    else if xs == [] then Nobody
    else if prevPid == 0 || prevPid !in xs then FoundAt(st, xs[|xs| - 1])
    else if PosOf(xs, prevPid) == 0 then Nobody
    else FoundAt(st, xs[PosOf(xs, prevPid) - 1])
  }

  /**
   proc_adj_prev: the next record towards the head, the head itself, or null for an unknown pid.
   `now` is what the rings hold at the moment, possibly in the middle of a re-slotting.
   */
  method ProcAdjPrev(reg: Registry, adj: OomAdj, pid: int, ghost now: State) returns (p: Proc?, nullDeref: bool)
    requires reg.Lookable(now)
    ensures var xs := now.slots[AdjToSlot(adj)];
            && (nullDeref <==> xs == [])
            && (pid !in xs ==> p == null)
            && (pid in xs ==> p == RingAt(reg.heads[AdjToSlot(adj)], reg.objs, xs, PosOf(xs, pid)))
  {
    var head := reg.heads[AdjToSlot(adj)];
    ghost var xs := now.slots[AdjToSlot(adj)];
    ghost var k := |xs|;
    var tail := ProcAdjTail(reg, adj, now);
    if tail == null {
      return null, true;
    }
    var curr := tail;
    RecordsAreNotHeads(reg, now, AdjToSlot(adj), k);
    while curr != head
      invariant 0 <= k <= |xs| && curr == RingAt(head, reg.objs, xs, k)
      invariant curr == head ==> k == 0
      invariant forall i :: k <= i < |xs| ==> xs[i] != pid
      decreases k
    {
      assert RingLink(head, reg.objs, xs, k - 1);
      if curr.pid == pid {
        SamePos(xs, k - 1);
        return curr.prev, false;
      }
      curr := curr.prev;
      k := k - 1;
      RecordsAreNotHeads(reg, now, AdjToSlot(adj), k);
    }
    return null, false;
  }

  lemma SamePos(xs: seq<int>, k: nat)
    requires NoDup(xs) && k < |xs|
    ensures PosOf(xs, xs[k]) == k
  {
    assert xs[PosOf(xs, xs[k])] == xs[k];
  }

  /** A record of the ring, as the caller copies it. */
  method CopyRecord(reg: Registry, adj: OomAdj, p: Proc, ghost now: State, ghost k: nat) returns (r: Look)
    requires reg.Lookable(now) && k < |now.slots[AdjToSlot(adj)]|
    requires now.slots[AdjToSlot(adj)][k] in reg.objs && p == reg.objs[now.slots[AdjToSlot(adj)][k]]
    ensures r == FoundAt(now, now.slots[AdjToSlot(adj)][k]) && r.Found?
  {
    ghost var x := now.slots[AdjToSlot(adj)][k];
    assert x in reg.objs && p.pid == x && p.Holds(now.recs[x]);
    r := Found(p.pid, Rec(p.pidfd, p.uid, p.oomadj, p.regPid, p.valid));
  }

  /** find_victim: the record to look at after `prevPid`, or nobody once the ring is gone through. */
  method FindVictim(reg: Registry, adj: OomAdj, prevPid: int, ghost now: State) returns (r: Look)
    requires reg.Lookable(now)
    ensures |now.slots| == ADJTOSLOT_COUNT && r == LookAt(now, adj, prevPid)
  {
    hide Loose;
    var s := AdjToSlot(adj);
    ghost var xs := now.slots[s];
    if prevPid != 0 {
      var p, nullDeref := ProcAdjPrev(reg, adj, prevPid, now);
      if nullDeref {
        return NullDeref;
      }
      if p != null {
        ghost var k := PosOf(xs, prevPid);
        RecordsAreNotHeads(reg, now, s, k);
        if p == reg.heads[s] {
          return Nobody;
        }
        r := CopyRecord(reg, adj, p, now, k - 1);
        return;
      }
    }
    var tail := ProcAdjTail(reg, adj, now);
    if tail == null {
      return Nobody;
    }
    r := CopyRecord(reg, adj, tail, now, |xs| - 1);
  }

  // ---------- looks at a registry that changes in between ----------

  /** One turn of watchdog_callback: the registry it finds, where it is, and whether a signal it sends is delivered. */
  datatype Glance = Glance(st: State, adj: int, prevPid: int, delivered: bool)

  ghost predicate Sound(g: Glance) {
    Loose(g.st.recs, g.st.slots) && 0 <= g.adj <= OOM_SCORE_ADJ_MAX
  }

  /** The next turn: down one slot when nobody is left, else on from the record just met; a delivered signal ends it. */
  ghost predicate Turns(g: Glance, h: Glance)
    requires Sound(g)
  {
    match LookAt(g.st, g.adj, g.prevPid)
    case NullDeref => false
    case Nobody => h.adj == g.adj - 1 && h.prevPid == 0
    case Found(pid, rec) => !(rec.valid && g.delivered) && h.adj == g.adj && h.prevPid == pid
  }

  /** A run of watchdog_callback while the main thread changes the registry as it likes. */
  ghost predicate Glances(gs: seq<Glance>) {
    && gs != [] && gs[0].adj == OOM_SCORE_ADJ_MAX && gs[0].prevPid == 0
    && (forall i :: 0 <= i < |gs| ==> Sound(gs[i]))
    && (forall i, j :: 0 <= i < |gs| && j == i + 1 && j < |gs| ==> Turns(gs[i], gs[j]))
  }

  /** A look that finds somebody finds a record of the registry as it is, in the slot looked at. */
  lemma LookFinds(g: Glance)
    requires Sound(g)
    ensures var r := LookAt(g.st, g.adj, g.prevPid);
            && (r.Found? ==> r.pid in g.st.recs && r.rec == g.st.recs[r.pid] && r.rec.oomadj == g.adj && r.pid != 0)
            && (r.NullDeref? <==> g.prevPid != 0 && g.st.slots[AdjToSlot(g.adj)] == [])
  {
    var s := AdjToSlot(g.adj);
    var xs := g.st.slots[s];
    if xs != [] {
      LooseAt(g.st.recs, g.st.slots, s, |xs| - 1);
      if g.prevPid in xs && PosOf(xs, g.prevPid) > 0 {
        LooseAt(g.st.recs, g.st.slots, s, PosOf(xs, g.prevPid) - 1);
      }
    }
  }

  /**
   Where a look goes on: at the tail of the ring if it starts there or the record met last is gone
   from it, else with the record before that one; nobody is left once that was the first of the ring.
   */
  lemma LookGoesOn(g: Glance)
    requires Sound(g)
    ensures var (r, xs) := (LookAt(g.st, g.adj, g.prevPid), g.st.slots[AdjToSlot(g.adj)]);
            && (r.Nobody? <==> if g.prevPid == 0 then xs == [] else xs != [] && xs[0] == g.prevPid)
            && (r.Found? && (g.prevPid == 0 || g.prevPid !in xs) ==> r.pid == xs[|xs| - 1])
            && (r.Found? && g.prevPid != 0 && g.prevPid in xs ==>
                  exists i :: 0 < i < |xs| && xs[i] == g.prevPid && xs[i - 1] == r.pid)
  {
    LookFinds(g);
    var s := AdjToSlot(g.adj);
    var xs := g.st.slots[s];
    if xs != [] {
      LooseAt(g.st.recs, g.st.slots, s, |xs| - 1);
      LooseAt(g.st.recs, g.st.slots, s, 0);
      if g.prevPid in xs && PosOf(xs, g.prevPid) > 0 {
        LooseAt(g.st.recs, g.st.slots, s, PosOf(xs, g.prevPid) - 1);
        assert xs[PosOf(xs, g.prevPid)] == g.prevPid;
      }
    }
  }

  /**
   Whatever happens to the registry between two looks, and wherever in a registration or removal
   they fall: the slots go down, whoever is met is a current record with the adj of the slot and
   so at or above 0, and a look dereferences null exactly when the look before it met somebody in
   a ring that is empty now.
   */
  lemma {:induction false} GlancesSpec(gs: seq<Glance>, i: nat)
    requires Glances(gs) && i < |gs|
    ensures LookAt(gs[i].st, gs[i].adj, gs[i].prevPid).Found? ==>
              LookAt(gs[i].st, gs[i].adj, gs[i].prevPid).rec.oomadj == gs[i].adj >= 0
    ensures i > 0 ==> gs[i].adj <= gs[i - 1].adj
    ensures gs[i].prevPid != 0 <==> i > 0 && LookAt(gs[i - 1].st, gs[i - 1].adj, gs[i - 1].prevPid).Found?
    ensures LookAt(gs[i].st, gs[i].adj, gs[i].prevPid).NullDeref? <==>
            && i > 0 && LookAt(gs[i - 1].st, gs[i - 1].adj, gs[i - 1].prevPid).Found? && gs[i].adj == gs[i - 1].adj
            && gs[i - 1].st.slots[AdjToSlot(gs[i].adj)] != [] && gs[i].st.slots[AdjToSlot(gs[i].adj)] == []
  {
    assert Sound(gs[i]);
    LookFinds(gs[i]);
    if i > 0 {
      assert Sound(gs[i - 1]) && Turns(gs[i - 1], gs[i]);
      LookFinds(gs[i - 1]);
    }
    hide LookAt;
  }

  /** Process 10 alone in the topmost ring. */
  function Alone(): State {
    Register(Init(true), Request(10, 0, 1000, PROC_TYPE_APP), 1, false, Answers(true, true, true, 5, true))
  }

  lemma AloneIs()
    ensures WellFormed(Alone()) && Alone().recs == map[10 := Rec(5, 0, 1000, 1, true)] && Alone().slots[AdjToSlot(1000)] == [10]
  {
    RegisterWellFormed(Init(true), Request(10, 0, 1000, PROC_TYPE_APP), 1, false, Answers(true, true, true, 5, true));
    assert [10] + Init(true).slots[AdjToSlot(1000)] == [10];
  }

  lemma TwoGlances(g: Glance, h: Glance)
    requires Sound(g) && Sound(h) && g.adj == OOM_SCORE_ADJ_MAX && g.prevPid == 0 && Turns(g, h)
    ensures Glances([g, h])
  {
    hide Turns, Sound;
  }

  /** The second look dereferences null after the removal of the only record met. */
  lemma EmptiedRing()
    ensures |Alone().slots| == ADJTOSLOT_COUNT
    ensures var h := Glance(Remove(Alone(), 10), OOM_SCORE_ADJ_MAX, 10, false);
            Glances([Glance(Alone(), OOM_SCORE_ADJ_MAX, 0, false), h]) && LookAt(h.st, 1000, 10) == NullDeref
  {
    AloneIs();
    RemoveOne(Alone(), 10);
    ShapeIsLoose(Alone().recs, Alone().slots);
    ShapeIsLoose(Remove(Alone(), 10).recs, Remove(Alone(), 10).slots);
    DropOnly(10);
    hide Alone, Shape, FdsOwned, Loose;
    TwoGlances(Glance(Alone(), OOM_SCORE_ADJ_MAX, 0, false), Glance(Remove(Alone(), 10), OOM_SCORE_ADJ_MAX, 10, false));
  }

  /**
   It does so too when it falls between proc_unslot and proc_slot of a registration, although the
   ring holds the record before and after it.
   */
  lemma LookInReslotting()
    ensures |Alone().slots| == ADJTOSLOT_COUNT && 10 in Alone().recs
    ensures var h := Glance(Unslotted(Alone(), 10, 1000), OOM_SCORE_ADJ_MAX, 10, false);
            Glances([Glance(Alone(), OOM_SCORE_ADJ_MAX, 0, false), h]) && LookAt(h.st, 1000, 10) == NullDeref
    ensures RegisterKnown(Alone(), 10, 1, 1000).slots[AdjToSlot(1000)] == Alone().slots[AdjToSlot(1000)] == [10]
  {
    AloneIs();
    ShapeIsLoose(Alone().recs, Alone().slots);
    UnslottedIsLoose(Alone(), 10, 1000);
    DropOnly(10);
    hide Alone, Shape, FdsOwned, Loose;
    TwoGlances(Glance(Alone(), OOM_SCORE_ADJ_MAX, 0, false), Glance(Unslotted(Alone(), 10, 1000), OOM_SCORE_ADJ_MAX, 10, false));
  }

  lemma DropOnly(x: int)
    ensures Drop([x], {x}) == []
  {
    assert [x][1..] == [];
  }

  lemma UpToFirstStep(killOk: int -> bool, tried: seq<int>, x: int, rest: seq<int>)
    ensures tried + UpToFirst(killOk, [x] + rest)
            == if killOk(x) then tried + [x] else (tried + [x]) + UpToFirst(killOk, rest)
  {
    assert ([x] + rest)[1..] == rest;
    assert tried + ([x] + UpToFirst(killOk, rest)) == (tried + [x]) + UpToFirst(killOk, rest);
  }

  /** The loop is about to look at the record with `n` records of the slot ahead, itself included. */
  ghost predicate At(st: State, adj: int, prevPid: int, n: nat)
    requires |st.slots| == ADJTOSLOT_COUNT && adj <= OOM_SCORE_ADJ_MAX
  {
    if adj < 0 then n == 0
    else
      var xs := st.slots[AdjToSlot(adj)];
      if prevPid == 0 then n == |xs| else n < |xs| && xs[n] == prevPid
  }

  /** In an unchanged registry the look finds the record just before the one met last. */
  lemma NextLook(st: State, adj: OomAdj, prevPid: int, n: nat)
    requires WellFormed(st) && adj >= 0 && At(st, adj, prevPid, n)
    ensures n == 0 ==> LookAt(st, adj, prevPid) == Nobody
    ensures n > 0 ==> var x := st.slots[AdjToSlot(adj)][n - 1];
                      x in st.recs && x > 0 && LookAt(st, adj, prevPid) == Found(x, st.recs[x]) && At(st, adj, x, n - 1)
  {
    var xs := st.slots[AdjToSlot(adj)];
    if n > 0 {
      ShapeAt(st.recs, st.slots, AdjToSlot(adj), n - 1);
    }
    if prevPid != 0 {
      assert prevPid in xs;
      SamePos(xs, n);
    }
  }

  method NextVictim(reg: Registry, adj: OomAdj, prevPid: int, ghost n: nat) returns (r: Option<(int, Rec)>)
    requires reg.Valid() && adj >= 0 && At(reg.st, adj, prevPid, n)
    ensures r.None? <==> n == 0
    ensures n > 0 ==> var x := reg.st.slots[AdjToSlot(adj)][n - 1];
                      && x in reg.st.recs && x > 0 && r == Some((x, reg.st.recs[x]))
                      && At(reg.st, adj, x, n - 1)
  {
    NextLook(reg.st, adj, prevPid, n);
    reg.LinkedLookable();
    hide LookAt, At, Shape, FdsOwned, Rings, Chains, ChainShape, Objects, Loose;
    var look := FindVictim(reg, adj, prevPid, reg.st);
    if n == 0 {
      assert look == Nobody;
    }
    r := match look case Found(pid, rec) => Some((pid, rec)) case _ => None;
  }

  /** The loop has tried `tried` in vain; what it will try in all is `whole`. */
  ghost predicate Hunting(st: State, killOk: int -> bool, adj: int, prevPid: int, n: nat, tried: seq<int>, whole: seq<int>) {
    && |st.slots| == ADJTOSLOT_COUNT && -1 <= adj <= OOM_SCORE_ADJ_MAX && At(st, adj, prevPid, n)
    && tried + UpToFirst(killOk, Walk(st, adj, n)) == whole
    && (tried != [] ==> !killOk(tried[|tried| - 1]))
  }

  lemma HuntStarts(st: State, killOk: int -> bool)
    requires |st.slots| == ADJTOSLOT_COUNT
    ensures Hunting(st, killOk, OOM_SCORE_ADJ_MAX, 0, |st.slots[AdjToSlot(OOM_SCORE_ADJ_MAX)]|, [], UpToFirst(killOk, Order(st)))
  {
    assert [] + UpToFirst(killOk, Order(st)) == UpToFirst(killOk, Order(st));
  }

  /** No record is left in the slot: on to the next one. */
  lemma HuntLower(st: State, killOk: int -> bool, adj: int, prevPid: int, tried: seq<int>, whole: seq<int>)
    requires Hunting(st, killOk, adj, prevPid, 0, tried, whole) && adj >= 0
    ensures Hunting(st, killOk, adj - 1, 0, if adj == 0 then 0 else |st.slots[AdjToSlot(adj - 1)]|, tried, whole)
  {
  }

  /** A record is looked at: an invalid one is passed over, a valid one is tried. */
  lemma HuntOn(st: State, killOk: int -> bool, adj: int, prevPid: int, n: nat, tried: seq<int>, whole: seq<int>)
    requires Hunting(st, killOk, adj, prevPid, n, tried, whole) && adj >= 0 && n > 0
    requires var x := st.slots[AdjToSlot(adj)][n - 1]; x in st.recs && At(st, adj, x, n - 1)
    ensures var x := st.slots[AdjToSlot(adj)][n - 1];
            && (!st.recs[x].valid ==> Hunting(st, killOk, adj, x, n - 1, tried, whole))
            && (st.recs[x].valid && !killOk(x) ==> Hunting(st, killOk, adj, x, n - 1, tried + [x], whole))
            && (st.recs[x].valid && killOk(x) ==> whole == tried + [x])
  {
    var x := st.slots[AdjToSlot(adj)][n - 1];
    var rest := Walk(st, adj, n - 1);
    if st.recs[x].valid {
      UpToFirstStep(killOk, tried, x, rest);
    } else {
      assert [] + rest == rest;
    }
  }

  lemma HuntEnds(st: State, killOk: int -> bool, prevPid: int, n: nat, tried: seq<int>, whole: seq<int>)
    requires Hunting(st, killOk, -1, prevPid, n, tried, whole)
    ensures whole == tried && Hit(killOk, tried) == None
  {
    assert tried + [] == tried;
  }

  /** The loop of watchdog_callback; `killOk` says for which pids the synchronous signal is delivered. */
  method SignalFirst(reg: Registry, killOk: int -> bool) returns (victim: Option<int>, ghost tried: seq<int>)
    requires reg.Valid()
    ensures |reg.st.slots| == ADJTOSLOT_COUNT && tried == UpToFirst(killOk, Order(reg.st))
    ensures victim == Hit(killOk, UpToFirst(killOk, Order(reg.st)))
  {
    SlotCount(reg.st);
    hide WellFormed, Hunting, UpToFirst, Order, Shape, Rings, Chains, ChainShape, Objects, Distinct;
    ghost var whole := UpToFirst(killOk, Order(reg.st));
    var adj, prevPid := OOM_SCORE_ADJ_MAX, 0;
    ghost var n: nat := |reg.st.slots[AdjToSlot(adj)]|;
    HuntStarts(reg.st, killOk);
    victim, tried := None, [];
    while adj >= 0
      invariant -1 <= adj <= OOM_SCORE_ADJ_MAX && victim.None? && Hunting(reg.st, killOk, adj, prevPid, n, tried, whole)
      decreases adj, n
    {
      victim, adj, prevPid, n, tried := SignalTurn(reg, killOk, adj, prevPid, n, tried, whole);
      if victim.Some? {
        return;
      }
    }
    HuntEnds(reg.st, killOk, prevPid, n, tried, whole);
  }

  /** One turn of the loop. */
  method SignalTurn(reg: Registry, killOk: int -> bool, adj0: int, prevPid0: int, ghost n0: nat, ghost tried0: seq<int>, ghost whole: seq<int>)
    returns (victim: Option<int>, adj: int, prevPid: int, ghost n: nat, ghost tried: seq<int>)
    requires reg.Valid() && adj0 >= 0 && Hunting(reg.st, killOk, adj0, prevPid0, n0, tried0, whole)
    ensures victim.Some? ==> tried == whole && tried != [] && tried[|tried| - 1] == victim.value && killOk(victim.value)
    ensures victim.None? ==> Hunting(reg.st, killOk, adj, prevPid, n, tried, whole) && -1 <= adj <= OOM_SCORE_ADJ_MAX
                             && (adj < adj0 || (adj == adj0 && n < n0))
  {
    hide Shape, FdsOwned, Rings, Chains, ChainShape, Objects, Distinct, UpToFirst, Walk;
    victim, adj, prevPid, n, tried := None, adj0, prevPid0, n0, tried0;
    var target := NextVictim(reg, adj, prevPid, n);
    if target.None? {
      HuntLower(reg.st, killOk, adj, prevPid, tried, whole);
      adj, prevPid := adj - 1, 0;
      n := if adj < 0 then 0 else |reg.st.slots[AdjToSlot(adj)]|;
      return;
    }
    HuntOn(reg.st, killOk, adj, prevPid, n, tried, whole);
    var (pid, rec) := target.value;
    n := n - 1;
    if rec.valid {
      tried := tried + [pid];
      if killOk(pid) {
        victim := Some(pid);
        return;
      }
    }
    prevPid := pid;
  }

  /** watchdog_callback, on a registry nobody else changes meanwhile. */
  method WatchdogCallback(reg: Registry, killOk: int -> bool) returns (victim: Option<int>, ghost tried: seq<int>)
    requires reg.Valid()
    modifies reg.Repr()
    ensures reg.Valid() && reg.objs == old(reg.objs) && |old(reg.st).slots| == ADJTOSLOT_COUNT
    ensures tried == UpToFirst(killOk, Order(old(reg.st)))
    ensures victim == Hit(killOk, tried)
    ensures reg.st == if victim.Some? then Invalidate(old(reg.st), victim.value) else old(reg.st)
  {
    hide WellFormed, Shape, Rings, Chains, ChainShape, Objects, Distinct, UpToFirst, Order, Invalidate, Hit;
    victim, tried := SignalFirst(reg, killOk);
    if victim.Some? {
      reg.PidInvalidate(victim.value);
    }
  }
}
