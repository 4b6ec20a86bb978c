/**
 Victim selection and killing on the linked registry: the walks over the rings that remove
 records as they go, each proved to be a step of the value model.
 */
module Selection {
  import opened Options
  import opened RegistryModel
  import opened SelectionModel
  import opened ScanSteps
  import opened Registry

  /** proc_adj_tail */
  method ProcAdjTail(reg: Registry, adj: OomAdj, ghost now: State) returns (p: Proc?)
    requires reg.Lookable(now)
    ensures var xs := now.slots[AdjToSlot(adj)];
            p == if xs == [] then null else reg.objs[xs[|xs| - 1]]
  {
    var head := reg.heads[AdjToSlot(adj)];
    ghost var xs := now.slots[AdjToSlot(adj)];
    assert RingLink(head, reg.objs, xs, |xs|);
    if xs != [] {
      ghost var last := xs[|xs| - 1];
      assert last in reg.objs && reg.objs[last].headOf == -1 && head.headOf != -1;
    }
    var asl := head.prev;
    p := if asl == head then null else asl;
  }

  // ---------- proc_get_heaviest ----------

  /** The walk along the ring of slot `s`, that held `xs`, after j records; those in `gone` go. */
  ghost predicate Sweeping(reg: Registry, s: nat, gone: set<int>, xs: seq<int>, j: nat, st0: State, curr: Proc)
    reads reg
  {
    && s < ADJTOSLOT_COUNT && j <= |xs| && WellFormed(st0) && xs == st0.slots[s]
    && reg.st == RemoveAll(st0, Members(xs[..j]) * gone)
    && |reg.heads| == ADJTOSLOT_COUNT
    && var kept := Drop(xs[..j], gone);
       var ys := kept + xs[j..];
       && reg.st.slots[s] == ys && Within(ys, reg.objs)
       && curr == RingAt(reg.heads[s], reg.objs, ys, |kept| + 1)
  }

  lemma SweepingState(st0: State, s: nat, gone: set<int>, j: nat)
    requires WellFormed(st0) && s < ADJTOSLOT_COUNT && j < |st0.slots[s]|
    ensures var xs := st0.slots[s];
            var kept := Drop(xs[..j], gone);
            var ys := kept + xs[j..];
            var mid := RemoveAll(st0, Members(xs[..j]) * gone);
            var end := RemoveAll(st0, Members(xs[..j + 1]) * gone);
            && NoDup(ys) && |kept| < |ys| && ys[|kept|] == xs[j]
            && end == (if xs[j] in gone then Remove(mid, xs[j]) else mid)
            && WellFormed(end)
            && end.slots[s] == Drop(xs[..j + 1], gone) + xs[j + 1..]
            && Drop(xs[..j + 1], gone) == (if xs[j] in gone then kept else kept + [xs[j]])
  {
    var xs := st0.slots[s];
    forall i | 0 <= i < |xs| ensures xs[i] in st0.recs {
      ShapeAt(st0.recs, st0.slots, s, i);
    }
    SweepAlong(st0, gone, xs, j);
    SweepSeq(xs, gone, j);
    SweepSeq(xs, gone, j + 1);
    CutAfter(Drop(xs[..j], gone), xs, j);
    RemoveAllWellFormed(st0, Members(xs[..j + 1]) * gone);
  }

  lemma SweepingStarts(reg: Registry, s: nat, gone: set<int>)
    requires reg.Valid() && s < ADJTOSLOT_COUNT
    ensures Sweeping(reg, s, gone, reg.st.slots[s], 0, reg.st, reg.heads[s].next)
  {
    var xs := reg.st.slots[s];
    SweepStart(reg.st, gone, xs);
    assert RingLink(reg.heads[s], reg.objs, xs, 0);
  }

  /** One turn of the walk: `next` is read before the record may be removed. */
  method SweepTurn(reg: Registry, curr: Proc, drop: bool,
                   ghost s: nat, ghost gone: set<int>, ghost xs: seq<int>, ghost j: nat, ghost st0: State)
    returns (next: Proc)
    requires reg.Valid() && j < |xs| && Sweeping(reg, s, gone, xs, j, st0, curr) && drop == (xs[j] in gone)
    modifies reg.Repr()
    ensures reg.Valid() && Sweeping(reg, s, gone, xs, j + 1, st0, next)
    ensures reg.objs == (if drop then old(reg.objs) - {xs[j]} else old(reg.objs))
    ensures reg.objs.Values <= old(reg.objs).Values
  {
    hide RemoveAll, Remove, Drop, Shape, FdsOwned;
    ghost var kept := Drop(xs[..j], gone);
    ghost var ys := kept + xs[j..];
    SweepingState(st0, s, gone, j);
    assert RingLink(reg.heads[s], reg.objs, ys, |kept| + 1);
    next := curr.next;
    if drop {
      var _ := reg.PidRemove(curr.pid);
    } else {
      assert ys == (kept + [xs[j]]) + xs[j + 1..];
    }
  }

  lemma BestStarts(w: World, t: nat, xs: seq<int>)
    ensures Best(w, t, false, xs[..0]) == Best(w, t, true, xs[..0]) == None
    ensures xs[..|xs|] == xs && Members(xs) * Unreadable(w, t, xs) == Unreadable(w, t, xs)
    ensures forall i :: 0 <= i < |xs| ==> (xs[i] in Unreadable(w, t, xs) <==> w.size(t, xs[i]) < 0)
    ensures Heaviest(w, t, xs).Some? ==> w.size(t, Heaviest(w, t, xs).value) > 0
  {
    HeaviestIsHeaviest(w, t, xs);
  }

  lemma BestNext(w: World, t: nat, pa: bool, xs: seq<int>, j: nat)
    requires j < |xs| && NoDup(xs)
    ensures var best := Best(w, t, pa, xs[..j]);
            && Best(w, t, pa, xs[..j + 1])
               == (if Weight(w, t, pa, xs[j]) > (if best.Some? then Weight(w, t, pa, best.value) else 0)
                   then Some(xs[j]) else best)
            && (best.Some? ==> best.value != xs[j] && Weight(w, t, pa, best.value) > 0)
  {
    assert xs[..j + 1][..j] == xs[..j];
    BestIsLargest(w, t, pa, xs[..j]);
  }

  /** `p` and `size` are the running maximum `best` of the walk. */
  ghost predicate Leads(objs: map<int, Proc>, best: Option<int>, w: World, t: nat, pa: bool, p: Proc?, size: int) {
    match best
    case None => p == null && size == 0
    case Some(x) => x in objs && p == objs[x] && size == Weight(w, t, pa, x)
  }

  /** The running maxima of the walk: ordinary applications and, apart, the preferred ones. */
  datatype Maxima = Maxima(p: Proc?, size: int, pPa: Proc?, sizePa: int)

  ghost predicate Leading(objs: map<int, Proc>, w: World, t: nat, xs: seq<int>, m: Maxima) {
    && Leads(objs, Best(w, t, false, xs), w, t, false, m.p, m.size)
    && Leads(objs, Best(w, t, true, xs), w, t, true, m.pPa, m.sizePa)
  }

  function Consider(m: Maxima, curr: Proc, tasksize: int, preferred: bool): Maxima {
    if tasksize < 0 then m
    else if preferred then
      if tasksize > m.sizePa then m.(pPa := curr, sizePa := tasksize) else m
    else
      if tasksize > m.size then m.(p := curr, size := tasksize) else m
  }

  lemma LeadingNext(objs: map<int, Proc>, w: World, t: nat, xs: seq<int>, j: nat, m: Maxima)
    requires j < |xs| && NoDup(xs) && xs[j] in objs && Leading(objs, w, t, xs[..j], m)
    ensures var size := w.size(t, xs[j]);
            Leading(if size < 0 then objs - {xs[j]} else objs, w, t, xs[..j + 1],
                    Consider(m, objs[xs[j]], size, w.preferred(t, xs[j])))
  {
    BestNext(w, t, false, xs, j);
    BestNext(w, t, true, xs, j);
  }

  lemma AtHead(reg: Registry, s: nat, gone: set<int>, xs: seq<int>, j: nat, st0: State, curr: Proc)
    requires reg.Valid() && Sweeping(reg, s, gone, xs, j, st0, curr)
    ensures curr == reg.heads[s] <==> j == |xs|
    ensures j < |xs| ==> xs[j] in reg.objs && curr == reg.objs[xs[j]] && curr.pid == xs[j]
  {
    var kept := Drop(xs[..j], gone);
    var ys := kept + xs[j..];
    assert j < |xs| ==> ys[|kept|] == xs[j];
  }

  /** The loop of proc_get_heaviest. */
  method WeighRing(reg: Registry, head: Proc, first: Proc, w: World, t: nat,
                   ghost s: nat, ghost gone: set<int>, ghost xs: seq<int>, ghost st0: State)
    returns (m: Maxima, ghost last: Proc)
    requires reg.Valid() && NoDup(xs) && (forall i :: 0 <= i < |xs| ==> (xs[i] in gone <==> w.size(t, xs[i]) < 0))
    requires Sweeping(reg, s, gone, xs, 0, st0, first) && head == reg.heads[s]
    modifies reg.Repr()
    ensures reg.Valid() && reg.objs.Values <= old(reg.objs).Values
    ensures Sweeping(reg, s, gone, xs, |xs|, st0, last) && Leading(reg.objs, w, t, xs[..|xs|], m)
  {
    m := Maxima(null, 0, null, 0);
    assert Leading(reg.objs, w, t, xs[..0], m) by {
      BestStarts(w, t, xs);
    }
    hide *;
    var curr := first;
    ghost var j := 0;
    AtHead(reg, s, gone, xs, j, st0, curr);
    while curr != head
      invariant reg.Valid() && reg.objs.Values <= old(reg.objs).Values
      invariant 0 <= j <= |xs| && Sweeping(reg, s, gone, xs, j, st0, curr)
      invariant curr == head <==> j == |xs|
      invariant j < |xs| ==> xs[j] in reg.objs && curr == reg.objs[xs[j]] && curr.pid == xs[j]
      invariant Leading(reg.objs, w, t, xs[..j], m)
      decreases |xs| - j
    {
      var pid := curr.pid;
      var tasksize := w.size(t, pid);
      LeadingNext(reg.objs, w, t, xs, j, m);
      m := Consider(m, curr, tasksize, w.preferred(t, pid));
      curr := SweepTurn(reg, curr, tasksize < 0, s, gone, xs, j, st0);
      j := j + 1;
      AtHead(reg, s, gone, xs, j, st0, curr);
    }
    last := curr;
  }

  /** proc_get_heaviest */
  method ProcGetHeaviest(reg: Registry, adj: OomAdj, w: World, t: nat) returns (p: Proc?)
    requires reg.Valid()
    modifies reg.Repr()
    ensures reg.Valid() && reg.objs.Values <= old(reg.objs).Values
    ensures var r := Select(old(reg.st), adj, true, w, t);
            && reg.st == r.st
            && (r.pid.Some? ==> r.pid.value in reg.objs)
            && p == (if r.pid.None? then null else reg.objs[r.pid.value])
  {
    var s := AdjToSlot(adj);
    ghost var st0, xs := reg.st, reg.st.slots[s];
    ghost var gone := Unreadable(w, t, xs);
    SlotReady(reg, adj, w, t);
    hide *;
    var head := reg.heads[s];
    var m, last := WeighRing(reg, head, head.next, w, t, s, gone, xs, st0);
    HeavierIs(reg, m, s, gone, xs, st0, last, w, t);
    p := if m.size > 0 then m.p else m.pPa;
  }

  /** The walk over a slot can start, and what it finds is what the selection is defined by. */
  lemma SlotReady(reg: Registry, adj: OomAdj, w: World, t: nat)
    requires reg.Valid()
    ensures var s := AdjToSlot(adj);
            && |reg.st.slots| == ADJTOSLOT_COUNT && |reg.heads| == ADJTOSLOT_COUNT
            && var xs := reg.st.slots[s];
               var gone := Unreadable(w, t, xs);
               && NoDup(xs) && (forall i :: 0 <= i < |xs| ==> (xs[i] in gone <==> w.size(t, xs[i]) < 0))
               && xs[..|xs|] == xs
               && Sweeping(reg, s, gone, xs, 0, reg.st, reg.heads[s].next)
               && Select(reg.st, adj, true, w, t) == Pick(RemoveAll(reg.st, gone), Heaviest(w, t, xs))
  {
    hide RemoveAll, FdsOwned, Rings, Chains, ChainShape, Objects, Best, Sweeping, Heaviest;
    var s := AdjToSlot(adj);
    SweepingStarts(reg, s, Unreadable(w, t, reg.st.slots[s]));
    BestStarts(w, t, reg.st.slots[s]);
  }

  lemma HeavierIs(reg: Registry, m: Maxima, s: nat, gone: set<int>, xs: seq<int>, st0: State, curr: Proc, w: World, t: nat)
    requires reg.Valid() && gone == Unreadable(w, t, xs)
    requires Sweeping(reg, s, gone, xs, |xs|, st0, curr) && Leading(reg.objs, w, t, xs, m)
    ensures reg.st == RemoveAll(st0, gone)
    ensures var h := Heaviest(w, t, xs);
            && (h.Some? ==> h.value in reg.objs)
            && (if m.size > 0 then m.p else m.pPa) == (if h.None? then null else reg.objs[h.value])
  {
    BestStarts(w, t, xs);
    BestIsLargest(w, t, false, xs);
  }

  // ---------- kill_one_process ----------

  /** The wait started before the signal, and given up when the signal is refused. */
  method WaitAndSignal(reg: Registry, pid: int, pidfd: int, pr: Probe)
    requires reg.Linked() && pid in reg.st.recs && pidfd == reg.st.recs[pid].pidfd
    modifies reg`st, reg`objs, reg`chains, reg`lastKillPidOrFd, reg.kernel
    ensures reg.Linked() && reg.objs == old(reg.objs)
    ensures var st1 := StartWait(old(reg.st), if pidfd < 0 then pid else pidfd, pr.epollOk);
            reg.st == if pr.killOk then st1 else StopWait(st1)
  {
    reg.StartWaitForProcKill(if pidfd < 0 then pid else pidfd, pr.epollOk);
    if !pr.killOk {
      reg.StopWaitForProcKill();
    }
  }

  /** kill_one_process; `pr` holds the answers of the system. */
  method KillOneProcess(reg: Registry, p: Proc, pr: Probe) returns (result: int, killed: bool)
    requires reg.Valid() && p.pid in reg.objs && reg.objs[p.pid] == p
    modifies reg.Repr()
    ensures p.pid in old(reg.st.recs)
    ensures var o := KillOne(old(reg.st), p.pid, pr);
            reg.st == o.st && result == o.att.result && killed == (o.att.kind == Killed)
    ensures var rec := old(reg.st.recs[p.pid]);
            result == Answer(rec, pr) && killed == (!Unfit(rec, pr) && pr.hook <= 0 && pr.killOk)
    ensures reg.Valid() && reg.objs.Values <= old(reg.objs).Values
  {
    hide RemoveAll, Remove, Shape, FdsOwned, StartWait, StopWait, Rings, Chains, ChainShape;
    var pid, pidfd := p.pid, p.pidfd;
    assert p.Holds(reg.st.recs[pid]);
    KillOneKeeps(reg.st, pid, pr);
    result, killed := -1, false;
    if p.valid && pr.statusOk {
      result := pr.hook;
      if result > 0 {
        return;
      }
      WaitAndSignal(reg, pid, pidfd, pr);
      if pr.killOk {
        result, killed := pr.rssPages, true;
      }
    }
    var _ := reg.PidRemove(pid);
  }

  // ---------- find_and_kill_process ----------

  /** proc_get_heaviest or proc_adj_tail, as the scan currently prefers. */
  method SelectProc(reg: Registry, adj: OomAdj, heaviest: bool, w: World, t: nat) returns (p: Proc?)
    requires reg.Valid()
    modifies reg.Repr()
    ensures reg.Valid() && reg.objs.Values <= old(reg.objs).Values
    ensures var r := Select(old(reg.st), adj, heaviest, w, t);
            && reg.st == r.st
            && (r.pid.Some? ==> r.pid.value in reg.objs && reg.objs[r.pid.value].pid == r.pid.value)
            && p == (if r.pid.None? then null else reg.objs[r.pid.value])
  {
    if heaviest {
      p := ProcGetHeaviest(reg, adj, w, t);
    } else {
      reg.LinkedLookable();
      p := ProcAdjTail(reg, adj, reg.st);
    }
  }

  ghost function After(atts: seq<Attempt>, rest: Scan): Scan {
    rest.(attempts := atts + rest.attempts)
  }

  lemma DrainStep(st: State, adj: OomAdj, heaviest: bool, killed: int, w: World, t: nat, atts: seq<Attempt>)
    requires WellFormed(st) && Select(st, adj, heaviest, w, t).pid.Some?
    ensures var p := Select(st, adj, heaviest, w, t);
            && WellFormed(p.st) && p.pid.value in p.st.recs
            && var o := KillOne(p.st, p.pid.value, w.probe(t, p.pid.value));
               && WellFormed(o.st)
               && After(atts, DrainSlot(st, adj, heaviest, killed, w, t))
                  == (if o.att.result >= 0 then Scan(o.st, atts + [o.att], o.att.result, t + 1)
                      else After(atts + [o.att], DrainSlot(o.st, adj, heaviest, o.att.result, w, t + 1)))
               && (o.att.result < 0 ==> o.st.recs.Keys < st.recs.Keys)
  {
    hide KillOne, Select, Shape, FdsOwned;
    SelectWellFormed(st, adj, heaviest, w, t);
    var p := Select(st, adj, heaviest, w, t);
    KillOneKeeps(p.st, p.pid.value, w.probe(t, p.pid.value));
    var o := KillOne(p.st, p.pid.value, w.probe(t, p.pid.value));
    if o.att.result < 0 {
      var rest := DrainSlot(o.st, adj, heaviest, o.att.result, w, t + 1);
      assert atts + ([o.att] + rest.attempts) == (atts + [o.att]) + rest.attempts;
      assert p.pid.value in st.recs.Keys && p.pid.value !in o.st.recs.Keys;
    }
  }

  /** The inner loop of find_and_kill_process. */
  method KillInSlot(reg: Registry, adj: OomAdj, heaviest: bool, killedSize: int, w: World, t: nat)
    returns (killed: int, any: bool, t': nat, ghost atts: seq<Attempt>)
    requires reg.Valid()
    modifies reg.Repr()
    ensures reg.Valid() && reg.objs.Values <= old(reg.objs).Values
    ensures DrainSlot(old(reg.st), adj, heaviest, killedSize, w, t) == Scan(reg.st, atts, killed, t')
    ensures any == AnyKilled(atts)
  {
    hide KillOne, Select, Shape, FdsOwned, Rings, Chains, ChainShape, DrainSlot;
    ghost var whole := DrainSlot(reg.st, adj, heaviest, killedSize, w, t);
    killed, any, t', atts := killedSize, false, t, [];
    assert After([], whole) == whole;
    while true
      invariant reg.Valid() && reg.objs.Values <= old(reg.objs).Values
      invariant After(atts, DrainSlot(reg.st, adj, heaviest, killed, w, t')) == whole
      invariant any == AnyKilled(atts)
      decreases reg.st.recs.Keys
    {
      ghost var st1 := reg.st;
      var p := SelectProc(reg, adj, heaviest, w, t');
      if p == null {
        t' := t' + 1;
        assert DrainSlot(st1, adj, heaviest, killed, w, t' - 1) == Scan(reg.st, [], killed, t') by {
          DrainNone(st1, adj, heaviest, killed, w, t' - 1);
        }
        assert atts + [] == atts;
        return;
      }
      DrainStep(st1, adj, heaviest, killed, w, t', atts);
      ghost var o := KillOne(reg.st, p.pid, w.probe(t', p.pid));
      var one;
      killed, one := KillOneProcess(reg, p, w.probe(t', p.pid));
      any := any || one;
      AnyKilledAppend(atts, [o.att]);
      assert [o.att][0] == o.att;
      t' := t' + 1;
      atts := atts + [o.att];
      if killed >= 0 {
        return;
      }
    }
  }

  lemma DrainNone(st: State, adj: OomAdj, heaviest: bool, killed: int, w: World, t: nat)
    requires WellFormed(st) && Select(st, adj, heaviest, w, t).pid.None?
    ensures DrainSlot(st, adj, heaviest, killed, w, t) == Scan(Select(st, adj, heaviest, w, t).st, [], killed, t + 1)
  {
  }

  /** find_and_kill_process */
  method FindAndKillProcess(reg: Registry, min: int, killHeaviest: bool, w: World, t: nat, debuggable: bool, script: int)
    returns (killedSize: int, any: bool, t': nat, ghost atts: seq<Attempt>)
    requires reg.Valid() && OOM_SCORE_ADJ_MIN <= min
    modifies reg.Repr()
    ensures reg.Valid() && reg.objs.Values <= old(reg.objs).Values
    ensures FindAndKill(old(reg.st), min, killHeaviest, w, t, debuggable, script) == Scan(reg.st, atts, killedSize, t')
    ensures any == AnyKilled(atts)
  {
    hide KillOne, Select, Shape, FdsOwned, Rings, Chains, ChainShape, DrainSlot;
    ghost var whole := ScanDown(reg.st, OOM_SCORE_ADJ_MAX, min, killHeaviest, w, t);
    killedSize, any, t', atts := 0, false, t, [];
    var chooseHeaviest := killHeaviest;
    var i := OOM_SCORE_ADJ_MAX;
    assert After([], whole) == whole;
    while i >= min && killedSize == 0
      invariant reg.Valid() && reg.objs.Values <= old(reg.objs).Values
      invariant min - 1 <= i <= OOM_SCORE_ADJ_MAX || i == OOM_SCORE_ADJ_MAX
      invariant chooseHeaviest == (killHeaviest || (i < PERCEPTIBLE_APP_ADJ && i < OOM_SCORE_ADJ_MAX))
      invariant if killedSize == 0 then After(atts, ScanDown(reg.st, i, min, killHeaviest, w, t')) == whole
                else whole == Scan(reg.st, atts, killedSize, t')
      invariant any == AnyKilled(atts)
      decreases i - min + 1, killedSize == 0
    {
      if !chooseHeaviest && i <= PERCEPTIBLE_APP_ADJ {
        chooseHeaviest := true;
      }
      ghost var st1, t1 := reg.st, t';
      ghost var more;
      var some;
      killedSize, some, t', more := KillInSlot(reg, i, chooseHeaviest, 0, w, t');
      any := any || some;
      AnyKilledAppend(atts, more);
      ScanStep(st1, i, min, killHeaviest, w, t1, atts);
      atts := atts + more;
      i := i - 1;
    }
    assert killedSize == 0 ==> atts + [] == atts;
    if killedSize == 0 && min == 0 && debuggable {
      killedSize := script;
    }
  }

  lemma ScanStep(st: State, i: int, min: int, choose: bool, w: World, t: nat, atts: seq<Attempt>)
    requires WellFormed(st) && OOM_SCORE_ADJ_MIN <= min <= i <= OOM_SCORE_ADJ_MAX
    ensures var a := DrainSlot(st, i, choose || i <= PERCEPTIBLE_APP_ADJ, 0, w, t);
            After(atts, ScanDown(st, i, min, choose, w, t))
            == if a.killed != 0 then a.(attempts := atts + a.attempts)
               else After(atts + a.attempts, ScanDown(a.st, i - 1, min, choose, w, a.t))
  {
    hide DrainSlot, WellFormed;
    var a := DrainSlot(st, i, choose || i <= PERCEPTIBLE_APP_ADJ, 0, w, t);
    var rest := ScanDown(a.st, i - 1, min, choose, w, a.t);
    assert atts + (a.attempts + rest.attempts) == (atts + a.attempts) + rest.attempts;
  }
}
