/**
 What the attempts of a scan come to, told by the records and the answers of the system alone:
 what each attempt answers, where the scan goes on after it, and what is left when it ends.
 */
module ScanSteps {
  import opened Options
  import opened RegistryModel
  import opened SelectionModel

  // ---------- one attempt ----------

  /** What kill_one_process finds out about the record: it is marked, or the process cannot be read. */
  predicate Unfit(rec: Rec, pr: Probe) {
    !rec.valid || !pr.statusOk
  }

  /** The value kill_one_process returns: -1, the hook's answer, or the pages of the process killed. */
  function Answer(rec: Rec, pr: Probe): int {
    if Unfit(rec, pr) then -1
    else if pr.hook <= 0 && pr.killOk then pr.rssPages
    else pr.hook
  }

  /** The attempt is of the kind, and has the result, that its record and the answers call for. */
  predicate Answered(att: Attempt, pr: Probe) {
    && att.result == Answer(att.rec, pr)
    && (att.kind == Stale <==> Unfit(att.rec, pr))
    && (att.kind == Spared <==> !Unfit(att.rec, pr) && pr.hook > 0)
    && (att.kind == Failed <==> !Unfit(att.rec, pr) && pr.hook <= 0 && !pr.killOk)
    && (att.kind == Killed <==> !Unfit(att.rec, pr) && pr.hook <= 0 && pr.killOk)
  }

  lemma AttemptAnswered(st: State, pid: int, pr: Probe)
    requires pid in st.recs
    ensures var att := KillOne(st, pid, pr).att;
            att.pid == pid && att.rec == st.recs[pid] && att.epollOk == pr.epollOk && Answered(att, pr)
  {
  }

  // ---------- a scan only takes records out ----------

  /** The slots are what they were without the records that are gone, in the order they had. */
  ghost predicate OnlyDrops(st: State, r: State) {
    r.recs.Keys <= st.recs.Keys && r.slots == DropAll(st.slots, st.recs.Keys - r.recs.Keys)
  }

  lemma NothingDropped(st: State)
    ensures OnlyDrops(st, st)
  {
    assert st.recs.Keys - st.recs.Keys == {};
    forall s | 0 <= s < |st.slots| ensures Drop(st.slots[s], {}) == st.slots[s] {
      DropNothing(st.slots[s], {});
    }
  }

  lemma DropsThen(a: State, b: State, c: State)
    requires OnlyDrops(a, b) && OnlyDrops(b, c)
    ensures OnlyDrops(a, c)
  {
    var (x, y) := (a.recs.Keys - b.recs.Keys, b.recs.Keys - c.recs.Keys);
    assert x + y == a.recs.Keys - c.recs.Keys;
    forall s | 0 <= s < |a.slots| ensures Drop(Drop(a.slots[s], x), y) == Drop(a.slots[s], x + y) {
      DropTwice(a.slots[s], x, y);
    }
    assert c.slots == DropAll(a.slots, x + y);
  }

  lemma RemovalDrops(st: State, gone: set<int>)
    requires WellFormed(st)
    ensures OnlyDrops(st, RemoveAll(st, gone))
  {
    var there := st.recs.Keys * gone;
    assert st.recs.Keys - (st.recs - gone).Keys == there;
    forall s | 0 <= s < |st.slots| ensures Drop(st.slots[s], gone) == Drop(st.slots[s], there) {
      forall i | 0 <= i < |st.slots[s]| ensures st.slots[s][i] in gone <==> st.slots[s][i] in there {
        ShapeAt(st.recs, st.slots, s, i);
      }
      DropAgree(st.slots[s], gone, there);
    }
  }

  lemma SelectDrops(st: State, adj: OomAdj, heaviest: bool, w: World, t: nat)
    requires WellFormed(st)
    ensures OnlyDrops(st, Select(st, adj, heaviest, w, t).st)
  {
    if heaviest {
      RemovalDrops(st, Unreadable(w, t, st.slots[AdjToSlot(adj)]));
    } else {
      NothingDropped(st);
    }
  }

  lemma KillDrops(st: State, pid: int, pr: Probe)
    requires WellFormed(st) && pid in st.recs
    ensures OnlyDrops(st, KillOne(st, pid, pr).st)
  {
    hide KillOne;
    KillOneKeeps(st, pid, pr);
    NothingDropped(st);
    RemovalDrops(st, {pid});
    var r := KillOne(st, pid, pr);
    assert r.att.kind != Spared ==> r.st.recs == RemoveAll(st, {pid}).recs && r.st.slots == RemoveAll(st, {pid}).slots;
  }

  lemma {:induction false} DrainDrops(st: State, adj: OomAdj, heaviest: bool, killed: int, w: World, t: nat)
    requires WellFormed(st)
    ensures OnlyDrops(st, DrainSlot(st, adj, heaviest, killed, w, t).st)
    decreases st.recs.Keys
  {
    hide KillOne, Select, Shape, FdsOwned, OnlyDrops;
    SelectWellFormed(st, adj, heaviest, w, t);
    SelectDrops(st, adj, heaviest, w, t);
    var p := Select(st, adj, heaviest, w, t);
    if p.pid.Some? {
      var (pid, pr) := (p.pid.value, w.probe(t, p.pid.value));
      KillOneKeeps(p.st, pid, pr);
      KillDrops(p.st, pid, pr);
      var o := KillOne(p.st, pid, pr);
      DropsThen(st, p.st, o.st);
      if o.att.result < 0 {
        assert pid in st.recs.Keys && pid !in o.st.recs.Keys;
        DrainDrops(o.st, adj, heaviest, o.att.result, w, t + 1);
        DropsThen(st, o.st, DrainSlot(o.st, adj, heaviest, o.att.result, w, t + 1).st);
      }
    }
  }

  lemma {:induction false} ScanDrops(st: State, i: int, min: int, choose: bool, w: World, t: nat)
    requires WellFormed(st) && OOM_SCORE_ADJ_MIN <= min && i <= OOM_SCORE_ADJ_MAX
    ensures OnlyDrops(st, ScanDown(st, i, min, choose, w, t).st)
    decreases i - min + 1
  {
    hide DrainSlot, Shape, FdsOwned, OnlyDrops;
    if i < min {
      NothingDropped(st);
    } else {
      var heavy := choose || i <= PERCEPTIBLE_APP_ADJ;
      DrainDrops(st, i, heavy, 0, w, t);
      var a := DrainSlot(st, i, heavy, 0, w, t);
      if a.killed == 0 {
        ScanDrops(a.st, i - 1, min, choose, w, a.t);
        DropsThen(st, a.st, ScanDown(a.st, i - 1, min, choose, w, a.t).st);
      }
    }
  }

  // ---------- where a scan goes on ----------

  ghost predicate AnsweredAt(atts: seq<Attempt>, us: seq<nat>, w: World, k: int)
    requires |us| == |atts|
  {
    0 <= k < |us| && Answered(atts[k], w.probe(us[k], atts[k].pid))
  }

  /** Attempt k was answered by the system after selection us[k], one after the other. */
  ghost predicate Times(atts: seq<Attempt>, us: seq<nat>, w: World, t: nat, t': nat) {
    && |us| == |atts|
    && (forall k :: 0 <= k < |us| ==> AnsweredAt(atts, us, w, k))
    && (forall k :: 0 <= k < |us| ==> t <= us[k] < t')
    && (forall j, k :: 0 <= j < k < |us| ==> us[j] < us[k])
  }

  lemma TimesThen(a: seq<Attempt>, us: seq<nat>, b: seq<Attempt>, vs: seq<nat>, w: World, t: nat, mid: nat, t': nat)
    requires Times(a, us, w, t, mid) && Times(b, vs, w, mid, t') && t <= mid <= t'
    ensures Times(a + b, us + vs, w, t, t')
  {
    forall k | 0 <= k < |us + vs| ensures AnsweredAt(a + b, us + vs, w, k) {
      if k < |us| {
        assert AnsweredAt(a, us, w, k);
      } else {
        assert AnsweredAt(b, vs, w, k - |us|);
      }
    }
  }

  lemma {:induction false} DrainTimes(st: State, adj: OomAdj, heaviest: bool, killed: int, w: World, t: nat)
    returns (us: seq<nat>)
    requires WellFormed(st)
    ensures var r := DrainSlot(st, adj, heaviest, killed, w, t); t < r.t && Times(r.attempts, us, w, t, r.t)
    decreases st.recs.Keys
  {
    hide KillOne, Select, Shape, FdsOwned, Answered;
    SelectWellFormed(st, adj, heaviest, w, t);
    var p := Select(st, adj, heaviest, w, t);
    us := [];
    if p.pid.Some? {
      var (pid, pr) := (p.pid.value, w.probe(t, p.pid.value));
      KillOneKeeps(p.st, pid, pr);
      AttemptAnswered(p.st, pid, pr);
      var o := KillOne(p.st, pid, pr);
      us := [t];
      assert AnsweredAt([o.att], us, w, 0);
      if o.att.result < 0 {
        assert pid in st.recs.Keys && pid !in o.st.recs.Keys;
        var more := DrainTimes(o.st, adj, heaviest, o.att.result, w, t + 1);
        var rest := DrainSlot(o.st, adj, heaviest, o.att.result, w, t + 1);
        TimesThen([o.att], us, rest.attempts, more, w, t, t + 1, rest.t);
        us := us + more;
      }
    }
  }

  lemma {:induction false} ScanTimes(st: State, i: int, min: int, choose: bool, w: World, t: nat) returns (us: seq<nat>)
    requires WellFormed(st) && OOM_SCORE_ADJ_MIN <= min && i <= OOM_SCORE_ADJ_MAX
    ensures var r := ScanDown(st, i, min, choose, w, t); t <= r.t && Times(r.attempts, us, w, t, r.t)
    decreases i - min + 1
  {
    hide DrainSlot, Shape, FdsOwned, AnsweredAt;
    us := [];
    if i >= min {
      var heavy := choose || i <= PERCEPTIBLE_APP_ADJ;
      us := DrainTimes(st, i, heavy, 0, w, t);
      var a := DrainSlot(st, i, heavy, 0, w, t);
      if a.killed == 0 {
        var more := ScanTimes(a.st, i - 1, min, choose, w, a.t);
        var rest := ScanDown(a.st, i - 1, min, choose, w, a.t);
        TimesThen(a.attempts, us, rest.attempts, more, w, t, a.t, rest.t);
        us := us + more;
      }
    }
  }

  /**
   Where attempt b is, made after an attempt on `rec` that was answered by `pr`. After a marked
   or unreadable record it is in the same slot. After a refused signal it is in the same slot if
   the hook's answer is negative and in a lower one if that is 0. No attempt follows one that
   freed pages, be it by the hook.
   */
  predicate GoesOn(rec: Rec, pr: Probe, b: Attempt) {
    if Unfit(rec, pr) then b.rec.oomadj == rec.oomadj
    else
      && pr.hook <= 0
      && (if !pr.killOk then (if pr.hook == 0 then b.rec.oomadj < rec.oomadj else b.rec.oomadj == rec.oomadj)
          else pr.rssPages <= 0
               && (if pr.rssPages == 0 then b.rec.oomadj < rec.oomadj else b.rec.oomadj == rec.oomadj))
  }

  /** Every attempt of a scan is answered as above, and what was answered decides where the next is. */
  lemma ScanGoesOn(st: State, i: int, min: int, choose: bool, w: World, t: nat) returns (us: seq<nat>)
    requires WellFormed(st) && OOM_SCORE_ADJ_MIN <= min && i <= OOM_SCORE_ADJ_MAX
    ensures var r := ScanDown(st, i, min, choose, w, t);
            && Times(r.attempts, us, w, t, r.t)
            && (forall k :: 0 <= k < |us| - 1 ==>
                  GoesOn(r.attempts[k].rec, w.probe(us[k], r.attempts[k].pid), r.attempts[k + 1]))
            && r.killed == (if us == [] then 0 else
                              var last := r.attempts[|us| - 1]; Answer(last.rec, w.probe(us[|us| - 1], last.pid)))
  {
    hide ScanDown, WellFormed, Orderly;
    us := ScanTimes(st, i, min, choose, w, t);
    ScanOrderly(st, i, min, choose, w, t);
    var atts := ScanDown(st, i, min, choose, w, t).attempts;
    forall k | 0 <= k < |us| - 1 ensures GoesOn(atts[k].rec, w.probe(us[k], atts[k].pid), atts[k + 1]) {
      assert Follows(atts[k], atts[k + 1]) && AnsweredAt(atts, us, w, k);
    }
    if us != [] {
      assert AnsweredAt(atts, us, w, |us| - 1);
    }
  }

  // ---------- what is left ----------

  /** The slot of this adj is looked through for the heaviest record. */
  predicate Heavy(choose: bool, adj: int) {
    choose || adj <= PERCEPTIBLE_APP_ADJ
  }

  ghost predicate TriedAt(atts: seq<Attempt>, adj: int) {
    exists k :: 0 <= k < |atts| && atts[k].rec.oomadj == adj
  }

  lemma {:induction false} DrainLeaves(st: State, adj: OomAdj, killed: int, w: World, t: nat)
    requires WellFormed(st)
    ensures var r := DrainSlot(st, adj, false, killed, w, t);
            && |r.st.slots| == ADJTOSLOT_COUNT
            && (r.attempts == [] || r.attempts[|r.attempts| - 1].result < 0 ==> r.st.slots[AdjToSlot(adj)] == [])
    decreases st.recs.Keys
  {
    hide KillOne, Shape, FdsOwned;
    SelectWellFormed(st, adj, false, w, t);
    var p := Select(st, adj, false, w, t);
    if p.pid.Some? {
      var (pid, pr) := (p.pid.value, w.probe(t, p.pid.value));
      KillOneKeeps(p.st, pid, pr);
      var o := KillOne(p.st, pid, pr);
      if o.att.result < 0 {
        assert pid in st.recs.Keys && pid !in o.st.recs.Keys;
        DrainLeaves(o.st, adj, o.att.result, w, t + 1);
      }
    }
  }

  lemma StaysEmpty(st: State, r: State, s: nat)
    requires OnlyDrops(st, r) && s < |st.slots| && st.slots[s] == []
    ensures s < |r.slots| && r.slots[s] == []
  {
  }

  lemma TriedIn(a: seq<Attempt>, b: seq<Attempt>, adj: int)
    ensures TriedAt(a, adj) || TriedAt(b, adj) ==> TriedAt(a + b, adj)
  {
    if TriedAt(a, adj) {
      var k :| 0 <= k < |a| && a[k].rec.oomadj == adj;
      assert (a + b)[k].rec.oomadj == adj;
    } else if TriedAt(b, adj) {
      var k :| 0 <= k < |b| && b[k].rec.oomadj == adj;
      assert (a + b)[|a| + k].rec.oomadj == adj;
    }
  }

  /**
   A scan that comes to nothing has tried every slot from which it takes the tail, or that slot is
   empty; one that ends with a negative answer has left the slot of its last attempt empty.
   */
  lemma {:induction false} ScanExhausts(st: State, i: int, min: int, choose: bool, w: World, t: nat)
    requires WellFormed(st) && OOM_SCORE_ADJ_MIN <= min && i <= OOM_SCORE_ADJ_MAX
    ensures var r := ScanDown(st, i, min, choose, w, t);
            && |r.st.slots| == ADJTOSLOT_COUNT
            && (r.killed == 0 ==> forall j: OomAdj :: min <= j <= i && !Heavy(choose, j) ==>
                                    TriedAt(r.attempts, j) || r.st.slots[AdjToSlot(j)] == [])
            && (r.killed < 0 ==>
                  && r.attempts != []
                  && var last := r.attempts[|r.attempts| - 1].rec.oomadj;
                     !Heavy(choose, last) ==> r.st.slots[AdjToSlot(last)] == [])
    decreases i - min + 1
  {
    hide DrainSlot, Shape, FdsOwned, OrderlyAttempts, AccountsFor, Stepwise, OnlyDrops, TriedAt;
    if i >= min {
      var heavy := Heavy(choose, i);
      var a := DrainSlot(st, i, heavy, 0, w, t);
      SlotTried(st, i, heavy, w, t);
      if a.killed == 0 {
        var rest := ScanDown(a.st, i - 1, min, choose, w, a.t);
        ScanExhausts(a.st, i - 1, min, choose, w, a.t);
        ScanDrops(a.st, i - 1, min, choose, w, a.t);
        forall j: OomAdj | min <= j <= i && !Heavy(choose, j) && rest.killed == 0
          ensures TriedAt(a.attempts + rest.attempts, j) || rest.st.slots[AdjToSlot(j)] == []
        {
          TriedIn(a.attempts, rest.attempts, j);
          if j == i && !TriedAt(a.attempts, j) {
            StaysEmpty(a.st, rest.st, AdjToSlot(j));
          }
        }
      }
    }
  }

  lemma SlotTried(st: State, i: OomAdj, heavy: bool, w: World, t: nat)
    requires WellFormed(st)
    ensures var a := DrainSlot(st, i, heavy, 0, w, t);
            && |a.st.slots| == ADJTOSLOT_COUNT
            && (a.attempts != [] ==> TriedAt(a.attempts, i) && a.attempts[|a.attempts| - 1].rec.oomadj == i)
            && (a.killed < 0 ==> a.attempts != [])
            && (!heavy && (a.attempts == [] || a.killed < 0) ==> a.st.slots[AdjToSlot(i)] == [])
  {
    hide DrainSlot, Shape, FdsOwned, AccountsFor, Stepwise;
    DrainOrderly(st, i, heavy, 0, w, t);
    if !heavy {
      DrainLeaves(st, i, 0, w, t);
    }
  }

  // ---------- who is tried first ----------

  /** Nobody can be picked from the slot. */
  predicate NobodyIn(xs: seq<int>, heavy: bool, w: World, t: nat) {
    if heavy then forall k :: 0 <= k < |xs| ==> w.size(t, xs[k]) <= 0 else xs == []
  }

  /** The record at position i is ahead of that at position k: larger, or as large and met before it. */
  predicate Ahead(xs: seq<int>, i: int, k: int, w: World, t: nat)
    requires 0 <= i < |xs| && 0 <= k < |xs|
  {
    if i <= k then w.size(t, xs[i]) >= w.size(t, xs[k]) else w.size(t, xs[i]) > w.size(t, xs[k])
  }

  /**
   The record at position i is picked from the slot: it is its tail, or of those with a positive size
   it is ahead of all others that are ordinary, or if none of these is, ahead of all preferred ones.
   */
  predicate PickedAt(i: int, xs: seq<int>, heavy: bool, w: World, t: nat) {
    && 0 <= i < |xs|
    && (if !heavy then i == |xs| - 1
        else
          && w.size(t, xs[i]) > 0
          && (forall k :: 0 <= k < |xs| && w.preferred(t, xs[k]) == w.preferred(t, xs[i]) ==> Ahead(xs, i, k, w, t))
          && (w.preferred(t, xs[i]) ==> forall k :: 0 <= k < |xs| && !w.preferred(t, xs[k]) ==> w.size(t, xs[k]) <= 0))
  }

  ghost predicate PickedFrom(x: int, xs: seq<int>, heavy: bool, w: World, t: nat) {
    exists i :: PickedAt(i, xs, heavy, w, t) && xs[i] == x
  }

  lemma HeaviestPicked(w: World, t: nat, xs: seq<int>)
    ensures var h := Heaviest(w, t, xs);
            if h.None? then NobodyIn(xs, true, w, t) else PickedFrom(h.value, xs, true, w, t)
  {
    HeaviestIsHeaviest(w, t, xs);
    var h := Heaviest(w, t, xs);
    if h.None? {
      forall k | 0 <= k < |xs| ensures w.size(t, xs[k]) <= 0 {
        var x := xs[k];
        assert x in xs;
      }
    } else {
      var pa := Best(w, t, false, xs).None?;
      var i := BestIsFirst(w, t, pa, xs);
      BestIsLargest(w, t, false, xs);
      BestIsLargest(w, t, pa, xs);
      forall k | 0 <= k < |xs|
        ensures Weight(w, t, pa, xs[k]) <= Weight(w, t, pa, xs[i])
        ensures Weight(w, t, false, xs[k]) <= if pa then 0 else w.size(t, xs[i])
      {
        var x := xs[k];
        assert x in xs;
      }
      assert PickedAt(i, xs, true, w, t);
    }
  }

  lemma PickMeans(st: State, adj: OomAdj, heavy: bool, w: World, t: nat)
    requires |st.slots| == ADJTOSLOT_COUNT
    ensures var (x, xs) := (Select(st, adj, heavy, w, t).pid, st.slots[AdjToSlot(adj)]);
            if x.None? then NobodyIn(xs, heavy, w, t) else PickedFrom(x.value, xs, heavy, w, t)
  {
    var xs := st.slots[AdjToSlot(adj)];
    if heavy {
      hide PickedFrom, Heaviest;
      HeaviestPicked(w, t, xs);
    } else if xs != [] {
      assert PickedAt(|xs| - 1, xs, heavy, w, t);
    }
  }

  lemma OfferMeans(st: State, i: int, j: OomAdj, choose: bool, w: World, t: nat)
    requires |st.slots| == ADJTOSLOT_COUNT && j <= i
    ensures var (x, xs) := (Offer(st, i, j, choose, w, t), st.slots[AdjToSlot(j)]);
            if x.None? then NobodyIn(xs, Heavy(choose, j), w, t + (i - j))
            else PickedFrom(x.value, xs, Heavy(choose, j), w, t + (i - j))
  {
    hide Select, NobodyIn, PickedFrom;
    PickMeans(st, j, Heavy(choose, j), w, t + (i - j));
  }

  /** The first attempt is on the record picked from the highest slot from which one can be picked. */
  lemma FirstTried(st: State, i: int, min: int, choose: bool, w: World, t: nat)
    requires WellFormed(st) && OOM_SCORE_ADJ_MIN <= min && i <= OOM_SCORE_ADJ_MAX
    ensures |st.slots| == ADJTOSLOT_COUNT
    ensures var atts := ScanDown(st, i, min, choose, w, t).attempts;
            var top := if atts == [] then min - 1 else atts[0].rec.oomadj;
            && (forall j: OomAdj :: top < j <= i && min <= j ==>
                  NobodyIn(st.slots[AdjToSlot(j)], Heavy(choose, j), w, t + (i - j)))
            && (atts != [] ==>
                  && min <= top <= i
                  && PickedFrom(atts[0].pid, st.slots[AdjToSlot(top)], Heavy(choose, top), w, t + (i - top)))
  {
    SlotCount(st);
    hide ScanDown, WellFormed, NobodyIn, PickedFrom, Offer, Heavy, AdjToSlot;
    ScanFirst(st, i, min, choose, w, t);
    var atts := ScanDown(st, i, min, choose, w, t).attempts;
    var top := if atts == [] then min - 1 else atts[0].rec.oomadj;
    forall j: OomAdj | top < j <= i && min <= j
      ensures NobodyIn(st.slots[AdjToSlot(j)], Heavy(choose, j), w, t + (i - j))
    {
      assert Offer(st, i, j, choose, w, t) == None;
      OfferMeans(st, i, j, choose, w, t);
    }
    if atts != [] {
      OfferMeans(st, i, top, choose, w, t);
    }
  }
}
