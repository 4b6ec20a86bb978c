/**
 Victim selection on the value model: which record of a slot is picked, what one kill attempt
 does to the registry, and the scan over the slots from the least important process down.
 */
module SelectionModel {
  import opened Options
  import opened RegistryModel

  const PERCEPTIBLE_APP_ADJ := 200

  /**
   What the system answers to one kill attempt: whether /proc/<pid>/status and the command line
   are readable and consistent, the resident size, the vendor hook, epoll_ctl and the signal.
   */
  datatype Probe = Probe(statusOk: bool, rssPages: int, hook: int, epollOk: bool, killOk: bool)

  /** The answers of the system; the first argument numbers the selections made so far. */
  datatype World = World(
    size: (nat, int) -> int,
    preferred: (nat, int) -> bool,
    probe: (nat, int) -> Probe)

  // ---------- picking a record of one slot ----------

  function Unreadable(w: World, t: nat, xs: seq<int>): set<int> {
    set x | x in xs && w.size(t, x) < 0
  }

  /** The size that counts for the ordinary (`pa` false) or the preferred applications. */
  function Weight(w: World, t: nat, pa: bool, pid: int): int {
    if w.preferred(t, pid) == pa then w.size(t, pid) else 0
  }

  /** The running maximum kept by proc_get_heaviest: only a strictly larger task replaces it. */
  function Best(w: World, t: nat, pa: bool, xs: seq<int>): (r: Option<int>) {
    if xs == [] then None
    else
      var best := Best(w, t, pa, xs[..|xs| - 1]);
      var x := xs[|xs| - 1];
      if Weight(w, t, pa, x) > (if best.Some? then Weight(w, t, pa, best.value) else 0) then Some(x) else best
  }

  function Heaviest(w: World, t: nat, xs: seq<int>): (r: Option<int>) {
    if Best(w, t, false, xs).Some? then Best(w, t, false, xs) else Best(w, t, true, xs)
  }

  datatype Pick = Pick(st: State, pid: Option<int>)

  /** proc_get_heaviest or proc_adj_tail on slot `adj`. */
  function Select(st: State, adj: OomAdj, heaviest: bool, w: World, t: nat): (r: Pick)
    requires |st.slots| == ADJTOSLOT_COUNT
  {
    var xs := st.slots[AdjToSlot(adj)];
    if heaviest then Pick(RemoveAll(st, Unreadable(w, t, xs)), Heaviest(w, t, xs))
    else Pick(st, if xs == [] then None else Some(xs[|xs| - 1]))
  }

  lemma {:induction false} BestIsLargest(w: World, t: nat, pa: bool, xs: seq<int>)
    ensures var b := Best(w, t, pa, xs);
            && (b.Some? ==> b.value in xs && Weight(w, t, pa, b.value) > 0)
            && (forall x :: x in xs ==> Weight(w, t, pa, x) <= if b.Some? then Weight(w, t, pa, b.value) else 0)
  {
    if xs != [] {
      BestIsLargest(w, t, pa, xs[..|xs| - 1]);
      assert forall x :: x in xs ==> x in xs[..|xs| - 1] || x == xs[|xs| - 1];
    }
  }

  /** Position i is the first in xs with the weight it has. */
  predicate FirstOfWeight(w: World, t: nat, pa: bool, xs: seq<int>, i: int) {
    0 <= i < |xs| && forall j :: 0 <= j < i ==> Weight(w, t, pa, xs[j]) != Weight(w, t, pa, xs[i])
  }

  /** Of several largest ones it is the first met. */
  lemma {:induction false} BestIsFirst(w: World, t: nat, pa: bool, xs: seq<int>) returns (i: int)
    ensures var b := Best(w, t, pa, xs);
            b.Some? ==> FirstOfWeight(w, t, pa, xs, i) && xs[i] == b.value
  {
    i := -1;
    if xs != [] {
      var n := |xs| - 1;
      i := BestIsFirst(w, t, pa, xs[..n]);
      BestIsLargest(w, t, pa, xs[..n]);
      if Weight(w, t, pa, xs[n]) > (if Best(w, t, pa, xs[..n]).Some? then Weight(w, t, pa, Best(w, t, pa, xs[..n]).value) else 0) {
        i := n;
        forall j | 0 <= j < n ensures Weight(w, t, pa, xs[j]) < Weight(w, t, pa, xs[n]) {
          assert xs[j] in xs[..n];
        }
      }
    }
  }

  /**
   proc_get_heaviest returns an ordinary application of maximal positive size if there is one,
   otherwise a preferred application of maximal positive size, otherwise nothing.
   */
  lemma HeaviestIsHeaviest(w: World, t: nat, xs: seq<int>)
    ensures var h := Heaviest(w, t, xs);
            && (h.Some? ==> h.value in xs && w.size(t, h.value) > 0)
            && (h.Some? && !w.preferred(t, h.value) ==>
                  forall x :: x in xs && !w.preferred(t, x) ==> w.size(t, x) <= w.size(t, h.value))
            && (h.Some? && w.preferred(t, h.value) ==>
                  forall x :: x in xs ==> w.size(t, x) <= if w.preferred(t, x) then w.size(t, h.value) else 0)
            && (h.None? ==> forall x :: x in xs ==> w.size(t, x) <= 0)
  {
    BestIsLargest(w, t, false, xs);
    BestIsLargest(w, t, true, xs);
    forall x | x in xs
      ensures w.size(t, x) == Weight(w, t, w.preferred(t, x), x)
    {
    }
    assert forall x :: x in xs && !w.preferred(t, x) ==> w.size(t, x) == Weight(w, t, false, x);
    assert forall x :: x in xs && w.preferred(t, x) ==> w.size(t, x) == Weight(w, t, true, x);
  }

  lemma SelectWellFormed(st: State, adj: OomAdj, heaviest: bool, w: World, t: nat)
    requires WellFormed(st)
    ensures var p := Select(st, adj, heaviest, w, t);
            && WellFormed(p.st) && p.st.recs.Keys <= st.recs.Keys && p.st.strayCloses == st.strayCloses
            && (p.pid.Some? ==> p.pid.value in p.st.recs && p.st.recs[p.pid.value].oomadj == adj
                                && p.st.recs[p.pid.value] == st.recs[p.pid.value])
  {
    var xs := st.slots[AdjToSlot(adj)];
    HeaviestIsHeaviest(w, t, xs);
    if heaviest {
      RemoveAllWellFormed(st, Unreadable(w, t, xs));
    } else if xs != [] {
      var x := xs[|xs| - 1];
      assert x in xs;
    }
  }

  // ---------- one attempt ----------

  datatype Kind =
    | Stale      // invalid record or unreadable process: not signalled
    | Spared     // the hook freed memory elsewhere: not signalled, record kept
    | Failed     // the signal was refused
    | Killed

  datatype Attempt = Attempt(pid: int, rec: Rec, kind: Kind, result: int, epollOk: bool) {
    predicate Signals() { kind == Failed || kind == Killed }

    /** The attempt closed the pidfd of its victim twice. */
    predicate DoubleClose() { rec.pidfd >= 0 && Signals() && !(epollOk && kind == Killed) }
  }

  datatype Outcome = Outcome(st: State, att: Attempt)

  /** kill_one_process; the result of a refused signal is the hook's answer, not -1. */
  function KillOne(st: State, pid: int, pr: Probe): (r: Outcome)
    requires pid in st.recs
  {
    var rec := st.recs[pid];
    if !rec.valid || !pr.statusOk then Outcome(Remove(st, pid), Attempt(pid, rec, Stale, -1, pr.epollOk))
    else if pr.hook > 0 then Outcome(st, Attempt(pid, rec, Spared, pr.hook, pr.epollOk))
    else
      var st1 := StartWait(st, if rec.pidfd < 0 then pid else rec.pidfd, pr.epollOk);
      if !pr.killOk then Outcome(Remove(StopWait(st1), pid), Attempt(pid, rec, Failed, pr.hook, pr.epollOk))
      else Outcome(Remove(st1, pid), Attempt(pid, rec, Killed, pr.rssPages, pr.epollOk))
  }

  /** The descriptors after one attempt: the awaited one goes, the victim's stays only if awaited. */
  lemma KillOneOpen(st: State, pid: int, pr: Probe)
    requires WellFormed(st) && pid in st.recs
    ensures var r := KillOne(st, pid, pr);
            var fd := st.recs[pid].pidfd;
            var before := if r.att.Signals() && st.lastKill >= 0 then st.openFds - {st.lastKill} else st.openFds;
            && r.st.strayCloses == st.strayCloses + (if r.att.DoubleClose() then 1 else 0)
            && (st.pidfdSupported ==>
                  r.st.openFds == (if r.att.kind == Spared || (r.att.kind == Killed && pr.epollOk)
                                   then before else before - {fd}))
            && (!st.pidfdSupported ==> r.st.openFds == st.openFds)
            && r.st.recs == (if r.att.kind == Spared then st.recs else st.recs - {pid})
            && r.st.slots == (if r.att.kind == Spared then st.slots else DropAll(st.slots, {pid}))
            && r.st.pidfdSupported == st.pidfdSupported
            && r.st.lastKill == (if !r.att.Signals() then st.lastKill
                                 else if r.att.kind == Failed || (st.pidfdSupported && !pr.epollOk) then -1
                                 else if st.pidfdSupported then fd else pid)
  {
  }

  /** Every attempt keeps the registry well formed and removes the record unless it was spared. */
  lemma KillOneKeeps(st: State, pid: int, pr: Probe)
    requires WellFormed(st) && pid in st.recs
    ensures var r := KillOne(st, pid, pr);
            && r.st.recs == (if r.att.kind == Spared then st.recs else st.recs - {pid})
            && r.st.slots == (if r.att.kind == Spared then st.slots else DropAll(st.slots, {pid}))
            && r.st.pidfdSupported == st.pidfdSupported
            && WellFormed(r.st)
            && r.att.pid == pid && r.att.rec == st.recs[pid]
            && (r.att.kind == Spared ==> r.att.result > 0)
  {
    KillOneOpen(st, pid, pr);
    DropAllShape(st.recs, st.slots, {pid});
  }

  /**
   An attempt on `rec` that gets as far as the signal, and whose epoll registration or signal is
   refused.
   */
  predicate RefusedLate(rec: Rec, pr: Probe) {
    rec.pidfd >= 0 && rec.valid && pr.statusOk && pr.hook <= 0 && !(pr.epollOk && pr.killOk)
  }

  /**
   No attempt leaks a descriptor, and each pidfd is closed exactly once unless the epoll
   registration or the signal is refused: then pid_remove closes it a second time.
   */
  lemma KillOneFds(st: State, pid: int, pr: Probe)
    requires WellFormed(st) && pid in st.recs
    ensures var r := KillOne(st, pid, pr);
            && (st.openFds == OwnedFds(st) ==> r.st.openFds == OwnedFds(r.st))
            && r.st.strayCloses == st.strayCloses + (if RefusedLate(st.recs[pid], pr) then 1 else 0)
            && (r.att.DoubleClose() <==> RefusedLate(st.recs[pid], pr))
  {
    var r := KillOne(st, pid, pr);
    var fd := st.recs[pid].pidfd;
    KillOneKeeps(st, pid, pr);
    KillOneOpen(st, pid, pr);
    LiveFdsRemove(st, {pid});
    assert ClosedFds(st, {pid}) == if fd >= 0 then {fd} else {};
    assert LiveFds(r.st.recs) == if r.att.kind == Spared then LiveFds(st.recs) else LiveFds(st.recs) - ClosedFds(st, {pid});
  }

  // ---------- the scan over the slots ----------

  predicate AnyKilled(atts: seq<Attempt>) {
    exists k :: 0 <= k < |atts| && atts[k].kind == Killed
  }

  lemma AnyKilledAppend(a: seq<Attempt>, b: seq<Attempt>)
    ensures AnyKilled(a + b) <==> AnyKilled(a) || AnyKilled(b)
  {
    if AnyKilled(a) {
      var k :| 0 <= k < |a| && a[k].kind == Killed;
      assert (a + b)[k].kind == Killed;
    }
    if AnyKilled(b) {
      var k :| 0 <= k < |b| && b[k].kind == Killed;
      assert (a + b)[|a| + k].kind == Killed;
    }
  }

  /** The registry after some attempts, the last value of killed_size, and the selections made. */
  datatype Scan = Scan(st: State, attempts: seq<Attempt>, killed: int, t: nat)

  /** The inner loop of find_and_kill_process: attempts in one slot until one answers >= 0. */
  function DrainSlot(st: State, adj: OomAdj, heaviest: bool, killed: int, w: World, t: nat): (r: Scan)
    requires WellFormed(st)
    ensures WellFormed(r.st)
    decreases st.recs.Keys
  {
    SelectWellFormed(st, adj, heaviest, w, t);
    var p := Select(st, adj, heaviest, w, t);
    if p.pid.None? then Scan(p.st, [], killed, t + 1)
    else
      var pr := w.probe(t, p.pid.value);
      KillOneKeeps(p.st, p.pid.value, pr);
      var o := KillOne(p.st, p.pid.value, pr);
      if o.att.result >= 0 then Scan(o.st, [o.att], o.att.result, t + 1)
      else
        assert p.pid.value in st.recs.Keys && p.pid.value !in o.st.recs.Keys;
        var rest := DrainSlot(o.st, adj, heaviest, o.att.result, w, t + 1);
        rest.(attempts := [o.att] + rest.attempts)
  }

  /** The outer loop: slots from `i` down to `min`, until some slot leaves a non-zero size. */
  function ScanDown(st: State, i: int, min: int, choose: bool, w: World, t: nat): (r: Scan)
    requires WellFormed(st) && OOM_SCORE_ADJ_MIN <= min && i <= OOM_SCORE_ADJ_MAX
    ensures WellFormed(r.st)
    decreases i - min + 1
  {
    if i < min then Scan(st, [], 0, t)
    else
      var r := DrainSlot(st, i, choose || i <= PERCEPTIBLE_APP_ADJ, 0, w, t);
      if r.killed != 0 then r
      else
        var rest := ScanDown(r.st, i - 1, min, choose, w, r.t);
        rest.(attempts := r.attempts + rest.attempts)
  }

  /**
   find_and_kill_process. `script` is the answer of proc_get_script, consulted on debuggable
   builds when a scan of every slot from 0 freed nothing.
   */
  function FindAndKill(st: State, min: int, choose: bool, w: World, t: nat, debuggable: bool, script: int): (r: Scan)
    requires WellFormed(st) && OOM_SCORE_ADJ_MIN <= min
    ensures WellFormed(r.st)
  {
    var r := ScanDown(st, OOM_SCORE_ADJ_MAX, min, choose, w, t);
    if r.killed == 0 && min == 0 && debuggable then r.(killed := script) else r
  }

  // ---------- what a scan may do ----------

  ghost predicate DroppedUnreadable(w: World, t: nat, t': nat, p: int) {
    exists u :: t <= u < t' && w.size(u, p) < 0
  }

  /** Attempts touch recorded victims in the band [lo, hi], most expendable first, each once. */
  ghost predicate OrderlyAttempts(st: State, atts: seq<Attempt>, lo: int, hi: int) {
    && (forall k :: 0 <= k < |atts| ==>
          atts[k].pid in st.recs && atts[k].rec == st.recs[atts[k].pid] && lo <= atts[k].rec.oomadj <= hi)
    && (forall j, k :: 0 <= j < k < |atts| ==>
          atts[j].pid != atts[k].pid && atts[j].rec.oomadj >= atts[k].rec.oomadj)
  }

  /** Records leave the registry only by an attempt that did not spare them, or when unreadable. */
  ghost predicate AccountsFor(st: State, st': State, atts: seq<Attempt>, w: World, t: nat, t': nat) {
    && t <= t'
    && (forall p :: p in st'.recs ==> p in st.recs && st'.recs[p] == st.recs[p])
    && (forall k :: 0 <= k < |atts| ==> (atts[k].kind == Spared <==> atts[k].pid in st'.recs))
    && (forall p :: p in st.recs && p !in st'.recs ==> DroppedUnreadable(w, t, t', p) || Tried(atts, p))
  }

  ghost predicate Tried(atts: seq<Attempt>, p: int) {
    exists k :: 0 <= k < |atts| && atts[k].pid == p
  }

  ghost predicate Orderly(st: State, st': State, atts: seq<Attempt>, lo: int, hi: int, w: World, t: nat, t': nat) {
    OrderlyAttempts(st, atts, lo, hi) && AccountsFor(st, st', atts, w, t, t')
  }

  /** Two scans, one after the other, where the first spared nobody. */
  lemma OrderlyThen(st: State, a: Scan, b: Scan, lo: int, mid: int, hi: int, w: World, t: nat)
    requires Orderly(st, a.st, a.attempts, mid, hi, w, t, a.t)
    requires Orderly(a.st, b.st, b.attempts, lo, mid, w, a.t, b.t)
    requires lo <= mid <= hi
    requires forall k :: 0 <= k < |a.attempts| ==> a.attempts[k].kind != Spared
    ensures Orderly(st, b.st, a.attempts + b.attempts, lo, hi, w, t, b.t)
  {
    var atts := a.attempts + b.attempts;
    forall p | p in st.recs && p !in b.st.recs
      ensures DroppedUnreadable(w, t, b.t, p) || Tried(atts, p)
    {
      if p in a.st.recs {
        if !DroppedUnreadable(w, a.t, b.t, p) {
          var k :| 0 <= k < |b.attempts| && b.attempts[k].pid == p;
          assert atts[|a.attempts| + k].pid == p;
        }
      } else if !DroppedUnreadable(w, t, a.t, p) {
        var k :| 0 <= k < |a.attempts| && a.attempts[k].pid == p;
        assert atts[k].pid == p;
      }
    }
  }

  lemma PickOrderly(st: State, adj: OomAdj, heaviest: bool, w: World, t: nat)
    requires WellFormed(st)
    ensures Orderly(st, Select(st, adj, heaviest, w, t).st, [], adj, adj, w, t, t + 1)
  {
    SelectWellFormed(st, adj, heaviest, w, t);
    var p := Select(st, adj, heaviest, w, t);
    forall q | q in st.recs && q !in p.st.recs ensures DroppedUnreadable(w, t, t + 1, q) {
      assert w.size(t, q) < 0;
    }
  }

  /** One selection followed by one attempt. */
  lemma PickThenKillOrderly(st: State, adj: OomAdj, heaviest: bool, w: World, t: nat)
    requires WellFormed(st) && Select(st, adj, heaviest, w, t).pid.Some?
    ensures var p := Select(st, adj, heaviest, w, t);
            && p.pid.value in p.st.recs
            && var o := KillOne(p.st, p.pid.value, w.probe(t, p.pid.value));
               Orderly(st, o.st, [o.att], adj, adj, w, t, t + 1)
  {
    hide KillOne, Shape, FdsOwned;
    SelectWellFormed(st, adj, heaviest, w, t);
    PickOrderly(st, adj, heaviest, w, t);
    var p := Select(st, adj, heaviest, w, t);
    var pid := p.pid.value;
    KillOneKeeps(p.st, pid, w.probe(t, pid));
    var o := KillOne(p.st, pid, w.probe(t, pid));
    forall q | q in st.recs && q !in o.st.recs
      ensures DroppedUnreadable(w, t, t + 1, q) || Tried([o.att], q)
    {
      if q == pid {
        assert [o.att][0].pid == q;
      }
    }
  }

  predicate Follows(a: Attempt, b: Attempt) {
    && a.result <= 0
    && a.kind != Spared
    && (if a.result < 0 then b.rec.oomadj == a.rec.oomadj else b.rec.oomadj < a.rec.oomadj)
  }

  /**
   How one attempt leads to the next: a negative answer means another try in the same slot, zero
   means the slot is given up for a lower one, and a positive answer ends the scan. Only a
   record whose hook freed memory is spared, and then the scan is over.
   */
  ghost predicate Stepwise(atts: seq<Attempt>) {
    && (forall j, k :: 0 <= j < |atts| && k == j + 1 && k < |atts| ==> Follows(atts[j], atts[k]))
    && (forall k :: 0 <= k < |atts| && atts[k].kind == Spared ==> atts[k].result > 0)
  }

  lemma {:induction false} DrainOrderly(st: State, adj: OomAdj, heaviest: bool, killed: int, w: World, t: nat)
    requires WellFormed(st)
    ensures var r := DrainSlot(st, adj, heaviest, killed, w, t);
            && Orderly(st, r.st, r.attempts, adj, adj, w, t, r.t) && Stepwise(r.attempts)
            && r.killed == (if r.attempts == [] then killed else r.attempts[|r.attempts| - 1].result)
    decreases st.recs.Keys
  {
    hide KillOne, Select, Shape, FdsOwned, AccountsFor;
    SelectWellFormed(st, adj, heaviest, w, t);
    PickOrderly(st, adj, heaviest, w, t);
    var p := Select(st, adj, heaviest, w, t);
    if p.pid.Some? {
      PickThenKillOrderly(st, adj, heaviest, w, t);
      var pid := p.pid.value;
      var pr := w.probe(t, pid);
      KillOneKeeps(p.st, pid, pr);
      var o := KillOne(p.st, pid, pr);
      if o.att.result < 0 {
        var a := Scan(o.st, [o.att], o.att.result, t + 1);
        assert pid in st.recs.Keys && pid !in o.st.recs.Keys;
        var rest := DrainSlot(o.st, adj, heaviest, o.att.result, w, t + 1);
        DrainOrderly(o.st, adj, heaviest, o.att.result, w, t + 1);
        OrderlyThen(st, a, rest, adj, adj, adj, w, t);
      }
    }
  }

  /** Widening the band and giving the scan a lower floor. */
  lemma OrderlyWider(st: State, r: Scan, lo: int, hi: int, lo': int, hi': int, w: World, t: nat)
    requires Orderly(st, r.st, r.attempts, lo, hi, w, t, r.t) && lo' <= lo && hi <= hi'
    ensures Orderly(st, r.st, r.attempts, lo', hi', w, t, r.t)
  {
  }

  lemma NothingOrderly(st: State, lo: int, hi: int, w: World, t: nat)
    ensures Orderly(st, st, [], lo, hi, w, t, t) && Stepwise([])
  {
  }

  /** A slot given up with answer zero, followed by the scan of the slots below it. */
  lemma GiveUpThenScan(st: State, a: Scan, rest: Scan, i: int, min: int, w: World, t: nat)
    requires min <= i
    requires Orderly(st, a.st, a.attempts, i, i, w, t, a.t) && Stepwise(a.attempts)
    requires a.attempts != [] ==> a.attempts[|a.attempts| - 1].result == 0
    requires Orderly(a.st, rest.st, rest.attempts, min, i - 1, w, a.t, rest.t) && Stepwise(rest.attempts)
    ensures Orderly(st, rest.st, a.attempts + rest.attempts, min, i, w, t, rest.t)
    ensures Stepwise(a.attempts + rest.attempts)
  {
    hide AccountsFor;
    var x, y := a.attempts, rest.attempts;
    forall k | 0 <= k < |x| ensures x[k].kind != Spared {
      if k < |x| - 1 {
        assert Follows(x[k], x[k + 1]);
      }
    }
    OrderlyWider(a.st, rest, min, i - 1, min, i, w, a.t);
    OrderlyThen(st, a, rest, min, i, i, w, t);
    forall j, k | 0 <= j < |x + y| && k == j + 1 && k < |x + y| ensures Follows((x + y)[j], (x + y)[k]) {
      if k < |x| {
        assert Follows(x[j], x[k]);
      } else if j >= |x| {
        assert Follows(y[j - |x|], y[k - |x|]);
      }
    }
  }

  lemma {:induction false} ScanOrderly(st: State, i: int, min: int, choose: bool, w: World, t: nat)
    requires WellFormed(st) && OOM_SCORE_ADJ_MIN <= min && i <= OOM_SCORE_ADJ_MAX
    ensures var r := ScanDown(st, i, min, choose, w, t);
            && Orderly(st, r.st, r.attempts, min, i, w, t, r.t) && Stepwise(r.attempts)
            && r.killed == (if r.attempts == [] then 0 else r.attempts[|r.attempts| - 1].result)
    decreases i - min + 1
  {
    hide DrainSlot, WellFormed, Orderly, Stepwise;
    if i >= min {
      var heavy := choose || i <= PERCEPTIBLE_APP_ADJ;
      var a := DrainSlot(st, i, heavy, 0, w, t);
      DrainOrderly(st, i, heavy, 0, w, t);
      if a.killed != 0 {
        OrderlyWider(st, a, i, i, min, i, w, t);
      } else {
        var rest := ScanDown(a.st, i - 1, min, choose, w, a.t);
        ScanOrderly(a.st, i - 1, min, choose, w, a.t);
        GiveUpThenScan(st, a, rest, i, min, w, t);
      }
    } else {
      NothingOrderly(st, min, i, w, t);
    }
  }

  /** find_and_kill_process, seen from outside: whom it tries, in which order, and what is left. */
  lemma FindAndKillOrderly(st: State, min: int, choose: bool, w: World, t: nat, debuggable: bool, script: int)
    requires WellFormed(st) && OOM_SCORE_ADJ_MIN <= min
    ensures var r := FindAndKill(st, min, choose, w, t, debuggable, script);
            && Orderly(st, r.st, r.attempts, min, OOM_SCORE_ADJ_MAX, w, t, r.t) && Stepwise(r.attempts)
            && (var size := if r.attempts == [] then 0 else r.attempts[|r.attempts| - 1].result;
                r.killed == if size == 0 && min == 0 && debuggable then script else size)
  {
    hide ScanDown, Shape, FdsOwned, AccountsFor;
    ScanOrderly(st, OOM_SCORE_ADJ_MAX, min, choose, w, t);
  }

  // ---------- whom a scan tries first ----------

  /** The candidate slot j offers if no slot above it offers one. */
  function Offer(st: State, i: int, j: OomAdj, choose: bool, w: World, t: nat): Option<int>
    requires |st.slots| == ADJTOSLOT_COUNT && j <= i
  {
    Select(st, j, choose || j <= PERCEPTIBLE_APP_ADJ, w, t + (i - j)).pid
  }

  lemma SelectElsewhere(st: State, i: OomAdj, heaviest: bool, w: World, t: nat, j: OomAdj)
    requires WellFormed(st) && i != j
    ensures Select(st, i, heaviest, w, t).st.slots[AdjToSlot(j)] == st.slots[AdjToSlot(j)]
  {
    if heaviest {
      var gone := Unreadable(w, t, st.slots[AdjToSlot(i)]);
      forall x | x in st.slots[AdjToSlot(j)] ensures x !in gone {
        assert x in st.slots[AdjToSlot(j)] && AdjToSlot(st.recs[x].oomadj) == AdjToSlot(j);
      }
      DropNothing(st.slots[AdjToSlot(j)], gone);
    }
  }

  lemma SameSlotSamePick(a: State, b: State, j: OomAdj, heaviest: bool, w: World, t: nat)
    requires |a.slots| == |b.slots| == ADJTOSLOT_COUNT && a.slots[AdjToSlot(j)] == b.slots[AdjToSlot(j)]
    ensures Select(a, j, heaviest, w, t).pid == Select(b, j, heaviest, w, t).pid
  {
  }

  lemma SlotFirst(st: State, adj: OomAdj, heaviest: bool, w: World, t: nat)
    requires WellFormed(st)
    ensures |st.slots| == ADJTOSLOT_COUNT
    ensures var p := Select(st, adj, heaviest, w, t);
            var a := DrainSlot(st, adj, heaviest, 0, w, t);
            && |a.st.slots| == ADJTOSLOT_COUNT
            && (p.pid.None? <==> a.attempts == [])
            && (p.pid.None? ==> a == Scan(p.st, [], 0, t + 1))
            && (p.pid.Some? ==> a.attempts[0].pid == p.pid.value && a.attempts[0].rec.oomadj == adj)
  {
    hide KillOne, Select, Shape, FdsOwned;
    SelectWellFormed(st, adj, heaviest, w, t);
    var p := Select(st, adj, heaviest, w, t);
    if p.pid.Some? {
      KillOneKeeps(p.st, p.pid.value, w.probe(t, p.pid.value));
    }
  }

  /**
   The first attempt is on the record offered by the highest slot that offers one, and no
   attempt at all means that no slot down to `min` offers one.
   */
  lemma {:induction false} ScanFirst(st: State, i: int, min: int, choose: bool, w: World, t: nat)
    requires WellFormed(st) && OOM_SCORE_ADJ_MIN <= min && i <= OOM_SCORE_ADJ_MAX
    ensures var atts := ScanDown(st, i, min, choose, w, t).attempts;
            var top := if atts == [] then min - 1 else atts[0].rec.oomadj;
            && (min - 1 <= top <= i || i < min)
            && (forall j: OomAdj :: top < j <= i && min <= j ==> Offer(st, i, j, choose, w, t) == None)
            && (atts != [] ==> min <= top <= i && Offer(st, i, top, choose, w, t) == Some(atts[0].pid))
    decreases i - min + 1
  {
    hide DrainSlot, Select, WellFormed;
    if i >= min {
      var heavy := choose || i <= PERCEPTIBLE_APP_ADJ;
      SlotFirst(st, i, heavy, w, t);
      var a := DrainSlot(st, i, heavy, 0, w, t);
      if a.attempts == [] {
        ScanFirst(a.st, i - 1, min, choose, w, t + 1);
        assert ScanDown(st, i, min, choose, w, t).attempts == [] + ScanDown(a.st, i - 1, min, choose, w, t + 1).attempts;
        forall j: OomAdj | min <= j < i
          ensures Offer(a.st, i - 1, j, choose, w, t + 1) == Offer(st, i, j, choose, w, t)
        {
          SelectElsewhere(st, i, heavy, w, t, j);
          SameSlotSamePick(st, a.st, j, choose || j <= PERCEPTIBLE_APP_ADJ, w, t + (i - j));
        }
      } else {
        assert ScanDown(st, i, min, choose, w, t).attempts[0] == a.attempts[0];
      }
    }
  }

  /**
   When every attempt frees memory there is at most one, on the record offered by the highest
   slot at or above `min` that offers one.
   */
  lemma OneVictim(st: State, min: int, choose: bool, w: World, t: nat, debuggable: bool, script: int)
    requires WellFormed(st) && OOM_SCORE_ADJ_MIN <= min
    requires var atts := FindAndKill(st, min, choose, w, t, debuggable, script).attempts;
             forall k :: 0 <= k < |atts| ==> atts[k].result > 0
    ensures var r := FindAndKill(st, min, choose, w, t, debuggable, script);
            if r.attempts == []
            then forall j: OomAdj :: min <= j ==> Offer(st, OOM_SCORE_ADJ_MAX, j, choose, w, t) == None
            else
              && |r.attempts| == 1 && r.killed == r.attempts[0].result
              && min <= r.attempts[0].rec.oomadj
              && Offer(st, OOM_SCORE_ADJ_MAX, r.attempts[0].rec.oomadj, choose, w, t) == Some(r.attempts[0].pid)
              && forall j: OomAdj :: r.attempts[0].rec.oomadj < j ==> Offer(st, OOM_SCORE_ADJ_MAX, j, choose, w, t) == None
  {
    hide ScanDown, Shape, FdsOwned, AccountsFor, Select;
    ScanOrderly(st, OOM_SCORE_ADJ_MAX, min, choose, w, t);
    ScanFirst(st, OOM_SCORE_ADJ_MAX, min, choose, w, t);
    var atts := FindAndKill(st, min, choose, w, t, debuggable, script).attempts;
    assert |atts| > 1 ==> Follows(atts[0], atts[1]);
  }

  // ---------- descriptors over a whole scan ----------

  function DoubleCloses(atts: seq<Attempt>): nat {
    if atts == [] then 0 else (if atts[0].DoubleClose() then 1 else 0) + DoubleCloses(atts[1..])
  }

  lemma {:induction false} DoubleClosesAppend(a: seq<Attempt>, b: seq<Attempt>)
    ensures DoubleCloses(a + b) == DoubleCloses(a) + DoubleCloses(b)
  {
    if a == [] {
      assert a + b == b;
    } else {
      DoubleClosesAppend(a[1..], b);
      assert (a + b)[1..] == a[1..] + b;
    }
  }

  ghost predicate FdsAccounted(st: State, r: Scan) {
    && r.st.strayCloses == st.strayCloses + DoubleCloses(r.attempts)
    && (st.openFds == OwnedFds(st) ==> r.st.openFds == OwnedFds(r.st))
  }

  lemma RemoveAllFds(st: State, gone: set<int>)
    requires WellFormed(st)
    ensures st.openFds == OwnedFds(st) ==> RemoveAll(st, gone).openFds == OwnedFds(RemoveAll(st, gone))
  {
    LiveFdsRemove(st, gone);
    RemoveAllWellFormed(st, gone);
  }

  lemma {:induction false} DrainFds(st: State, adj: OomAdj, heaviest: bool, killed: int, w: World, t: nat)
    requires WellFormed(st)
    ensures FdsAccounted(st, DrainSlot(st, adj, heaviest, killed, w, t))
    decreases st.recs.Keys
  {
    SelectWellFormed(st, adj, heaviest, w, t);
    RemoveAllFds(st, Unreadable(w, t, st.slots[AdjToSlot(adj)]));
    var p := Select(st, adj, heaviest, w, t);
    if p.pid.Some? {
      var pid := p.pid.value;
      var pr := w.probe(t, pid);
      KillOneKeeps(p.st, pid, pr);
      KillOneFds(p.st, pid, pr);
      var o := KillOne(p.st, pid, pr);
      assert DoubleCloses([o.att]) == if o.att.DoubleClose() then 1 else 0;
      if o.att.result < 0 {
        assert pid in st.recs.Keys && pid !in o.st.recs.Keys;
        DrainFds(o.st, adj, heaviest, o.att.result, w, t + 1);
        DoubleClosesAppend([o.att], DrainSlot(o.st, adj, heaviest, o.att.result, w, t + 1).attempts);
      }
    }
  }

  lemma {:induction false} ScanFds(st: State, i: int, min: int, choose: bool, w: World, t: nat)
    requires WellFormed(st) && OOM_SCORE_ADJ_MIN <= min && i <= OOM_SCORE_ADJ_MAX
    ensures FdsAccounted(st, ScanDown(st, i, min, choose, w, t))
    decreases i - min + 1
  {
    hide DrainSlot, Shape, FdsOwned;
    if i >= min {
      var heavy := choose || i <= PERCEPTIBLE_APP_ADJ;
      var a := DrainSlot(st, i, heavy, 0, w, t);
      DrainFds(st, i, heavy, 0, w, t);
      if a.killed == 0 {
        ScanFds(a.st, i - 1, min, choose, w, a.t);
        DoubleClosesAppend(a.attempts, ScanDown(a.st, i - 1, min, choose, w, a.t).attempts);
      }
    }
  }
}
