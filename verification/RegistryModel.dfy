/**
 The process registry as plain values: one record per pid, one sequence of pids per
 oom_score_adj slot, and the descriptor bookkeeping that registration and removal touch.

 Position 0 of a slot is the record slotted last (`head->next` in the ring) and the last
 position is the least recently slotted one (`adjslot_tail`).
 */
module RegistryModel {

  const OOM_SCORE_ADJ_MIN := -1000
  const OOM_SCORE_ADJ_MAX := 1000
  const ADJTOSLOT_COUNT := 2001

  type OomAdj = a: int | OOM_SCORE_ADJ_MIN <= a <= OOM_SCORE_ADJ_MAX witness 0

  function AdjToSlot(adj: OomAdj): (s: nat)
    ensures s < ADJTOSLOT_COUNT
  {
    adj - OOM_SCORE_ADJ_MIN
  }

  /** Every slot belongs to exactly one adj. */
  lemma SlotOfOneAdj(s: nat)
    requires s < ADJTOSLOT_COUNT
    ensures exists a: OomAdj :: AdjToSlot(a) == s
    ensures forall a: OomAdj, b: OomAdj :: AdjToSlot(a) == AdjToSlot(b) ==> a == b
  {
    var a: OomAdj := s + OOM_SCORE_ADJ_MIN;
    assert AdjToSlot(a) == s;
  }

  datatype Rec = Rec(pidfd: int, uid: int, oomadj: OomAdj, regPid: int, valid: bool)

  /**
   `openFds` are the pidfds open in the daemon, `strayCloses` counts calls of close() on a
   pidfd that is not open, `lastKill` is last_kill_pid_or_fd (negative: not waiting).
   */
  datatype State = State(
    recs: map<int, Rec>,
    slots: seq<seq<int>>,
    openFds: set<int>,
    strayCloses: nat,
    lastKill: int,
    pidfdSupported: bool)

  // ---------- sequences of pids ----------

  predicate NoDup(xs: seq<int>) {
    forall i, j :: 0 <= i < j < |xs| ==> xs[i] != xs[j]
  }

  /** `xs` without the members of `gone`, order kept. */
  function Drop(xs: seq<int>, gone: set<int>): (ys: seq<int>) {
    if xs == [] then []
    else if xs[0] in gone then Drop(xs[1..], gone)
    else [xs[0]] + Drop(xs[1..], gone)
  }

  lemma {:induction false} DropKeeps(xs: seq<int>, gone: set<int>)
    ensures forall x :: x in Drop(xs, gone) <==> x in xs && x !in gone
    ensures NoDup(xs) ==> NoDup(Drop(xs, gone))
  {
    if xs != [] {
      DropKeeps(xs[1..], gone);
      assert forall x :: x in xs <==> x == xs[0] || x in xs[1..];
      if NoDup(xs) {
        var x := xs[0];
        assert x !in xs[1..];
        assert x !in Drop(xs[1..], gone);
      }
    }
  }

  lemma {:induction false} DropNothing(xs: seq<int>, gone: set<int>)
    requires forall x :: x in xs ==> x !in gone
    ensures Drop(xs, gone) == xs
  {
    if xs != [] {
      var x := xs[0];
      assert x in xs && x !in gone;
      DropNothing(xs[1..], gone);
      assert xs == [xs[0]] + xs[1..];
    }
  }

  lemma {:induction false} DropConcat(xs: seq<int>, ys: seq<int>, gone: set<int>)
    ensures Drop(xs + ys, gone) == Drop(xs, gone) + Drop(ys, gone)
  {
    if xs == [] {
      assert xs + ys == ys;
    } else {
      DropConcat(xs[1..], ys, gone);
      assert (xs + ys)[1..] == xs[1..] + ys && (xs + ys)[0] == xs[0];
      var rest, tail := Drop(xs[1..], gone), Drop(ys, gone);
      assert [xs[0]] + (rest + tail) == ([xs[0]] + rest) + tail;
    }
  }

  /** Dropping one element of a duplicate-free sequence cuts it out at its position. */
  lemma {:induction false} DropAt(xs: seq<int>, k: nat)
    requires NoDup(xs) && k < |xs|
    ensures Drop(xs, {xs[k]}) == xs[..k] + xs[k + 1..]
  {
    var rest := xs[1..];
    if k == 0 {
      DropNothing(rest, {xs[0]});
      assert xs[..0] + rest == rest;
    } else {
      DropAt(rest, k - 1);
      assert rest[k - 1] == xs[k] && xs[0] != xs[k];
      assert rest[..k - 1] == xs[1..k] && rest[k..] == xs[k + 1..];
      assert [xs[0]] + (xs[1..k] + xs[k + 1..]) == xs[..k] + xs[k + 1..];
    }
  }

  lemma {:induction false} DropTwice(xs: seq<int>, a: set<int>, b: set<int>)
    ensures Drop(Drop(xs, a), b) == Drop(xs, a + b)
  {
    if xs != [] {
      DropTwice(xs[1..], a, b);
    }
  }

  function DropAll(slots: seq<seq<int>>, gone: set<int>): (r: seq<seq<int>>)
    ensures |r| == |slots|
    ensures forall s :: 0 <= s < |r| ==> r[s] == Drop(slots[s], gone)
  {
    seq(|slots|, s requires 0 <= s < |slots| => Drop(slots[s], gone))
  }

  /** Cutting or keeping the element that follows the part already gone through. */
  lemma CutAfter(kept: seq<int>, xs: seq<int>, j: nat)
    requires j < |xs|
    ensures var ys := kept + xs[j..];
            && |kept| < |ys| && ys[|kept|] == xs[j]
            && ys[..|kept|] + ys[|kept| + 1..] == kept + xs[j + 1..]
            && ys == (kept + [xs[j]]) + xs[j + 1..]
  {
  }

  function Members(xs: seq<int>): (r: set<int>) {
    set x | x in xs
  }

  lemma MembersSplit(xs: seq<int>, k: nat)
    requires k < |xs|
    ensures Members(xs[..k + 1]) == Members(xs[..k]) + {xs[k]}
  {
    assert xs[..k + 1] == xs[..k] + [xs[k]];
  }

  // ---------- invariants ----------

  /** The rings index exactly the records, each at the slot of its adj and only once. */
  ghost predicate Shape(recs: map<int, Rec>, slots: seq<seq<int>>) {
    && |slots| == ADJTOSLOT_COUNT
    && (forall p :: p in recs ==> p > 0)
    && (forall s, p :: 0 <= s < ADJTOSLOT_COUNT ==>
          (p in slots[s] <==> p in recs && AdjToSlot(recs[p].oomadj) == s))
    && (forall s :: 0 <= s < ADJTOSLOT_COUNT ==> NoDup(slots[s]))
  }

  lemma ShapeAt(recs: map<int, Rec>, slots: seq<seq<int>>, s: nat, i: nat)
    requires Shape(recs, slots) && s < ADJTOSLOT_COUNT && i < |slots[s]|
    ensures slots[s][i] in recs && AdjToSlot(recs[slots[s][i]].oomadj) == s
  {
    var x := slots[s][i];
    assert x in slots[s];
  }

  /** Each ring holds only records, of its adj and once; some records may be in no ring. */
  ghost predicate Loose(recs: map<int, Rec>, slots: seq<seq<int>>) {
    && |slots| == ADJTOSLOT_COUNT
    && (forall p :: p in recs ==> p > 0)
    && (forall s, p :: 0 <= s < ADJTOSLOT_COUNT && p in slots[s] ==> p in recs && AdjToSlot(recs[p].oomadj) == s)
    && (forall s :: 0 <= s < ADJTOSLOT_COUNT ==> NoDup(slots[s]))
  }

  lemma LooseAt(recs: map<int, Rec>, slots: seq<seq<int>>, s: nat, i: nat)
    requires Loose(recs, slots) && s < ADJTOSLOT_COUNT && i < |slots[s]|
    ensures slots[s][i] in recs && AdjToSlot(recs[slots[s][i]].oomadj) == s && slots[s][i] > 0
  {
    var x := slots[s][i];
    assert x in slots[s];
  }

  lemma ShapeIsLoose(recs: map<int, Rec>, slots: seq<seq<int>>)
    requires Shape(recs, slots)
    ensures Loose(recs, slots)
  {
  }

  /** The registry between proc_unslot and proc_slot: the record is in no ring, its adj the old or the new one. */
  function Unslotted(st: State, pid: int, adj: OomAdj): State
    requires pid in st.recs
  {
    st.(recs := st.recs[pid := st.recs[pid].(oomadj := adj)], slots := DropAll(st.slots, {pid}))
  }

  /** It is never well formed, but its rings still hold only what belongs to them. */
  lemma UnslottedIsLoose(st: State, pid: int, adj: OomAdj)
    requires |st.slots| == ADJTOSLOT_COUNT && Shape(st.recs, st.slots) && pid in st.recs
    ensures var m := Unslotted(st, pid, adj); Loose(m.recs, m.slots) && !Shape(m.recs, m.slots)
    ensures forall s :: 0 <= s < ADJTOSLOT_COUNT ==> pid !in Unslotted(st, pid, adj).slots[s]
  {
    var m := Unslotted(st, pid, adj);
    forall s | 0 <= s < ADJTOSLOT_COUNT
      ensures NoDup(m.slots[s]) && forall p :: p in m.slots[s] <==> p in st.slots[s] && p != pid
    {
      DropKeeps(st.slots[s], {pid});
    }
    var s := AdjToSlot(adj);
    assert !(pid in m.slots[s] <==> pid in m.recs && AdjToSlot(m.recs[pid].oomadj) == s);
  }

  /** Every live record owns an open pidfd of its own, and so does the wait for a death. */
  ghost predicate FdsOwned(st: State) {
    && (forall p :: p in st.recs ==>
          if st.pidfdSupported
          then st.recs[p].pidfd >= 0 && st.recs[p].pidfd in st.openFds && st.recs[p].pidfd != st.lastKill
          else st.recs[p].pidfd == -1)
    && (st.pidfdSupported ==>
          forall p, q :: p in st.recs && q in st.recs && p != q ==> st.recs[p].pidfd != st.recs[q].pidfd)
    && (st.pidfdSupported && st.lastKill >= 0 ==> st.lastKill in st.openFds)
  }

  ghost predicate WellFormed(st: State) {
    |st.slots| == ADJTOSLOT_COUNT && Shape(st.recs, st.slots) && FdsOwned(st)
  }

  lemma SlotCount(st: State)
    requires WellFormed(st)
    ensures |st.slots| == ADJTOSLOT_COUNT
  {
  }

  function LiveFds(recs: map<int, Rec>): set<int> {
    set p | p in recs && recs[p].pidfd >= 0 :: recs[p].pidfd
  }

  /** The pidfds of live records together with the one being waited on. */
  function OwnedFds(st: State): set<int> {
    LiveFds(st.recs) + (if st.pidfdSupported && st.lastKill >= 0 then {st.lastKill} else {})
  }

  function Init(pidfdSupported: bool): (st: State)
    ensures WellFormed(st) && st.openFds == OwnedFds(st)
  {
    State(map[], seq(ADJTOSLOT_COUNT, s => []), {}, 0, -1, pidfdSupported)
  }

  // ---------- descriptors ----------

  function Close(st: State, fd: int): (r: State) {
    if fd in st.openFds then st.(openFds := st.openFds - {fd})
    else st.(strayCloses := st.strayCloses + 1)
  }

  // ---------- slots ----------

  /** proc_slot: the record becomes the most recently slotted one of its slot. */
  function Slotted(slots: seq<seq<int>>, pid: int, adj: OomAdj): (r: seq<seq<int>>)
    requires |slots| == ADJTOSLOT_COUNT
  {
    slots[AdjToSlot(adj) := [pid] + slots[AdjToSlot(adj)]]
  }

  // ---------- removal ----------

  /** pid_remove: unindex the record and close its pidfd unless its death is being awaited. */
  function Remove(st: State, pid: int): (r: State) {
    if pid !in st.recs then st
    else
      var fd := st.recs[pid].pidfd;
      var st1 := st.(recs := st.recs - {pid}, slots := DropAll(st.slots, {pid}));
      if fd >= 0 && fd != st.lastKill then Close(st1, fd) else st1
  }

  function ClosedFds(st: State, gone: set<int>): set<int> {
    set p | p in gone && p in st.recs && st.recs[p].pidfd >= 0 && st.recs[p].pidfd != st.lastKill
      :: st.recs[p].pidfd
  }

  /** Removal of a whole set of records at once. */
  function RemoveAll(st: State, gone: set<int>): (r: State) {
    st.(recs := st.recs - gone,
        slots := DropAll(st.slots, gone),
        openFds := st.openFds - ClosedFds(st, gone))
  }

  lemma DropAllShape(recs: map<int, Rec>, slots: seq<seq<int>>, gone: set<int>)
    requires Shape(recs, slots)
    ensures Shape(recs - gone, DropAll(slots, gone))
  {
    var r := DropAll(slots, gone);
    forall s | 0 <= s < ADJTOSLOT_COUNT
      ensures NoDup(r[s])
      ensures forall p :: p in r[s] <==> p in slots[s] && p !in gone
    {
      DropKeeps(slots[s], gone);
    }
  }

  lemma LiveFdsRemove(st: State, gone: set<int>)
    requires FdsOwned(st)
    ensures LiveFds(st.recs - gone) == LiveFds(st.recs) - ClosedFds(st, gone)
    ensures st.lastKill >= 0 && st.pidfdSupported ==> st.lastKill !in LiveFds(st.recs)
  {
    var rest := st.recs - gone;
    forall fd | fd in LiveFds(st.recs) && fd !in ClosedFds(st, gone) ensures fd in LiveFds(rest) {
      var p :| p in st.recs && st.recs[p].pidfd >= 0 && st.recs[p].pidfd == fd;
      assert p in rest;
    }
  }

  lemma RemoveAllWellFormed(st: State, gone: set<int>)
    requires WellFormed(st)
    ensures WellFormed(RemoveAll(st, gone))
  {
    DropAllShape(st.recs, st.slots, gone);
  }

  lemma RemoveAllNone(st: State, gone: set<int>)
    requires WellFormed(st)
    requires gone !! st.recs.Keys
    ensures RemoveAll(st, gone) == st
  {
    forall s | 0 <= s < |st.slots| ensures Drop(st.slots[s], gone) == st.slots[s] {
      DropNothing(st.slots[s], gone);
    }
    assert st.recs - gone == st.recs;
  }

  /** On a well-formed registry one more pid_remove extends a bulk removal by that pid. */
  lemma RemoveAllStep(st: State, gone: set<int>, pid: int)
    requires WellFormed(st)
    ensures Remove(RemoveAll(st, gone), pid) == RemoveAll(st, gone + {pid})
  {
    var mid := RemoveAll(st, gone);
    var end := RemoveAll(st, gone + {pid});
    forall s | 0 <= s < |st.slots| ensures Drop(Drop(st.slots[s], gone), {pid}) == Drop(st.slots[s], gone + {pid}) {
      DropTwice(st.slots[s], gone, {pid});
    }
    assert mid.recs - {pid} == end.recs;
    assert DropAll(mid.slots, {pid}) == end.slots;
    if pid !in mid.recs {
      RemoveAllWellFormed(st, gone);
      assert mid.slots == end.slots by {
        forall s | 0 <= s < |st.slots| ensures Drop(mid.slots[s], {pid}) == mid.slots[s] {
          DropNothing(mid.slots[s], {pid});
        }
      }
      assert mid.recs == end.recs;
      assert mid.openFds == end.openFds;
    } else {
      var fd := st.recs[pid].pidfd;
      assert fd >= 0 && fd != st.lastKill ==> ClosedFds(st, gone + {pid}) == ClosedFds(st, gone) + {fd};
      assert fd < 0 ==> ClosedFds(st, gone + {pid}) == ClosedFds(st, gone);
    }
  }

  lemma RemoveAllTwice(st: State, a: set<int>, b: set<int>)
    requires WellFormed(st)
    ensures RemoveAll(RemoveAll(st, a), b) == RemoveAll(st, a + b)
  {
    forall s | 0 <= s < |st.slots| ensures Drop(Drop(st.slots[s], a), b) == Drop(st.slots[s], a + b) {
      DropTwice(st.slots[s], a, b);
    }
    assert ClosedFds(st, a + b) == ClosedFds(st, a) + ClosedFds(RemoveAll(st, a), b);
    assert (st.recs - a) - b == st.recs - (a + b);
  }

  lemma RemoveOne(st: State, pid: int)
    requires WellFormed(st)
    ensures Remove(st, pid) == RemoveAll(st, {pid})
    ensures WellFormed(Remove(st, pid))
  {
    RemoveAllNone(st, {});
    RemoveAllStep(st, {}, pid);
    assert {} + {pid} == {pid};
    RemoveAllWellFormed(st, {pid});
  }

  // ---------- client commands ----------

  const PROC_TYPE_APP := 0
  const PROC_TYPE_COUNT := 2

  /** struct lmk_procprio as received from a client. */
  datatype Request = Request(pid: int, uid: int, oomadj: int, ptype: int)

  /** What the system answers while one request is served. */
  datatype Answers = Answers(
    tgidOk: bool,       // the pid is a thread group leader, or its status is unreadable
    writeOk: bool,      // /proc/<pid>/oom_score_adj could be opened
    cgroupOk: bool,     // the MemSoftLimit path was found
    newFd: int,         // pidfd_open, negative on failure
    allocOk: bool)      // calloc

  predicate Claimable(rec: Rec, client: int) {
    rec.regPid == client || rec.regPid == 0
  }

  /** With per-application memcgs an application at 600..699 (the launcher) is kept at 200. */
  function EffectiveAdj(req: Request, perAppMemcg: bool): int {
    if req.ptype == PROC_TYPE_APP && perAppMemcg && 600 <= req.oomadj < 700 then 200 else req.oomadj
  }

  /** The kernel never hands out a descriptor number that is already open. */
  predicate FreshFd(st: State, env: Answers) {
    env.newFd >= 0 ==> env.newFd !in st.openFds
  }

  predicate InRange(adj: int) {
    OOM_SCORE_ADJ_MIN <= adj <= OOM_SCORE_ADJ_MAX
  }

  /** A pid seen for the first time: its pidfd stays open even when no record can be allocated. */
  function RegisterFresh(st: State, req: Request, client: int, adj: OomAdj, env: Answers): (r: State)
    requires |st.slots| == ADJTOSLOT_COUNT
    ensures |r.slots| == ADJTOSLOT_COUNT
  {
    if st.pidfdSupported && env.newFd < 0 then st
    else
      var fd := if st.pidfdSupported then env.newFd else -1;
      var st1 := if st.pidfdSupported then st.(openFds := st.openFds + {fd}) else st;
      if !env.allocOk then st1
      else
        st1.(recs := st.recs[req.pid := Rec(fd, req.uid, adj, client, true)],
             slots := Slotted(st.slots, req.pid, adj))
  }

  /** A known pid: its claimant, or anyone once it is unclaimed, moves it to another slot. */
  function RegisterKnown(st: State, pid: int, client: int, adj: OomAdj): (r: State)
    requires |st.slots| == ADJTOSLOT_COUNT && pid in st.recs
    ensures |r.slots| == ADJTOSLOT_COUNT
  {
    if !Claimable(st.recs[pid], client) then st
    else
      st.(recs := st.recs[pid := st.recs[pid].(oomadj := adj, regPid := client)],
          slots := Slotted(DropAll(st.slots, {pid}), pid, adj))
  }

  /** register_oom_adj_proc */
  function Register(st: State, req: Request, client: int, perAppMemcg: bool, env: Answers): (r: State)
    requires |st.slots| == ADJTOSLOT_COUNT && InRange(req.oomadj)
    ensures |r.slots| == ADJTOSLOT_COUNT
  {
    var adj: OomAdj := EffectiveAdj(req, perAppMemcg);
    if req.ptype == PROC_TYPE_APP && perAppMemcg && !env.cgroupOk then st
    else if req.pid !in st.recs then RegisterFresh(st, req, client, adj, env)
    else RegisterKnown(st, req.pid, client, adj)
  }

  /** apply_proc_prio, for the userspace killer. */
  function ApplyProcPrio(st: State, req: Request, client: int, perAppMemcg: bool, env: Answers): (r: State)
    requires |st.slots| == ADJTOSLOT_COUNT
    ensures |r.slots| == ADJTOSLOT_COUNT
  {
    if !InRange(req.oomadj) || !(0 <= req.ptype < PROC_TYPE_COUNT) || !env.tgidOk || !env.writeOk then st
    else Register(st, req, client, perAppMemcg, env)
  }

  /** The request is well formed, its process is there, and it may be recorded for this client. */
  predicate Accepted(st: State, req: Request, client: int, perAppMemcg: bool, env: Answers) {
    && InRange(req.oomadj) && 0 <= req.ptype < PROC_TYPE_COUNT && env.tgidOk && env.writeOk
    && (req.ptype == PROC_TYPE_APP && perAppMemcg ==> env.cgroupOk)
    && (if req.pid in st.recs then Claimable(st.recs[req.pid], client)
        else env.allocOk && (st.pidfdSupported ==> env.newFd >= 0))
  }

  /** cmd_procremove */
  function ProcRemove(st: State, pid: int, client: int): (r: State) {
    if pid in st.recs && Claimable(st.recs[pid], client) then Remove(st, pid) else st
  }

  function ClaimableBy(st: State, client: int): set<int> {
    set p | p in st.recs && Claimable(st.recs[p], client)
  }

  /** cmd_procpurge */
  function Purge(st: State, client: int): (r: State) {
    RemoveAll(st, ClaimableBy(st, client))
  }

  lemma {:induction false} DropAgree(xs: seq<int>, a: set<int>, b: set<int>)
    requires forall i :: 0 <= i < |xs| ==> (xs[i] in a <==> xs[i] in b)
    ensures Drop(xs, a) == Drop(xs, b)
  {
    if xs != [] {
      assert xs[0] in a <==> xs[0] in b;
      DropAgree(xs[1..], a, b);
    }
  }

  /** A duplicate-free sequence from which the members of `gone` among its first j are dropped. */
  lemma SweepSeq(xs: seq<int>, gone: set<int>, j: nat)
    requires NoDup(xs) && j <= |xs|
    ensures Drop(xs, Members(xs[..j]) * gone) == Drop(xs[..j], gone) + xs[j..]
  {
    var seen := Members(xs[..j]) * gone;
    assert xs == xs[..j] + xs[j..];
    DropConcat(xs[..j], xs[j..], seen);
    forall i | 0 <= i < |xs[..j]| ensures xs[..j][i] in seen <==> xs[..j][i] in gone {
      var x := xs[..j][i];
      assert x in xs[..j];
    }
    DropAgree(xs[..j], seen, gone);
    forall x | x in xs[j..] ensures x !in seen {
    }
    DropNothing(xs[j..], seen);
  }

  lemma SweepNext(xs: seq<int>, gone: set<int>, j: nat)
    requires j < |xs| && NoDup(xs)
    ensures xs[j] !in Members(xs[..j])
    ensures Members(xs[..j + 1]) * gone == Members(xs[..j]) * gone + (if xs[j] in gone then {xs[j]} else {})
    ensures var kept := Drop(xs[..j], gone);
            Drop(xs[..j + 1], gone) == (if xs[j] in gone then kept else kept + [xs[j]])
  {
    MembersSplit(xs, j);
    assert xs[..j + 1] == xs[..j] + [xs[j]];
    DropConcat(xs[..j], [xs[j]], gone);
    assert [xs[j]][1..] == [];
  }

  /** A walk over records that removes those in `gone`: from j records to j + 1 records. */
  lemma SweepAlong(st: State, gone: set<int>, xs: seq<int>, j: nat)
    requires WellFormed(st) && j < |xs| && NoDup(xs) && (forall i :: 0 <= i < |xs| ==> xs[i] in st.recs)
    ensures var mid := RemoveAll(st, Members(xs[..j]) * gone);
            var kept := Drop(xs[..j], gone);
            && WellFormed(mid) && xs[j] in mid.recs && mid.recs[xs[j]] == st.recs[xs[j]]
            && (if xs[j] in gone then Remove(mid, xs[j]) else mid) == RemoveAll(st, Members(xs[..j + 1]) * gone)
            && Drop(xs[..j + 1], gone) == (if xs[j] in gone then kept else kept + [xs[j]])
  {
    hide WellFormed, Drop, Remove, DropAll, ClosedFds;
    var seen := Members(xs[..j]) * gone;
    RemoveAllWellFormed(st, seen);
    SweepNext(xs, gone, j);
    if xs[j] in gone {
      RemoveAllStep(st, seen, xs[j]);
    } else {
      assert seen + {} == seen;
    }
  }

  lemma SweepStart(st: State, gone: set<int>, xs: seq<int>)
    requires WellFormed(st)
    ensures RemoveAll(st, Members(xs[..0]) * gone) == st
    ensures Drop(xs[..0], gone) == [] && [] + xs[0..] == xs && xs[..|xs|] == xs
  {
    assert Members(xs[..0]) * gone == {};
    RemoveAllNone(st, {});
  }

  /** Purging one more group of records after the groups in `seen`. */
  lemma PurgeMore(st: State, client: int, seen: set<int>, more: set<int>)
    requires WellFormed(st)
    ensures var all := ClaimableBy(st, client);
            var mid := RemoveAll(st, seen * all);
            && WellFormed(mid)
            && RemoveAll(mid, more * ClaimableBy(mid, client)) == RemoveAll(st, (seen + more) * all)
  {
    var all := ClaimableBy(st, client);
    var mid := RemoveAll(st, seen * all);
    RemoveAllWellFormed(st, seen * all);
    RemoveAllTwice(st, seen * all, more * ClaimableBy(mid, client));
    assert seen * all + more * ClaimableBy(mid, client) == (seen + more) * all;
  }

  /** remove_claims, run when a client's connection closes. */
  function Unclaim(st: State, client: int): (r: State) {
    st.(recs := map p | p in st.recs ::
                  if st.recs[p].regPid == client then st.recs[p].(regPid := 0) else st.recs[p])
  }

  /** remove_claims restricted to the records in `done`. */
  function UnclaimIn(st: State, client: int, done: set<int>): (r: State) {
    st.(recs := map p | p in st.recs ::
                  if p in done && st.recs[p].regPid == client then st.recs[p].(regPid := 0) else st.recs[p])
  }

  lemma UnclaimParts(st: State, client: int, a: set<int>, b: set<int>)
    ensures UnclaimIn(UnclaimIn(st, client, a), client, b) == UnclaimIn(st, client, a + b)
    ensures st.recs.Keys <= a ==> UnclaimIn(st, client, a) == Unclaim(st, client)
    ensures UnclaimIn(st, client, {}) == st
  {
    assert UnclaimIn(st, client, {}).recs == st.recs;
  }

  lemma UnclaimNext(st: State, client: int, xs: seq<int>, k: nat)
    requires k < |xs|
    ensures UnclaimIn(UnclaimIn(st, client, Members(xs[..k])), client, {xs[k]})
            == UnclaimIn(st, client, Members(xs[..k + 1]))
  {
    MembersSplit(xs, k);
    UnclaimParts(st, client, Members(xs[..k]), {xs[k]});
  }

  /** pid_invalidate, run by the watchdog thread. */
  function Invalidate(st: State, pid: int): (r: State) {
    if pid in st.recs then st.(recs := st.recs[pid := st.recs[pid].(valid := false)]) else st
  }

  /** stop_wait_for_proc_kill */
  function StopWait(st: State): (r: State) {
    if st.lastKill < 0 then st
    else (if st.pidfdSupported then Close(st, st.lastKill) else st).(lastKill := -1)
  }

  /** start_wait_for_proc_kill; a failed epoll registration closes the descriptor at once. */
  function StartWait(st: State, pidOrFd: int, epollOk: bool): (r: State) {
    var st1 := StopWait(st).(lastKill := pidOrFd);
    if !st.pidfdSupported || epollOk then st1
    else Close(st1, pidOrFd).(lastKill := -1)
  }

  // ---------- every command keeps the registry well formed ----------

  lemma SlottedShape(recs: map<int, Rec>, slots: seq<seq<int>>, pid: int, rec: Rec)
    requires Shape(recs, slots) && pid !in recs && pid > 0
    ensures Shape(recs[pid := rec], Slotted(slots, pid, rec.oomadj))
  {
    var s0 := AdjToSlot(rec.oomadj);
    forall s | 0 <= s < ADJTOSLOT_COUNT ensures NoDup(Slotted(slots, pid, rec.oomadj)[s]) {
      if s == s0 {
        assert pid !in slots[s0];
      }
    }
  }

  lemma RegisterWellFormed(st: State, req: Request, client: int, perAppMemcg: bool, env: Answers)
    requires WellFormed(st) && InRange(req.oomadj) && req.pid > 0 && FreshFd(st, env)
    ensures WellFormed(Register(st, req, client, perAppMemcg, env))
  {
    var adj := EffectiveAdj(req, perAppMemcg);
    var r := Register(st, req, client, perAppMemcg, env);
    if req.pid !in st.recs {
      if req.pid in r.recs {
        SlottedShape(st.recs, st.slots, req.pid, r.recs[req.pid]);
      }
    } else if Claimable(st.recs[req.pid], client) && r.slots != st.slots {
      DropAllShape(st.recs, st.slots, {req.pid});
      SlottedShape(st.recs - {req.pid}, DropAll(st.slots, {req.pid}), req.pid, r.recs[req.pid]);
      assert (st.recs - {req.pid})[req.pid := r.recs[req.pid]] == r.recs;
    } else if r != st {
      assert r.slots == st.slots;
    }
  }

  lemma UnclaimWellFormed(st: State, client: int)
    requires WellFormed(st)
    ensures WellFormed(Unclaim(st, client))
  {
  }

  lemma InvalidateWellFormed(st: State, pid: int)
    requires WellFormed(st)
    ensures WellFormed(Invalidate(st, pid))
  {
  }

  lemma StopWaitWellFormed(st: State)
    requires WellFormed(st)
    ensures WellFormed(StopWait(st)) && StopWait(st).lastKill < 0
    ensures StopWait(st).strayCloses == st.strayCloses
  {
  }
}
