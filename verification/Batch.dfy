/**
 A batch of registrations (LMK_PROCS_PRIO): handled one by one, or through io_uring, where the
 writes complete in any order and every completion registers its process.
 */
module Batch {
  import opened Options
  import opened RegistryModel
  import opened Registry

  /** Every file operation on behalf of the request succeeds; `fd` is the pidfd if one is opened. */
  function Success(leader: bool, fd: int): Answers {
    Answers(leader, true, true, fd, true)
  }

  /** The request passes the checks on its arguments and names a thread group leader. */
  predicate Acceptable(req: Request, leader: bool) {
    InRange(req.oomadj) && 0 <= req.ptype < PROC_TYPE_COUNT && leader
  }

  ghost predicate DistinctPids(reqs: seq<Request>) {
    forall i, j :: 0 <= i < j < |reqs| ==> reqs[i].pid != reqs[j].pid
  }

  /** An order in which some of the requests are registered, with a pidfd for each. */
  datatype Turn = Turn(i: nat, fd: int)

  ghost predicate Indices(turns: seq<Turn>, reqs: seq<Request>) {
    && (forall k :: 0 <= k < |turns| ==> turns[k].i < |reqs| && InRange(reqs[turns[k].i].oomadj)
                                         && reqs[turns[k].i].pid > 0 && turns[k].fd >= 0)
    && (forall j, k :: 0 <= j < k < |turns| ==> turns[j].i != turns[k].i)
  }

  /** One registration in which every file operation succeeds. */
  function RegisterOne(st: State, req: Request, fd: int, client: int, memcg: bool): (r: State)
    requires |st.slots| == ADJTOSLOT_COUNT && InRange(req.oomadj)
    ensures |r.slots| == ADJTOSLOT_COUNT
  {
    Register(st, req, client, memcg, Success(true, fd))
  }

  /** The kernel never hands out a descriptor that is in use. */
  ghost predicate AllFresh(st: State, reqs: seq<Request>, turns: seq<Turn>, client: int, memcg: bool)
    requires WellFormed(st) && Indices(turns, reqs)
    decreases |turns|
  {
    turns == [] ||
    (&& turns[0].fd !in st.openFds
     && var st1 := RegisterOne(st, reqs[turns[0].i], turns[0].fd, client, memcg);
        WellFormed(st1) && AllFresh(st1, reqs, turns[1..], client, memcg))
  }

  /** The state after the registrations of `turns`, in that order. */
  ghost function RegisterAll(st: State, reqs: seq<Request>, turns: seq<Turn>, client: int, memcg: bool): (r: State)
    requires WellFormed(st) && Indices(turns, reqs) && AllFresh(st, reqs, turns, client, memcg)
    ensures WellFormed(r)
    decreases |turns|
  {
    if turns == [] then st
    else RegisterAll(RegisterOne(st, reqs[turns[0].i], turns[0].fd, client, memcg), reqs, turns[1..], client, memcg)
  }

  // ---------- what a batch leaves, whatever the order ----------

  /** A record without its descriptor number. */
  function Strip(rec: Rec): Rec {
    rec.(pidfd := 0)
  }

  function Lookup(st: State, p: int): Option<Rec> {
    if p in st.recs then Some(Strip(st.recs[p])) else None
  }

  /** The request of a batch that is about process p. */
  function RequestFor(reqs: seq<Request>, turns: seq<Turn>, p: int): Option<Request>
    requires forall k :: 0 <= k < |turns| ==> turns[k].i < |reqs|
  {
    if turns == [] then None
    else if reqs[turns[0].i].pid == p then Some(reqs[turns[0].i])
    else RequestFor(reqs, turns[1..], p)
  }

  /** What registering `req` makes of the record there was. */
  function Registered(was: Option<Rec>, req: Request, client: int, memcg: bool): Option<Rec>
    requires InRange(req.oomadj)
  {
    var adj: OomAdj := EffectiveAdj(req, memcg);
    match was
    case None => Some(Rec(0, req.uid, adj, client, true))
    case Some(rec) => if Claimable(rec, client) then Some(rec.(oomadj := adj, regPid := client)) else Some(rec)
  }

  lemma RegisterOneLookup(st: State, req: Request, fd: int, client: int, memcg: bool, p: int)
    requires WellFormed(st) && InRange(req.oomadj) && fd >= 0
    ensures Lookup(RegisterOne(st, req, fd, client, memcg), p)
            == if p == req.pid then Registered(Lookup(st, p), req, client, memcg) else Lookup(st, p)
  {
  }

  lemma {:induction false} RequestForFound(reqs: seq<Request>, turns: seq<Turn>, p: int)
    requires Indices(turns, reqs)
    ensures RequestFor(reqs, turns, p).Some? <==> exists k :: 0 <= k < |turns| && reqs[turns[k].i].pid == p
    ensures RequestFor(reqs, turns, p).Some? ==> InRange(RequestFor(reqs, turns, p).value.oomadj)
    ensures DistinctPids(reqs) ==>
              forall k :: 0 <= k < |turns| && reqs[turns[k].i].pid == p ==> RequestFor(reqs, turns, p) == Some(reqs[turns[k].i])
  {
    if turns != [] {
      RequestForFound(reqs, turns[1..], p);
      if exists k :: 0 <= k < |turns[1..]| && reqs[turns[1..][k].i].pid == p {
        var k :| 0 <= k < |turns[1..]| && reqs[turns[1..][k].i].pid == p;
        assert reqs[turns[k + 1].i].pid == p;
      }
      forall k | 0 < k < |turns| && reqs[turns[k].i].pid == p
        ensures DistinctPids(reqs) ==> reqs[turns[0].i].pid != p
        ensures reqs[turns[1..][k - 1].i].pid == p
      {
        assert turns[0].i != turns[k].i;
      }
    }
  }

  /** After a batch every process has the record its own request asks for, and others are untouched. */
  lemma {:induction false} BatchLookup(st: State, reqs: seq<Request>, turns: seq<Turn>, client: int, memcg: bool, p: int)
    requires WellFormed(st) && DistinctPids(reqs) && Indices(turns, reqs) && AllFresh(st, reqs, turns, client, memcg)
    ensures var req := RequestFor(reqs, turns, p);
            && (req.Some? ==> InRange(req.value.oomadj))
            && Lookup(RegisterAll(st, reqs, turns, client, memcg), p)
               == if req.None? then Lookup(st, p) else Registered(Lookup(st, p), req.value, client, memcg)
    decreases |turns|
  {
    RequestForFound(reqs, turns, p);
    if turns != [] {
      var st1 := RegisterOne(st, reqs[turns[0].i], turns[0].fd, client, memcg);
      RegisterOneLookup(st, reqs[turns[0].i], turns[0].fd, client, memcg, p);
      hide RegisterOne, Lookup, Registered, WellFormed;
      BatchLookup(st1, reqs, turns[1..], client, memcg, p);
      RequestForFound(reqs, turns[1..], p);
    }
  }

  /** Both orders serve the same requests. */
  ghost predicate SameTurns(a: seq<Turn>, b: seq<Turn>) {
    && (forall k :: 0 <= k < |a| ==> exists j :: 0 <= j < |b| && b[j].i == a[k].i)
    && (forall k :: 0 <= k < |b| ==> exists j :: 0 <= j < |a| && a[j].i == b[k].i)
  }

  lemma SameRequestFor(reqs: seq<Request>, a: seq<Turn>, b: seq<Turn>, p: int)
    requires DistinctPids(reqs) && Indices(a, reqs) && Indices(b, reqs) && SameTurns(a, b)
    ensures RequestFor(reqs, a, p) == RequestFor(reqs, b, p)
  {
    RequestForFound(reqs, a, p);
    RequestForFound(reqs, b, p);
    if RequestFor(reqs, a, p).Some? {
      var k :| 0 <= k < |a| && reqs[a[k].i].pid == p;
      var j :| 0 <= j < |b| && b[j].i == a[k].i;
      assert reqs[b[j].i].pid == p;
    }
    if RequestFor(reqs, b, p).Some? {
      var k :| 0 <= k < |b| && reqs[b[k].i].pid == p;
      var j :| 0 <= j < |a| && a[j].i == b[k].i;
      assert reqs[a[j].i].pid == p;
    }
  }

  /**
   For distinct pids, whatever the order in which the writes complete, the batch leaves the same
   records, descriptor numbers aside, and the same processes in every slot.
   */
  lemma AnyOrder(st: State, reqs: seq<Request>, a: seq<Turn>, b: seq<Turn>, client: int, memcg: bool)
    requires WellFormed(st) && DistinctPids(reqs) && Indices(a, reqs) && Indices(b, reqs) && SameTurns(a, b)
    requires AllFresh(st, reqs, a, client, memcg) && AllFresh(st, reqs, b, client, memcg)
    ensures var x := RegisterAll(st, reqs, a, client, memcg);
            var y := RegisterAll(st, reqs, b, client, memcg);
            && (forall p :: Lookup(x, p) == Lookup(y, p))
            && |x.slots| == |y.slots| == ADJTOSLOT_COUNT
            && (forall s :: 0 <= s < ADJTOSLOT_COUNT ==> Members(x.slots[s]) == Members(y.slots[s]))
  {
    var x := RegisterAll(st, reqs, a, client, memcg);
    var y := RegisterAll(st, reqs, b, client, memcg);
    forall p ensures Lookup(x, p) == Lookup(y, p) {
      BatchLookup(st, reqs, a, client, memcg, p);
      BatchLookup(st, reqs, b, client, memcg, p);
      SameRequestFor(reqs, a, b, p);
    }
    SameRecordsSameSlots(x, y);
  }

  lemma SameRecordsSameSlots(x: State, y: State)
    requires WellFormed(x) && WellFormed(y) && (forall p :: Lookup(x, p) == Lookup(y, p))
    ensures forall s :: 0 <= s < ADJTOSLOT_COUNT ==> Members(x.slots[s]) == Members(y.slots[s])
  {
    forall s | 0 <= s < ADJTOSLOT_COUNT ensures Members(x.slots[s]) == Members(y.slots[s]) {
      forall p ensures p in x.slots[s] <==> p in y.slots[s] {
        assert Lookup(x, p) == Lookup(y, p);
      }
    }
  }

  /** Completions in submission order leave the slots in the very same order. */
  lemma {:induction false} SameOrderSameSlots(st: State, st': State, reqs: seq<Request>, a: seq<Turn>, b: seq<Turn>, client: int, memcg: bool)
    requires WellFormed(st) && WellFormed(st') && Indices(a, reqs) && Indices(b, reqs)
    requires AllFresh(st, reqs, a, client, memcg) && AllFresh(st', reqs, b, client, memcg)
    requires |a| == |b| && (forall k :: 0 <= k < |a| ==> a[k].i == b[k].i)
    requires st.slots == st'.slots && st.pidfdSupported == st'.pidfdSupported && forall p :: Lookup(st, p) == Lookup(st', p)
    ensures RegisterAll(st, reqs, a, client, memcg).slots == RegisterAll(st', reqs, b, client, memcg).slots
    decreases |a|
  {
    if a != [] {
      var req := reqs[a[0].i];
      var st1 := RegisterOne(st, req, a[0].fd, client, memcg);
      var st1' := RegisterOne(st', req, b[0].fd, client, memcg);
      OneSameSlots(st, st', req, a[0].fd, b[0].fd, client, memcg);
      forall p ensures Lookup(st1, p) == Lookup(st1', p) {
        RegisterOneLookup(st, req, a[0].fd, client, memcg, p);
        RegisterOneLookup(st', req, b[0].fd, client, memcg, p);
      }
      hide RegisterOne, Lookup, WellFormed;
      SameOrderSameSlots(st1, st1', reqs, a[1..], b[1..], client, memcg);
    }
  }

  lemma OneSameSlots(st: State, st': State, req: Request, fd: int, fd': int, client: int, memcg: bool)
    requires WellFormed(st) && WellFormed(st') && InRange(req.oomadj) && fd >= 0 && fd' >= 0
    requires st.slots == st'.slots && st.pidfdSupported == st'.pidfdSupported && Lookup(st, req.pid) == Lookup(st', req.pid)
    ensures var x := RegisterOne(st, req, fd, client, memcg);
            var y := RegisterOne(st', req, fd', client, memcg);
            x.slots == y.slots && x.pidfdSupported == y.pidfdSupported
  {
  }

  // ---------- one by one ----------

  lemma FreshNext(st: State, reqs: seq<Request>, turns: seq<Turn>, client: int, memcg: bool)
    requires WellFormed(st) && Indices(turns, reqs) && AllFresh(st, reqs, turns, client, memcg) && turns != []
    ensures var st1 := RegisterOne(st, reqs[turns[0].i], turns[0].fd, client, memcg);
            && WellFormed(st1) && Indices(turns[1..], reqs) && AllFresh(st1, reqs, turns[1..], client, memcg)
            && RegisterAll(st, reqs, turns, client, memcg) == RegisterAll(st1, reqs, turns[1..], client, memcg)
            && FreshFd(st, Success(true, turns[0].fd))
  {
    hide WellFormed, RegisterOne;
  }

  lemma NothingLeft(st: State, reqs: seq<Request>, client: int, memcg: bool)
    requires WellFormed(st)
    ensures Indices([], reqs) && AllFresh(st, reqs, [], client, memcg) && RegisterAll(st, reqs, [], client, memcg) == st
  {
  }

  /** The acceptable requests from k on, in the order of the packet. */
  function InOrder(reqs: seq<Request>, leaders: seq<bool>, fds: seq<int>, k: nat): (r: seq<Turn>)
    requires |reqs| == |leaders| == |fds| && k <= |reqs|
    decreases |reqs| - k
  {
    if k == |reqs| then []
    else if Acceptable(reqs[k], leaders[k]) then [Turn(k, fds[k])] + InOrder(reqs, leaders, fds, k + 1)
    else InOrder(reqs, leaders, fds, k + 1)
  }

  /** Exactly the acceptable requests, in ascending order. */
  lemma {:induction false} InOrderExact(reqs: seq<Request>, leaders: seq<bool>, fds: seq<int>, k: nat)
    requires |reqs| == |leaders| == |fds| && k <= |reqs|
    ensures var r := InOrder(reqs, leaders, fds, k);
            && (forall j :: 0 <= j < |r| ==>
                  k <= r[j].i < |reqs| && r[j].fd == fds[r[j].i] && Acceptable(reqs[r[j].i], leaders[r[j].i]))
            && (forall i, j :: 0 <= i < j < |r| ==> r[i].i < r[j].i)
            && (forall i :: k <= i < |reqs| && Acceptable(reqs[i], leaders[i]) ==> Turn(i, fds[i]) in r)
    decreases |reqs| - k
  {
    if k < |reqs| {
      InOrderExact(reqs, leaders, fds, k + 1);
      var r, rest := InOrder(reqs, leaders, fds, k), InOrder(reqs, leaders, fds, k + 1);
      forall i | k <= i < |reqs| && Acceptable(reqs[i], leaders[i]) ensures Turn(i, fds[i]) in r {
        if i > k {
          assert Turn(i, fds[i]) in rest;
        } else {
          assert r[0] == Turn(i, fds[i]);
        }
      }
    }
  }

  /** apply_proc_prio on each request of the packet in turn, from the k-th on. */
  function OneByOne(st: State, reqs: seq<Request>, leaders: seq<bool>, fds: seq<int>, k: nat, client: int, memcg: bool): (r: State)
    requires |reqs| == |leaders| == |fds| && k <= |reqs| && |st.slots| == ADJTOSLOT_COUNT
    ensures |r.slots| == ADJTOSLOT_COUNT
    decreases |reqs| - k
  {
    if k == |reqs| then st
    else OneByOne(ApplyProcPrio(st, reqs[k], client, memcg, Success(leaders[k], fds[k])), reqs, leaders, fds, k + 1, client, memcg)
  }

  lemma ApplyIsRegister(st: State, req: Request, leader: bool, fd: int, client: int, memcg: bool)
    requires |st.slots| == ADJTOSLOT_COUNT
    ensures ApplyProcPrio(st, req, client, memcg, Success(leader, fd))
            == if Acceptable(req, leader) then RegisterOne(st, req, fd, client, memcg) else st
  {
  }

  lemma {:induction false} OneByOneIsInOrder(st: State, reqs: seq<Request>, leaders: seq<bool>, fds: seq<int>, k: nat, client: int, memcg: bool)
    requires |reqs| == |leaders| == |fds| && k <= |reqs| && WellFormed(st)
    requires Indices(InOrder(reqs, leaders, fds, k), reqs)
    requires AllFresh(st, reqs, InOrder(reqs, leaders, fds, k), client, memcg)
    ensures OneByOne(st, reqs, leaders, fds, k, client, memcg)
            == RegisterAll(st, reqs, InOrder(reqs, leaders, fds, k), client, memcg)
    decreases |reqs| - k
  {
    hide WellFormed, RegisterOne, ApplyProcPrio, Acceptable, RegisterAll, AllFresh, InOrder, Indices, Success;
    SlotCount(st);
    InOrderEnds(reqs, leaders, fds);
    if k < |reqs| {
      ApplyIsRegister(st, reqs[k], leaders[k], fds[k], client, memcg);
      InOrderNext(reqs, leaders, fds, k);
      if Acceptable(reqs[k], leaders[k]) {
        FreshNext(st, reqs, InOrder(reqs, leaders, fds, k), client, memcg);
        OneByOneIsInOrder(RegisterOne(st, reqs[k], fds[k], client, memcg), reqs, leaders, fds, k + 1, client, memcg);
      } else {
        OneByOneIsInOrder(st, reqs, leaders, fds, k + 1, client, memcg);
      }
    } else {
      NothingLeft(st, reqs, client, memcg);
    }
  }

  lemma InOrderEnds(reqs: seq<Request>, leaders: seq<bool>, fds: seq<int>)
    requires |reqs| == |leaders| == |fds|
    ensures InOrder(reqs, leaders, fds, |reqs|) == []
  {
  }

  lemma InOrderNext(reqs: seq<Request>, leaders: seq<bool>, fds: seq<int>, k: nat)
    requires |reqs| == |leaders| == |fds| && k < |reqs|
    ensures var turns := InOrder(reqs, leaders, fds, k);
            var rest := InOrder(reqs, leaders, fds, k + 1);
            if Acceptable(reqs[k], leaders[k])
            then InRange(reqs[k].oomadj) && turns != [] && turns[0] == Turn(k, fds[k]) && turns[1..] == rest
                 && (Indices(turns, reqs) ==> Indices(rest, reqs))
            else turns == rest
  {
  }

  /**
   The io_uring path agrees with the one-by-one path: same records up to descriptor numbers and
   same slot members for any completion order, and the same slot order for the submission order.
   */
  lemma UringAgrees(st: State, reqs: seq<Request>, leaders: seq<bool>, fds: seq<int>, completed: seq<Turn>, client: int, memcg: bool)
    requires |reqs| == |leaders| == |fds| && WellFormed(st) && DistinctPids(reqs)
    requires Indices(InOrder(reqs, leaders, fds, 0), reqs) && Indices(completed, reqs)
    requires AllFresh(st, reqs, InOrder(reqs, leaders, fds, 0), client, memcg) && AllFresh(st, reqs, completed, client, memcg)
    requires SameTurns(completed, InOrder(reqs, leaders, fds, 0))
    ensures var x := RegisterAll(st, reqs, completed, client, memcg);
            var y := OneByOne(st, reqs, leaders, fds, 0, client, memcg);
            && (forall p :: Lookup(x, p) == Lookup(y, p))
            && |x.slots| == |y.slots| == ADJTOSLOT_COUNT
            && (forall s :: 0 <= s < ADJTOSLOT_COUNT ==> Members(x.slots[s]) == Members(y.slots[s]))
            && (|completed| == |InOrder(reqs, leaders, fds, 0)|
                && (forall k :: 0 <= k < |completed| ==> completed[k].i == InOrder(reqs, leaders, fds, 0)[k].i)
                ==> x.slots == y.slots)
  {
    hide WellFormed, RegisterAll, AllFresh, Indices, Lookup, OneByOne, InOrder, SameTurns, DistinctPids, Members;
    SlotCount(st);
    var inOrder := InOrder(reqs, leaders, fds, 0);
    OneByOneIsInOrder(st, reqs, leaders, fds, 0, client, memcg);
    AnyOrder(st, reqs, completed, inOrder, client, memcg);
    if |completed| == |inOrder| && (forall k :: 0 <= k < |completed| ==> completed[k].i == inOrder[k].i) {
      SameOrderSameSlots(st, st, reqs, completed, inOrder, client, memcg);
    }
  }

  // ---------- on the linked registry ----------

  /** The loop of handle_io_uring_procs_prio over the completed writes. */
  method RegisterCompleted(reg: Registry, reqs: seq<Request>, turns: seq<Turn>, client: int, memcg: bool)
    requires reg.Valid() && Indices(turns, reqs) && AllFresh(reg.st, reqs, turns, client, memcg)
    modifies reg.Repr()
    ensures WellFormed(old(reg.st))
    ensures reg.Valid() && reg.st == RegisterAll(old(reg.st), reqs, turns, client, memcg)
    ensures fresh(reg.Repr() - old(reg.Repr()))
  {
    hide WellFormed, RegisterOne, RegisterAll, AllFresh, Indices, Shape, Rings, Chains, ChainShape, Objects, Distinct;
    ghost var whole := RegisterAll(reg.st, reqs, turns, client, memcg);
    var rest := turns;
    while rest != []
      invariant reg.Valid() && fresh(reg.Repr() - old(reg.Repr()))
      invariant Indices(rest, reqs) && AllFresh(reg.st, reqs, rest, client, memcg)
      invariant RegisterAll(reg.st, reqs, rest, client, memcg) == whole
      decreases |rest|
    {
      FreshNext(reg.st, reqs, rest, client, memcg);
      var t := rest[0];
      RegisterTurn(reg, reqs, t, client, memcg, rest);
      rest := rest[1..];
    }
    NothingLeft(reg.st, reqs, client, memcg);
  }

  /** register_oom_adj_proc for one completion. */
  method RegisterTurn(reg: Registry, reqs: seq<Request>, t: Turn, client: int, memcg: bool, ghost turns: seq<Turn>)
    requires reg.Valid() && turns != [] && t == turns[0] && Indices(turns, reqs)
    requires FreshFd(reg.st, Success(true, t.fd)) && WellFormed(RegisterOne(reg.st, reqs[t.i], t.fd, client, memcg))
    modifies reg.Repr()
    ensures old(|reg.st.slots|) == ADJTOSLOT_COUNT
    ensures reg.Valid() && reg.st == RegisterOne(old(reg.st), reqs[t.i], t.fd, client, memcg)
    ensures fresh(reg.Repr() - old(reg.Repr()))
  {
    hide Register, Shape, Rings, Chains, ChainShape, Objects, Distinct, FdsOwned;
    reg.RegisterOomAdjProc(reqs[t.i], client, memcg, Success(true, t.fd));
  }

  // ---------- completions that fail ----------

  /** An entry of the completion queue: the request it belongs to, and whether the write succeeded. */
  datatype Completion = Completion(turn: Turn, ok: bool)

  function BeforeFailure(cs: seq<Completion>): (r: seq<Turn>) {
    if cs == [] || !cs[0].ok then [] else [cs[0].turn] + BeforeFailure(cs[1..])
  }

  lemma {:induction false} BeforeFailureNext(cs: seq<Completion>, k: nat)
    requires k < |cs| && (forall j :: 0 <= j <= k ==> cs[j].ok)
    ensures BeforeFailure(cs[..k + 1]) == BeforeFailure(cs[..k]) + [cs[k].turn]
    decreases k
  {
    if k > 0 {
      BeforeFailureNext(cs[1..], k - 1);
      assert cs[..k + 1][1..] == cs[1..][..k] && cs[..k][1..] == cs[1..][..k - 1];
    }
  }

  lemma {:induction false} BeforeFailureStops(cs: seq<Completion>, k: nat)
    requires k <= |cs| && (forall j :: 0 <= j < k ==> cs[j].ok) && (k == |cs| || !cs[k].ok)
    ensures BeforeFailure(cs) == BeforeFailure(cs[..k])
    decreases k
  {
    if k > 0 {
      BeforeFailureStops(cs[1..], k - 1);
      assert cs[..k][1..] == cs[1..][..k - 1];
    }
  }

  lemma {:induction false} AllOkAll(cs: seq<Completion>)
    ensures |BeforeFailure(cs)| <= |cs|
    ensures |BeforeFailure(cs)| == |cs| <==> AllOk(cs)
    ensures |BeforeFailure(cs)| < |cs| ==> !cs[|BeforeFailure(cs)|].ok
  {
    if cs != [] && cs[0].ok {
      AllOkAll(cs[1..]);
      assert AllOk(cs) <==> AllOk(cs[1..]) by {
        assert forall k :: 0 < k < |cs| ==> cs[k] == cs[1..][k - 1];
      }
    }
  }

  predicate AllOk(cs: seq<Completion>) {
    forall k :: 0 <= k < |cs| ==> cs[k].ok
  }

  /**
   A loop that waits for n completions at the head of the queue. A failed one is passed over
   without being marked as seen, so the queue keeps returning it: whatever completed after it is
   never served, and it stays where it is.
   */
  method ReapCompletions(queue: seq<Completion>, n: nat) returns (done: seq<Turn>, rest: seq<Completion>)
    requires n <= |queue|
    ensures done == BeforeFailure(queue[..n]) && |done| <= n && rest == queue[|done|..]
  {
    done := [];
    var head := 0;
    ghost var cqes := queue[..n];
    for i := 0 to n
      invariant 0 <= head <= i && (forall j :: 0 <= j < head ==> cqes[j].ok)
      invariant head == i || !cqes[head].ok
      invariant done == BeforeFailure(cqes[..head]) && |done| == head
    {
      var cqe := queue[head];
      assert cqe == cqes[head];
      if !cqe.ok {
        continue;
      }
      BeforeFailureNext(cqes, head);
      done := done + [cqe.turn];
      head := head + 1;
    }
    BeforeFailureStops(cqes, head);
    rest := queue[head..];
  }

  /** Which processes of a batch are registered, by the completions of the reads and of the writes. */
  function RegisteredOf(reading: seq<Completion>, writing: seq<Completion>): seq<Turn> {
    if AllOk(reading) then BeforeFailure(writing) else []
  }

  /**
   The two loops of handle_io_uring_procs_prio, over one queue: the status of each process is
   read, then its adj written. A process is registered if and only if every read succeeded and
   every write up to its own did.
   */
  method ReapBatch(reading: seq<Completion>, writing: seq<Completion>) returns (statuses: seq<Turn>, registered: seq<Turn>)
    ensures statuses == BeforeFailure(reading)
    ensures registered == RegisteredOf(reading, writing)
    ensures |registered| == |writing| <==> writing == [] || (AllOk(reading) && AllOk(writing))
  {
    assert reading[..|reading|] == reading;
    AllOkAll(reading);
    AllOkAll(writing);
    var rest;
    statuses, rest := ReapCompletions(reading, |reading|);
    var queue := rest + writing;
    if AllOk(reading) {
      assert queue[..|writing|] == writing;
    } else {
      assert !queue[0].ok;
    }
    registered, rest := ReapCompletions(queue, |writing|);
  }

  /** One failed write keeps the later ones from being registered, one failed read all of them. */
  lemma FailedCompletion(a: Turn, b: Turn)
    ensures RegisteredOf([Completion(a, true)], [Completion(a, true), Completion(b, false), Completion(b, true)]) == [a]
    ensures RegisteredOf([Completion(a, false), Completion(b, true)], [Completion(a, true), Completion(b, true)]) == []
  {
    var one, cs := [Completion(a, true)], [Completion(a, true), Completion(b, false), Completion(b, true)];
    assert AllOk(one);
    assert cs[1..] == [Completion(b, false), Completion(b, true)];
    assert BeforeFailure(cs[1..]) == [] && BeforeFailure(cs) == [a] + BeforeFailure(cs[1..]);
    var bad := [Completion(a, false), Completion(b, true)];
    assert !bad[0].ok;
  }
}
