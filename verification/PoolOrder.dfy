/**
 Which request the reaper pool serves next, and for whom: every request accepted keeps the target
 it was made for, and a thread takes the one accepted last of those still queued.
 */
module PoolOrder {
  import opened ReaperModel

  ghost predicate Steps(ss: seq<State>, evs: seq<Event>, k: int)
    requires |ss| == |evs| + 1
  {
    0 <= k < |evs| && Enabled(ss[k], evs[k]) && ss[k + 1] == Apply(ss[k], evs[k])
  }

  /** A run of the pool from its start. */
  ghost predicate PoolRun(ss: seq<State>, evs: seq<Event>, threadCnt: nat) {
    |ss| == |evs| + 1 && ss[0] == Init(threadCnt) && forall k :: 0 <= k < |evs| ==> Steps(ss, evs, k)
  }

  /** It is a run in the sense of the pool's own theorems, with the states in between spelled out. */
  lemma {:induction false} IsAPoolRun(ss: seq<State>, evs: seq<Event>, k: nat, threadCnt: nat)
    requires PoolRun(ss, evs, threadCnt) && k <= |evs|
    ensures Runs(ss[k], evs[k..]) && After(ss[k], evs[k..]) == ss[|evs|]
    decreases |evs| - k
  {
    hide Apply, Enabled;
    if k < |evs| {
      assert Steps(ss, evs, k) && evs[k..][0] == evs[k] && evs[k..][1..] == evs[k + 1..];
      IsAPoolRun(ss, evs, k + 1, threadCnt);
    }
  }

  /** Event a is the acceptance of request `id`: requests are numbered as they are accepted. */
  ghost predicate AcceptedAt(ss: seq<State>, evs: seq<Event>, a: int, id: int)
    requires |ss| == |evs| + 1
  {
    0 <= a < |evs| && evs[a].Submit? && Admits(ss[a], evs[a].target) && |ss[a].jobs| == id
  }

  // ---------- requests and their targets ----------

  lemma JobsStep(st: State, ev: Event)
    requires Enabled(st, ev)
    ensures var r := Apply(st, ev);
            if ev.Submit? && Admits(st, ev.target)
            then |r.jobs| == |st.jobs| + 1 && r.jobs[..|st.jobs|] == st.jobs && r.queue == st.queue + [|st.jobs|]
                 && var j := r.jobs[|st.jobs|]; j.pid == ev.target.pid && j.uid == ev.target.uid && j.pidfd == ev.dupFd
            else r.jobs == st.jobs && (!ev.Dequeue? ==> r.queue == st.queue)
  {
  }

  lemma {:induction false} JobsGrow(ss: seq<State>, evs: seq<Event>, a: nat, k: nat, threadCnt: nat)
    requires PoolRun(ss, evs, threadCnt) && a <= k <= |evs|
    ensures |ss[a].jobs| <= |ss[k].jobs| && ss[k].jobs[..|ss[a].jobs|] == ss[a].jobs
  {
    hide Apply, Enabled;
    if a < k {
      JobsGrow(ss, evs, a, k - 1, threadCnt);
      assert Steps(ss, evs, k - 1);
      JobsStep(ss[k - 1], evs[k - 1]);
    }
  }

  /** A request keeps the process, the uid and the duplicate it was accepted with. */
  lemma TargetKept(ss: seq<State>, evs: seq<Event>, a: nat, id: nat, k: nat, threadCnt: nat)
    requires PoolRun(ss, evs, threadCnt) && AcceptedAt(ss, evs, a, id) && a < k <= |evs|
    ensures id < |ss[k].jobs|
    ensures ss[k].jobs[id].pid == evs[a].target.pid && ss[k].jobs[id].uid == evs[a].target.uid
    ensures ss[k].jobs[id].pidfd == evs[a].dupFd
  {
    hide Apply, Enabled;
    assert Steps(ss, evs, a);
    JobsStep(ss[a], evs[a]);
    JobsGrow(ss, evs, a + 1, k, threadCnt);
    assert ss[k].jobs[..|ss[a + 1].jobs|][id] == ss[a + 1].jobs[id];
  }

  /** Every request there is was accepted by one event. */
  lemma {:induction false} WasAccepted(ss: seq<State>, evs: seq<Event>, id: nat, k: nat, threadCnt: nat) returns (a: nat)
    requires PoolRun(ss, evs, threadCnt) && k <= |evs| && id < |ss[k].jobs|
    ensures a < k && AcceptedAt(ss, evs, a, id)
  {
    hide Apply, Enabled;
    assert k > 0;
    assert Steps(ss, evs, k - 1);
    JobsStep(ss[k - 1], evs[k - 1]);
    if id < |ss[k - 1].jobs| {
      a := WasAccepted(ss, evs, id, k - 1, threadCnt);
    } else {
      a := k - 1;
    }
  }

  /** The numbers of the requests are the order of their acceptance. */
  lemma InOrder(ss: seq<State>, evs: seq<Event>, a: nat, id: nat, b: nat, id': nat, threadCnt: nat)
    requires PoolRun(ss, evs, threadCnt) && AcceptedAt(ss, evs, a, id) && AcceptedAt(ss, evs, b, id')
    ensures a < b <==> id < id'
    ensures a == b <==> id == id'
  {
    hide Apply, Enabled;
    if a < b {
      TargetKept(ss, evs, a, id, b, threadCnt);
    } else if b < a {
      TargetKept(ss, evs, b, id', a, threadCnt);
    }
  }

  // ---------- the queue ----------

  ghost predicate Ascending(q: seq<nat>) {
    forall i, j :: 0 <= i < j < |q| ==> q[i] < q[j]
  }

  ghost predicate QueueSound(st: State) {
    && Ascending(st.queue) && (forall i :: 0 <= i < |st.queue| ==> st.queue[i] < |st.jobs|)
    && (forall i :: 0 <= i < |st.threads| && st.threads[i].Busy() ==> st.threads[i].id < |st.jobs|)
  }

  /** A thread that dequeues takes the last number of the queue and leaves the others as they are. */
  lemma TakesLast(st: State, i: nat)
    requires Enabled(st, Dequeue(i))
    ensures var r := Apply(st, Dequeue(i));
            && st.queue == r.queue + [st.queue[|st.queue| - 1]]
            && r.threads[i] == Signalling(st.queue[|st.queue| - 1])
  {
  }

  /** A thread goes on with the request it holds, or takes one of the queue. */
  lemma HoldsStep(st: State, ev: Event)
    requires Enabled(st, ev)
    ensures var r := Apply(st, ev);
            forall i :: 0 <= i < |r.threads| && r.threads[i].Busy() ==>
                          (st.threads[i].Busy() && r.threads[i].id == st.threads[i].id) || r.threads[i].id in st.queue
  {
  }

  lemma QueueStep(st: State, ev: Event)
    requires Enabled(st, ev) && QueueSound(st)
    ensures QueueSound(Apply(st, ev))
  {
    JobsStep(st, ev);
    HoldsStep(st, ev);
    if ev.Dequeue? {
      TakesLast(st, ev.i);
    }
    hide Apply, Enabled;
    var q := Apply(st, ev).queue;
    assert ev.Dequeue? ==> forall i :: 0 <= i < |q| ==> q[i] == st.queue[i];
  }

  lemma {:induction false} RunQueue(ss: seq<State>, evs: seq<Event>, k: nat, threadCnt: nat)
    requires PoolRun(ss, evs, threadCnt) && k <= |evs|
    ensures QueueSound(ss[k])
  {
    hide Apply, Enabled;
    if k > 0 {
      RunQueue(ss, evs, k - 1, threadCnt);
      assert Steps(ss, evs, k - 1);
      QueueStep(ss[k - 1], evs[k - 1]);
    }
  }

  /**
   On every run, a thread that dequeues gets the request accepted last of all that are queued, with
   the process it was accepted for, and the other requests stay queued.
   */
  lemma NewestTaken(ss: seq<State>, evs: seq<Event>, k: nat, threadCnt: nat) returns (a: nat, id: nat)
    requires PoolRun(ss, evs, threadCnt) && k < |evs| && evs[k].Dequeue?
    ensures a < k && AcceptedAt(ss, evs, a, id) && id in ss[k].queue
    ensures forall b: nat, other: nat :: other in ss[k].queue && AcceptedAt(ss, evs, b, other) ==> b <= a
    ensures evs[k].i < |ss[k + 1].threads| && ss[k + 1].threads[evs[k].i] == Signalling(id)
    ensures id < |ss[k + 1].jobs| && ss[k + 1].jobs[id].pid == evs[a].target.pid && ss[k + 1].jobs[id].uid == evs[a].target.uid
    ensures forall x :: x in ss[k + 1].queue <==> x in ss[k].queue && x != id
  {
    assert Steps(ss, evs, k);
    RunQueue(ss, evs, k, threadCnt);
    var q := ss[k].queue;
    id := q[|q| - 1];
    TakesLast(ss[k], evs[k].i);
    hide Apply;
    assert id in q;
    a := WasAccepted(ss, evs, id, k, threadCnt);
    TargetKept(ss, evs, a, id, k + 1, threadCnt);
    forall b: nat, other: nat | other in q && AcceptedAt(ss, evs, b, other) ensures b <= a {
      InOrder(ss, evs, a, id, b, other, threadCnt);
    }
  }

  /** The request a thread holds is one accepted earlier, and its process is the one signalled or reported. */
  lemma HeldTarget(ss: seq<State>, evs: seq<Event>, k: nat, i: nat, threadCnt: nat) returns (a: nat)
    requires PoolRun(ss, evs, threadCnt) && k <= |evs| && i < |ss[k].threads| && ss[k].threads[i].Busy()
    ensures var id := ss[k].threads[i].id;
            && a < k && AcceptedAt(ss, evs, a, id) && id < |ss[k].jobs|
            && ss[k].jobs[id].pid == evs[a].target.pid && ss[k].jobs[id].uid == evs[a].target.uid
  {
    RunQueue(ss, evs, k, threadCnt);
    a := WasAccepted(ss, evs, ss[k].threads[i].id, k, threadCnt);
    TargetKept(ss, evs, a, ss[k].threads[i].id, k, threadCnt);
  }
}
