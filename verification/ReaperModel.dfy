/**
 The reaper thread pool as a step system. Each event is one critical section or system call of
 one thread, and a run is any interleaving of events, including spurious wake-ups.
 */
module ReaperModel {

  /** One accepted request: the target process and the duplicate of its pidfd, -1 if dup() failed. */
  datatype Job = Job(pidfd: int, pid: int, uid: int)

  /** Where a thread is in the loop of reaper_main; `id` numbers the accepted requests. */
  datatype Phase =
    | Waiting                // blocked in cond_.wait
    | Ready                  // about to test queue_.empty() under the mutex
    | Signalling(id: nat)    // dequeued, before pidfd_send_signal
    | Failing(id: nat)       // signal refused, before notify_kill_failure
    | Reaping(id: nat)       // signal delivered, before process_mrelease
    | Closing(id: nat)       // before close(target.pidfd)
    | Completing(id: nat)    // before request_complete
  {
    predicate Busy() { !Waiting? && !Ready? }
  }

  /** What has happened to one accepted request so far. */
  datatype Tally = Tally(dequeued: nat, signalled: nat, notified: nat, closed: nat, completed: nat)

  datatype State = State(
    queue: seq<nat>,         // ids, oldest first; the pool takes the newest
    threads: seq<Phase>,
    active: int,
    jobs: seq<Job>,          // every request accepted so far
    tallies: seq<Tally>,
    openDups: set<int>,
    strayCloses: nat)

  function Init(threadCnt: nat): State {
    State([], seq(threadCnt, i => Ready), 0, [], [], {}, 0)
  }

  datatype Event =
    | Submit(target: Job, dupFd: int, woken: int)
    | Wait(i: nat)
    | Spurious(i: nat)
    | Dequeue(i: nat)
    | Signal(i: nat, ok: bool)
    | Notify(i: nat)
    | Release(i: nat)
    | Close(i: nat)
    | Complete(i: nat)
  {
    /** A step that moves an accepted request along. */
    predicate Productive() { !Submit? && !Wait? && !Spurious? }
  }

  predicate Admits(st: State, target: Job) {
    target.pidfd != -1 && |st.threads| != 0 && st.active < |st.threads|
  }

  /** notify_one wakes a waiting thread if there is one; dup() yields an unused number or fails. */
  predicate Enabled(st: State, ev: Event) {
    match ev
    case Submit(target, dupFd, woken) =>
      && (dupFd >= 0 ==> dupFd !in st.openDups) && dupFd >= -1
      && (if Waiting in st.threads then 0 <= woken < |st.threads| && st.threads[woken] == Waiting else woken == -1)
    case Wait(i) => i < |st.threads| && st.threads[i] == Ready && st.queue == []
    case Spurious(i) => i < |st.threads| && st.threads[i] == Waiting
    case Dequeue(i) => i < |st.threads| && st.threads[i] == Ready && st.queue != []
    case Signal(i, ok) =>
      && i < |st.threads| && st.threads[i].Signalling? && st.threads[i].id < |st.jobs|
      && (ok ==> st.jobs[st.threads[i].id].pidfd >= 0)
    case Notify(i) => i < |st.threads| && st.threads[i].Failing?
    case Release(i) => i < |st.threads| && st.threads[i].Reaping?
    case Close(i) => i < |st.threads| && st.threads[i].Closing? && st.threads[i].id < |st.jobs|
    case Complete(i) => i < |st.threads| && st.threads[i].Completing?
  }

  function At(st: State, i: nat, ph: Phase): State
    requires i < |st.threads|
  {
    st.(threads := st.threads[i := ph])
  }

  datatype Mark = Dequeued | Signalled | Notified | Closed | Completed

  function Marked(t: Tally, m: Mark): Tally {
    match m
    case Dequeued => t.(dequeued := t.dequeued + 1)
    case Signalled => t.(signalled := t.signalled + 1)
    case Notified => t.(notified := t.notified + 1)
    case Closed => t.(closed := t.closed + 1)
    case Completed => t.(completed := t.completed + 1)
  }

  function Note(tallies: seq<Tally>, id: nat, m: Mark): seq<Tally> {
    if id < |tallies| then tallies[id := Marked(tallies[id], m)] else tallies
  }

  function Apply(st: State, ev: Event): (r: State)
    requires Enabled(st, ev)
    ensures |r.threads| == |st.threads|
  {
    match ev
    case Submit(target, dupFd, woken) =>
      if !Admits(st, target) then st
      else
        var st1 := st.(active := st.active + 1,
                       queue := st.queue + [|st.jobs|],
                       jobs := st.jobs + [Job(dupFd, target.pid, target.uid)],
                       tallies := st.tallies + [Tally(0, 0, 0, 0, 0)],
                       openDups := if dupFd >= 0 then st.openDups + {dupFd} else st.openDups);
        if woken == -1 then st1 else At(st1, woken, Ready)
    case Wait(i) => At(st, i, Waiting)
    case Spurious(i) => At(st, i, Ready)
    case Dequeue(i) =>
      var id := st.queue[|st.queue| - 1];
      At(st, i, Signalling(id)).(
        queue := st.queue[..|st.queue| - 1],
        tallies := Note(st.tallies, id, Dequeued))
    case Signal(i, ok) =>
      var id := st.threads[i].id;
      if ok then At(st, i, Reaping(id)).(tallies := Note(st.tallies, id, Signalled))
      else At(st, i, Failing(id))
    case Notify(i) =>
      var id := st.threads[i].id;
      At(st, i, Closing(id)).(tallies := Note(st.tallies, id, Notified))
    case Release(i) => At(st, i, Closing(st.threads[i].id))
    case Close(i) =>
      var id := st.threads[i].id;
      var fd := st.jobs[id].pidfd;
      At(st, i, Completing(id)).(
        tallies := Note(st.tallies, id, Closed),
        openDups := st.openDups - {fd},
        strayCloses := st.strayCloses + if fd in st.openDups then 0 else 1)
    case Complete(i) =>
      var id := st.threads[i].id;
      At(st, i, Ready).(
        active := st.active - 1,
        tallies := Note(st.tallies, id, Completed))
  }

  /** A run: every event is enabled in the state the earlier ones lead to. */
  ghost predicate Runs(st: State, evs: seq<Event>)
    decreases |evs|
  {
    evs == [] || (Enabled(st, evs[0]) && Runs(Apply(st, evs[0]), evs[1..]))
  }

  ghost function After(st: State, evs: seq<Event>): State
    requires Runs(st, evs)
    decreases |evs|
  {
    if evs == [] then st else After(Apply(st, evs[0]), evs[1..])
  }

  // ---------- admission control and wake-ups ----------

  function CountBusy(ts: seq<Phase>): nat {
    if ts == [] then 0 else (if ts[0].Busy() then 1 else 0) + CountBusy(ts[1..])
  }

  function CountReady(ts: seq<Phase>): nat {
    if ts == [] then 0 else (if ts[0].Ready? then 1 else 0) + CountReady(ts[1..])
  }

  lemma {:induction false} CountsUpdate(ts: seq<Phase>, i: nat, ph: Phase)
    requires i < |ts|
    ensures CountBusy(ts[i := ph]) == CountBusy(ts) - (if ts[i].Busy() then 1 else 0) + (if ph.Busy() then 1 else 0)
    ensures CountReady(ts[i := ph]) == CountReady(ts) - (if ts[i].Ready? then 1 else 0) + (if ph.Ready? then 1 else 0)
  {
    if i == 0 {
      assert ts[0 := ph][1..] == ts[1..];
    } else {
      CountsUpdate(ts[1..], i - 1, ph);
      assert ts[i := ph][1..] == ts[1..][i - 1 := ph];
    }
  }

  lemma {:induction false} CountsNoneWaiting(ts: seq<Phase>)
    ensures CountBusy(ts) + CountReady(ts) <= |ts|
    ensures Waiting !in ts ==> CountBusy(ts) + CountReady(ts) == |ts|
    ensures CountReady(ts) > 0 ==> exists i :: 0 <= i < |ts| && ts[i] == Ready
  {
    if ts != [] {
      CountsNoneWaiting(ts[1..]);
      assert ts[0] in ts;
      if CountReady(ts[1..]) > 0 {
        var i :| 0 <= i < |ts[1..]| && ts[1..][i] == Ready;
        assert ts[i + 1] == Ready;
      } else if CountReady(ts) > 0 {
        assert ts[0] == Ready;
      }
    }
  }

  /** The counter equals queued plus in-flight, never exceeds the pool, and enough threads are awake. */
  ghost predicate Admission(st: State) {
    && st.active == |st.queue| + CountBusy(st.threads)
    && st.active <= |st.threads|
    && CountReady(st.threads) >= |st.queue|
  }

  lemma AdmissionStep(st: State, ev: Event)
    requires Admission(st) && Enabled(st, ev)
    ensures Admission(Apply(st, ev))
  {
    var r := Apply(st, ev);
    match ev
    case Submit(target, _, woken) =>
      if Admits(st, target) {
        if woken == -1 {
          CountsNoneWaiting(st.threads);
        } else {
          CountsUpdate(st.threads, woken, Ready);
        }
      }
    case _ =>
      CountsUpdate(st.threads, ev.i, r.threads[ev.i]);
      assert r.threads == st.threads[ev.i := r.threads[ev.i]];
  }

  // ---------- the life of a request ----------

  /** What must have happened to a request that a thread holds in the given phase. */
  predicate Fits(t: Tally, ph: Phase) {
    && t.dequeued == 1 && t.completed == 0
    && t.closed == (if ph.Completing? then 1 else 0)
    && (match ph
        case Signalling(_) => t.signalled == 0 && t.notified == 0
        case Failing(_) => t.signalled == 0 && t.notified == 0
        case Reaping(_) => t.signalled == 1 && t.notified == 0
        case _ => t.signalled + t.notified == 1)
  }

  /** Finished: dequeued once, closed once, and either signalled or its failure reported, once. */
  predicate Finished(t: Tally) {
    t.dequeued == 1 && t.signalled + t.notified == 1 && t.closed == 1 && t.completed == 1
  }

  ghost predicate HeldBy(st: State, i: int, id: int) {
    0 <= i < |st.threads| && st.threads[i].Busy() && st.threads[i].id == id
  }

  ghost predicate Held(st: State, id: int) {
    exists i :: HeldBy(st, i, id)
  }

  /** Every request is queued, or held by exactly one thread, or finished. */
  ghost predicate Accounted(st: State) {
    && |st.tallies| == |st.jobs|
    && (forall k :: 0 <= k < |st.queue| ==> st.queue[k] < |st.jobs| && st.tallies[st.queue[k]] == Tally(0, 0, 0, 0, 0))
    && (forall j, k :: 0 <= j < k < |st.queue| ==> st.queue[j] != st.queue[k])
    && (forall i, id :: HeldBy(st, i, id) ==> id < |st.jobs| && Fits(st.tallies[id], st.threads[i]))
    && (forall i, j, id :: HeldBy(st, i, id) && HeldBy(st, j, id) ==> i == j)
    && (forall id :: 0 <= id < |st.jobs| ==>
          if st.tallies[id].completed == 0 then id in st.queue || Held(st, id) else Finished(st.tallies[id]))
  }

  /** The duplicate of a request is open from its acceptance to the close of its thread. */
  ghost predicate Open(st: State, id: int) {
    0 <= id < |st.jobs| && id < |st.tallies| && st.jobs[id].pidfd >= 0 && st.tallies[id].closed == 0
  }

  ghost predicate Owns(st: State, id: int, fd: int) {
    Open(st, id) && st.jobs[id].pidfd == fd
  }

  /** The open duplicates are exactly those of queued and in-flight requests, no two alike. */
  ghost predicate DupsOwned(st: State) {
    && |st.tallies| == |st.jobs|
    && (forall fd :: fd in st.openDups ==> exists id :: Owns(st, id, fd))
    && (forall id, fd :: Owns(st, id, fd) ==> fd in st.openDups)
    && (forall a, b, fd :: Owns(st, a, fd) && Owns(st, b, fd) ==> a == b)
    && (forall id :: 0 <= id < |st.jobs| ==> st.jobs[id].pidfd >= -1)
  }

  lemma AccountedAsync(st: State, ev: Event)
    requires Accounted(st) && Enabled(st, ev) && ev.Submit? && Admits(st, ev.target)
    ensures Accounted(Apply(st, ev))
  {
    var r := Apply(st, ev);
    forall i, id | HeldBy(r, i, id) ensures HeldBy(st, i, id) && r.threads[i] == st.threads[i] {
    }
    forall id | 0 <= id < |st.jobs| && Held(st, id) ensures Held(r, id) {
      var i :| HeldBy(st, i, id);
      assert HeldBy(r, i, id);
    }
    forall id | 0 <= id < |r.jobs| ensures id in st.queue || id == |st.jobs| ==> id in r.queue {
      assert r.queue[|st.queue|] == |st.jobs|;
    }
  }

  /** Thread i moves to phase `ph`, and request `id`, marked `t` by now, is where the phase says. */
  ghost predicate Moved(st: State, r: State, i: nat, ph: Phase, id: nat, t: Tally) {
    && i < |st.threads| && id < |st.jobs| && |st.tallies| == |st.jobs|
    && r.threads == st.threads[i := ph] && r.jobs == st.jobs && r.tallies == st.tallies[id := t]
  }

  /** A thread goes on with the request it holds. */
  lemma AccountedHolding(st: State, r: State, i: nat, ph: Phase, id: nat, t: Tally)
    requires Accounted(st) && Moved(st, r, i, ph, id, t) && r.queue == st.queue
    requires HeldBy(st, i, id) && ph.Busy() && ph.id == id && Fits(t, ph)
    ensures Accounted(r)
  {
    forall x | 0 <= x < |st.jobs| && Held(st, x) ensures Held(r, x) {
      var j :| HeldBy(st, j, x);
      assert HeldBy(r, j, x);
    }
    forall j, x | HeldBy(r, j, x) ensures HeldBy(st, j, x) {
    }
  }

  /** A thread takes the newest request of the queue. */
  lemma AccountedTaking(st: State, r: State, i: nat, id: nat, t: Tally)
    requires Accounted(st) && Moved(st, r, i, Signalling(id), id, t) && !st.threads[i].Busy()
    requires st.queue != [] && st.queue == r.queue + [id] && t == Tally(1, 0, 0, 0, 0)
    ensures Accounted(r)
  {
    assert st.queue[|r.queue|] == id;
    forall k | 0 <= k < |r.queue| ensures r.queue[k] == st.queue[k] && r.queue[k] != id {
      assert st.queue[k] != st.queue[|r.queue|];
    }
    assert HeldBy(r, i, id);
    forall x | 0 <= x < |st.jobs| && Held(st, x) ensures Held(r, x) {
      var j :| HeldBy(st, j, x);
      assert HeldBy(r, j, x);
    }
    forall j, x | HeldBy(r, j, x) && j != i ensures HeldBy(st, j, x) && x != id {
      assert HeldBy(st, j, x);
    }
    forall x | 0 <= x < |st.jobs| && x in st.queue && x != id ensures x in r.queue {
      var k :| 0 <= k < |st.queue| && st.queue[k] == x;
      assert r.queue[k] == x;
    }
  }

  /** A thread is done with its request. */
  lemma AccountedFinishing(st: State, r: State, i: nat, id: nat, t: Tally)
    requires Accounted(st) && Moved(st, r, i, Ready, id, t) && r.queue == st.queue
    requires HeldBy(st, i, id) && Finished(t)
    ensures Accounted(r)
  {
    forall x | 0 <= x < |st.jobs| && Held(st, x) && x != id ensures Held(r, x) {
      var j :| HeldBy(st, j, x);
      assert HeldBy(r, j, x);
    }
    forall j, x | HeldBy(r, j, x) ensures HeldBy(st, j, x) && x != id {
      assert HeldBy(st, j, x);
    }
  }

  /** A thread without a request goes to sleep or wakes up. */
  lemma AccountedIdle(st: State, r: State, i: nat, ph: Phase)
    requires Accounted(st) && i < |st.threads| && !st.threads[i].Busy() && !ph.Busy()
    requires r == st.(threads := st.threads[i := ph])
    ensures Accounted(r)
  {
    forall x | 0 <= x < |st.jobs| && Held(st, x) ensures Held(r, x) {
      var j :| HeldBy(st, j, x);
      assert HeldBy(r, j, x);
    }
    forall j, x | HeldBy(r, j, x) ensures HeldBy(st, j, x) {
    }
  }

  lemma AccountedStep(st: State, ev: Event)
    requires Accounted(st) && Enabled(st, ev)
    ensures Accounted(Apply(st, ev))
  {
    var r := Apply(st, ev);
    if ev.Submit? {
      if Admits(st, ev.target) {
        AccountedAsync(st, ev);
      }
    } else if !ev.Productive() {
      AccountedIdle(st, r, ev.i, r.threads[ev.i]);
    } else {
      AccountedProductive(st, ev);
    }
  }

  /** The request a thread is busy with, and the tally it must have by now. */
  lemma HolderFits(st: State, i: nat)
    requires Accounted(st) && i < |st.threads| && st.threads[i].Busy()
    ensures var id := st.threads[i].id;
            HeldBy(st, i, id) && id < |st.jobs| && |st.tallies| == |st.jobs| && Fits(st.tallies[id], st.threads[i])
  {
    assert HeldBy(st, i, st.threads[i].id);
  }

  /** The newest request of the queue has not been touched yet. */
  lemma NewestFits(st: State)
    requires Accounted(st) && st.queue != []
    ensures var id := st.queue[|st.queue| - 1];
            id < |st.jobs| && |st.tallies| == |st.jobs| && st.tallies[id] == Tally(0, 0, 0, 0, 0)
  {
  }

  /** What a step that takes a request on makes of its thread and its tally. */
  lemma HoldingEffect(st: State, ev: Event)
    requires Enabled(st, ev) && ev.Productive() && !ev.Dequeue? && !ev.Complete?
    requires |st.tallies| == |st.jobs| && st.threads[ev.i].id < |st.jobs|
    requires Fits(st.tallies[st.threads[ev.i].id], st.threads[ev.i])
    ensures var r := Apply(st, ev);
            var id := st.threads[ev.i].id;
            && r.queue == st.queue && |r.tallies| == |st.tallies|
            && Moved(st, r, ev.i, r.threads[ev.i], id, r.tallies[id])
            && r.threads[ev.i].Busy() && r.threads[ev.i].id == id && Fits(r.tallies[id], r.threads[ev.i])
  {
  }

  lemma AccountedProductive(st: State, ev: Event)
    requires Accounted(st) && Enabled(st, ev) && ev.Productive()
    ensures Accounted(Apply(st, ev))
  {
    hide Accounted;
    var r := Apply(st, ev);
    if ev.Dequeue? {
      NewestFits(st);
      var id := st.queue[|st.queue| - 1];
      assert st.queue == r.queue + [id];
      AccountedTaking(st, r, ev.i, id, r.tallies[id]);
    } else {
      HolderFits(st, ev.i);
      var id := st.threads[ev.i].id;
      if ev.Complete? {
        AccountedFinishing(st, r, ev.i, id, r.tallies[id]);
      } else {
        HoldingEffect(st, ev);
        hide Apply;
        AccountedHolding(st, r, ev.i, r.threads[ev.i], id, r.tallies[id]);
      }
    }
  }

  lemma DupsStep(st: State, ev: Event)
    requires Accounted(st) && DupsOwned(st) && Enabled(st, ev)
    ensures DupsOwned(Apply(st, ev))
    ensures var r := Apply(st, ev);
            r.strayCloses == st.strayCloses
              + if ev.Close? && st.jobs[st.threads[ev.i].id].pidfd == -1 then 1 else 0
  {
    var r := Apply(st, ev);
    if ev.Submit? {
      if Admits(st, ev.target) {
        DupsAccept(st, ev);
      }
    } else if ev.Close? {
      DupsClose(st, ev);
    } else {
      assert r.openDups == st.openDups && r.jobs == st.jobs;
      forall id, fd ensures Owns(r, id, fd) <==> Owns(st, id, fd) {
      }
      forall fd | fd in st.openDups ensures exists id :: Owns(r, id, fd) {
        var id :| Owns(st, id, fd);
        assert Owns(r, id, fd);
      }
    }
  }

  lemma DupsAccept(st: State, ev: Event)
    requires DupsOwned(st) && Enabled(st, ev) && ev.Submit? && Admits(st, ev.target)
    ensures DupsOwned(Apply(st, ev))
  {
    var r := Apply(st, ev);
    var n := |st.jobs|;
    assert r.jobs == st.jobs + [r.jobs[n]] && r.jobs[n].pidfd == ev.dupFd;
    assert r.tallies == st.tallies + [r.tallies[n]] && r.tallies[n].closed == 0;
    assert r.openDups == st.openDups + (if ev.dupFd >= 0 then {ev.dupFd} else {});
    DupsGrow(st, r, ev.dupFd);
  }

  lemma DupsGrow(st: State, r: State, fd: int)
    requires DupsOwned(st) && fd >= -1 && fd !in st.openDups
    requires |r.jobs| == |st.jobs| + 1 && r.jobs[..|st.jobs|] == st.jobs && r.jobs[|st.jobs|].pidfd == fd
    requires |r.tallies| == |r.jobs| && r.tallies[..|st.jobs|] == st.tallies && r.tallies[|st.jobs|].closed == 0
    requires r.openDups == st.openDups + (if fd >= 0 then {fd} else {})
    ensures DupsOwned(r)
  {
    var n := |st.jobs|;
    forall id, f | 0 <= id < n ensures Owns(r, id, f) <==> Owns(st, id, f) {
      assert r.jobs[..n][id] == st.jobs[id] && r.tallies[..n][id] == st.tallies[id];
    }
    assert fd >= 0 ==> Owns(r, n, fd);
    forall f | f in st.openDups ensures exists id :: Owns(r, id, f) {
      var id :| Owns(st, id, f);
      assert Owns(r, id, f);
    }
    forall id | 0 <= id < n ensures r.jobs[id].pidfd >= -1 {
      assert r.jobs[..n][id] == st.jobs[id];
    }
  }

  lemma DupsClose(st: State, ev: Event)
    requires Accounted(st) && DupsOwned(st) && Enabled(st, ev) && ev.Close?
    ensures DupsOwned(Apply(st, ev))
    ensures st.jobs[st.threads[ev.i].id].pidfd in st.openDups || st.jobs[st.threads[ev.i].id].pidfd == -1
  {
    var r := Apply(st, ev);
    var id0 := st.threads[ev.i].id;
    assert HeldBy(st, ev.i, id0);
    assert st.jobs[id0].pidfd >= 0 ==> Owns(st, id0, st.jobs[id0].pidfd);
    forall id, fd ensures Owns(r, id, fd) <==> Owns(st, id, fd) && id != id0 {
    }
    forall fd | fd in r.openDups ensures exists id :: Owns(r, id, fd) {
      var id :| Owns(st, id, fd);
      assert Owns(r, id, fd);
    }
  }

  // ---------- every run ----------

  ghost predicate Inv(st: State) {
    Admission(st) && Accounted(st) && DupsOwned(st)
  }

  lemma {:induction false} InitReady(threadCnt: nat)
    ensures Inv(Init(threadCnt))
  {
    AllReady(seq(threadCnt, i => Ready));
  }

  lemma {:induction false} AllReady(ts: seq<Phase>)
    requires forall i :: 0 <= i < |ts| ==> ts[i] == Ready
    ensures CountBusy(ts) == 0
  {
    if ts != [] {
      AllReady(ts[1..]);
    }
  }

  lemma {:induction false} RunKeeps(st: State, evs: seq<Event>)
    requires Inv(st) && Runs(st, evs)
    ensures Inv(After(st, evs)) && |After(st, evs).threads| == |st.threads|
    decreases |evs|
  {
    if evs != [] {
      hide Admission, Accounted, DupsOwned, Apply;
      AdmissionStep(st, evs[0]);
      AccountedStep(st, evs[0]);
      DupsStep(st, evs[0]);
      RunKeeps(Apply(st, evs[0]), evs[1..]);
    }
  }

  /**
   Over every interleaving from the start of the pool: the request counter equals queued plus
   in-flight requests and never exceeds the number of threads; whenever a request is queued some
   thread is awake to take it; every request is dequeued at most once; a request that is neither
   queued nor held has been signalled or had its failure reported exactly once; and the open
   duplicates are exactly those of requests whose thread has not closed them yet.
   */
  lemma PoolSafety(threadCnt: nat, evs: seq<Event>)
    requires Runs(Init(threadCnt), evs)
    ensures var st := After(Init(threadCnt), evs);
            && st.active == |st.queue| + CountBusy(st.threads) && st.active <= threadCnt
            && CountReady(st.threads) >= |st.queue|
            && (st.queue != [] ==> exists i: nat :: Enabled(st, Dequeue(i)))
            && |st.tallies| == |st.jobs|
            && (forall id :: 0 <= id < |st.jobs| ==>
                  && st.tallies[id].dequeued <= 1
                  && st.tallies[id].signalled + st.tallies[id].notified <= 1
                  && (id in st.queue || Held(st, id) || Finished(st.tallies[id])))
            && (forall fd :: fd in st.openDups ==>
                  exists id :: Owns(st, id, fd) && (id in st.queue || Held(st, id)))
            && (forall id, fd :: Owns(st, id, fd) ==> fd in st.openDups)
  {
    InitReady(threadCnt);
    RunKeeps(Init(threadCnt), evs);
    var st := After(Init(threadCnt), evs);
    CountsNoneWaiting(st.threads);
    if st.queue != [] {
      var i :| 0 <= i < |st.threads| && st.threads[i] == Ready;
      assert Enabled(st, Dequeue(i));
    }
    forall id | 0 <= id < |st.jobs| && st.tallies[id].completed == 0
      ensures st.tallies[id].dequeued <= 1 && st.tallies[id].signalled + st.tallies[id].notified <= 1
    {
      if id !in st.queue {
        var i :| HeldBy(st, i, id);
      }
    }
    forall fd | fd in st.openDups
      ensures exists id :: Owns(st, id, fd) && (id in st.queue || Held(st, id))
    {
      var id :| Owns(st, id, fd);
      assert !Finished(st.tallies[id]);
    }
  }

  // ---------- progress ----------

  /** The steps a request still needs once a thread holds it. */
  function Left(ph: Phase): nat {
    match ph
    case Signalling(_) => 4
    case Failing(_) => 3
    case Reaping(_) => 3
    case Closing(_) => 2
    case Completing(_) => 1
    case _ => 0
  }

  function SumLeft(ts: seq<Phase>): nat {
    if ts == [] then 0 else Left(ts[0]) + SumLeft(ts[1..])
  }

  function Remaining(st: State): nat {
    5 * |st.queue| + SumLeft(st.threads)
  }

  lemma {:induction false} SumUpdate(ts: seq<Phase>, i: nat, ph: Phase)
    requires i < |ts|
    ensures SumLeft(ts[i := ph]) == SumLeft(ts) - Left(ts[i]) + Left(ph)
  {
    if i == 0 {
      assert ts[0 := ph][1..] == ts[1..];
    } else {
      SumUpdate(ts[1..], i - 1, ph);
      assert ts[i := ph][1..] == ts[1..][i - 1 := ph];
    }
  }

  lemma {:induction false} SumPositive(ts: seq<Phase>)
    ensures SumLeft(ts) > 0 ==> exists i :: 0 <= i < |ts| && ts[i].Busy()
  {
    if ts != [] {
      SumPositive(ts[1..]);
      if ts[0].Busy() {
        assert ts[0].Busy();
      } else if SumLeft(ts[1..]) > 0 {
        var i :| 0 <= i < |ts[1..]| && ts[1..][i].Busy();
        assert ts[i + 1].Busy();
      }
    }
  }

  lemma RemainingStep(st: State, ev: Event)
    requires Enabled(st, ev)
    ensures Remaining(Apply(st, ev)) + (if ev.Productive() then 1 else 0)
            == Remaining(st) + 5 * (|Apply(st, ev).jobs| - |st.jobs|)
  {
    var r := Apply(st, ev);
    if ev.Submit? {
      if Admits(st, ev.target) && ev.woken != -1 {
        SumUpdate(st.threads, ev.woken, Ready);
      }
    } else {
      SumUpdate(st.threads, ev.i, r.threads[ev.i]);
      assert r.threads == st.threads[ev.i := r.threads[ev.i]];
    }
  }

  function CountProductive(evs: seq<Event>): nat {
    if evs == [] then 0 else (if evs[0].Productive() then 1 else 0) + CountProductive(evs[1..])
  }

  lemma {:induction false} Conservation(st: State, evs: seq<Event>)
    requires Runs(st, evs)
    ensures CountProductive(evs) + Remaining(After(st, evs))
            == Remaining(st) + 5 * (|After(st, evs).jobs| - |st.jobs|)
    decreases |evs|
  {
    if evs != [] {
      hide Apply, Remaining;
      RemainingStep(st, evs[0]);
      Conservation(Apply(st, evs[0]), evs[1..]);
    }
  }

  /** A step that takes a busy thread on; a refused signal is always possible. */
  function NextOf(i: nat, ph: Phase): Event {
    match ph
    case Waiting => Spurious(i)
    case Ready => Dequeue(i)
    case Signalling(_) => Signal(i, false)
    case Failing(_) => Notify(i)
    case Reaping(_) => Release(i)
    case Closing(_) => Close(i)
    case Completing(_) => Complete(i)
  }

  /**
   No accepted request is stranded: while any is unfinished some step that moves one along is
   enabled, and each accepted request takes exactly five such steps, whatever the interleaving.
   */
  lemma PoolProgress(threadCnt: nat, evs: seq<Event>)
    requires Runs(Init(threadCnt), evs)
    ensures var st := After(Init(threadCnt), evs);
            && CountProductive(evs) + Remaining(st) == 5 * |st.jobs|
            && (Remaining(st) > 0 ==> exists ev: Event :: ev.Productive() && Enabled(st, ev))
            && (Remaining(st) == 0 ==> st.active == 0 && forall id :: 0 <= id < |st.jobs| ==> id < |st.tallies| && Finished(st.tallies[id]))
  {
    InitReady(threadCnt);
    RunKeeps(Init(threadCnt), evs);
    Conservation(Init(threadCnt), evs);
    NothingLeft(Init(threadCnt).threads);
    var st := After(Init(threadCnt), evs);
    NothingLeft(st.threads);
    CountsNoneWaiting(st.threads);
    if st.queue != [] {
      var i :| 0 <= i < |st.threads| && st.threads[i] == Ready;
      assert Enabled(st, Dequeue(i)) && Dequeue(i).Productive();
    } else if Remaining(st) > 0 {
      SumPositive(st.threads);
      var i: nat :| i < |st.threads| && st.threads[i].Busy();
      assert HeldBy(st, i, st.threads[i].id);
      var ev := NextOf(i, st.threads[i]);
      assert Enabled(st, ev) && ev.Productive();
    } else {
      forall id | 0 <= id < |st.jobs| ensures Finished(st.tallies[id]) {
        assert forall i :: !HeldBy(st, i, id);
      }
    }
  }

  lemma {:induction false} NothingLeft(ts: seq<Phase>)
    ensures SumLeft(ts) == 0 <==> CountBusy(ts) == 0
    ensures SumLeft(ts) == 0 <==> forall i :: 0 <= i < |ts| ==> !ts[i].Busy()
  {
    if ts != [] {
      NothingLeft(ts[1..]);
      assert forall i :: 0 <= i < |ts[1..]| ==> ts[1..][i] == ts[i + 1];
      assert forall i :: 0 < i < |ts| ==> ts[i] == ts[1..][i - 1];
    }
  }
}
