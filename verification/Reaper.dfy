/**
 class Reaper: the queue and the counters behind the mutex. Each method is one critical section
 and is proved to be the corresponding step of the pool, so the run theorems apply to it.
 */
module Reaper {
  import opened Options
  import opened ReaperModel

  /** How a kill was carried out. */
  datatype Route = ByPid | Handed | ByPidfd

  class Reaper {
    var queue: seq<Job>
    var activeRequests: int
    const threadCnt: nat
    /** The pids written to the pipe that tells the main thread about failures. */
    var commWrites: seq<int>
    ghost var st: State

    ghost predicate Valid()
      reads this
    {
      && Inv(st)
      && activeRequests == st.active && threadCnt == |st.threads|
      && |queue| == |st.queue|
      && (forall k :: 0 <= k < |queue| ==> st.queue[k] < |st.jobs| && queue[k] == st.jobs[st.queue[k]])
    }

    /** A pool of which `threadCnt` threads could be created. */
    constructor (threadCnt: nat)
      ensures Valid() && st == Init(threadCnt) && this.threadCnt == threadCnt && commWrites == []
    {
      InitReady(threadCnt);
      queue, activeRequests, this.threadCnt, commWrites, st := [], 0, threadCnt, [], Init(threadCnt);
    }

    /** async_kill; `dupFd` is the answer of dup and `woken` the thread notify_one picks. */
    method AsyncKill(target: Job, dupFd: int, ghost woken: int) returns (ok: bool)
      requires Valid() && Enabled(st, Submit(target, dupFd, woken))
      modifies this
      ensures Valid() && st == Apply(old(st), Submit(target, dupFd, woken)) && commWrites == old(commWrites)
      ensures ok == Admits(old(st), target)
      ensures |st.jobs| == |old(st).jobs| + if ok then 1 else 0
      ensures !ok ==> queue == old(queue)
      ensures ok ==> |queue| == |old(queue)| + 1 && queue[..|old(queue)|] == old(queue)
                     && var job := queue[|old(queue)|];
                        job.pid == target.pid && job.uid == target.uid && job.pidfd == dupFd
    {
      hide Inv;
      KeepsInv(st, Submit(target, dupFd, woken));
      if target.pidfd == -1 {
        return false;
      }
      if threadCnt == 0 {
        return false;
      }
      if activeRequests >= threadCnt {
        return false;
      }
      activeRequests := activeRequests + 1;
      queue := queue + [Job(dupFd, target.pid, target.uid)];
      st := Apply(st, Submit(target, dupFd, woken));
      return true;
    }

    /**
     kill: `byPid` and `byPidfd` are what ::kill and pidfd_send_signal would return. The caller
     is told 0 exactly when the pool took the request or the one signal sent here succeeded.
     */
    method Kill(target: Job, synchronous: bool, byPid: int, byPidfd: int, dupFd: int, ghost woken: int)
      returns (result: int, route: Route)
      requires Valid() && Enabled(st, Submit(target, dupFd, woken))
      modifies this
      ensures Valid() && commWrites == old(commWrites)
      ensures route == if target.pidfd < 0 then ByPid
                       else if !synchronous && Admits(old(st), target) then Handed else ByPidfd
      ensures result == match route case ByPid => byPid case Handed => 0 case ByPidfd => byPidfd
      ensures st == if route == Handed then Apply(old(st), Submit(target, dupFd, woken)) else old(st)
    {
      if target.pidfd < 0 {
        return byPid, ByPid;
      }
      if !synchronous {
        var ok := AsyncKill(target, dupFd, woken);
        if ok {
          return 0, Handed;
        }
      }
      return byPidfd, ByPidfd;
    }

    /** One pass through the loop of dequeue_request: go to sleep, or take the newest request. */
    method DequeueRequest(ghost i: nat) returns (r: Option<Job>)
      requires Valid() && i < |st.threads| && st.threads[i] == Ready
      modifies this
      ensures Valid() && commWrites == old(commWrites)
      ensures r.None? <==> old(queue) == []
      ensures if r.None? then queue == old(queue) else old(queue) == queue + [r.value]
      ensures st == Apply(old(st), if r.None? then Wait(i) else Dequeue(i))
      ensures r.Some? ==> HeldBy(st, i, st.threads[i].id) && st.threads[i].id < |st.jobs|
                          && r.value == st.jobs[st.threads[i].id] && st.threads[i].Signalling?
    {
      hide Inv;
      if queue == [] {
        KeepsInv(st, Wait(i));
        st := Apply(st, Wait(i));
        return None;
      }
      KeepsInv(st, Dequeue(i));
      var target := queue[|queue| - 1];
      queue := queue[..|queue| - 1];
      st := Apply(st, Dequeue(i));
      return Some(target);
    }

    /** notify_kill_failure */
    method NotifyKillFailure(pid: int, ghost i: nat)
      requires Valid() && Enabled(st, Notify(i))
      modifies this
      ensures Valid() && st == Apply(old(st), Notify(i)) && commWrites == old(commWrites) + [pid] && queue == old(queue)
    {
      hide Inv;
      KeepsInv(st, Notify(i));
      commWrites := commWrites + [pid];
      st := Apply(st, Notify(i));
    }

    /** request_complete */
    method RequestComplete(ghost i: nat)
      requires Valid() && Enabled(st, Complete(i))
      modifies this
      ensures Valid() && st == Apply(old(st), Complete(i)) && commWrites == old(commWrites) && queue == old(queue)
    {
      hide Inv;
      KeepsInv(st, Complete(i));
      activeRequests := activeRequests - 1;
      st := Apply(st, Complete(i));
    }

    /** A step of thread i outside the mutex. */
    ghost method Unlocked(ev: Event)
      requires Valid() && Enabled(st, ev) && (ev.Signal? || ev.Release? || ev.Close? || ev.Spurious?)
      modifies `st
      ensures Valid() && st == Apply(old(st), ev)
    {
      hide Inv;
      KeepsInv(st, ev);
      st := Apply(st, ev);
    }

    /** The first half of the body of reaper_main: the signal, and a report if it is refused. */
    method SendSignal(target: Job, ok: bool, ghost i: nat, ghost id: nat)
      requires Valid() && i < |st.threads| && st.threads[i] == Signalling(id) && Enabled(st, Signal(i, ok))
      modifies this
      ensures Valid() && queue == old(queue) && commWrites == old(commWrites) + if ok then [] else [target.pid]
      ensures st == Reported(old(st), i, ok)
    {
      hide Inv;
      Unlocked(Signal(i, ok));
      if !ok {
        NotifyKillFailure(target.pid, i);
      } else {
        Unlocked(Release(i));
      }
    }

    /** The label `done` of reaper_main. */
    method Finish(ghost i: nat)
      requires Valid() && Enabled(st, Close(i))
      modifies this
      ensures Valid() && st == Apply(Apply(old(st), Close(i)), Complete(i)) && commWrites == old(commWrites) && queue == old(queue)
    {
      hide Inv;
      Unlocked(Close(i));
      RequestComplete(i);
    }

    /** The body of reaper_main after a request was dequeued; `ok` is the answer of the signal. */
    method Serve(target: Job, ok: bool, ghost i: nat, ghost id: nat)
      requires Valid() && i < |st.threads| && st.threads[i] == Signalling(id) && Enabled(st, Signal(i, ok))
      modifies this
      ensures Valid() && Served(old(st), st, i, id, ok) && queue == old(queue)
      ensures commWrites == old(commWrites) + if ok then [] else [target.pid]
    {
      hide Inv, Apply, Reported, Served;
      ServedOnce(st, i, id, ok);
      SendSignal(target, ok, i, id);
      Finish(i);
    }

    /**
     One turn of the loop of reaper_main by a thread that is awake: without a request it goes to
     sleep; else it serves the request queued last, and reports its pid if the signal is refused.
     */
    method Turn(signalOk: bool, ghost i: nat) returns (served: Option<Job>)
      requires Valid() && i < |st.threads| && st.threads[i] == Ready
      modifies this
      ensures Valid() && i < |st.threads|
      ensures if old(queue) == [] then served.None? && queue == [] && commWrites == old(commWrites)
              else served.Some? && old(queue) == queue + [served.value] && st.threads[i] == Ready
                   && commWrites == old(commWrites)
                                    + if signalOk && served.value.pidfd >= 0 then [] else [served.value.pid]
    {
      hide Inv, Apply;
      served := DequeueRequest(i);
      if served.Some? {
        ghost var id := st.threads[i].id;
        Serve(served.value, signalOk && served.value.pidfd >= 0, i, id);
      }
    }
  }

  ghost function Reported(st: State, i: nat, ok: bool): State
    requires Enabled(st, Signal(i, ok))
  {
    var st1 := Apply(st, Signal(i, ok));
    Apply(st1, if ok then Release(i) else Notify(i))
  }

  /** Thread i is free again, and its request was signalled or reported, closed and completed, once each. */
  ghost predicate Served(before: State, after: State, i: nat, id: nat, ok: bool) {
    && i < |before.threads| && after.threads == before.threads[i := Ready] && after.queue == before.queue
    && id < |before.tallies|
    && after.tallies == before.tallies[id := Tally(1, if ok then 1 else 0, if ok then 0 else 1, 1, 1)]
  }

  lemma ServedOnce(st: State, i: nat, id: nat, ok: bool)
    requires Inv(st) && i < |st.threads| && st.threads[i] == Signalling(id) && Enabled(st, Signal(i, ok))
    ensures var st1 := Reported(st, i, ok);
            && Enabled(st1, Close(i))
            && var st2 := Apply(st1, Close(i));
               && Enabled(st2, Complete(i))
               && Served(st, Apply(st2, Complete(i)), i, id, ok)
  {
    hide Inv, Reported, Served, Apply;
    HeldTally(st, i, id);
    ReportedOnce(st, i, id, ok);
    ClosedOnce(st, Reported(st, i, ok), i, id, ok);
  }

  lemma HeldTally(st: State, i: nat, id: nat)
    requires Inv(st) && i < |st.threads| && st.threads[i] == Signalling(id)
    ensures id < |st.tallies| == |st.jobs| && st.tallies[id] == Tally(1, 0, 0, 0, 0)
  {
    assert HeldBy(st, i, id);
  }

  lemma ClosedOnce(st: State, st1: State, i: nat, id: nat, ok: bool)
    requires i < |st.threads| && id < |st.tallies| == |st.jobs|
    requires st1.threads == st.threads[i := Closing(id)] && st1.queue == st.queue && st1.jobs == st.jobs
    requires st1.tallies == st.tallies[id := Tally(1, if ok then 1 else 0, if ok then 0 else 1, 0, 0)]
    ensures Enabled(st1, Close(i)) && Enabled(Apply(st1, Close(i)), Complete(i))
    ensures Served(st, Apply(Apply(st1, Close(i)), Complete(i)), i, id, ok)
  {
    CloseStep(st1, i, id);
    hide Apply;
    var t := Tally(1, if ok then 1 else 0, if ok then 0 else 1, 1, 1);
    assert st.tallies[id := t.(closed := 0, completed := 0)][id := t] == st.tallies[id := t];
    assert st.threads[i := Closing(id)][i := Ready] == st.threads[i := Ready];
  }

  /** Closing and completing: what the two steps do to the thread and to the tally of its request. */
  lemma CloseStep(st: State, i: nat, id: nat)
    requires i < |st.threads| && st.threads[i] == Closing(id) && id < |st.tallies| == |st.jobs|
    ensures Enabled(st, Close(i)) && Enabled(Apply(st, Close(i)), Complete(i))
    ensures var r := Apply(Apply(st, Close(i)), Complete(i));
            var t := st.tallies[id];
            && r.threads == st.threads[i := Ready] && r.queue == st.queue
            && r.tallies == st.tallies[id := t.(closed := t.closed + 1, completed := t.completed + 1)]
  {
    assert st.threads[i := Completing(id)][i := Ready] == st.threads[i := Ready];
  }

  lemma ReportedOnce(st: State, i: nat, id: nat, ok: bool)
    requires i < |st.threads| && st.threads[i] == Signalling(id) && Enabled(st, Signal(i, ok))
    requires |st.tallies| == |st.jobs| && st.tallies[id] == Tally(1, 0, 0, 0, 0)
    ensures var st1 := Reported(st, i, ok);
            && st1.threads == st.threads[i := Closing(id)] && st1.queue == st.queue && st1.jobs == st.jobs
            && st1.tallies == st.tallies[id := Tally(1, if ok then 1 else 0, if ok then 0 else 1, 0, 0)]
  {
  }

  lemma KeepsInv(st: State, ev: Event)
    requires Inv(st) && Enabled(st, ev)
    ensures Inv(Apply(st, ev)) && |Apply(st, ev).threads| == |st.threads|
  {
    hide Admission, Accounted, DupsOwned, Apply;
    AdmissionStep(st, ev);
    AccountedStep(st, ev);
    DupsStep(st, ev);
  }
}
