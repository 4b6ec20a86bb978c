/**
 The registry as lmkd keeps it: records linked at once into a hash chain by pid and into a
 circular doubly linked ring by oom_score_adj. Every method is proved to act on the two
 structures together as one step of the value model.
 */
module Registry {
  import opened RegistryModel

  const PIDHASH_SZ := 1024

  /** The bits of `a` and `b` below `size`, a power of two, combined with exclusive or. */
  function XorBelow(a: int, b: int, size: nat): (r: nat)
    requires size > 0
    ensures r < size
    decreases size, a, b
  {
    if size == 1 then 0 else (a + b) % 2 + 2 * XorBelow(a / 2, b / 2, size / 2)
  }

  /** `((x >> 8) ^ x) & (PIDHASH_SZ - 1)`; the shift is arithmetic, as is Dafny's division by 256. */
  function PidHash(pid: int): (h: nat)
    ensures h < PIDHASH_SZ
  {
    XorBelow(pid / 256, pid, PIDHASH_SZ)
  }

  /** Bit k of x, counted from the lowest. */
  function Bit(x: int, k: nat): nat
    decreases k
  {
    if k == 0 then x % 2 else Bit(x / 2, k - 1)
  }

  function TwoTo(n: nat): nat {
    if n == 0 then 1 else 2 * TwoTo(n - 1)
  }

  lemma Halves(bit: nat, rest: nat)
    requires bit < 2
    ensures (bit + 2 * rest) / 2 == rest && (bit + 2 * rest) % 2 == bit
  {
  }

  lemma Parity(a: int, b: int)
    ensures (a + b) % 2 == (a % 2 + b % 2) % 2
  {
  }

  lemma {:induction false} XorBits(a: int, b: int, n: nat, k: nat)
    requires k < n && TwoTo(n) == 2 * TwoTo(n - 1) && TwoTo(n - 1) >= 1
    ensures Bit(XorBelow(a, b, TwoTo(n)), k) == (Bit(a, k) + Bit(b, k)) % 2
    decreases n
  {
    var rest := XorBelow(a / 2, b / 2, TwoTo(n - 1));
    assert XorBelow(a, b, TwoTo(n)) == (a + b) % 2 + 2 * rest;
    Halves((a + b) % 2, rest);
    Parity(a, b);
    hide XorBelow;
    if k > 0 {
      XorBits(a / 2, b / 2, n - 1, k - 1);
    }
  }

  /** Each of the ten bits of the hash is the exclusive or of a bit of the pid and the bit eight above. */
  lemma PidHashBits(pid: int, k: nat)
    requires k < 10
    ensures Bit(PidHash(pid), k) == (Bit(pid, k + 8) + Bit(pid, k)) % 2
  {
    assert TwoTo(10) == PIDHASH_SZ;
    XorBits(pid / 256, pid, 10, k);
    EightUp(pid, k);
  }

  lemma EightUp(x: int, k: nat)
    ensures Bit(x, k + 8) == Bit(x / 256, k)
  {
    assert Bit(x, k + 8) == Bit(x / 4, k + 6);
    assert Bit(x / 4, k + 6) == Bit(x / 16, k + 4);
    assert Bit(x / 16, k + 4) == Bit(x / 64, k + 2);
    assert Bit(x / 64, k + 2) == Bit(x / 256, k);
  }

  /**
   struct proc. The ring links of the list heads live in objects of this class too: the source
   casts a head to `struct proc *` and calls it "only an anchor".
   */
  class Proc {
    var next: Proc
    var prev: Proc
    const pid: int
    var pidfd: int
    var uid: int
    var oomadj: int
    var regPid: int
    var valid: bool
    var pidhashNext: Proc?
    /** The slot this object is the head of, -1 for a record. */
    ghost const headOf: int

    constructor (pid: int, pidfd: int, uid: int, oomadj: int, regPid: int)
      ensures this.pid == pid && this.pidfd == pidfd && this.uid == uid && this.oomadj == oomadj
      ensures this.regPid == regPid && valid && headOf == -1
    {
      this.pid, this.pidfd, this.uid, this.oomadj, this.regPid := pid, pidfd, uid, oomadj, regPid;
      valid, pidhashNext, headOf := true, null, -1;
      next, prev := this, this;
    }

    /** A list head: linked to itself, with no process behind it. */
    constructor Head(ghost slot: int)
      ensures headOf == slot && next == this && prev == this
    {
      pid, pidfd, uid, oomadj, regPid, valid, pidhashNext, headOf := 0, 0, 0, 0, 0, false, null, slot;
      next, prev := this, this;
    }

    ghost predicate Holds(rec: Rec)
      reads `pidfd, `uid, `oomadj, `regPid, `valid
    {
      pidfd == rec.pidfd && uid == rec.uid && oomadj == rec.oomadj &&
      regPid == rec.regPid && valid == rec.valid
    }
  }

  // ---------- rings and chains over a map from pids to objects ----------

  ghost predicate Within(xs: seq<int>, objs: map<int, Proc>) {
    forall i :: 0 <= i < |xs| ==> xs[i] in objs
  }

  /** The i-th node of the ring of `head`: the head itself at both ends, records in between. */
  ghost function RingAt(head: Proc, objs: map<int, Proc>, xs: seq<int>, i: int): Proc
    requires 0 <= i <= |xs| + 1
    requires Within(xs, objs)
  {
    if i == 0 || i == |xs| + 1 then head else objs[xs[i - 1]]
  }

  ghost predicate RingLink(head: Proc, objs: map<int, Proc>, xs: seq<int>, i: int)
    requires 0 <= i <= |xs|
    requires Within(xs, objs)
    reads head`next, head`prev, objs.Values`next, objs.Values`prev
  {
    && RingAt(head, objs, xs, i).next == RingAt(head, objs, xs, i + 1)
    && RingAt(head, objs, xs, i + 1).prev == RingAt(head, objs, xs, i)
  }

  /** The links starting at `head` visit the records of `xs` in order and come back. */
  ghost predicate IsRing(head: Proc, objs: map<int, Proc>, xs: seq<int>)
    reads head`next, head`prev, objs.Values`next, objs.Values`prev
  {
    && Within(xs, objs)
    && (forall i :: 0 <= i <= |xs| ==> RingLink(head, objs, xs, i))
  }

  ghost function ChainAt(objs: map<int, Proc>, xs: seq<int>, i: int): Proc?
    requires 0 <= i <= |xs|
    requires Within(xs, objs)
  {
    if i == |xs| then null else objs[xs[i]]
  }

  ghost predicate ChainLink(objs: map<int, Proc>, xs: seq<int>, i: int)
    requires 0 <= i < |xs|
    requires Within(xs, objs)
    reads objs.Values`pidhashNext
  {
    objs[xs[i]].pidhashNext == ChainAt(objs, xs, i + 1)
  }

  /** The chain starting at `first` visits the records of `xs` in order and ends. */
  ghost predicate IsChain(first: Proc?, objs: map<int, Proc>, xs: seq<int>)
    reads objs.Values`pidhashNext
  {
    && Within(xs, objs)
    && first == ChainAt(objs, xs, 0)
    && (forall i :: 0 <= i < |xs| ==> ChainLink(objs, xs, i))
  }

  /** The chains partition the registered pids by hash value. */
  ghost predicate ChainShape(keys: set<int>, chains: seq<seq<int>>) {
    && |chains| == PIDHASH_SZ
    && (forall b, p :: 0 <= b < PIDHASH_SZ ==> (p in chains[b] <==> p in keys && PidHash(p) == b))
    && (forall b :: 0 <= b < PIDHASH_SZ ==> NoDup(chains[b]))
  }

  /** Each object holds the record of its pid. */
  ghost predicate Objects(objs: map<int, Proc>, recs: map<int, Rec>)
    reads objs.Values`pidfd, objs.Values`uid, objs.Values`oomadj
    reads objs.Values`regPid, objs.Values`valid
  {
    && objs.Keys == recs.Keys
    && (forall p :: p in objs ==> objs[p].Holds(recs[p]))
  }

  /** Heads and records are all different objects. */
  ghost predicate Distinct(heads: seq<Proc>, objs: map<int, Proc>) {
    && |heads| == ADJTOSLOT_COUNT
    && (forall s :: 0 <= s < ADJTOSLOT_COUNT ==> heads[s].headOf == s)
    && (forall p :: p in objs ==> objs[p].pid == p && objs[p].headOf == -1)
  }

  ghost predicate Rings(heads: seq<Proc>, objs: map<int, Proc>, slots: seq<seq<int>>)
    reads heads`next, heads`prev, objs.Values`next, objs.Values`prev
  {
    && |slots| == |heads| == ADJTOSLOT_COUNT
    && (forall s :: 0 <= s < ADJTOSLOT_COUNT ==> IsRing(heads[s], objs, slots[s]))
  }

  ghost predicate Chains(pidhash: array<Proc?>, objs: map<int, Proc>, chains: seq<seq<int>>)
    reads pidhash, objs.Values`pidhashNext
  {
    && pidhash.Length == |chains| == PIDHASH_SZ
    && (forall b :: 0 <= b < PIDHASH_SZ ==> IsChain(pidhash[b], objs, chains[b]))
  }

  /** Two object maps that agree on the pids of a ring or chain see the same links. */
  lemma RingAgrees(head: Proc, objs: map<int, Proc>, objs': map<int, Proc>, xs: seq<int>)
    requires IsRing(head, objs, xs)
    requires forall i :: 0 <= i < |xs| ==> xs[i] in objs' && objs'[xs[i]] == objs[xs[i]]
    ensures IsRing(head, objs', xs)
  {
    forall i | 0 <= i <= |xs| ensures RingLink(head, objs', xs, i) {
      assert RingLink(head, objs, xs, i);
    }
  }

  lemma ChainAgrees(first: Proc?, objs: map<int, Proc>, objs': map<int, Proc>, xs: seq<int>)
    requires IsChain(first, objs, xs)
    requires forall i :: 0 <= i < |xs| ==> xs[i] in objs' && objs'[xs[i]] == objs[xs[i]]
    ensures IsChain(first, objs', xs)
  {
    forall i | 0 <= i < |xs| ensures ChainLink(objs', xs, i) {
      assert ChainLink(objs, xs, i);
    }
  }

  /** adjslot_insert */
  method AdjslotInsert(head: Proc, e: Proc)
    requires e != head && head.next != e
    modifies head`next, head.next`prev, e`next, e`prev
    ensures head.next == e && e.prev == head
    ensures e.next == old(head.next) && old(head.next).prev == e
    ensures head.prev == if old(head.next) == head then e else old(head.prev)
  {
    var next := head.next;
    e.prev := head;
    e.next := next;
    next.prev := e;
    head.next := e;
  }

  /** adjslot_remove */
  method AdjslotRemove(e: Proc)
    requires e.next != e && e.prev != e
    modifies e.prev`next, e.next`prev
    ensures old(e.prev).next == old(e.next)
    ensures old(e.next).prev == old(e.prev)
  {
    var prev := e.prev;
    var next := e.next;
    next.prev := prev;
    prev.next := next;
  }

  /** No pid occurs at two places of the rings. */
  ghost predicate Apart(slots: seq<seq<int>>) {
    && (forall s :: 0 <= s < |slots| ==> NoDup(slots[s]))
    && (forall s, t, i, j | 0 <= s < |slots| && 0 <= t < |slots| && s != t
          :: 0 <= i < |slots[s]| && 0 <= j < |slots[t]| ==> slots[s][i] != slots[t][j])
  }

  lemma ShapeApart(recs: map<int, Rec>, slots: seq<seq<int>>)
    requires Shape(recs, slots)
    ensures Apart(slots)
  {
    forall s, t, i, j | 0 <= s < ADJTOSLOT_COUNT && 0 <= t < ADJTOSLOT_COUNT && s != t &&
      0 <= i < |slots[s]| && 0 <= j < |slots[t]|
      ensures slots[s][i] != slots[t][j]
    {
      ShapeAt(recs, slots, s, i);
      ShapeAt(recs, slots, t, j);
    }
  }

  /** The part of the kernel the registry talks to: its table of open pidfds. */
  class Kernel {
    var openFds: set<int>
    var strayCloses: nat

    /** pidfd_open: the kernel picks a number that is not in use. */
    method PidfdOpen(fd: int)
      requires fd !in openFds
      modifies this
      ensures openFds == old(openFds) + {fd} && strayCloses == old(strayCloses)
    {
      openFds := openFds + {fd};
    }

    method Close(fd: int)
      modifies this
      ensures openFds == old(openFds) - {fd}
      ensures strayCloses == old(strayCloses) + if fd in old(openFds) then 0 else 1
    {
      if fd in openFds {
        openFds := openFds - {fd};
      } else {
        strayCloses := strayCloses + 1;
      }
    }
  }

  class Registry {
    const kernel: Kernel
    const pidhash: array<Proc?>
    const heads: seq<Proc>
    var lastKillPidOrFd: int
    const pidfdSupported: bool

    /** The value this structure represents. */
    ghost var st: State
    ghost var objs: map<int, Proc>
    ghost var chains: seq<seq<int>>

    ghost function Repr(): set<object>
      reads this
    {
      {this, kernel, pidhash} + (set h | h in heads) + objs.Values
    }

    /** Both indexes hold exactly the records of `st`; descriptors are not considered. */
    ghost predicate Linked()
      reads Repr()
    {
      && Objects(objs, st.recs) && Distinct(heads, objs)
      && Rings(heads, objs, st.slots)
      && Chains(pidhash, objs, chains) && ChainShape(objs.Keys, chains)
      && Shape(st.recs, st.slots)
      && lastKillPidOrFd == st.lastKill
      && pidfdSupported == st.pidfdSupported
      && kernel.openFds == st.openFds && kernel.strayCloses == st.strayCloses
    }

    ghost predicate Valid()
      reads Repr()
    {
      Linked() && WellFormed(st)
    }

    /** What a thread that only looks at the rings relies on: they link the records of `now`, if not all. */
    ghost predicate Lookable(now: State)
      reads Repr()
    {
      && Objects(objs, now.recs) && Distinct(heads, objs)
      && Rings(heads, objs, now.slots) && Loose(now.recs, now.slots)
    }

    lemma LinkedLookable()
      requires Linked()
      ensures Lookable(st)
    {
      ShapeIsLoose(st.recs, st.slots);
    }

    /** The static initial state and the loop of init() that closes every ring on itself. */
    constructor (kernel: Kernel, pidfdSupported: bool)
      requires kernel.openFds == {} && kernel.strayCloses == 0
      ensures Valid() && st == Init(pidfdSupported)
      ensures this.kernel == kernel && fresh(Repr() - {kernel})
    {
      var hs: seq<Proc> := [];
      while |hs| < ADJTOSLOT_COUNT
        invariant |hs| <= ADJTOSLOT_COUNT
        invariant forall s :: 0 <= s < |hs| ==>
                    fresh(hs[s]) && hs[s].headOf == s && hs[s].next == hs[s] && hs[s].prev == hs[s]
      {
        var h := new Proc.Head(|hs|);
        hs := hs + [h];
      }
      var table := new Proc?[PIDHASH_SZ](i => null);
      this.kernel, this.pidfdSupported := kernel, pidfdSupported;
      pidhash, heads, lastKillPidOrFd := table, hs, -1;
      st, objs, chains := Init(pidfdSupported), map[], seq(PIDHASH_SZ, b => []);
      new;
      forall s | 0 <= s < ADJTOSLOT_COUNT ensures IsRing(heads[s], objs, st.slots[s]) {
        assert st.slots[s] == [];
        assert RingLink(heads[s], objs, st.slots[s], 0);
      }
    }

    /** pid_lookup */
    method PidLookup(pid: int) returns (p: Proc?)
      requires Linked()
      ensures p == if pid in objs then objs[pid] else null
    {
      var h := PidHash(pid);
      p := pidhash[h];
      ghost var xs := chains[h];
      ghost var k := 0;
      while p != null && p.pid != pid
        invariant 0 <= k <= |xs| && p == ChainAt(objs, xs, k)
        invariant forall j :: 0 <= j < k ==> xs[j] != pid
        decreases |xs| - k
      {
        assert ChainLink(objs, xs, k);
        p := p.pidhashNext;
        k := k + 1;
      }
    }

    /** proc_slot */
    method ProcSlot(p: Proc, ghost os: map<int, Proc>, ghost slots: seq<seq<int>>)
      requires Distinct(heads, os) && Rings(heads, os, slots) && Apart(slots)
      requires p.pid in os && os[p.pid] == p && InRange(p.oomadj)
      requires forall s, i :: 0 <= s < |slots| && 0 <= i < |slots[s]| ==> slots[s][i] != p.pid
      modifies heads`next, heads`prev, os.Values`next, os.Values`prev
      ensures Rings(heads, os, Slotted(slots, p.pid, p.oomadj))
      ensures var head := heads[AdjToSlot(p.oomadj)];
              head.next == p && p.prev == head && p.next == old(head.next)
    {
      var s := AdjToSlot(p.oomadj);
      ghost var xs := slots[s];
      ghost var ys := [p.pid] + xs;
      assert RingLink(heads[s], os, xs, 0);
      AdjslotInsert(heads[s], p);
      forall i | 0 <= i <= |ys| ensures RingLink(heads[s], os, ys, i) {
        if i >= 2 {
          assert old(RingLink(heads[s], os, xs, i - 1));
        }
      }
      forall t | 0 <= t < ADJTOSLOT_COUNT && t != s ensures IsRing(heads[t], os, slots[t]) {
        forall i | 0 <= i <= |slots[t]| ensures RingLink(heads[t], os, slots[t], i) {
          assert old(RingLink(heads[t], os, slots[t], i));
        }
      }
    }

    /** proc_unslot */
    method ProcUnslot(p: Proc, ghost s: nat, ghost k: nat, ghost os: map<int, Proc>, ghost slots: seq<seq<int>>)
      requires Distinct(heads, os) && Rings(heads, os, slots) && Apart(slots)
      requires s < ADJTOSLOT_COUNT && k < |slots[s]| && slots[s][k] == p.pid && os[p.pid] == p
      modifies heads`next, heads`prev, os.Values`next, os.Values`prev
      ensures Rings(heads, os, slots[s := slots[s][..k] + slots[s][k + 1..]])
    {
      ghost var xs := slots[s];
      ghost var ys := xs[..k] + xs[k + 1..];
      assert RingLink(heads[s], os, xs, k) && RingLink(heads[s], os, xs, k + 1);
      AdjslotRemove(p);
      forall i | 0 <= i <= |ys| ensures RingLink(heads[s], os, ys, i) {
        if i < k {
          assert old(RingLink(heads[s], os, xs, i));
        } else if i > k {
          assert old(RingLink(heads[s], os, xs, i + 1));
        }
      }
      forall t | 0 <= t < ADJTOSLOT_COUNT && t != s ensures IsRing(heads[t], os, slots[t]) {
        forall i | 0 <= i <= |slots[t]| ensures RingLink(heads[t], os, slots[t], i) {
          assert old(RingLink(heads[t], os, slots[t], i));
        }
      }
    }

    /** The position of a registered pid in its slot; the rings of a well-shaped state are apart. */
    lemma PositionOf(pid: int) returns (s: nat, k: nat)
      requires Shape(st.recs, st.slots) && pid in st.recs
      ensures s == AdjToSlot(st.recs[pid].oomadj) && k < |st.slots[s]| && st.slots[s][k] == pid
      ensures Apart(st.slots)
      ensures DropAll(st.slots, {pid}) == st.slots[s := st.slots[s][..k] + st.slots[s][k + 1..]]
    {
      s := AdjToSlot(st.recs[pid].oomadj);
      assert pid in st.slots[s];
      k :| 0 <= k < |st.slots[s]| && st.slots[s][k] == pid;
      DropAt(st.slots[s], k);
      forall t | 0 <= t < ADJTOSLOT_COUNT && t != s ensures Drop(st.slots[t], {pid}) == st.slots[t] {
        assert pid !in st.slots[t];
        DropNothing(st.slots[t], {pid});
      }
      ShapeApart(st.recs, st.slots);
    }

    /** The search loop of pid_remove: the record of `pid` and its predecessor in the chain. */
    method FindInChain(pid: int) returns (p: Proc?, prevp: Proc?, ghost k: nat)
      requires Linked()
      ensures p == if pid in objs then objs[pid] else null
      ensures var xs := chains[PidHash(pid)];
              && k <= |xs| && p == ChainAt(objs, xs, k)
              && prevp == (if k == 0 then null else objs[xs[k - 1]])
    {
      var h := PidHash(pid);
      ghost var xs := chains[h];
      k := 0;
      prevp := null;
      p := pidhash[h];
      while p != null && p.pid != pid
        invariant 0 <= k <= |xs| && p == ChainAt(objs, xs, k)
        invariant prevp == if k == 0 then null else objs[xs[k - 1]]
        invariant forall j :: 0 <= j < k ==> xs[j] != pid
        decreases |xs| - k
      {
        assert ChainLink(objs, xs, k);
        prevp := p;
        p := p.pidhashNext;
        k := k + 1;
      }
    }

    /** Cut the k-th record out of chain `h`. */
    method ChainCut(h: nat, p: Proc, prevp: Proc?, ghost k: nat)
      requires Distinct(heads, objs) && Chains(pidhash, objs, chains) && ChainShape(objs.Keys, chains)
      requires h < PIDHASH_SZ
      requires k < |chains[h]| && p == objs[chains[h][k]]
      requires prevp == if k == 0 then null else objs[chains[h][k - 1]]
      modifies pidhash, `chains, objs.Values`pidhashNext
      ensures chains == old(chains)[h := old(chains[h][..k] + chains[h][k + 1..])]
      ensures Chains(pidhash, objs, chains)
    {
      ghost var xs := chains[h];
      assert ChainLink(objs, xs, k);
      if prevp == null {
        pidhash[h] := p.pidhashNext;
      } else {
        prevp.pidhashNext := p.pidhashNext;
      }
      ghost var ys := xs[..k] + xs[k + 1..];
      chains := chains[h := ys];
      forall i | 0 <= i < |ys| ensures ChainLink(objs, ys, i) {
        assert old(ChainLink(objs, xs, if i < k then i else i + 1));
      }
      forall b | 0 <= b < PIDHASH_SZ && b != h ensures IsChain(pidhash[b], objs, chains[b]) {
        forall i | 0 <= i < |chains[b]| ensures ChainLink(objs, chains[b], i) {
          assert old(ChainLink(objs, chains[b], i));
          ghost var x := chains[b][i];
          assert x in chains[b];
        }
      }
    }

    /** Record that the linked structure now stands for the state `now`. */
    ghost method Represent(now: State, objs': map<int, Proc>, chains': seq<seq<int>>)
      requires Objects(objs', now.recs) && Distinct(heads, objs')
      requires Rings(heads, objs', now.slots)
      requires Chains(pidhash, objs', chains') && ChainShape(objs'.Keys, chains')
      requires Shape(now.recs, now.slots)
      requires lastKillPidOrFd == now.lastKill && pidfdSupported == now.pidfdSupported
      requires kernel.openFds == now.openFds && kernel.strayCloses == now.strayCloses
      modifies `st, `objs, `chains
      ensures Linked() && st == now && objs == objs' && chains == chains'
    {
      st, objs, chains := now, objs', chains';
    }

    /** Take a record out of its chain and its ring. */
    method Unlink(pid: int, p: Proc, prevp: Proc?, ghost k: nat)
      requires Linked() && pid in objs && p == objs[pid]
      requires k < |chains[PidHash(pid)]| && chains[PidHash(pid)][k] == pid
      requires prevp == if k == 0 then null else objs[chains[PidHash(pid)][k - 1]]
      modifies pidhash, `chains, objs.Values`pidhashNext
      modifies heads`next, heads`prev, objs.Values`next, objs.Values`prev
      ensures chains == old(chains)[PidHash(pid) := Drop(old(chains)[PidHash(pid)], {pid})]
      ensures Chains(pidhash, objs, chains)
      ensures Rings(heads, objs, DropAll(st.slots, {pid}))
    {
      var h := PidHash(pid);
      ghost var s, i := PositionOf(pid);
      DropAt(chains[h], k);
      ChainCut(h, p, prevp, k);
      ProcUnslot(p, s, i, objs, st.slots);
    }

    /** pid_remove, once the record has been found. */
    method RemoveFound(pid: int, p: Proc, prevp: Proc?, ghost k: nat)
      requires Linked() && pid in objs && p == objs[pid]
      requires k < |chains[PidHash(pid)]| && chains[PidHash(pid)][k] == pid
      requires prevp == if k == 0 then null else objs[chains[PidHash(pid)][k - 1]]
      modifies `st, `objs, `chains, kernel, pidhash, objs.Values`pidhashNext
      modifies heads`next, heads`prev, objs.Values`next, objs.Values`prev
      ensures Linked() && st == Remove(old(st), pid)
      ensures objs == old(objs) - {pid}
      ensures chains == old(chains)[PidHash(pid) := Drop(old(chains)[PidHash(pid)], {pid})]
    {
      hide Drop, IsChain, IsRing;
      assert p.Holds(st.recs[pid]);
      ghost var now := Remove(st, pid);
      assert now.recs == st.recs - {pid} && now.slots == DropAll(st.slots, {pid}) && now.lastKill == st.lastKill;
      Unlink(pid, p, prevp, k);
      assert Objects(objs, st.recs);
      if p.pidfd >= 0 && p.pidfd != lastKillPidOrFd {
        kernel.Close(p.pidfd);
      }
      assert kernel.openFds == now.openFds && kernel.strayCloses == now.strayCloses;
      ForgetRings(heads, objs, st.recs, st.slots, pid);
      ForgetChains(pidhash, objs, old(chains), chains, pid);
      DropAllShape(st.recs, st.slots, {pid});
      assert Objects(objs - {pid}, now.recs);
      Represent(now, objs - {pid}, chains);
    }

    /** pid_remove */
    method PidRemove(pid: int) returns (r: int)
      requires Linked()
      modifies `st, `objs, `chains, kernel, pidhash, objs.Values`pidhashNext
      modifies heads`next, heads`prev, objs.Values`next, objs.Values`prev
      ensures Linked() && st == Remove(old(st), pid)
      ensures objs == old(objs) - {pid}
      ensures chains == old(chains)[PidHash(pid) := Drop(old(chains)[PidHash(pid)], {pid})]
      ensures r == if pid in old(objs) then 0 else -1
    {
      var p, prevp, k := FindInChain(pid);
      if p == null {
        DropNothing(chains[PidHash(pid)], {pid});
        assert objs - {pid} == objs;
        r := -1;
      } else {
        RemoveFound(pid, p, prevp, k);
        r := 0;
      }
    }

    /** Push a new record in front of its chain. */
    method ChainPush(h: nat, p: Proc)
      requires Distinct(heads, objs) && Chains(pidhash, objs, chains) && ChainShape(objs.Keys, chains)
      requires p.pid !in objs && h == PidHash(p.pid)
      modifies pidhash, p`pidhashNext
      ensures Chains(pidhash, objs[p.pid := p], chains[h := [p.pid] + chains[h]])
      ensures ChainShape(objs[p.pid := p].Keys, chains[h := [p.pid] + chains[h]])
    {
      ghost var os := objs[p.pid := p];
      ghost var xs := chains[h];
      p.pidhashNext := pidhash[h];
      pidhash[h] := p;
      forall b | 0 <= b < PIDHASH_SZ
        ensures forall i :: 0 <= i < |chains[b]| ==> chains[b][i] in os && ChainLink(os, chains[b], i)
      {
        forall i | 0 <= i < |chains[b]| ensures chains[b][i] in os && ChainLink(os, chains[b], i) {
          assert old(ChainLink(objs, chains[b], i));
        }
      }
      ghost var ys := [p.pid] + xs;
      forall i | 0 <= i < |ys| ensures ys[i] in os && ChainLink(os, ys, i) {
        if i > 0 {
          assert ChainLink(os, xs, i - 1);
        }
      }
      assert p.pid !in xs;
    }

    /** Link a new record into its chain and its ring. */
    method LinkNew(h: nat, p: Proc, ghost adj: OomAdj)
      requires Linked() && p.pid !in objs && p.headOf == -1 && h == PidHash(p.pid) && p.oomadj == adj
      modifies pidhash, p`pidhashNext, p`next, p`prev
      modifies heads`next, heads`prev, objs.Values`next, objs.Values`prev
      ensures Chains(pidhash, objs[p.pid := p], chains[h := [p.pid] + chains[h]])
      ensures ChainShape(objs[p.pid := p].Keys, chains[h := [p.pid] + chains[h]])
      ensures Rings(heads, objs[p.pid := p], Slotted(st.slots, p.pid, adj))
    {
      GrowRings(heads, objs, st.recs, st.slots, p);
      ChainPush(h, p);
      ProcSlot(p, objs[p.pid := p], st.slots);
    }

    /** proc_insert */
    method ProcInsert(p: Proc, ghost rec: Rec)
      requires Linked() && p.pid !in objs && p.pid > 0 && p.headOf == -1 && p.Holds(rec)
      modifies `st, `objs, `chains, pidhash, p`pidhashNext, p`next, p`prev
      modifies heads`next, heads`prev, objs.Values`next, objs.Values`prev
      ensures Linked() && objs == old(objs)[p.pid := p]
      ensures st == old(st).(recs := old(st.recs)[p.pid := rec], slots := Slotted(old(st.slots), p.pid, rec.oomadj))
    {
      var h := PidHash(p.pid);
      ghost var os := objs[p.pid := p];
      ghost var now := st.(recs := st.recs[p.pid := rec], slots := Slotted(st.slots, p.pid, rec.oomadj));
      ghost var cs := chains[h := [p.pid] + chains[h]];
      SlottedShape(st.recs, st.slots, p.pid, rec);
      LinkNew(h, p, rec.oomadj);
      assert Objects(os, now.recs);
      Represent(now, os, cs);
    }

    /** claim_record */
    method ClaimRecord(p: Proc, client: int) returns (ok: bool)
      requires Linked() && p.pid in objs && objs[p.pid] == p
      modifies `st, `objs, `chains, p`regPid
      ensures Linked() && objs == old(objs) && chains == old(chains)
      ensures ok == Claimable(old(st.recs[p.pid]), client)
      ensures st == if ok then old(st.(recs := st.recs[p.pid := st.recs[p.pid].(regPid := client)])) else old(st)
    {
      assert p.Holds(st.recs[p.pid]);
      ghost var now := st.(recs := st.recs[p.pid := st.recs[p.pid].(regPid := client)]);
      if p.regPid == client {
        assert now.recs == st.recs;
        return true;
      }
      if p.regPid == 0 {
        p.regPid := client;
        assert Objects(objs, now.recs);
        Represent(now, objs, chains);
        return true;
      }
      return false;
    }

    method TakeOut(p: Proc, adj: int)
      requires Distinct(heads, objs) && Rings(heads, objs, st.slots) && Shape(st.recs, st.slots)
      requires p.pid in objs && objs[p.pid] == p && p.pid in st.recs && InRange(adj)
      modifies p`oomadj, heads`next, heads`prev, objs.Values`next, objs.Values`prev
      ensures p.oomadj == adj && Rings(heads, objs, DropAll(st.slots, {p.pid}))
    {
      ghost var s, k := PositionOf(p.pid);
      ReslotShape(st.recs, st.slots, p.pid, adj);
      ProcUnslot(p, s, k, objs, st.slots);
      p.oomadj := adj;
    }

    /**
     proc_unslot and the new adj: the lock is free again before proc_slot takes it, and another
     thread that looks now finds the record in no ring.
     */
    method Withdraw(p: Proc, adj: int)
      requires Linked() && p.pid in objs && objs[p.pid] == p && InRange(adj)
      modifies p`oomadj, heads`next, heads`prev, objs.Values`next, objs.Values`prev
      ensures p.oomadj == adj && Lookable(Unslotted(st, p.pid, adj))
    {
      assert |st.slots| == ADJTOSLOT_COUNT;
      hide Shape, Loose, Chains, ChainShape, Rings, DropAll;
      ghost var now := Unslotted(st, p.pid, adj);
      UnslottedIsLoose(st, p.pid, adj);
      TakeOut(p, adj);
      assert Objects(objs, now.recs);
      hide Distinct, Objects;
    }

    method MoveToSlot(p: Proc, adj: int)
      requires Linked() && p.pid in objs && objs[p.pid] == p && InRange(adj)
      modifies p`oomadj, heads`next, heads`prev, objs.Values`next, objs.Values`prev
      ensures p.oomadj == adj
      ensures Rings(heads, objs, Slotted(DropAll(st.slots, {p.pid}), p.pid, adj))
    {
      ReslotShape(st.recs, st.slots, p.pid, adj);
      hide Chains, ChainShape, Objects, Shape, Rings;
      Withdraw(p, adj);
      ProcSlot(p, objs, DropAll(st.slots, {p.pid}));
    }

    /** The re-slotting done when a registered process gets a new oom_score_adj. */
    method Reslot(p: Proc, adj: int)
      requires Linked() && p.pid in objs && objs[p.pid] == p && InRange(adj)
      modifies `st, `objs, `chains, p`oomadj
      modifies heads`next, heads`prev, objs.Values`next, objs.Values`prev
      ensures Linked() && objs == old(objs)
      ensures st == old(st.(recs := st.recs[p.pid := st.recs[p.pid].(oomadj := adj)],
                            slots := Slotted(DropAll(st.slots, {p.pid}), p.pid, adj)))
    {
      hide Chains, ChainShape, Rings;
      ghost var slots := DropAll(st.slots, {p.pid});
      ghost var now := st.(recs := st.recs[p.pid := st.recs[p.pid].(oomadj := adj)],
                           slots := Slotted(slots, p.pid, adj));
      ReslotShape(st.recs, st.slots, p.pid, adj);
      MoveToSlot(p, adj);
      assert Objects(objs, now.recs);
      Represent(now, objs, chains);
    }

    /** register_oom_adj_proc */
    method RegisterOomAdjProc(req: Request, client: int, perAppMemcg: bool, env: Answers)
      requires Linked() && InRange(req.oomadj) && req.pid > 0 && FreshFd(st, env)
      modifies Repr()
      ensures Linked() && st == Register(old(st), req, client, perAppMemcg, env)
      ensures fresh(Repr() - old(Repr()))
    {
      var adj := req.oomadj;
      if req.ptype == PROC_TYPE_APP && perAppMemcg {
        if 600 <= req.oomadj < 700 {
          adj := 200;
        }
        if !env.cgroupOk {
          return;
        }
      }
      assert adj == EffectiveAdj(req, perAppMemcg);
      var p := PidLookup(req.pid);
      if p == null {
        RegisterNew(req, client, adj, env);
      } else {
        RegisterAgain(p, client, adj);
      }
    }

    /** The branch for a pid that is already registered. */
    method RegisterAgain(p: Proc, client: int, adj: int)
      requires Linked() && p.pid in objs && objs[p.pid] == p && InRange(adj)
      modifies `st, `objs, `chains, p`regPid, p`oomadj
      modifies heads`next, heads`prev, objs.Values`next, objs.Values`prev
      ensures Linked() && objs == old(objs)
      ensures st == RegisterKnown(old(st), p.pid, client, adj)
    {
      var ok := ClaimRecord(p, client);
      if ok {
        KnownInSteps(old(st), p.pid, client, adj);
        Reslot(p, adj);
      }
    }

    /** The branch for a pid that is not registered yet. */
    method RegisterNew(req: Request, client: int, adj: int, env: Answers)
      requires Linked() && InRange(adj) && req.pid > 0 && req.pid !in objs && FreshFd(st, env)
      modifies `st, `objs, `chains, kernel, pidhash
      modifies heads`next, heads`prev, objs.Values`next, objs.Values`prev
      ensures Linked() && fresh(Repr() - old(Repr()))
      ensures st == RegisterFresh(old(st), req, client, adj, env)
    {
      var pidfd := -1;
      if pidfdSupported {
        pidfd := env.newFd;
        if pidfd < 0 {
          return;
        }
        OpenPidfd(pidfd);
      }
      if !env.allocOk {
        return;
      }
      AddRecord(req.pid, pidfd, req.uid, adj, client);
    }

    method OpenPidfd(pidfd: int)
      requires Linked() && pidfd !in st.openFds
      modifies `st, `objs, `chains, kernel
      ensures Linked() && objs == old(objs) && chains == old(chains)
      ensures st == old(st.(openFds := st.openFds + {pidfd}))
    {
      kernel.PidfdOpen(pidfd);
      Represent(st.(openFds := st.openFds + {pidfd}), objs, chains);
    }

    method AddRecord(pid: int, pidfd: int, uid: int, adj: int, client: int)
      requires Linked() && pid !in objs && pid > 0 && InRange(adj)
      modifies `st, `objs, `chains, pidhash
      modifies heads`next, heads`prev, objs.Values`next, objs.Values`prev
      ensures Linked() && fresh(Repr() - old(Repr()))
      ensures st == old(st.(recs := st.recs[pid := Rec(pidfd, uid, adj, client, true)],
                            slots := Slotted(st.slots, pid, adj)))
    {
      var p := new Proc(pid, pidfd, uid, adj, client);
      assert Linked();
      ProcInsert(p, Rec(pidfd, uid, adj, client, true));
    }

    /** apply_proc_prio with the userspace killer. */
    method ApplyPrio(req: Request, client: int, perAppMemcg: bool, env: Answers)
      requires Valid() && (env.writeOk ==> req.pid > 0) && FreshFd(st, env)
      modifies Repr()
      ensures Valid() && st == ApplyProcPrio(old(st), req, client, perAppMemcg, env)
      ensures fresh(Repr() - old(Repr()))
    {
      if req.oomadj < OOM_SCORE_ADJ_MIN || req.oomadj > OOM_SCORE_ADJ_MAX {
        return;
      }
      if req.ptype < PROC_TYPE_APP || req.ptype >= PROC_TYPE_COUNT {
        return;
      }
      if !env.tgidOk {
        return;
      }
      if !env.writeOk {
        return;
      }
      RegisterWellFormed(st, req, client, perAppMemcg, env);
      RegisterOomAdjProc(req, client, perAppMemcg, env);
    }

    /** claim_record followed by pid_remove. */
    method RemoveIfClaimed(p: Proc, client: int) returns (ok: bool)
      requires Valid() && p.pid in objs && objs[p.pid] == p
      modifies `st, `objs, `chains, kernel, pidhash, objs.Values`pidhashNext, p`regPid
      modifies heads`next, heads`prev, objs.Values`next, objs.Values`prev
      ensures Valid() && ok == Claimable(old(st.recs[p.pid]), client)
      ensures st == if ok then Remove(old(st), p.pid) else old(st)
      ensures objs == if ok then old(objs) - {p.pid} else old(objs)
      ensures chains == if ok then old(chains)[PidHash(p.pid) := Drop(old(chains)[PidHash(p.pid)], {p.pid})]
                        else old(chains)
    {
      ok := ClaimRecord(p, client);
      if ok {
        RemoveIgnoresClaim(old(st), p.pid, client);
        RemoveOne(old(st), p.pid);
        var _ := PidRemove(p.pid);
      }
    }

    /** cmd_procremove */
    method CmdProcRemove(pid: int, client: int)
      requires Valid()
      modifies Repr()
      ensures Valid() && st == ProcRemove(old(st), pid, client)
      ensures fresh(Repr() - old(Repr()))
    {
      var p := PidLookup(pid);
      if p == null {
        return;
      }
      var _ := RemoveIfClaimed(p, client);
    }

    /** pid_invalidate */
    method PidInvalidate(pid: int)
      requires Valid()
      modifies Repr()
      ensures Valid() && st == Invalidate(old(st), pid) && objs == old(objs) && chains == old(chains)
    {
      var p := PidLookup(pid);
      if p != null {
        InvalidateWellFormed(st, pid);
        MarkInvalid(p);
      }
    }

    method MarkInvalid(p: Proc)
      requires Linked() && p.pid in objs && objs[p.pid] == p
      modifies `st, `objs, `chains, p`valid
      ensures Linked() && objs == old(objs) && chains == old(chains)
      ensures st == Invalidate(old(st), p.pid)
    {
      p.valid := false;
      ghost var now := Invalidate(st, p.pid);
      assert Objects(objs, now.recs);
      Represent(now, objs, chains);
    }

    /** stop_wait_for_proc_kill */
    method StopWaitForProcKill()
      requires Linked()
      modifies `st, `objs, `chains, `lastKillPidOrFd, kernel
      ensures Linked() && st == StopWait(old(st)) && objs == old(objs) && chains == old(chains)
    {
      hide Shape, Rings, Chains, ChainShape, Objects, Distinct;
      if lastKillPidOrFd < 0 {
        return;
      }
      if pidfdSupported {
        kernel.Close(lastKillPidOrFd);
      }
      lastKillPidOrFd := -1;
      Represent(StopWait(st), objs, chains);
    }

    /** start_wait_for_proc_kill; `epollOk` is the answer of epoll_ctl. */
    method StartWaitForProcKill(pidOrFd: int, epollOk: bool)
      requires Linked()
      modifies `st, `objs, `chains, `lastKillPidOrFd, kernel
      ensures Linked() && st == StartWait(old(st), pidOrFd, epollOk) && objs == old(objs) && chains == old(chains)
    {
      if lastKillPidOrFd >= 0 {
        StopWaitForProcKill();
      }
      BeginWait(pidOrFd, epollOk);
    }

    method BeginWait(pidOrFd: int, epollOk: bool)
      requires Linked()
      modifies `st, `objs, `chains, `lastKillPidOrFd, kernel
      ensures Linked() && objs == old(objs) && chains == old(chains)
      ensures st == if !old(st).pidfdSupported || epollOk then old(st).(lastKill := pidOrFd)
                    else Close(old(st).(lastKill := pidOrFd), pidOrFd).(lastKill := -1)
    {
      hide Shape, Rings, Chains, ChainShape, Objects, Distinct;
      lastKillPidOrFd := pidOrFd;
      if pidfdSupported && !epollOk {
        kernel.Close(lastKillPidOrFd);
        lastKillPidOrFd := -1;
      }
      ghost var st1 := st.(lastKill := pidOrFd);
      Represent(if !pidfdSupported || epollOk then st1 else Close(st1, pidOrFd).(lastKill := -1), objs, chains);
    }

    /** Give up one record if `client` claimed it. */
    method Disown(p: Proc, client: int)
      requires Linked() && p.pid in objs && objs[p.pid] == p
      modifies `st, `objs, `chains, p`regPid
      ensures Linked() && objs == old(objs) && chains == old(chains)
      ensures st == UnclaimIn(old(st), client, {p.pid})
    {
      assert p.Holds(st.recs[p.pid]);
      ghost var now := UnclaimIn(st, client, {p.pid});
      if p.regPid == client {
        p.regPid := 0;
        assert Objects(objs, now.recs);
        Represent(now, objs, chains);
      } else {
        assert now.recs == st.recs;
      }
    }

    /** The inner loop of remove_claims, over one hash chain. */
    method UnclaimChain(b: nat, client: int)
      requires Linked() && b < PIDHASH_SZ
      modifies `st, `objs, `chains, objs.Values`regPid
      ensures Linked() && objs == old(objs) && chains == old(chains)
      ensures st == UnclaimIn(old(st), client, Members(chains[b]))
    {
      ghost var xs := chains[b];
      ghost var k := 0;
      var p := pidhash[b];
      assert Members(xs[..0]) == {} && xs[..|xs|] == xs;
      UnclaimParts(st, client, {}, {});
      while p != null
        invariant Linked() && objs == old(objs) && chains == old(chains)
        invariant 0 <= k <= |xs| && p == ChainAt(objs, xs, k)
        invariant st == UnclaimIn(old(st), client, Members(xs[..k]))
        decreases |xs| - k
      {
        p := DisownNext(p, client, b, k);
        UnclaimNext(old(st), client, xs, k);
        k := k + 1;
      }
    }

    /** One turn of that loop. */
    method DisownNext(p: Proc, client: int, ghost b: nat, ghost k: nat) returns (next: Proc?)
      requires Linked() && b < PIDHASH_SZ && k < |chains[b]| && objs[chains[b][k]] == p
      modifies `st, `objs, `chains, p`regPid
      ensures Linked() && objs == old(objs) && chains == old(chains)
      ensures st == UnclaimIn(old(st), client, {chains[b][k]})
      ensures next == ChainAt(objs, chains[b], k + 1)
    {
      assert ChainLink(objs, chains[b], k);
      Disown(p, client);
      next := p.pidhashNext;
    }

    /** remove_claims */
    method RemoveClaims(client: int)
      requires Valid()
      modifies Repr()
      ensures Valid() && st == Unclaim(old(st), client) && objs == old(objs) && chains == old(chains)
    {
      ghost var st0 := st;
      UnclaimParts(st, client, {}, {});
      for b := 0 to PIDHASH_SZ
        invariant Linked() && objs == old(objs) && chains == old(chains)
        invariant st == UnclaimIn(st0, client, Union(chains[..b]))
      {
        UnclaimChain(b, client);
        UnclaimParts(st0, client, Union(chains[..b]), Members(chains[b]));
        UnionNext(chains, b);
      }
      assert chains[..PIDHASH_SZ] == chains;
      UnionAll(st0.recs.Keys, chains);
      UnclaimParts(st0, client, Union(chains), {});
      UnclaimWellFormed(st0, client);
    }

    /** One turn of the inner loop of cmd_procpurge: `next` is read before the record may go. */
    method PurgeNext(p: Proc, client: int, ghost b: nat, ghost k: nat) returns (next: Proc?, ok: bool)
      requires Valid() && b < PIDHASH_SZ && k < |chains[b]| && objs[chains[b][k]] == p
      modifies `st, `objs, `chains, kernel, pidhash, objs.Values`pidhashNext, p`regPid
      modifies heads`next, heads`prev, objs.Values`next, objs.Values`prev
      ensures Valid() && objs.Values <= old(objs).Values
      ensures ok == Claimable(old(st.recs[chains[b][k]]), client)
      ensures st == if ok then Remove(old(st), old(chains[b][k])) else old(st)
      ensures SameBut(chains, old(chains), b) && |chains| == |old(chains)| == PIDHASH_SZ
      ensures chains[b] == if ok then old(chains[b][..k] + chains[b][k + 1..]) else old(chains[b])
      ensures next == ChainAt(objs, chains[b], if ok then k else k + 1)
    {
      ghost var pid := chains[b][k];
      assert ChainLink(objs, chains[b], k);
      assert pid in chains[b] && PidHash(pid) == b;
      DropAt(chains[b], k);
      next := p.pidhashNext;
      ok := RemoveIfClaimed(p, client);
    }

    /** The state of the inner loop of cmd_procpurge after j records of the chain `xs`. */
    ghost predicate Purging(p: Proc?, client: int, b: nat, xs: seq<int>, j: nat, st0: State)
      reads this
    {
      && b < |chains| && j <= |xs| && NoDup(xs) && (forall i :: 0 <= i < |xs| ==> xs[i] in st0.recs)
      && WellFormed(st0)
      && st == RemoveAll(st0, Members(xs[..j]) * ClaimableBy(st0, client))
      && chains[b] == Drop(xs[..j], ClaimableBy(st0, client)) + xs[j..]
      && Within(chains[b], objs)
      && p == ChainAt(objs, chains[b], |Drop(xs[..j], ClaimableBy(st0, client))|)
    }

    method PurgeTurn(p: Proc, client: int, ghost b: nat, ghost xs: seq<int>, ghost j: nat, ghost st0: State,
                     ghost cs0: seq<seq<int>>)
      returns (next: Proc?)
      requires Valid() && j < |xs| && Purging(p, client, b, xs, j, st0) && SameBut(chains, cs0, b)
      modifies `st, `objs, `chains, kernel, pidhash, objs.Values`pidhashNext, p`regPid
      modifies heads`next, heads`prev, objs.Values`next, objs.Values`prev
      ensures Valid() && objs.Values <= old(objs).Values && Purging(next, client, b, xs, j + 1, st0)
      ensures SameBut(chains, cs0, b)
      ensures if next == null then j + 1 == |xs| else j + 1 < |xs| && next in objs.Values
    {
      next := PurgeOne(p, client, b, xs, j, st0);
      hide *;
      PurgingEnds(next, client, b, xs, j + 1, st0);
      SameButThen(chains, old(chains), cs0, b);
    }

    method PurgeOne(p: Proc, client: int, ghost b: nat, ghost xs: seq<int>, ghost j: nat, ghost st0: State)
      returns (next: Proc?)
      requires Valid() && j < |xs| && Purging(p, client, b, xs, j, st0)
      modifies `st, `objs, `chains, kernel, pidhash, objs.Values`pidhashNext, p`regPid
      modifies heads`next, heads`prev, objs.Values`next, objs.Values`prev
      ensures Valid() && objs.Values <= old(objs).Values && Purging(next, client, b, xs, j + 1, st0)
      ensures SameBut(chains, old(chains), b)
    {
      ghost var kept := Drop(xs[..j], ClaimableBy(st0, client));
      CutAfter(kept, xs, j);
      SweepAlong(st0, ClaimableBy(st0, client), xs, j);
      var ok;
      next, ok := PurgeNext(p, client, b, |kept|);
    }

    /** The inner loop of cmd_procpurge, over one hash chain. */
    method PurgeChain(b: nat, client: int)
      requires Valid() && b < PIDHASH_SZ
      modifies `st, `objs, `chains, kernel, pidhash, objs.Values`pidhashNext, objs.Values`regPid
      modifies heads`next, heads`prev, objs.Values`next, objs.Values`prev
      ensures Valid() && objs.Values <= old(objs).Values
      ensures st == RemoveAll(old(st), Members(old(chains)[b]) * ClaimableBy(old(st), client))
      ensures SameBut(chains, old(chains), b)
    {
      ghost var xs, j, st0, cs0 := chains[b], 0, st, chains;
      var p := pidhash[b];
      PurgingStarts(client, b);
      PurgingEnds(p, client, b, xs, j, st0);
      hide Purging, RemoveAll, WellFormed, Shape, Rings, Chains, ChainShape, Objects, Distinct;
      while p != null
        invariant Valid() && objs.Values <= old(objs).Values
        invariant 0 <= j <= |xs| && Purging(p, client, b, xs, j, st0)
        invariant SameBut(chains, cs0, b)
        invariant if p == null then j == |xs| else j < |xs| && p in objs.Values
        decreases |xs| - j
      {
        p := PurgeTurn(p, client, b, xs, j, st0, cs0);
        j := j + 1;
      }
      PurgingEnds(p, client, b, xs, j, st0);
    }

    lemma PurgingStarts(client: int, b: nat)
      requires Valid() && b < PIDHASH_SZ
      ensures Purging(pidhash[b], client, b, chains[b], 0, st)
    {
      SweepStart(st, ClaimableBy(st, client), chains[b]);
      ChainWithin(objs, chains, b);
    }

    lemma PurgingEnds(p: Proc?, client: int, b: nat, xs: seq<int>, j: nat, st0: State)
      requires Purging(p, client, b, xs, j, st0)
      ensures p == null <==> j == |xs|
      ensures p != null ==> p in objs.Values
      ensures p == null ==> st == RemoveAll(st0, Members(xs) * ClaimableBy(st0, client))
    {
      assert xs[..|xs|] == xs;
    }

    /** One turn of the outer loop of cmd_procpurge, after which one chain more is purged. */
    method PurgeBucket(b: nat, client: int, ghost st0: State, ghost cs0: seq<seq<int>>)
      requires Valid() && b < PIDHASH_SZ && WellFormed(st0) && FromOn(chains, cs0, b)
      requires st == RemoveAll(st0, Union(cs0[..b]) * ClaimableBy(st0, client))
      modifies `st, `objs, `chains, kernel, pidhash, objs.Values`pidhashNext, objs.Values`regPid
      modifies heads`next, heads`prev, objs.Values`next, objs.Values`prev
      ensures Valid() && objs.Values <= old(objs).Values && FromOn(chains, cs0, b + 1)
      ensures st == RemoveAll(st0, Union(cs0[..b + 1]) * ClaimableBy(st0, client))
    {
      hide Shape, FdsOwned, Rings, Chains, ChainShape, Objects, Distinct, RemoveAll, ClaimableBy, Union, Members;
      PurgeMore(st0, client, Union(cs0[..b]), Members(cs0[b]));
      UnionNext(cs0, b);
      PurgeChain(b, client);
    }

    /** cmd_procpurge with the userspace killer. */
    method CmdProcPurge(client: int)
      requires Valid()
      modifies Repr()
      ensures Valid() && st == Purge(old(st), client)
      ensures fresh(Repr() - old(Repr()))
    {
      hide Shape, FdsOwned, Rings, Chains, ChainShape, Objects, Distinct, RemoveAll, ClaimableBy, Purge, Union, Members, FromOn;
      ghost var st0, cs0 := st, chains;
      PurgeReady(client);
      for b := 0 to PIDHASH_SZ
        invariant Valid() && objs.Values <= old(objs).Values && |cs0| == PIDHASH_SZ && FromOn(chains, cs0, b)
        invariant st == RemoveAll(st0, Union(cs0[..b]) * ClaimableBy(st0, client))
      {
        PurgeBucket(b, client, st0, cs0);
      }
    }

    /** Before the first chain nothing is purged, and after the last one everything is. */
    lemma PurgeReady(client: int)
      requires Valid()
      ensures |chains| == PIDHASH_SZ && FromOn(chains, chains, 0)
      ensures RemoveAll(st, Union(chains[..0]) * ClaimableBy(st, client)) == st
      ensures RemoveAll(st, Union(chains[..PIDHASH_SZ]) * ClaimableBy(st, client)) == Purge(st, client)
    {
      var all := ClaimableBy(st, client);
      UnionAll(st.recs.Keys, chains);
      assert Union(chains) * all == all && chains[..PIDHASH_SZ] == chains;
      assert Union(chains[..0]) * all == {};
      RemoveAllNone(st, {});
    }
  }

  /** The chains from the b-th on are as they were. */
  ghost predicate FromOn(chains: seq<seq<int>>, before: seq<seq<int>>, b: nat) {
    |chains| == |before| == PIDHASH_SZ && forall i :: b <= i < PIDHASH_SZ ==> chains[i] == before[i]
  }

  ghost predicate SameBut(chains: seq<seq<int>>, before: seq<seq<int>>, b: nat) {
    |chains| == |before| == PIDHASH_SZ && forall i :: 0 <= i < PIDHASH_SZ && i != b ==> chains[i] == before[i]
  }

  lemma SameButThen(a: seq<seq<int>>, b: seq<seq<int>>, c: seq<seq<int>>, k: nat)
    requires SameBut(a, b, k) && SameBut(b, c, k)
    ensures SameBut(a, c, k)
  {
  }

  lemma ChainWithin(objs: map<int, Proc>, chains: seq<seq<int>>, b: nat)
    requires ChainShape(objs.Keys, chains) && b < PIDHASH_SZ
    ensures forall i :: 0 <= i < |chains[b]| ==> chains[b][i] in objs
  {
    forall i | 0 <= i < |chains[b]| ensures chains[b][i] in objs {
      var x := chains[b][i];
      assert x in chains[b];
    }
  }

  /** The pids of some chains. */
  ghost function Union(chains: seq<seq<int>>): set<int> {
    if chains == [] then {} else Union(chains[..|chains| - 1]) + Members(chains[|chains| - 1])
  }

  lemma {:induction false} UnionHas(chains: seq<seq<int>>, i: nat, p: int)
    requires i < |chains| && p in chains[i]
    ensures p in Union(chains)
  {
    if i < |chains| - 1 {
      UnionHas(chains[..|chains| - 1], i, p);
    }
  }

  lemma UnionNext(chains: seq<seq<int>>, b: nat)
    requires b < |chains|
    ensures Union(chains[..b + 1]) == Union(chains[..b]) + Members(chains[b])
  {
    assert chains[..b + 1][..b] == chains[..b];
  }

  lemma UnionAll(keys: set<int>, chains: seq<seq<int>>)
    requires ChainShape(keys, chains)
    ensures keys <= Union(chains)
  {
    forall p | p in keys ensures p in Union(chains) {
      assert p in chains[PidHash(p)];
      UnionHas(chains, PidHash(p), p);
    }
  }

  lemma KnownInSteps(st: State, pid: int, client: int, adj: OomAdj)
    requires |st.slots| == ADJTOSLOT_COUNT && pid in st.recs && Claimable(st.recs[pid], client)
    ensures var st1 := st.(recs := st.recs[pid := st.recs[pid].(regPid := client)]);
            RegisterKnown(st, pid, client, adj)
            == st1.(recs := st1.recs[pid := st1.recs[pid].(oomadj := adj)],
                    slots := Slotted(DropAll(st1.slots, {pid}), pid, adj))
  {
  }

  lemma RemoveIgnoresClaim(st: State, pid: int, client: int)
    requires pid in st.recs
    ensures Remove(st.(recs := st.recs[pid := st.recs[pid].(regPid := client)]), pid) == Remove(st, pid)
  {
    assert st.recs[pid := st.recs[pid].(regPid := client)] - {pid} == st.recs - {pid};
  }

  lemma ReslotShape(recs: map<int, Rec>, slots: seq<seq<int>>, pid: int, adj: OomAdj)
    requires Shape(recs, slots) && pid in recs
    ensures var rest := DropAll(slots, {pid});
            && Apart(rest)
            && (forall t, i :: 0 <= t < |rest| && 0 <= i < |rest[t]| ==> rest[t][i] != pid)
            && Shape(recs[pid := recs[pid].(oomadj := adj)], Slotted(rest, pid, adj))
  {
    var rest := DropAll(slots, {pid});
    var bare := recs - {pid};
    DropAllShape(recs, slots, {pid});
    ShapeApart(bare, rest);
    SlottedShape(bare, rest, pid, recs[pid].(oomadj := adj));
    assert bare[pid := recs[pid].(oomadj := adj)] == recs[pid := recs[pid].(oomadj := adj)];
    forall t, i | 0 <= t < |rest| && 0 <= i < |rest[t]| ensures rest[t][i] != pid {
      ShapeAt(bare, rest, t, i);
    }
  }

  lemma GrowRings(heads: seq<Proc>, objs: map<int, Proc>, recs: map<int, Rec>, slots: seq<seq<int>>, p: Proc)
    requires Shape(recs, slots) && objs.Keys == recs.Keys && p.pid !in objs
    requires Rings(heads, objs, slots)
    ensures Rings(heads, objs[p.pid := p], slots) && Apart(slots)
    ensures forall s, i :: 0 <= s < |slots| && 0 <= i < |slots[s]| ==> slots[s][i] != p.pid
  {
    ShapeApart(recs, slots);
    forall s | 0 <= s < ADJTOSLOT_COUNT
      ensures IsRing(heads[s], objs[p.pid := p], slots[s])
      ensures forall i :: 0 <= i < |slots[s]| ==> slots[s][i] != p.pid
    {
      forall i | 0 <= i < |slots[s]| ensures slots[s][i] in objs {
        ShapeAt(recs, slots, s, i);
      }
      RingAgrees(heads[s], objs, objs[p.pid := p], slots[s]);
    }
  }

  lemma ForgetRings(heads: seq<Proc>, objs: map<int, Proc>, recs: map<int, Rec>, slots: seq<seq<int>>, pid: int)
    requires Shape(recs, slots) && objs.Keys == recs.Keys
    requires Rings(heads, objs, DropAll(slots, {pid}))
    ensures Rings(heads, objs - {pid}, DropAll(slots, {pid}))
  {
    var rest := DropAll(slots, {pid});
    DropAllShape(recs, slots, {pid});
    forall s | 0 <= s < ADJTOSLOT_COUNT ensures IsRing(heads[s], objs - {pid}, rest[s]) {
      forall i | 0 <= i < |rest[s]| ensures rest[s][i] in objs - {pid} {
        ShapeAt(recs - {pid}, rest, s, i);
      }
      RingAgrees(heads[s], objs, objs - {pid}, rest[s]);
    }
  }

  lemma ForgetChains(pidhash: array<Proc?>, objs: map<int, Proc>, before: seq<seq<int>>, after: seq<seq<int>>, pid: int)
    requires ChainShape(objs.Keys, before)
    requires after == before[PidHash(pid) := Drop(before[PidHash(pid)], {pid})]
    requires Chains(pidhash, objs, after)
    ensures Chains(pidhash, objs - {pid}, after) && ChainShape((objs - {pid}).Keys, after)
  {
    DropKeeps(before[PidHash(pid)], {pid});
    forall b | 0 <= b < PIDHASH_SZ ensures IsChain(pidhash[b], objs - {pid}, after[b]) {
      forall i | 0 <= i < |after[b]| ensures after[b][i] in objs - {pid} {
        var x := after[b][i];
        assert x in after[b];
      }
      ChainAgrees(pidhash[b], objs, objs - {pid}, after[b]);
    }
  }
}
