/**
 Safety of the two-lock table over every interleaving.

 `Inv` ties the links of the heap to one ghost chain per bucket, the counts to the
 outstanding references, the mutexes to the program counters, and says what each
 program counter knows.  Preservation is by rely-guarantee: `Guar` is what a step
 of a thread may do to the objects of others, and every `PcOK` is stable under it.
 */
module TwoLockProof {
  import opened Wrappers
  import opened TwoLockTable

  /** `xs` is what a walk along `next` from `head` visits, and it visits nothing twice. */
  ghost predicate IsChain(heap: seq<Foo>, head: Option<Ref>, xs: seq<Ref>) {
    && head == At(xs, 0)
    && (forall i :: 0 <= i < |xs| ==> LinkOK(heap, xs, i))
    && (forall i, j :: 0 <= i < j < |xs| ==> xs[i] != xs[j])
  }

  ghost predicate LinkOK(heap: seq<Foo>, xs: seq<Ref>, i: nat) {
    i < |xs| && xs[i] < |heap| && heap[xs[i]].next == At(xs, i + 1)
  }

  function At(xs: seq<Ref>, i: nat): Option<Ref> {
    if i < |xs| then Some(xs[i]) else None
  }

  type Chains = seq<seq<Ref>>

  ghost predicate InBucket(f: Foo, b: nat) {
    f.phase.Linked? && Hash(f.id) == b
  }

  ghost predicate BucketOK(heap: seq<Foo>, head: Option<Ref>, b: nat, xs: seq<Ref>) {
    && IsChain(heap, head, xs)
    && (forall q :: q in xs ==> q < |heap|)
    && (forall r :: 0 <= r < |heap| ==> (r in xs <==> InBucket(heap[r], b)))
  }

  ghost predicate ChainsOK(s: State, c: Chains) {
    && |s.fh| == |c| == NHASH
    && (forall b :: 0 <= b < NHASH ==> BucketOK(s.heap, s.fh[b], b, c[b]))
  }

  /** References are counted exactly, and only a linked or transient object has any. */
  ghost predicate FooOK(f: Foo) {
    && f.count == |f.owners|
    && match f.phase
       case Fresh(t) => f.owners == multiset{t}
       case Linked => f.count >= 1
       case Leaving(t) => f.owners == multiset{t}
       case Closing(_) => f.count == 0
       case Dead => f.count == 0
  }

  ghost predicate FoosOK(heap: seq<Foo>) {
    forall r :: 0 <= r < |heap| ==> FooOK(heap[r])
  }

  /** A mutex is held exactly by the thread whose program counter says so. */
  ghost predicate LocksOK(s: State)
    requires Valid(s)
  {
    && (forall t :: 0 <= t < |s.pcs| ==> (HoldsHash(s.pcs[t]) <==> s.hashlock == Some(t)))
    && (s.hashlock.Some? ==> s.hashlock.value < |s.pcs|)
    && (forall t :: 0 <= t < |s.pcs| && HoldsLock(s.pcs[t]) ==> s.heap[s.pcs[t].r].lock == Some(t))
    && (forall r :: 0 <= r < |s.heap| ==> HolderOK(s, r))
  }

  ghost predicate HolderOK(s: State, r: Ref)
    requires r < |s.heap|
  {
    s.heap[r].lock.Some? ==>
      var t := s.heap[r].lock.value;
      t < |s.pcs| && HoldsLock(s.pcs[t]) && s.pcs[t].r == r
  }

  /** The thread a transient phase names. */
  function Tag(p: Phase): Option<Tid> {
    match p
    case Fresh(u) => Some(u)
    case Leaving(u) => Some(u)
    case Closing(u) => Some(u)
    case Linked => None
    case Dead => None
  }

  /** Where the thread named by a transient phase stands. */
  ghost predicate Busy(p: Phase, r: Ref, pc: Pc) {
    match p
    case Fresh(_) => pc == CreateLock(r) || pc == CreateLink(r) || pc == CreateHead(r)
    case Leaving(_) => pc == ReleLast(r)
    case Closing(_) => pc == ReleLastUnhash(r) || pc == ReleLastUnlock(r) || pc == ReleDestroy(r)
    case Linked => true
    case Dead => true
  }

  ghost predicate PhaseOK(s: State, r: Ref)
    requires r < |s.heap|
  {
    var tag := Tag(s.heap[r].phase);
    tag.Some? ==> tag.value < |s.pcs| && Busy(s.heap[r].phase, r, s.pcs[tag.value])
  }

  ghost predicate PhasesOK(s: State) {
    forall r :: 0 <= r < |s.heap| ==> PhaseOK(s, r)
  }

  /** No object with identifier `key` among the first `k` of the chain. */
  ghost predicate NoneBefore(heap: seq<Foo>, xs: seq<Ref>, k: nat, key: nat) {
    forall j :: 0 <= j < k && j < |xs| && xs[j] < |heap| ==> heap[xs[j]].id != key
  }

  ghost predicate FindPos(heap: seq<Foo>, xs: seq<Ref>, k: nat, key: nat, fp: Option<Ref>) {
    k <= |xs| && fp == At(xs, k) && NoneBefore(heap, xs, k, key)
  }

  ghost predicate WalkPos(xs: seq<Ref>, k: nat, r: Ref, tfp: Option<Ref>) {
    k + 1 < |xs| && tfp == Some(xs[k]) && r in xs[k + 1..]
  }

  /** What each program counter knows. */
  ghost predicate PcOK(s: State, c: Chains, t: Tid, pc: Pc)
    requires |s.fh| == |c| == NHASH && ValidPc(s, pc)
  {
    match pc
    case Idle | FindLock(_) | FindHead(_) => true
    case CreateUnlock(r) => t in s.heap[r].owners
    case CreateLock(r) => s.heap[r].phase == Fresh(t)
    case CreateLink(r) => s.heap[r].phase == Fresh(t)
    case CreateHead(r) => s.heap[r].phase == Fresh(t) && s.heap[r].next == s.fh[Hash(s.heap[r].id)]
    case HoldCheck(r, f) => if f.Some? then s.heap[r].phase == Linked && s.heap[r].id == f.value else t in s.heap[r].owners
    case HoldLock(r, f) => if f.Some? then s.heap[r].phase == Linked && s.heap[r].id == f.value else t in s.heap[r].owners
    case HoldInc(r, f) => if f.Some? then s.heap[r].phase == Linked && s.heap[r].id == f.value else t in s.heap[r].owners
    case HoldUnlock(r, f) => t in s.heap[r].owners && (f.Some? ==> s.heap[r].id == f.value)
    case FindLoop(key, fp) => exists k: nat :: FindPos(s.heap, c[Hash(key)], k, key, fp)
    case FindUnlock(key, fp) =>
      if fp.None? then NoneBefore(s.heap, c[Hash(key)], |c[Hash(key)]|, key)
      else s.heap[fp.value].id == key && t in s.heap[fp.value].owners
    case ReleCheck(r) => t in s.heap[r].owners
    case ReleLock(r) => t in s.heap[r].owners
    case ReleTest(r) => t in s.heap[r].owners
    case ReleDrop(r) => t in s.heap[r].owners && s.heap[r].count == 1
    case ReleHash(r) => t in s.heap[r].owners
    case ReleRelock(r) => t in s.heap[r].owners
    case ReleRecheck(r) => t in s.heap[r].owners
    case ReleDec(r) => t in s.heap[r].owners && s.heap[r].count >= 2
    case ReleFast(r) => t in s.heap[r].owners && s.heap[r].count >= 2
    case ReleDecUnlock(r) => s.heap[r].phase == Linked
    case ReleFastUnlock(r) => s.heap[r].phase == Linked
    case ReleDecUnhash(r) => s.heap[r].phase == Linked
    case ReleHead(r) => LastOwner(s, t, r)
    case ReleWalk(r, tfp) => LastOwner(s, t, r) && exists k: nat :: WalkPos(c[Hash(s.heap[r].id)], k, r, tfp)
    case ReleBypass(r, pred) => LastOwner(s, t, r) && s.heap[pred].next == Some(r) && pred in c[Hash(s.heap[r].id)]
    case ReleLast(r) => s.heap[r].phase == Leaving(t)
    case ReleLastUnhash(r) => s.heap[r].phase == Closing(t)
    case ReleLastUnlock(r) => s.heap[r].phase == Closing(t)
    case ReleDestroy(r) => s.heap[r].phase == Closing(t)
    case Failed => false
  }

  /** The releasing thread holds the only reference to a linked object. */
  ghost predicate LastOwner(s: State, t: Tid, r: Ref)
    requires r < |s.heap|
  {
    s.heap[r].phase == Linked && s.heap[r].owners == multiset{t}
  }

  ghost predicate PcsOK(s: State, c: Chains)
    requires Valid(s) && |c| == NHASH
  {
    forall t :: 0 <= t < |s.pcs| ==> PcOK(s, c, t, s.pcs[t])
  }

  ghost predicate Inv(s: State, c: Chains) {
    && Valid(s)
    && ChainsOK(s, c)
    && FoosOK(s.heap)
    && LocksOK(s)
    && PhasesOK(s)
    && PcsOK(s, c)
  }

  // ----- rely-guarantee -----

  ghost predicate OthersPhase(p: Phase, t: Tid) {
    p.Dead? || (Tag(p).Some? && Tag(p).value != t)
  }

  /** What a step of `t` may do to one object, `h` telling whether `t` holds `hashlock`. */
  ghost predicate FooGuar(f: Foo, g: Foo, t: Tid, h: bool) {
    && g.id == f.id
    && (f.lock.Some? && f.lock.value != t ==>
          g.count == f.count && g.phase == f.phase && (t !in f.owners ==> g.owners == f.owners))
    && (forall u :: u != t && u in f.owners ==> u in g.owners)
    && (OthersPhase(f.phase, t) ==> g.phase == f.phase && g.next == f.next)
    && (!h && f.phase.Linked? ==> g.phase.Linked? && g.next == f.next)
  }

  ghost predicate Guar(s: State, c: Chains, s': State, c': Chains, t: Tid) {
    && t < |s.pcs| == |s'.pcs|
    && (forall u :: 0 <= u < |s.pcs| && u != t ==> s'.pcs[u] == s.pcs[u])
    && |s.heap| <= |s'.heap|
    && (forall r :: 0 <= r < |s.heap| ==> FooGuar(s.heap[r], s'.heap[r], t, HoldsHash(s.pcs[t])))
    && (!HoldsHash(s.pcs[t]) ==> s'.fh == s.fh && c' == c)
  }

  lemma Stable(s: State, c: Chains, s': State, c': Chains, t: Tid, u: Tid)
    requires Inv(s, c) && |s'.fh| == |c'| == NHASH && Guar(s, c, s', c', t)
    requires u < |s.pcs| && u != t
    ensures ValidPc(s', s.pcs[u]) && PcOK(s', c', u, s.pcs[u])
  {
    var pc := s.pcs[u];
    assert PcOK(s, c, u, pc) && ValidPc(s, pc);
    if pc.FindLoop? || pc.FindUnlock? {
      StableFind(s, c, s', c', t, u);
    } else if RefOf(pc).Some? {
      if pc.ReleBypass? {
        PredLinked(s, c, Hash(s.heap[pc.r].id), pc.pred);
      }
      StableRef(s, c, s', c', t, u);
    }
  }

  lemma StableRef(s: State, c: Chains, s': State, c': Chains, t: Tid, u: Tid)
    requires Valid(s) && LocksOK(s) && |c| == |s'.fh| == |c'| == NHASH && Guar(s, c, s', c', t)
    requires u < |s.pcs| && u != t && PcOK(s, c, u, s.pcs[u])
    requires RefOf(s.pcs[u]).Some? && !s.pcs[u].FindLoop? && !s.pcs[u].FindUnlock?
    requires s.pcs[u].ReleBypass? ==> s.heap[s.pcs[u].pred].phase.Linked?
    ensures ValidPc(s', s.pcs[u]) && PcOK(s', c', u, s.pcs[u])
  {
    var pc := s.pcs[u];
    assert FooGuar(s.heap[pc.r], s'.heap[pc.r], t, HoldsHash(s.pcs[t]));
    if pc.ReleBypass? {
      assert FooGuar(s.heap[pc.pred], s'.heap[pc.pred], t, HoldsHash(s.pcs[t]));
    }
    StableAt(s, c, s', c', t, u, HoldsHash(s.pcs[t]));
  }

  lemma PredLinked(s: State, c: Chains, b: nat, pred: Ref)
    requires ChainsOK(s, c) && b < NHASH && pred in c[b]
    ensures pred < |s.heap| && s.heap[pred].phase.Linked?
  {
    assert BucketOK(s.heap, s.fh[b], b, c[b]);
  }

  lemma StableAt(s: State, c: Chains, s': State, c': Chains, t: Tid, u: Tid, h: bool)
    requires |s.fh| == |c| == |s'.fh| == |c'| == NHASH && |s.heap| <= |s'.heap|
    requires u < |s.pcs| && u != t && ValidPc(s, s.pcs[u]) && PcOK(s, c, u, s.pcs[u])
    requires RefOf(s.pcs[u]).Some? && !s.pcs[u].FindLoop? && !s.pcs[u].FindUnlock?
    requires FooGuar(s.heap[s.pcs[u].r], s'.heap[s.pcs[u].r], t, h)
    requires HoldsHash(s.pcs[u]) ==> !h && s'.fh == s.fh && c' == c
    requires HoldsLock(s.pcs[u]) ==> s.heap[s.pcs[u].r].lock == Some(u)
    requires s.pcs[u].ReleBypass? ==> s'.heap[s.pcs[u].pred].next == s.heap[s.pcs[u].pred].next
    ensures ValidPc(s', s.pcs[u]) && PcOK(s', c', u, s.pcs[u])
  {
  }

  lemma StableFind(s: State, c: Chains, s': State, c': Chains, t: Tid, u: Tid)
    requires Inv(s, c) && |s'.fh| == |c'| == NHASH && Guar(s, c, s', c', t)
    requires u < |s.pcs| && u != t && (s.pcs[u].FindLoop? || s.pcs[u].FindUnlock?)
    ensures ValidPc(s', s.pcs[u]) && PcOK(s', c', u, s.pcs[u])
  {
    var pc := s.pcs[u];
    var xs := c[Hash(pc.key)];
    assert PcOK(s, c, u, pc) && ValidPc(s, pc);
    assert BucketOK(s.heap, s.fh[Hash(pc.key)], Hash(pc.key), xs);
    if pc.FindLoop? {
      var k: nat :| FindPos(s.heap, xs, k, pc.key, pc.fp);
      NoneBeforeKept(s, s', t, xs, k, pc.key);
      assert FindPos(s'.heap, c'[Hash(pc.key)], k, pc.key, pc.fp);
    } else if pc.fp.None? {
      NoneBeforeKept(s, s', t, xs, |xs|, pc.key);
    } else {
      assert FooGuar(s.heap[pc.fp.value], s'.heap[pc.fp.value], t, HoldsHash(s.pcs[t]));
    }
  }

  lemma NoneBeforeKept(s: State, s': State, t: Tid, xs: seq<Ref>, k: nat, key: nat)
    requires |s.heap| <= |s'.heap| && t < |s.pcs| && (forall q :: q in xs ==> q < |s.heap|)
    requires forall r :: 0 <= r < |s.heap| ==> FooGuar(s.heap[r], s'.heap[r], t, HoldsHash(s.pcs[t]))
    requires NoneBefore(s.heap, xs, k, key)
    ensures NoneBefore(s'.heap, xs, k, key)
  {
    forall j | 0 <= j < k && j < |xs| && xs[j] < |s'.heap| ensures s'.heap[xs[j]].id != key {
      assert xs[j] in xs;
      assert FooGuar(s.heap[xs[j]], s'.heap[xs[j]], t, HoldsHash(s.pcs[t]));
    }
  }

  /** Everything a step of `t` has to establish. */
  ghost predicate StepOK(s: State, c: Chains, s': State, c': Chains, t: Tid) {
    && |s'.fh| == |c'| == NHASH
    && Guar(s, c, s', c', t)
    && ValidPc(s', s'.pcs[t])
    && Valid(s')
    && ChainsOK(s', c')
    && FoosOK(s'.heap)
    && LocksOK(s')
    && PhasesOK(s')
    && PcOK(s', c', t, s'.pcs[t])
  }

  lemma StepSuffices(s: State, c: Chains, s': State, c': Chains, t: Tid)
    requires Inv(s, c) && StepOK(s, c, s', c', t)
    ensures Inv(s', c')
  {
    forall u | 0 <= u < |s'.pcs| ensures PcOK(s', c', u, s'.pcs[u]) {
      if u != t {
        Stable(s, c, s', c', t, u);
      }
    }
  }

  // ----- chains under the steps -----

  ghost predicate SameLinks(h: seq<Foo>, g: seq<Foo>) {
    && |h| <= |g|
    && (forall r :: 0 <= r < |h| ==> SameLink(h[r], g[r]))
    && (forall r :: |h| <= r < |g| ==> !g[r].phase.Linked?)
  }

  ghost predicate SameLink(f: Foo, g: Foo) {
    g.id == f.id && (g.phase.Linked? <==> f.phase.Linked?) && (f.phase.Linked? ==> g.next == f.next)
  }

  lemma BucketFrame(h: seq<Foo>, g: seq<Foo>, head: Option<Ref>, b: nat, xs: seq<Ref>)
    requires SameLinks(h, g) && BucketOK(h, head, b, xs)
    ensures BucketOK(g, head, b, xs)
  {
    forall i | 0 <= i < |xs| ensures LinkOK(g, xs, i) {
      assert LinkOK(h, xs, i) && xs[i] in xs && InBucket(h[xs[i]], b);
      assert SameLink(h[xs[i]], g[xs[i]]);
    }
    forall r | 0 <= r < |g| ensures r in xs <==> InBucket(g[r], b) {
      if r < |h| {
        assert SameLink(h[r], g[r]);
      }
    }
  }

  lemma ChainsFrame(s: State, c: Chains, s': State)
    requires ChainsOK(s, c) && s'.fh == s.fh && SameLinks(s.heap, s'.heap)
    ensures ChainsOK(s', c)
  {
    forall b | 0 <= b < NHASH ensures BucketOK(s'.heap, s'.fh[b], b, c[b]) {
      BucketFrame(s.heap, s'.heap, s.fh[b], b, c[b]);
    }
  }

  // ----- locks and objects under an update of one object -----

  /** The step of `t` that rewrites object `r`, `hashlock` and its own program counter. */
  function Upd(s: State, t: Tid, r: Ref, f: Foo, hl: Option<Tid>, pc: Pc): State
    requires t < |s.pcs| && r < |s.heap|
  {
    State(s.heap[r := f], s.fh, hl, s.pcs[t := pc])
  }

  /** A mutex is taken when free, given back by its holder, or left alone. */
  ghost predicate MutexStep(before: Option<Tid>, after: Option<Tid>, t: Tid) {
    after == before || (before.None? && after == Some(t)) || (before == Some(t) && after.None?)
  }

  ghost predicate LockStep(s: State, t: Tid, r: Ref, lock: Option<Tid>, hl: Option<Tid>, pc: Pc)
    requires t < |s.pcs| && r < |s.heap|
  {
    && MutexStep(s.hashlock, hl, t) && (HoldsHash(pc) <==> hl == Some(t))
    && MutexStep(s.heap[r].lock, lock, t) && (HoldsLock(pc) <==> lock == Some(t))
    && (HoldsLock(pc) ==> pc.r == r)
    && (HoldsLock(s.pcs[t]) ==> s.pcs[t].r == r)
  }

  lemma LocksKept(s: State, s': State, t: Tid, r: Ref)
    requires Valid(s) && LocksOK(s) && Valid(s') && t < |s.pcs| == |s'.pcs| && r < |s.heap|
    requires |s'.heap| == |s.heap| && s'.pcs == s.pcs[t := s'.pcs[t]]
    requires forall q :: 0 <= q < |s.heap| && q != r ==> s'.heap[q].lock == s.heap[q].lock
    requires LockStep(s, t, r, s'.heap[r].lock, s'.hashlock, s'.pcs[t])
    ensures LocksOK(s')
  {
    forall q | 0 <= q < |s'.heap| ensures HolderOK(s', q) {
      assert HolderOK(s, q);
    }
    forall u | 0 <= u < |s'.pcs| && HoldsLock(s'.pcs[u]) ensures s'.heap[s'.pcs[u].r].lock == Some(u) {
    }
  }

  ghost predicate PhaseStep(before: Phase, after: Phase, t: Tid, r: Ref, pc: Pc) {
    && (Tag(after) == Some(t) ==> Busy(after, r, pc))
    && (Tag(after).Some? && Tag(after) != Some(t) ==> after == before)
  }

  lemma PhasesKept(s: State, s': State, t: Tid, r: Ref)
    requires PhasesOK(s) && t < |s.pcs| == |s'.pcs| && r < |s.heap| == |s'.heap|
    requires s'.pcs == s.pcs[t := s'.pcs[t]]
    requires forall q :: 0 <= q < |s.heap| && q != r ==> s'.heap[q].phase == s.heap[q].phase
    requires RefOf(s.pcs[t]).Some? ==> RefOf(s.pcs[t]).value == r
    requires PhaseStep(s.heap[r].phase, s'.heap[r].phase, t, r, s'.pcs[t])
    ensures PhasesOK(s')
  {
    forall q | 0 <= q < |s'.heap| ensures PhaseOK(s', q) {
      assert PhaseOK(s, q);
    }
  }

  lemma FoosKept(s: State, s': State, t: Tid, r: Ref)
    requires FoosOK(s.heap) && t < |s.pcs| && r < |s.heap|
    requires |s'.heap| == |s.heap| && s'.heap == s.heap[r := s'.heap[r]]
    requires FooOK(s'.heap[r]) && FooGuar(s.heap[r], s'.heap[r], t, HoldsHash(s.pcs[t]))
    ensures FoosOK(s'.heap)
    ensures forall q :: 0 <= q < |s.heap| ==> FooGuar(s.heap[q], s'.heap[q], t, HoldsHash(s.pcs[t]))
  {
    forall q | 0 <= q < |s.heap| ensures FooGuar(s.heap[q], s'.heap[q], t, HoldsHash(s.pcs[t])) {
      if q != r { assert s'.heap[q] == s.heap[q]; }
    }
  }

  /** What a thread at work on `r` may rely on. */
  ghost predicate Local(s: State, c: Chains, t: Tid, r: Ref)
    requires Valid(s) && |c| == NHASH && t < |s.pcs| && r < |s.heap|
  {
    && PcOK(s, c, t, s.pcs[t])
    && FooOK(s.heap[r]) && HolderOK(s, r) && PhaseOK(s, r)
    && (HoldsHash(s.pcs[t]) <==> s.hashlock == Some(t))
    && (HoldsLock(s.pcs[t]) ==> s.heap[s.pcs[t].r].lock == Some(t))
    && (RefOf(s.pcs[t]).Some? ==> RefOf(s.pcs[t]).value == r)
  }

  /** What it then has to show of a step that changes neither links nor buckets. */
  ghost predicate LocalStep(s: State, c: Chains, s': State, t: Tid, r: Ref)
    requires Valid(s) && |c| == NHASH && t < |s.pcs| && r < |s.heap|
  {
    && |s'.pcs| == |s.pcs| && |s'.heap| == |s.heap|
    && s' == Upd(s, t, r, s'.heap[r], s'.hashlock, s'.pcs[t])
    && FooGuar(s.heap[r], s'.heap[r], t, HoldsHash(s.pcs[t]))
    && SameLink(s.heap[r], s'.heap[r])
    && FooOK(s'.heap[r])
    && LockStep(s, t, r, s'.heap[r].lock, s'.hashlock, s'.pcs[t])
    && PhaseStep(s.heap[r].phase, s'.heap[r].phase, t, r, s'.pcs[t])
    && ValidPc(s', s'.pcs[t])
    && PcOK(s', c, t, s'.pcs[t])
  }

  lemma LocalSuffices(s: State, c: Chains, s': State, t: Tid, r: Ref)
    requires Inv(s, c) && t < |s.pcs| && r < |s.heap|
    requires RefOf(s.pcs[t]).Some? ==> RefOf(s.pcs[t]).value == r
    requires LocalStep(s, c, s', t, r)
    ensures StepOK(s, c, s', c, t)
  {
    LocksKept(s, s', t, r);
    PhasesKept(s, s', t, r);
    FoosKept(s, s', t, r);
    ChainsFrame(s, c, s');
  }

  /** The same for a step that touches no object. */
  ghost predicate MoveStep(s: State, c: Chains, s': State, t: Tid)
    requires Valid(s) && |c| == NHASH && t < |s.pcs|
  {
    && |s'.pcs| == |s.pcs|
    && s' == State(s.heap, s.fh, s'.hashlock, s.pcs[t := s'.pcs[t]])
    && MutexStep(s.hashlock, s'.hashlock, t) && (HoldsHash(s'.pcs[t]) <==> s'.hashlock == Some(t))
    && !HoldsLock(s.pcs[t]) && !HoldsLock(s'.pcs[t])
    && RefOf(s.pcs[t]) == None
    && ValidPc(s', s'.pcs[t])
    && PcOK(s', c, t, s'.pcs[t])
  }

  lemma MoveSuffices(s: State, c: Chains, s': State, t: Tid)
    requires Inv(s, c) && t < |s.pcs| && MoveStep(s, c, s', t)
    ensures StepOK(s, c, s', c, t)
  {
    forall q | 0 <= q < |s'.heap| ensures HolderOK(s', q) && PhaseOK(s', q) {
      assert HolderOK(s, q) && PhaseOK(s, q);
    }
    ChainsFrame(s, c, s');
  }

  // ----- each step establishes StepOK -----

  lemma HoldLocal(s: State, c: Chains, t: Tid, r: Ref)
    requires Valid(s) && |c| == NHASH && t < |s.pcs| && r < |s.heap| && Enabled(s, t) && Local(s, c, t, r)
    requires var pc := s.pcs[t]; pc.HoldCheck? || pc.HoldLock?
    ensures LocalStep(s, c, StepHold(s, t), t, r)
  {
  }

  lemma OneMore(f: Foo, t: Tid)
    requires FooOK(f) && (f.phase.Linked? || t in f.owners) && !f.phase.Fresh? && !f.phase.Leaving?
    ensures FooOK(f.(count := f.count + 1, owners := f.owners + multiset{t}))
  {
  }

  lemma HoldCounted(s: State, c: Chains, t: Tid, r: Ref)
    requires Valid(s) && |c| == NHASH && t < |s.pcs| && r < |s.heap| && Enabled(s, t) && Local(s, c, t, r)
    requires s.pcs[t].HoldInc?
    ensures LocalStep(s, c, StepHold(s, t), t, r)
  {
    OneMore(s.heap[r], t);
  }

  lemma HoldLeft(s: State, c: Chains, t: Tid, r: Ref)
    requires Valid(s) && |c| == NHASH && t < |s.pcs| && r < |s.heap| && Enabled(s, t) && Local(s, c, t, r)
    requires s.pcs[t].HoldUnlock?
    ensures LocalStep(s, c, StepHold(s, t), t, r)
  {
  }

  lemma CreateLocal(s: State, c: Chains, t: Tid, r: Ref)
    requires Valid(s) && |c| == NHASH && t < |s.pcs| && r < |s.heap| && Enabled(s, t) && Local(s, c, t, r)
    requires var pc := s.pcs[t]; pc.CreateLock? || pc.CreateLink? || pc.CreateUnlock?
    ensures LocalStep(s, c, StepCreateFind(s, t), t, r)
  {
  }

  lemma FoundLocal(s: State, c: Chains, t: Tid, r: Ref)
    requires Valid(s) && |c| == NHASH && t < |s.pcs| && r < |s.heap| && Enabled(s, t) && Local(s, c, t, r)
    requires var pc := s.pcs[t]; pc.FindUnlock? && pc.fp.Some?
    ensures LocalStep(s, c, StepCreateFind(s, t), t, r)
  {
  }

  lemma LoopLocal(s: State, c: Chains, t: Tid, r: Ref)
    requires Valid(s) && ChainsOK(s, c) && t < |s.pcs| && r < |s.heap| && Enabled(s, t) && Local(s, c, t, r)
    requires s.pcs[t].FindLoop? && s.pcs[t].fp.Some?
    ensures LocalStep(s, c, StepCreateFind(s, t), t, r)
  {
    FindAdvances(s, c, s.pcs[t].key, s.pcs[t].fp);
  }

  lemma ReleEntry(s: State, c: Chains, t: Tid, r: Ref)
    requires Valid(s) && |c| == NHASH && t < |s.pcs| && r < |s.heap| && Enabled(s, t) && Local(s, c, t, r)
    requires s.pcs[t].ReleCheck?
    ensures LocalStep(s, c, StepRele(s, t), t, r)
  {
  }

  lemma ReleLocked(s: State, c: Chains, t: Tid, r: Ref)
    requires Valid(s) && |c| == NHASH && t < |s.pcs| && r < |s.heap| && Enabled(s, t) && Local(s, c, t, r)
    requires s.pcs[t].ReleLock?
    ensures LocalStep(s, c, StepRele(s, t), t, r)
  {
  }

  lemma ReleTested(s: State, c: Chains, t: Tid, r: Ref)
    requires Valid(s) && |c| == NHASH && t < |s.pcs| && r < |s.heap| && Enabled(s, t) && Local(s, c, t, r)
    requires s.pcs[t].ReleTest?
    ensures LocalStep(s, c, StepRele(s, t), t, r)
  {
  }

  lemma ReleDropped(s: State, c: Chains, t: Tid, r: Ref)
    requires Valid(s) && |c| == NHASH && t < |s.pcs| && r < |s.heap| && Enabled(s, t) && Local(s, c, t, r)
    requires s.pcs[t].ReleDrop?
    ensures LocalStep(s, c, StepRele(s, t), t, r)
  {
  }

  lemma ReleHashed(s: State, c: Chains, t: Tid, r: Ref)
    requires Valid(s) && |c| == NHASH && t < |s.pcs| && r < |s.heap| && Enabled(s, t) && Local(s, c, t, r)
    requires s.pcs[t].ReleHash?
    ensures LocalStep(s, c, StepRele(s, t), t, r)
  {
  }

  lemma ReleAgain(s: State, c: Chains, t: Tid, r: Ref)
    requires Valid(s) && |c| == NHASH && t < |s.pcs| && r < |s.heap| && Enabled(s, t) && Local(s, c, t, r)
    requires s.pcs[t].ReleRelock?
    ensures LocalStep(s, c, StepRele(s, t), t, r)
  {
  }

  lemma Sole(m: multiset<Tid>, t: Tid)
    requires t in m && |m| == 1
    ensures m == multiset{t}
  {
    assert m == multiset{t} + (m - multiset{t});
  }

  lemma ReleRechecked(s: State, c: Chains, t: Tid, r: Ref)
    requires Valid(s) && |c| == NHASH && t < |s.pcs| && r < |s.heap| && Enabled(s, t) && Local(s, c, t, r)
    requires s.pcs[t].ReleRecheck?
    ensures LocalStep(s, c, StepRele(s, t), t, r)
  {
    if s.heap[r].count == 1 {
      Sole(s.heap[r].owners, t);
    }
  }

  lemma OneLess(f: Foo, t: Tid)
    requires FooOK(f) && t in f.owners && f.count >= 2
    ensures f.phase.Linked? && FooOK(f.(count := f.count - 1, owners := f.owners - multiset{t}))
  {
  }

  lemma DropGuar(f: Foo, g: Foo, t: Tid, h: bool)
    requires f.phase.Linked? && f.lock == Some(t) && f.count > 0
    requires g == f.(count := f.count - 1, owners := f.owners - multiset{t})
    ensures FooGuar(f, g, t, h) && SameLink(f, g)
  {
  }

  /** Lines 76 and 101: giving up a reference that is not the last. */
  lemma DropLocal(s: State, c: Chains, t: Tid, r: Ref, pc: Pc)
    requires Valid(s) && |c| == NHASH && t < |s.pcs| && r < |s.heap|
    requires FooOK(s.heap[r]) && s.heap[r].lock == Some(t) && t in s.heap[r].owners && s.heap[r].count >= 2
    requires HoldsLock(s.pcs[t]) && s.pcs[t].r == r && (HoldsHash(s.pcs[t]) <==> s.hashlock == Some(t))
    requires pc == (if HoldsHash(s.pcs[t]) then ReleDecUnlock(r) else ReleFastUnlock(r))
    ensures LocalStep(s, c, Goto(Drop(s, t, r), t, pc), t, r)
  {
    OneLess(s.heap[r], t);
    DropGuar(s.heap[r], Drop(s, t, r).heap[r], t, HoldsHash(s.pcs[t]));
  }

  lemma ReleShared(s: State, c: Chains, t: Tid, r: Ref)
    requires Valid(s) && |c| == NHASH && t < |s.pcs| && r < |s.heap| && Enabled(s, t) && Local(s, c, t, r)
    requires s.pcs[t].ReleDec? || s.pcs[t].ReleFast?
    ensures LocalStep(s, c, StepRele(s, t), t, r)
  {
    DropLocal(s, c, t, r, StepRele(s, t).pcs[t]);
  }

  lemma ReleSharedDone(s: State, c: Chains, t: Tid, r: Ref)
    requires Valid(s) && |c| == NHASH && t < |s.pcs| && r < |s.heap| && Enabled(s, t) && Local(s, c, t, r)
    requires var pc := s.pcs[t]; pc.ReleDecUnlock? || pc.ReleDecUnhash?
    ensures LocalStep(s, c, StepRele(s, t), t, r)
  {
  }

  lemma ReleQuickDone(s: State, c: Chains, t: Tid, r: Ref)
    requires Valid(s) && |c| == NHASH && t < |s.pcs| && r < |s.heap| && Enabled(s, t) && Local(s, c, t, r)
    requires s.pcs[t].ReleFastUnlock?
    ensures LocalStep(s, c, StepRele(s, t), t, r)
  {
  }

  lemma ReleFinal(s: State, c: Chains, t: Tid, r: Ref)
    requires Valid(s) && |c| == NHASH && t < |s.pcs| && r < |s.heap| && Enabled(s, t) && Local(s, c, t, r)
    requires s.pcs[t].ReleLast?
    ensures LocalStep(s, c, StepRele(s, t), t, r)
  {
    var f := s.heap[r];
    LastOne(f, t);
    FinalLocal(s, c, t, r, f.(count := 0, owners := multiset{}, phase := Closing(t)));
  }

  lemma LastOne(f: Foo, t: Tid)
    requires FooOK(f) && f.phase == Leaving(t)
    ensures f.count == 1 && f.owners == multiset{t} && f.owners - multiset{t} == multiset{}
  {
  }

  lemma FinalLocal(s: State, c: Chains, t: Tid, r: Ref, g: Foo)
    requires Valid(s) && |c| == NHASH && t < |s.pcs| && r < |s.heap|
    requires s.pcs[t] == ReleLast(r) && s.hashlock == Some(t) && s.heap[r].lock == Some(t)
    requires s.heap[r].phase == Leaving(t) && s.heap[r].owners == multiset{t}
    requires g == s.heap[r].(count := 0, owners := multiset{}, phase := Closing(t))
    ensures LocalStep(s, c, Goto(SetFoo(s, r, g), t, ReleLastUnhash(r)), t, r)
  {
  }

  lemma ReleUnhashed(s: State, c: Chains, t: Tid, r: Ref)
    requires Valid(s) && |c| == NHASH && t < |s.pcs| && r < |s.heap| && Enabled(s, t) && Local(s, c, t, r)
    requires s.pcs[t].ReleLastUnhash?
    ensures LocalStep(s, c, StepRele(s, t), t, r)
  {
  }

  lemma ReleUnlocked(s: State, c: Chains, t: Tid, r: Ref)
    requires Valid(s) && |c| == NHASH && t < |s.pcs| && r < |s.heap| && Enabled(s, t) && Local(s, c, t, r)
    requires s.pcs[t].ReleLastUnlock?
    ensures LocalStep(s, c, StepRele(s, t), t, r)
  {
  }

  lemma ReleDestroyed(s: State, c: Chains, t: Tid, r: Ref)
    requires Valid(s) && |c| == NHASH && t < |s.pcs| && r < |s.heap| && Enabled(s, t) && Local(s, c, t, r)
    requires s.pcs[t].ReleDestroy?
    requires s.heap[r].lock.None?
    ensures LocalStep(s, c, StepRele(s, t), t, r)
  {
  }

  /** A held mutex belongs to an object that is in use, so it is free when destroyed. */
  lemma HolderPhase(s: State, c: Chains, r: Ref)
    requires Inv(s, c) && r < |s.heap|
    ensures s.heap[r].lock.Some? ==>
              var u := s.heap[r].lock.value;
              && u < |s.pcs| && HoldsLock(s.pcs[u]) && s.pcs[u].r == r
              && !s.heap[r].phase.Dead?
              && (s.heap[r].phase.Closing? ==> s.heap[r].phase.closer == u)
  {
    assert HolderOK(s, r) && FooOK(s.heap[r]);
    if s.heap[r].lock.Some? {
      var u := s.heap[r].lock.value;
      assert PcOK(s, c, u, s.pcs[u]);
    }
  }

  lemma FindLocal(s: State, c: Chains, t: Tid)
    requires Valid(s) && |c| == NHASH && t < |s.pcs| && Enabled(s, t)
    requires var pc := s.pcs[t];
             pc.FindLock? || pc.FindHead? || (pc.FindLoop? && pc.fp.None?) || (pc.FindUnlock? && pc.fp.None?)
    requires PcOK(s, c, t, s.pcs[t]) && (HoldsHash(s.pcs[t]) <==> s.hashlock == Some(t))
    requires ChainsOK(s, c)
    ensures MoveStep(s, c, StepCreateFind(s, t), t)
  {
    var pc := s.pcs[t];
    if pc.FindHead? {
      var b := Hash(pc.key);
      assert BucketOK(s.heap, s.fh[b], b, c[b]);
      assert FindPos(s.heap, c[b], 0, pc.key, s.fh[b]);
      if c[b] != [] { assert LinkOK(s.heap, c[b], 0); }
    } else if pc.FindLoop? {
      FindAdvances(s, c, pc.key, pc.fp);
    }
  }

  lemma FindAdvances(s: State, c: Chains, key: nat, fp: Option<Ref>)
    requires ChainsOK(s, c) && exists k: nat :: FindPos(s.heap, c[Hash(key)], k, key, fp)
    ensures fp.Some? ==> fp.value < |s.heap| && s.heap[fp.value].phase.Linked?
    ensures fp.Some? && s.heap[fp.value].next.Some? ==> s.heap[fp.value].next.value < |s.heap|
    ensures fp.Some? && s.heap[fp.value].id != key ==>
              exists k: nat :: FindPos(s.heap, c[Hash(key)], k, key, s.heap[fp.value].next)
    ensures fp.None? ==> NoneBefore(s.heap, c[Hash(key)], |c[Hash(key)]|, key)
  {
    var xs := c[Hash(key)];
    var k: nat :| FindPos(s.heap, xs, k, key, fp);
    assert BucketOK(s.heap, s.fh[Hash(key)], Hash(key), xs);
    if k < |xs| {
      assert LinkOK(s.heap, xs, k) && xs[k] in xs;
      if k + 1 < |xs| { assert LinkOK(s.heap, xs, k + 1); }
      if s.heap[xs[k]].id != key {
        assert FindPos(s.heap, xs, k + 1, key, s.heap[xs[k]].next);
      }
    }
  }

  lemma CreateHeadKeeps(s: State, c: Chains, t: Tid) returns (c': Chains)
    requires Inv(s, c) && t < |s.pcs| && Enabled(s, t) && s.pcs[t].CreateHead?
    ensures StepOK(s, c, StepCreateFind(s, t), c', t)
  {
    var s' := StepCreateFind(s, t);
    var r := s.pcs[t].r;
    var b := Hash(s.heap[r].id);
    assert PcOK(s, c, t, s.pcs[t]) && FooOK(s.heap[r]) && HolderOK(s, r);
    c' := c[b := [r] + c[b]];
    LocksKept(s, s', t, r);
    PhasesKept(s, s', t, r);
    FoosKept(s, s', t, r);
    forall b' | 0 <= b' < NHASH ensures BucketOK(s'.heap, s'.fh[b'], b', c'[b']) {
      assert BucketOK(s.heap, s.fh[b'], b', c[b']);
      if b' == b {
        LinkBucket(s.heap, s'.heap, s.fh[b], b, c[b], r);
      } else {
        OtherBucket(s.heap, s'.heap, s.fh[b'], b', c[b'], r);
      }
    }
  }

  /** Changing the phase of an object hashed elsewhere leaves a bucket alone. */
  lemma OtherBucket(h: seq<Foo>, g: seq<Foo>, head: Option<Ref>, b: nat, xs: seq<Ref>, r: Ref)
    requires BucketOK(h, head, b, xs) && r < |h| && Hash(h[r].id) != b
    requires |g| == |h| && g[r].id == h[r].id
    requires forall q :: 0 <= q < |h| && q != r && InBucket(h[q], b) ==> g[q].next == h[q].next
    requires forall q :: 0 <= q < |h| && q != r ==> g[q].id == h[q].id && g[q].phase == h[q].phase
    ensures BucketOK(g, head, b, xs)
  {
    forall i | 0 <= i < |xs| ensures LinkOK(g, xs, i) {
      assert LinkOK(h, xs, i) && xs[i] in xs && InBucket(h[xs[i]], b);
    }
  }

  lemma LinkBucket(h: seq<Foo>, g: seq<Foo>, head: Option<Ref>, b: nat, xs: seq<Ref>, r: Ref)
    requires BucketOK(h, head, b, xs)
    requires r < |h| && g == h[r := h[r].(phase := Linked)]
    requires !h[r].phase.Linked? && h[r].next == head && Hash(h[r].id) == b
    ensures BucketOK(g, Some(r), b, [r] + xs)
  {
    var ys := [r] + xs;
    forall i | 0 <= i < |ys| ensures LinkOK(g, ys, i) {
      if i > 0 { assert LinkOK(h, xs, i - 1) && xs[i - 1] in xs; }
    }
    assert forall q :: q in ys <==> q == r || q in xs;
  }

  // ----- unlinking, lines 83-93 -----

  /** When `r` is in the bucket but not its head, the walk starts before it. */
  lemma WalkStarts(h: seq<Foo>, head: Option<Ref>, b: nat, xs: seq<Ref>, r: Ref)
    requires BucketOK(h, head, b, xs) && r in xs && head != Some(r)
    ensures head.Some? && head.value < |h| && WalkPos(xs, 0, r, head)
  {
    var i :| 0 <= i < |xs| && xs[i] == r;
    assert xs[1..][i - 1] == r;
    assert LinkOK(h, xs, 0);
  }

  /** The walk never reaches the end of the chain before its goal. */
  lemma WalkNext(h: seq<Foo>, head: Option<Ref>, b: nat, xs: seq<Ref>, k: nat, r: Ref, tfp: Option<Ref>)
    requires BucketOK(h, head, b, xs) && WalkPos(xs, k, r, tfp)
    ensures tfp.value < |h| && tfp.value in xs && h[tfp.value].next == Some(xs[k + 1]) && xs[k + 1] < |h|
    ensures xs[k + 1] == r || WalkPos(xs, k + 1, r, Some(xs[k + 1]))
  {
    assert LinkOK(h, xs, k) && LinkOK(h, xs, k + 1);
    if xs[k + 1] != r {
      var i :| 0 <= i < |xs[k + 1..]| && xs[k + 1..][i] == r;
      assert xs[k + 2..][i - 1] == r;
    }
  }

  lemma WalkEntered(s: State, c: Chains, t: Tid, r: Ref)
    requires Valid(s) && |c| == NHASH && t < |s.pcs| && r < |s.heap| && Enabled(s, t) && Local(s, c, t, r)
    requires s.pcs[t].ReleHead? && s.fh[Hash(s.heap[r].id)] != Some(r)
    requires var b := Hash(s.heap[r].id); s.fh[b].Some? && s.fh[b].value < |s.heap| && WalkPos(c[b], 0, r, s.fh[b])
    ensures LocalStep(s, c, StepRele(s, t), t, r)
  {
  }

  lemma WalkStepped(s: State, c: Chains, t: Tid, r: Ref, k: nat)
    requires Valid(s) && |c| == NHASH && t < |s.pcs| && r < |s.heap| && Enabled(s, t) && Local(s, c, t, r)
    requires s.pcs[t].ReleWalk? && s.pcs[t].tfp.Some?
    requires var xs, tfp := c[Hash(s.heap[r].id)], s.pcs[t].tfp.value;
             && tfp < |s.heap| && tfp in xs && k + 1 < |xs| && s.heap[tfp].next == Some(xs[k + 1]) && xs[k + 1] < |s.heap|
             && (xs[k + 1] == r || WalkPos(xs, k + 1, r, Some(xs[k + 1])))
    ensures LocalStep(s, c, StepRele(s, t), t, r)
  {
  }

  lemma RemoveAt(xs: seq<Ref>, k: nat)
    requires k < |xs| && forall i, j :: 0 <= i < j < |xs| ==> xs[i] != xs[j]
    ensures var ys := xs[..k] + xs[k + 1..];
            && (forall i, j :: 0 <= i < j < |ys| ==> ys[i] != ys[j])
            && (forall q :: q in ys <==> q in xs && q != xs[k])
  {
    var ys := xs[..k] + xs[k + 1..];
    assert forall i :: 0 <= i < |ys| ==> ys[i] == if i < k then xs[i] else xs[i + 1];
    assert xs == xs[..k] + [xs[k]] + xs[k + 1..];
  }

  lemma UnlinkHead(h: seq<Foo>, g: seq<Foo>, head: Option<Ref>, b: nat, xs: seq<Ref>, t: Tid)
    requires BucketOK(h, head, b, xs) && head.Some? && head.value < |h|
    requires g == h[head.value := h[head.value].(phase := Leaving(t))]
    ensures BucketOK(g, h[head.value].next, b, xs[1..])
  {
    var ys := xs[1..];
    assert LinkOK(h, xs, 0);
    forall i | 0 <= i < |ys| ensures LinkOK(g, ys, i) {
      assert LinkOK(h, xs, i + 1) && ys[i] == xs[i + 1];
    }
    assert forall q :: q in xs <==> q == xs[0] || q in ys;
  }

  lemma UnlinkInner(h: seq<Foo>, g: seq<Foo>, head: Option<Ref>, b: nat, xs: seq<Ref>, k: nat, t: Tid)
    requires BucketOK(h, head, b, xs) && k + 1 < |xs|
    requires xs[k] < |h| && xs[k + 1] < |h| && xs[k] != xs[k + 1]
    requires g == h[xs[k] := h[xs[k]].(next := h[xs[k + 1]].next)][xs[k + 1] := h[xs[k + 1]].(phase := Leaving(t))]
    ensures BucketOK(g, head, b, xs[..k + 1] + xs[k + 2..])
  {
    var ys := xs[..k + 1] + xs[k + 2..];
    RemoveAt(xs, k + 1);
    assert head == At(ys, 0);
    assert xs[k + 1] !in ys;
    forall i | 0 <= i < |ys| ensures LinkOK(g, ys, i) {
      var i' := if i <= k then i else i + 1;
      assert ys[i] == xs[i'] && ys[i] in ys;
      assert LinkOK(h, xs, i');
      if i == k {
        assert LinkOK(h, xs, k + 1);
      } else {
        assert ys[i] != xs[k];
      }
    }
  }

  /** The predecessor found by the walk sits just before `r` in the chain. */
  lemma PredIndex(h: seq<Foo>, head: Option<Ref>, b: nat, xs: seq<Ref>, pred: Ref, r: Ref) returns (k: nat)
    requires BucketOK(h, head, b, xs) && pred in xs && pred < |h| && h[pred].next == Some(r)
    ensures k + 1 < |xs| && xs[k] == pred && xs[k + 1] == r && pred != r
    ensures InBucket(h[pred], b)
  {
    k :| 0 <= k < |xs| && xs[k] == pred;
    assert LinkOK(h, xs, k);
  }

  lemma UnlinkHeadChains(s: State, c: Chains, s': State, b: nat, r: Ref, t: Tid) returns (c': Chains)
    requires ChainsOK(s, c) && b < NHASH && r < |s.heap| && Hash(s.heap[r].id) == b && s.fh[b] == Some(r)
    requires s'.heap == s.heap[r := s.heap[r].(phase := Leaving(t))] && s'.fh == s.fh[b := s.heap[r].next]
    ensures ChainsOK(s', c')
  {
    c' := c[b := c[b][1..]];
    forall b' | 0 <= b' < NHASH ensures BucketOK(s'.heap, s'.fh[b'], b', c'[b']) {
      assert BucketOK(s.heap, s.fh[b'], b', c[b']);
      if b' == b {
        UnlinkHead(s.heap, s'.heap, s.fh[b], b, c[b], t);
      } else {
        OtherBucket(s.heap, s'.heap, s.fh[b'], b', c[b'], r);
      }
    }
  }

  lemma BypassChains(s: State, c: Chains, s': State, b: nat, k: nat, r: Ref, t: Tid) returns (c': Chains)
    requires ChainsOK(s, c) && b < NHASH && k + 1 < |c[b]| && r == c[b][k + 1] && r < |s.heap|
    requires c[b][k] < |s.heap| && c[b][k] != r && InBucket(s.heap[c[b][k]], b) && Hash(s.heap[r].id) == b
    requires s'.fh == s.fh
    requires var p := c[b][k];
             s'.heap == s.heap[p := s.heap[p].(next := s.heap[r].next)][r := s.heap[r].(phase := Leaving(t))]
    ensures ChainsOK(s', c')
  {
    c' := c[b := c[b][..k + 1] + c[b][k + 2..]];
    forall b' | 0 <= b' < NHASH ensures BucketOK(s'.heap, s'.fh[b'], b', c'[b']) {
      assert BucketOK(s.heap, s.fh[b'], b', c[b']);
      if b' == b {
        UnlinkInner(s.heap, s'.heap, s.fh[b], b, c[b], k, t);
      } else {
        OtherBucket(s.heap, s'.heap, s.fh[b'], b', c[b'], r);
      }
    }
  }

  lemma UnlinkHeadKeeps(s: State, c: Chains, t: Tid) returns (c': Chains)
    requires Inv(s, c) && t < |s.pcs| && Enabled(s, t) && s.pcs[t].ReleHead?
    requires s.fh[Hash(s.heap[s.pcs[t].r].id)] == Some(s.pcs[t].r)
    ensures StepOK(s, c, StepRele(s, t), c', t)
  {
    var s' := StepRele(s, t);
    var r := s.pcs[t].r;
    assert PcOK(s, c, t, s.pcs[t]) && FooOK(s.heap[r]);
    c' := UnlinkHeadChains(s, c, s', Hash(s.heap[r].id), r, t);
    UnlinkHeadRest(s, s', t, r);
  }

  lemma UnlinkHeadRest(s: State, s': State, t: Tid, r: Ref)
    requires Valid(s) && FoosOK(s.heap) && LocksOK(s) && PhasesOK(s)
    requires t < |s.pcs| && Enabled(s, t) && s.pcs[t] == ReleHead(r) && s' == StepRele(s, t)
    requires s.fh[Hash(s.heap[r].id)] == Some(r) && LastOwner(s, t, r)
    ensures Valid(s') && FoosOK(s'.heap) && LocksOK(s') && PhasesOK(s')
    ensures forall q :: 0 <= q < |s.heap| ==> FooGuar(s.heap[q], s'.heap[q], t, HoldsHash(s.pcs[t]))
  {
    assert HolderOK(s, r) && FooOK(s.heap[r]);
    LocksKept(s, s', t, r);
    PhasesKept(s, s', t, r);
    FoosKept(s, s', t, r);
  }

  /** The two objects touched by line 92 are kept well counted, seen by others as `Guar` allows. */
  lemma BypassFoos(s: State, s': State, t: Tid, r: Ref, pred: Ref)
    requires FoosOK(s.heap) && t < |s.pcs| && r < |s.heap| && pred < |s.heap| && pred != r
    requires s'.heap == s.heap[pred := s.heap[pred].(next := s.heap[r].next)][r := s.heap[r].(phase := Leaving(t))]
    requires HoldsHash(s.pcs[t]) && s.heap[r].phase.Linked? && s.heap[pred].phase.Linked?
    requires s.heap[r].owners == multiset{t} && s.heap[r].lock == Some(t)
    ensures FoosOK(s'.heap)
    ensures forall q :: 0 <= q < |s.heap| ==> FooGuar(s.heap[q], s'.heap[q], t, HoldsHash(s.pcs[t]))
  {
    assert FooOK(s.heap[r]) && FooOK(s.heap[pred]);
    forall q | 0 <= q < |s.heap| ensures FooOK(s'.heap[q]) && FooGuar(s.heap[q], s'.heap[q], t, HoldsHash(s.pcs[t])) {
      assert FooOK(s.heap[q]);
    }
  }

  lemma BypassKeeps(s: State, c: Chains, t: Tid) returns (c': Chains)
    requires Inv(s, c) && t < |s.pcs| && Enabled(s, t) && s.pcs[t].ReleBypass?
    ensures StepOK(s, c, StepRele(s, t), c', t)
  {
    var s' := StepRele(s, t);
    var r, pred := s.pcs[t].r, s.pcs[t].pred;
    assert PcOK(s, c, t, s.pcs[t]) && HolderOK(s, r);
    c' := BypassLinks(s, c, s', t, r, pred);
    BypassRest(s, s', t, r, pred);
  }

  lemma BypassRest(s: State, s': State, t: Tid, r: Ref, pred: Ref)
    requires Valid(s) && FoosOK(s.heap) && LocksOK(s) && PhasesOK(s)
    requires t < |s.pcs| && Enabled(s, t) && s.pcs[t] == ReleBypass(r, pred) && s' == StepRele(s, t)
    requires LastOwner(s, t, r) && pred != r && s.heap[pred].phase.Linked?
    ensures Valid(s') && FoosOK(s'.heap) && LocksOK(s') && PhasesOK(s')
    ensures forall q :: 0 <= q < |s.heap| ==> FooGuar(s.heap[q], s'.heap[q], t, HoldsHash(s.pcs[t]))
  {
    assert HolderOK(s, r);
    LocksKept(s, s', t, r);
    PhasesKept(s, s', t, r);
    BypassFoos(s, s', t, r, pred);
  }

  lemma BypassLinks(s: State, c: Chains, s': State, t: Tid, r: Ref, pred: Ref) returns (c': Chains)
    requires ChainsOK(s, c) && r < |s.heap| && pred < |s.heap| && s.heap[pred].next == Some(r)
    requires pred in c[Hash(s.heap[r].id)] && s'.fh == s.fh
    requires pred != r ==>
               s'.heap == s.heap[pred := s.heap[pred].(next := s.heap[r].next)][r := s.heap[r].(phase := Leaving(t))]
    ensures ChainsOK(s', c') && pred != r && s.heap[pred].phase.Linked?
  {
    var b := Hash(s.heap[r].id);
    assert BucketOK(s.heap, s.fh[b], b, c[b]);
    var k := PredIndex(s.heap, s.fh[b], b, c[b], pred, r);
    c' := BypassChains(s, c, s', b, k, r, t);
  }

  // ----- clients -----

  lemma CreateKeeps(s: State, c: Chains, t: Tid, id: int)
    requires Inv(s, c) && Allowed(s, Begin(t, Create(id)))
    ensures StepOK(s, c, StartCall(s, t, Create(id)), c, t)
  {
    var s' := StartCall(s, t, Create(id));
    CreateFrames(s, t, s'.heap[|s.heap|], s');
    ChainsFrame(s, c, s');
  }

  lemma CreateFrames(s: State, t: Tid, f: Foo, s': State)
    requires Valid(s) && FoosOK(s.heap) && LocksOK(s) && PhasesOK(s) && t < |s.pcs| && s.pcs[t].Idle?
    requires FooOK(f) && f.lock.None? && f.phase == Fresh(t)
    requires s' == Goto(s.(heap := s.heap + [f]), t, CreateLock(|s.heap|))
    ensures Valid(s') && FoosOK(s'.heap) && LocksOK(s') && PhasesOK(s')
  {
    CreateValid(s, t, f, s');
    CreatePhases(s, t, f, s');
    forall q | 0 <= q < |s'.heap| ensures HolderOK(s', q) {
      if q < |s.heap| {
        assert HolderOK(s, q);
      }
    }
  }

  lemma CreateValid(s: State, t: Tid, f: Foo, s': State)
    requires Valid(s) && t < |s.pcs| && s' == Goto(s.(heap := s.heap + [f]), t, CreateLock(|s.heap|))
    ensures Valid(s')
  {
  }

  lemma CreatePhases(s: State, t: Tid, f: Foo, s': State)
    requires FoosOK(s.heap) && PhasesOK(s) && t < |s.pcs| && s.pcs[t].Idle? && FooOK(f) && f.phase == Fresh(t)
    requires s' == Goto(s.(heap := s.heap + [f]), t, CreateLock(|s.heap|))
    ensures FoosOK(s'.heap) && PhasesOK(s')
  {
    forall q | 0 <= q < |s'.heap| ensures PhaseOK(s', q) && FooOK(s'.heap[q]) {
      if q < |s.heap| {
        assert PhaseOK(s, q) && FooOK(s.heap[q]);
      }
    }
  }

  lemma GiveLocal(s: State, c: Chains, t: Tid, r: Ref, to: Tid)
    requires Valid(s) && |c| == NHASH && Allowed(s, Begin(t, Give(r, to))) && Local(s, c, t, r)
    ensures LocalStep(s, c, StartCall(s, t, Give(r, to)), t, r)
  {
    assert s.heap[r].phase.Linked? by { IdleOwner(s, t, r); }
    GiveCounts(s.heap[r], t, to);
  }

  /** A thread outside every operation owns references to linked objects only. */
  lemma IdleOwner(s: State, t: Tid, r: Ref)
    requires t < |s.pcs| && s.pcs[t].Idle? && r < |s.heap| && t in s.heap[r].owners
    requires FooOK(s.heap[r]) && PhaseOK(s, r)
    ensures s.heap[r].phase.Linked?
  {
  }

  lemma GiveCounts(f: Foo, t: Tid, to: Tid)
    requires FooOK(f) && t in f.owners && f.phase.Linked?
    ensures var g := f.(owners := f.owners - multiset{t} + multiset{to});
            FooOK(g) && FooGuar(f, g, t, false) && SameLink(f, g)
  {
    assert |f.owners - multiset{t} + multiset{to}| == |f.owners|;
  }

  lemma CallKeeps(s: State, c: Chains, t: Tid, call: Call)
    requires Inv(s, c) && Allowed(s, Begin(t, call))
    ensures StepOK(s, c, StartCall(s, t, call), c, t)
  {
    var s' := StartCall(s, t, call);
    match call {
      case Create(id) => CreateKeeps(s, c, t, id);
      case Give(r, to) =>
        Inside(s, c, t, r);
        GiveLocal(s, c, t, r, to);
        LocalSuffices(s, c, s', t, r);
      case _ => MoveSuffices(s, c, s', t);
    }
  }

  lemma Inside(s: State, c: Chains, t: Tid, r: Ref)
    requires Inv(s, c) && t < |s.pcs| && r < |s.heap|
    requires RefOf(s.pcs[t]).Some? ==> RefOf(s.pcs[t]).value == r
    ensures Local(s, c, t, r)
  {
    assert PcOK(s, c, t, s.pcs[t]) && FooOK(s.heap[r]) && HolderOK(s, r) && PhaseOK(s, r);
  }

  // ----- every step keeps the invariant -----

  lemma ReleLocal(s: State, c: Chains, t: Tid, r: Ref)
    requires Inv(s, c) && t < |s.pcs| && r < |s.heap| && Enabled(s, t) && Local(s, c, t, r)
    requires IsRele(s.pcs[t]) && s.pcs[t].r == r && !s.pcs[t].ReleBypass?
    requires s.pcs[t].ReleHead? ==> s.fh[Hash(s.heap[r].id)] != Some(r)
    ensures LocalStep(s, c, StepRele(s, t), t, r)
  {
    match s.pcs[t]
    case ReleCheck(_) => ReleEntry(s, c, t, r);
    case ReleLock(_) => ReleLocked(s, c, t, r);
    case ReleTest(_) => ReleTested(s, c, t, r);
    case ReleDrop(_) => ReleDropped(s, c, t, r);
    case ReleHash(_) => ReleHashed(s, c, t, r);
    case ReleRelock(_) => ReleAgain(s, c, t, r);
    case ReleRecheck(_) => ReleRechecked(s, c, t, r);
    case ReleDec(_) => ReleShared(s, c, t, r);
    case ReleDecUnlock(_) => ReleSharedDone(s, c, t, r);
    case ReleDecUnhash(_) => ReleSharedDone(s, c, t, r);
    case ReleFast(_) => ReleShared(s, c, t, r);
    case ReleFastUnlock(_) => ReleQuickDone(s, c, t, r);
    case ReleLast(_) => ReleFinal(s, c, t, r);
    case ReleLastUnhash(_) => ReleUnhashed(s, c, t, r);
    case ReleLastUnlock(_) => ReleUnlocked(s, c, t, r);
    case ReleDestroy(_) => HolderPhase(s, c, r); ReleDestroyed(s, c, t, r);
    case ReleHead(_) => WalkBegins(s, c, t, r);
    case ReleWalk(_, _) => WalkGoesOn(s, c, t, r);
  }

  lemma WalkBegins(s: State, c: Chains, t: Tid, r: Ref)
    requires Inv(s, c) && t < |s.pcs| && r < |s.heap| && Enabled(s, t) && Local(s, c, t, r)
    requires s.pcs[t] == ReleHead(r) && s.fh[Hash(s.heap[r].id)] != Some(r)
    ensures LocalStep(s, c, StepRele(s, t), t, r)
  {
    var b := Hash(s.heap[r].id);
    assert BucketOK(s.heap, s.fh[b], b, c[b]) && InBucket(s.heap[r], b);
    WalkStarts(s.heap, s.fh[b], b, c[b], r);
    WalkEntered(s, c, t, r);
  }

  lemma WalkGoesOn(s: State, c: Chains, t: Tid, r: Ref)
    requires Inv(s, c) && t < |s.pcs| && r < |s.heap| && Enabled(s, t) && Local(s, c, t, r)
    requires s.pcs[t].ReleWalk? && s.pcs[t].r == r
    ensures LocalStep(s, c, StepRele(s, t), t, r)
  {
    var b := Hash(s.heap[r].id);
    assert BucketOK(s.heap, s.fh[b], b, c[b]);
    var k: nat :| WalkPos(c[b], k, r, s.pcs[t].tfp);
    WalkNext(s.heap, s.fh[b], b, c[b], k, r, s.pcs[t].tfp);
    WalkStepped(s, c, t, r, k);
  }

  lemma ReleKeeps(s: State, c: Chains, t: Tid) returns (c': Chains)
    requires Inv(s, c) && t < |s.pcs| && Enabled(s, t) && IsRele(s.pcs[t])
    ensures StepOK(s, c, StepRele(s, t), c', t)
  {
    var r := s.pcs[t].r;
    if s.pcs[t].ReleBypass? {
      c' := BypassKeeps(s, c, t);
    } else if s.pcs[t].ReleHead? && s.fh[Hash(s.heap[r].id)] == Some(r) {
      c' := UnlinkHeadKeeps(s, c, t);
    } else {
      Inside(s, c, t, r);
      ReleLocal(s, c, t, r);
      LocalSuffices(s, c, StepRele(s, t), t, r);
      c' := c;
    }
  }

  lemma HoldKeeps(s: State, c: Chains, t: Tid)
    requires Inv(s, c) && t < |s.pcs| && Enabled(s, t)
    requires var pc := s.pcs[t]; pc.HoldCheck? || pc.HoldLock? || pc.HoldInc? || pc.HoldUnlock?
    ensures StepOK(s, c, StepHold(s, t), c, t)
  {
    var r := s.pcs[t].r;
    Inside(s, c, t, r);
    if s.pcs[t].HoldCheck? || s.pcs[t].HoldLock? {
      HoldLocal(s, c, t, r);
    } else if s.pcs[t].HoldInc? {
      HoldCounted(s, c, t, r);
    } else {
      HoldLeft(s, c, t, r);
    }
    LocalSuffices(s, c, StepHold(s, t), t, r);
  }

  lemma CreateFindKeeps(s: State, c: Chains, t: Tid) returns (c': Chains)
    requires Inv(s, c) && t < |s.pcs| && Enabled(s, t)
    requires !IsRele(s.pcs[t])
    requires var pc := s.pcs[t]; !(pc.HoldCheck? || pc.HoldLock? || pc.HoldInc? || pc.HoldUnlock?)
    ensures StepOK(s, c, StepCreateFind(s, t), c', t)
  {
    var pc := s.pcs[t];
    c' := c;
    if pc.CreateHead? {
      c' := CreateHeadKeeps(s, c, t);
    } else if RefOf(pc).None? {
      assert PcOK(s, c, t, pc);
      FindLocal(s, c, t);
      MoveSuffices(s, c, StepCreateFind(s, t), t);
    } else {
      var r := RefOf(pc).value;
      Inside(s, c, t, r);
      if pc.FindLoop? {
        LoopLocal(s, c, t, r);
      } else if pc.FindUnlock? {
        FoundLocal(s, c, t, r);
      } else {
        CreateLocal(s, c, t, r);
      }
      LocalSuffices(s, c, StepCreateFind(s, t), t, r);
    }
  }

  lemma StepKeeps(s: State, c: Chains, a: Action) returns (c': Chains)
    requires Inv(s, c) && Allowed(s, a)
    ensures Inv(Apply(s, a), c')
    ensures Guar(s, c, Apply(s, a), c', a.t)
  {
    var t := a.t;
    if a.Begin? {
      CallKeeps(s, c, t, a.call);
      c' := c;
    } else if s.pcs[t].HoldCheck? || s.pcs[t].HoldLock? || s.pcs[t].HoldInc? || s.pcs[t].HoldUnlock? {
      HoldKeeps(s, c, t);
      c' := c;
    } else if IsRele(s.pcs[t]) {
      c' := ReleKeeps(s, c, t);
    } else {
      c' := CreateFindKeeps(s, c, t);
    }
    StepSuffices(s, c, Apply(s, a), c', t);
  }

  // ----- runs -----

  function Init(threads: nat): State {
    State([], seq(NHASH, _ => None), None, seq(threads, _ => Idle))
  }

  /** `s` is reached from `from` by the actions `acts`, each allowed when it is taken. */
  ghost predicate Reaches(from: State, acts: seq<Action>, s: State)
    decreases |acts|
  {
    if acts == [] then s == from
    else Valid(from) && Allowed(from, acts[0]) && Reaches(Apply(from, acts[0]), acts[1..], s)
  }

  ghost predicate Reachable(s: State) {
    exists threads: nat, acts :: Reaches(Init(threads), acts, s)
  }

  lemma {:induction false} RunKeeps(from: State, c: Chains, acts: seq<Action>, s: State) returns (c': Chains)
    requires Inv(from, c) && Reaches(from, acts, s)
    ensures Inv(s, c')
    decreases |acts|
  {
    if acts == [] {
      c' := c;
    } else {
      var c1 := StepKeeps(from, c, acts[0]);
      c' := RunKeeps(Apply(from, acts[0]), c1, acts[1..], s);
    }
  }

  lemma ReachableInv(s: State) returns (c: Chains)
    requires Reachable(s)
    ensures Inv(s, c)
  {
    var threads: nat, acts :| Reaches(Init(threads), acts, s);
    c := seq(NHASH, _ => []);
    assert ChainsOK(Init(threads), c);
    c := RunKeeps(Init(threads), c, acts, s);
  }
}
