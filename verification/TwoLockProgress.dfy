/**
 Operations on the two-lock table end: without new calls every schedule is finite.

 Each program counter has a rank, a bound on the steps its thread still has to make.
 The only loops walk along a chain, under `hashlock`, so nobody changes that chain.
 */
module TwoLockProgress {
  import opened Wrappers
  import opened TwoLockTable
  import opened TwoLockProof
  import opened TwoLockTheorems

  // ----- chains -----

  function IndexOf(xs: seq<Ref>, r: Ref): (k: nat)
    ensures k <= |xs|
  {
    if xs == [] || xs[0] == r then 0 else 1 + IndexOf(xs[1..], r)
  }

  /** The part of the chain from a cursor on. */
  function RestOf(xs: seq<Ref>, fp: Option<Ref>): (n: nat)
    ensures n <= |xs|
  {
    if fp.None? then 0 else |xs| - IndexOf(xs, fp.value)
  }

  lemma {:induction false} IndexIs(xs: seq<Ref>, k: nat)
    requires k < |xs| && forall i, j :: 0 <= i < j < |xs| ==> xs[i] != xs[j]
    ensures IndexOf(xs, xs[k]) == k
  {
    if k > 0 {
      IndexIs(xs[1..], k - 1);
    }
  }

  lemma RestIs(xs: seq<Ref>, k: nat)
    requires k <= |xs| && forall i, j :: 0 <= i < j < |xs| ==> xs[i] != xs[j]
    ensures RestOf(xs, At(xs, k)) == |xs| - k
  {
    if k < |xs| {
      IndexIs(xs, k);
    }
  }

  lemma {:induction false} NoRepeats(xs: seq<Ref>, n: nat)
    requires forall q :: q in xs ==> q < n
    requires forall i, j :: 0 <= i < j < |xs| ==> xs[i] != xs[j]
    ensures |xs| <= n
    decreases n
  {
    if n == 0 {
      assert forall i :: 0 <= i < |xs| ==> xs[i] in xs;
    } else if n - 1 in xs {
      var k :| 0 <= k < |xs| && xs[k] == n - 1;
      RemoveAt(xs, k);
      NoRepeats(xs[..k] + xs[k + 1..], n - 1);
    } else {
      NoRepeats(xs, n - 1);
    }
  }

  lemma ChainShort(s: State, c: Chains, b: nat)
    requires ChainsOK(s, c) && b < NHASH
    ensures |c[b]| <= |s.heap|
  {
    assert BucketOK(s.heap, s.fh[b], b, c[b]);
    NoRepeats(c[b], |s.heap|);
  }

  /** The links determine the chain. */
  lemma ChainUnique(heap: seq<Foo>, head: Option<Ref>, xs: seq<Ref>, ys: seq<Ref>)
    requires IsChain(heap, head, xs) && IsChain(heap, head, ys)
    ensures xs == ys
  {
    var i := 0;
    while i < |xs|
      invariant i <= |xs| && i <= |ys| && xs[..i] == ys[..i] && At(xs, i) == At(ys, i)
    {
      assert LinkOK(heap, xs, i) && LinkOK(heap, ys, i);
      i := i + 1;
    }
  }

  // ----- ranks -----

  const LONGEST := 14

  /** A bound on the steps a thread still has to make, if no chain has more than `n` objects. */
  function Steps(pc: Pc, n: nat): nat {
    match pc
    case Idle | Failed => 0
    case CreateLock(_) => 4
    case CreateLink(_) => 3
    case CreateHead(_) => 2
    case CreateUnlock(_) => 1
    case HoldCheck(_, _) => 5
    case HoldLock(_, _) => 4
    case HoldInc(_, _) => 3
    case HoldUnlock(_, _) => 2
    case FindLock(_) => 8 + n
    case FindHead(_) => 7 + n
    case FindLoop(_, _) => 6 + n
    case FindUnlock(_, _) => 1
    case ReleCheck(_) => 14 + n
    case ReleLock(_) => 13 + n
    case ReleTest(_) => 12 + n
    case ReleDrop(_) => 11 + n
    case ReleHash(_) => 10 + n
    case ReleRelock(_) => 9 + n
    case ReleRecheck(_) => 8 + n
    case ReleHead(_) => 7 + n
    case ReleWalk(_, _) => 6 + n
    case ReleBypass(_, _) => 5
    case ReleLast(_) => 4
    case ReleLastUnhash(_) => 3
    case ReleLastUnlock(_) => 2
    case ReleDestroy(_) => 1
    case ReleDec(_) => 3
    case ReleDecUnlock(_) => 2
    case ReleDecUnhash(_) => 1
    case ReleFast(_) => 2
    case ReleFastUnlock(_) => 1
  }

  /** In a loop what is left of the chain counts. */
  function PcRank(heap: seq<Foo>, c: Chains, pc: Pc): nat
    requires |c| == NHASH
  {
    match pc
    case FindLoop(key, fp) => 6 + RestOf(c[Hash(key)], fp)
    case ReleWalk(r, tfp) => 6 + if r < |heap| then RestOf(c[Hash(heap[r].id)], tfp) else 0
    case _ => Steps(pc, |heap|)
  }

  /** The steps of the first `n` threads. */
  ghost function Ranks(s: State, c: Chains, n: nat): nat
    requires |c| == NHASH && n <= |s.pcs|
  {
    if n == 0 then 0 else Ranks(s, c, n - 1) + PcRank(s.heap, c, s.pcs[n - 1])
  }

  lemma RankBound(heap: seq<Foo>, c: Chains, pc: Pc)
    requires |c| == NHASH
    requires forall b :: 0 <= b < NHASH ==> |c[b]| <= |heap|
    ensures PcRank(heap, c, pc) <= Steps(pc, |heap|) <= LONGEST + |heap|
  {
  }

  lemma ChainsShort(s: State, c: Chains)
    requires ChainsOK(s, c)
    ensures forall b :: 0 <= b < NHASH ==> |c[b]| <= |s.heap|
  {
    forall b | 0 <= b < NHASH ensures |c[b]| <= |s.heap| {
      ChainShort(s, c, b);
    }
  }

  lemma {:induction false} RanksBound(s: State, c: Chains, n: nat)
    requires Valid(s) && |c| == NHASH && n <= |s.pcs| && forall b :: 0 <= b < NHASH ==> |c[b]| <= |s.heap|
    ensures Ranks(s, c, n) <= n * (LONGEST + |s.heap|)
  {
    if n > 0 {
      RanksBound(s, c, n - 1);
      RankBound(s.heap, c, s.pcs[n - 1]);
      assert n * (LONGEST + |s.heap|) == (n - 1) * (LONGEST + |s.heap|) + (LONGEST + |s.heap|);
    }
  }

  // ----- a step of one thread -----

  /** One turn of the loop in `find`. */
  lemma FindLoopRank(s: State, c: Chains, t: Tid)
    requires Inv(s, c) && t < |s.pcs| && s.pcs[t].FindLoop? && Enabled(s, t)
    ensures PcRank(s.heap, c, StepCreateFind(s, t).pcs[t]) < PcRank(s.heap, c, s.pcs[t])
  {
    var key, fp := s.pcs[t].key, s.pcs[t].fp;
    var b := Hash(key);
    assert PcOK(s, c, t, s.pcs[t]) && BucketOK(s.heap, s.fh[b], b, c[b]);
    var k: nat :| FindPos(s.heap, c[b], k, key, fp);
    if fp.Some? {
      CursorMoves(s.heap, s.fh[b], c[b], k);
    }
  }

  /** The next link leaves one object less of the chain. */
  lemma CursorMoves(heap: seq<Foo>, head: Option<Ref>, xs: seq<Ref>, k: nat)
    requires IsChain(heap, head, xs) && k < |xs|
    ensures xs[k] < |heap| && RestOf(xs, heap[xs[k]].next) < RestOf(xs, Some(xs[k]))
  {
    assert LinkOK(heap, xs, k);
    RestIs(xs, k);
    RestIs(xs, k + 1);
  }

  /** One turn of the loop in `rele`. */
  lemma ReleWalkRank(s: State, c: Chains, t: Tid)
    requires Inv(s, c) && t < |s.pcs| && s.pcs[t].ReleWalk? && Enabled(s, t)
    ensures var pc' := StepRele(s, t).pcs[t];
            (pc'.ReleWalk? ==> pc'.r == s.pcs[t].r) && PcRank(s.heap, c, pc') < PcRank(s.heap, c, s.pcs[t])
  {
    var k := WalkIndex(s, c, t);
    var b := Hash(s.heap[s.pcs[t].r].id);
    assert BucketOK(s.heap, s.fh[b], b, c[b]);
    CursorMoves(s.heap, s.fh[b], c[b], k);
    WalkTurn(s, c[b], t);
  }

  lemma WalkIndex(s: State, c: Chains, t: Tid) returns (k: nat)
    requires Inv(s, c) && t < |s.pcs| && s.pcs[t].ReleWalk?
    ensures var xs := c[Hash(s.heap[s.pcs[t].r].id)]; k < |xs| && s.pcs[t].tfp == Some(xs[k])
  {
    assert PcOK(s, c, t, s.pcs[t]);
    var xs := c[Hash(s.heap[s.pcs[t].r].id)];
    k :| WalkPos(xs, k, s.pcs[t].r, s.pcs[t].tfp);
  }

  lemma WalkTurn(s: State, xs: seq<Ref>, t: Tid)
    requires Valid(s) && t < |s.pcs| && s.pcs[t].ReleWalk? && s.pcs[t].tfp.Some? && Enabled(s, t)
    ensures var pc' := StepRele(s, t).pcs[t];
            pc'.ReleBypass? || pc' == ReleWalk(s.pcs[t].r, s.heap[s.pcs[t].tfp.value].next)
  {
  }

  /** Everything but the two loops is straight on. */
  lemma HoldSteps(s: State, t: Tid)
    requires Valid(s) && t < |s.pcs| && Enabled(s, t)
    requires var pc := s.pcs[t]; pc.HoldCheck? || pc.HoldLock? || pc.HoldInc? || pc.HoldUnlock?
    ensures |StepHold(s, t).heap| == |s.heap| && Steps(StepHold(s, t).pcs[t], |s.heap|) < Steps(s.pcs[t], |s.heap|)
  {
  }

  lemma CreateFindSteps(s: State, t: Tid)
    requires Valid(s) && t < |s.pcs| && Enabled(s, t) && !s.pcs[t].FindLoop?
    requires !IsRele(s.pcs[t]) && !(s.pcs[t].HoldCheck? || s.pcs[t].HoldLock? || s.pcs[t].HoldInc? || s.pcs[t].HoldUnlock?)
    ensures |StepCreateFind(s, t).heap| == |s.heap| && Steps(StepCreateFind(s, t).pcs[t], |s.heap|) < Steps(s.pcs[t], |s.heap|)
  {
  }

  lemma ReleSteps(s: State, t: Tid)
    requires Valid(s) && t < |s.pcs| && Enabled(s, t) && IsRele(s.pcs[t]) && !s.pcs[t].ReleWalk?
    ensures |StepRele(s, t).heap| == |s.heap| && Steps(StepRele(s, t).pcs[t], |s.heap|) < Steps(s.pcs[t], |s.heap|)
  {
    if Steps(s.pcs[t], 0) >= 7 {
      ReleEarly(s, t);
    } else {
      ReleLate(s, t);
    }
  }

  lemma ReleEarly(s: State, t: Tid)
    requires Valid(s) && t < |s.pcs| && Enabled(s, t) && IsRele(s.pcs[t]) && Steps(s.pcs[t], 0) >= 7
    ensures |StepRele(s, t).heap| == |s.heap| && Steps(StepRele(s, t).pcs[t], |s.heap|) < Steps(s.pcs[t], |s.heap|)
  {
  }

  lemma ReleLate(s: State, t: Tid)
    requires Valid(s) && t < |s.pcs| && Enabled(s, t) && IsRele(s.pcs[t]) && Steps(s.pcs[t], 0) < 6
    ensures |StepRele(s, t).heap| == |s.heap| && Steps(StepRele(s, t).pcs[t], |s.heap|) < Steps(s.pcs[t], |s.heap|)
  {
  }

  // ----- a step among all threads -----

  /** The thread that steps comes closer to the end of its operation. */
  lemma OwnRank(s: State, c: Chains, t: Tid, s': State, c': Chains)
    requires Inv(s, c) && Allowed(s, Run(t)) && s' == Apply(s, Run(t))
    requires Valid(s') && t < |s'.pcs| && ChainsOK(s', c')
    ensures |s'.heap| == |s.heap| && PcRank(s'.heap, c', s'.pcs[t]) < PcRank(s.heap, c, s.pcs[t])
  {
    if s.pcs[t].FindLoop? {
      FindLoopRank(s, c, t);
      LoopChains(s, c, t, s', c');
    } else if s.pcs[t].ReleWalk? {
      ReleWalkRank(s, c, t);
      LoopChains(s, c, t, s', c');
    } else {
      StraightRank(s, c, t, s', c');
    }
  }

  lemma StraightRank(s: State, c: Chains, t: Tid, s': State, c': Chains)
    requires Valid(s) && |c| == NHASH && Allowed(s, Run(t)) && s' == Apply(s, Run(t))
    requires Valid(s') && t < |s'.pcs| && ChainsOK(s', c')
    requires !s.pcs[t].FindLoop? && !s.pcs[t].ReleWalk?
    ensures |s'.heap| == |s.heap| && PcRank(s'.heap, c', s'.pcs[t]) < PcRank(s.heap, c, s.pcs[t])
  {
    var pc := s.pcs[t];
    if pc.HoldCheck? || pc.HoldLock? || pc.HoldInc? || pc.HoldUnlock? {
      HoldSteps(s, t);
    } else if IsRele(pc) {
      ReleSteps(s, t);
    } else {
      CreateFindSteps(s, t);
    }
    ChainsShort(s', c');
    RankBound(s'.heap, c', s'.pcs[t]);
  }

  /** The loops only read. */
  lemma LoopChains(s: State, c: Chains, t: Tid, s': State, c': Chains)
    requires Valid(s) && ChainsOK(s, c) && Allowed(s, Run(t)) && (s.pcs[t].FindLoop? || s.pcs[t].ReleWalk?)
    requires s' == Apply(s, Run(t)) && ChainsOK(s', c')
    ensures s'.heap == s.heap && c' == c
  {
    assert s'.heap == s.heap && s'.fh == s.fh;
    SameChains(s, c, s', c');
  }

  lemma SameChains(s: State, c: Chains, s': State, c': Chains)
    requires ChainsOK(s, c) && ChainsOK(s', c') && s'.heap == s.heap && s'.fh == s.fh
    ensures c' == c
  {
    forall b | 0 <= b < NHASH ensures c'[b] == c[b] {
      assert BucketOK(s.heap, s.fh[b], b, c[b]) && BucketOK(s'.heap, s'.fh[b], b, c'[b]);
      ChainUnique(s.heap, s.fh[b], c[b], c'[b]);
    }
  }

  /** The others stand where they stood: nobody else walks along a chain that is changed. */
  lemma OtherRank(s: State, c: Chains, s': State, c': Chains, t: Tid, u: Tid)
    requires Valid(s) && LocksOK(s) && Valid(s') && |c| == |c'| == NHASH && Guar(s, c, s', c', t)
    requires u < |s.pcs| && u != t && |s'.heap| == |s.heap|
    ensures PcRank(s'.heap, c', s'.pcs[u]) == PcRank(s.heap, c, s.pcs[u])
  {
    if s.pcs[u].FindLoop? || s.pcs[u].ReleWalk? {
      assert HoldsHash(s.pcs[u]) && !HoldsHash(s.pcs[t]);
    }
  }

  ghost predicate SameRank(s: State, c: Chains, s': State, c': Chains, u: Tid) {
    |c| == |c'| == NHASH && u < |s.pcs| && u < |s'.pcs| && PcRank(s'.heap, c', s'.pcs[u]) == PcRank(s.heap, c, s.pcs[u])
  }

  lemma {:induction false} RanksChange(s: State, c: Chains, s': State, c': Chains, t: Tid, n: nat)
    requires |c| == |c'| == NHASH && t < |s.pcs| == |s'.pcs| && n <= |s.pcs|
    requires forall u :: 0 <= u < |s.pcs| && u != t ==> SameRank(s, c, s', c', u)
    requires PcRank(s'.heap, c', s'.pcs[t]) < PcRank(s.heap, c, s.pcs[t])
    ensures if t < n then Ranks(s', c', n) < Ranks(s, c, n) else Ranks(s', c', n) == Ranks(s, c, n)
  {
    if n > 0 {
      RanksChange(s, c, s', c', t, n - 1);
      assert n - 1 != t ==> SameRank(s, c, s', c', n - 1);
    }
  }

  /** A step consumes one of the steps still to be made by all threads. */
  lemma StepConsumes(s: State, c: Chains, t: Tid, s': State, c': Chains)
    requires Inv(s, c) && Allowed(s, Run(t)) && s' == Apply(s, Run(t)) && Inv(s', c') && Guar(s, c, s', c', t)
    ensures |s'.pcs| == |s.pcs| && Ranks(s', c', |s'.pcs|) < Ranks(s, c, |s.pcs|)
  {
    OwnRank(s, c, t, s', c');
    forall u | 0 <= u < |s.pcs| && u != t ensures SameRank(s, c, s', c', u) {
      OtherRank(s, c, s', c', t, u);
    }
    RanksChange(s, c, s', c', t, |s.pcs|);
  }

  // ----- runs -----

  /** No new calls. */
  ghost predicate OnlyRuns(acts: seq<Action>) {
    forall i :: 0 <= i < |acts| ==> acts[i].Run?
  }

  lemma {:induction false} RunsConsume(s: State, c: Chains, acts: seq<Action>, s': State) returns (c': Chains)
    requires Inv(s, c) && Reaches(s, acts, s') && OnlyRuns(acts)
    ensures Inv(s', c') && |s'.pcs| == |s.pcs| && |acts| <= Ranks(s, c, |s.pcs|) - Ranks(s', c', |s'.pcs|)
    decreases |acts|
  {
    c' := c;
    if acts != [] {
      var t, s1 := acts[0].t, Apply(s, acts[0]);
      var c1 := StepKeeps(s, c, acts[0]);
      StepConsumes(s, c, t, s1, c1);
      c' := RunsConsume(s1, c1, acts[1..], s');
    }
  }

  /**
   Without new calls a run takes at most 14 steps a thread and one for each object, and
   where it cannot go on every operation has returned.
   */
  lemma OperationsEnd(s: State, acts: seq<Action>, s': State)
    requires Reachable(s) && Reaches(s, acts, s') && OnlyRuns(acts)
    ensures |acts| <= |s.pcs| * (LONGEST + |s.heap|)
    ensures Valid(s') && ((forall t :: 0 <= t < |s'.pcs| ==> !Enabled(s', t)) ==> forall t :: 0 <= t < |s'.pcs| ==> s'.pcs[t].Idle?)
  {
    var c := ReachableInv(s);
    var c' := RunsConsume(s, c, acts, s');
    ChainsShort(s, c);
    RanksBound(s, c, |s.pcs|);
    if t :| 0 <= t < |s'.pcs| && !s'.pcs[t].Idle? {
      ReachableOn(s, acts, s');
      var u := SomeoneRuns(s', t);
    }
  }

  lemma {:induction false} ReachableOn(s: State, acts: seq<Action>, s': State)
    requires Reachable(s) && Reaches(s, acts, s')
    ensures Reachable(s')
    decreases |acts|
  {
    if acts != [] {
      ReachableStep(s, acts[0]);
      ReachableOn(Apply(s, acts[0]), acts[1..], s');
    }
  }
}
