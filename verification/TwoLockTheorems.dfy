/** What every interleaving of the two-lock table guarantees. */
module TwoLockTheorems {
  import opened Wrappers
  import opened TwoLockTable
  import opened TwoLockProof

  /** Every bucket is a finite chain without repetition, and it holds exactly the objects that are referenced. */
  ghost predicate TableExact(s: State, c: Chains) {
    && |s.fh| == |c| == 29
    && (forall b :: 0 <= b < 29 ==> IsChain(s.heap, s.fh[b], c[b]))
    && (forall r, b :: 0 <= r < |s.heap| && 0 <= b < 29 && !s.heap[r].phase.Fresh? ==>
          (r in c[b] <==> b == s.heap[r].id % 29 && s.heap[r].count > 0))
  }

  /** The count of an object is the number of references to it that are still to be released. */
  lemma CountsAreReferences(s: State, r: Ref)
    requires Reachable(s) && r < |s.heap|
    ensures s.heap[r].count == |s.heap[r].owners|
  {
    var c := ReachableInv(s);
    assert FooOK(s.heap[r]);
  }

  /** Whenever `hashlock` is free, an inserted object is in its one chain, once, exactly while its count is positive. */
  lemma LinkedWhileReferenced(s: State)
    requires Reachable(s) && s.hashlock.None?
    ensures exists c :: TableExact(s, c)
  {
    var c := ReachableInv(s);
    forall r, b | 0 <= r < |s.heap| && 0 <= b < NHASH && !s.heap[r].phase.Fresh?
      ensures r in c[b] <==> b == Hash(s.heap[r].id) && s.heap[r].count > 0
    {
      assert BucketOK(s.heap, s.fh[b], b, c[b]) && FooOK(s.heap[r]) && PhaseOK(s, r);
    }
    forall b | 0 <= b < NHASH ensures IsChain(s.heap, s.fh[b], c[b]) {
      assert BucketOK(s.heap, s.fh[b], b, c[b]);
    }
    assert TableExact(s, c);
  }

  /** The recheck of line 75: nobody else owns, or is about to use, the object being unlinked. */
  lemma UnlinksOnlyUnshared(s: State, t: Tid, u: Tid)
    requires Reachable(s) && t < |s.pcs| && u < |s.pcs| && u != t
    requires s.pcs[t].ReleHead? || s.pcs[t].ReleWalk? || s.pcs[t].ReleBypass? || s.pcs[t].ReleLast?
    ensures s.pcs[t].r < |s.heap| && s.heap[s.pcs[t].r].owners == multiset{t}
    ensures RefOf(s.pcs[u]) != Some(s.pcs[t].r)
  {
    var c := ReachableInv(s);
    var r := s.pcs[t].r;
    assert PcOK(s, c, t, s.pcs[t]) && PcOK(s, c, u, s.pcs[u]) && FooOK(s.heap[r]);
    Excluded(s, t, u);
    OthersElsewhere(s, c, t, u, r);
  }

  /** The remover holds both mutexes, so nobody else does. */
  lemma Excluded(s: State, t: Tid, u: Tid)
    requires Valid(s) && LocksOK(s) && t < |s.pcs| && u < |s.pcs| && u != t
    requires HoldsHash(s.pcs[t]) && HoldsLock(s.pcs[t])
    ensures s.heap[s.pcs[t].r].lock == Some(t) && !HoldsHash(s.pcs[u])
    ensures HoldsLock(s.pcs[u]) ==> s.heap[s.pcs[u].r].lock == Some(u)
  {
  }

  lemma OthersElsewhere(s: State, c: Chains, t: Tid, u: Tid, r: Ref)
    requires |s.fh| == |c| == NHASH && u < |s.pcs| && u != t && r < |s.heap|
    requires ValidPc(s, s.pcs[u]) && PcOK(s, c, u, s.pcs[u]) && !HoldsHash(s.pcs[u])
    requires HoldsLock(s.pcs[u]) ==> s.heap[s.pcs[u].r].lock == Some(u)
    requires s.heap[r].lock == Some(t) && s.heap[r].owners == multiset{t}
    requires s.heap[r].phase == Linked || s.heap[r].phase == Leaving(t)
    ensures RefOf(s.pcs[u]) != Some(r)
  {
  }

  /** The test of line 71: only what is then the last reference goes the long way through `hashlock`. */
  lemma LongWayForLast(s: State, t: Tid)
    requires Reachable(s) && t < |s.pcs|
    ensures s.pcs[t].ReleDrop? ==> s.pcs[t].r < |s.heap| && s.heap[s.pcs[t].r].owners == multiset{t}
    ensures s.pcs[t].ReleFast? || s.pcs[t].ReleDec? ==> s.pcs[t].r < |s.heap| && s.heap[s.pcs[t].r].count >= 2
  {
    var c := ReachableInv(s);
    assert PcOK(s, c, t, s.pcs[t]);
    if s.pcs[t].ReleDrop? {
      assert FooOK(s.heap[s.pcs[t].r]);
      Sole(s.heap[s.pcs[t].r].owners, t);
    }
  }

  /** No exception is thrown, no null link is followed and no destroyed mutex is locked or unlocked. */
  lemma NeverFails(s: State, t: Tid)
    requires Reachable(s) && t < |s.pcs|
    ensures !s.pcs[t].Failed?
  {
    var c := ReachableInv(s);
    assert PcOK(s, c, t, s.pcs[t]);
  }

  /** Lock order: whoever waits for `hashlock` holds no object mutex. */
  lemma HashBeforeObject(s: State, t: Tid, r: Ref)
    requires Reachable(s) && t < |s.pcs| && r < |s.heap| && AwaitsHash(s.pcs[t])
    ensures s.heap[r].lock != Some(t)
  {
    var c := ReachableInv(s);
    assert HolderOK(s, r);
  }

  /** The other object a remover looks at on its walk along the chain. */
  function CursorOf(pc: Pc): Option<Ref> {
    match pc
    case ReleWalk(_, tfp) => tfp
    case ReleBypass(_, pred) => Some(pred)
    case _ => None
  }

  lemma CursorLinked(s: State, c: Chains, t: Tid)
    requires Inv(s, c) && t < |s.pcs| && CursorOf(s.pcs[t]).Some?
    ensures CursorOf(s.pcs[t]).value < |s.heap| && s.heap[CursorOf(s.pcs[t]).value].phase.Linked?
  {
    var pc := s.pcs[t];
    var b := Hash(s.heap[pc.r].id);
    assert PcOK(s, c, t, pc);
    if pc.ReleWalk? {
      var k: nat :| WalkPos(c[b], k, pc.r, pc.tfp);
    }
    PredLinked(s, c, b, CursorOf(pc).value);
  }

  /** Once line 98 has destroyed a mutex no thread holds it, waits for it, or has any way to reach it. */
  lemma DestroyedIsUnreachable(s: State, r: Ref)
    requires Reachable(s) && r < |s.heap| && s.heap[r].phase.Dead?
    ensures s.heap[r].lock.None? && s.heap[r].owners == multiset{}
    ensures forall t :: 0 <= t < |s.pcs| ==> RefOf(s.pcs[t]) != Some(r) && CursorOf(s.pcs[t]) != Some(r)
    ensures exists c :: ChainsOK(s, c) && forall b :: 0 <= b < NHASH ==> r !in c[b]
  {
    var c := ReachableInv(s);
    HolderPhase(s, c, r);
    assert FooOK(s.heap[r]);
    forall t | 0 <= t < |s.pcs| ensures CursorOf(s.pcs[t]) != Some(r) {
      if CursorOf(s.pcs[t]).Some? {
        CursorLinked(s, c, t);
      }
    }
    forall t | 0 <= t < |s.pcs| ensures RefOf(s.pcs[t]) != Some(r) {
      assert PcOK(s, c, t, s.pcs[t]);
      if s.pcs[t].FindLoop? {
        FindAdvances(s, c, s.pcs[t].key, s.pcs[t].fp);
      }
    }
    assert forall b :: 0 <= b < NHASH ==> BucketOK(s.heap, s.fh[b], b, c[b]);
  }

  /** Death is final, so the previous theorem holds in every later state too. */
  lemma {:induction false} DeadStaysDead(s: State, acts: seq<Action>, s': State, r: Ref)
    requires Reachable(s) && Reaches(s, acts, s') && r < |s.heap| && s.heap[r].phase.Dead?
    ensures r < |s'.heap| && s'.heap[r].phase.Dead?
    decreases |acts|
  {
    if acts != [] {
      var a := acts[0];
      var c := ReachableInv(s);
      var c' := StepKeeps(s, c, a);
      assert FooGuar(s.heap[r], Apply(s, a).heap[r], a.t, HoldsHash(s.pcs[a.t]));
      ReachableStep(s, a);
      DeadStaysDead(Apply(s, a), acts[1..], s', r);
    }
  }

  lemma ReachableStep(s: State, a: Action)
    requires Reachable(s) && Valid(s) && Allowed(s, a)
    ensures Reachable(Apply(s, a))
  {
    var threads: nat, acts :| Reaches(Init(threads), acts, s);
    Extend(Init(threads), acts, s, a);
    assert Reaches(Init(threads), acts + [a], Apply(s, a));
  }

  lemma {:induction false} Extend(from: State, acts: seq<Action>, s: State, a: Action)
    requires Reaches(from, acts, s) && Valid(s) && Allowed(s, a)
    ensures Reaches(from, acts + [a], Apply(s, a))
    decreases |acts|
  {
    if acts == [] {
      assert ([] + [a])[1..] == [];
    } else {
      Extend(Apply(from, acts[0]), acts[1..], s, a);
      assert (acts + [a])[1..] == acts[1..] + [a];
    }
  }

  /** No deadlock: while some operation is under way, some thread that is inside an operation can step. */
  lemma SomeoneRuns(s: State, t: Tid) returns (u: Tid)
    requires Reachable(s) && t < |s.pcs| && !s.pcs[t].Idle?
    ensures Valid(s) && u < |s.pcs| && Enabled(s, u)
  {
    var c := ReachableInv(s);
    u := if s.hashlock.Some? then s.hashlock.value else t;
    assert PcOK(s, c, u, s.pcs[u]);
    assert !s.pcs[u].Idle? && (AwaitsHash(s.pcs[u]) ==> s.hashlock.None?);
    if AwaitsLock(s.pcs[u]) && s.heap[s.pcs[u].r].lock.Some? {
      assert HolderOK(s, s.pcs[u].r);
      u := s.heap[s.pcs[u].r].lock.value;
      HolderEnabled(s, u);
    }
  }

  lemma HolderEnabled(s: State, u: Tid)
    requires Valid(s) && u < |s.pcs| && HoldsLock(s.pcs[u])
    ensures Enabled(s, u)
  {
  }

  /** What `find` is about to return: an owned, linked object of that identifier, or none exists. */
  lemma FindIsExact(s: State, t: Tid)
    requires Reachable(s) && t < |s.pcs| && s.pcs[t].FindUnlock?
    ensures match s.pcs[t].fp
            case Some(r) => r < |s.heap| && s.heap[r].id == s.pcs[t].key && t in s.heap[r].owners && s.heap[r].phase.Linked?
            case None => forall r :: 0 <= r < |s.heap| && s.heap[r].phase.Linked? ==> s.heap[r].id != s.pcs[t].key
  {
    var c := ReachableInv(s);
    var key := s.pcs[t].key;
    assert PcOK(s, c, t, s.pcs[t]);
    if s.pcs[t].fp.None? {
      forall r | 0 <= r < |s.heap| && s.heap[r].phase.Linked? ensures s.heap[r].id != key {
        assert BucketOK(s.heap, s.fh[Hash(key)], Hash(key), c[Hash(key)]);
        assert InBucket(s.heap[r], Hash(key)) ==> r in c[Hash(key)];
      }
    } else {
      var r := s.pcs[t].fp.value;
      assert FooOK(s.heap[r]) && PhaseOK(s, r);
    }
  }
}
