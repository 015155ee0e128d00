/**
 What the calls of a run amount to.

 The ledger is kept from the calls alone: a `create` gives its caller one reference, a
 `hold` one more, a `find` one when it returns an object, a `rele` takes one away.  In
 every reachable state the counts and the owners are what the ledger says, up to the
 operations still under way, and every operation works on what its caller asked for.
 */
module TwoLockLedger {
  import opened Wrappers
  import opened TwoLockTable
  import opened TwoLockProof
  import opened TwoLockTheorems

  // ----- the ledger -----

  /** What an action of a run in state `s` adds to the references of thread `u` to `r`. */
  function Credit(s: State, a: Action, r: Ref, u: Tid): int {
    match a
    case Begin(t, Create(_)) => if t == u && r == |s.heap| then 1 else 0
    case Begin(t, Hold(x)) => if t == u && r == x then 1 else 0
    case Begin(t, Rele(x)) => if t == u && r == x then -1 else 0
    case Begin(t, Give(x, to)) => if r != x then 0 else (if to == u then 1 else 0) - (if t == u then 1 else 0)
    case Begin(_, Find(_)) => 0
    case Run(t) => if t == u && t < |s.pcs| && s.pcs[t].FindUnlock? && s.pcs[t].fp == Some(r) then 1 else 0
  }

  /** The references of thread `u` to `r` after a run. */
  ghost function Held(from: State, acts: seq<Action>, r: Ref, u: Tid): int
    decreases |acts|
  {
    if acts == [] || !Valid(from) || !Allowed(from, acts[0]) then 0
    else Credit(from, acts[0], r, u) + Held(Apply(from, acts[0]), acts[1..], r, u)
  }

  /** The references of the first `n` threads. */
  ghost function HeldByAll(from: State, acts: seq<Action>, r: Ref, n: nat): int {
    if n == 0 then 0 else HeldByAll(from, acts, r, n - 1) + Held(from, acts, r, n - 1)
  }

  /**
   The difference an operation under way makes: a `hold` that has not counted yet, a
   `rele` that has not given up its reference yet, a `find` that has counted and not returned.
   */
  function Due(pc: Pc, r: Ref): int {
    match pc
    case HoldCheck(x, None) => if x == r then -1 else 0
    case HoldLock(x, None) => if x == r then -1 else 0
    case HoldInc(x, None) => if x == r then -1 else 0
    case HoldUnlock(x, Some(_)) => if x == r then 1 else 0
    case FindUnlock(_, Some(x)) => if x == r then 1 else 0
    case ReleCheck(x) => if x == r then 1 else 0
    case ReleLock(x) => if x == r then 1 else 0
    case ReleTest(x) => if x == r then 1 else 0
    case ReleDrop(x) => if x == r then 1 else 0
    case ReleHash(x) => if x == r then 1 else 0
    case ReleRelock(x) => if x == r then 1 else 0
    case ReleRecheck(x) => if x == r then 1 else 0
    case ReleDec(x) => if x == r then 1 else 0
    case ReleHead(x) => if x == r then 1 else 0
    case ReleWalk(x, _) => if x == r then 1 else 0
    case ReleBypass(x, _) => if x == r then 1 else 0
    case ReleLast(x) => if x == r then 1 else 0
    case ReleFast(x) => if x == r then 1 else 0
    case _ => 0
  }

  /** The references of `u` to `r` as the heap has them; an object not yet made has none. */
  function Owned(s: State, r: Ref, u: Tid): int {
    if r < |s.heap| then s.heap[r].owners[u] else 0
  }

  // ----- one step -----

  /** What gives up a reference has one. */
  lemma Owns(s: State, c: Chains, t: Tid)
    requires Inv(s, c) && t < |s.pcs| && (s.pcs[t].ReleDec? || s.pcs[t].ReleLast? || s.pcs[t].ReleFast?)
    ensures t in s.heap[s.pcs[t].r].owners
  {
    assert PcOK(s, c, t, s.pcs[t]) && FooOK(s.heap[s.pcs[t].r]);
  }

  /** The owners of `r` change by the credit and by what the operation has done of it. */
  ghost predicate Booked(s: State, a: Action, s': State, r: Ref, u: Tid)
    requires a.t < |s.pcs| && a.t < |s'.pcs|
  {
    Owned(s', r, u) - Owned(s, r, u)
    == Credit(s, a, r, u) + if u == a.t then Due(s'.pcs[u], r) - Due(s.pcs[u], r) else 0
  }

  lemma HoldBooked(s: State, t: Tid, r: Ref, u: Tid)
    requires Valid(s) && t < |s.pcs| && Enabled(s, t)
    requires var pc := s.pcs[t]; pc.HoldCheck? || pc.HoldLock? || pc.HoldInc? || pc.HoldUnlock?
    requires !StepHold(s, t).pcs[t].Failed?
    ensures Booked(s, Run(t), StepHold(s, t), r, u)
  {
  }

  lemma CreateFindBooked(s: State, t: Tid, r: Ref, u: Tid)
    requires Valid(s) && t < |s.pcs| && Enabled(s, t)
    requires !IsRele(s.pcs[t]) && !(s.pcs[t].HoldCheck? || s.pcs[t].HoldLock? || s.pcs[t].HoldInc? || s.pcs[t].HoldUnlock?)
    ensures Booked(s, Run(t), StepCreateFind(s, t), r, u)
  {
  }

  predicate GivesUp(pc: Pc) {
    pc.ReleDec? || pc.ReleLast? || pc.ReleFast?
  }

  /** `Drop` takes one reference of `t` to `x`. */
  lemma DropBooked(s: State, t: Tid, x: Ref, r: Ref, u: Tid)
    requires x < |s.heap| && t in s.heap[x].owners
    ensures Owned(Drop(s, t, x), r, u) == Owned(s, r, u) - if r == x && u == t then 1 else 0
  {
  }

  lemma GiveUpBooked(s: State, t: Tid, r: Ref, u: Tid)
    requires Valid(s) && t < |s.pcs| && Enabled(s, t) && GivesUp(s.pcs[t])
    requires t in s.heap[s.pcs[t].r].owners
    ensures Booked(s, Run(t), StepRele(s, t), r, u)
  {
    DropBooked(s, t, s.pcs[t].r, r, u);
    GiveUpStep(s, t, r, u);
  }

  lemma GiveUpStep(s: State, t: Tid, r: Ref, u: Tid)
    requires Valid(s) && t < |s.pcs| && Enabled(s, t) && GivesUp(s.pcs[t])
    ensures var x, s' := s.pcs[t].r, StepRele(s, t);
            && Owned(s', r, u) == Owned(Drop(s, t, x), r, u)
            && Due(s.pcs[t], r) == (if x == r then 1 else 0) && Due(s'.pcs[t], r) == 0
  {
  }

  /** No other step of `rele` touches the owners. */
  lemma ReleBooked(s: State, t: Tid, r: Ref, u: Tid)
    requires Valid(s) && t < |s.pcs| && Enabled(s, t) && IsRele(s.pcs[t]) && !GivesUp(s.pcs[t])
    requires !StepRele(s, t).pcs[t].Failed?
    ensures Booked(s, Run(t), StepRele(s, t), r, u)
  {
    ReleOwners(s, t, r);
    ReleDue(s, t, r);
  }

  lemma ReleOwners(s: State, t: Tid, r: Ref)
    requires Valid(s) && t < |s.pcs| && Enabled(s, t) && IsRele(s.pcs[t]) && !GivesUp(s.pcs[t])
    ensures var s' := StepRele(s, t); |s'.heap| == |s.heap| && (r < |s.heap| ==> s'.heap[r].owners == s.heap[r].owners)
  {
  }

  lemma ReleDue(s: State, t: Tid, r: Ref)
    requires Valid(s) && t < |s.pcs| && Enabled(s, t) && IsRele(s.pcs[t]) && !GivesUp(s.pcs[t])
    requires !StepRele(s, t).pcs[t].Failed?
    ensures Due(StepRele(s, t).pcs[t], r) == Due(s.pcs[t], r)
  {
  }

  lemma CallBooked(s: State, t: Tid, call: Call, r: Ref, u: Tid)
    requires Valid(s) && Allowed(s, Begin(t, call))
    ensures Booked(s, Begin(t, call), StartCall(s, t, call), r, u)
  {
  }

  lemma StepBooked(s: State, c: Chains, a: Action, s': State, r: Ref, u: Tid)
    requires Inv(s, c) && Allowed(s, a) && s' == Apply(s, a) && a.t < |s'.pcs| && !s'.pcs[a.t].Failed?
    ensures Booked(s, a, s', r, u)
  {
    if a.Begin? {
      CallBooked(s, a.t, a.call, r, u);
    } else {
      if GivesUp(s.pcs[a.t]) {
        Owns(s, c, a.t);
      }
      RunStepBooked(s, a.t, s', r, u);
    }
  }

  lemma RunStepBooked(s: State, t: Tid, s': State, r: Ref, u: Tid)
    requires Valid(s) && Allowed(s, Run(t)) && s' == Apply(s, Run(t)) && t < |s'.pcs| && !s'.pcs[t].Failed?
    requires GivesUp(s.pcs[t]) ==> t in s.heap[s.pcs[t].r].owners
    ensures Booked(s, Run(t), s', r, u)
  {
    var pc := s.pcs[t];
    if pc.HoldCheck? || pc.HoldLock? || pc.HoldInc? || pc.HoldUnlock? {
      HoldBooked(s, t, r, u);
    } else if GivesUp(pc) {
      GiveUpBooked(s, t, r, u);
    } else if IsRele(pc) {
      ReleBooked(s, t, r, u);
    } else {
      CreateFindBooked(s, t, r, u);
    }
  }

  /** After a step the thread stands at a place its invariant allows, so it has not failed. */
  lemma NotFailed(s: State, c: Chains, t: Tid)
    requires Inv(s, c) && t < |s.pcs|
    ensures !s.pcs[t].Failed?
  {
    assert PcOK(s, c, t, s.pcs[t]);
  }

  // ----- runs -----

  function DueOf(s: State, r: Ref, u: Tid): int {
    if u < |s.pcs| then Due(s.pcs[u], r) else 0
  }

  lemma {:induction false} RunBooked(from: State, c: Chains, acts: seq<Action>, s: State, r: Ref, u: Tid)
    requires Inv(from, c) && Reaches(from, acts, s)
    ensures |s.pcs| == |from.pcs|
    ensures Owned(s, r, u) - DueOf(s, r, u) == Owned(from, r, u) - DueOf(from, r, u) + Held(from, acts, r, u)
    decreases |acts|
  {
    if acts != [] {
      var a := acts[0];
      var c' := StepKeeps(from, c, a);
      NotFailed(Apply(from, a), c', a.t);
      StepBooked(from, c, a, Apply(from, a), r, u);
      RunBooked(Apply(from, a), c', acts[1..], s, r, u);
    }
  }

  lemma InitInv(threads: nat) returns (c: Chains)
    ensures Inv(Init(threads), c)
  {
    c := seq(NHASH, _ => []);
    assert ChainsOK(Init(threads), c);
  }

  /** The references of every thread to every object are those its calls gave it, up to its operation under way. */
  lemma OwnersAreHeld(threads: nat, acts: seq<Action>, s: State, r: Ref, u: Tid)
    requires Reaches(Init(threads), acts, s) && r < |s.heap|
    ensures |s.pcs| == threads
    ensures s.heap[r].owners[u] == Held(Init(threads), acts, r, u) + DueOf(s, r, u)
    ensures u >= threads ==> s.heap[r].owners[u] == 0
  {
    var c := InitInv(threads);
    RunBooked(Init(threads), c, acts, s, r, u);
    if u >= threads {
      NothingHeld(Init(threads), c, acts, s, r, u);
    }
  }

  /** Nobody but the threads of the run holds anything. */
  lemma {:induction false} NothingHeld(from: State, c: Chains, acts: seq<Action>, s: State, r: Ref, u: Tid)
    requires Inv(from, c) && Reaches(from, acts, s) && u >= |from.pcs|
    ensures Held(from, acts, r, u) == 0
    decreases |acts|
  {
    if acts != [] {
      var c' := StepKeeps(from, c, acts[0]);
      NothingHeld(Apply(from, acts[0]), c', acts[1..], s, r, u);
    }
  }

  // ----- counts -----

  /** The differences the operations of the first `n` threads make. */
  function DueOfAll(s: State, r: Ref, n: nat): int {
    if n == 0 then 0 else DueOfAll(s, r, n - 1) + DueOf(s, r, n - 1)
  }

  function Multiplicities(m: multiset<Tid>, n: nat): nat {
    if n == 0 then 0 else Multiplicities(m, n - 1) + m[n - 1]
  }

  lemma {:induction false} SizeIs(m: multiset<Tid>, n: nat)
    requires forall u :: u in m ==> u < n
    ensures |m| == Multiplicities(m, n)
  {
    if n == 0 {
      assert m == multiset{};
    } else {
      var rest := m[n - 1 := 0];
      SizeIs(rest, n - 1);
      SameBelow(m, rest, n - 1);
    }
  }

  lemma {:induction false} SameBelow(a: multiset<Tid>, b: multiset<Tid>, n: nat)
    requires forall u :: 0 <= u < n ==> a[u] == b[u]
    ensures Multiplicities(a, n) == Multiplicities(b, n)
  {
    if n > 0 { SameBelow(a, b, n - 1); }
  }

  lemma {:induction false} HeldAndDue(threads: nat, acts: seq<Action>, s: State, r: Ref, n: nat)
    requires Reaches(Init(threads), acts, s) && r < |s.heap| && n <= threads
    ensures Multiplicities(s.heap[r].owners, n) == HeldByAll(Init(threads), acts, r, n) + DueOfAll(s, r, n)
  {
    if n > 0 {
      HeldAndDue(threads, acts, s, r, n - 1);
      OwnersAreHeld(threads, acts, s, r, n - 1);
    }
  }

  /** The count of every object is the number of references its callers hold, up to the operations under way. */
  lemma CountIsLedger(threads: nat, acts: seq<Action>, s: State, r: Ref)
    requires Reaches(Init(threads), acts, s) && r < |s.heap|
    ensures s.heap[r].count == HeldByAll(Init(threads), acts, r, threads) + DueOfAll(s, r, threads)
  {
    var owners := s.heap[r].owners;
    CountsAreReferences(s, r);
    forall u | u in owners ensures u < threads {
      OwnersAreHeld(threads, acts, s, r, u);
    }
    SizeIs(owners, threads);
    HeldAndDue(threads, acts, s, r, threads);
  }

  ghost predicate AllReturned(s: State) {
    forall t :: 0 <= t < |s.pcs| ==> s.pcs[t].Idle?
  }

  lemma {:induction false} NothingDue(s: State, r: Ref, n: nat)
    requires AllReturned(s)
    ensures DueOfAll(s, r, n) == 0
  {
    if n > 0 { NothingDue(s, r, n - 1); }
  }

  /**
   When every operation has returned, an object is in the chain of its identifier exactly
   if some reference to it is held, and otherwise its mutex is destroyed and it is in no chain.
   */
  lemma HeldIffLinked(threads: nat, acts: seq<Action>, s: State, r: Ref) returns (c: Chains)
    requires Reaches(Init(threads), acts, s) && r < |s.heap| && AllReturned(s)
    ensures s.heap[r].count == HeldByAll(Init(threads), acts, r, threads)
    ensures TableExact(s, c)
    ensures s.heap[r].count > 0 ==> s.heap[r].phase.Linked? && r in c[s.heap[r].id % 29]
    ensures s.heap[r].count == 0 ==> s.heap[r].phase.Dead? && forall b :: 0 <= b < NHASH ==> r !in c[b]
  {
    CountIsLedger(threads, acts, s, r);
    NothingDue(s, r, threads);
    var c0 := ReachableInv(s);
    Settled(s, c0, r);
    LinkedWhileReferenced(s);
    c :| TableExact(s, c);
  }

  /** With no operation under way every object is linked or dead, and `hashlock` is free. */
  lemma Settled(s: State, c: Chains, r: Ref)
    requires Inv(s, c) && AllReturned(s) && r < |s.heap|
    ensures s.hashlock.None?
    ensures if s.heap[r].count > 0 then s.heap[r].phase.Linked? else s.heap[r].phase.Dead?
  {
    assert FooOK(s.heap[r]) && PhaseOK(s, r);
  }

  // ----- every operation does what it was called for -----

  /** The call a thread is at after an action. */
  function NextCall(before: Option<Call>, a: Action, t: Tid): Option<Call> {
    if a.Begin? && a.t == t then Some(a.call) else before
  }

  /** The last call a thread made in a run. */
  function LastCall(before: Option<Call>, acts: seq<Action>, t: Tid): Option<Call>
    decreases |acts|
  {
    if acts == [] then before else LastCall(NextCall(before, acts[0], t), acts[1..], t)
  }

  /** The identifier an `int` argument of `create` is kept as. */
  predicate IdOf(id: nat, arg: int) {
    id < 0x1_0000_0000_0000_0000 && (id - arg) % 0x1_0000_0000_0000_0000 == 0
  }

  /** Where a thread stands belongs to the call it made, on the object or key it was given. */
  predicate Serves(heap: seq<Foo>, call: Option<Call>, pc: Pc) {
    match pc
    case Idle => true
    case CreateLock(r) => call.Some? && call.value.Create? && r < |heap| && IdOf(heap[r].id, call.value.arg)
    case CreateLink(r) => call.Some? && call.value.Create? && r < |heap| && IdOf(heap[r].id, call.value.arg)
    case CreateHead(r) => call.Some? && call.value.Create? && r < |heap| && IdOf(heap[r].id, call.value.arg)
    case CreateUnlock(r) => call.Some? && call.value.Create? && r < |heap| && IdOf(heap[r].id, call.value.arg)
    case HoldCheck(r, f) => call == Some(if f.Some? then Find(f.value) else Hold(r))
    case HoldLock(r, f) => call == Some(if f.Some? then Find(f.value) else Hold(r))
    case HoldInc(r, f) => call == Some(if f.Some? then Find(f.value) else Hold(r))
    case HoldUnlock(r, f) => call == Some(if f.Some? then Find(f.value) else Hold(r))
    case FindLock(key) => call == Some(Find(key))
    case FindHead(key) => call == Some(Find(key))
    case FindLoop(key, _) => call == Some(Find(key))
    case FindUnlock(key, _) => call == Some(Find(key))
    case Failed => false
    case _ => call == Some(Rele(pc.r))
  }

  lemma CallServes(s: State, t: Tid, call: Call)
    requires Valid(s) && Allowed(s, Begin(t, call))
    ensures var s' := StartCall(s, t, call); t < |s'.pcs| && Serves(s'.heap, Some(call), s'.pcs[t])
  {
  }

  lemma HoldServes(s: State, t: Tid, call: Option<Call>)
    requires Valid(s) && t < |s.pcs| && Enabled(s, t) && Serves(s.heap, call, s.pcs[t])
    requires var pc := s.pcs[t]; pc.HoldCheck? || pc.HoldLock? || pc.HoldInc? || pc.HoldUnlock?
    ensures var s' := StepHold(s, t); s'.pcs[t].Failed? || Serves(s'.heap, call, s'.pcs[t])
  {
  }

  lemma CreateFindServes(s: State, t: Tid, call: Option<Call>)
    requires Valid(s) && t < |s.pcs| && Enabled(s, t) && Serves(s.heap, call, s.pcs[t])
    requires !IsRele(s.pcs[t]) && !(s.pcs[t].HoldCheck? || s.pcs[t].HoldLock? || s.pcs[t].HoldInc? || s.pcs[t].HoldUnlock?)
    ensures var s' := StepCreateFind(s, t); Serves(s'.heap, call, s'.pcs[t])
  {
  }

  lemma ReleServes(s: State, t: Tid, call: Option<Call>)
    requires Valid(s) && t < |s.pcs| && Enabled(s, t) && Serves(s.heap, call, s.pcs[t]) && IsRele(s.pcs[t])
    ensures var s' := StepRele(s, t); s'.pcs[t].Failed? || Serves(s'.heap, call, s'.pcs[t])
  {
  }

  lemma StepServes(s: State, c: Chains, a: Action, s': State, c': Chains, t: Tid, call: Option<Call>)
    requires Valid(s) && Allowed(s, a) && s' == Apply(s, a) && Guar(s, c, s', c', a.t) && !s'.pcs[a.t].Failed?
    requires t < |s.pcs| && Serves(s.heap, call, s.pcs[t])
    ensures t < |s'.pcs| && Serves(s'.heap, NextCall(call, a, t), s'.pcs[t])
  {
    var pc := s.pcs[t];
    if a.t != t {
      OthersServe(s, c, s', c', a.t, t, call);
    } else if a.Begin? {
      CallServes(s, t, a.call);
    } else if pc.HoldCheck? || pc.HoldLock? || pc.HoldInc? || pc.HoldUnlock? {
      HoldServes(s, t, call);
    } else if IsRele(pc) {
      ReleServes(s, t, call);
    } else {
      CreateFindServes(s, t, call);
    }
  }

  lemma OthersServe(s: State, c: Chains, s': State, c': Chains, t: Tid, u: Tid, call: Option<Call>)
    requires Guar(s, c, s', c', t) && u < |s.pcs| && u != t && Serves(s.heap, call, s.pcs[u])
    ensures Serves(s'.heap, call, s'.pcs[u])
  {
    var pc := s.pcs[u];
    if pc.CreateLock? || pc.CreateLink? || pc.CreateHead? || pc.CreateUnlock? {
      assert FooGuar(s.heap[pc.r], s'.heap[pc.r], t, HoldsHash(s.pcs[t]));
    }
  }

  lemma {:induction false} RunServes(from: State, c: Chains, acts: seq<Action>, s: State, t: Tid, call: Option<Call>)
    requires Inv(from, c) && Reaches(from, acts, s) && t < |from.pcs| && Serves(from.heap, call, from.pcs[t])
    ensures t < |s.pcs| && Serves(s.heap, LastCall(call, acts, t), s.pcs[t])
    decreases |acts|
  {
    if acts != [] {
      var c' := StepKeeps(from, c, acts[0]);
      NotFailed(Apply(from, acts[0]), c', acts[0].t);
      StepServes(from, c, acts[0], Apply(from, acts[0]), c', t, call);
      RunServes(Apply(from, acts[0]), c', acts[1..], s, t, NextCall(call, acts[0], t));
    }
  }

  /** Every thread that is inside an operation is inside the one it last called. */
  lemma ServesLastCall(threads: nat, acts: seq<Action>, s: State, t: Tid)
    requires Reaches(Init(threads), acts, s) && t < threads
    ensures t < |s.pcs| && Serves(s.heap, LastCall(None, acts, t), s.pcs[t])
  {
    var c := InitInv(threads);
    RunServes(Init(threads), c, acts, s, t, None);
  }

  /** `find(key)` returns a linked object with that very identifier, owned by the caller, or there is none. */
  lemma FindAnswersCall(threads: nat, acts: seq<Action>, s: State, t: Tid, key: nat)
    requires Reaches(Init(threads), acts, s) && t < threads && LastCall(None, acts, t) == Some(Find(key))
    requires t < |s.pcs| && s.pcs[t].FindUnlock?
    ensures match s.pcs[t].fp
            case Some(r) => r < |s.heap| && s.heap[r].id == key && t in s.heap[r].owners && s.heap[r].phase.Linked?
            case None => forall r :: 0 <= r < |s.heap| && s.heap[r].phase.Linked? ==> s.heap[r].id != key
  {
    ServesLastCall(threads, acts, s, t);
    FindIsExact(s, t);
  }

  /** The object a `create(arg)` makes keeps the identifier `arg`, converted to 64 bits without sign, for ever. */
  lemma CreateKeepsId(s: State, t: Tid, arg: int, acts: seq<Action>, s': State)
    requires Reachable(s) && Valid(s) && Allowed(s, Begin(t, Create(arg)))
    requires Reaches(Apply(s, Begin(t, Create(arg))), acts, s')
    ensures |s.heap| < |s'.heap| && IdOf(s'.heap[|s.heap|].id, arg)
    ensures RefOf(Apply(s, Begin(t, Create(arg))).pcs[t]) == Some(|s.heap|)
  {
    var c := ReachableInv(s);
    var s1 := Apply(s, Begin(t, Create(arg)));
    var c1 := StepKeeps(s, c, Begin(t, Create(arg)));
    CallServes(s, t, Create(arg));
    IdKept(s1, c1, acts, s', |s.heap|);
  }

  lemma {:induction false} IdKept(from: State, c: Chains, acts: seq<Action>, s: State, r: Ref)
    requires Inv(from, c) && Reaches(from, acts, s) && r < |from.heap|
    ensures r < |s.heap| && s.heap[r].id == from.heap[r].id
    decreases |acts|
  {
    if acts != [] {
      var s1 := Apply(from, acts[0]);
      var c1 := StepKeeps(from, c, acts[0]);
      assert FooGuar(from.heap[r], s1.heap[r], acts[0].t, HoldsHash(from.pcs[acts[0].t]));
      IdKept(s1, c1, acts[1..], s, r);
    }
  }
}
