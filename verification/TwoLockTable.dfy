/**
 The reference-counted hash table of 11/6_usage_two_mutex.cpp, as an interleaving
 of any number of threads.

 An object is an index into `heap`; `next` and `fh` are the links of the bucket
 chains.  Every program counter stands before one access to shared memory (the
 source lines are given beside it), so a step of one thread is one such access and
 the schedule may switch threads between any two of them.

 `owners` and `phase` are auxiliary, except that a step on a mutex fails once its
 object is `Dead`.  `owners` is the bag of outstanding references, one entry per
 reference a thread still has to `rele`.
 The only demand on clients is the reference discipline: `hold` and `rele` are
 called on a reference the caller owns.
 */
module TwoLockTable {
  import opened Wrappers

  type Tid = nat
  type Ref = nat

  const NHASH := 29
  const SIZE_T := 0x1_0000_0000_0000_0000

  /** Conversion of `create`'s `int` argument to `std::size_t`. */
  function ToSize(id: int): (r: nat)
    requires -0x8000_0000 <= id < 0x8000_0000
    ensures r < SIZE_T && r % SIZE_T == id % SIZE_T
  {
    if id < 0 then id + SIZE_T else id
  }

  function Hash(id: nat): nat {
    id % NHASH
  }

  datatype Phase =
    | Fresh(creator: Tid)    // allocated, not yet in the table
    | Linked                 // in a chain
    | Leaving(remover: Tid)  // unlinked, count still 1
    | Closing(closer: Tid)   // count 0, mutex about to be destroyed
    | Dead                   // mutex destroyed

  datatype Foo = Foo(count: nat, id: nat, next: Option<Ref>, lock: Option<Tid>, owners: multiset<Tid>, phase: Phase)

  datatype Pc =
    | Idle
    | CreateLock(r: Ref)                    // 30
    | CreateLink(r: Ref)                    // 31
    | CreateHead(r: Ref)                    // 32
    | CreateUnlock(r: Ref)                  // 33
    | HoldCheck(r: Ref, find: Option<nat>) // 42
    | HoldLock(r: Ref, find: Option<nat>)  // 45
    | HoldInc(r: Ref, find: Option<nat>)   // 46
    | HoldUnlock(r: Ref, find: Option<nat>) // 47
    | FindLock(key: nat)                    // 53
    | FindHead(key: nat)                    // 54, initialisation
    | FindLoop(key: nat, fp: Option<Ref>)   // 54-55, and 54's fp->next
    | FindUnlock(key: nat, fp: Option<Ref>) // 60
    | ReleCheck(r: Ref)                     // 65
    | ReleLock(r: Ref)                      // 70
    | ReleTest(r: Ref)                      // 71
    | ReleDrop(r: Ref)                      // 72
    | ReleHash(r: Ref)                      // 73
    | ReleRelock(r: Ref)                    // 74
    | ReleRecheck(r: Ref)                   // 75
    | ReleDec(r: Ref)                       // 76
    | ReleDecUnlock(r: Ref)                 // 77
    | ReleDecUnhash(r: Ref)                 // 78
    | ReleHead(r: Ref)                      // 84-86
    | ReleWalk(r: Ref, tfp: Option<Ref>)    // 89-90
    | ReleBypass(r: Ref, pred: Ref)         // 92
    | ReleLast(r: Ref)                      // 94
    | ReleLastUnhash(r: Ref)                // 96
    | ReleLastUnlock(r: Ref)                // 97
    | ReleDestroy(r: Ref)                   // 98
    | ReleFast(r: Ref)                      // 101
    | ReleFastUnlock(r: Ref)                // 102
    | Failed                                // exception, null dereference, or use of a destroyed mutex

  datatype State = State(heap: seq<Foo>, fh: seq<Option<Ref>>, hashlock: Option<Tid>, pcs: seq<Pc>)

  /** The operations a client may start; `Give` hands an owned reference to another thread. */
  datatype Call = Create(arg: int) | Find(key: nat) | Hold(r: Ref) | Rele(r: Ref) | Give(r: Ref, to: Tid)

  datatype Action = Begin(t: Tid, call: Call) | Run(t: Tid)

  // ----- the steps -----

  /** The reference a program counter works on, if any. */
  function RefOf(pc: Pc): Option<Ref> {
    match pc
    case Idle | FindLock(_) | FindHead(_) | Failed => None
    case FindLoop(_, fp) => fp
    case FindUnlock(_, fp) => fp
    case _ => Some(pc.r)
  }

  predicate HoldsHash(pc: Pc) {
    match pc
    case CreateLink(_) | CreateHead(_) | CreateUnlock(_) => true
    case HoldCheck(_, f) => f.Some?
    case HoldLock(_, f) => f.Some?
    case HoldInc(_, f) => f.Some?
    case HoldUnlock(_, f) => f.Some?
    case FindHead(_) | FindLoop(_, _) | FindUnlock(_, _) => true
    case ReleRelock(_) | ReleRecheck(_) | ReleDec(_) | ReleDecUnlock(_) | ReleDecUnhash(_) => true
    case ReleHead(_) | ReleWalk(_, _) | ReleBypass(_, _) | ReleLast(_) | ReleLastUnhash(_) => true
    case _ => false
  }

  predicate HoldsLock(pc: Pc) {
    match pc
    case HoldInc(_, _) | HoldUnlock(_, _) => true
    case ReleTest(_) | ReleDrop(_) | ReleFast(_) | ReleFastUnlock(_) => true
    case ReleRecheck(_) | ReleDec(_) | ReleDecUnlock(_) => true
    case ReleHead(_) | ReleWalk(_, _) | ReleBypass(_, _) | ReleLast(_) | ReleLastUnhash(_) | ReleLastUnlock(_) => true
    case _ => false
  }

  predicate AwaitsHash(pc: Pc) {
    pc.CreateLock? || pc.FindLock? || pc.ReleHash?
  }

  predicate AwaitsLock(pc: Pc) {
    pc.HoldLock? || pc.ReleLock? || pc.ReleRelock?
  }

  predicate ValidPc(s: State, pc: Pc) {
    && (RefOf(pc).Some? ==> RefOf(pc).value < |s.heap|)
    && (pc.ReleWalk? && pc.tfp.Some? ==> pc.tfp.value < |s.heap|)
    && (pc.ReleBypass? ==> pc.pred < |s.heap|)
  }

  predicate Valid(s: State) {
    && |s.fh| == NHASH
    && (forall t :: 0 <= t < |s.pcs| ==> ValidPc(s, s.pcs[t]))
  }

  predicate Enabled(s: State, t: Tid)
    requires Valid(s) && t < |s.pcs|
  {
    var pc := s.pcs[t];
    && !pc.Idle? && !pc.Failed?
    && (AwaitsHash(pc) ==> s.hashlock.None?)
    && (AwaitsLock(pc) ==> s.heap[pc.r].lock.None?)
  }

  predicate Allowed(s: State, a: Action)
    requires Valid(s)
  {
    && a.t < |s.pcs|
    && match a
       case Run(t) => Enabled(s, t)
       case Begin(t, call) =>
         && s.pcs[t].Idle?
         && match call
            case Create(id) => -0x8000_0000 <= id < 0x8000_0000
            case Find(_) => true
            case Hold(r) => r < |s.heap| && t in s.heap[r].owners
            case Rele(r) => r < |s.heap| && t in s.heap[r].owners
            case Give(r, to) => r < |s.heap| && t in s.heap[r].owners && to < |s.pcs|
  }

  function Goto(s: State, t: Tid, pc: Pc): State
    requires t < |s.pcs|
  {
    s.(pcs := s.pcs[t := pc])
  }

  function SetFoo(s: State, r: Ref, f: Foo): State
    requires r < |s.heap|
  {
    s.(heap := s.heap[r := f])
  }

  /** Taking the mutex of `r`; a destroyed mutex must not be touched. */
  function Acquire(s: State, t: Tid, r: Ref, then_: Pc): State
    requires t < |s.pcs| && r < |s.heap|
  {
    if s.heap[r].phase.Dead? then Goto(s, t, Failed)
    else Goto(SetFoo(s, r, s.heap[r].(lock := Some(t))), t, then_)
  }

  function Release(s: State, t: Tid, r: Ref, then_: Pc): State
    requires t < |s.pcs| && r < |s.heap|
  {
    if s.heap[r].phase.Dead? then Goto(s, t, Failed)
    else Goto(SetFoo(s, r, s.heap[r].(lock := None)), t, then_)
  }

  /** `count` and the bag of references lose one entry of `t`. */
  function Drop(s: State, t: Tid, r: Ref): State
    requires r < |s.heap|
  {
    var f := s.heap[r];
    SetFoo(s, r, f.(count := if f.count == 0 then SIZE_T - 1 else f.count - 1, owners := f.owners - multiset{t}))
  }

  function StepHold(s: State, t: Tid): State
    requires Valid(s) && t < |s.pcs| && Enabled(s, t)
    requires var pc := s.pcs[t]; pc.HoldCheck? || pc.HoldLock? || pc.HoldInc? || pc.HoldUnlock?
  {
    var pc := s.pcs[t];
    var r := pc.r;
    match pc
    case HoldCheck(_, f) => Goto(s, t, if s.heap[r].count == 0 then Failed else HoldLock(r, f))
    case HoldLock(_, f) => Acquire(s, t, r, HoldInc(r, f))
    case HoldInc(_, f) =>
      Goto(SetFoo(s, r, s.heap[r].(count := s.heap[r].count + 1, owners := s.heap[r].owners + multiset{t})), t, HoldUnlock(r, f))
    case HoldUnlock(_, f) => Release(s, t, r, if f.Some? then FindUnlock(f.value, Some(r)) else Idle)
  }

  function StepCreateFind(s: State, t: Tid): State
    requires Valid(s) && t < |s.pcs| && Enabled(s, t)
    requires var pc := s.pcs[t];
             pc.CreateLock? || pc.CreateLink? || pc.CreateHead? || pc.CreateUnlock? ||
             pc.FindLock? || pc.FindHead? || pc.FindLoop? || pc.FindUnlock?
  {
    match s.pcs[t]
    case CreateLock(r) => Goto(s.(hashlock := Some(t)), t, CreateLink(r))
    case CreateLink(r) => Goto(SetFoo(s, r, s.heap[r].(next := s.fh[Hash(s.heap[r].id)])), t, CreateHead(r))
    case CreateHead(r) =>
      var s1 := SetFoo(s, r, s.heap[r].(phase := Linked));
      Goto(s1.(fh := s.fh[Hash(s.heap[r].id) := Some(r)]), t, CreateUnlock(r))
    case CreateUnlock(r) => Goto(s.(hashlock := None), t, Idle)
    case FindLock(key) => Goto(s.(hashlock := Some(t)), t, FindHead(key))
    case FindHead(key) => Goto(s, t, FindLoop(key, s.fh[Hash(key)]))
    case FindLoop(key, fp) =>
      if fp.None? then Goto(s, t, FindUnlock(key, None))
      else if s.heap[fp.value].id == key then Goto(s, t, HoldCheck(fp.value, Some(key)))
      else Goto(s, t, FindLoop(key, s.heap[fp.value].next))
    case FindUnlock(key, fp) => Goto(s.(hashlock := None), t, Idle)
  }

  predicate IsRele(pc: Pc) {
    !(pc.Idle? || pc.Failed? || pc.HoldCheck? || pc.HoldLock? || pc.HoldInc? || pc.HoldUnlock? ||
      pc.CreateLock? || pc.CreateLink? || pc.CreateHead? || pc.CreateUnlock? ||
      pc.FindLock? || pc.FindHead? || pc.FindLoop? || pc.FindUnlock?)
  }

  function StepRele(s: State, t: Tid): State
    requires Valid(s) && t < |s.pcs| && Enabled(s, t) && IsRele(s.pcs[t])
  {
    match s.pcs[t]
    case ReleCheck(r) => Goto(s, t, if s.heap[r].count == 0 then Failed else ReleLock(r))
    case ReleLock(r) => Acquire(s, t, r, ReleTest(r))
    case ReleTest(r) => Goto(s, t, if s.heap[r].count == 1 then ReleDrop(r) else ReleFast(r))
    case ReleDrop(r) => Release(s, t, r, ReleHash(r))
    case ReleHash(r) => Goto(s.(hashlock := Some(t)), t, ReleRelock(r))
    case ReleRelock(r) => Acquire(s, t, r, ReleRecheck(r))
    case ReleRecheck(r) => Goto(s, t, if s.heap[r].count != 1 then ReleDec(r) else ReleHead(r))
    case ReleDec(r) => Goto(Drop(s, t, r), t, ReleDecUnlock(r))
    case ReleDecUnlock(r) => Release(s, t, r, ReleDecUnhash(r))
    case ReleDecUnhash(r) => Goto(s.(hashlock := None), t, Idle)
    case ReleHead(r) =>
      var b := Hash(s.heap[r].id);
      if s.fh[b] == Some(r) then
        var s1 := SetFoo(s, r, s.heap[r].(phase := Leaving(t)));
        Goto(s1.(fh := s.fh[b := s.heap[r].next]), t, ReleLast(r))
      else Goto(s, t, ReleWalk(r, s.fh[b]))
    case ReleWalk(r, tfp) =>
      if tfp.None? then Goto(s, t, Failed)
      else if s.heap[tfp.value].next == Some(r) then Goto(s, t, ReleBypass(r, tfp.value))
      else Goto(s, t, ReleWalk(r, s.heap[tfp.value].next))
    case ReleBypass(r, pred) =>
      var s1 := SetFoo(s, pred, s.heap[pred].(next := s.heap[r].next));
      Goto(SetFoo(s1, r, s1.heap[r].(phase := Leaving(t))), t, ReleLast(r))
    case ReleLast(r) =>
      var s1 := Drop(s, t, r);
      Goto(SetFoo(s1, r, s1.heap[r].(phase := Closing(t))), t, ReleLastUnhash(r))
    case ReleLastUnhash(r) => Goto(s.(hashlock := None), t, ReleLastUnlock(r))
    case ReleLastUnlock(r) => Release(s, t, r, ReleDestroy(r))
    case ReleDestroy(r) => Goto(SetFoo(s, r, s.heap[r].(phase := Dead)), t, Idle)
    case ReleFast(r) => Goto(Drop(s, t, r), t, ReleFastUnlock(r))
    case ReleFastUnlock(r) => Release(s, t, r, Idle)
  }

  function StartCall(s: State, t: Tid, call: Call): State
    requires Valid(s) && Allowed(s, Begin(t, call))
  {
    match call
    case Create(id) =>
      var f := Foo(1, ToSize(id), None, None, multiset{t}, Fresh(t));
      Goto(s.(heap := s.heap + [f]), t, CreateLock(|s.heap|))
    case Find(key) => Goto(s, t, FindLock(key))
    case Hold(r) => Goto(s, t, HoldCheck(r, None))
    case Rele(r) => Goto(s, t, ReleCheck(r))
    case Give(r, to) => SetFoo(s, r, s.heap[r].(owners := s.heap[r].owners - multiset{t} + multiset{to}))
  }

  function Apply(s: State, a: Action): State
    requires Valid(s) && Allowed(s, a)
  {
    match a
    case Begin(t, call) => StartCall(s, t, call)
    case Run(t) =>
      var pc := s.pcs[t];
      if pc.HoldCheck? || pc.HoldLock? || pc.HoldInc? || pc.HoldUnlock? then StepHold(s, t)
      else if IsRele(pc) then StepRele(s, t)
      else StepCreateFind(s, t)
  }
}
