/** Whole runs of the asynchronous pipeline, and the completion loop itself. */
module AsyncRot13Theorems {
  import opened Files
  import opened Rot13
  import opened AsyncRot13
  import opened AsyncRot13Proof

  // ----- the start -----

  /** After `k` of the sixteen initial reads, slot `j` holds block `j`. */
  lemma {:induction false} StartShape(k: nat)
    requires k <= QUEUE_DEPTH
    ensures var s := Start(k);
            && |s.slots| == QUEUE_DEPTH && s.next == k * BSZ && s.pending == k == Count(s.slots)
            && s.output == [] && !s.eof && !s.failed && s.written == {}
            && (forall j :: 0 <= j < k ==> s.slots[j] == Reading(j * BSZ))
            && (forall j :: k <= j < QUEUE_DEPTH ==> s.slots[j] == Idle)
  {
    if k == 0 {
      CountBounds(Start(0).slots);
    } else {
      StartShape(k - 1);
      CountUpdate(Start(k - 1).slots, k - 1, Reading((k - 1) * BSZ));
    }
  }

  lemma StartInv(input: seq<byte>)
    ensures Inv(input, Start(QUEUE_DEPTH))
  {
    var s := Start(QUEUE_DEPTH);
    StartShape(QUEUE_DEPTH);
    FreshReads(input, s);
  }

  /** Sixteen reads of sixteen blocks. */
  lemma FreshReads(input: seq<byte>, s: State)
    requires |s.slots| == QUEUE_DEPTH && s.next == QUEUE_DEPTH * BSZ && s.written == {}
    requires forall j :: 0 <= j < QUEUE_DEPTH ==> s.slots[j] == Reading(j * BSZ)
    ensures SlotsOK(input, s) && Apart(s.slots) && Covered(input, s)
  {
    forall b | 0 <= b && b * BSZ < s.next && b * BSZ < |input| ensures Held(s.slots, b * BSZ) {
      assert InFlight(s.slots[b]);
    }
  }

  // ----- runs -----

  ghost predicate Runs(input: seq<byte>, s: State, steps: seq<Step>, s': State)
    decreases |steps|
  {
    if steps == [] then s' == s
    else Enabled(s, steps[0]) && Runs(input, Apply(input, s, steps[0]), steps[1..], s')
  }

  function Blocks(n: nat): nat {
    (n + BSZ - 1) / BSZ
  }

  /** How far a slot is from being idle. */
  function Weight(x: Slot): nat {
    match x
    case Idle => 0
    case Reading(_) => 4
    case ReadDone(_, _, _) => 3
    case Writing(_, _) => 2
    case WriteDone(_, _, _) => 1
  }

  function Weights(slots: seq<Slot>): nat {
    if slots == [] then 0 else Weights(slots[..|slots| - 1]) + Weight(slots[|slots| - 1])
  }

  lemma {:induction false} WeightsUpdate(slots: seq<Slot>, i: nat, x: Slot)
    requires i < |slots|
    ensures Weights(slots[i := x]) == Weights(slots) - Weight(slots[i]) + Weight(x)
  {
    var n := |slots| - 1;
    if i == n {
      assert slots[i := x][..n] == slots[..n];
    } else {
      assert slots[i := x][..n] == slots[..n][i := x];
      WeightsUpdate(slots[..n], i, x);
    }
  }

  /** Steps that can still be taken: five for each read not yet issued, and what the slots owe. */
  ghost function Remaining(input: seq<byte>, s: State): int {
    5 * (QUEUE_DEPTH + Blocks(|input|) - s.next / BSZ) + Weights(s.slots) + if s.failed then 0 else 1
  }

  /** At most sixteen more reads are issued than there are blocks. */
  lemma ReadsBounded(input: seq<byte>, s: State)
    requires Inv(input, s)
    ensures s.next / BSZ <= QUEUE_DEPTH + Blocks(|input|)
    ensures Remaining(input, s) >= 0
  {
    forall b | b in s.written ensures b < Blocks(|input|) {
      assert b * BSZ < |input|;
    }
    BelowBound(s.written, Blocks(|input|));
  }

  lemma {:induction false} BelowBound(xs: set<nat>, n: nat)
    requires forall x :: x in xs ==> x < n
    ensures |xs| <= n
  {
    if n == 0 {
      assert xs == {};
    } else {
      BelowBound(xs - {n - 1}, n - 1);
    }
  }

  lemma StepConsumes(input: seq<byte>, s: State, a: Step)
    requires Enabled(s, a)
    ensures Remaining(input, Apply(input, s, a)) < Remaining(input, s)
  {
    var s' := Apply(input, s, a);
    SlotAdvances(input, s, a);
    WeightsUpdate(s.slots, a.i, s'.slots[a.i]);
    OneBlockMore(s.next);
    Consumed(Blocks(|input|), s.next / BSZ, s'.next / BSZ, Weights(s.slots), Weights(s'.slots), s.failed, s'.failed);
  }

  lemma Consumed(blocks: nat, issued: nat, issued': nat, w: nat, w': nat, failed: bool, failed': bool)
    requires || (issued' == issued && failed' == failed && w' < w)
             || (issued' == issued + 1 && failed' == failed && w' == w + 3)
             || (issued' == issued && failed' && !failed && w' == w)
    ensures 5 * (QUEUE_DEPTH + blocks - issued') + w' + (if failed' then 0 else 1)
          < 5 * (QUEUE_DEPTH + blocks - issued) + w + (if failed then 0 else 1)
  {
  }

  /** A slot comes closer to idle, or starts over with one more read issued, or the program exits. */
  lemma SlotAdvances(input: seq<byte>, s: State, a: Step)
    requires Enabled(s, a)
    ensures var s' := Apply(input, s, a);
            && a.i < |s'.slots| && s'.slots == s.slots[a.i := s'.slots[a.i]]
            && (|| (s'.next == s.next && s'.failed == s.failed && Weight(s'.slots[a.i]) < Weight(s.slots[a.i]))
                || (s'.next == s.next + BSZ && s'.failed == s.failed && Weight(s'.slots[a.i]) == Weight(s.slots[a.i]) + 3)
                || (s'.next == s.next && s'.failed && !s.failed && s'.slots == s.slots))
  {
  }

  lemma OneBlockMore(next: nat)
    ensures (next + BSZ) / BSZ == next / BSZ + 1
  {
  }

  /** Every run has a length bounded by the size of the input. */
  lemma {:induction false} RunsTerminate(input: seq<byte>, s: State, steps: seq<Step>, s': State)
    requires Inv(input, s) && Runs(input, s, steps, s')
    ensures Inv(input, s') && |steps| <= Remaining(input, s) - Remaining(input, s')
    ensures |steps| <= Remaining(input, s)
    decreases |steps|
  {
    ReadsBounded(input, s);
    if steps != [] {
      StepKeeps(input, s, steps[0]);
      StepConsumes(input, s, steps[0]);
      RunsTerminate(input, Apply(input, s, steps[0]), steps[1..], s');
    }
    ReadsBounded(input, s');
  }

  lemma {:induction false} RunsOneMore(input: seq<byte>, from: State, steps: seq<Step>, s: State, steps': seq<Step>)
    requires Runs(input, from, steps, s) && |steps'| == |steps| + 1 && steps'[..|steps|] == steps && Enabled(s, steps'[|steps|])
    ensures Runs(input, from, steps', Apply(input, s, steps'[|steps|]))
    decreases |steps|
  {
    if steps == [] {
      assert steps'[1..] == [];
    } else {
      assert steps'[0] == steps[0] && steps'[1..][..|steps| - 1] == steps[1..];
      RunsOneMore(input, Apply(input, from, steps[0]), steps[1..], s, steps'[1..]);
    }
  }

  ghost predicate Reachable(input: seq<byte>, s: State) {
    exists steps :: Runs(input, Start(QUEUE_DEPTH), steps, s)
  }

  lemma ReachableInv(input: seq<byte>, s: State)
    requires Reachable(input, s)
    ensures Inv(input, s)
  {
    var steps :| Runs(input, Start(QUEUE_DEPTH), steps, s);
    StartInv(input);
    RunsTerminate(input, Start(QUEUE_DEPTH), steps, s);
  }

  /** No run is longer than five steps a block and sixty-five more. */
  lemma RunLength(input: seq<byte>, steps: seq<Step>, s: State)
    requires Runs(input, Start(QUEUE_DEPTH), steps, s)
    ensures |steps| <= 5 * Blocks(|input|) + 65
  {
    StartInv(input);
    StartShape(QUEUE_DEPTH);
    StartWeights(QUEUE_DEPTH);
    RunsTerminate(input, Start(QUEUE_DEPTH), steps, s);
  }

  lemma {:induction false} StartWeights(k: nat)
    requires k <= QUEUE_DEPTH
    ensures Weights(Start(k).slots) == 4 * k
  {
    if k == 0 {
      IdleWeights(Start(0).slots);
    } else {
      StartShape(k - 1);
      StartWeights(k - 1);
      WeightsUpdate(Start(k - 1).slots, k - 1, Reading((k - 1) * BSZ));
    }
  }

  lemma {:induction false} IdleWeights(slots: seq<Slot>)
    requires forall i :: 0 <= i < |slots| ==> slots[i].Idle?
    ensures Weights(slots) == 0
  {
    if slots != [] {
      IdleWeights(slots[..|slots| - 1]);
    }
  }

  // ----- what holds on every run -----

  /** Whatever the order of completions, a run that ends normally has written the translated input. */
  lemma EndsTranslated(input: seq<byte>, s: State)
    requires Reachable(input, s) && s.pending == 0 && !s.failed
    ensures s.output == TranslateAll(input)
  {
    ReachableInv(input, s);
    FinishedOutput(input, s);
  }

  lemma FinishedOutput(input: seq<byte>, s: State)
    requires Inv(input, s) && s.pending == 0 && !s.failed
    ensures s.output == TranslateAll(input)
  {
    CountBounds(s.slots);
    assert s.slots[0].Idle? && SlotOK(input, s, s.slots[0]);
    forall p | 0 <= p < |input| ensures ByteOK(input, s.output, p) {
      var b := p / BSZ;
      assert b * BSZ <= p < b * BSZ + BSZ;
      assert !Held(s.slots, b * BSZ);
      assert b in s.written;
    }
    forall p | 0 <= p < |input| ensures p < |s.output| && s.output[p] == TranslateAll(input)[p] {
      assert ByteOK(input, s.output, p);
    }
    if input != [] {
      assert ByteOK(input, s.output, |input| - 1);
    }
  }

  // ----- runs without a failing request -----

  /** The kernel did what the step was asked for: it read, or it wrote the whole block. */
  ghost predicate Answered(s: State, a: Step) {
    match a
    case KernelRead(_, ok) => ok
    case KernelWrite(i, res) => i < |s.slots| && s.slots[i].Writing? && res == |s.slots[i].data|
    case Reap(_) => true
  }

  /** No request of the run failed or was short. */
  ghost predicate AllAnswered(input: seq<byte>, s: State, steps: seq<Step>)
    decreases |steps|
  {
    steps == [] || (Answered(s, steps[0]) && Enabled(s, steps[0]) && AllAnswered(input, Apply(input, s, steps[0]), steps[1..]))
  }

  ghost predicate Clean(s: State) {
    !s.failed && forall i :: 0 <= i < |s.slots| ==> CleanSlot(s.slots[i])
  }

  predicate CleanSlot(x: Slot) {
    match x
    case ReadDone(_, _, res) => res >= 0
    case WriteDone(_, data, res) => res == |data|
    case _ => true
  }

  lemma StepClean(input: seq<byte>, s: State, a: Step)
    requires Clean(s) && Enabled(s, a) && Answered(s, a)
    ensures Clean(Apply(input, s, a))
  {
    assert CleanSlot(s.slots[a.i]);
  }

  lemma {:induction false} RunClean(input: seq<byte>, s: State, steps: seq<Step>, s': State)
    requires Clean(s) && Runs(input, s, steps, s') && AllAnswered(input, s, steps)
    ensures Clean(s')
    decreases |steps|
  {
    if steps != [] {
      StepClean(input, s, steps[0]);
      RunClean(input, Apply(input, s, steps[0]), steps[1..], s');
    }
  }

  /** The program exits only if some request failed or was short. */
  lemma FailsOnlyByRequest(input: seq<byte>, steps: seq<Step>, s: State)
    requires Runs(input, Start(QUEUE_DEPTH), steps, s) && AllAnswered(input, Start(QUEUE_DEPTH), steps)
    ensures !s.failed
  {
    StartShape(QUEUE_DEPTH);
    RunClean(input, Start(QUEUE_DEPTH), steps, s);
  }

  /**
   A run without a failing request can go on without one until the output is the
   translated input, and where it cannot go on that is what the output is.
   */
  lemma AnsweredRunsTranslate(input: seq<byte>, steps: seq<Step>, s: State)
    requires Runs(input, Start(QUEUE_DEPTH), steps, s) && AllAnswered(input, Start(QUEUE_DEPTH), steps)
    ensures s.pending > 0 ==> exists a :: Enabled(s, a) && Answered(s, a)
    ensures s.pending == 0 ==> s.output == TranslateAll(input)
    ensures (forall a :: !Enabled(s, a)) ==> s.output == TranslateAll(input)
  {
    FailsOnlyByRequest(input, steps, s);
    PendingExact(input, s);
    if s.pending > 0 {
      CountBounds(s.slots);
      var i :| 0 <= i < |s.slots| && InFlight(s.slots[i]);
      var a := if s.slots[i].Reading? then KernelRead(i, true)
               else if s.slots[i].Writing? then KernelWrite(i, |s.slots[i].data|)
               else Reap(i);
      assert Enabled(s, a) && Answered(s, a);
    } else {
      EndsTranslated(input, s);
    }
  }

  // ----- the end of the input -----

  /** Some read of the run that was reaped came back short or empty. */
  ghost predicate SawEnd(input: seq<byte>, s: State, steps: seq<Step>)
    decreases |steps|
  {
    steps != [] && Enabled(s, steps[0]) &&
    ((steps[0].Reap? && s.slots[steps[0].i].ReadDone? && 0 <= s.slots[steps[0].i].res < 4096)
     || SawEnd(input, Apply(input, s, steps[0]), steps[1..]))
  }

  lemma StepEnd(input: seq<byte>, s: State, a: Step)
    requires Enabled(s, a)
    ensures Apply(input, s, a).eof <==> s.eof || (a.Reap? && s.slots[a.i].ReadDone? && 0 <= s.slots[a.i].res < 4096)
    ensures Apply(input, s, a).next == s.next || (!s.eof && Apply(input, s, a).next == s.next + 4096)
  {
  }

  lemma {:induction false} RunEnd(input: seq<byte>, s: State, steps: seq<Step>, s': State)
    requires Runs(input, s, steps, s')
    ensures s'.eof <==> s.eof || SawEnd(input, s, steps)
    ensures s.eof ==> s'.next == s.next
    decreases |steps|
  {
    if steps != [] {
      StepEnd(input, s, steps[0]);
      RunEnd(input, Apply(input, s, steps[0]), steps[1..], s');
    }
  }

  /** `eof_reached` is set exactly by a short or empty read, and after that no read is issued. */
  lemma EofExact(input: seq<byte>, steps: seq<Step>, s: State, more: seq<Step>, s': State)
    requires Runs(input, Start(QUEUE_DEPTH), steps, s) && Runs(input, s, more, s')
    ensures s.eof <==> SawEnd(input, Start(QUEUE_DEPTH), steps)
    ensures s.eof ==> s'.next == s.next
  {
    StartShape(QUEUE_DEPTH);
    RunEnd(input, Start(QUEUE_DEPTH), steps, s);
    RunEnd(input, s, more, s');
  }

  /** The loop never waits for a completion that cannot come. */
  lemma NeverStuck(input: seq<byte>, s: State)
    requires Reachable(input, s) && s.pending > 0 && !s.failed
    ensures exists a :: Enabled(s, a)
  {
    ReachableInv(input, s);
    CountBounds(s.slots);
    var i :| 0 <= i < |s.slots| && InFlight(s.slots[i]);
    var a := if s.slots[i].Reading? then KernelRead(i, true)
             else if s.slots[i].Writing? then KernelWrite(i, 0)
             else Reap(i);
    assert Enabled(s, a);
  }

  /** `pending_operations` counts the requests in flight, at most sixteen; reads run at most sixteen blocks past the end. */
  lemma PendingExact(input: seq<byte>, s: State)
    requires Reachable(input, s) && !s.failed
    ensures |s.slots| == 16 && 0 <= s.pending == Count(s.slots) <= 16
    ensures s.next / 4096 <= 16 + (|input| + 4095) / 4096
  {
    ReachableInv(input, s);
    CountBounds(s.slots);
    ReadsBounded(input, s);
  }

  /** The byte ranges of two requests in flight never overlap. */
  lemma RangesDisjoint(input: seq<byte>, s: State, i: nat, j: nat)
    requires Reachable(input, s) && i < |s.slots| && j < |s.slots| && i != j
    requires InFlight(s.slots[i]) && InFlight(s.slots[j])
    ensures s.slots[i].off + BSZ <= s.slots[j].off || s.slots[j].off + BSZ <= s.slots[i].off
  {
    ReachableInv(input, s);
    assert SlotOK(input, s, s.slots[i]) && SlotOK(input, s, s.slots[j]);
    Multiples(s.slots[i].off, s.slots[j].off);
  }

  // ----- the loop -----

  class Converter {
    const input: seq<byte>
    var output: seq<byte>
    const requests: array<Slot>
    var globalReadOffset: nat
    var pendingOperations: int
    var eofReached: bool
    var failed: bool
    ghost var written: set<nat>
    /** What the kernel and the program have done so far. */
    ghost var steps: seq<Step>

    ghost function Model(): State
      reads this, requests
    {
      State(output, requests[..], globalReadOffset, pendingOperations, eofReached, failed, written)
    }

    constructor (input: seq<byte>)
      ensures this.input == input && fresh(requests) && requests.Length == QUEUE_DEPTH && Model() == Start(0) && steps == []
    {
      this.input := input;
      this.output, this.globalReadOffset, this.pendingOperations := [], 0, 0;
      this.eofReached, this.failed, this.written, this.steps := false, false, {}, [];
      this.requests := new Slot[QUEUE_DEPTH](_ => Idle);
      new;
      assert requests[..] == Start(0).slots;
    }

    method SubmitRead(i: nat)
      requires i < requests.Length
      modifies this, requests
      ensures Model() == QueueRead(old(Model()), i) && steps == old(steps)
    {
      if eofReached {
        requests[i] := Idle;
        return;
      }
      requests[i] := Reading(globalReadOffset);
      globalReadOffset := globalReadOffset + BSZ;
      pendingOperations := pendingOperations + 1;
    }

    method SubmitWrite(i: nat, off: nat, data: seq<byte>)
      requires i < requests.Length
      modifies this, requests
      ensures Model() == QueueWrite(old(Model()), i, off, data) && steps == old(steps)
    {
      requests[i] := Writing(off, data);
      pendingOperations := pendingOperations + 1;
    }

    method HandleCompletion(i: nat)
      requires i < requests.Length && (requests[i].ReadDone? || requests[i].WriteDone?)
      modifies this, requests
      ensures Model() == ReapSlot(old(Model()), i) && steps == old(steps)
    {
      var req := requests[i];
      pendingOperations := pendingOperations - 1;
      if req.res < 0 {
        failed := true;
        return;
      }
      match req {
        case ReadDone(off, data, res) =>
          if res > 0 {
            if res < BSZ { eofReached := true; }
            SubmitWrite(i, off, TranslateAll(data));
          } else {
            eofReached := true;
            requests[i] := Idle;
          }
        case WriteDone(off, data, res) =>
          if res != |data| {
            failed := true;
            return;
          }
          written := written + {off / BSZ};
          SubmitRead(i);
      }
    }

    /** The kernel performs the request of slot `i`, which may fail or be short. */
    method Perform(i: nat) returns (ghost a: Step)
      requires i < requests.Length && (requests[i].Reading? || requests[i].Writing?) && !failed
      modifies this, requests
      ensures Enabled(old(Model()), a) && Model() == Apply(input, old(Model()), a) && steps == old(steps)
    {
      match requests[i]
      case Reading(off) =>
        var ok: bool := *;
        var data := if ok then Bytes(input, off, BSZ) else [];
        requests[i] := ReadDone(off, data, if ok then |data| else -1);
        a := KernelRead(i, ok);
      case Writing(off, data) =>
        var res :| -1 <= res <= |data|;
        if res > 0 { output := WriteAt(output, off, data[..res]); }
        requests[i] := WriteDone(off, data, res);
        a := KernelWrite(i, res);
    }

    /** Some request in flight is performed by the kernel, or reaped. */
    method Turn()
      requires Inv(input, Model()) && requests.Length == QUEUE_DEPTH && pendingOperations > 0 && !failed
      modifies this, requests
      ensures Inv(input, Model()) && Remaining(input, Model()) < old(Remaining(input, Model()))
      ensures |steps| == |old(steps)| + 1 && steps[..|old(steps)|] == old(steps)
      ensures Enabled(old(Model()), steps[|old(steps)|]) && Model() == Apply(input, old(Model()), steps[|old(steps)|])
    {
      CountBounds(requests[..]);
      var i :| 0 <= i < QUEUE_DEPTH && InFlight(requests[i]);
      ghost var before, a := Model(), Reap(i);
      if requests[i].Reading? || requests[i].Writing? {
        a := Perform(i);
      } else {
        HandleCompletion(i);
      }
      StepKeeps(input, before, a);
      StepConsumes(input, before, a);
      steps := steps + [a];
    }

    /**
     `main`, lines 79-122: it always ends, having done a run of the transition system, and
     unless a request failed or was short the output is the translated input.
     */
    method Run()
      requires Model() == Start(0) && requests.Length == QUEUE_DEPTH && steps == []
      modifies this, requests
      ensures Runs(input, Start(QUEUE_DEPTH), steps, Model())
      ensures AllAnswered(input, Start(QUEUE_DEPTH), steps) ==> !failed
      ensures !failed ==> output == TranslateAll(input) && pendingOperations == 0
    {
      var i := 0;
      while i < QUEUE_DEPTH
        invariant 0 <= i <= QUEUE_DEPTH == requests.Length && Model() == Start(i) && steps == []
      {
        SubmitRead(i);
        i := i + 1;
      }
      StartInv(input);
      while pendingOperations > 0 && !failed
        invariant Inv(input, Model()) && requests.Length == QUEUE_DEPTH
        invariant Runs(input, Start(QUEUE_DEPTH), steps, Model())
        decreases Remaining(input, Model())
      {
        ReadsBounded(input, Model());
        ghost var done, before := steps, Model();
        Turn();
        RunsOneMore(input, Start(QUEUE_DEPTH), done, before, steps);
      }
      CountBounds(requests[..]);
      if AllAnswered(input, Start(QUEUE_DEPTH), steps) {
        FailsOnlyByRequest(input, steps, Model());
      }
      if !failed {
        FinishedOutput(input, Model());
      }
    }
  }
}
