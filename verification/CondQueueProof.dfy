/** Every run of the message queue: order and content are kept, no wake-up is lost, and runs are finite. */
module CondQueueProof {
  import opened CondQueue

  lemma ConsumerKeeps(plan: Plan, s: State)
    requires Inv(plan, s) && Enabled(plan, s, Consume)
    ensures Inv(plan, ConsumerStep(s))
  {
    var s' := ConsumerStep(s);
    assert Owners(plan, s') by {
      forall i | 0 <= i < |plan| ensures ProducerOK(plan, s', i) {
        assert ProducerOK(plan, s, i);
      }
    }
    assert Sent(plan, s') by {
      forall i | 0 <= i < |plan| ensures SentOK(plan, s', i) {
        assert SentOK(plan, s, i);
      }
    }
  }

  lemma ProducerOwners(plan: Plan, s: State, i: nat)
    requires Owners(plan, s) && Enabled(plan, s, Produce(i))
    ensures Owners(plan, ProducerStep(plan, s, i))
  {
    var s' := ProducerStep(plan, s, i);
    assert ProducerOK(plan, s, i);
    forall j | 0 <= j < |plan| ensures ProducerOK(plan, s', j) {
      assert ProducerOK(plan, s, j);
    }
  }

  lemma SentAppend(history: seq<Msg>, origin: seq<nat>, m: Msg, i: nat, j: nat)
    requires |history| == |origin|
    ensures SentBy(history + [m], origin + [i], j) == SentBy(history, origin, j) + if i == j then [m] else []
  {
    assert (history + [m])[..|history|] == history && (origin + [i])[..|origin|] == origin;
  }

  lemma ProducerSent(plan: Plan, s: State, i: nat)
    requires Owners(plan, s) && Sent(plan, s) && Enabled(plan, s, Produce(i))
    ensures Sent(plan, ProducerStep(plan, s, i))
  {
    var s' := ProducerStep(plan, s, i);
    assert SentOK(plan, s, i);
    forall j | 0 <= j < |plan| ensures SentOK(plan, s', j) {
      assert SentOK(plan, s, j);
      if s.producers[i].pc.PPush? {
        SentAppend(s.history, s.origin, plan[i][s.producers[i].k], i, j);
      }
    }
  }

  /** The wait and the signal: a push is announced until its signal, and the signal ends the wait. */
  lemma ProducerAwake(plan: Plan, s: State, i: nat)
    requires Owners(plan, s) && Awake(s) && Enabled(plan, s, Produce(i))
    ensures Awake(ProducerStep(plan, s, i))
  {
    var s' := ProducerStep(plan, s, i);
    if s.producers[i].pc.PPush? || s.producers[i].pc.PUnlock? {
      assert Announcing(s', i);
    } else if s'.consumer.Waiting? && s'.queue != [] {
      var j :| Announcing(s, j);
      assert Announcing(s', j);
    }
  }

  lemma ProducerKeeps(plan: Plan, s: State, i: nat)
    requires Inv(plan, s) && Enabled(plan, s, Produce(i))
    ensures Inv(plan, ProducerStep(plan, s, i))
  {
    ProducerOwners(plan, s, i);
    ProducerSent(plan, s, i);
    ProducerAwake(plan, s, i);
    ProducerConserves(plan, s, i);
  }

  lemma ProducerConserves(plan: Plan, s: State, i: nat)
    requires Conserved(s) && StopOK(s) && Enabled(plan, s, Produce(i))
    ensures Conserved(ProducerStep(plan, s, i)) && StopOK(ProducerStep(plan, s, i))
  {
    if s.producers[i].pc.PPush? {
      Pushes(s.processed + InHand(s), s.queue, plan[i][s.producers[i].k]);
    }
  }

  lemma Pushes(taken: seq<Msg>, queue: seq<Msg>, m: Msg)
    ensures taken + queue + [m] == taken + (queue + [m])
  {
  }

  lemma StepKeeps(plan: Plan, s: State, a: Action)
    requires Inv(plan, s) && Enabled(plan, s, a)
    ensures Inv(plan, Apply(plan, s, a))
  {
    match a
    case Consume => ConsumerKeeps(plan, s);
    case Produce(i) => ProducerKeeps(plan, s, i);
    case Spurious =>
      var s' := Apply(plan, s, a);
      forall i | 0 <= i < |plan| ensures ProducerOK(plan, s', i) && SentOK(plan, s', i) {
        assert ProducerOK(plan, s, i) && SentOK(plan, s, i);
      }
  }

  // ----- runs -----

  ghost predicate Runs(plan: Plan, s: State, run: seq<Action>, s': State)
    decreases |run|
  {
    if run == [] then s' == s
    else Enabled(plan, s, run[0]) && Runs(plan, Apply(plan, s, run[0]), run[1..], s')
  }

  ghost predicate Reachable(plan: Plan, s: State) {
    exists run :: Runs(plan, Init(plan), run, s)
  }

  lemma InitInv(plan: Plan)
    ensures Inv(plan, Init(plan))
  {
    var s := Init(plan);
    forall i | 0 <= i < |plan| ensures ProducerOK(plan, s, i) && SentOK(plan, s, i) {
    }
  }

  lemma {:induction false} RunKeeps(plan: Plan, s: State, run: seq<Action>, s': State)
    requires Inv(plan, s) && Runs(plan, s, run, s')
    ensures Inv(plan, s')
    decreases |run|
  {
    if run != [] {
      StepKeeps(plan, s, run[0]);
      RunKeeps(plan, Apply(plan, s, run[0]), run[1..], s');
    }
  }

  lemma ReachableInv(plan: Plan, s: State)
    requires Reachable(plan, s)
    ensures Inv(plan, s)
  {
    var run :| Runs(plan, Init(plan), run, s);
    InitInv(plan);
    RunKeeps(plan, Init(plan), run, s);
  }

  // ----- what every run guarantees -----

  /** Processed messages, the one in hand and the queue are the enqueue history, and each producer's messages are in it in order. */
  lemma HistoryKept(plan: Plan, s: State, i: nat)
    requires Reachable(plan, s) && i < |plan|
    ensures s.history == s.processed + InHand(s) + s.queue
    ensures |s.history| == |s.origin| && SentBy(s.history, s.origin, i) <= plan[i]
  {
    ReachableInv(plan, s);
    assert SentOK(plan, s, i);
  }

  /** The consumer stops at the first message with id -1 and processes nothing after it. */
  lemma StopsAtFirst(plan: Plan, s: State)
    requires Reachable(plan, s)
    ensures s.consumer.Stopped? <==> exists i :: 0 <= i < |s.processed| && s.processed[i].id == -1
    ensures forall i :: 0 <= i < |s.processed| - 1 ==> s.processed[i].id != -1
  {
    ReachableInv(plan, s);
    if s.consumer.Stopped? {
      var n := |s.processed| - 1;
      assert s.processed[n].id == -1;
      forall i | 0 <= i < n ensures s.processed[i].id != -1 {
        assert s.processed[i] == s.processed[..n][i];
      }
    }
  }

  /** A consumer that waits on a nonempty queue is about to be signalled. */
  lemma NoLostWakeup(plan: Plan, s: State)
    requires Reachable(plan, s) && s.consumer.Waiting? && s.queue != []
    ensures exists i :: 0 <= i < |s.producers| && (s.producers[i].pc.PUnlock? || s.producers[i].pc.PSignal?)
  {
    ReachableInv(plan, s);
    var i :| Announcing(s, i);
  }

  /** The queue is touched by one thread at a time. */
  lemma Exclusive(plan: Plan, s: State, i: nat, j: nat)
    requires Reachable(plan, s) && i < |s.producers| && j < |s.producers|
    ensures ProducerHolds(s.producers[i].pc) ==> !ConsumerHolds(s.consumer)
    ensures ProducerHolds(s.producers[i].pc) && ProducerHolds(s.producers[j].pc) ==> i == j
  {
    ReachableInv(plan, s);
    assert ProducerOK(plan, s, i) && ProducerOK(plan, s, j);
  }

  ghost predicate Stuck(plan: Plan, s: State) {
    !Enabled(plan, s, Consume) && forall i: nat :: !Enabled(plan, s, Produce(i))
  }

  /** With no step left but spurious wake-ups, all was enqueued, and all was processed unless the consumer stopped. */
  lemma StuckIsFinished(plan: Plan, s: State, i: nat)
    requires Reachable(plan, s) && Stuck(plan, s) && i < |plan|
    ensures |s.history| == |s.origin| && SentBy(s.history, s.origin, i) == plan[i]
    ensures s.consumer.Stopped? || (s.queue == [] && s.processed == s.history)
  {
    ReachableInv(plan, s);
    OwnerRuns(plan, s);
    assert forall j :: 0 <= j < |plan| ==> s.producers[j].k == |plan[j]| && s.producers[j].pc.PLock? by {
      forall j | 0 <= j < |plan| ensures s.producers[j].k == |plan[j]| && s.producers[j].pc.PLock? {
        assert ProducerOK(plan, s, j) && !Enabled(plan, s, Produce(j));
      }
    }
    assert SentOK(plan, s, i);
    assert plan[i][..|plan[i]|] == plan[i];
  }

  /** Whoever holds the mutex can step. */
  lemma OwnerRuns(plan: Plan, s: State)
    requires Owners(plan, s)
    ensures s.owner.Consumer? ==> Enabled(plan, s, Consume)
    ensures s.owner.Producer? ==> Enabled(plan, s, Produce(s.owner.i))
  {
    if s.owner.Producer? {
      assert ProducerOK(plan, s, s.owner.i);
    }
  }

  // ----- runs are finite -----

  function ConsumerRank(pc: ConsumerPc): nat {
    match pc
    case Unlock(_) => 5
    case Handle(_) => 4
    case Lock | Relock => 3
    case Test => 2
    case Take => 1
    case Waiting | Stopped => 0
  }

  function ProducerRank(p: Prod, total: nat): int {
    13 * (total - p.k) - match p.pc
    case PLock => 0
    case PPush => 1
    case PUnlock => 8
    case PSignal => 9
  }

  function SumRank(plan: Plan, producers: seq<Prod>): int
    requires |plan| == |producers|
  {
    if plan == [] then 0
    else
      var n := |plan| - 1;
      SumRank(plan[..n], producers[..n]) + ProducerRank(producers[n], |plan[n]|)
  }

  ghost function Rank(plan: Plan, s: State): int
    requires |plan| == |s.producers|
  {
    SumRank(plan, s.producers) + ConsumerRank(s.consumer) + 6 * |s.queue|
  }

  lemma {:induction false} SumUpdate(plan: Plan, producers: seq<Prod>, i: nat, p: Prod)
    requires |plan| == |producers| && i < |plan|
    ensures SumRank(plan, producers[i := p])
            == SumRank(plan, producers) - ProducerRank(producers[i], |plan[i]|) + ProducerRank(p, |plan[i]|)
  {
    var n := |plan| - 1;
    if i < n {
      SumUpdate(plan[..n], producers[..n], i, p);
      assert producers[i := p][..n] == producers[..n][i := p];
    } else {
      assert producers[i := p][..n] == producers[..n];
    }
  }

  lemma {:induction false} SumPositive(plan: Plan, producers: seq<Prod>)
    requires |plan| == |producers|
    requires forall i :: 0 <= i < |plan| ==> producers[i].k <= |plan[i]| && (!producers[i].pc.PLock? ==> producers[i].k < |plan[i]|)
    ensures SumRank(plan, producers) >= 0
  {
    if plan != [] {
      var n := |plan| - 1;
      SumPositive(plan[..n], producers[..n]);
    }
  }

  lemma StepConsumes(plan: Plan, s: State, a: Action)
    requires Inv(plan, s) && Enabled(plan, s, a)
    ensures |plan| == |s.producers| == |Apply(plan, s, a).producers|
    ensures Rank(plan, Apply(plan, s, a)) <= Rank(plan, s) + if a.Spurious? then 3 else -1
  {
    if a.Produce? {
      var s' := Apply(plan, s, a);
      assert ProducerOK(plan, s, a.i);
      SumUpdate(plan, s.producers, a.i, s'.producers[a.i]);
    }
  }

  function SpuriousIn(run: seq<Action>): nat {
    if run == [] then 0 else (if run[0].Spurious? then 1 else 0) + SpuriousIn(run[1..])
  }

  lemma {:induction false} RunConsumes(plan: Plan, s: State, run: seq<Action>, s': State)
    requires Inv(plan, s) && Runs(plan, s, run, s')
    ensures Inv(plan, s') && |run| <= Rank(plan, s) - Rank(plan, s') + 4 * SpuriousIn(run)
    decreases |run|
  {
    if run != [] {
      StepKeeps(plan, s, run[0]);
      StepConsumes(plan, s, run[0]);
      RunConsumes(plan, Apply(plan, s, run[0]), run[1..], s');
    }
  }

  function Total(plan: Plan): nat {
    if plan == [] then 0 else Total(plan[..|plan| - 1]) + |plan[|plan| - 1]|
  }

  lemma {:induction false} InitSum(plan: Plan, producers: seq<Prod>)
    requires |producers| == |plan| && forall i :: 0 <= i < |plan| ==> producers[i] == Prod(PLock, 0)
    ensures SumRank(plan, producers) == 13 * Total(plan)
  {
    if plan != [] {
      InitSum(plan[..|plan| - 1], producers[..|plan| - 1]);
    }
  }

  /** Thirteen steps for each message, a start and four steps for each spurious wake-up are all a run can take. */
  lemma RunsAreFinite(plan: Plan, run: seq<Action>, s: State)
    requires Runs(plan, Init(plan), run, s)
    ensures |run| <= 13 * Total(plan) + 3 + 4 * SpuriousIn(run)
  {
    InitInv(plan);
    RunConsumes(plan, Init(plan), run, s);
    InitSum(plan, Init(plan).producers);
    forall i | 0 <= i < |plan| ensures s.producers[i].k <= |plan[i]| && (!s.producers[i].pc.PLock? ==> s.producers[i].k < |plan[i]|) {
      assert ProducerOK(plan, s, i);
    }
    SumPositive(plan, s.producers);
  }
}
