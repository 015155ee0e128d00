/**
 The message queue of 11/10_usage_cond.cpp: any number of producers in `enqueue_msg`,
 one consumer in `process_msg`, interleaved at every access to the mutex, the
 condition variable and the queue.  A wait may end without a signal.
 */
module CondQueue {
  datatype Msg = Msg(id: int, data: string)

  datatype Owner = Free | Consumer | Producer(i: nat)

  datatype ConsumerPc =
    | Lock             // pthread_mutex_lock
    | Test             // while (messages.empty())
    | Waiting          // in pthread_cond_wait, the mutex released
    | Relock           // leaving pthread_cond_wait
    | Take             // front and pop
    | Unlock(m: Msg)   // pthread_mutex_unlock
    | Handle(m: Msg)   // the message is processed
    | Stopped

  datatype ProducerPc = PLock | PPush | PUnlock | PSignal

  /** A producer that has finished `k` calls of `enqueue_msg`. */
  datatype Prod = Prod(pc: ProducerPc, k: nat)

  /** `history` and `origin` record every push and who made it. */
  datatype State = State(owner: Owner, queue: seq<Msg>, consumer: ConsumerPc, producers: seq<Prod>,
                         history: seq<Msg>, origin: seq<nat>, processed: seq<Msg>)

  datatype Action = Consume | Produce(i: nat) | Spurious

  /** What each producer will enqueue. */
  type Plan = seq<seq<Msg>>

  function Init(plan: Plan): State {
    State(Free, [], Lock, seq(|plan|, _ => Prod(PLock, 0)), [], [], [])
  }

  predicate Enabled(plan: Plan, s: State, a: Action) {
    match a
    case Consume =>
      (match s.consumer
       case Lock | Relock => s.owner.Free?
       case Waiting | Stopped => false
       case _ => true)
    case Produce(i) =>
      && i < |s.producers| == |plan| && s.producers[i].k < |plan[i]|
      && (s.producers[i].pc.PLock? ==> s.owner.Free?)
    case Spurious => s.consumer.Waiting?
  }

  function ConsumerStep(s: State): State {
    match s.consumer
    case Lock | Relock => s.(owner := Consumer, consumer := Test)
    case Test => if s.queue == [] then s.(owner := Free, consumer := Waiting) else s.(consumer := Take)
    case Take => if s.queue == [] then s else s.(queue := s.queue[1..], consumer := Unlock(s.queue[0]))
    case Unlock(m) => s.(owner := Free, consumer := Handle(m))
    case Handle(m) => s.(processed := s.processed + [m], consumer := if m.id == -1 then Stopped else Lock)
    case _ => s
  }

  function Moved(s: State, i: nat, p: Prod): State
    requires i < |s.producers|
  {
    s.(producers := s.producers[i := p])
  }

  function ProducerStep(plan: Plan, s: State, i: nat): State
    requires Enabled(plan, s, Produce(i))
  {
    var p := s.producers[i];
    match p.pc
    case PLock => Moved(s, i, p.(pc := PPush)).(owner := Producer(i))
    case PPush =>
      var m := plan[i][p.k];
      Moved(s, i, p.(pc := PUnlock)).(queue := s.queue + [m], history := s.history + [m], origin := s.origin + [i])
    case PUnlock => Moved(s, i, p.(pc := PSignal)).(owner := Free)
    case PSignal =>
      Moved(s, i, Prod(PLock, p.k + 1)).(consumer := if s.consumer.Waiting? then Relock else s.consumer)
  }

  function Apply(plan: Plan, s: State, a: Action): State
    requires Enabled(plan, s, a)
  {
    match a
    case Consume => ConsumerStep(s)
    case Produce(i) => ProducerStep(plan, s, i)
    case Spurious => s.(consumer := Relock)
  }

  // ----- the invariant -----

  function InHand(s: State): seq<Msg> {
    match s.consumer
    case Unlock(m) => [m]
    case Handle(m) => [m]
    case _ => []
  }

  predicate ConsumerHolds(pc: ConsumerPc) {
    pc.Test? || pc.Take? || pc.Unlock?
  }

  predicate ProducerHolds(pc: ProducerPc) {
    pc.PPush? || pc.PUnlock?
  }

  ghost predicate ProducerOK(plan: Plan, s: State, i: nat)
    requires i < |s.producers| == |plan|
  {
    var p := s.producers[i];
    && p.k <= |plan[i]| && (!p.pc.PLock? ==> p.k < |plan[i]|)
    && (ProducerHolds(p.pc) <==> s.owner == Producer(i))
  }

  /** The mutex belongs to whoever is between lock and unlock. */
  ghost predicate Owners(plan: Plan, s: State) {
    && |s.producers| == |plan|
    && (s.owner.Producer? ==> s.owner.i < |plan|)
    && (ConsumerHolds(s.consumer) <==> s.owner == Consumer)
    && forall i :: 0 <= i < |plan| ==> ProducerOK(plan, s, i)
  }

  /** Nothing is lost, invented or reordered. */
  ghost predicate Conserved(s: State) {
    s.history == s.processed + InHand(s) + s.queue && (s.consumer.Take? ==> s.queue != [])
  }

  /** Between the push and the signal. */
  predicate Announcing(s: State, i: nat) {
    i < |s.producers| && (s.producers[i].pc.PUnlock? || s.producers[i].pc.PSignal?)
  }

  ghost predicate Awake(s: State) {
    s.consumer.Waiting? && s.queue != [] ==> exists i :: Announcing(s, i)
  }

  ghost predicate NoStop(ms: seq<Msg>) {
    forall i :: 0 <= i < |ms| ==> ms[i].id != -1
  }

  ghost predicate StopOK(s: State) {
    if s.consumer.Stopped? then
      s.processed != [] && s.processed[|s.processed| - 1].id == -1 && NoStop(s.processed[..|s.processed| - 1])
    else NoStop(s.processed)
  }

  /** What producer `i` pushed, in order. */
  function SentBy(history: seq<Msg>, origin: seq<nat>, i: nat): seq<Msg>
    requires |history| == |origin|
  {
    if history == [] then []
    else
      var n := |history| - 1;
      SentBy(history[..n], origin[..n], i) + if origin[n] == i then [history[n]] else []
  }

  function Pushed(p: Prod): nat {
    p.k + if p.pc.PUnlock? || p.pc.PSignal? then 1 else 0
  }

  ghost predicate SentOK(plan: Plan, s: State, i: nat)
    requires |s.history| == |s.origin| && i < |s.producers| == |plan|
  {
    Pushed(s.producers[i]) <= |plan[i]| && SentBy(s.history, s.origin, i) == plan[i][..Pushed(s.producers[i])]
  }

  ghost predicate Sent(plan: Plan, s: State) {
    && |s.history| == |s.origin| && |s.producers| == |plan|
    && forall i :: 0 <= i < |plan| ==> SentOK(plan, s, i)
  }

  ghost predicate Inv(plan: Plan, s: State) {
    Owners(plan, s) && Conserved(s) && Awake(s) && StopOK(s) && Sent(plan, s)
  }
}
