/** Every schedule of the signal handshake: strict alternation, no lost signal, an exact counter. */
module HandshakeProof {
  import opened Wrappers
  import opened Files
  import opened Decimal
  import opened SignalHandshake

  /** The counter file is read through a ten-byte buffer. */
  ghost predicate Scope(g: Config) {
    g.client.CounterFile? ==> 2 * g.rounds <= Pow10(10)
  }

  /** The worker, if any, can still read the whole counter. */
  ghost predicate Readable(g: Config, s: State) {
    g.client.CounterFile? && (s.lead.pc.Work? || s.follow.pc.Work?) ==> |s.log| < Pow10(10)
  }

  lemma ScopeReadable(g: Config, s: State, turn: Turn)
    requires Scope(g) && Inv(g, s, turn)
    ensures Readable(g, s)
  {
  }

  /** One access of the work, with `k` increments done before it. */
  lemma WorkKeeps(g: Config, d: Data, p: Proc, k: nat)
    requires DataOK(g, d, k) && MidWork(g, d, p, k) && p.pc.Work? && p.pc.k < WorkSteps(g.client)
    requires g.client.CounterFile? ==> k < Pow10(10)
    ensures var (d', num) := WorkStep(g, d, p.pc.k, p.num, k);
            && num.Some?
            && (if p.pc.k + 1 < WorkSteps(g.client)
                then DataOK(g, d', k) && MidWork(g, d', p.(num := num.value, pc := Work(p.pc.k + 1)), k)
                else DataOK(g, d', k + 1))
  {
    if g.client.CounterFile? {
      if p.pc.k == 1 {
        FirstTen(k);
        PowTen();
      } else if p.pc.k == 3 {
        NextText(k);
      }
    }
  }

  lemma LogGrows(log: seq<bool>, k: nat)
    requires LogOK(log, k)
    ensures LogOK(log + [k % 2 == 0], k + 1)
  {
  }

  /** A step of the process whose turn it is to work. */
  lemma WorkerStep(g: Config, s: State, leader: bool) returns (turn: Turn)
    requires Inv(g, s, if leader then LeadWorks else FollowWorks) && Readable(g, s)
    ensures var p := if leader then s.lead else s.follow; Enabled(p) && Inv(g, Step(g, s, leader), turn)
  {
    if leader {
      turn := LeaderWorks(g, s);
    } else {
      turn := FollowerWorks(g, s);
    }
  }

  lemma LeaderWorks(g: Config, s: State) returns (turn: Turn)
    requires Inv(g, s, LeadWorks) && Readable(g, s)
    ensures Enabled(s.lead) && Inv(g, Step(g, s, true), turn)
  {
    if s.lead.pc.Work? {
      turn := LeadWorks;
      WorkKeeps(g, s.data, s.lead, Done(s, LeadWorks));
      LogGrows(s.log, Done(s, LeadWorks));
    } else {
      turn := ToFollow;
    }
  }

  lemma FollowerWorks(g: Config, s: State) returns (turn: Turn)
    requires Inv(g, s, FollowWorks) && Readable(g, s)
    ensures Enabled(s.follow) && Inv(g, Step(g, s, false), turn)
  {
    turn := FollowWorks;
    if s.follow.pc.Work? {
      WorkKeeps(g, s.data, s.follow, Done(s, FollowWorks));
      if Increments(g, s.follow) {
        LogGrows(s.log, Done(s, FollowWorks));
      }
    } else {
      FollowerTells(g, s);
      turn := ToLead;
    }
  }

  lemma FollowerTells(g: Config, s: State)
    requires Inv(g, s, FollowWorks) && s.follow.pc.Tell?
    ensures Inv(g, Step(g, s, false), ToLead)
  {
  }

  /** A step of a process that waits, told or not. */
  lemma WaiterStep(g: Config, s: State, turn: Turn, leader: bool) returns (turn': Turn)
    requires Inv(g, s, turn) && Enabled(if leader then s.lead else s.follow)
    requires !(leader && turn.LeadWorks?) && !(!leader && turn.FollowWorks?)
    ensures Inv(g, Step(g, s, leader), turn')
  {
    var p := if leader then s.lead else s.follow;
    turn' := turn;
    if p.pc.Clear? {
      turn' := if !leader then FollowWorks else if s.lead.round + 1 < g.rounds then LeadWorks else Over;
    }
  }

  lemma StepKeeps(g: Config, s: State, turn: Turn, leader: bool) returns (turn': Turn)
    requires Inv(g, s, turn) && Readable(g, s) && Enabled(if leader then s.lead else s.follow)
    ensures Inv(g, Step(g, s, leader), turn')
  {
    if (leader && turn.LeadWorks?) || (!leader && turn.FollowWorks?) {
      turn' := WorkerStep(g, s, leader);
    } else {
      turn' := WaiterStep(g, s, turn, leader);
    }
  }

  // ----- runs -----

  ghost predicate Runs(g: Config, s: State, sched: seq<bool>, s': State)
    decreases |sched|
  {
    if sched == [] then s' == s
    else Enabled(if sched[0] then s.lead else s.follow) && Runs(g, Step(g, s, sched[0]), sched[1..], s')
  }

  ghost predicate Reachable(g: Config, s: State) {
    exists sched :: Runs(g, Init(g), sched, s)
  }

  /** Steps a process can still take. */
  function Rank(g: Config, leader: bool, p: Proc): int {
    var w := WorkSteps(g.client);
    if p.pc.Exited? || p.pc.Failed? then 0
    else
      (g.rounds - p.round) * (w + 6) +
      match p.pc
      case Work(k) => (if leader then w + 5 else w + 1) - k
      case Tell => if leader then 5 else 1
      case Test => (if leader then 0 else w + 1) + (if p.sigflag then 2 else 4)
      case Suspended => (if leader then 0 else w + 1) + 3
      case Clear => (if leader then 0 else w + 1) + 1
      case _ => 0
  }

  ghost function Remaining(g: Config, s: State): int {
    Rank(g, true, s.lead) + Rank(g, false, s.follow)
  }

  lemma RankRounds(g: Config, r: nat)
    requires r < g.rounds
    ensures var w := WorkSteps(g.client); (g.rounds - r) * (w + 6) == (g.rounds - (r + 1)) * (w + 6) + w + 6
    ensures (g.rounds - (r + 1)) * (WorkSteps(g.client) + 6) >= 0
  {
  }

  lemma RankPositive(g: Config, s: State, turn: Turn)
    requires Inv(g, s, turn)
    ensures Rank(g, true, s.lead) >= 0 && Rank(g, false, s.follow) >= 0
  {
    if s.lead.round < g.rounds { RankRounds(g, s.lead.round); }
    if s.follow.round < g.rounds { RankRounds(g, s.follow.round); }
  }

  lemma StepConsumes(g: Config, s: State, turn: Turn, leader: bool)
    requires Inv(g, s, turn) && Readable(g, s) && Enabled(if leader then s.lead else s.follow)
    ensures Remaining(g, Step(g, s, leader)) < Remaining(g, s)
  {
    var p := if leader then s.lead else s.follow;
    RankRounds(g, p.round);
    if p.pc.Work? {
      WorkKeeps(g, s.data, p, Done(s, turn));
    }
    OwnRank(g, leader, p, if leader then s.follow else s.lead, s.data);
  }

  /** A step brings its own process closer to the end and leaves the other's rank alone. */
  lemma OwnRank(g: Config, leader: bool, p: Proc, q: Proc, d: Data)
    requires Enabled(p) && p.round < g.rounds
    requires p.pc.Suspended? ==> !p.sigflag
    requires p.pc.Work? ==> p.pc.k < WorkSteps(g.client)
    ensures var (p', q', d') := ProcStep(g, leader, p, q, d);
            Rank(g, leader, p') < Rank(g, leader, p) && Rank(g, !leader, q') == Rank(g, !leader, q)
  {
    RankRounds(g, p.round);
  }

  lemma {:induction false} RunsKeep(g: Config, s: State, turn: Turn, sched: seq<bool>, s': State) returns (turn': Turn)
    requires Scope(g) && Inv(g, s, turn) && Runs(g, s, sched, s')
    ensures Inv(g, s', turn') && |sched| <= Remaining(g, s) - Remaining(g, s')
    decreases |sched|
  {
    turn' := turn;
    if sched != [] {
      ScopeReadable(g, s, turn);
      var turn1 := StepKeeps(g, s, turn, sched[0]);
      StepConsumes(g, s, turn, sched[0]);
      turn' := RunsKeep(g, Step(g, s, sched[0]), turn1, sched[1..], s');
    }
  }

  lemma InitInv(g: Config) returns (turn: Turn)
    ensures Inv(g, Init(g), turn)
  {
    turn := if g.rounds == 0 then Over else LeadWorks;
  }

  lemma ReachableInv(g: Config, s: State) returns (turn: Turn)
    requires Scope(g) && Reachable(g, s)
    ensures Inv(g, s, turn)
  {
    var sched :| Runs(g, Init(g), sched, s);
    turn := InitInv(g);
    turn := RunsKeep(g, Init(g), turn, sched, s);
  }

  // ----- what every schedule guarantees -----

  /** Increments alternate, leader first, whatever the schedule. */
  lemma Alternates(g: Config, s: State, i: nat)
    requires Scope(g) && Reachable(g, s) && i < |s.log|
    ensures s.log[i] == (i % 2 == 0) && |s.log| <= 2 * g.rounds
  {
    var turn := ReachableInv(g, s);
  }

  /** The counter is exact: the file always holds the decimal text of the number of increments, the cell the number itself. */
  lemma CounterExact(g: Config, s: State)
    requires Scope(g) && Reachable(g, s)
    ensures g.client.CounterFile? ==> s.data.content == Digits(|s.log|)
    ensures g.client.SharedCell? ==> s.data.cell == |s.log|
  {
    var turn := ReachableInv(g, s);
  }

  /** No signal is sent while the last one to that process is pending or unconsumed, nor to a process that has exited. */
  lemma NoSignalLost(g: Config, s: State)
    requires Scope(g) && Reachable(g, s)
    ensures s.lead.pc.Tell? ==> Quiet(s.follow) && Waiting(s.follow)
    ensures s.follow.pc.Tell? ==> Quiet(s.lead) && Waiting(s.lead)
  {
    var turn := ReachableInv(g, s);
  }

  /** The two processes are never at work together, and neither ever takes an error exit. */
  lemma NeverTogether(g: Config, s: State)
    requires Scope(g) && Reachable(g, s)
    ensures !(s.lead.pc.Work? && s.follow.pc.Work?)
    ensures !s.lead.pc.Failed? && !s.follow.pc.Failed?
  {
    var turn := ReachableInv(g, s);
  }

  /** Nobody blocks for ever: until both have exited some process can step. */
  lemma NeverStuck(g: Config, s: State)
    requires Scope(g) && Reachable(g, s) && !(s.lead.pc.Exited? && s.follow.pc.Exited?)
    ensures Enabled(s.lead) || Enabled(s.follow)
  {
    var turn := ReachableInv(g, s);
  }

  /** And every schedule ends: it has a bounded length, and where it cannot go on both did all their rounds. */
  lemma AllRoundsDone(g: Config, sched: seq<bool>, s: State)
    requires Scope(g) && Runs(g, Init(g), sched, s)
    ensures |sched| <= 2 * g.rounds * (WorkSteps(g.client) + 6) + 2 * (WorkSteps(g.client) + 6)
    ensures !Enabled(s.lead) && !Enabled(s.follow) ==>
              s.lead.round == s.follow.round == g.rounds && |s.log| == 2 * g.rounds && Quiet(s.lead) && Quiet(s.follow)
  {
    var turn := InitInv(g);
    turn := RunsKeep(g, Init(g), turn, sched, s);
    RankPositive(g, s, turn);
    InitRemaining(g);
  }

  lemma InitRemaining(g: Config)
    ensures Remaining(g, Init(g)) <= 2 * g.rounds * (WorkSteps(g.client) + 6) + 2 * (WorkSteps(g.client) + 6)
  {
    var w := WorkSteps(g.client) + 6;
    assert 2 * g.rounds * w == g.rounds * w + g.rounds * w;
  }

  // ----- the two clients -----

  /** Turns of `for (i = from; i < bound; i += 2)`. */
  function LoopTurns(from: int, bound: int): nat
    decreases bound - from
  {
    if from >= bound then 0 else 1 + LoopTurns(from + 2, bound)
  }

  /** The parent and child loops of 15/12 take the same number of turns for every NLOOPS. */
  lemma {:induction false} SameTurns(i: int, nloops: nat)
    requires i % 2 == 0 && i >= 0
    ensures LoopTurns(i, nloops) == LoopTurns(i + 1, nloops + 1)
    ensures LoopTurns(i, nloops) == if i < nloops then (nloops - i + 1) / 2 else 0
    decreases nloops - i
  {
    if i < nloops {
      SameTurns(i + 2, nloops);
    }
  }

  /** What `update` is about to return is the caller's loop index, so neither mismatch exit is taken. */
  lemma UpdateReturnsIndex(g: Config, s: State)
    requires g.client.SharedCell? && Reachable(g, s)
    ensures s.lead.pc == Work(1) ==> s.lead.num == s.data.cell == 2 * s.lead.round
    ensures s.follow.pc == Work(1) ==> s.follow.num == s.data.cell == 2 * s.follow.round + 1
  {
    var turn := ReachableInv(g, s);
  }

  /** `inc` takes the text of k to the text of k + 1 exactly as long as k fits the ten-byte buffer. */
  lemma IncExactIff(k: nat)
    ensures Inc(Digits(k)) == Some(Digits(k + 1)) <==> k < Pow10(10)
  {
    if k < Pow10(10) {
      IncWithin(k);
    } else {
      IncOverruns(k);
    }
  }

  lemma IncWithin(k: nat)
    requires k < Pow10(10)
    ensures Inc(Digits(k)) == Some(Digits(k + 1))
  {
    FirstTen(k);
    NextText(k);
    SmallNext(k);
  }

  lemma SmallNext(k: nat)
    requires k < Pow10(10)
    ensures (k + 1) % SIZE_T == k + 1
  {
    PowTen();
  }

  /** With ten digits or more only the first ten are read. */
  lemma ReadsTen(text: seq<byte>)
    requires |text| >= 10 && AllDigits(text)
    ensures ValueOf(text[..10]) < Pow10(10) && FromChars(Bytes(text, 0, 10)) == Some(ValueOf(text[..10]))
  {
    var head := text[..10];
    RunStops(head, []);
    assert head + [] == head == head[..10];
    ValueBound(head);
    PowTen();
  }

  /** With eleven digits or more the front is replaced and the rest stays behind it. */
  lemma IncReads(k: nat)
    requires k >= Pow10(10)
    ensures |Digits(k)| > 10 && ValueOf(Digits(k)[..10]) < Pow10(10)
    ensures Inc(Digits(k)) == Some(WriteAt(Digits(k), 0, Digits(ValueOf(Digits(k)[..10]) + 1)))
  {
    LengthIff(k, 10);
    DigitsRoundTrip(k);
    IncText(Digits(k), ValueOf(Digits(k)[..10]));
  }

  lemma IncText(text: seq<byte>, v: nat)
    requires |text| >= 10 && AllDigits(text) && v == ValueOf(text[..10])
    ensures v < Pow10(10) && Inc(text) == Some(WriteAt(text, 0, Digits(v + 1)))
  {
    assert v < Pow10(10) && FromChars(Bytes(text, 0, 10)) == Some(v) by { ReadsTen(text); }
    SmallNext(v);
    IncFrom(text, v);
  }

  lemma IncFrom(text: seq<byte>, v: nat)
    requires FromChars(Bytes(text, 0, 10)) == Some(v) && (v + 1) % SIZE_T == v + 1
    ensures Inc(text) == Some(WriteAt(text, 0, Digits(v + 1)))
  {
  }

  lemma IncOverruns(k: nat)
    requires k >= Pow10(10)
    ensures Inc(Digits(k)) != Some(Digits(k + 1))
  {
    IncReads(k);
    OverrunValue(k, ValueOf(Digits(k)[..10]));
    DigitsRoundTrip(k + 1);
  }

  lemma OverrunValue(k: nat, v: nat)
    requires |Digits(k)| > 10 && v == ValueOf(Digits(k)[..10]) < Pow10(10)
    ensures ValueOf(WriteAt(Digits(k), 0, Digits(v + 1))) != k + 1
  {
    var rest := Digits(k)[10..];
    SplitValue(k);
    AtLeastTen(k, v, rest);
    LengthIff(v + 1, 11);
    NewValue(k, v);
    NumbersDiffer(v, |rest|, ValueOf(rest), |Digits(v + 1)| - 10, ValueOf(Digits(k)[|Digits(v + 1)|..]));
    ValueBound(Digits(k)[|Digits(v + 1)|..]);
  }

  /** The old number is `v` and `n` more digits `r`; the new front has `wider` digits more and the tail `t` behind it. */
  lemma NumbersDiffer(v: nat, n: nat, r: nat, wider: nat, t: nat)
    requires v >= 1 && n > 0 && wider <= 1
    requires wider == 0 ==> t == r
    ensures t < Pow10(n - wider) ==> Shifted(v + 1, n - wider) + t != Shifted(v, n) + r + 1
  {
    if wider == 0 {
      SameWidth(v, n, r);
    } else if t < Pow10(n - 1) {
      Wider(v, n - 1, t, r);
    }
  }

  lemma SplitValue(k: nat)
    requires |Digits(k)| > 10
    ensures var text := Digits(k); k == Shifted(ValueOf(text[..10]), |text[10..]|) + ValueOf(text[10..])
  {
    var text := Digits(k);
    assert text == text[..10] + text[10..];
    ValueAppend(text[..10], text[10..]);
    DigitsRoundTrip(k);
  }

  lemma SameWidth(v: nat, n: nat, r: nat)
    requires n > 0
    ensures Shifted(v + 1, n) + r > Shifted(v, n) + r + 1
  {
    PowPositive(n - 1);
    ShiftedNext(v, n);
  }

  lemma Wider(v: nat, n: nat, t: nat, r: nat)
    requires v >= 1 && t < Pow10(n)
    ensures Shifted(v + 1, n) + t < Shifted(v, n + 1) + r + 1
  {
    ShiftedNext(v, n);
    ShiftedPower(0, n);
    ShiftedMonotone(1, v, n);
  }

  /** The value of the text after the overwrite. */
  lemma NewValue(k: nat, v: nat)
    requires |Digits(v + 1)| <= |Digits(k)|
    ensures var tail := Digits(k)[|Digits(v + 1)|..];
            ValueOf(WriteAt(Digits(k), 0, Digits(v + 1))) == Shifted(v + 1, |tail|) + ValueOf(tail)
  {
    var text, front := Digits(k), Digits(v + 1);
    DigitsRoundTrip(v + 1);
    WriteAtIs(text, 0, front);
    assert WriteAt(text, 0, front) == front + text[|front|..];
    ValueAppend(front, text[|front|..]);
  }

  /** The first ten digits of a longer number are a ten-digit number. */
  lemma AtLeastTen(k: nat, v: nat, rest: seq<byte>)
    requires |Digits(k)| == 10 + |rest|
    requires k == Shifted(v, |rest|) + ValueOf(rest)
    ensures v >= 1 && |Digits(v + 1)| >= 10
  {
    LengthIff(k, 9 + |rest|);
    ShiftedPower(9, |rest|);
    ValueBound(rest);
    ShiftedNext(v, |rest|);
    if v + 1 < Pow10(9) {
      ShiftedMonotone(v + 1, Pow10(9), |rest|);
    }
    LengthIff(v + 1, 9);
    PowPositive(8);
  }
}
