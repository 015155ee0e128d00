/**
 Where the counter file of 10/24_signal_handshake.cpp stops being exact: the runs of the
 handshake use `inc`, and `inc` reads ten bytes.
 */
module HandshakeLimit {
  import opened Wrappers
  import opened Files
  import opened Decimal
  import opened SignalHandshake
  import opened HandshakeProof

  function Worker(s: State, leader: bool): Proc {
    if leader then s.lead else s.follow
  }

  /** A step, and then a run from where it leads. */
  lemma RunsFirst(g: Config, s: State, leader: bool, rest: seq<bool>, s': State)
    requires Enabled(Worker(s, leader)) && Runs(g, Step(g, s, leader), rest, s')
    ensures Runs(g, s, [leader] + rest, s')
  {
    assert ([leader] + rest)[1..] == rest;
  }

  lemma RunsTwo(g: Config, s: State, leader: bool, rest: seq<bool>, s': State)
    requires Enabled(Worker(s, leader)) && Enabled(Worker(Step(g, s, leader), leader))
    requires Runs(g, Step(g, Step(g, s, leader), leader), rest, s')
    ensures Runs(g, s, [leader] + ([leader] + rest), s')
  {
    RunsFirst(g, Step(g, s, leader), leader, rest, s');
    RunsFirst(g, s, leader, [leader] + rest, s');
  }

  // ----- four steps of work are one inc -----

  /** The first access: to the start of the file. */
  lemma Rewinds(g: Config, s: State, leader: bool)
    requires g.client.CounterFile? && Worker(s, leader).pc == Work(0)
    ensures var s' := Step(g, s, leader);
            Worker(s', leader).pc == Work(1) && s'.data == s.data.(off := 0) && s'.log == s.log
  {
  }

  /** The second: the read, and the conversion of what was read. */
  lemma ReadsCounter(g: Config, s: State, leader: bool)
    requires g.client.CounterFile? && Worker(s, leader).pc == Work(1) && s.data.off == 0
    ensures var s', v := Step(g, s, leader), FromChars(Bytes(s.data.content, 0, 10));
            && s'.data.content == s.data.content && s'.log == s.log
            && if v.None? then Worker(s', leader).pc == Failed
               else Worker(s', leader).pc == Work(2) && Worker(s', leader).num == (v.value + 1) % SIZE_T
  {
  }

  /** The third and the fourth: to the start again, and the write. */
  lemma WritesCounter(g: Config, s: State, leader: bool) returns (s': State)
    requires g.client.CounterFile? && Worker(s, leader).pc == Work(2) && Worker(s, leader).num >= 0
    ensures Runs(g, s, [leader, leader], s')
    ensures s'.data.content == WriteAt(s.data.content, 0, Digits(Worker(s, leader).num)) && s'.log == s.log + [leader]
  {
    var s1 := Step(g, s, leader);
    s' := Step(g, s1, leader);
    RunsFirst(g, s1, leader, [], s');
    RunsFirst(g, s, leader, [leader], s');
    assert [leader] + [leader] == [leader, leader];
    assert [leader] + [] == [leader];
  }

  /** Four accesses of one process in a row are `Inc`; where `Inc` has no value the second is the error exit. */
  lemma WorkIsInc(g: Config, s: State, leader: bool) returns (sched: seq<bool>, s': State)
    requires g.client.CounterFile? && Worker(s, leader).pc == Work(0)
    ensures Runs(g, s, sched, s')
    ensures match Inc(s.data.content)
            case Some(text) => |sched| == 4 && s'.data.content == text && s'.log == s.log + [leader]
            case None => |sched| == 2 && s'.data.content == s.data.content && Worker(s', leader).pc == Failed
  {
    Rewinds(g, s, leader);
    var s1 := Step(g, s, leader);
    ReadsCounter(g, s1, leader);
    var s2 := Step(g, s1, leader);
    sched, s' := [], s2;
    if Inc(s.data.content).Some? {
      s' := WritesCounter(g, s2, leader);
      sched := [leader, leader];
    }
    RunsTwo(g, s, leader, sched, s');
    sched := [leader] + ([leader] + sched);
  }

  // ----- the increment after the first 10^10 is reached -----

  /** Somebody is in the middle of an increment. */
  predicate MidWay(s: State) {
    (s.lead.pc.Work? && s.lead.pc.k > 0) || (s.follow.pc.Work? && s.follow.pc.k > 0)
  }

  predicate Ready(s: State) {
    s.lead.pc == Work(0) || s.follow.pc == Work(0)
  }

  /** The next increment to come, or still to be finished, is at most the one after `m`. */
  ghost predicate Before(s: State, m: nat) {
    |s.log| < m || (|s.log| == m && !MidWay(s))
  }

  /** Until all is done somebody can step. */
  lemma Mover(g: Config, s: State, turn: Turn) returns (leader: bool)
    requires Inv(g, s, turn) && |s.log| < 2 * g.rounds
    ensures Enabled(Worker(s, leader))
  {
    leader := Enabled(s.lead);
  }

  lemma StaysBefore(g: Config, s: State, turn: Turn, leader: bool, m: nat)
    requires Inv(g, s, turn) && Enabled(Worker(s, leader)) && Before(s, m) && !(|s.log| == m && Ready(s))
    ensures Before(Step(g, s, leader), m)
  {
  }

  lemma ReadableBefore(g: Config, s: State, turn: Turn, m: nat)
    requires Inv(g, s, turn) && Before(s, m) && !(|s.log| == m && Ready(s))
    requires g.client.CounterFile? ==> m <= Pow10(10)
    ensures Readable(g, s)
  {
  }

  /** The increment after the first 10^10. */
  lemma OneTooMany(g: Config, s: State) returns (sched: seq<bool>, s': State)
    requires g.client.CounterFile? && s.data.content == Digits(|s.log|) && |s.log| >= Pow10(10) && Ready(s)
    ensures Runs(g, s, sched, s') && s'.data.content != Digits(|s'.log|)
  {
    sched, s' := WorkIsInc(g, s, s.lead.pc == Work(0));
    WrongText(|s.log|);
  }

  lemma WrongText(k: nat)
    requires k >= Pow10(10)
    ensures Inc(Digits(k)).Some? && Inc(Digits(k)).value != Digits(k + 1)
  {
    IncReads(k);
    IncOverruns(k);
  }

  /** From every state before it, some schedule leads through that increment. */
  lemma {:induction false} GetsThere(g: Config, s: State, turn: Turn) returns (sched: seq<bool>, s': State)
    requires g.client.CounterFile? && 2 * g.rounds > Pow10(10) && Inv(g, s, turn) && Before(s, Pow10(10))
    ensures Runs(g, s, sched, s') && s'.data.content != Digits(|s'.log|)
    decreases Rank(g, true, s.lead) + Rank(g, false, s.follow)
  {
    if |s.log| == Pow10(10) && Ready(s) {
      sched, s' := OneTooMany(g, s);
    } else {
      var leader := Mover(g, s, turn);
      ReadableBefore(g, s, turn, Pow10(10));
      StaysBefore(g, s, turn, leader, Pow10(10));
      StepConsumes(g, s, turn, leader);
      var turn1 := StepKeeps(g, s, turn, leader);
      RankPositive(g, Step(g, s, leader), turn1);
      sched, s' := GetsThere(g, Step(g, s, leader), turn1);
      RunsFirst(g, s, leader, sched, s');
      sched := [leader] + sched;
    }
  }

  /** With more than 10^10 increments to make, some run leaves a wrong text. */
  lemma GoesWrong(g: Config) returns (s: State)
    requires g.client.CounterFile? && 2 * g.rounds > Pow10(10)
    ensures Reachable(g, s) && s.data.content != Digits(|s.log|)
  {
    var turn := InitInv(g);
    PowPositive(10);
    var sched: seq<bool>;
    sched, s := GetsThere(g, Init(g), turn);
  }

  /** On every run the file is the decimal text of the number of increments, if and only if 2n <= 10^10. */
  lemma CounterExactIff(g: Config)
    requires g.client.CounterFile?
    ensures (forall s :: Reachable(g, s) ==> s.data.content == Digits(|s.log|)) <==> 2 * g.rounds <= Pow10(10)
  {
    if 2 * g.rounds <= Pow10(10) {
      forall s | Reachable(g, s) ensures s.data.content == Digits(|s.log|) {
        CounterExact(g, s);
      }
    } else {
      var s := GoesWrong(g);
    }
  }
}
