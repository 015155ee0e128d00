/**
 The signal handshake of lib/apue_ipc_signal.cpp, driven by its two clients
 10/24_signal_handshake.cpp and 15/12_shm_dev_zero.cpp.

 Two processes take turns.  In every round the leader works, tells the follower and
 waits; the follower waits, works and tells the leader.  In 10/24 the leader is the
 child, in 15/12 the parent.  A signal is one pending bit, blocked except inside
 `sigsuspend`, where its handler sets `sigflag`.  Every step is one access to shared
 state (the counter file with its one shared offset, the memory cell, a pending bit),
 and the two processes are interleaved at every step.
 */
module SignalHandshake {
  import opened Wrappers
  import opened Files
  import opened Decimal

  const SIZE_T := 0x1_0000_0000_0000_0000

  datatype Client = CounterFile | SharedCell

  datatype Config = Config(client: Client, rounds: nat)

  datatype Pc =
    | Work(k: nat)  // inc or update, one shared access at a time
    | Tell          // kill
    | Test          // while (sigflag == 0)
    | Suspended     // inside sigsuspend
    | Clear         // sigflag = 0
    | Exited
    | Failed        // err_quit

  /** `num` is the local variable of `inc` and of `update`. */
  datatype Proc = Proc(pc: Pc, round: nat, sigflag: bool, pending: bool, num: int)

  datatype Data = Data(content: seq<byte>, off: nat, cell: int)

  /** `log` records who did each increment, true for the leader. */
  datatype State = State(lead: Proc, follow: Proc, data: Data, log: seq<bool>)

  function WorkSteps(client: Client): nat {
    if client.CounterFile? then 4 else 2
  }

  function Init(g: Config): State {
    State(
      Proc(if g.rounds == 0 then Exited else Work(0), 0, false, false, 0),
      Proc(if g.rounds == 0 then Exited else Test, 0, false, false, 0),
      Data(Digits(0), 1, 0), [])
  }

  /** `std::from_chars` into a `std::size_t`. */
  function FromChars(text: seq<byte>): Option<nat> {
    var k := DigitRun(text);
    if k == 0 || ValueOf(text[..k]) >= SIZE_T then None else Some(ValueOf(text[..k]))
  }

  /** One shared access of the work; the second result is the new `num`, or none for `err_quit`. */
  function WorkStep(g: Config, d: Data, k: nat, num: int, expected: int): (Data, Option<int>) {
    match g.client
    case CounterFile =>
      if k == 0 || k == 2 then (d.(off := 0), Some(num))
      else if k == 1 then
        var text := Bytes(d.content, d.off, 10);
        var v := FromChars(text);
        (d.(off := d.off + |text|), if v.None? then None else Some((v.value + 1) % SIZE_T))
      else
        var text := Digits(if num >= 0 then num else 0);
        (d.(content := WriteAt(d.content, d.off, text), off := d.off + |text|), Some(num))
    case SharedCell =>
      if k == 0 then (d, Some(d.cell))
      else (d.(cell := num + 1), if num == expected then Some(num) else None)
  }

  predicate Enabled(p: Proc) {
    match p.pc
    case Exited | Failed => false
    case Suspended => p.pending
    case _ => true
  }

  /** Where a process goes after its round. */
  function NextRound(g: Config, p: Proc, first: Pc): Proc {
    p.(round := p.round + 1, pc := if p.round + 1 < g.rounds then first else Exited)
  }

  /** A step of one process: itself, the other, and the data afterwards. */
  function ProcStep(g: Config, leader: bool, p: Proc, q: Proc, d: Data): (Proc, Proc, Data)
    requires Enabled(p)
  {
    match p.pc
    case Work(k) =>
      var (d', num) := WorkStep(g, d, k, p.num, if leader then 2 * p.round else 2 * p.round + 1);
      if num.None? then (p.(pc := Failed), q, d')
      else (p.(num := num.value, pc := if k + 1 < WorkSteps(g.client) then Work(k + 1) else Tell), q, d')
    case Tell =>
      (if leader then p.(pc := Test) else NextRound(g, p, Test), q.(pending := true), d)
    case Test => (p.(pc := if p.sigflag then Clear else Suspended), q, d)
    case Suspended => (p.(pending := false, sigflag := true, pc := Test), q, d)
    case Clear =>
      (if leader then NextRound(g, p.(sigflag := false), Work(0)) else p.(sigflag := false, pc := Work(0)), q, d)
  }

  /** The increment happens at the last access of the work. */
  predicate Increments(g: Config, p: Proc) {
    p.pc.Work? && p.pc.k + 1 >= WorkSteps(g.client)
  }

  function Step(g: Config, s: State, leader: bool): State
    requires Enabled(if leader then s.lead else s.follow)
  {
    var p, q := if leader then s.lead else s.follow, if leader then s.follow else s.lead;
    var (p', q', d') := ProcStep(g, leader, p, q, s.data);
    var log := if Increments(g, p) then s.log + [leader] else s.log;
    if leader then State(p', q', d', log) else State(q', p', d', log)
  }

  // ----- the counter file -----

  /** `inc` as a whole on a file whose offset is anywhere. */
  function Inc(content: seq<byte>): Option<seq<byte>> {
    var v := FromChars(Bytes(content, 0, 10));
    if v.None? then None else Some(WriteAt(content, 0, Digits((v.value + 1) % SIZE_T)))
  }

  lemma FirstTen(k: nat)
    requires k < Pow10(10)
    ensures Bytes(Digits(k), 0, 10) == Digits(k) && FromChars(Digits(k)) == Some(k)
  {
    LengthIff(k, 10);
    DigitsRoundTrip(k);
    RunStops(Digits(k), []);
    assert Digits(k) + [] == Digits(k) == Digits(k)[..|Digits(k)|];
    assert Pow10(10) < SIZE_T by { PowTen(); }
  }

  lemma PowTen()
    ensures Pow10(10) == 10_000_000_000
  {
    assert Pow10(5) == 100_000;
    assert Pow10(10) == 100_000 * Pow10(5);
  }

  /** Longer text overwrites shorter text completely, without truncation. */
  lemma Overwrites(a: seq<byte>, b: seq<byte>)
    requires |a| <= |b| && b != []
    ensures WriteAt(a, 0, b) == b
  {
    WriteAtIs(a, 0, b);
  }

  lemma NextText(k: nat)
    ensures WriteAt(Digits(k), 0, Digits(k + 1)) == Digits(k + 1)
  {
    LengthMonotone(k, k + 1);
    DigitsRoundTrip(k + 1);
    Overwrites(Digits(k), Digits(k + 1));
  }

  // ----- the invariant -----

  predicate Waiting(p: Proc) {
    p.pc.Test? || p.pc.Suspended?
  }

  predicate Quiet(p: Proc) {
    !p.sigflag && !p.pending
  }

  /** Told, but not yet back from waiting: the signal is pending or its handler has run. */
  predicate Told(p: Proc) {
    || (Waiting(p) && p.pending && !p.sigflag)
    || ((p.pc.Test? || p.pc.Clear?) && !p.pending && p.sigflag)
  }

  predicate Busy(g: Config, p: Proc) {
    Quiet(p) && (p.pc.Tell? || (p.pc.Work? && p.pc.k < WorkSteps(g.client)))
  }

  datatype Turn = LeadWorks | ToFollow | FollowWorks | ToLead | Over

  ghost predicate TurnOK(g: Config, s: State, turn: Turn) {
    match turn
    case LeadWorks => Busy(g, s.lead) && Waiting(s.follow) && Quiet(s.follow) && s.lead.round == s.follow.round < g.rounds
    case ToFollow => Waiting(s.lead) && Quiet(s.lead) && Told(s.follow) && s.lead.round == s.follow.round < g.rounds
    case FollowWorks => Waiting(s.lead) && Quiet(s.lead) && Busy(g, s.follow) && s.lead.round == s.follow.round < g.rounds
    case ToLead =>
      && Told(s.lead) && Quiet(s.follow) && s.lead.round < g.rounds && s.follow.round == s.lead.round + 1
      && (if s.follow.round < g.rounds then Waiting(s.follow) else s.follow.pc == Exited)
    case Over => s.lead.pc == s.follow.pc == Exited && Quiet(s.lead) && Quiet(s.follow)
                 && s.lead.round == s.follow.round == g.rounds
  }

  /** The increments completed; the worker at `Tell` has done its own. */
  function Done(s: State, turn: Turn): nat {
    match turn
    case LeadWorks => 2 * s.lead.round + if s.lead.pc.Tell? then 1 else 0
    case ToFollow => 2 * s.lead.round + 1
    case FollowWorks => 2 * s.lead.round + if s.follow.pc.Tell? then 2 else 1
    case ToLead => 2 * s.lead.round + 2
    case Over => 2 * s.lead.round
  }

  ghost predicate DataOK(g: Config, d: Data, k: nat) {
    if g.client.CounterFile? then d.content == Digits(k) else d.cell == k
  }

  /** What the worker has in hand at each access. */
  ghost predicate MidWork(g: Config, d: Data, p: Proc, k: nat) {
    p.pc.Work? ==>
      match g.client
      case CounterFile =>
        && (p.pc.k == 1 || p.pc.k == 3 ==> d.off == 0)
        && (p.pc.k >= 2 ==> p.num == k + 1)
      case SharedCell => p.pc.k == 1 ==> p.num == k
  }

  ghost predicate LogOK(log: seq<bool>, k: nat) {
    |log| == k && forall i :: 0 <= i < k ==> log[i] == (i % 2 == 0)
  }

  ghost predicate Inv(g: Config, s: State, turn: Turn) {
    && TurnOK(g, s, turn)
    && DataOK(g, s.data, Done(s, turn))
    && LogOK(s.log, Done(s, turn))
    && (turn.LeadWorks? ==> MidWork(g, s.data, s.lead, Done(s, turn)))
    && (turn.FollowWorks? ==> MidWork(g, s.data, s.follow, Done(s, turn)))
  }
}
