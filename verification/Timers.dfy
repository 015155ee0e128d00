/**
 The timer multiplexer of 10/23_timers.cpp: any number of timers on one `alarm`.

 `alarm_set` is an ordered set of (seconds, callback) pairs, kept relative to the
 last registration or expiry.  Time is counted in whole seconds.  SIGALRM is
 delivered in the second in which it becomes pending, no registration happens while
 it is pending, and callbacks do not register timers.

 `regs` and `fired` are histories: the deadline of every registration and the time
 of every callback.
 */
module Timers {

  datatype Timer = Timer(secs: int, func: nat)

  datatype Entry = Entry(at: int, func: nat)

  const NULL := 0
  const UINT := 0x1_0000_0000

  datatype Mux = Mux(timers: seq<Timer>, armed: nat, pending: bool, now: nat, regs: seq<Entry>, fired: seq<Entry>)

  const EmptyMux := Mux([], 0, false, 0, [], [])

  // ----- std::set<std::pair<int, Sigfunc*>> -----

  predicate Less(a: Timer, b: Timer) {
    a.secs < b.secs || (a.secs == b.secs && a.func < b.func)
  }

  ghost predicate Ordered(s: seq<Timer>) {
    forall i, j :: 0 <= i < j < |s| ==> Less(s[i], s[j])
  }

  function Insert(s: seq<Timer>, t: Timer): seq<Timer> {
    if s == [] then [t]
    else
      var n := |s| - 1;
      if s[n] == t then s
      else if Less(s[n], t) then s + [t]
      else Insert(s[..n], t) + [s[n]]
  }

  /** The insertion point keeps the order, and a pair that is present is not repeated. */
  lemma {:induction false} InsertIs(s: seq<Timer>, t: Timer)
    requires Ordered(s)
    ensures var r := Insert(s, t);
            && Ordered(r) && (forall x :: x in r <==> x in s || x == t)
            && |r| == (if t in s then |s| else |s| + 1)
  {
    if s != [] {
      var n := |s| - 1;
      assert s == s[..n] + [s[n]];
      if s[n] != t && !Less(s[n], t) {
        InsertIs(s[..n], t);
        var r := Insert(s[..n], t);
        forall i | 0 <= i < |r| ensures Less(r[i], s[n]) {
          assert r[i] in r;
        }
        assert t in s <==> t in s[..n];
      } else if s[n] != t {
        assert forall i :: 0 <= i < |s| ==> Less(s[i], t);
      }
    }
  }

  function Shift(s: seq<Timer>, d: int): (r: seq<Timer>)
    ensures |r| == |s| && forall i :: 0 <= i < |s| ==> r[i] == Timer(s[i].secs - d, s[i].func)
  {
    seq(|s|, i requires 0 <= i < |s| => Timer(s[i].secs - d, s[i].func))
  }

  // ----- the operations -----

  /** Conversion of an `int` to `unsigned int`. */
  function ToUnsigned(secs: int): nat {
    if secs >= 0 then secs else secs % UINT
  }

  /** The argument of `alarm` is unsigned; 0 cancels. */
  function Arm(s: seq<Timer>): nat {
    if s == [] then 0 else ToUnsigned(s[0].secs)
  }

  /** Lines 23-55. */
  function Register(m: Mux, secs: int, func: nat): Mux {
    if secs <= 0 || func == NULL then m
    else
      var s1 := if m.armed > 0 && m.timers != [] then Shift(m.timers, m.timers[0].secs - m.armed) else m.timers;
      var s2 := Insert(s1, Timer(secs, func));
      m.(timers := s2, armed := Arm(s2), regs := m.regs + [Entry(m.now + secs, func)])
  }

  /** Lines 57-69. */
  function Handle(m: Mux): Mux {
    if m.timers == [] then m.(pending := false)
    else
      var s1 := Shift(m.timers[1..], m.timers[0].secs);
      m.(pending := false, timers := s1, armed := Arm(s1), fired := m.fired + [Entry(m.now, m.timers[0].func)])
  }

  /** One second passes. */
  function Tick(m: Mux): Mux {
    m.(now := m.now + 1, armed := if m.armed > 0 then m.armed - 1 else 0, pending := m.pending || m.armed == 1)
  }

  datatype Step = DoRegister(secs: int, func: nat) | DoTick | DoHandle

  /** `int` seconds; the handler runs as soon as the signal is pending. */
  predicate Enabled(m: Mux, a: Step) {
    match a
    case DoRegister(secs, _) => !m.pending && -0x8000_0000 <= secs < 0x8000_0000
    case DoTick => !m.pending
    case DoHandle => m.pending
  }

  function Apply(m: Mux, a: Step): Mux {
    match a
    case DoRegister(secs, func) => Register(m, secs, func)
    case DoTick => Tick(m)
    case DoHandle => Handle(m)
  }

  // ----- the absolute table -----

  function DueEntry(t: Timer, base: int): Entry {
    Entry(t.secs + base, t.func)
  }

  /** The absolute deadlines of a set that is relative to the time `base`. */
  function Due(s: seq<Timer>, base: int): multiset<Entry> {
    if s == [] then multiset{} else Due(s[..|s| - 1], base) + multiset{DueEntry(s[|s| - 1], base)}
  }

  function Base(m: Mux): int {
    if m.timers == [] then m.now else m.now + m.armed - m.timers[0].secs
  }

  /** The timers that have not fired, with the time each is due. */
  function Outstanding(m: Mux): multiset<Entry> {
    Due(m.timers, Base(m))
  }

  ghost predicate StrictSecs(s: seq<Timer>) {
    forall i, j :: 0 <= i < j < |s| ==> s[i].secs < s[j].secs
  }

  ghost predicate AllWithin(s: seq<Timer>, lo: int) {
    forall i :: 0 <= i < |s| ==> lo < s[i].secs < UINT
  }

  ghost predicate InOrder(es: seq<Entry>) {
    forall i, j :: 0 <= i < j < |es| ==> es[i].at < es[j].at
  }

  ghost predicate AllBy(es: seq<Entry>, t: int) {
    forall i :: 0 <= i < |es| ==> es[i].at <= t
  }

  /** The set is armed for its first timer; two timers may be due together. */
  ghost predicate Running(m: Mux) {
    && Ordered(m.timers) && AllWithin(m.timers, 0)
    && (if m.timers == [] then m.armed == 0 && !m.pending
        else m.armed <= m.timers[0].secs && (m.pending <==> m.armed == 0))
  }

  /** Registrations are exactly the callbacks made, in order and on time, and those still to come. */
  ghost predicate Inv(m: Mux) {
    && Running(m) && StrictSecs(m.timers)
    && Balanced(m.regs, m.fired, Outstanding(m))
    && InOrder(m.fired) && AllBy(m.fired, m.now - (if m.pending then 1 else 0))
  }

  ghost predicate Balanced(regs: seq<Entry>, fired: seq<Entry>, out: multiset<Entry>) {
    multiset(regs) == multiset(fired) + out
  }

  lemma BalanceRegister(regs: seq<Entry>, fired: seq<Entry>, out: multiset<Entry>, e: Entry)
    requires Balanced(regs, fired, out)
    ensures Balanced(regs + [e], fired, out + multiset{e})
  {
  }

  lemma BalanceFire(regs: seq<Entry>, fired: seq<Entry>, e: Entry, out: multiset<Entry>)
    requires Balanced(regs, fired, multiset{e} + out)
    ensures Balanced(regs, fired + [e], out)
  {
  }

  lemma {:induction false} DueShift(s: seq<Timer>, d: int, base: int)
    ensures Due(Shift(s, d), base) == Due(s, base - d)
  {
    if s != [] {
      var n, r := |s| - 1, Shift(s, d);
      DueShift(s[..n], d, base);
      assert r[..n] == Shift(s[..n], d) && DueEntry(r[n], base) == DueEntry(s[n], base - d);
      DueLast(r, base);
      DueLast(s, base - d);
    }
  }

  lemma DueLast(s: seq<Timer>, base: int)
    requires s != []
    ensures Due(s, base) == Due(s[..|s| - 1], base) + multiset{DueEntry(s[|s| - 1], base)}
  {
  }

  lemma DueAppend(s: seq<Timer>, t: Timer, base: int)
    ensures Due(s + [t], base) == Due(s, base) + multiset{DueEntry(t, base)}
  {
    assert (s + [t])[..|s|] == s;
  }

  lemma {:induction false} DueFirst(s: seq<Timer>, base: int)
    requires s != []
    ensures Due(s, base) == multiset{DueEntry(s[0], base)} + Due(s[1..], base)
  {
    var n := |s| - 1;
    if n > 0 {
      DueFirst(s[..n], base);
      assert s[..n][1..] + [s[n]] == s[1..];
      DueAppend(s[..n][1..], s[n], base);
    }
  }

  lemma {:induction false} DueInsert(s: seq<Timer>, t: Timer, base: int)
    requires t !in s
    ensures Due(Insert(s, t), base) == Due(s, base) + multiset{DueEntry(t, base)}
  {
    if s == [] || Less(s[|s| - 1], t) {
      DueAppend(s, t, base);
      assert [] + [t] == [t];
    } else {
      var n := |s| - 1;
      assert t !in s[..n];
      DueInsert(s[..n], t, base);
      DueAppend(Insert(s[..n], t), s[n], base);
    }
  }

  lemma {:induction false} DueHas(s: seq<Timer>, base: int, i: nat)
    requires i < |s|
    ensures DueEntry(s[i], base) in Due(s, base)
  {
    var n := |s| - 1;
    DueLast(s, base);
    if i < n {
      DueHas(s[..n], base, i);
    }
  }

  lemma {:induction false} DueIndex(s: seq<Timer>, base: int, e: Entry) returns (i: nat)
    requires e in Due(s, base)
    ensures i < |s| && DueEntry(s[i], base) == e
  {
    i := |s| - 1;
    if DueEntry(s[i], base) != e {
      DueLast(s, base);
      i := DueIndex(s[..i], base, e);
    }
  }

  lemma DueMember(s: seq<Timer>, base: int, e: Entry)
    ensures e in Due(s, base) <==> exists i :: 0 <= i < |s| && DueEntry(s[i], base) == e
  {
    if i :| 0 <= i < |s| && DueEntry(s[i], base) == e {
      DueHas(s, base, i);
    }
    if e in Due(s, base) {
      var i := DueIndex(s, base, e);
    }
  }

  // ----- registering -----

  /** The set after the rebase of lines 42-50 is relative to now. */
  function Rebased(m: Mux): seq<Timer> {
    if m.armed > 0 && m.timers != [] then Shift(m.timers, m.timers[0].secs - m.armed) else m.timers
  }

  lemma RebasedDue(m: Mux)
    requires m.timers != [] ==> m.armed > 0
    ensures Due(Rebased(m), m.now) == Outstanding(m)
  {
    if m.timers != [] {
      DueShift(m.timers, m.timers[0].secs - m.armed, m.now);
    }
  }

  lemma ShiftOrder(s: seq<Timer>, d: int)
    requires Ordered(s)
    ensures Ordered(Shift(s, d)) && (StrictSecs(s) ==> StrictSecs(Shift(s, d)))
  {
  }

  lemma ShiftWithin(s: seq<Timer>, d: int)
    requires Ordered(s) && AllWithin(s, 0) && s != [] && 0 <= d < s[0].secs
    ensures AllWithin(Shift(s, d), 0)
  {
    forall i | 0 <= i < |s| ensures 0 < Shift(s, d)[i].secs < UINT {
      assert i > 0 ==> Less(s[0], s[i]);
    }
  }

  lemma RebasedIs(m: Mux)
    requires Running(m) && !m.pending
    ensures Ordered(Rebased(m)) && AllWithin(Rebased(m), 0) && |Rebased(m)| == |m.timers|
    ensures StrictSecs(m.timers) ==> StrictSecs(Rebased(m))
  {
    if m.timers != [] {
      ShiftOrder(m.timers, m.timers[0].secs - m.armed);
      ShiftWithin(m.timers, m.timers[0].secs - m.armed);
    }
  }

  lemma InsertWithin(s: seq<Timer>, t: Timer)
    requires Ordered(s) && AllWithin(s, 0) && 0 < t.secs < UINT
    ensures AllWithin(Insert(s, t), 0) && Ordered(Insert(s, t)) && Insert(s, t) != []
  {
    InsertIs(s, t);
    var r := Insert(s, t);
    forall i | 0 <= i < |r| ensures 0 < r[i].secs < UINT {
      assert r[i] in r;
    }
  }

  /** A registration keeps the alarm right, tie or no tie. */
  lemma RegisterRuns(m: Mux, secs: int, func: nat)
    requires Running(m) && !m.pending && 0 < secs < 0x8000_0000 && func != NULL
    ensures var m' := Register(m, secs, func);
            && Running(m') && !m'.pending
            && m'.timers == Insert(Rebased(m), Timer(secs, func))
            && Outstanding(m') == Due(m'.timers, m.now)
  {
    RebasedIs(m);
    InsertWithin(Rebased(m), Timer(secs, func));
  }

  /** No outstanding timer is due at `at`. */
  ghost predicate Free(m: Mux, at: int) {
    forall e :: e in Outstanding(m) ==> e.at != at
  }

  lemma FreeOfTies(m: Mux, secs: int)
    requires Running(m) && !m.pending && Free(m, m.now + secs)
    ensures forall i :: 0 <= i < |Rebased(m)| ==> Rebased(m)[i].secs != secs
  {
    RebasedDue(m);
    forall i | 0 <= i < |Rebased(m)| ensures Rebased(m)[i].secs != secs {
      DueMember(Rebased(m), m.now, DueEntry(Rebased(m)[i], m.now));
    }
  }

  lemma RegisterKeeps(m: Mux, secs: int, func: nat)
    requires Inv(m) && !m.pending && secs < 0x8000_0000
    requires secs > 0 && func != NULL ==> Free(m, m.now + secs)
    ensures Inv(Register(m, secs, func))
  {
    if secs > 0 && func != NULL {
      var m', t := Register(m, secs, func), Timer(secs, func);
      RegisterRuns(m, secs, func);
      assert StrictSecs(m'.timers) && t !in Rebased(m) by {
        FreeOfTies(m, secs);
        RebasedIs(m);
        InsertStrict(Rebased(m), t);
      }
      assert m'.regs == m.regs + [DueEntry(t, m.now)];
      assert Balanced(m'.regs, m'.fired, Outstanding(m')) by {
        RegisterBalances(m, t);
      }
    }
  }

  lemma RegisterBalances(m: Mux, t: Timer)
    requires Balanced(m.regs, m.fired, Outstanding(m)) && (m.timers != [] ==> m.armed > 0) && t !in Rebased(m)
    ensures Balanced(m.regs + [DueEntry(t, m.now)], m.fired, Due(Insert(Rebased(m), t), m.now))
  {
    var s1, out := Rebased(m), Outstanding(m);
    assert Due(s1, m.now) == out by { RebasedDue(m); }
    DueInsert(s1, t, m.now);
    BalanceRegister(m.regs, m.fired, out, DueEntry(t, m.now));
  }

  lemma InsertStrict(s: seq<Timer>, t: Timer)
    requires Ordered(s) && StrictSecs(s) && forall i :: 0 <= i < |s| ==> s[i].secs != t.secs
    ensures StrictSecs(Insert(s, t))
  {
    var r := Insert(s, t);
    InsertIs(s, t);
    forall i, j | 0 <= i < j < |r| ensures r[i].secs < r[j].secs {
      assert Less(r[i], r[j]) && r[i] in r && r[j] in r;
    }
  }

  // ----- time and expiry -----

  lemma TickKeeps(m: Mux)
    requires Running(m) && !m.pending
    ensures Running(Tick(m)) && Outstanding(Tick(m)) == Outstanding(m)
    ensures Inv(m) ==> Inv(Tick(m))
  {
  }

  /** The first timer is due now; what is left is rebased to now. */
  lemma HandleDue(m: Mux)
    requires m.timers != [] && m.armed == 0
    ensures Outstanding(m) == multiset{Entry(m.now, m.timers[0].func)} + Due(Handle(m).timers, m.now)
  {
    var first, base := m.timers[0], Base(m);
    assert base == m.now - first.secs && DueEntry(first, base) == Entry(m.now, first.func);
    assert Handle(m).timers == Shift(m.timers[1..], first.secs);
    DueFirst(m.timers, base);
    DueShift(m.timers[1..], first.secs, m.now);
  }

  lemma HandleOrder(m: Mux)
    requires Running(m) && m.pending
    ensures var m' := Handle(m); Ordered(m'.timers) && AllWithin(m'.timers, -1) && m'.armed == (if m'.timers == [] then 0 else m'.timers[0].secs)
  {
    var rest := m.timers[1..];
    ShiftOrder(rest, m.timers[0].secs);
    forall i | 0 <= i < |rest| ensures -1 < Handle(m).timers[i].secs < UINT {
      assert Less(m.timers[0], m.timers[i + 1]) && rest[i] == m.timers[i + 1];
    }
  }

  lemma HandleStrict(m: Mux)
    requires StrictSecs(m.timers) && m.timers != []
    ensures StrictSecs(Handle(m).timers) && forall i :: 0 <= i < |Handle(m).timers| ==> Handle(m).timers[i].secs > 0
  {
    var s' := Handle(m).timers;
    forall i | 0 <= i < |s'| ensures s'[i] == Timer(m.timers[i + 1].secs - m.timers[0].secs, m.timers[i + 1].func) {
    }
  }

  lemma HandleKeeps(m: Mux)
    requires Inv(m) && m.pending
    ensures Inv(Handle(m)) && Handle(m).fired == m.fired + [Entry(m.now, m.timers[0].func)]
  {
    var m' := Handle(m);
    HandleOrder(m);
    HandleStrict(m);
    assert Balanced(m'.regs, m'.fired, Outstanding(m')) by {
      HandleDue(m);
      BalanceFire(m.regs, m.fired, Entry(m.now, m.timers[0].func), Due(m'.timers, m.now));
    }
  }
}
