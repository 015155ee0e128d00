/** Runs of the timer multiplexer: what fires when deadlines differ, and what happens when two coincide. */
module TimerTheorems {
  import opened Timers

  ghost predicate Distinct(es: seq<Entry>) {
    forall i, j :: 0 <= i < j < |es| ==> es[i].at != es[j].at
  }

  // ----- deadlines that differ -----

  lemma {:induction false} DueSize(s: seq<Timer>, base: int)
    ensures |Due(s, base)| == |s|
  {
    if s != [] {
      DueSize(s[..|s| - 1], base);
    }
  }

  /** An outstanding timer is due in the future, or now if the signal is pending. */
  lemma DueLater(m: Mux, e: Entry)
    requires Running(m) && e in Outstanding(m)
    ensures if m.pending then e.at >= m.now else e.at > m.now
  {
    DueMember(m.timers, Base(m), e);
    var i :| 0 <= i < |m.timers| && DueEntry(m.timers[i], Base(m)) == e;
    assert i > 0 ==> Less(m.timers[0], m.timers[i]);
  }

  /** Every registration has been called back or is outstanding. */
  lemma RegisteredSomewhere(m: Mux, i: nat)
    requires Balanced(m.regs, m.fired, Outstanding(m)) && i < |m.regs|
    ensures m.regs[i] in m.fired || m.regs[i] in Outstanding(m)
  {
    assert m.regs[i] in multiset(m.regs);
  }

  lemma StaysDistinct(m: Mux, at: int, func: nat)
    requires Inv(m) && Distinct(m.regs) && Free(m, at) && at > m.now
    ensures Distinct(m.regs + [Entry(at, func)])
  {
    forall i | 0 <= i < |m.regs| ensures m.regs[i].at != at {
      RegisteredSomewhere(m, i);
    }
  }

  // ----- deadlines that coincide -----

  /** More timers were registered than fired or are kept. */
  ghost predicate Lost(m: Mux) {
    |m.fired| + |m.timers| < |m.regs|
  }

  ghost predicate Tied(m: Mux) {
    Running(m) && !StrictSecs(m.timers) && |m.fired| + |m.timers| <= |m.regs|
  }

  /** A timer with no seconds left at the head of the set, and no alarm: nothing fires any more. */
  ghost predicate Stuck(m: Mux) {
    && m.timers != [] && m.timers[0].secs == 0 && m.armed == 0 && !m.pending
    && |m.fired| + |m.timers| <= |m.regs|
  }

  ghost predicate Bad(m: Mux) {
    Lost(m) || Tied(m) || Stuck(m)
  }

  lemma {:induction false} InsertSize(s: seq<Timer>, t: Timer)
    ensures |s| <= |Insert(s, t)| <= |s| + 1
  {
    if s != [] {
      InsertSize(s[..|s| - 1], t);
    }
  }

  lemma {:induction false} InsertHead(s: seq<Timer>, t: Timer)
    requires s != [] && Less(s[0], t)
    ensures Insert(s, t) != [] && Insert(s, t)[0] == s[0]
  {
    if |s| > 1 {
      InsertHead(s[..|s| - 1], t);
    }
  }

  /** Two timers with the same seconds. */
  ghost predicate Pair(s: seq<Timer>, a: Timer, b: Timer) {
    a in s && b in s && a != b && a.secs == b.secs
  }

  lemma PairNotStrict(s: seq<Timer>, a: Timer, b: Timer)
    requires Pair(s, a, b)
    ensures !StrictSecs(s)
  {
    var i :| 0 <= i < |s| && s[i] == a;
    var j :| 0 <= j < |s| && s[j] == b;
    var lo, hi := if i < j then i else j, if i < j then j else i;
    assert 0 <= lo < hi < |s| && s[lo].secs == s[hi].secs;
  }

  lemma TieIsPair(s: seq<Timer>) returns (a: Timer, b: Timer)
    requires Ordered(s) && !StrictSecs(s)
    ensures Pair(s, a, b)
  {
    var i, j :| 0 <= i < j < |s| && !(s[i].secs < s[j].secs);
    assert Less(s[i], s[j]);
    a, b := s[i], s[j];
  }

  lemma ShiftPair(s: seq<Timer>, d: int, a: Timer, b: Timer)
    requires Pair(s, a, b)
    ensures Pair(Shift(s, d), Timer(a.secs - d, a.func), Timer(b.secs - d, b.func))
  {
    var i :| 0 <= i < |s| && s[i] == a;
    var j :| 0 <= j < |s| && s[j] == b;
    assert Shift(s, d)[i] == Timer(a.secs - d, a.func) && Shift(s, d)[j] == Timer(b.secs - d, b.func);
  }

  lemma RegisterTied(m: Mux, secs: int, func: nat)
    requires Tied(m) && !m.pending && 0 < secs < 0x8000_0000 && func != NULL
    ensures Bad(Register(m, secs, func))
  {
    var a, b := TieIsPair(m.timers);
    RegisterRuns(m, secs, func);
    RebasedIs(m);
    var d := if m.timers == [] then 0 else m.timers[0].secs - m.armed;
    ShiftPair(m.timers, d, a, b);
    InsertIs(Rebased(m), Timer(secs, func));
    PairNotStrict(Register(m, secs, func).timers, Timer(a.secs - d, a.func), Timer(b.secs - d, b.func));
  }

  lemma HandleTied(m: Mux)
    requires Tied(m) && m.pending
    ensures Bad(Handle(m))
  {
    var m' := Handle(m);
    HandleOrder(m);
    var i, j :| 0 <= i < j < |m.timers| && !(m.timers[i].secs < m.timers[j].secs);
    assert Less(m.timers[i], m.timers[j]) && m.timers[i].secs == m.timers[j].secs;
    if m.timers[1].secs != m.timers[0].secs {
      TieBehind(m, i, j);
    }
  }

  lemma TieBehind(m: Mux, i: nat, j: nat)
    requires Running(m) && m.pending && i < j < |m.timers| && m.timers[i].secs == m.timers[j].secs
    requires m.timers[1].secs != m.timers[0].secs
    ensures Running(Handle(m)) && !StrictSecs(Handle(m).timers)
  {
    var s' := Handle(m).timers;
    HandleOrder(m);
    assert j > 1 ==> Less(m.timers[1], m.timers[j]);
    assert Less(m.timers[0], m.timers[1]);
    assert i > 0;
    assert s'[i - 1].secs == s'[j - 1].secs;
    forall k | 0 <= k < |s'| ensures s'[k].secs > 0 {
      assert k > 0 ==> Less(m.timers[1], m.timers[k + 1]);
      assert s'[k].secs == m.timers[k + 1].secs - m.timers[0].secs;
    }
  }

  lemma BadStays(m: Mux, a: Step)
    requires Bad(m) && Enabled(m, a)
    ensures Bad(Apply(m, a))
  {
    match a
    case DoRegister(secs, func) =>
      if secs > 0 && func != NULL {
        InsertSize(Rebased(m), Timer(secs, func));
        if Tied(m) {
          RegisterTied(m, secs, func);
        } else if Stuck(m) {
          InsertHead(m.timers, Timer(secs, func));
        }
      }
    case DoTick => if Tied(m) { TickKeeps(m); }
    case DoHandle => if Tied(m) { HandleTied(m); }
  }

  lemma SizesBalance(m: Mux)
    requires Balanced(m.regs, m.fired, Outstanding(m))
    ensures |m.regs| == |m.fired| + |m.timers|
  {
    DueSize(m.timers, Base(m));
    assert |multiset(m.regs)| == |m.regs| && |multiset(m.fired)| == |m.fired|;
  }

  /** The timer of the set that is due at the time of an outstanding entry. */
  lemma TimerOf(m: Mux, e: Entry) returns (x: Timer)
    requires Running(m) && !m.pending && e in Outstanding(m)
    ensures x in Rebased(m) && DueEntry(x, m.now) == e
  {
    RebasedDue(m);
    DueMember(Rebased(m), m.now, e);
    var k :| 0 <= k < |Rebased(m)| && DueEntry(Rebased(m)[k], m.now) == e;
    x := Rebased(m)[k];
  }

  lemma TieInSet(m: Mux, secs: int, func: nat, x: Timer)
    requires Running(m) && Balanced(m.regs, m.fired, Outstanding(m)) && !m.pending
    requires 0 < secs < 0x8000_0000 && func != NULL && x in Rebased(m) && x.secs == secs
    ensures Bad(Register(m, secs, func))
  {
    var t := Timer(secs, func);
    SizesBalance(m);
    RegisterRuns(m, secs, func);
    RebasedIs(m);
    InsertIs(Rebased(m), t);
    if t !in Rebased(m) {
      PairNotStrict(Register(m, secs, func).timers, x, t);
    }
  }

  lemma TieInRegs(m: Mux, e: Entry, func: nat)
    requires Balanced(m.regs, m.fired, Outstanding(m)) && e in Outstanding(m)
    ensures !Distinct(m.regs + [Entry(e.at, func)])
  {
    assert e in multiset(m.regs);
    var i :| 0 <= i < |m.regs| && m.regs[i] == e;
    var regs := m.regs + [Entry(e.at, func)];
    assert regs[i].at == regs[|m.regs|].at;
  }

  /** A registration that is due together with an outstanding timer spoils the set for good. */
  lemma TieSpoils(m: Mux, secs: int, func: nat)
    requires Inv(m) && !m.pending && 0 < secs < 0x8000_0000 && func != NULL && !Free(m, m.now + secs)
    ensures Bad(Register(m, secs, func)) && !Distinct(Register(m, secs, func).regs)
  {
    var e :| e in Outstanding(m) && e.at == m.now + secs;
    var x := TimerOf(m, e);
    TieInSet(m, secs, func, x);
    TieInRegs(m, e, func);
  }

  // ----- runs -----

  ghost predicate Runs(m: Mux, steps: seq<Step>, m': Mux)
    decreases |steps|
  {
    if steps == [] then m' == m
    else Enabled(m, steps[0]) && Runs(Apply(m, steps[0]), steps[1..], m')
  }

  ghost predicate Reachable(m: Mux) {
    exists steps :: Runs(EmptyMux, steps, m)
  }

  ghost predicate Good(m: Mux) {
    Inv(m) && Distinct(m.regs)
  }

  lemma StepSorts(m: Mux, a: Step)
    requires Enabled(m, a) && (Good(m) || (Bad(m) && !Distinct(m.regs)))
    ensures var m' := Apply(m, a); Good(m') || (Bad(m') && !Distinct(m'.regs))
  {
    var m' := Apply(m, a);
    if Good(m) {
      match a
      case DoRegister(secs, func) =>
        if secs > 0 && func != NULL && !Free(m, m.now + secs) {
          TieSpoils(m, secs, func);
        } else {
          RegisterKeeps(m, secs, func);
          if secs > 0 && func != NULL {
            StaysDistinct(m, m.now + secs, func);
          }
        }
      case DoTick => TickKeeps(m);
      case DoHandle => HandleKeeps(m);
    } else {
      BadStays(m, a);
      var i, j :| 0 <= i < j < |m.regs| && m.regs[i].at == m.regs[j].at;
      assert m'.regs[i] == m.regs[i] && m'.regs[j] == m.regs[j];
    }
  }

  lemma {:induction false} RunsSort(m: Mux, steps: seq<Step>, m': Mux)
    requires Runs(m, steps, m') && (Good(m) || (Bad(m) && !Distinct(m.regs)))
    ensures Good(m') || (Bad(m') && !Distinct(m'.regs))
    decreases |steps|
  {
    if steps != [] {
      StepSorts(m, steps[0]);
      RunsSort(Apply(m, steps[0]), steps[1..], m');
    }
  }

  lemma ReachableSorted(m: Mux)
    requires Reachable(m)
    ensures Good(m) || (Bad(m) && !Distinct(m.regs))
  {
    var steps :| Runs(EmptyMux, steps, m);
    assert Good(EmptyMux);
    RunsSort(EmptyMux, steps, m);
  }

  /**
   With deadlines pairwise distinct, every callback was made at the deadline of its
   registration, in order of deadlines, and exactly those due by now have been made.
   */
  lemma FiresOnTime(m: Mux, e: Entry)
    requires Reachable(m) && Distinct(m.regs)
    ensures multiset(m.fired) <= multiset(m.regs) && InOrder(m.fired)
    ensures !m.pending && e in m.regs ==> (e in m.fired <==> e.at <= m.now)
    ensures m.timers == [] ==> multiset(m.fired) == multiset(m.regs)
  {
    ReachableSorted(m);
    assert Good(m);
    if !m.pending && e in m.regs {
      var i :| 0 <= i < |m.regs| && m.regs[i] == e;
      RegisteredSomewhere(m, i);
      if e in Outstanding(m) {
        DueLater(m, e);
      }
    }
  }

  // ----- deadlines from the calls alone -----

  /** Seconds that pass in a run. */
  function Ticks(steps: seq<Step>): nat {
    if steps == [] then 0 else (if steps[0].DoTick? then 1 else 0) + Ticks(steps[1..])
  }

  /** The deadlines of the calls of `apue_alarm` in a run that starts at `now`; calls with no seconds or no callback count for nothing. */
  function Deadlines(now: nat, steps: seq<Step>): seq<Entry>
    decreases |steps|
  {
    if steps == [] then []
    else
      match steps[0]
      case DoRegister(secs, func) =>
        (if secs > 0 && func != 0 then [Entry(now + secs, func)] else []) + Deadlines(now, steps[1..])
      case DoTick => Deadlines(now + 1, steps[1..])
      case DoHandle => Deadlines(now, steps[1..])
  }

  /** The clock is the seconds passed, and what is recorded as registered are the calls made. */
  lemma {:induction false} CallsRecorded(m: Mux, steps: seq<Step>, m': Mux)
    requires Runs(m, steps, m')
    ensures m'.now == m.now + Ticks(steps) && m'.regs == m.regs + Deadlines(m.now, steps)
    decreases |steps|
  {
    if steps != [] {
      var m1 := Apply(m, steps[0]);
      CallsRecorded(m1, steps[1..], m');
      if steps[0].DoRegister? && steps[0].secs > 0 && steps[0].func != 0 {
        var e := Entry(m.now + steps[0].secs, steps[0].func);
        assert m.regs + [e] + Deadlines(m.now, steps[1..]) == m.regs + ([e] + Deadlines(m.now, steps[1..]));
      }
    }
  }

  /**
   For every run in which the deadlines of the calls are distinct: the callbacks made are,
   in order, among those deadlines, and a call has been answered exactly if the seconds
   passed have reached its deadline.
   */
  lemma CallsFireOnTime(steps: seq<Step>, m: Mux, e: Entry)
    requires Runs(EmptyMux, steps, m) && Distinct(Deadlines(0, steps))
    ensures multiset(m.fired) <= multiset(Deadlines(0, steps)) && InOrder(m.fired)
    ensures !m.pending && e in Deadlines(0, steps) ==> (e in m.fired <==> e.at <= Ticks(steps))
  {
    CallsRecorded(EmptyMux, steps, m);
    assert EmptyMux.regs + Deadlines(0, steps) == Deadlines(0, steps);
    FiresOnTime(m, e);
  }

  /** While a timer is kept, some registration is still due. */
  lemma StillDue(m: Mux) returns (i: nat)
    requires Inv(m) && !m.pending && m.timers != []
    ensures i < |m.regs| && m.regs[i].at > m.now
  {
    var e := DueEntry(m.timers[0], Base(m));
    DueMember(m.timers, Base(m), e);
    DueLater(m, e);
    assert e in multiset(m.regs);
    i :| 0 <= i < |m.regs| && m.regs[i] == e;
  }

  /** All timers ever registered have fired, once their time is past, if and only if no two had the same deadline. */
  lemma AllFireIffDistinct(m: Mux)
    requires Reachable(m) && !m.pending && forall i :: 0 <= i < |m.regs| ==> m.regs[i].at <= m.now
    ensures multiset(m.fired) == multiset(m.regs) <==> Distinct(m.regs)
  {
    ReachableSorted(m);
    if Good(m) {
      if m.timers != [] {
        var i := StillDue(m);
      }
    } else {
      NotAllFired(m);
    }
  }

  /** After a tie some timer never fires, however long one waits. */
  lemma NotAllFired(m: Mux)
    requires Bad(m)
    ensures multiset(m.fired) != multiset(m.regs)
  {
    assert |multiset(m.regs)| == |m.regs| && |multiset(m.fired)| == |m.fired|;
    assert Tied(m) ==> m.timers != [];
  }

  /** Two timers due together: the second is never called back and `wait_apue_timers` never returns. */
  lemma TieExample()
    ensures var m := Apply(Apply(EmptyMux, DoRegister(1, 7)), DoRegister(1, 8));
            var stuck := Handle(Tick(m));
            stuck.fired == [Entry(1, 7)] && Stuck(stuck)
  {
    var a := Register(EmptyMux, 1, 7);
    assert a.timers == [Timer(1, 7)] && a.armed == 1;
    assert Shift(a.timers, 0) == a.timers;
    var b := Register(a, 1, 8);
    assert b.timers == [Timer(1, 7), Timer(1, 8)];
    assert b.timers[1..] == [Timer(1, 8)];
    assert Shift(b.timers[1..], 1) == [Timer(0, 8)];
  }
}
