/** The functions of 10/23_timers.cpp as they run, on the global `alarm_set` and the armed alarm. */
module TimerMux {
  import opened Timers

  class Multiplexer {
    var alarmSet: seq<Timer>
    var armed: nat
    var pending: bool
    var now: nat
    ghost var regs: seq<Entry>
    ghost var fired: seq<Entry>

    ghost function Model(): Mux
      reads this
    {
      Mux(alarmSet, armed, pending, now, regs, fired)
    }

    constructor ()
      ensures Model() == EmptyMux
    {
      alarmSet, armed, pending, now, regs, fired := [], 0, false, 0, [], [];
    }

    /** The system call: returns the seconds that were left. */
    method Alarm(secs: nat) returns (left: nat)
      modifies this`armed
      ensures left == old(armed) && armed == secs
    {
      left := armed;
      armed := secs;
    }

    method ResetSystemAlarm()
      modifies this`armed
      ensures armed == Arm(alarmSet)
    {
      var left;
      if alarmSet == [] {
        left := Alarm(0);
      } else {
        left := Alarm(ToUnsigned(alarmSet[0].secs));
      }
    }

    method ApueAlarm(secs: int, func: nat)
      requires Ordered(alarmSet)
      modifies this
      ensures Model() == Register(old(Model()), secs, func)
    {
      if secs <= 0 || func == NULL {
        return;
      }
      RebaseAll();
      Add(Timer(secs, func));
    }

    /** Lines 52-53. */
    method Add(t: Timer)
      modifies this`alarmSet, this`armed, this`regs
      ensures alarmSet == Insert(old(alarmSet), t) && armed == Arm(alarmSet)
      ensures regs == old(regs) + [Entry(now + t.secs, t.func)]
    {
      alarmSet := Insert(alarmSet, t);
      ResetSystemAlarm();
      regs := regs + [Entry(now + t.secs, t.func)];
    }

    /** Lines 42-50: the alarm is stopped and the set made relative to now. */
    method RebaseAll()
      requires Ordered(alarmSet)
      modifies this`armed, this`alarmSet
      ensures alarmSet == Rebased(old(Model()))
    {
      var elapsed := Alarm(0);
      if elapsed > 0 && alarmSet != [] {
        alarmSet := Rebase(alarmSet, alarmSet[0].secs - elapsed);
      }
    }

    method AlarmHandler()
      requires Ordered(alarmSet)
      modifies this
      ensures Model() == Handle(old(Model()))
    {
      pending := false;
      if alarmSet == [] {
        return;
      }
      var elapsed := alarmSet[0].secs;
      fired := fired + [Entry(now, alarmSet[0].func)];
      alarmSet := alarmSet[1..];
      alarmSet := Rebase(alarmSet, elapsed);
      ResetSystemAlarm();
    }

    /** One second passes. */
    method Second()
      requires Inv(Model()) && !pending && armed > 0
      modifies this`now, this`armed, this`pending
      ensures Inv(Model()) && Model() == Tick(old(Model())) && armed == old(armed) - 1
    {
      TickKeeps(Model());
      pending := armed == 1;
      now, armed := now + 1, armed - 1;
    }

    /** `sigsuspend`: seconds pass until the alarm goes off, then the handler runs. */
    method Suspend()
      requires Inv(Model()) && alarmSet != []
      modifies this
      ensures Inv(Model()) && |alarmSet| == |old(alarmSet)| - 1 && regs == old(regs)
    {
      while !pending
        invariant Inv(Model()) && alarmSet == old(alarmSet) && regs == old(regs)
        decreases armed
      {
        Second();
      }
      HandleKeeps(Model());
      AlarmHandler();
    }

    /** Lines 71-81: returns, and only when every registered timer has been called back. */
    method WaitTimers()
      requires Inv(Model())
      modifies this
      ensures alarmSet == [] && regs == old(regs) && Inv(Model())
      ensures multiset(fired) == multiset(regs)
    {
      while alarmSet != []
        invariant Inv(Model()) && regs == old(regs)
        decreases |alarmSet|
      {
        Suspend();
      }
    }
  }

  /** Shifting an ordered set by a constant appends each pair at the end. */
  lemma InsertShifted(s: seq<Timer>, d: int, i: nat)
    requires Ordered(s) && i < |s|
    ensures Insert(Shift(s[..i], d), Timer(s[i].secs - d, s[i].func)) == Shift(s[..i + 1], d)
  {
    var t := Timer(s[i].secs - d, s[i].func);
    assert Shift(s[..i + 1], d) == Shift(s[..i], d) + [t];
    if i > 0 {
      assert Less(s[i - 1], s[i]);
      assert Shift(s[..i], d)[i - 1] == Timer(s[i - 1].secs - d, s[i - 1].func);
    }
  }

  /** The loops of lines 46-48 and 64-66. */
  method Rebase(s: seq<Timer>, d: int) returns (temp: seq<Timer>)
    requires Ordered(s)
    ensures temp == Shift(s, d)
  {
    temp := [];
    var i := 0;
    while i < |s|
      invariant 0 <= i <= |s| && temp == Shift(s[..i], d)
    {
      InsertShifted(s, d, i);
      temp := Insert(temp, Timer(s[i].secs - d, s[i].func));
      i := i + 1;
    }
    assert s[..i] == s;
  }
}
