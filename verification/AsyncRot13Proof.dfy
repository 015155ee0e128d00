/** Every schedule of the asynchronous pipeline produces the sequential result. */
module AsyncRot13Proof {
  import opened Files
  import opened Rot13
  import opened AsyncRot13

  /** The block at `off` is in the output. */
  ghost predicate BlockOK(input: seq<byte>, output: seq<byte>, off: nat) {
    forall p :: off <= p < off + BSZ ==> ByteOK(input, output, p)
  }

  ghost predicate ByteOK(input: seq<byte>, output: seq<byte>, p: nat) {
    p < |input| ==> p < |output| && output[p] == Translate(input[p])
  }

  ghost predicate SlotOK(input: seq<byte>, s: State, x: Slot) {
    && (InFlight(x) ==> x.off % BSZ == 0 && x.off < s.next && x.off / BSZ !in s.written)
    && match x
       case Idle => s.eof
       case Reading(_) => true
       case ReadDone(off, data, res) => res == -1 || (data == Bytes(input, off, BSZ) && res == |data|)
       case Writing(off, data) => data == TranslateAll(Bytes(input, off, BSZ)) && data != []
       case WriteDone(off, data, res) =>
         data == TranslateAll(Bytes(input, off, BSZ)) && data != [] && (res == |data| ==> BlockOK(input, s.output, off))
  }

  ghost predicate SlotsOK(input: seq<byte>, s: State) {
    forall i :: 0 <= i < |s.slots| ==> SlotOK(input, s, s.slots[i])
  }

  /** No two requests in flight are for the same block. */
  ghost predicate Apart(slots: seq<Slot>) {
    forall i, j :: 0 <= i < j < |slots| && InFlight(slots[i]) && InFlight(slots[j]) ==> slots[i].off != slots[j].off
  }

  ghost predicate Held(slots: seq<Slot>, off: nat) {
    exists i :: 0 <= i < |slots| && InFlight(slots[i]) && slots[i].off == off
  }

  /** Every block of the input that was asked for is in flight or in the output. */
  ghost predicate Covered(input: seq<byte>, s: State) {
    forall b :: 0 <= b && b * BSZ < s.next && b * BSZ < |input| ==> Held(s.slots, b * BSZ) || b in s.written
  }

  ghost predicate WrittenOK(input: seq<byte>, s: State) {
    forall b :: b in s.written ==> b * BSZ < |input| && b * BSZ < s.next && BlockOK(input, s.output, b * BSZ)
  }

  function Count(slots: seq<Slot>): nat {
    if slots == [] then 0 else Count(slots[..|slots| - 1]) + if InFlight(slots[|slots| - 1]) then 1 else 0
  }

  ghost predicate Inv(input: seq<byte>, s: State) {
    && |s.slots| == QUEUE_DEPTH
    && s.next % BSZ == 0 && s.next / BSZ <= QUEUE_DEPTH + |s.written|
    && |s.output| <= |input|
    && (s.eof ==> s.next > |input|)
    && s.pending == Count(s.slots) - (if s.failed then 1 else 0)
    && SlotsOK(input, s)
    && Apart(s.slots)
    && Covered(input, s)
    && WrittenOK(input, s)
  }

  // ----- slots -----

  lemma {:induction false} CountUpdate(slots: seq<Slot>, i: nat, x: Slot)
    requires i < |slots|
    ensures Count(slots[i := x]) ==
            Count(slots) - (if InFlight(slots[i]) then 1 else 0) + (if InFlight(x) then 1 else 0)
  {
    var n := |slots| - 1;
    if i == n {
      assert slots[i := x][..n] == slots[..n];
    } else {
      assert slots[i := x][..n] == slots[..n][i := x];
      CountUpdate(slots[..n], i, x);
    }
  }

  lemma {:induction false} CountBounds(slots: seq<Slot>)
    ensures Count(slots) <= |slots|
    ensures Count(slots) == 0 ==> forall i :: 0 <= i < |slots| ==> slots[i].Idle?
    ensures Count(slots) > 0 ==> exists i :: 0 <= i < |slots| && InFlight(slots[i])
  {
    if slots != [] {
      var n := |slots| - 1;
      CountBounds(slots[..n]);
      if Count(slots[..n]) > 0 {
        var i :| 0 <= i < n && InFlight(slots[..n][i]);
        assert InFlight(slots[i]);
      } else {
        forall i | 0 <= i < |slots| && Count(slots) == 0 ensures slots[i].Idle? {
          if i < n { assert slots[..n][i].Idle?; }
        }
      }
    }
  }

  /** A slot that moves on with the same block keeps the blocks apart and held. */
  lemma SameBlock(slots: seq<Slot>, i: nat, x: Slot)
    requires i < |slots| && InFlight(slots[i]) && InFlight(x) && x.off == slots[i].off && Apart(slots)
    ensures Apart(slots[i := x])
    ensures forall off {:trigger Held(slots, off)} :: Held(slots, off) ==> Held(slots[i := x], off)
  {
    forall off | Held(slots, off) ensures Held(slots[i := x], off) {
      var k :| 0 <= k < |slots| && InFlight(slots[k]) && slots[k].off == off;
      assert InFlight(slots[i := x][k]);
    }
  }

  /** A slot that gives up its block leaves the other blocks held. */
  lemma OtherBlocks(slots: seq<Slot>, i: nat, x: Slot, off: nat)
    requires i < |slots| && Held(slots, off) && (InFlight(slots[i]) ==> slots[i].off != off)
    ensures Held(slots[i := x], off)
  {
    var k :| 0 <= k < |slots| && InFlight(slots[k]) && slots[k].off == off;
    assert InFlight(slots[i := x][k]);
  }

  lemma SlotsKept(input: seq<byte>, s: State, s': State, i: nat)
    requires SlotsOK(input, s) && i < |s.slots| == |s'.slots| && s'.slots == s.slots[i := s'.slots[i]]
    requires SlotOK(input, s', s'.slots[i])
    requires s.next <= s'.next && s.written == s'.written && s'.output == s.output && (s.eof ==> s'.eof)
    ensures SlotsOK(input, s')
  {
    forall j | 0 <= j < |s'.slots| ensures SlotOK(input, s', s'.slots[j]) {
      if j != i { assert SlotOK(input, s, s.slots[j]); }
    }
  }

  // ----- the steps -----

  lemma KernelReadKeeps(input: seq<byte>, s: State, i: nat, ok: bool)
    requires Inv(input, s) && Enabled(s, KernelRead(i, ok))
    ensures Inv(input, Apply(input, s, KernelRead(i, ok)))
  {
    var s' := Apply(input, s, KernelRead(i, ok));
    assert SlotOK(input, s, s.slots[i]);
    CountUpdate(s.slots, i, s'.slots[i]);
    SameBlock(s.slots, i, s'.slots[i]);
    SlotsKept(input, s, s', i);
  }

  lemma Multiples(a: nat, b: nat)
    requires a % BSZ == 0 && b % BSZ == 0
    ensures a == a / BSZ * BSZ && (a != b ==> a + BSZ <= b || b + BSZ <= a)
  {
    assert a == a / BSZ * BSZ && b == b / BSZ * BSZ;
  }

  /** A write of one block leaves every other block as it was. */
  lemma WriteElsewhere(input: seq<byte>, output: seq<byte>, off: nat, data: seq<byte>, other: nat)
    requires BlockOK(input, output, other) && data != [] && |data| <= BSZ
    requires off % BSZ == 0 && other % BSZ == 0 && off != other
    ensures BlockOK(input, WriteAt(output, off, data), other)
  {
    WriteAtIs(output, off, data);
    Multiples(off, other);
    var r := WriteAt(output, off, data);
    forall p | other <= p < other + BSZ ensures ByteOK(input, r, p) {
      assert ByteOK(input, output, p);
    }
  }

  lemma WriteHere(input: seq<byte>, output: seq<byte>, off: nat, data: seq<byte>)
    requires data == TranslateAll(Bytes(input, off, BSZ)) && data != []
    ensures BlockOK(input, WriteAt(output, off, data), off)
    ensures off + |data| <= |input|
  {
    WriteAtIs(output, off, data);
  }

  lemma KernelWriteKeeps(input: seq<byte>, s: State, i: nat, res: int)
    requires Inv(input, s) && Enabled(s, KernelWrite(i, res))
    ensures Inv(input, Apply(input, s, KernelWrite(i, res)))
  {
    var s' := Apply(input, s, KernelWrite(i, res));
    var x := s.slots[i];
    assert SlotOK(input, s, x);
    CountUpdate(s.slots, i, s'.slots[i]);
    SameBlock(s.slots, i, s'.slots[i]);
    WriteHere(input, s.output, x.off, x.data);
    if res > 0 {
      WriteAtIs(s.output, x.off, x.data[..res]);
      WriteKeepsBlocks(input, s, s', i, res);
    } else {
      WriteNothing(input, s, s', i);
    }
  }

  lemma WriteNothing(input: seq<byte>, s: State, s': State, i: nat)
    requires SlotsOK(input, s) && WrittenOK(input, s) && i < |s.slots| && s.slots[i].Writing?
    requires exists res :: res <= 0 && s' == s.(slots := s.slots[i := WriteDone(s.slots[i].off, s.slots[i].data, res)])
    ensures SlotsOK(input, s') && WrittenOK(input, s')
  {
    assert SlotOK(input, s, s.slots[i]);
    SlotsKept(input, s, s', i);
  }

  lemma WriteKeepsBlocks(input: seq<byte>, s: State, s': State, i: nat, res: int)
    requires Apart(s.slots) && SlotsOK(input, s) && WrittenOK(input, s)
    requires Enabled(s, KernelWrite(i, res)) && res > 0 && s' == Apply(input, s, KernelWrite(i, res))
    ensures SlotsOK(input, s') && WrittenOK(input, s')
  {
    var x := s.slots[i];
    assert SlotOK(input, s, x);
    forall b | b in s'.written ensures BlockOK(input, s'.output, b * BSZ) {
      WriteElsewhere(input, s.output, x.off, x.data[..res], b * BSZ);
    }
    forall j | 0 <= j < |s'.slots| ensures SlotOK(input, s', s'.slots[j]) {
      var y := s.slots[j];
      assert SlotOK(input, s, y);
      if j == i {
        if res == |x.data| {
          assert x.data[..res] == x.data;
          WriteHere(input, s.output, x.off, x.data);
        }
      } else if y.WriteDone? && y.res == |y.data| {
        WriteElsewhere(input, s.output, x.off, x.data[..res], y.off);
      }
    }
  }

  lemma ReapReadKeeps(input: seq<byte>, s: State, i: nat)
    requires Inv(input, s) && Enabled(s, Reap(i)) && s.slots[i].ReadDone?
    ensures Inv(input, ReapSlot(s, i))
  {
    assert SlotOK(input, s, s.slots[i]);
    if s.slots[i].res < 0 {
      FailureKeeps(input, s, i);
    } else if s.slots[i].res > 0 {
      DataKeeps(input, s, i);
    } else {
      EndKeeps(input, s, i);
    }
  }

  /** A request failed: the program exits. */
  lemma FailureKeeps(input: seq<byte>, s: State, i: nat)
    requires Inv(input, s) && Enabled(s, Reap(i)) && ReapSlot(s, i) == s.(pending := s.pending - 1, failed := true)
    ensures Inv(input, ReapSlot(s, i))
  {
    SlotsKept(input, s, ReapSlot(s, i), i);
  }

  /** Data was read: it is translated and its write submitted. */
  lemma DataKeeps(input: seq<byte>, s: State, i: nat)
    requires Inv(input, s) && Enabled(s, Reap(i)) && s.slots[i].ReadDone? && s.slots[i].res > 0
    ensures Inv(input, ReapSlot(s, i))
  {
    var s', x := ReapSlot(s, i), s.slots[i];
    assert SlotOK(input, s, x);
    CountUpdate(s.slots, i, s'.slots[i]);
    SameBlock(s.slots, i, s'.slots[i]);
    Multiples(x.off, s.next);
    SlotsKept(input, s, s', i);
  }

  /** The end of the file: the slot is given up. */
  lemma EndKeeps(input: seq<byte>, s: State, i: nat)
    requires Inv(input, s) && Enabled(s, Reap(i)) && s.slots[i].ReadDone? && s.slots[i].res == 0
    ensures Inv(input, ReapSlot(s, i))
  {
    var s', x := ReapSlot(s, i), s.slots[i];
    assert SlotOK(input, s, x);
    CountUpdate(s.slots, i, s'.slots[i]);
    EndCovers(input, s, i);
    SlotsKept(input, s, s', i);
  }

  lemma EndCovers(input: seq<byte>, s: State, i: nat)
    requires Covered(input, s) && i < |s.slots| && InFlight(s.slots[i]) && s.slots[i].off >= |input|
    ensures Covered(input, s.(slots := s.slots[i := Idle]))
  {
    var s' := s.(slots := s.slots[i := Idle]);
    forall b | 0 <= b && b * BSZ < s'.next && b * BSZ < |input|
      ensures Held(s'.slots, b * BSZ) || b in s'.written
    {
      if b !in s.written {
        OtherBlocks(s.slots, i, Idle, b * BSZ);
      }
    }
  }

  lemma ReapWriteKeeps(input: seq<byte>, s: State, i: nat)
    requires Inv(input, s) && Enabled(s, Reap(i)) && s.slots[i].WriteDone?
    ensures Inv(input, ReapSlot(s, i))
  {
    var x := s.slots[i];
    if x.res < 0 || x.res != |x.data| {
      FailureKeeps(input, s, i);
    } else {
      ReissueKeeps(input, s, i);
    }
  }

  /** A block was written: the next read is submitted, unless the end was seen. */
  lemma ReissueKeeps(input: seq<byte>, s: State, i: nat)
    requires Inv(input, s) && Enabled(s, Reap(i)) && s.slots[i].WriteDone? && s.slots[i].res == |s.slots[i].data|
    ensures Inv(input, ReapSlot(s, i))
  {
    var s', x := ReapSlot(s, i), s.slots[i];
    assert SlotOK(input, s, x);
    WriteHere(input, s.output, x.off, x.data);
    ReissueSlots(input, s, s', i);
    ReissueCovers(input, s, s', i);
    ReissueWritten(input, s, s', i);
    ReissueCounts(s, i);
  }

  lemma ReissueCounts(s: State, i: nat)
    requires Enabled(s, Reap(i)) && s.slots[i].WriteDone? && s.slots[i].res == |s.slots[i].data|
    requires s.pending == Count(s.slots) && s.next % BSZ == 0
    ensures var s' := ReapSlot(s, i);
            s'.pending == Count(s'.slots) && s'.next % BSZ == 0 && s'.next >= s.next && s'.eof == s.eof
  {
    CountUpdate(s.slots, i, ReapSlot(s, i).slots[i]);
  }

  lemma ReissueWritten(input: seq<byte>, s: State, s': State, i: nat)
    requires WrittenOK(input, s) && s.next % BSZ == 0 && s.next / BSZ <= QUEUE_DEPTH + |s.written|
    requires Enabled(s, Reap(i)) && s.slots[i].WriteDone? && s.slots[i].res == |s.slots[i].data| && s' == ReapSlot(s, i)
    requires SlotOK(input, s, s.slots[i]) && s.slots[i].off < |input|
    ensures WrittenOK(input, s') && s'.next / BSZ <= QUEUE_DEPTH + |s'.written|
  {
    Multiples(s.slots[i].off, s.next);
    assert |s'.written| == |s.written| + 1;
  }

  lemma ReissueSlots(input: seq<byte>, s: State, s': State, i: nat)
    requires SlotsOK(input, s) && Apart(s.slots) && s.next % BSZ == 0
    requires Enabled(s, Reap(i)) && s.slots[i].WriteDone? && s.slots[i].res == |s.slots[i].data| && s' == ReapSlot(s, i)
    requires WrittenOK(input, s)
    ensures SlotsOK(input, s') && Apart(s'.slots)
  {
    var x := s.slots[i];
    assert SlotOK(input, s, x);
    forall j | 0 <= j < |s'.slots| ensures SlotOK(input, s', s'.slots[j]) {
      assert SlotOK(input, s, s.slots[j]);
      if j != i && InFlight(s.slots[j]) {
        Multiples(x.off, s.slots[j].off);
      }
    }
    forall j, k | 0 <= j < k < |s'.slots| && InFlight(s'.slots[j]) && InFlight(s'.slots[k])
      ensures s'.slots[j].off != s'.slots[k].off
    {
      assert SlotOK(input, s, s.slots[j]) && SlotOK(input, s, s.slots[k]);
    }
  }

  lemma ReissueCovers(input: seq<byte>, s: State, s': State, i: nat)
    requires Covered(input, s) && s.next % BSZ == 0
    requires Enabled(s, Reap(i)) && s.slots[i].WriteDone? && s.slots[i].res == |s.slots[i].data| && s' == ReapSlot(s, i)
    ensures Covered(input, s')
  {
    forall b | 0 <= b && b * BSZ < s'.next && b * BSZ < |input|
      ensures Held(s'.slots, b * BSZ) || b in s'.written
    {
      if b * BSZ < s.next {
        if b !in s'.written {
          OtherBlocks(s.slots, i, s'.slots[i], b * BSZ);
        }
      } else {
        assert InFlight(s'.slots[i]) && s'.slots[i].off == b * BSZ by { Multiples(s.next, b * BSZ); }
      }
    }
  }

  lemma StepKeeps(input: seq<byte>, s: State, a: Step)
    requires Inv(input, s) && Enabled(s, a)
    ensures Inv(input, Apply(input, s, a))
  {
    match a
    case KernelRead(i, ok) => KernelReadKeeps(input, s, i, ok);
    case KernelWrite(i, res) => KernelWriteKeeps(input, s, i, res);
    case Reap(i) =>
      if s.slots[i].ReadDone? {
        ReapReadKeeps(input, s, i);
      } else {
        ReapWriteKeeps(input, s, i);
      }
  }
}
