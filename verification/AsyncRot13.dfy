/**
 The asynchronous rot13 pipeline of 14/8_convert_rot13_io_uring.cpp.

 Sixteen request slots share one read offset and one end-of-file flag.  Between
 submission and reaping the kernel performs each request at a moment of its own
 choosing, so a step is either the kernel performing one queued request or the
 program reaping one finished request, in any order.  A request may fail and a
 write may be short; the program then exits, which `failed` records.  Reads of the
 input return every byte there is up to the block size.
 */
module AsyncRot13 {
  import opened Files
  import opened Rot13

  const QUEUE_DEPTH := 16

  datatype Slot =
    | Idle
    | Reading(off: nat)
    | ReadDone(off: nat, data: seq<byte>, res: int)
    | Writing(off: nat, data: seq<byte>)
    | WriteDone(off: nat, data: seq<byte>, res: int)

  /** `written` is auxiliary: the blocks whose write has been reaped. */
  datatype State = State(output: seq<byte>, slots: seq<Slot>, next: nat, pending: int, eof: bool, failed: bool, written: set<nat>)

  datatype Step =
    | KernelRead(i: nat, ok: bool)
    | KernelWrite(i: nat, res: int)
    | Reap(i: nat)

  predicate InFlight(x: Slot) {
    !x.Idle?
  }

  predicate Enabled(s: State, a: Step) {
    && !s.failed && a.i < |s.slots|
    && match a
       case KernelRead(i, _) => s.slots[i].Reading?
       case KernelWrite(i, res) => s.slots[i].Writing? && -1 <= res <= |s.slots[i].data|
       case Reap(i) => s.slots[i].ReadDone? || s.slots[i].WriteDone?
  }

  /** Lines 38-49. */
  function QueueRead(s: State, i: nat): State
    requires i < |s.slots|
  {
    if s.eof then s.(slots := s.slots[i := Idle])
    else s.(slots := s.slots[i := Reading(s.next)], next := s.next + BSZ, pending := s.pending + 1)
  }

  /** Lines 51-59. */
  function QueueWrite(s: State, i: nat, off: nat, data: seq<byte>): State
    requires i < |s.slots|
  {
    s.(slots := s.slots[i := Writing(off, data)], pending := s.pending + 1)
  }

  /** One turn of the completion loop, lines 86-121. */
  function ReapSlot(s: State, i: nat): State
    requires i < |s.slots| && (s.slots[i].ReadDone? || s.slots[i].WriteDone?)
  {
    var s1 := s.(pending := s.pending - 1);
    match s.slots[i]
    case ReadDone(off, data, res) =>
      if res < 0 then s1.(failed := true)
      else if res > 0 then QueueWrite(s1.(eof := s.eof || res < BSZ), i, off, TranslateAll(data))
      else s1.(eof := true, slots := s.slots[i := Idle])
    case WriteDone(off, data, res) =>
      if res < 0 || res != |data| then s1.(failed := true)
      else QueueRead(s1.(written := s.written + {off / BSZ}), i)
  }

  function Apply(input: seq<byte>, s: State, a: Step): State
    requires Enabled(s, a)
  {
    match a
    case KernelRead(i, ok) =>
      var off := s.slots[i].off;
      var data := if ok then Bytes(input, off, BSZ) else [];
      s.(slots := s.slots[i := ReadDone(off, data, if ok then |data| else -1)])
    case KernelWrite(i, res) =>
      var x := s.slots[i];
      var put := if res > 0 then WriteAt(s.output, x.off, x.data[..res]) else s.output;
      s.(output := put, slots := s.slots[i := WriteDone(x.off, x.data, res)])
    case Reap(i) => ReapSlot(s, i)
  }

  /** Lines 79-84: every slot starts with a read. */
  function Start(k: nat): State
    requires k <= QUEUE_DEPTH
  {
    if k == 0 then State([], seq(QUEUE_DEPTH, _ => Idle), 0, 0, false, false, {})
    else StartNext(Start(k - 1), k - 1)
  }

  function StartNext(s: State, i: nat): State {
    if i < |s.slots| then QueueRead(s, i) else s
  }
}
