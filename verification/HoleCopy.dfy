/** The hole-preserving copy of 4/11_cp_holes.cpp. */
module HoleCopy {
  import opened Wrappers
  import opened Files

  const BUFF_SIZE := 4096

  /** Padded with zeros to the length of `c`, `d` is `c`. */
  ghost predicate Holey(d: seq<byte>, c: seq<byte>) {
    |d| <= |c| && forall i :: 0 <= i < |c| ==> c[i] == if i < |d| then d[i] else 0
  }

  lemma HoleyWrite(d: seq<byte>, c: seq<byte>, x: seq<byte>)
    requires Holey(d, c) && x != []
    ensures Holey(WriteAt(d, |c|, x), c + x)
  {
    WriteAtIs(d, |c|, x);
  }

  lemma HoleySkip(d: seq<byte>, c: seq<byte>, x: seq<byte>)
    requires Holey(d, c) && forall i :: 0 <= i < |x| ==> x[i] == 0
    ensures Holey(d, c + x)
  {
  }

  /** `touched` is `marks` and the positions of the nonzero bytes of `c`. */
  ghost predicate Nonzeros(touched: set<nat>, marks: set<nat>, c: seq<byte>) {
    forall i: nat :: i in touched <==> i in marks || (i < |c| && c[i] != 0)
  }

  /** `std::find` for a zero byte. */
  method FindZero(data: seq<byte>, from: nat) returns (k: nat)
    requires from <= |data|
    ensures from <= k <= |data|
    ensures forall i :: from <= i < k ==> data[i] != 0
    ensures k < |data| ==> data[k] == 0
  {
    k := from;
    while k < |data| && data[k] != 0
      invariant from <= k <= |data|
      invariant forall i :: from <= i < k ==> data[i] != 0
    {
      k := k + 1;
    }
  }

  /** `std::find_if` for a nonzero byte. */
  method FindNonzero(data: seq<byte>, from: nat) returns (k: nat)
    requires from <= |data|
    ensures from <= k <= |data|
    ensures forall i :: from <= i < k ==> data[i] == 0
    ensures k < |data| ==> data[k] != 0
  {
    k := from;
    while k < |data| && data[k] == 0
      invariant from <= k <= |data|
      invariant forall i :: from <= i < k ==> data[i] == 0
    {
      k := k + 1;
    }
  }

  /** The destination after the source bytes `c`; `marks` are the positions written before. */
  ghost predicate Copied(dst: OpenFile, marks: set<nat>, c: seq<byte>)
    reads dst
  {
    dst.pos == |c| && Holey(dst.content, c) && Nonzeros(dst.touched, marks, c)
  }

  /** Write the bytes of `x`, all of them nonzero. */
  method WriteRun(dst: OpenFile, x: seq<byte>, ghost marks: set<nat>, ghost c: seq<byte>)
    requires dst.reliable && Copied(dst, marks, c)
    requires forall i :: 0 <= i < |x| ==> x[i] != 0
    modifies dst`pos, dst`content, dst`results, dst`touched
    ensures Copied(dst, marks, c + x)
  {
    if |x| > 0 {
      var res := WriteN(dst, x);
      assert x[..|x|] == x;
      HoleyWrite(old(dst.content), c, x);
    } else {
      assert c + x == c;
    }
  }

  /** One block of the source: the position moves by its size, and only its nonzero bytes are written. */
  method CopyBlock(dst: OpenFile, data: seq<byte>, ghost marks: set<nat>, ghost c: seq<byte>)
    requires dst.reliable && Copied(dst, marks, c)
    modifies dst`pos, dst`content, dst`results, dst`touched
    ensures Copied(dst, marks, c + data)
  {
    var done := 0;
    assert c + data[..0] == c;
    while done < |data|
      invariant 0 <= done <= |data|
      invariant Copied(dst, marks, c + data[..done])
    {
      var zero := FindZero(data, done);
      WriteRun(dst, data[done..zero], marks, c + data[..done]);
      assert c + data[..done] + data[done..zero] == c + data[..zero];
      if zero == |data| {
        done := zero;
        break;
      }
      var next := FindNonzero(data, zero);
      SkipRun(dst, next - zero, marks, c + data[..zero], data[zero..next]);
      assert c + data[..zero] + data[zero..next] == c + data[..next];
      done := next;
    }
    assert data[..done] == data;
  }

  /** `lseek` over the zeros `x`. */
  method SkipRun(dst: OpenFile, n: nat, ghost marks: set<nat>, ghost c: seq<byte>, ghost x: seq<byte>)
    requires Copied(dst, marks, c) && n == |x| && forall i :: 0 <= i < |x| ==> x[i] == 0
    modifies dst`pos
    ensures Copied(dst, marks, c + x)
  {
    HoleySkip(dst.content, c, x);
    dst.Seek(dst.pos + n);
  }

  /** From read `from` on, the two positions were the same at every read. */
  ghost predicate InStep(log: seq<(nat, nat)>, from: nat) {
    from <= |log| && forall i :: from <= i < |log| ==> log[i].0 == log[i].1
  }

  /**
   The copy.  The destination ends up equal to the source, the positions written are
   those of the nonzero bytes, and whenever the source is read, after each block and at
   the end of the file, the destination stands where the source does.
   */
  method CopyHoles(src: OpenFile, dst: OpenFile)
    requires src != dst && src.reliable && dst.reliable && src.beside == dst
    requires src.pos == 0 && dst.pos == 0 && dst.content == []
    modifies src`pos, src`results, src`readLog, dst`pos, dst`content, dst`results, dst`touched
    ensures dst.content == src.content == old(src.content)
    ensures forall i: nat :: i in dst.touched <==> i in old(dst.touched) || (i < |src.content| && src.content[i] != 0)
    ensures dst.pos == src.pos == |src.content|
    ensures |src.readLog| - |old(src.readLog)| == |src.results| - |old(src.results)| > 0
    ensures InStep(src.readLog, |old(src.readLog)|) && src.readLog[|src.readLog| - 1] == (|src.content|, |src.content|)
  {
    var total := 0;
    ghost var c, marks := src.content, dst.touched;
    while true
      invariant src.pos == total <= |c| && src.content == c
      invariant Copied(dst, marks, c[..total])
      invariant InStep(src.readLog, |old(src.readLog)|)
      invariant |src.readLog| - |old(src.readLog)| == |src.results| - |old(src.results)|
      decreases |c| - total
    {
      var r, data := src.Read(BUFF_SIZE);
      if r == 0 {
        break;
      }
      assert data == c[total..total + r];
      CopyBlock(dst, data, marks, c[..total]);
      assert c[..total] + data == c[..total + r];
      total := total + r;
    }
    assert c[..total] == c;
    dst.Truncate(total);
  }
}
