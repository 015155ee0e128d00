/**
 Open files as the kernel offers them, and `readn`/`writen` of lib/apue_file.cpp.

 `Read` and `Write` transfer any amount up to what was asked for, or fail; their
 bodies choose nondeterministically, so what is proved holds for every sequence of
 short transfers, errors and ends of file.

 Ghost fields record what happened to a file: `results` the raw return value of each
 call, `touched` the positions that `Write` wrote, and `readLog`, for each `Read`, the
 position before it together with the position of the file `beside` it.
 */
module Files {
  import opened Wrappers

  type byte = b: int | 0 <= b < 256

  function Zeros(n: nat): (r: seq<byte>)
    ensures |r| == n && forall i :: 0 <= i < n ==> r[i] == 0
  {
    seq(n, _ => 0)
  }

  /** The content after writing one byte at `pos`; a gap past the end reads as zeros. */
  function Put(content: seq<byte>, pos: nat, b: byte): (r: seq<byte>)
    ensures |r| == if pos < |content| then |content| else pos + 1
    ensures forall i :: 0 <= i < |r| ==> r[i] == if i == pos then b else if i < |content| then content[i] else 0
  {
    if pos < |content| then content[pos := b] else content + Zeros(pos - |content|) + [b]
  }

  /** The content after writing `data` at `pos`. */
  function WriteAt(content: seq<byte>, pos: nat, data: seq<byte>): seq<byte>
    decreases |data|
  {
    if data == [] then content else WriteAt(Put(content, pos, data[0]), pos + 1, data[1..])
  }

  lemma {:induction false} WriteAtIs(content: seq<byte>, pos: nat, data: seq<byte>)
    requires data != []
    ensures var r := WriteAt(content, pos, data);
            && |r| == (if pos + |data| > |content| then pos + |data| else |content|)
            && forall i :: 0 <= i < |r| ==>
                 r[i] == if pos <= i < pos + |data| then data[i - pos] else if i < |content| then content[i] else 0
    decreases |data|
  {
    var c1 := Put(content, pos, data[0]);
    if |data| == 1 {
      assert WriteAt(c1, pos + 1, data[1..]) == c1;
    } else {
      WriteAtIs(c1, pos + 1, data[1..]);
    }
  }

  /** Resizing to `n` bytes, with zeros for what is new. */
  function Truncated(content: seq<byte>, n: nat): (r: seq<byte>)
    ensures |r| == n
    ensures forall i :: 0 <= i < n ==> r[i] == if i < |content| then content[i] else 0
  {
    if n <= |content| then content[..n] else content + Zeros(n - |content|)
  }

  function Max0(r: int): nat {
    if r > 0 then r else 0
  }

  /** The at most `n` bytes of `s` from `from` on. */
  function Bytes(s: seq<byte>, from: nat, n: nat): seq<byte> {
    if from >= |s| then [] else if from + n <= |s| then s[from..from + n] else s[from..]
  }

  ghost function Range(from: nat, to: nat): (r: set<nat>)
    ensures forall i: nat :: i in r <==> from <= i < to
  {
    if from >= to then {} else Range(from, to - 1) + {to - 1}
  }

  class OpenFile {
    var content: seq<byte>
    var pos: nat
    ghost var results: seq<int>
    ghost var touched: set<nat>
    ghost var readLog: seq<(nat, nat)>
    ghost const beside: OpenFile?
    /** No call fails, and nothing but the end of the file makes a call transfer nothing. */
    const reliable: bool
    /** A read returns everything it was asked for, as far as there is that much. */
    const whole: bool

    constructor (content: seq<byte>, reliable: bool, whole: bool, ghost beside: OpenFile?)
      ensures this.content == content && this.reliable == reliable && this.whole == whole && this.beside == beside
      ensures pos == 0 && results == [] && touched == {} && readLog == []
    {
      this.content, this.reliable, this.whole, this.beside := content, reliable, whole, beside;
      this.pos, this.results, this.touched, this.readLog := 0, [], {}, [];
    }

    /** Both positions, as `Read` records them. */
    ghost function Positions(): (nat, nat)
      reads this, beside
    {
      var other: nat := if beside == null then 0 else beside.pos;
      (pos, other)
    }

    /** Returns at most `want` of the bytes at the current position. */
    method Read(want: nat) returns (r: int, data: seq<byte>)
      modifies this`pos, this`results, this`readLog
      ensures results == old(results) + [r] && readLog == old(readLog) + [old(Positions())]
      ensures -1 <= r <= want && |data| == Max0(r) && pos == old(pos) + |data|
      ensures data == Bytes(content, old(pos), |data|)
      ensures reliable && want > 0 ==> r >= 0 && (r == 0 <==> old(pos) >= |content|)
      ensures reliable && whole ==> data == Bytes(content, old(pos), want)
    {
      readLog := readLog + [Positions()];
      var most := if pos >= |content| then 0 else if |content| - pos <= want then |content| - pos else want;
      r :| -1 <= r <= most && (reliable ==> r >= 0 && (most > 0 ==> r > 0)) && (reliable && whole ==> r == most);
      data := Bytes(content, pos, Max0(r));
      pos := pos + |data|;
      results := results + [r];
    }

    /** Writes a prefix of the bytes it is given. */
    method Write(data: seq<byte>) returns (r: int)
      modifies this`pos, this`content, this`results, this`touched
      ensures results == old(results) + [r]
      ensures r <= |data| && pos == old(pos) + Max0(r)
      ensures content == WriteAt(old(content), old(pos), data[..Max0(r)])
      ensures touched == old(touched) + Range(old(pos), pos)
      ensures reliable && data != [] ==> r > 0
    {
      r :| -1 <= r <= |data| && (reliable && data != [] ==> r > 0);
      content := WriteAt(content, pos, data[..Max0(r)]);
      touched := touched + Range(pos, pos + Max0(r));
      pos := pos + Max0(r);
      results := results + [r];
    }

    /** `lseek` to an absolute position. */
    method Seek(to: nat)
      modifies this`pos
      ensures pos == to
    {
      pos := to;
    }

    method Truncate(n: nat)
      modifies this`content
      ensures content == Truncated(old(content), n)
    {
      content := Truncated(content, n);
    }
  }

  /** Calls `from..` of a file: all but possibly the last moved something. */
  ghost predicate Kept(results: seq<int>, from: nat) {
    from <= |results| && forall i :: from <= i < |results| - 1 ==> results[i] > 0
  }

  lemma BytesAppend(s: seq<byte>, from: nat, m: nat, n: nat)
    requires |Bytes(s, from, m)| == m && |Bytes(s, from + m, n)| == n
    ensures Bytes(s, from, m + n) == Bytes(s, from, m) + Bytes(s, from + m, n)
  {
  }

  /** A buffer whose first bytes are overwritten by `data`. */
  function Filled(buf: seq<byte>, data: seq<byte>): seq<byte>
    requires |data| <= |buf|
  {
    data + buf[|data|..]
  }

  /** The copy of `read` into the caller's memory. */
  method Store(buf: array<byte>, ghost was: seq<byte>, ghost got: seq<byte>, at: nat, data: seq<byte>)
    requires at == |got| && at + |data| <= buf.Length == |was|
    requires buf[..] == Filled(was, got)
    modifies buf
    ensures buf[..] == Filled(was, got + data)
  {
    forall i | 0 <= i < |data| {
      buf[at + i] := data[i];
    }
  }

  /** The calls from `from` on all moved something. */
  ghost predicate AllPositive(results: seq<int>, from: nat) {
    from <= |results| && forall i :: from <= i < |results| ==> results[i] > 0
  }

  lemma OneMore(was: seq<int>, results: seq<int>, r: int)
    requires was <= results && AllPositive(results, |was|)
    ensures was <= results + [r] && Kept(results + [r], |was|)
    ensures r > 0 ==> AllPositive(results + [r], |was|)
    ensures (results + [r])[|was|] == if results == was then r else results[|was|]
  {
  }

  /** What has been read into a buffer that held `was`. */
  ghost predicate Stored(fd: OpenFile, buf: array<byte>, start: nat, was: seq<byte>, got: seq<byte>)
    reads fd, buf
  {
    |got| <= |was| && fd.pos == start + |got| && got == Bytes(fd.content, start, |got|) && buf[..] == Filled(was, got)
  }

  /** One `read` of a `readn`. */
  method ReadTurn(fd: OpenFile, buf: array<byte>, nleft: nat, ghost start: nat, ghost was: seq<byte>, ghost got: seq<byte>, at: nat)
      returns (r: int, ghost got': seq<byte>)
    requires Stored(fd, buf, start, was, got) && at == |got| && at + nleft <= buf.Length && nleft > 0
    modifies fd`pos, fd`results, fd`readLog, buf
    ensures fd.results == old(fd.results) + [r] && -1 <= r <= nleft
    ensures |got'| == |got| + Max0(r) && Stored(fd, buf, start, was, got')
    ensures fd.reliable ==> r >= 0 && (r == 0 ==> fd.pos >= |fd.content|)
  {
    var data;
    r, data := fd.Read(nleft);
    Store(buf, was, got, at, data);
    BytesAppend(fd.content, start, |got|, |data|);
    got' := got + data;
  }

  method ReadN(fd: OpenFile, buf: array<byte>, n: nat) returns (res: Option<nat>, ghost got: seq<byte>)
    requires n <= buf.Length
    modifies fd`pos, fd`results, fd`readLog, buf
    ensures old(fd.results) <= fd.results && Kept(fd.results, |old(fd.results)|)
    ensures n > 0 <==> |fd.results| > |old(fd.results)|
    ensures res == if n > 0 && fd.results[|old(fd.results)|] < 0 then None else Some(|got|)
    ensures |got| <= n && fd.pos == old(fd.pos) + |got| && got == Bytes(fd.content, old(fd.pos), |got|)
    ensures buf[..] == Filled(old(buf[..]), got)
    ensures |got| == n || fd.results[|fd.results| - 1] <= 0
    ensures res.None? ==> got == []
    ensures fd.reliable ==> res.Some? && (|got| == n || fd.pos >= |fd.content|)
  {
    got := [];
    var nleft := n;
    ghost var start, calls, was := fd.pos, fd.results, buf[..];
    while nleft > 0
      invariant 0 <= nleft <= n && |got| == n - nleft && Stored(fd, buf, start, was, got)
      invariant calls <= fd.results && AllPositive(fd.results, |calls|) && (fd.results == calls <==> nleft == n)
    {
      ghost var before := fd.results;
      var nread;
      nread, got := ReadTurn(fd, buf, nleft, start, was, got, n - nleft);
      OneMore(calls, before, nread);
      if nread < 0 {
        if nleft == n {
          return None, got;
        } else {
          break;
        }
      } else if nread == 0 {
        break;
      }
      nleft := nleft - nread;
    }
    res := Some(n - nleft);
  }

  lemma WriteMore(content: seq<byte>, start: nat, data: seq<byte>, done: nat, n: nat)
    requires done + n <= |data|
    ensures WriteAt(WriteAt(content, start, data[..done]), start + done, data[done..][..n])
         == WriteAt(content, start, data[..done + n])
  {
    WriteAppend(content, start, data[..done], data[done..][..n]);
    Slices(data, done, n);
  }

  lemma Slices(data: seq<byte>, done: nat, n: nat)
    requires done + n <= |data|
    ensures data[..done] + data[done..][..n] == data[..done + n]
  {
    assert data[done..][..n] == data[done..done + n];
  }

  lemma RangeMore(a: nat, b: nat, c: nat)
    requires a <= b <= c
    ensures Range(a, b) + Range(b, c) == Range(a, c)
  {
  }

  /** What has been written of `data` from `start` on, to a file that held `was`. */
  ghost predicate Written(fd: OpenFile, data: seq<byte>, done: nat, start: nat, was: seq<byte>, marks: set<nat>)
    reads fd
  {
    && done <= |data| && fd.pos == start + done
    && fd.content == WriteAt(was, start, data[..done])
    && fd.touched == marks + Range(start, fd.pos)
  }

  /** One `write` of a `writen`. */
  method WriteTurn(fd: OpenFile, data: seq<byte>, done: nat, ghost start: nat, ghost was: seq<byte>, ghost marks: set<nat>)
      returns (r: int)
    requires Written(fd, data, done, start, was, marks) && done < |data|
    modifies fd`pos, fd`content, fd`results, fd`touched
    ensures fd.results == old(fd.results) + [r] && r <= |data| - done
    ensures Written(fd, data, done + Max0(r), start, was, marks)
    ensures fd.reliable ==> r > 0
  {
    r := fd.Write(data[done..]);
    WriteMore(was, start, data, done, Max0(r));
    RangeMore(start, start + done, fd.pos);
  }

  method WriteN(fd: OpenFile, data: seq<byte>) returns (res: Option<nat>)
    modifies fd`pos, fd`content, fd`results, fd`touched
    ensures old(fd.results) <= fd.results && Kept(fd.results, |old(fd.results)|)
    ensures data != [] <==> |fd.results| > |old(fd.results)|
    ensures res.None? <==> data != [] && fd.results[|old(fd.results)|] < 0
    ensures 0 <= fd.pos - old(fd.pos) <= |data|
    ensures (res == None && fd.pos == old(fd.pos)) || res == Some(fd.pos - old(fd.pos))
    ensures fd.pos - old(fd.pos) == |data| || fd.results[|fd.results| - 1] <= 0
    ensures fd.content == WriteAt(old(fd.content), old(fd.pos), data[..fd.pos - old(fd.pos)])
    ensures fd.touched == old(fd.touched) + Range(old(fd.pos), fd.pos)
    ensures fd.reliable ==> res == Some(|data|)
  {
    var n := |data|;
    var nleft := n;
    ghost var start, calls, was, marks := fd.pos, fd.results, fd.content, fd.touched;
    while nleft > 0
      invariant 0 <= nleft <= n && Written(fd, data, n - nleft, start, was, marks)
      invariant calls <= fd.results && AllPositive(fd.results, |calls|) && (fd.results == calls <==> nleft == n)
    {
      ghost var before := fd.results;
      var nwritten := WriteTurn(fd, data, n - nleft, start, was, marks);
      OneMore(calls, before, nwritten);
      if nwritten < 0 {
        if nleft == n {
          return None;
        } else {
          break;
        }
      } else if nwritten == 0 {
        break;
      }
      nleft := nleft - nwritten;
    }
    return Some(n - nleft);
  }

  /** Two writes in a row are one write of the concatenation. */
  lemma {:induction false} WriteAppend(content: seq<byte>, pos: nat, a: seq<byte>, b: seq<byte>)
    ensures WriteAt(WriteAt(content, pos, a), pos + |a|, b) == WriteAt(content, pos, a + b)
    decreases |a|
  {
    if a == [] {
      assert a + b == b;
    } else {
      WriteAppend(Put(content, pos, a[0]), pos + 1, a[1..], b);
      assert (a + b)[1..] == a[1..] + b;
    }
  }
}
