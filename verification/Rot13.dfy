/** The rot13 filter of 14/7_convert_rot13.cpp: one buffer, read and written in turn. */
module Rot13 {
  import opened Wrappers
  import opened Files

  const BSZ := 4096

  predicate IsAlpha(c: byte) {
    'A' as int <= c <= 'Z' as int || 'a' as int <= c <= 'z' as int
  }

  function Translate(c: byte): byte {
    if IsAlpha(c) then
      if c >= 'n' as int then c - 13
      else if c >= 'a' as int then c + 13
      else if c >= 'N' as int then c - 13
      else c + 13
    else c
  }

  /** The four-way comparison is the rotation by half the alphabet, within either case. */
  lemma TranslateRotates(c: byte)
    ensures Translate(c) ==
            (if 'a' as int <= c <= 'z' as int then 97 + (c - 97 + 13) % 26
             else if 'A' as int <= c <= 'Z' as int then 65 + (c - 65 + 13) % 26
             else c)
    ensures Translate(Translate(c)) == c
  {
  }

  function TranslateAll(s: seq<byte>): (r: seq<byte>)
    ensures |r| == |s| && forall i :: 0 <= i < |s| ==> r[i] == Translate(s[i])
  {
    seq(|s|, i requires 0 <= i < |s| => Translate(s[i]))
  }

  lemma TranslateAppend(a: seq<byte>, b: seq<byte>)
    ensures TranslateAll(a + b) == TranslateAll(a) + TranslateAll(b)
  {
  }

  /** Filtering a file twice gives it back. */
  lemma TranslateTwice(s: seq<byte>)
    ensures TranslateAll(TranslateAll(s)) == s
  {
    forall i | 0 <= i < |s| ensures TranslateAll(TranslateAll(s))[i] == s[i] {
      TranslateRotates(s[i]);
    }
  }

  /** The loop of lines 30-31, in place. */
  method TranslateBuffer(buf: array<byte>, n: nat)
    requires n <= buf.Length
    modifies buf
    ensures buf[..n] == TranslateAll(old(buf[..n])) && buf[n..] == old(buf[n..])
  {
    var i := 0;
    while i < n
      invariant 0 <= i <= n
      invariant forall k :: 0 <= k < i ==> buf[k] == Translate(old(buf[k]))
      invariant forall k :: i <= k < buf.Length ==> buf[k] == old(buf[k])
    {
      buf[i] := Translate(buf[i]);
      i := i + 1;
    }
  }

  lemma AppendAtEnd(content: seq<byte>, data: seq<byte>)
    ensures WriteAt(content, |content|, data) == content + data
  {
    if data != [] {
      WriteAtIs(content, |content|, data);
    }
  }

  method Fill(buf: array<byte>, data: seq<byte>)
    requires |data| <= buf.Length
    modifies buf
    ensures buf[..|data|] == data
  {
    forall i | 0 <= i < |data| {
      buf[i] := data[i];
    }
  }

  /** Lines 30-34 for one buffer. */
  method ConvertBuffer(ofd: OpenFile, buf: array<byte>, n: nat)
    requires n <= buf.Length && ofd.reliable && ofd.pos == |ofd.content|
    modifies buf, ofd`pos, ofd`content, ofd`results, ofd`touched
    ensures ofd.content == old(ofd.content) + TranslateAll(old(buf[..n])) && ofd.pos == |ofd.content|
  {
    TranslateBuffer(buf, n);
    ghost var data := buf[..n];
    AppendAtEnd(ofd.content, data);
    var written := WriteN(ofd, buf[..n]);
    assert data[..|data|] == data;
  }

  lemma NextBlock(s: seq<byte>, done: nat, n: nat)
    requires done <= |s| && |Bytes(s, done, n)| == n
    ensures done + n <= |s| && s[..done] + Bytes(s, done, n) == s[..done + n]
    ensures TranslateAll(s[..done + n]) == TranslateAll(s[..done]) + TranslateAll(Bytes(s, done, n))
  {
    TranslateAppend(s[..done], Bytes(s, done, n));
  }

  /** Whatever the sizes of the reads and writes, as long as none fails. */
  method Convert(ifd: OpenFile, ofd: OpenFile)
    requires ifd != ofd && ifd.reliable && ofd.reliable
    requires ifd.pos == 0 && ofd.pos == 0 && ofd.content == []
    modifies ifd`pos, ifd`results, ifd`readLog, ofd`pos, ofd`content, ofd`results, ofd`touched
    ensures ofd.content == TranslateAll(ifd.content)
  {
    var buf := new byte[BSZ];
    var n, data := ifd.Read(BSZ);
    ghost var done := 0;
    while n > 0
      invariant 0 <= n <= BSZ && |data| == n && data == Bytes(ifd.content, done, n)
      invariant 0 <= done <= |ifd.content| && ifd.pos == done + n && (n == 0 ==> done == |ifd.content|)
      invariant ofd.content == TranslateAll(ifd.content[..done]) && ofd.pos == done
      decreases |ifd.content| - done
    {
      Fill(buf, data);
      ConvertBuffer(ofd, buf, n);
      NextBlock(ifd.content, done, n);
      done := done + n;
      n, data := ifd.Read(BSZ);
    }
    assert ifd.content[..done] == ifd.content;
  }

  /** The filter applied to its own output gives the file back. */
  method ConvertTwice(ifd: OpenFile, mid: OpenFile, ofd: OpenFile)
    requires ifd != mid && mid != ofd && ifd != ofd && ifd.reliable && mid.reliable && ofd.reliable
    requires ifd.pos == 0 && mid.pos == 0 && mid.content == [] && ofd.pos == 0 && ofd.content == []
    modifies ifd`pos, ifd`results, ifd`readLog, mid`pos, mid`content, mid`results, mid`touched, mid`readLog, ofd`pos, ofd`content, ofd`results, ofd`touched
    ensures ofd.content == ifd.content == old(ifd.content)
  {
    Convert(ifd, mid);
    mid.Seek(0);
    Convert(mid, ofd);
    TranslateTwice(ifd.content);
  }
}
