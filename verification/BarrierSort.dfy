/**
 The chunk arithmetic and the k-way merge of 11/11_usage_barrier.cpp.

 `merge` uses INT_MAX both as a value and as the "nothing found" sentinel, so once
 only INT_MAX is left it keeps advancing cursor 0 whatever that points at.  The
 merge is proved correct nevertheless, for all contents.
 */
module BarrierSort {
  const INT_MAX := 0x7fff_ffff
  const SIZE_T := 0x1_0000_0000_0000_0000

  // ----- chunks -----

  /** Lines 27-28. */
  function PerThread(sz: nat, threads: nat): nat
    requires threads > 0
  {
    var c := (sz + threads - 1) / threads;
    if c == 0 then 1 else c
  }

  function Start(c: nat, i: nat): nat {
    i * c
  }

  function End(c: nat, i: nat, sz: nat): nat {
    if i * c + c < sz then i * c + c else sz
  }

  /** Line 50: an unsigned subtraction. */
  function CountOf(c: nat, i: nat, sz: nat): nat {
    (End(c, i, sz) - Start(c, i)) % SIZE_T
  }

  lemma PerThreadBounds(sz: nat, threads: nat)
    requires threads > 0
    ensures var c := PerThread(sz, threads); c >= 1 && threads * c >= sz && (sz > 0 ==> threads * (c - 1) < sz) && (sz == 0 ==> c == 1)
  {
    var q := (sz + threads - 1) / threads;
    var r := (sz + threads - 1) % threads;
    assert sz + threads - 1 == q * threads + r;
    assert threads * q == q * threads && threads * (q - 1) == q * threads - threads;
  }

  lemma MulMono(a: nat, b: nat, c: nat)
    requires a <= b
    ensures a * c <= b * c
  {
  }

  lemma DivBounds(p: nat, c: nat) returns (i: nat)
    requires c > 0
    ensures i * c <= p < i * c + c
  {
    i := p / c;
  }

  lemma OneChunk(c: nat, i: nat, j: nat, p: nat)
    requires i * c <= p < i * c + c && j * c <= p < j * c + c
    ensures i == j
  {
    assert (j + 1) * c == j * c + c && (i + 1) * c == i * c + c;
    if j < i {
      MulMono(j + 1, i, c);
    } else if j > i {
      MulMono(i + 1, j, c);
    }
  }

  /** Every position is in exactly one chunk. */
  lemma ChunksPartition(sz: nat, threads: nat, p: nat) returns (i: nat)
    requires threads > 0 && p < sz
    ensures var c := PerThread(sz, threads);
            && i < threads && Start(c, i) <= p < End(c, i, sz)
            && forall j: nat :: Start(c, j) <= p < End(c, j, sz) ==> j == i
  {
    var c := PerThread(sz, threads);
    PerThreadBounds(sz, threads);
    i := DivBounds(p, c);
    if i >= threads {
      MulMono(threads, i, c);
    }
    forall j: nat | Start(c, j) <= p < End(c, j, sz) ensures j == i {
      OneChunk(c, i, j, p);
    }
  }

  /** Every thread is given work exactly when the last one is. */
  lemma AllNonemptyIff(sz: nat, threads: nat)
    requires threads > 0
    ensures var c := PerThread(sz, threads);
            (forall i: nat :: i < threads ==> Start(c, i) < End(c, i, sz)) <==> (threads - 1) * c < sz
  {
    var c := PerThread(sz, threads);
    PerThreadBounds(sz, threads);
    if (threads - 1) * c < sz {
      forall i: nat | i < threads ensures Start(c, i) < End(c, i, sz) {
        MulMono(i, threads - 1, c);
      }
    } else {
      assert Start(c, threads - 1) >= End(c, threads - 1, sz);
    }
  }

  /** More than (n-1)^2 elements are enough for n threads. */
  lemma EnoughElements(sz: nat, threads: nat)
    requires threads > 0 && sz > (threads - 1) * (threads - 1)
    ensures (threads - 1) * PerThread(sz, threads) < sz
  {
    var c := PerThread(sz, threads);
    PerThreadBounds(sz, threads);
    if c <= threads - 1 {
      MulMono(c, threads - 1, threads - 1);
    } else {
      assert threads * (c - 1) == threads * c - threads;
      assert (threads - 1) * c == threads * c - c;
    }
  }

  /** The bound is tight: with exactly (n-1)^2 elements the last of n threads gets none. */
  lemma TooFewElements(threads: nat)
    requires threads >= 2
    ensures var sz := (threads - 1) * (threads - 1);
            var c := PerThread(sz, threads);
            c == threads - 1 && Start(c, threads - 1) == sz && CountOf(c, threads - 1, sz) == 0
  {
    var m := threads - 1;
    var sz := m * m;
    assert sz + threads - 1 == threads * m by { assert threads * m == m * m + m; }
    assert (threads * m) / threads == m by { DivExact(threads, m); }
  }

  lemma DivExact(n: nat, q: nat)
    requires n > 0
    ensures (n * q) / n == q
  {
    var r := (n * q) / n;
    assert n * r <= n * q < n * r + n;
    if r < q {
      MulMono(r + 1, q, n);
    } else if r > q {
      MulMono(q + 1, r, n);
    }
  }

  /** A chunk that would start past the end is not empty: its count wraps around. */
  lemma PastTheEndWraps(c: nat, i: nat, sz: nat)
    requires sz < i * c < SIZE_T
    ensures CountOf(c, i, sz) == SIZE_T - (i * c - sz) > sz
  {
    assert End(c, i, sz) == sz;
    var d := i * c - sz;
    assert 0 < d < SIZE_T && (-d) % SIZE_T == SIZE_T - d;
  }

  // ----- merge -----

  ghost predicate Sorted(s: seq<int>) {
    forall i, j :: 0 <= i < j < |s| ==> s[i] <= s[j]
  }

  ghost predicate SortedRange(v: seq<int>, lo: nat, hi: nat) {
    forall i, j :: lo <= i < j < hi && j < |v| ==> v[i] <= v[j]
  }

  ghost predicate ChunksSorted(v: seq<int>, threads: nat, c: nat) {
    forall i :: 0 <= i < threads ==> SortedRange(v, Start(c, i), End(c, i, |v|))
  }

  /** What one cursor still has to deliver, and what all do. */
  function Left(v: seq<int>, cur: nat, end: nat): multiset<int> {
    if cur <= end <= |v| then multiset(v[cur..end]) else multiset{}
  }

  function Parts(v: seq<int>, cur: seq<nat>, end: seq<nat>): (r: seq<multiset<int>>)
    requires |cur| == |end|
    ensures |r| == |cur|
  {
    seq(|cur|, i requires 0 <= i < |cur| => Left(v, cur[i], end[i]))
  }

  function Sum(parts: seq<multiset<int>>): multiset<int> {
    if parts == [] then multiset{} else Sum(parts[..|parts| - 1]) + parts[|parts| - 1]
  }

  lemma {:induction false} SumUpdate(parts: seq<multiset<int>>, j: nat, m: multiset<int>, x: multiset<int>)
    requires j < |parts| && parts[j] == m + x
    ensures Sum(parts) == Sum(parts[j := m]) + x
  {
    var n := |parts| - 1;
    var parts' := parts[j := m];
    if j == n {
      assert parts'[..n] == parts[..n];
    } else {
      assert parts'[..n] == parts[..n][j := m];
      SumUpdate(parts[..n], j, m, x);
    }
  }

  lemma {:induction false} SumMember(parts: seq<multiset<int>>, x: int) returns (i: nat)
    requires x in Sum(parts)
    ensures i < |parts| && x in parts[i]
  {
    var n := |parts| - 1;
    if x in parts[n] {
      i := n;
    } else {
      i := SumMember(parts[..n], x);
    }
  }

  /** The prefixes `cuts[0] <= cuts[1] <= ...` of `v` add up. */
  lemma {:induction false} SumChunks(v: seq<int>, parts: seq<multiset<int>>, cuts: seq<nat>)
    requires |cuts| == |parts| + 1 && cuts[0] == 0
    requires forall i :: 0 <= i < |parts| ==> ChunkPart(v, parts, cuts, i)
    ensures cuts[|parts|] <= |v| && Sum(parts) == multiset(v[..cuts[|parts|]])
  {
    var n := |parts| - 1;
    if parts == [] {
      assert v[..0] == [];
    } else {
      assert ChunkPart(v, parts, cuts, n);
      var parts', cuts' := parts[..n], cuts[..n + 1];
      forall i | 0 <= i < n ensures ChunkPart(v, parts', cuts', i) {
        assert ChunkPart(v, parts, cuts, i);
      }
      SumChunks(v, parts', cuts');
      assert v[..cuts[n + 1]] == v[..cuts[n]] + v[cuts[n]..cuts[n + 1]];
    }
  }

  ghost predicate ChunkPart(v: seq<int>, parts: seq<multiset<int>>, cuts: seq<nat>, i: nat) {
    i < |parts| && i + 1 < |cuts| && cuts[i] <= cuts[i + 1] <= |v| && parts[i] == multiset(v[cuts[i]..cuts[i + 1]])
  }

  function Cut(c: nat, sz: nat, k: nat): nat {
    if k * c < sz then k * c else sz
  }

  /** Cursor `i` stands at the start of chunk `i`. */
  ghost predicate AtChunk(cur: seq<nat>, end: seq<nat>, c: nat, sz: nat, i: nat) {
    i < |cur| && i < |end| && cur[i] == Start(c, i) && end[i] == End(c, i, sz)
  }

  lemma LeftOfChunk(v: seq<int>, c: nat, i: nat)
    ensures Cut(c, |v|, i) <= Cut(c, |v|, i + 1) <= |v|
    ensures Left(v, Start(c, i), End(c, i, |v|)) == multiset(v[Cut(c, |v|, i)..Cut(c, |v|, i + 1)])
  {
    assert (i + 1) * c == i * c + c;
  }

  lemma LeftAtStart(v: seq<int>, cur: seq<nat>, end: seq<nat>, c: nat)
    requires |cur| == |end| && |cur| * c >= |v|
    requires forall i :: 0 <= i < |cur| ==> AtChunk(cur, end, c, |v|, i)
    ensures Sum(Parts(v, cur, end)) == multiset(v)
  {
    var n := |cur|;
    var cuts := seq(n + 1, i requires 0 <= i < n + 1 => Cut(c, |v|, i));
    forall i | 0 <= i < n ensures ChunkPart(v, Parts(v, cur, end), cuts, i) {
      assert AtChunk(cur, end, c, |v|, i);
      LeftOfChunk(v, c, i);
    }
    SumChunks(v, Parts(v, cur, end), cuts);
    assert v[..cuts[n]] == v;
  }

  lemma LeftAdvance(v: seq<int>, cur: seq<nat>, end: seq<nat>, j: nat)
    requires j < |cur| == |end| && cur[j] < end[j] <= |v|
    ensures Sum(Parts(v, cur, end)) == Sum(Parts(v, cur[j := cur[j] + 1], end)) + multiset{v[cur[j]]}
  {
    var parts, m := Parts(v, cur, end), Left(v, cur[j] + 1, end[j]);
    assert v[cur[j]..end[j]] == [v[cur[j]]] + v[cur[j] + 1..end[j]];
    assert parts[j] == m + multiset{v[cur[j]]};
    assert Parts(v, cur[j := cur[j] + 1], end) == parts[j := m];
    SumUpdate(parts, j, m, multiset{v[cur[j]]});
  }

  /** Whatever is left lies under some cursor. */
  lemma LeftSomewhere(v: seq<int>, cur: seq<nat>, end: seq<nat>, x: int) returns (i: nat, p: nat)
    requires |cur| == |end| && x in Sum(Parts(v, cur, end))
    ensures i < |cur| && cur[i] <= p < end[i] <= |v| && v[p] == x
  {
    i := SumMember(Parts(v, cur, end), x);
    var q :| 0 <= q < |v[cur[i]..end[i]]| && v[cur[i]..end[i]][q] == x;
    p := cur[i] + q;
  }

  /** What `merge` knows of its cursors: they stay in sorted ranges of the vector. */
  ghost predicate CursorsOK(v: seq<int>, cur: seq<nat>, end: seq<nat>) {
    && |cur| == |end| > 0
    && AllInts(v)
    && (forall i :: 0 <= i < |cur| ==> CursorOK(v, cur, end, i))
  }

  ghost predicate AllInts(v: seq<int>) {
    forall i :: 0 <= i < |v| ==> v[i] <= 0x7fff_ffff
  }

  ghost predicate CursorOK(v: seq<int>, cur: seq<nat>, end: seq<nat>, i: nat) {
    i < |cur| && i < |end| && end[i] <= |v| && SortedRange(v, cur[i], end[i])
  }

  ghost predicate NotBelow(v: seq<int>, cur: seq<nat>, end: seq<nat>, m: int) {
    forall i :: 0 <= i < |cur| ==> HeadNotBelow(v, cur, end, m, i)
  }

  ghost predicate HeadNotBelow(v: seq<int>, cur: seq<nat>, end: seq<nat>, m: int, i: nat) {
    i < |cur| && i < |end| && (cur[i] < end[i] <= |v| ==> m <= v[cur[i]])
  }

  // ----- the merge as a function -----

  /** The least value under the first `i` cursors and the first cursor it is under, or the sentinel and cursor 0. */
  function Least(v: seq<int>, cur: seq<nat>, end: seq<nat>, i: nat): (r: (int, nat))
    requires i <= |cur| == |end|
    ensures r.1 == 0 || r.1 < i
  {
    if i == 0 then (INT_MAX, 0)
    else
      var (m, j) := Least(v, cur, end, i - 1);
      if cur[i - 1] < end[i - 1] <= |v| && v[cur[i - 1]] < m then (v[cur[i - 1]], i - 1) else (m, j)
  }

  /** The result of the loop, from the cursors `cur` and the values pushed back so far on. */
  function MergeFrom(v: seq<int>, cur: seq<nat>, end: seq<nat>, result: seq<int>): seq<int>
    requires |cur| == |end|
    decreases |v| - |result|
  {
    if |result| >= |v| || cur == [] then result
    else
      var (m, j) := Least(v, cur, end, |cur|);
      MergeFrom(v, cur[j := cur[j] + 1], end, result + [m])
  }

  /** What `merge` makes of the vector. */
  function Merged(v: seq<int>, threads: nat, c: nat): seq<int> {
    MergeFrom(v, Starts(c, threads), Ends(c, threads, |v|), [])
  }

  ghost predicate LeastOK(v: seq<int>, cur: seq<nat>, end: seq<nat>, m: int, j: nat) {
    && m <= INT_MAX && j < |cur| == |end|
    && (m < INT_MAX ==> cur[j] < end[j] <= |v| && v[cur[j]] == m)
    && (m == INT_MAX ==> j == 0)
  }

  lemma {:induction false} LeastIs(v: seq<int>, cur: seq<nat>, end: seq<nat>, i: nat)
    requires i <= |cur| == |end| && cur != []
    ensures var (m, j) := Least(v, cur, end, i);
            LeastOK(v, cur, end, m, j) && forall k :: 0 <= k < i ==> HeadNotBelow(v, cur, end, m, k)
  {
    if i > 0 {
      LeastIs(v, cur, end, i - 1);
      var (m, j) := Least(v, cur, end, i - 1);
      var (m', j') := Least(v, cur, end, i);
      forall k | 0 <= k < i ensures HeadNotBelow(v, cur, end, m', k) {
        if k < i - 1 { assert HeadNotBelow(v, cur, end, m, k); }
      }
    }
  }

  /** Lines 91-101: the least value under a cursor, or the sentinel and cursor 0. */
  method FindMin(v: seq<int>, cur: array<nat>, end: array<nat>) returns (minVal: int, minIdx: nat)
    requires CursorsOK(v, cur[..], end[..])
    ensures (minVal, minIdx) == Least(v, cur[..], end[..], cur.Length)
    ensures minVal <= INT_MAX && minIdx < cur.Length && NotBelow(v, cur[..], end[..], minVal)
    ensures minVal < INT_MAX ==> cur[minIdx] < end[minIdx] <= |v| && v[cur[minIdx]] == minVal
    ensures minVal == INT_MAX ==> minIdx == 0
  {
    minVal, minIdx := INT_MAX, 0;
    ghost var heads, ends := cur[..], end[..];
    var i := 0;
    while i < cur.Length
      invariant 0 <= i <= cur.Length && (minVal, minIdx) == Least(v, heads, ends, i)
    {
      assert CursorOK(v, heads, ends, i);
      if cur[i] < end[i] {
        var val := v[cur[i]];
        if val < minVal {
          minVal := val;
          minIdx := i;
        }
      }
      i := i + 1;
    }
    LeastIs(v, heads, ends, i);
  }

  // ----- the two phases of the merge -----

  /** Nothing but INT_MAX is left under any cursor. */
  ghost predicate OnlyMaxLeft(v: seq<int>, cur: seq<nat>, end: seq<nat>) {
    forall i :: 0 <= i < |cur| ==> MaxFrom(v, cur, end, i)
  }

  ghost predicate MaxFrom(v: seq<int>, cur: seq<nat>, end: seq<nat>, i: nat) {
    i < |cur| && i < |end| && forall p :: cur[i] <= p < end[i] && p < |v| ==> v[p] == INT_MAX
  }

  ghost predicate OnlyMax(m: multiset<int>) {
    forall x :: x in m ==> x == INT_MAX
  }

  ghost predicate Below(s: seq<int>, m: multiset<int>) {
    forall i, x :: 0 <= i < |s| && x in m ==> s[i] <= x
  }

  /**
   `rest` is what the result still lacks.  While the cursors are exact it is what lies
   under them; in the tail they no longer are, but then only INT_MAX is missing.
   */
  ghost predicate MergeInv(v: seq<int>, cur: seq<nat>, end: seq<nat>, result: seq<int>, rest: multiset<int>, tail: bool) {
    && CursorsOK(v, cur, end)
    && multiset(result) + rest == multiset(v)
    && Sorted(result) && Below(result, rest)
    && if tail then OnlyMax(rest) && OnlyMaxLeft(v, cur, end) else rest == Sum(Parts(v, cur, end))
  }

  /** The least head is the least of all that is left. */
  lemma HeadsAreLeast(v: seq<int>, cur: seq<nat>, end: seq<nat>, m: int, x: int)
    requires CursorsOK(v, cur, end) && NotBelow(v, cur, end, m) && x in Sum(Parts(v, cur, end))
    ensures m <= x
  {
    var i, p := LeftSomewhere(v, cur, end, x);
    assert CursorOK(v, cur, end, i) && HeadNotBelow(v, cur, end, m, i);
  }

  lemma CursorsAdvance(v: seq<int>, cur: seq<nat>, end: seq<nat>, j: nat)
    requires CursorsOK(v, cur, end) && j < |cur|
    ensures CursorsOK(v, cur[j := cur[j] + 1], end)
  {
    var cur' := cur[j := cur[j] + 1];
    forall i | 0 <= i < |cur'| ensures CursorOK(v, cur', end, i) {
      assert CursorOK(v, cur, end, i);
    }
  }

  lemma Extended(v: seq<int>, result: seq<int>, rest: multiset<int>, m: int)
    requires multiset(result) + rest == multiset(v) && Sorted(result) && Below(result, rest)
    requires m in rest && forall x :: x in rest ==> m <= x
    ensures multiset(result + [m]) + (rest - multiset{m}) == multiset(v)
    ensures Sorted(result + [m]) && Below(result + [m], rest - multiset{m})
  {
    assert multiset(result + [m]) == multiset(result) + multiset{m};
  }

  /** A value below the sentinel comes from the cursor that is advanced. */
  lemma ExactStep(v: seq<int>, cur: seq<nat>, end: seq<nat>, result: seq<int>, rest: multiset<int>, m: int, j: nat)
    requires MergeInv(v, cur, end, result, rest, false) && NotBelow(v, cur, end, m)
    requires j < |cur| && cur[j] < end[j] <= |v| && v[cur[j]] == m
    ensures MergeInv(v, cur[j := cur[j] + 1], end, result + [m], rest - multiset{m}, false)
  {
    LeftAdvance(v, cur, end, j);
    CursorsAdvance(v, cur, end, j);
    forall x | x in rest ensures m <= x {
      HeadsAreLeast(v, cur, end, m, x);
    }
    Extended(v, result, rest, m);
  }

  lemma SomeMember<T>(m: multiset<T>) returns (x: T)
    requires |m| > 0
    ensures x in m
  {
    x :| x in m;
  }

  lemma SomethingMissing(v: seq<int>, result: seq<int>, rest: multiset<int>) returns (x: int)
    requires multiset(result) + rest == multiset(v) && |result| < |v|
    ensures x in rest
  {
    assert |multiset(result) + rest| == |multiset(result)| + |rest|;
    assert |multiset(v)| == |v| && |multiset(result)| == |result|;
    x := SomeMember(rest);
  }

  /** When every head is INT_MAX, so is everything behind it. */
  lemma TailBegins(v: seq<int>, cur: seq<nat>, end: seq<nat>)
    requires CursorsOK(v, cur, end) && NotBelow(v, cur, end, INT_MAX)
    ensures OnlyMaxLeft(v, cur, end) && OnlyMax(Sum(Parts(v, cur, end)))
  {
    forall i | 0 <= i < |cur| ensures MaxFrom(v, cur, end, i) {
      assert CursorOK(v, cur, end, i) && HeadNotBelow(v, cur, end, INT_MAX, i);
    }
    forall x | x in Sum(Parts(v, cur, end)) ensures x == INT_MAX {
      var i, p := LeftSomewhere(v, cur, end, x);
      assert MaxFrom(v, cur, end, i);
    }
  }

  lemma MaxAdvance(v: seq<int>, cur: seq<nat>, end: seq<nat>, j: nat)
    requires OnlyMaxLeft(v, cur, end) && j < |cur|
    ensures OnlyMaxLeft(v, cur[j := cur[j] + 1], end)
  {
    var cur' := cur[j := cur[j] + 1];
    forall i | 0 <= i < |cur'| ensures MaxFrom(v, cur', end, i) {
      assert MaxFrom(v, cur, end, i);
    }
  }

  /** The sentinel: all that is missing is INT_MAX, whichever cursor is advanced. */
  lemma TailStep(v: seq<int>, cur: seq<nat>, end: seq<nat>, result: seq<int>, rest: multiset<int>, tail: bool, j: nat)
    requires MergeInv(v, cur, end, result, rest, tail) && NotBelow(v, cur, end, INT_MAX)
    requires j < |cur| && |result| < |v|
    ensures MergeInv(v, cur[j := cur[j] + 1], end, result + [INT_MAX], rest - multiset{INT_MAX}, true)
  {
    CursorsAdvance(v, cur, end, j);
    if !tail {
      TailBegins(v, cur, end);
    }
    MaxAdvance(v, cur, end, j);
    var x := SomethingMissing(v, result, rest);
    Extended(v, result, rest, INT_MAX);
  }

  class MultithreadSort {
    var v: seq<int>
    const numThreads: nat
    const perThread: nat

    constructor (v: seq<int>, numThreads: nat)
      requires numThreads > 0
      ensures this.v == v && this.numThreads == numThreads && perThread == PerThread(|v|, numThreads)
    {
      this.v, this.numThreads, this.perThread := v, numThreads, PerThread(|v|, numThreads);
    }

    /** Lines 81-106, for any contents of `int` values and any number of sorted chunks. */
    method Merge()
      requires numThreads > 0 && perThread == PerThread(|v|, numThreads)
      requires ChunksSorted(v, numThreads, perThread) && AllInts(v)
      modifies this`v
      ensures v == Merged(old(v), numThreads, perThread)
      ensures Sorted(v) && multiset(v) == multiset(old(v))
    {
      MergedIs(v, numThreads, perThread);
      var cur, end := Cursors();
      var result := MergeLoop(v, cur, end);
      v := result;
    }

    /** Lines 86-89. */
    method Cursors() returns (cur: array<nat>, end: array<nat>)
      requires numThreads > 0 && perThread == PerThread(|v|, numThreads)
      requires ChunksSorted(v, numThreads, perThread) && AllInts(v)
      ensures fresh(cur) && fresh(end) && cur != end && CursorsOK(v, cur[..], end[..])
      ensures cur[..] == Starts(perThread, numThreads) && end[..] == Ends(perThread, numThreads, |v|)
    {
      cur, end := new nat[numThreads], new nat[numThreads];
      ghost var starts := Starts(perThread, numThreads);
      ghost var ends := Ends(perThread, numThreads, |v|);
      var i := 0;
      while i < numThreads
        invariant 0 <= i <= numThreads
        invariant forall k :: 0 <= k < i ==> cur[k] == starts[k] && end[k] == ends[k]
      {
        cur[i] := Start(perThread, i);
        end[i] := End(perThread, i, |v|);
        i := i + 1;
      }
      assert cur[..] == starts && end[..] == ends;
      StartsOK(v, numThreads, perThread);
    }
  }

  function Starts(c: nat, n: nat): seq<nat> {
    seq(n, i requires 0 <= i < n => Start(c, i))
  }

  function Ends(c: nat, n: nat, sz: nat): seq<nat> {
    seq(n, i requires 0 <= i < n => End(c, i, sz))
  }

  lemma StartsOK(v: seq<int>, threads: nat, c: nat)
    requires threads > 0 && ChunksSorted(v, threads, c) && AllInts(v)
    ensures CursorsOK(v, Starts(c, threads), Ends(c, threads, |v|))
  {
    var cur, end := Starts(c, threads), Ends(c, threads, |v|);
    forall j | 0 <= j < threads ensures CursorOK(v, cur, end, j) {
      assert SortedRange(v, Start(c, j), End(c, j, |v|));
    }
  }

  lemma MergeStarts(v: seq<int>, threads: nat, c: nat)
    requires threads > 0 && c == PerThread(|v|, threads)
    requires ChunksSorted(v, threads, c) && AllInts(v)
    ensures MergeInv(v, Starts(c, threads), Ends(c, threads, |v|), [], multiset(v), false)
  {
    var cur, end := Starts(c, threads), Ends(c, threads, |v|);
    PerThreadBounds(|v|, threads);
    forall j | 0 <= j < threads ensures AtChunk(cur, end, c, |v|, j) {
    }
    LeftAtStart(v, cur, end, c);
    StartsOK(v, threads, c);
  }

  /** Lines 90-104. */
  method MergeLoop(v: seq<int>, cur: array<nat>, end: array<nat>) returns (result: seq<int>)
    requires cur != end && CursorsOK(v, cur[..], end[..])
    modifies cur
    ensures result == MergeFrom(v, old(cur[..]), end[..], [])
  {
    result := [];
    var k := 0;
    ghost var starts, ends := cur[..], end[..];
    while k < |v|
      invariant 0 <= k <= |v| && |result| == k && end[..] == ends && CursorsOK(v, cur[..], ends)
      invariant MergeFrom(v, cur[..], ends, result) == MergeFrom(v, starts, ends, [])
    {
      result := PushMin(v, cur, end, result);
      k := k + 1;
    }
  }

  /** One turn of the loop of lines 90-104. */
  method PushMin(v: seq<int>, cur: array<nat>, end: array<nat>, result: seq<int>) returns (result': seq<int>)
    requires cur != end && CursorsOK(v, cur[..], end[..]) && |result| < |v|
    modifies cur
    ensures CursorsOK(v, cur[..], end[..]) && |result'| == |result| + 1
    ensures MergeFrom(v, cur[..], end[..], result') == MergeFrom(v, old(cur[..]), end[..], result)
  {
    ghost var before := cur[..];
    var minVal, minIdx := FindMin(v, cur, end);
    CursorsAdvance(v, before, end[..], minIdx);
    cur[minIdx] := cur[minIdx] + 1;
    assert cur[..] == before[minIdx := before[minIdx] + 1];
    result' := result + [minVal];
  }

  /** The turn that `Least` chooses keeps the invariant. */
  lemma LeastTurn(v: seq<int>, cur: seq<nat>, end: seq<nat>, result: seq<int>, rest: multiset<int>, tail: bool)
    returns (tail': bool)
    requires MergeInv(v, cur, end, result, rest, tail) && |result| < |v|
    ensures var (m, j) := Least(v, cur, end, |cur|);
            MergeInv(v, cur[j := cur[j] + 1], end, result + [m], rest - multiset{m}, tail')
  {
    var (m, j) := Least(v, cur, end, |cur|);
    LeastIs(v, cur, end, |cur|);
    assert NotBelow(v, cur, end, m);
    tail' := MergeTurn(v, cur, end, result, rest, tail, m, j);
  }

  lemma MergeDone(v: seq<int>, cur: seq<nat>, end: seq<nat>, result: seq<int>, rest: multiset<int>, tail: bool)
    requires MergeInv(v, cur, end, result, rest, tail) && |result| >= |v|
    ensures Sorted(result) && multiset(result) == multiset(v)
  {
    Complete(v, result, rest);
  }

  /** From any point of the merge on, the loop ends with the invariant. */
  lemma {:induction false} MergeFromIs(v: seq<int>, cur: seq<nat>, end: seq<nat>, result: seq<int>, rest: multiset<int>, tail: bool)
      returns (cur': seq<nat>, rest': multiset<int>, tail': bool)
    requires MergeInv(v, cur, end, result, rest, tail)
    ensures |MergeFrom(v, cur, end, result)| >= |v|
    ensures MergeInv(v, cur', end, MergeFrom(v, cur, end, result), rest', tail')
    decreases |v| - |result|
  {
    cur', rest', tail' := cur, rest, tail;
    if |result| < |v| {
      tail' := LeastTurn(v, cur, end, result, rest, tail);
      var (m, j) := Least(v, cur, end, |cur|);
      cur', rest', tail' := MergeFromIs(v, cur[j := cur[j] + 1], end, result + [m], rest - multiset{m}, tail');
    }
  }

  /** For any number of sorted chunks of ints, INT_MAX among them, `merge` makes a sorted permutation. */
  lemma MergedIs(v: seq<int>, threads: nat, c: nat)
    requires threads > 0 && c == PerThread(|v|, threads)
    requires ChunksSorted(v, threads, c) && AllInts(v)
    ensures Sorted(Merged(v, threads, c)) && multiset(Merged(v, threads, c)) == multiset(v)
  {
    MergeStarts(v, threads, c);
    var end := Ends(c, threads, |v|);
    var cur, rest, tail := MergeFromIs(v, Starts(c, threads), end, [], multiset(v), false);
    MergeDone(v, cur, end, Merged(v, threads, c), rest, tail);
  }

  lemma MergeTurn(v: seq<int>, cur: seq<nat>, end: seq<nat>, result: seq<int>, rest: multiset<int>, tail: bool, m: int, j: nat)
    returns (tail': bool)
    requires MergeInv(v, cur, end, result, rest, tail) && |result| < |v|
    requires m <= INT_MAX && j < |cur| && NotBelow(v, cur, end, m)
    requires m < INT_MAX ==> cur[j] < end[j] <= |v| && v[cur[j]] == m
    ensures MergeInv(v, cur[j := cur[j] + 1], end, result + [m], rest - multiset{m}, tail')
  {
    if m < INT_MAX {
      NotTail(v, cur, end, j, tail);
      ExactStep(v, cur, end, result, rest, m, j);
      tail' := false;
    } else {
      TailStep(v, cur, end, result, rest, tail, j);
      tail' := true;
    }
  }

  lemma NotTail(v: seq<int>, cur: seq<nat>, end: seq<nat>, j: nat, tail: bool)
    requires CursorsOK(v, cur, end) && (tail ==> OnlyMaxLeft(v, cur, end))
    requires j < |cur| && cur[j] < end[j] && (end[j] <= |v| ==> v[cur[j]] < INT_MAX)
    ensures !tail && end[j] <= |v|
  {
    assert CursorOK(v, cur, end, j);
    assert tail ==> MaxFrom(v, cur, end, j);
  }

  lemma Complete(v: seq<int>, result: seq<int>, rest: multiset<int>)
    requires multiset(result) + rest == multiset(v) && |result| >= |v|
    ensures multiset(result) == multiset(v)
  {
    assert |multiset(result)| == |result| && |multiset(v)| == |v|;
    assert |multiset(result) + rest| == |multiset(result)| + |rest|;
  }
}
