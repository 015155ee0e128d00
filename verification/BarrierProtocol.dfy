/**
 `multithread_sort::sort` of 11/11_usage_barrier.cpp: the main thread creates the
 workers, all meet at one barrier of `threads + 1` parties, the main thread joins the
 workers and merges.  The schedule interleaves the threads at every step; a worker
 rearranges its own slice in any number of steps before it arrives.

 A worker exists only if its chunk is not empty, so an empty chunk keeps the barrier
 shut.
 */
module BarrierProtocol {
  import opened BarrierSort

  datatype Worker = NotCreated | Sorting | AtBarrier | Exited

  datatype Main = Creating(i: nat) | Arriving | Waiting | Joining(j: nat) | Merging | Done

  datatype State = State(v: seq<int>, workers: seq<Worker>, main: Main, arrived: nat)

  /** `Shuffle` carries the vector it leaves. */
  datatype Step =
    | Create | Arrive | Open | Join | Merge
    | Shuffle(w: nat, after: seq<int>) | Finish(w: nat) | Leave(w: nat)

  datatype Config = Config(threads: nat, c: nat, input: seq<int>)

  /** The chunk size of the constructor, no chunk starting past the end, `int` elements. */
  ghost predicate Scope(g: Config) {
    g.threads > 0 && g.c == PerThread(|g.input|, g.threads) && (g.threads - 1) * g.c <= |g.input| < SIZE_T && AllInts(g.input)
  }

  function Init(g: Config): State {
    State(g.input, seq(g.threads, _ => NotCreated), Creating(0), 0)
  }

  function Lo(g: Config, w: nat): nat {
    Start(g.c, w)
  }

  function Hi(g: Config, w: nat): nat {
    End(g.c, w, |g.input|)
  }

  ghost predicate Rearranged(a: seq<int>, b: seq<int>, lo: nat, hi: nat) {
    && lo <= hi <= |a| == |b|
    && a[..lo] == b[..lo] && a[hi..] == b[hi..]
    && multiset(a[lo..hi]) == multiset(b[lo..hi])
  }

  ghost predicate Enabled(g: Config, s: State, a: Step) {
    match a
    case Create => s.main.Creating?
    case Arrive => s.main.Arriving?
    case Open => s.main.Waiting? && s.arrived == g.threads + 1
    case Join => s.main.Joining? && (s.main.j < |s.workers| ==> s.workers[s.main.j].Exited?)
    case Merge => s.main.Merging?
    case Shuffle(w, after) => w < |s.workers| && s.workers[w].Sorting? && Rearranged(s.v, after, Lo(g, w), Hi(g, w))
    case Finish(w) => w < |s.workers| && s.workers[w].Sorting? && SortedRange(s.v, Lo(g, w), Hi(g, w))
    case Leave(w) => w < |s.workers| && s.workers[w].AtBarrier? && s.arrived == g.threads + 1
  }

  /** Lines 47-63 and 76-79. */
  function Apply(g: Config, s: State, a: Step): State
    requires Enabled(g, s, a)
  {
    match a
    case Create =>
      var i := s.main.i;
      if i >= |s.workers| then s.(main := Arriving)
      else s.(main := Creating(i + 1), workers := if CountOf(g.c, i, |g.input|) > 0 then s.workers[i := Sorting] else s.workers)
    case Arrive => s.(main := Waiting, arrived := s.arrived + 1)
    case Open => s.(main := Joining(0))
    case Join => s.(main := if s.main.j < |s.workers| then Joining(s.main.j + 1) else Merging)
    case Merge => s.(main := Done, v := Merged(s.v, g.threads, g.c))
    case Shuffle(_, after) => s.(v := after)
    case Finish(w) => s.(workers := s.workers[w := AtBarrier], arrived := s.arrived + 1)
    case Leave(w) => s.(workers := s.workers[w := Exited])
  }

  // ----- the invariant -----

  predicate HasArrived(w: Worker) {
    w.AtBarrier? || w.Exited?
  }

  function Arrivals(ws: seq<Worker>): nat {
    if ws == [] then 0 else Arrivals(ws[..|ws| - 1]) + if HasArrived(ws[|ws| - 1]) then 1 else 0
  }

  predicate MainArrived(m: Main) {
    !m.Creating? && !m.Arriving?
  }

  predicate MainPassed(m: Main) {
    MainArrived(m) && !m.Waiting?
  }

  ghost predicate WorkerOK(g: Config, s: State, w: nat)
    requires w < |s.workers|
  {
    && (HasArrived(s.workers[w]) && !s.main.Done? ==> SortedRange(s.v, Lo(g, w), Hi(g, w)))
    && (s.workers[w].Exited? ==> s.arrived == g.threads + 1)
    && (!s.workers[w].NotCreated? ==> Lo(g, w) < Hi(g, w))
    && (match s.main
        case Creating(i) => s.workers[w].NotCreated? <== w >= i
        case Joining(j) => s.workers[w].Exited? <== w < j
        case Merging => s.workers[w].Exited?
        case _ => true)
    && (Created(s.main, w) && Lo(g, w) < Hi(g, w) ==> !s.workers[w].NotCreated?)
  }

  /** The main thread has passed the creation of worker `w`. */
  predicate Created(m: Main, w: nat) {
    m.Creating? ==> w < m.i
  }

  ghost predicate Inv(g: Config, s: State) {
    && Scope(g)
    && |s.workers| == g.threads && |s.v| == |g.input| && multiset(s.v) == multiset(g.input)
    && s.arrived == Arrivals(s.workers) + (if MainArrived(s.main) then 1 else 0)
    && (MainPassed(s.main) ==> s.arrived == g.threads + 1)
    && (s.main.Creating? ==> s.main.i <= g.threads) && (s.main.Joining? ==> s.main.j <= g.threads)
    && (s.main.Done? ==> Sorted(s.v))
    && (forall w :: 0 <= w < |s.workers| ==> WorkerOK(g, s, w))
  }

  lemma {:induction false} ArrivalsUpdate(ws: seq<Worker>, i: nat, x: Worker)
    requires i < |ws|
    ensures Arrivals(ws[i := x]) == Arrivals(ws) - (if HasArrived(ws[i]) then 1 else 0) + (if HasArrived(x) then 1 else 0)
  {
    var n := |ws| - 1;
    if i == n {
      assert ws[i := x][..n] == ws[..n];
    } else {
      assert ws[i := x][..n] == ws[..n][i := x];
      ArrivalsUpdate(ws[..n], i, x);
    }
  }

  lemma {:induction false} ArrivalsBounds(ws: seq<Worker>)
    ensures Arrivals(ws) <= |ws|
    ensures Arrivals(ws) == |ws| <==> forall i :: 0 <= i < |ws| ==> HasArrived(ws[i])
    ensures (forall i :: 0 <= i < |ws| ==> !HasArrived(ws[i])) ==> Arrivals(ws) == 0
  {
    if ws != [] {
      var n := |ws| - 1;
      ArrivalsBounds(ws[..n]);
      if forall i :: 0 <= i < n ==> HasArrived(ws[..n][i]) {
        forall i | 0 <= i < n ensures HasArrived(ws[i]) { assert HasArrived(ws[..n][i]); }
      } else {
        var i :| 0 <= i < n && !HasArrived(ws[..n][i]);
        assert !HasArrived(ws[i]);
      }
      forall i | 0 <= i < n ensures ws[..n][i] == ws[i] {}
    }
  }

  lemma InitInv(g: Config)
    requires Scope(g)
    ensures Inv(g, Init(g))
  {
    ArrivalsBounds(Init(g).workers);
  }

  lemma ChunkCount(g: Config, w: nat)
    requires Scope(g) && w < g.threads
    ensures Lo(g, w) <= Hi(g, w) <= |g.input| && CountOf(g.c, w, |g.input|) == Hi(g, w) - Lo(g, w)
  {
    MulMono(w, g.threads - 1, g.c);
    assert 0 <= Hi(g, w) - Lo(g, w) < SIZE_T;
  }

  lemma ChunksApart(g: Config, u: nat, w: nat)
    requires u < w
    ensures Hi(g, u) <= Lo(g, w)
  {
    MulMono(u + 1, w, g.c);
    assert (u + 1) * g.c == u * g.c + g.c;
  }

  lemma ShuffleElsewhere(g: Config, v: seq<int>, after: seq<int>, w: nat, u: nat)
    requires u != w && Rearranged(v, after, Lo(g, w), Hi(g, w)) && SortedRange(v, Lo(g, u), Hi(g, u))
    ensures SortedRange(after, Lo(g, u), Hi(g, u))
  {
    if u < w {
      ChunksApart(g, u, w);
      forall p | 0 <= p < Hi(g, u) && p < |v| ensures after[p] == v[p] {
        assert p < Lo(g, w);
        assert after[..Lo(g, w)][p] == v[..Lo(g, w)][p];
      }
    } else {
      ChunksApart(g, w, u);
      forall p | Lo(g, u) <= p < |v| ensures after[p] == v[p] {
        assert after[Hi(g, w)..][p - Hi(g, w)] == v[Hi(g, w)..][p - Hi(g, w)];
      }
    }
  }

  lemma ShufflePermutes(v: seq<int>, after: seq<int>, lo: nat, hi: nat)
    requires Rearranged(v, after, lo, hi)
    ensures multiset(v) == multiset(after)
  {
    assert v == v[..lo] + v[lo..hi] + v[hi..];
    assert after == after[..lo] + after[lo..hi] + after[hi..];
  }

  lemma ShuffleKeeps(g: Config, s: State, w: nat, after: seq<int>)
    requires Inv(g, s) && Enabled(g, s, Shuffle(w, after))
    ensures Inv(g, Apply(g, s, Shuffle(w, after)))
  {
    var s' := Apply(g, s, Shuffle(w, after));
    assert WorkerOK(g, s, w);
    ShufflePermutes(s.v, after, Lo(g, w), Hi(g, w));
    ArrivalsBounds(s.workers);
    forall u | 0 <= u < |s'.workers| ensures WorkerOK(g, s', u) {
      assert WorkerOK(g, s, u);
      if u != w && HasArrived(s.workers[u]) {
        ShuffleElsewhere(g, s.v, after, w, u);
      }
    }
  }

  lemma WorkerKeeps(g: Config, s: State, a: Step)
    requires Inv(g, s) && Enabled(g, s, a) && (a.Finish? || a.Leave?)
    ensures Inv(g, Apply(g, s, a))
  {
    var s' := Apply(g, s, a);
    ArrivalsBounds(s.workers);
    ArrivalsBounds(s'.workers);
    ArrivalsUpdate(s.workers, a.w, s'.workers[a.w]);
    forall u | 0 <= u < |s'.workers| ensures WorkerOK(g, s', u) {
      assert WorkerOK(g, s, u);
    }
  }

  lemma CreateKeeps(g: Config, s: State)
    requires Inv(g, s) && Enabled(g, s, Create)
    ensures Inv(g, Apply(g, s, Create))
  {
    var s' := Apply(g, s, Create);
    var i := s.main.i;
    if i < |s.workers| {
      ChunkCount(g, i);
      assert WorkerOK(g, s, i);
      ArrivalsUpdate(s.workers, i, s'.workers[i]);
      assert s'.workers == s.workers[i := s'.workers[i]];
    }
    forall u | 0 <= u < |s'.workers| ensures WorkerOK(g, s', u) {
      assert WorkerOK(g, s, u);
    }
  }

  lemma MainKeeps(g: Config, s: State, a: Step)
    requires Inv(g, s) && Enabled(g, s, a) && (a.Arrive? || a.Open? || a.Join?)
    ensures Inv(g, Apply(g, s, a))
  {
    var s' := Apply(g, s, a);
    ArrivalsBounds(s.workers);
    forall u | 0 <= u < |s'.workers| ensures WorkerOK(g, s', u) {
      assert WorkerOK(g, s, u);
    }
  }

  lemma SortedBeforeMerge(g: Config, s: State)
    requires Inv(g, s) && s.main.Merging?
    ensures ChunksSorted(s.v, g.threads, g.c) && AllInts(s.v)
  {
    forall i | 0 <= i < g.threads ensures SortedRange(s.v, Start(g.c, i), End(g.c, i, |s.v|)) {
      assert WorkerOK(g, s, i);
    }
    forall i | 0 <= i < |s.v| ensures s.v[i] <= INT_MAX {
      assert s.v[i] in multiset(s.v);
      assert s.v[i] in g.input;
    }
  }

  lemma MergeKeeps(g: Config, s: State)
    requires Inv(g, s) && s.main.Merging?
    ensures Inv(g, Apply(g, s, Merge))
  {
    var s' := Apply(g, s, Merge);
    SortedBeforeMerge(g, s);
    MergedIs(s.v, g.threads, g.c);
    SameLength(s'.v, s.v);
    forall u | 0 <= u < |s'.workers| ensures WorkerOK(g, s', u) {
      assert WorkerOK(g, s, u);
    }
  }

  lemma StepKeeps(g: Config, s: State, a: Step)
    requires Inv(g, s) && Enabled(g, s, a)
    ensures Inv(g, Apply(g, s, a))
  {
    match a
    case Create => CreateKeeps(g, s);
    case Merge => MergeKeeps(g, s);
    case Shuffle(w, after) => ShuffleKeeps(g, s, w, after);
    case Finish(_) => WorkerKeeps(g, s, a);
    case Leave(_) => WorkerKeeps(g, s, a);
    case _ => MainKeeps(g, s, a);
  }

  // ----- runs -----

  ghost predicate Runs(g: Config, s: State, steps: seq<Step>, s': State)
    decreases |steps|
  {
    if steps == [] then s' == s
    else Enabled(g, s, steps[0]) && Runs(g, Apply(g, s, steps[0]), steps[1..], s')
  }

  ghost predicate Reachable(g: Config, s: State) {
    exists steps :: Runs(g, Init(g), steps, s)
  }

  lemma {:induction false} RunsKeep(g: Config, s: State, steps: seq<Step>, s': State)
    requires Inv(g, s) && Runs(g, s, steps, s')
    ensures Inv(g, s')
    decreases |steps|
  {
    if steps != [] {
      StepKeeps(g, s, steps[0]);
      RunsKeep(g, Apply(g, s, steps[0]), steps[1..], s');
    }
  }

  lemma ReachableInv(g: Config, s: State)
    requires Scope(g) && Reachable(g, s)
    ensures Inv(g, s)
  {
    var steps :| Runs(g, Init(g), steps, s);
    InitInv(g);
    RunsKeep(g, Init(g), steps, s);
  }

  /** `merge` is only entered when every slice is sorted, and then it ends with the sorted input. */
  lemma SortsTheInput(g: Config, s: State)
    requires Scope(g) && Reachable(g, s)
    ensures s.main.Merging? ==> ChunksSorted(s.v, g.threads, g.c) && multiset(s.v) == multiset(g.input)
    ensures s.main.Done? ==> Sorted(s.v) && multiset(s.v) == multiset(g.input)
  {
    ReachableInv(g, s);
    if s.main.Merging? {
      SortedBeforeMerge(g, s);
    }
  }

  /** Nobody gets past the barrier while some slice is unsorted. */
  lemma BarrierWaitsForAll(g: Config, s: State)
    requires Scope(g) && Reachable(g, s)
    requires MainPassed(s.main) || exists w :: 0 <= w < |s.workers| && s.workers[w].Exited?
    ensures forall w :: 0 <= w < |s.workers| ==> HasArrived(s.workers[w])
  {
    ReachableInv(g, s);
    ArrivalsBounds(s.workers);
    if !MainPassed(s.main) {
      var w :| 0 <= w < |s.workers| && s.workers[w].Exited?;
      assert WorkerOK(g, s, w);
    }
  }

  /** If the last chunk is empty the barrier never opens: no run gets the main thread past it. */
  lemma EmptyChunkBlocks(g: Config, s: State)
    requires Scope(g) && Reachable(g, s) && (g.threads - 1) * g.c == |g.input|
    ensures !MainPassed(s.main)
  {
    ReachableInv(g, s);
    ArrivalsBounds(s.workers);
    var w := g.threads - 1;
    assert WorkerOK(g, s, w);
    assert Lo(g, w) == |g.input|;
    assert !HasArrived(s.workers[w]);
  }

  /** If no chunk is empty some thread can always go on: a worker with its slice, or whoever is at the barrier. */
  lemma NeverBlocks(g: Config, s: State) returns (a: Step)
    requires Scope(g) && Reachable(g, s) && !s.main.Done? && (g.threads - 1) * g.c < |g.input|
    ensures Enabled(g, s, a) && (a.Shuffle? ==> SortedRange(a.after, Lo(g, a.w), Hi(g, a.w)) && a.after != s.v)
  {
    ReachableInv(g, s);
    ArrivalsBounds(s.workers);
    match s.main
    case Creating(_) => a := Create;
    case Arriving => a := Arrive;
    case Merging => a := Merge;
    case Waiting => if s.arrived == g.threads + 1 { a := Open; } else { a := WorkerRuns(g, s); }
    case Joining(j) =>
      a := Join;
      if j < |s.workers| && !s.workers[j].Exited? {
        assert HasArrived(s.workers[j]);
        a := Leave(j);
      }
  }

  // ----- runs end -----

  function WorkerRank(w: Worker): nat {
    match w
    case NotCreated => 2
    case Sorting => 2
    case AtBarrier => 1
    case Exited => 0
  }

  function WorkerRanks(ws: seq<Worker>): nat {
    if ws == [] then 0 else WorkerRanks(ws[..|ws| - 1]) + WorkerRank(ws[|ws| - 1])
  }

  function MainRank(m: Main, n: nat): int {
    match m
    case Creating(i) => 2 * n + 5 - i
    case Arriving => n + 4
    case Waiting => n + 3
    case Joining(j) => n + 2 - j
    case Merging => 1
    case Done => 0
  }

  function Rank(g: Config, s: State): int {
    MainRank(s.main, g.threads) + WorkerRanks(s.workers)
  }

  lemma {:induction false} RanksUpdate(ws: seq<Worker>, i: nat, x: Worker)
    requires i < |ws|
    ensures WorkerRanks(ws[i := x]) == WorkerRanks(ws) - WorkerRank(ws[i]) + WorkerRank(x)
  {
    var n := |ws| - 1;
    if i == n {
      assert ws[i := x][..n] == ws[..n];
    } else {
      assert ws[i := x][..n] == ws[..n][i := x];
      RanksUpdate(ws[..n], i, x);
    }
  }

  lemma {:induction false} RanksAtStart(ws: seq<Worker>)
    requires forall i :: 0 <= i < |ws| ==> ws[i].NotCreated?
    ensures WorkerRanks(ws) == 2 * |ws|
  {
    if ws != [] {
      RanksAtStart(ws[..|ws| - 1]);
    }
  }

  /** Every step but the rearranging of a slice brings the end closer. */
  lemma StepConsumes(g: Config, s: State, a: Step)
    requires Inv(g, s) && Enabled(g, s, a)
    ensures Rank(g, Apply(g, s, a)) <= Rank(g, s) - if a.Shuffle? then 0 else 1
  {
    match a
    case Create =>
      var i := s.main.i;
      if i < |s.workers| {
        assert WorkerOK(g, s, i);
        RanksUpdate(s.workers, i, Sorting);
      }
    case Finish(w) => RanksUpdate(s.workers, w, AtBarrier);
    case Leave(w) => RanksUpdate(s.workers, w, Exited);
    case _ =>
  }

  function Shuffles(steps: seq<Step>): nat {
    if steps == [] then 0 else (if steps[0].Shuffle? then 1 else 0) + Shuffles(steps[1..])
  }

  lemma {:induction false} RunsConsume(g: Config, s: State, steps: seq<Step>, s': State)
    requires Inv(g, s) && Runs(g, s, steps, s')
    ensures Inv(g, s') && |steps| - Shuffles(steps) <= Rank(g, s) - Rank(g, s')
    decreases |steps|
  {
    if steps != [] {
      StepKeeps(g, s, steps[0]);
      StepConsumes(g, s, steps[0]);
      RunsConsume(g, Apply(g, s, steps[0]), steps[1..], s');
    }
  }

  /** Apart from what `std::sort` does to the slices, a run of n workers takes at most 4n + 5 steps. */
  lemma RunsAreFinite(g: Config, steps: seq<Step>, s: State)
    requires Scope(g) && Runs(g, Init(g), steps, s)
    ensures |steps| - Shuffles(steps) <= 4 * g.threads + 5
  {
    InitInv(g);
    RunsConsume(g, Init(g), steps, s);
    RanksAtStart(Init(g).workers);
    assert Rank(g, s) >= 0;
  }

  lemma WorkerRuns(g: Config, s: State) returns (a: Step)
    requires Inv(g, s) && s.main.Waiting? && s.arrived != g.threads + 1 && (g.threads - 1) * g.c < |g.input|
    ensures Enabled(g, s, a) && (a.Shuffle? ==> SortedRange(a.after, Lo(g, a.w), Hi(g, a.w)) && a.after != s.v)
  {
    ArrivalsBounds(s.workers);
    var w :| 0 <= w < |s.workers| && !HasArrived(s.workers[w]);
    assert WorkerOK(g, s, w);
    MulMono(w, g.threads - 1, g.c);
    ChunkCount(g, w);
    var lo, hi := Lo(g, w), Hi(g, w);
    a := Finish(w);
    if !SortedRange(s.v, lo, hi) {
      var after := SortSlice(s.v, lo, hi);
      a := Shuffle(w, after);
    }
  }

  /** What `std::sort` may leave in a slice. */
  lemma SortSlice(v: seq<int>, lo: nat, hi: nat) returns (after: seq<int>)
    requires lo <= hi <= |v|
    ensures Rearranged(v, after, lo, hi) && SortedRange(after, lo, hi)
  {
    var slice := Insertion(v[lo..hi]);
    SameLength(slice, v[lo..hi]);
    after := v[..lo] + slice + v[hi..];
    assert after[lo..hi] == slice && after[..lo] == v[..lo] && after[hi..] == v[hi..];
    forall i, j | lo <= i < j < hi && j < |after| ensures after[i] <= after[j] {
      assert after[i] == slice[i - lo] && after[j] == slice[j - lo];
    }
  }

  lemma SameLength(a: seq<int>, b: seq<int>)
    requires multiset(a) == multiset(b)
    ensures |a| == |b|
  {
    assert |multiset(a)| == |a| && |multiset(b)| == |b|;
  }

  /** Some sorted arrangement of a sequence. */
  function Insertion(s: seq<int>): (r: seq<int>)
    ensures Sorted(r) && multiset(r) == multiset(s)
  {
    if s == [] then []
    else
      assert s == s[..|s| - 1] + [s[|s| - 1]];
      Insert(Insertion(s[..|s| - 1]), s[|s| - 1])
  }

  function Insert(s: seq<int>, x: int): (r: seq<int>)
    requires Sorted(s)
    ensures Sorted(r) && multiset(r) == multiset(s) + multiset{x}
  {
    if s == [] || s[|s| - 1] <= x then s + [x]
    else
      var n := |s| - 1;
      assert s == s[..n] + [s[n]];
      var t := Insert(s[..n], x);
      assert forall i :: 0 <= i < |t| ==> t[i] in multiset(t);
      t + [s[n]]
  }
}
