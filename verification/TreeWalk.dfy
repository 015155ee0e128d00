/**
 The two tree walks: 4/7_myftw.cpp, which works by one shared pathname buffer, and
 4/12_myftw_chdir.cpp, which works by the current directory.

 Unless `reliable` is set, `lstat`, `opendir` and a `chdir` into a directory may fail.
 */
module TreeWalk {
  import opened Wrappers
  import opened Tree

  datatype Counts = Counts(reg: nat, dir: nat, blk: nat, chr: nat, fifo: nat, slink: nat, sock: nat) {
    function Plus(m: multiset<Type>): Counts {
      Counts(reg + m[Reg], dir + m[Dir], blk + m[Blk], chr + m[Chr], fifo + m[Fifo], slink + m[Slink], sock + m[Sock])
    }
  }

  function Zero(): Counts {
    Counts(0, 0, 0, 0, 0, 0, 0)
  }

  /** The counters, and the places counted so far. */
  datatype Log = Log(counts: Counts, places: multiset<seq<string>>) {
    function Plus(t: Tally): Log {
      Log(counts.Plus(t.types), places + t.places)
    }
  }

  lemma PlusPlus(l: Log, a: Tally, b: Tally)
    ensures l.Plus(a).Plus(b) == l.Plus(a.Plus(b))
  {
  }

  /** `nfiles`; `visited` records the place of everything counted. */
  class NFiles {
    var nreg: nat
    var ndir: nat
    var nblk: nat
    var nchr: nat
    var nfifo: nat
    var nslink: nat
    var nsock: nat
    ghost var visited: multiset<seq<string>>

    constructor ()
      ensures View() == Zero() && visited == multiset{}
    {
      nreg, ndir, nblk, nchr, nfifo, nslink, nsock := 0, 0, 0, 0, 0, 0, 0;
      visited := multiset{};
    }

    function View(): Counts
      reads this
    {
      Counts(nreg, ndir, nblk, nchr, nfifo, nslink, nsock)
    }

    /** Each counter is the number of nodes of its own type. */
    ghost predicate Counted(types: multiset<Type>)
      reads this
    {
      && nreg == types[Reg] && ndir == types[Dir] && nblk == types[Blk] && nchr == types[Chr]
      && nfifo == types[Fifo] && nslink == types[Slink] && nsock == types[Sock]
    }

    ghost function Record(): Log
      reads this
    {
      Log(View(), visited)
    }

    method CountDirectory(ghost at: seq<string>)
      modifies this
      ensures Record() == old(Record()).Plus(One(Dir, at))
    {
      ndir := ndir + 1;
      visited := visited + multiset{at};
    }

    method Count(t: Type, ghost at: seq<string>)
      requires t != Dir
      modifies this
      ensures Record() == old(Record()).Plus(One(t, at))
    {
      Increment(t);
      visited := visited + multiset{at};
    }

    /** The switch on a type that is not a directory. */
    method Increment(t: Type)
      requires t != Dir
      modifies this
      ensures View() == old(View()).Plus(multiset{t}) && visited == old(visited)
    {
      match t
      case Reg => nreg := nreg + 1;
      case Blk => nblk := nblk + 1;
      case Chr => nchr := nchr + 1;
      case Fifo => nfifo := nfifo + 1;
      case Slink => nslink := nslink + 1;
      case Sock => nsock := nsock + 1;
    }
  }

  /** The pathname that every level of the walk appends to and cuts back. */
  class PathBuffer {
    var text: string

    constructor (text: string)
      ensures this.text == text
    {
      this.text := text;
    }
  }

  /** A process on a tree, with its current directory as a list of names from the root. */
  class Process {
    const root: Node
    const reliable: bool
    var cwd: seq<string>

    constructor (root: Node, reliable: bool, cwd: seq<string>)
      ensures this.root == root && this.reliable == reliable && this.cwd == cwd
    {
      this.root, this.reliable, this.cwd := root, reliable, cwd;
    }

    ghost function Target(path: string): Option<Node>
      reads this`cwd
    {
      var at := Resolve(root, cwd, path);
      if at.None? then None else Lookup(root, at.value)
    }

    method Lstat(path: string) returns (r: Option<Type>)
      ensures r.Some? ==> Target(path).Some? && r.value == TypeOf(Target(path).value)
      ensures reliable && Target(path).Some? ==> r.Some?
    {
      var at, fails: bool := Resolve(root, cwd, path), *;
      if at.None? || (fails && !reliable) {
        return None;
      }
      var node := Lookup(root, at.value);
      r := if node.None? then None else Some(TypeOf(node.value));
    }

    /** `opendir`, with what `readdir` will then return. */
    method OpenDir(path: string) returns (r: Option<seq<Entry>>)
      ensures r.Some? ==> Target(path) == Some(Directory(r.value))
      ensures reliable && Target(path).Some? && Target(path).value.Directory? ==> r.Some?
    {
      var at, fails: bool := Resolve(root, cwd, path), *;
      if at.None? || (fails && !reliable) {
        return None;
      }
      var node := Lookup(root, at.value);
      r := if node.None? || !node.value.Directory? then None else Some(node.value.entries);
    }

    method Chdir(path: string) returns (ok: bool)
      modifies this`cwd
      ensures !ok ==> cwd == old(cwd)
      ensures ok ==> old(Target(path)).Some? && old(Target(path)).value.Directory? && Some(cwd) == old(Resolve(root, cwd, path))
      ensures (reliable || path == "..") && old(Target(path)).Some? && old(Target(path)).value.Directory? ==> ok
    {
      var at, fails: bool := Resolve(root, cwd, path), *;
      if at.None? || (fails && !reliable && path != "..") {
        return false;
      }
      var node := Lookup(root, at.value);
      if node.None? || !node.value.Directory? {
        return false;
      }
      cwd := at.value;
      ok := true;
    }
  }

  // ----- by pathname -----

  /** What `lstat` of the buffer finds. */
  ghost predicate At(p: Process, path: string, at: seq<string>, node: Node)
    reads p`cwd
  {
    && WellFormed(p.root)
    && Resolve(p.root, p.cwd, path) == Some(at) && Lookup(p.root, at) == Some(node)
  }

  /**
   The buffer comes back as it was, whatever fails.  If nothing fails, every node below is
   counted once; a path that leads nowhere counts nothing.
   */
  method WalkPath(p: Process, path: PathBuffer, nf: NFiles, ghost at: seq<string>, ghost node: Node)
    requires WellFormed(p.root) && (p.Target(path.text).Some? ==> At(p, path.text, at, node))
    modifies path, nf
    ensures path.text == old(path.text)
    ensures old(p.Target(path.text)).None? ==> nf.Record() == old(nf.Record())
    ensures p.reliable && old(p.Target(path.text)).Some? ==> nf.Record() == old(nf.Record()).Plus(TallyOf(node, at))
    decreases node
  {
    var st := p.Lstat(path.text);
    if st.None? {
      return;
    }
    LookupWellFormed(p.root, at);
    if st.value != Dir {
      nf.Count(st.value, at);
      return;
    }
    nf.CountDirectory(at);
    var entries := p.OpenDir(path.text);
    if entries.None? {
      return;
    }
    WalkPathEntries(p, path, nf, at, node, entries.value);
    PlusPlus(old(nf.Record()), One(Dir, at), TallyIn(node, at, |node.entries|));
  }

  /** The `readdir` loop. */
  method WalkPathEntries(p: Process, path: PathBuffer, nf: NFiles, ghost at: seq<string>, ghost node: Node, entries: seq<Entry>)
    requires At(p, path.text, at, node) && node == Directory(entries)
    modifies path, nf
    ensures path.text == old(path.text)
    ensures p.reliable ==> nf.Record() == old(nf.Record()).Plus(TallyIn(node, at, |entries|))
    decreases node, 1
  {
    LookupWellFormed(p.root, at);
    for k := 0 to |entries|
      invariant path.text == old(path.text)
      invariant p.reliable ==> nf.Record() == old(nf.Record()).Plus(TallyIn(node, at, k))
    {
      var name := entries[k].Name();
      if name == "." || name == ".." {
        SkipsDots(node, at, k);
        continue;
      }
      VisitPath(p, path, name, nf, at, node, k);
      PlusEntry(old(nf.Record()), node, at, k);
    }
  }

  /** One entry that is neither "." nor "..": the buffer is extended by its name and cut back. */
  method VisitPath(p: Process, path: PathBuffer, name: string, nf: NFiles, ghost at: seq<string>, ghost node: Node, ghost k: nat)
    requires At(p, path.text, at, node) && node.Directory?
    requires k < |node.entries| && name == node.entries[k].Name() && name != "." && name != ".."
    modifies path, nf
    ensures path.text == old(path.text)
    ensures p.reliable ==> nf.Record() == old(nf.Record()).Plus(TallyOf(node.entries[k].node, at + [name]))
    decreases node, 0
  {
    StepToEntry(p.root, at, k);
    ResolveChild(p.root, p.cwd, path.text, name);
    var size := |path.text|;
    path.text := path.text + "/";
    path.text := path.text + name;
    WalkPath(p, path, nf, at + [name], node.entries[k].node);
    path.text := path.text[..size];
  }

  lemma PlusEntry(l: Log, node: Node, at: seq<string>, k: nat)
    requires node.Directory? && k < |node.entries| && node.entries[k].Named?
    ensures var e := node.entries[k];
            l.Plus(TallyIn(node, at, k)).Plus(TallyOf(e.node, at + [e.title])) == l.Plus(TallyIn(node, at, k + 1))
  {
    PlusPlus(l, TallyIn(node, at, k), TallyOf(node.entries[k].node, at + [node.entries[k].title]));
  }

  lemma SkipsDots(node: Node, at: seq<string>, k: nat)
    requires WellFormed(node) && node.Directory? && k < |node.entries|
    requires node.entries[k].Name() == "." || node.entries[k].Name() == ".."
    ensures TallyIn(node, at, k + 1) == TallyIn(node, at, k)
  {
    assert EntryOK(node.entries, k);
    PlusNothing(TallyIn(node, at, k));
  }

  // ----- by current directory -----

  /** What looking a name up in the directory `here`, at `cwd`, comes across. */
  function Found(here: Node, cwd: seq<string>, name: string): Tally
    requires here.Directory?
  {
    var child := Find(here.entries, name);
    if child.None? then Nothing else TallyOf(child.value, cwd + [name])
  }

  /** The same for the first `k` names of some listing. */
  function Listed(entries: seq<Entry>, here: Node, cwd: seq<string>, k: nat): Tally
    requires here.Directory? && k <= |entries|
  {
    if k == 0 then Nothing
    else Listed(entries, here, cwd, k - 1).Plus(if entries[k - 1].Named? then Found(here, cwd, entries[k - 1].title) else Nothing)
  }

  /** A directory's own listing gives what is below it. */
  lemma {:induction false} ListedSelf(node: Node, at: seq<string>, k: nat)
    requires WellFormed(node) && node.Directory? && k <= |node.entries|
    ensures Listed(node.entries, node, at, k) == TallyIn(node, at, k)
  {
    if k > 0 {
      var i := k - 1;
      ListedSelf(node, at, i);
      ListedNext(node, at, i, TallyIn(node, at, i));
      assert k == i + 1;
    }
  }

  /** One more entry adds the same to both. */
  lemma ListedNext(node: Node, at: seq<string>, i: nat, t: Tally)
    requires WellFormed(node) && node.Directory? && i < |node.entries|
    requires t == Listed(node.entries, node, at, i) == TallyIn(node, at, i)
    ensures Listed(node.entries, node, at, i + 1) == TallyIn(node, at, i + 1)
  {
    var e := node.entries[i];
    if e.Named? {
      FoundSelf(node, at, i);
      assert Listed(node.entries, node, at, i + 1) == t.Plus(TallyOf(e.node, at + [e.title]));
      assert TallyIn(node, at, i + 1) == t.Plus(TallyOf(e.node, at + [e.title]));
    } else {
      assert Listed(node.entries, node, at, i + 1) == t.Plus(Nothing);
      assert TallyIn(node, at, i + 1) == t.Plus(Nothing);
    }
  }

  lemma FoundSelf(node: Node, at: seq<string>, i: nat)
    requires WellFormed(node) && node.Directory? && i < |node.entries| && node.entries[i].Named?
    ensures var e := node.entries[i]; Found(node, at, e.title) == TallyOf(e.node, at + [e.title])
  {
    assert EntryOK(node.entries, i);
    FindEntry(node.entries, i);
  }

  /** What a walk comes across that is started on `place`, standing in the directory `cwd`. */
  function Seen(root: Node, cwd: seq<string>, place: Option<seq<string>>): Tally
    requires Lookup(root, cwd).Some? && Lookup(root, cwd).value.Directory?
  {
    if place.None? then Nothing
    else
      match Lookup(root, place.value)
      case None => Nothing
      case Some(File(kind)) => One(kind, place.value)
      case Some(Directory(entries)) =>
        One(Dir, place.value).Plus(Listed(entries, Lookup(root, cwd).value, cwd, |entries|))
  }

  lemma PlusListed(l: Log, entries: seq<Entry>, here: Node, cwd: seq<string>, k: nat)
    requires here.Directory? && k < |entries| && entries[k].Named?
    ensures l.Plus(Listed(entries, here, cwd, k)).Plus(Found(here, cwd, entries[k].title)) == l.Plus(Listed(entries, here, cwd, k + 1))
  {
    PlusPlus(l, Listed(entries, here, cwd, k), Found(here, cwd, entries[k].title));
  }

  /** Started on the directory it stands in, a walk comes across the tree. */
  lemma SeenSelf(root: Node, at: seq<string>)
    requires WellFormed(root) && Lookup(root, at).Some? && Lookup(root, at).value.Directory?
    ensures Seen(root, at, Some(at)) == TallyOf(Lookup(root, at).value, at)
  {
    var node := Lookup(root, at).value;
    LookupWellFormed(root, at);
    ListedSelf(node, at, |node.entries|);
  }

  /** The names of a listing can be looked up. */
  ghost predicate Names(entries: seq<Entry>) {
    forall i :: 0 <= i < |entries| && entries[i].Named? ==> GoodName(entries[i].title)
  }

  lemma NamesOf(node: Node)
    requires WellFormed(node) && node.Directory?
    ensures Names(node.entries)
  {
    forall i | 0 <= i < |node.entries| && node.entries[i].Named? ensures GoodName(node.entries[i].title) {
      assert EntryOK(node.entries, i);
    }
  }

  ghost predicate Standing(p: Process, here: Node)
    reads p`cwd
  {
    WellFormed(p.root) && Lookup(p.root, p.cwd) == Some(here) && here.Directory?
  }

  /**
   The walk stands in some directory and goes by what `path` leads to, of which it may
   have the `stat` already.  It comes back to that directory whatever fails, and if
   nothing fails it has come across what `Seen` says.
   */
  method WalkChdir(p: Process, path: string, st0: Option<Type>, nf: NFiles, ghost node: Node)
    requires WellFormed(p.root) && Lookup(p.root, p.cwd).Some? && Lookup(p.root, p.cwd).value.Directory?
    requires st0.Some? ==> p.Target(path).Some? && st0.value == TypeOf(p.Target(path).value)
    requires node == if st0.Some? && st0.value != Dir then p.Target(path).value else Lookup(p.root, p.cwd).value
    modifies p`cwd, nf
    ensures p.cwd == old(p.cwd)
    ensures p.reliable ==> nf.Record() == old(nf.Record()).Plus(Seen(p.root, p.cwd, Resolve(p.root, p.cwd, path)))
    ensures p.Target(path).None? ==> nf.Record() == old(nf.Record())
    decreases node, 3
  {
    var st := st0;
    if st.None? {
      var local := p.Lstat(path);
      if local.None? {
        if p.Target(path).None? {
          SeenNowhere(p.root, p.cwd, Resolve(p.root, p.cwd, path), nf.Record());
        }
        return;
      }
      st := local;
    }
    TargetKind(p, path);
    if st.value != Dir {
      SeenFile(p.root, p.cwd, Resolve(p.root, p.cwd, path).value);
      nf.Count(st.value, Resolve(p.root, p.cwd, path).value);
      return;
    }
    WalkDirectory(p, path, nf, node);
  }

  lemma SeenFile(root: Node, cwd: seq<string>, place: seq<string>)
    requires Lookup(root, cwd).Some? && Lookup(root, cwd).value.Directory?
    requires Lookup(root, place).Some? && Lookup(root, place).value.File?
    ensures Seen(root, cwd, Some(place)) == One(TypeOf(Lookup(root, place).value), place)
  {
  }

  /** A path that leads nowhere adds nothing. */
  lemma SeenNowhere(root: Node, cwd: seq<string>, place: Option<seq<string>>, l: Log)
    requires Lookup(root, cwd).Some? && Lookup(root, cwd).value.Directory?
    requires place.None? || Lookup(root, place.value).None?
    ensures l.Plus(Seen(root, cwd, place)) == l
  {
  }

  /** What a path leads to is well formed; in particular a file is not of the type of a directory. */
  lemma TargetKind(p: Process, path: string)
    requires WellFormed(p.root) && p.Target(path).Some?
    ensures WellFormed(p.Target(path).value)
  {
    LookupWellFormed(p.root, Resolve(p.root, p.cwd, path).value);
  }

  /** From the count of the directory on. */
  method WalkDirectory(p: Process, path: string, nf: NFiles, ghost node: Node)
    requires Standing(p, node) && p.Target(path).Some? && p.Target(path).value.Directory?
    modifies p`cwd, nf
    ensures p.cwd == old(p.cwd)
    ensures p.reliable ==> nf.Record() == old(nf.Record()).Plus(Seen(p.root, p.cwd, Resolve(p.root, p.cwd, path)))
    decreases node, 2
  {
    TargetKind(p, path);
    ghost var place := Resolve(p.root, p.cwd, path).value;
    nf.CountDirectory(place);
    var entries := p.OpenDir(path);
    if entries.None? {
      return;
    }
    NamesOf(Directory(entries.value));
    WalkChdirEntries(p, nf, node, entries.value);
    PlusPlus(old(nf.Record()), One(Dir, place), Listed(entries.value, node, p.cwd, |entries.value|));
  }

  /** The `readdir` loop. */
  method WalkChdirEntries(p: Process, nf: NFiles, ghost node: Node, entries: seq<Entry>)
    requires Standing(p, node) && Names(entries)
    modifies p`cwd, nf
    ensures p.cwd == old(p.cwd)
    ensures p.reliable ==> nf.Record() == old(nf.Record()).Plus(Listed(entries, node, p.cwd, |entries|))
    decreases node, 1
  {
    for k := 0 to |entries|
      invariant p.cwd == old(p.cwd)
      invariant p.reliable ==> nf.Record() == old(nf.Record()).Plus(Listed(entries, node, p.cwd, k))
    {
      var name := entries[k].Name();
      if name == "." || name == ".." {
        DotsAddNothing(entries, node, p.cwd, k);
        continue;
      }
      NotDots(entries, k);
      VisitEntry(p, name, nf, node);
      PlusListed(old(nf.Record()), entries, node, p.cwd, k);
    }
  }

  lemma DotsAddNothing(entries: seq<Entry>, here: Node, cwd: seq<string>, k: nat)
    requires Names(entries) && here.Directory? && k < |entries|
    requires entries[k].Name() == "." || entries[k].Name() == ".."
    ensures Listed(entries, here, cwd, k + 1) == Listed(entries, here, cwd, k)
  {
    assert !entries[k].Named?;
    PlusNothing(Listed(entries, here, cwd, k));
  }

  lemma NotDots(entries: seq<Entry>, k: nat)
    requires Names(entries) && k < |entries| && entries[k].Name() != "." && entries[k].Name() != ".."
    ensures entries[k].Named? && entries[k].Name() == entries[k].title && GoodName(entries[k].title)
  {
  }

  /** A name that is neither "." nor "..", looked up in the current directory. */
  method VisitEntry(p: Process, name: string, nf: NFiles, ghost node: Node)
    requires Standing(p, node) && GoodName(name)
    modifies p`cwd, nf
    ensures p.cwd == old(p.cwd)
    ensures p.reliable ==> nf.Record() == old(nf.Record()).Plus(Found(node, p.cwd, name))
    decreases node, 0, 1
  {
    TargetOfName(p, name, node);
    var st := p.Lstat(name);
    if st.None? {
      return;
    }
    ghost var child := Find(node.entries, name).value;
    TargetKind(p, name);
    if st.value == Dir {
      Descend(p, name, nf, node, child);
    } else {
      WalkChdir(p, name, st, nf, child);
    }
  }

  /** Into the directory, through it by the name ".", and out again. */
  method Descend(p: Process, name: string, nf: NFiles, ghost node: Node, ghost child: Node)
    requires Standing(p, node) && Find(node.entries, name) == Some(child) && child < node
    requires child.Directory? && WellFormed(child) && GoodName(name)
    modifies p`cwd, nf
    ensures p.cwd == old(p.cwd)
    ensures p.reliable ==> nf.Record() == old(nf.Record()).Plus(TallyOf(child, p.cwd + [name]))
    decreases node, 0, 0
  {
    TargetOfName(p, name, node);
    DotAndDotDot(p.root, p.cwd, name);
    SeenSelf(p.root, p.cwd + [name]);
    var ok := p.Chdir(name);
    if !ok {
      return;
    }
    WalkChdir(p, ".", Some(Dir), nf, child);
    var _ := p.Chdir("..");
  }

  lemma TargetOfName(p: Process, name: string, node: Node)
    requires Standing(p, node) && GoodName(name)
    ensures p.Target(name) == Find(node.entries, name) && Lookup(p.root, p.cwd + [name]) == Find(node.entries, name)
    ensures p.Target(name).Some? ==> Resolve(p.root, p.cwd, name) == Some(p.cwd + [name])
    ensures p.Target(name).Some? ==> p.Target(name).value < node
  {
    FindIs(node.entries, name);
    LookupChild(p.root, p.cwd, name);
    ResolveName(p.root, p.cwd, name);
  }

  lemma DotAndDotDot(root: Node, at: seq<string>, name: string)
    requires Lookup(root, at).Some? && Lookup(root, at).value.Directory?
    requires Lookup(root, at + [name]).Some? && Lookup(root, at + [name]).value.Directory?
    ensures Resolve(root, at + [name], ".") == Some(at + [name])
    ensures Resolve(root, at + [name], "..") == Some(at)
  {
    DotLeads(root, at + [name], ".");
    UpLeads(root, at, name, "..");
  }

  lemma DotLeads(root: Node, here: seq<string>, dot: string)
    requires Lookup(root, here).Some? && Lookup(root, here).value.Directory? && dot == "."
    ensures Resolve(root, here, dot) == Some(here)
  {
    assert dot[0] == '.' && |dot| == 1;
    ResolveName(root, here, dot);
  }

  lemma UpLeads(root: Node, at: seq<string>, name: string, up: string)
    requires Lookup(root, at + [name]).Some? && Lookup(root, at + [name]).value.Directory? && up == ".."
    ensures Resolve(root, at + [name], up) == Some(at)
  {
    assert up[0] == '.' && up[1] == '.' && |up| == 2;
    ResolveName(root, at + [name], up);
    assert (at + [name])[..|at|] == at;
  }

  // ----- the programs -----

  /**
   `main` of 4/12: into the directory, then the walk by the same pathname, which is now
   resolved from inside.  The places counted are those of the tree if and only if it leads
   back to the directory.
   */
  method ChdirMain(p: Process, path: string) returns (ok: bool, nf: NFiles)
    requires WellFormed(p.root)
    modifies p`cwd
    ensures fresh(nf)
    ensures !ok ==> p.cwd == old(p.cwd) && nf.Record() == Log(Zero(), multiset{})
    ensures ok ==> Resolve(p.root, old(p.cwd), path) == Some(p.cwd) && Lookup(p.root, p.cwd).Some? && Lookup(p.root, p.cwd).value.Directory?
    ensures p.reliable ==> (ok <==> old(p.Target(path)).Some? && old(p.Target(path)).value.Directory?)
    ensures p.reliable && ok ==>
              nf.Record() == Log(Zero(), multiset{}).Plus(Seen(p.root, p.cwd, Resolve(p.root, p.cwd, path)))
    ensures p.reliable && ok ==>
              (nf.visited == TallyOf(Lookup(p.root, p.cwd).value, p.cwd).places <==> Resolve(p.root, p.cwd, path) == Some(p.cwd))
    ensures p.reliable && ok && Resolve(p.root, p.cwd, path) == Some(p.cwd) ==>
              nf.View() == Zero().Plus(Types(Lookup(p.root, p.cwd).value)) && nf.Counted(Types(Lookup(p.root, p.cwd).value))
    ensures p.reliable && ok && Resolve(p.root, p.cwd, path).None? ==>
              nf.View() == Zero() != Zero().Plus(Types(Lookup(p.root, p.cwd).value))
  {
    nf := new NFiles();
    ok := p.Chdir(path);
    if ok {
      ghost var node := Lookup(p.root, p.cwd).value;
      WalkChdir(p, path, None, nf, node);
      SeenSelf(p.root, p.cwd);
      TallyTypes(node, p.cwd);
      PlacesIff(p.root, p.cwd, Resolve(p.root, p.cwd, path));
      NothingIsNotTheTree(node);
    }
  }

  /** The places come across are those of the tree exactly if the walk was started on the directory it stands in. */
  lemma PlacesIff(root: Node, at: seq<string>, place: Option<seq<string>>)
    requires WellFormed(root) && Lookup(root, at).Some? && Lookup(root, at).value.Directory?
    ensures Seen(root, at, place).places == TallyOf(Lookup(root, at).value, at).places <==> place == Some(at)
  {
    SeenSelf(root, at);
    if place != Some(at) {
      Unvisited(root, at, place);
      assert at in TallyOf(Lookup(root, at).value, at).places;
    }
  }

  /** Started anywhere else, the walk does not count the directory it stands in. */
  lemma Unvisited(root: Node, at: seq<string>, place: Option<seq<string>>)
    requires Lookup(root, at).Some? && Lookup(root, at).value.Directory? && place != Some(at)
    ensures at !in Seen(root, at, place).places
  {
    if place.Some? && Lookup(root, place.value).Some? && Lookup(root, place.value).value.Directory? {
      var entries := Lookup(root, place.value).value.entries;
      NotListed(entries, Lookup(root, at).value, at, |entries|);
    }
  }

  lemma {:induction false} NotListed(entries: seq<Entry>, here: Node, cwd: seq<string>, k: nat)
    requires here.Directory? && k <= |entries|
    ensures cwd !in Listed(entries, here, cwd, k).places
  {
    if k > 0 {
      NotListed(entries, here, cwd, k - 1);
      if entries[k - 1].Named? {
        NotFound(here, cwd, entries[k - 1].title);
      }
    }
  }

  lemma NotFound(here: Node, cwd: seq<string>, name: string)
    requires here.Directory?
    ensures cwd !in Found(here, cwd, name).places
  {
    if cwd in Found(here, cwd, name).places {
      Below(Find(here.entries, name).value, cwd + [name], cwd);
    }
  }

  /** `main` of 4/7. */
  method PathMain(p: Process, path: string, ghost at: seq<string>, ghost node: Node) returns (nf: NFiles)
    requires WellFormed(p.root) && (p.Target(path).Some? ==> At(p, path, at, node))
    ensures fresh(nf)
    ensures p.Target(path).None? ==> nf.View() == Zero()
    ensures p.reliable && p.Target(path).Some? ==>
              nf.View() == Zero().Plus(Types(node)) && nf.Counted(Types(node)) && nf.visited == TallyOf(node, at).places
  {
    nf := new NFiles();
    var buffer := new PathBuffer(path);
    WalkPath(p, buffer, nf, at, node);
    TallyTypes(node, at);
  }

  /** The two programs count the same, namely the tree, if the path of a directory also leads to it from inside. */
  method SameCounts(root: Node, cwd: seq<string>, path: string, ghost at: seq<string>, ghost node: Node)
      returns (byPath: Counts, byChdir: Counts)
    requires WellFormed(root)
    requires Resolve(root, cwd, path) == Some(at) && Lookup(root, at) == Some(node) && node.Directory?
    requires Resolve(root, at, path) == Some(at)
    ensures byPath == byChdir == Zero().Plus(Types(node))
  {
    var p1 := new Process(root, true, cwd);
    var p2 := new Process(root, true, cwd);
    var nf1 := PathMain(p1, path, at, node);
    var ok, nf2 := ChdirMain(p2, path);
    byPath, byChdir := nf1.View(), nf2.View();
  }

  /** Absolute paths lead back, wherever one stands, and so does ".". */
  lemma LeadsBack(root: Node, cwd: seq<string>, path: string, at: seq<string>)
    requires Resolve(root, cwd, path) == Some(at) && Lookup(root, at).Some? && Lookup(root, at).value.Directory?
    requires path[0] == '/' || path == "."
    ensures Resolve(root, at, path) == Some(at)
  {
    if path == "." {
      DotLeads(root, at, path);
    }
  }

  lemma NothingIsNotTheTree(node: Node)
    requires node.Directory?
    ensures Zero().Plus(Types(node)) != Zero()
  {
    assert Types(node)[Dir] >= 1;
  }

  /**
   A bare name never leads from inside the directory of that name to itself: it leads
   nowhere, exactly if the directory has no entry of its own name, or further down.
   */
  lemma RelativeMisses(root: Node, cwd: seq<string>, name: string)
    requires GoodName(name) && Lookup(root, cwd + [name]).Some? && Lookup(root, cwd + [name]).value.Directory?
    ensures var found := Resolve(root, cwd + [name], name);
            && found != Some(cwd + [name])
            && (found.None? <==> Find(Lookup(root, cwd + [name]).value.entries, name).None?)
  {
    ResolveName(root, cwd + [name], name);
  }

  /** On the bare name of a directory without an entry of that name, 4/7 counts the tree and 4/12 nothing. */
  method BareName(root: Node, cwd: seq<string>, name: string, ghost node: Node) returns (byPath: Counts, byChdir: Counts)
    requires WellFormed(root) && GoodName(name) && Lookup(root, cwd + [name]) == Some(node)
    requires node.Directory? && Find(node.entries, name).None?
    ensures byPath == Zero().Plus(Types(node)) && byChdir == Zero() != byPath
  {
    LookupChild(root, cwd, name);
    ResolveName(root, cwd, name);
    RelativeMisses(root, cwd, name);
    NothingIsNotTheTree(node);
    var p1 := new Process(root, true, cwd);
    var p2 := new Process(root, true, cwd);
    var nf1 := PathMain(p1, name, cwd + [name], node);
    var ok, nf2 := ChdirMain(p2, name);
    byPath, byChdir := nf1.View(), nf2.View();
  }

  /**
   The counters alone can be right by accident: a directory whose one entry has its own
   name, entered by that name, with just that name in the entry's listing, as a/a/a.
   */
  lemma RightByAccident(root: Node, at: seq<string>, name: string, a: Node, b: Node, c: Node)
    requires a == Directory([Named(name, b)]) && b == Directory([Named(name, c)])
    requires Lookup(root, at) == Some(a)
    ensures Lookup(root, at + [name]) == Some(b)
    ensures Seen(root, at, Some(at + [name])).types == Types(a)
    ensures Seen(root, at, Some(at + [name])).places != TallyOf(a, at).places
  {
    assert a.entries[..0] == [] && Find(a.entries, name) == Some(b);
    LookupChild(root, at, name);
    Unvisited(root, at, Some(at + [name]));
    assert at in TallyOf(a, at).places;
    assert Listed(b.entries, a, at, 1) == Nothing.Plus(Found(a, at, name));
    TallyTypes(b, at + [name]);
    assert Types(a) == multiset{Dir} + TypesIn(a, 1) && TypesIn(a, 1) == multiset{} + Types(b);
  }
}
