/** A finite file tree and the resolution of pathnames in it, as `lstat`, `opendir` and `chdir` see it. */
module Tree {
  import opened Wrappers

  datatype Type = Reg | Dir | Blk | Chr | Fifo | Slink | Sock

  /** A directory lists its entries in any order, with "." and ".." anywhere among them. */
  datatype Node = File(kind: Type) | Directory(entries: seq<Entry>)

  datatype Entry = Dot | DotDot | Named(title: string, node: Node) {
    function Name(): string {
      match this
      case Dot => "."
      case DotDot => ".."
      case Named(title, _) => title
    }
  }

  function TypeOf(node: Node): Type {
    match node
    case File(kind) => kind
    case Directory(_) => Dir
  }

  predicate GoodName(s: string) {
    s != "" && s != "." && s != ".." && '/' !in s
  }

  ghost predicate EntryOK(entries: seq<Entry>, i: nat)
    requires i < |entries|
  {
    entries[i].Named? ==>
      && GoodName(entries[i].title)
      && forall j :: 0 <= j < |entries| && j != i && entries[j].Named? ==> entries[j].title != entries[i].title
  }

  ghost predicate WellFormed(node: Node) {
    match node
    case File(kind) => kind != Dir
    case Directory(entries) =>
      forall i :: 0 <= i < |entries| ==> EntryOK(entries, i) && (entries[i].Named? ==> WellFormed(entries[i].node))
  }

  /** The types of a node and of everything below it. */
  function Types(node: Node): multiset<Type>
    decreases node, 1, 0
  {
    match node
    case File(kind) => multiset{kind}
    case Directory(entries) => multiset{Dir} + TypesIn(node, |entries|)
  }

  /** The types below the first `k` entries of a directory. */
  function TypesIn(node: Node, k: nat): multiset<Type>
    requires node.Directory? && k <= |node.entries|
    decreases node, 0, k
  {
    if k == 0 then multiset{}
    else
      var e := node.entries[k - 1];
      TypesIn(node, k - 1) + if e.Named? then Types(e.node) else multiset{}
  }

  /** What a walk comes across: the types of nodes, and the places they are at. */
  datatype Tally = Tally(types: multiset<Type>, places: multiset<seq<string>>) {
    function Plus(other: Tally): Tally {
      Tally(types + other.types, places + other.places)
    }
  }

  const Nothing := Tally(multiset{}, multiset{})

  lemma PlusNothing(t: Tally)
    ensures t.Plus(Nothing) == t
  {
  }

  function One(t: Type, at: seq<string>): Tally {
    Tally(multiset{t}, multiset{at})
  }

  /** A node at the place `at`, and everything below it. */
  function TallyOf(node: Node, at: seq<string>): Tally
    decreases node, 1, 0
  {
    match node
    case File(kind) => One(kind, at)
    case Directory(entries) => One(Dir, at).Plus(TallyIn(node, at, |entries|))
  }

  function TallyIn(node: Node, at: seq<string>, k: nat): Tally
    requires node.Directory? && k <= |node.entries|
    decreases node, 0, k
  {
    if k == 0 then Nothing
    else
      var e := node.entries[k - 1];
      TallyIn(node, at, k - 1).Plus(if e.Named? then TallyOf(e.node, at + [e.title]) else Nothing)
  }

  /** Wherever a tree is, its types are the same. */
  lemma {:induction false} TallyTypes(node: Node, at: seq<string>)
    ensures TallyOf(node, at).types == Types(node)
    decreases node, 1, 0
  {
    if node.Directory? {
      TallyTypesIn(node, at, |node.entries|);
    }
  }

  lemma {:induction false} TallyTypesIn(node: Node, at: seq<string>, k: nat)
    requires node.Directory? && k <= |node.entries|
    ensures TallyIn(node, at, k).types == TypesIn(node, k)
    decreases node, 0, k
  {
    if k > 0 {
      var e := node.entries[k - 1];
      TallyTypesIn(node, at, k - 1);
      if e.Named? { TallyTypes(e.node, at + [e.title]); }
    }
  }

  /** Everything in a tree is at its place or below. */
  lemma {:induction false} Below(node: Node, at: seq<string>, x: seq<string>)
    requires x in TallyOf(node, at).places
    ensures at <= x
    decreases node, 1, 0
  {
    if node.Directory? && x != at {
      BelowIn(node, at, |node.entries|, x);
    }
  }

  lemma {:induction false} BelowIn(node: Node, at: seq<string>, k: nat, x: seq<string>)
    requires node.Directory? && k <= |node.entries| && x in TallyIn(node, at, k).places
    ensures at < x
    decreases node, 0, k
  {
    var e := node.entries[k - 1];
    if x in TallyIn(node, at, k - 1).places {
      BelowIn(node, at, k - 1, x);
    } else {
      Below(e.node, at + [e.title], x);
    }
  }

  // ----- lookup by components -----

  function Find(entries: seq<Entry>, name: string): Option<Node> {
    if entries == [] then None
    else
      var e := entries[|entries| - 1];
      if e.Named? && e.title == name then Some(e.node) else Find(entries[..|entries| - 1], name)
  }

  /** The node at the end of a list of names. */
  function Lookup(root: Node, at: seq<string>): Option<Node> {
    if at == [] then Some(root)
    else
      var n := |at| - 1;
      var parent := Lookup(root, at[..n]);
      if parent.Some? && parent.value.Directory? then Find(parent.value.entries, at[n]) else None
  }

  lemma {:induction false} FindIs(entries: seq<Entry>, name: string)
    ensures Find(entries, name).Some? ==>
              exists i :: 0 <= i < |entries| && entries[i] == Named(name, Find(entries, name).value)
    ensures Find(entries, name).None? ==> forall i :: 0 <= i < |entries| && entries[i].Named? ==> entries[i].title != name
  {
    if entries != [] {
      var n := |entries| - 1;
      FindIs(entries[..n], name);
      if Find(entries[..n], name).Some? {
        var i :| 0 <= i < n && entries[..n][i] == Named(name, Find(entries[..n], name).value);
        assert entries[i] == entries[..n][i];
      }
    }
  }

  lemma FindEntry(entries: seq<Entry>, i: nat)
    requires i < |entries| && entries[i].Named? && EntryOK(entries, i)
    ensures Find(entries, entries[i].title) == Some(entries[i].node)
  {
    FindIs(entries, entries[i].title);
  }

  lemma {:induction false} LookupWellFormed(root: Node, at: seq<string>)
    requires WellFormed(root) && Lookup(root, at).Some?
    ensures WellFormed(Lookup(root, at).value)
  {
    if at != [] {
      var n := |at| - 1;
      LookupWellFormed(root, at[..n]);
      FindIs(Lookup(root, at[..n]).value.entries, at[n]);
    }
  }

  lemma LookupChild(root: Node, at: seq<string>, name: string)
    ensures var d := Lookup(root, at);
            Lookup(root, at + [name]) == if d.Some? && d.value.Directory? then Find(d.value.entries, name) else None
  {
    assert (at + [name])[..|at|] == at;
  }

  // ----- pathnames -----

  /** The parts of a pathname between its slashes. */
  function Split(path: string): (r: seq<string>)
    ensures |r| >= 1
  {
    if path == "" then [""]
    else
      var n := |path| - 1;
      var parts := Split(path[..n]);
      if path[n] == '/' then parts + [""] else parts[..|parts| - 1] + [parts[|parts| - 1] + [path[n]]]
  }

  lemma {:induction false} SplitName(path: string, name: string)
    requires '/' !in name
    ensures Split(path + "/" + name) == Split(path) + [name]
  {
    var whole := path + "/" + name;
    var n := |whole| - 1;
    if name == "" {
      assert whole[..n] == path && whole[n] == '/';
    } else {
      var m := |name| - 1;
      SplitName(path, name[..m]);
      assert whole[..n] == path + "/" + name[..m] && whole[n] == name[m];
      assert name == name[..m] + [name[m]];
    }
  }

  lemma {:induction false} SplitWord(name: string)
    requires '/' !in name
    ensures Split(name) == [name]
  {
    if name != "" {
      var m := |name| - 1;
      SplitWord(name[..m]);
      assert name == name[..m] + [name[m]];
    }
  }

  /** One component from the directory `at`. */
  function StepTo(root: Node, at: seq<string>, c: string): Option<seq<string>> {
    var d := Lookup(root, at);
    if d.None? || !d.value.Directory? then None
    else if c == "" || c == "." then Some(at)
    else if c == ".." then Some(if at == [] then [] else at[..|at| - 1])
    else if Find(d.value.entries, c).Some? then Some(at + [c])
    else None
  }

  function Follow(root: Node, start: seq<string>, parts: seq<string>): Option<seq<string>> {
    if parts == [] then Some(start)
    else
      var n := |parts| - 1;
      var prev := Follow(root, start, parts[..n]);
      if prev.None? then None else StepTo(root, prev.value, parts[n])
  }

  /** Where a pathname leads from the current directory; symbolic links are not followed. */
  function Resolve(root: Node, cwd: seq<string>, path: string): Option<seq<string>> {
    if path == "" then None
    else Follow(root, if path[0] == '/' then [] else cwd, Split(path))
  }

  /** Appending "/name" to the path of a directory leads to its entry. */
  lemma ResolveChild(root: Node, cwd: seq<string>, path: string, name: string)
    requires Resolve(root, cwd, path).Some? && '/' !in name
    ensures Resolve(root, cwd, path + "/" + name) == StepTo(root, Resolve(root, cwd, path).value, name)
  {
    SplitName(path, name);
    assert (Split(path) + [name])[..|Split(path)|] == Split(path);
  }

  /** A bare name leads to the entry of the current directory. */
  lemma ResolveName(root: Node, cwd: seq<string>, name: string)
    requires name != "" && '/' !in name
    ensures Resolve(root, cwd, name) == StepTo(root, cwd, name)
  {
    SplitWord(name);
    assert name[0] in name;
    var parts := [name];
    assert parts[..0] == [] && Follow(root, cwd, parts[..0]) == Some(cwd);
    assert Follow(root, cwd, parts) == StepTo(root, cwd, parts[0]);
  }

  /** An entry of a directory is reached by its name. */
  lemma StepToEntry(root: Node, at: seq<string>, i: nat)
    requires WellFormed(root)
    requires Lookup(root, at).Some? && Lookup(root, at).value.Directory?
    requires i < |Lookup(root, at).value.entries| && Lookup(root, at).value.entries[i].Named?
    ensures var e := Lookup(root, at).value.entries[i];
            && GoodName(e.title) && WellFormed(e.node)
            && StepTo(root, at, e.title) == Some(at + [e.title]) && Lookup(root, at + [e.title]) == Some(e.node)
  {
    var entries := Lookup(root, at).value.entries;
    LookupWellFormed(root, at);
    assert EntryOK(entries, i);
    FindEntry(entries, i);
    LookupChild(root, at, entries[i].title);
  }

  // ----- what the types of a tree are -----

  /** The places of the nodes in a tree whose type is one of `kinds`. */
  function PlacesOf(node: Node, at: seq<string>, kinds: set<Type>): multiset<seq<string>>
    decreases node, 1, 0
  {
    (if TypeOf(node) in kinds then multiset{at} else multiset{}) +
    (if node.Directory? then PlacesIn(node, at, kinds, |node.entries|) else multiset{})
  }

  function PlacesIn(node: Node, at: seq<string>, kinds: set<Type>, k: nat): multiset<seq<string>>
    requires node.Directory? && k <= |node.entries|
    decreases node, 0, k
  {
    if k == 0 then multiset{}
    else
      var e := node.entries[k - 1];
      PlacesIn(node, at, kinds, k - 1) + if e.Named? then PlacesOf(e.node, at + [e.title], kinds) else multiset{}
  }

  /** A name first, then the rest. */
  lemma {:induction false} LookupFront(root: Node, name: string, rest: seq<string>)
    ensures Lookup(root, [name] + rest) ==
            if root.Directory? && Find(root.entries, name).Some? then Lookup(Find(root.entries, name).value, rest) else None
  {
    var path := [name] + rest;
    var n := |path| - 1;
    if rest == [] {
      assert path[..n] == [];
    } else {
      assert path[..n] == [name] + rest[..n - 1] && path[n] == rest[n - 1];
      LookupFront(root, name, rest[..n - 1]);
    }
  }

  /** The path below `at` leads to a node of one of the types. */
  ghost predicate IsPlace(node: Node, at: seq<string>, kinds: set<Type>, x: seq<string>) {
    at <= x && Lookup(node, x[|at|..]).Some? && TypeOf(Lookup(node, x[|at|..]).value) in kinds
  }

  /** Every place of the tree is there once, and nothing else is. */
  lemma {:induction false} PlacesExact(node: Node, at: seq<string>, kinds: set<Type>, x: seq<string>)
    requires WellFormed(node)
    ensures PlacesOf(node, at, kinds)[x] == if IsPlace(node, at, kinds, x) then 1 else 0
    decreases node, 1, 0
  {
    if node.Directory? {
      PlacesBelow(node, at, kinds, |node.entries|, x);
    }
    if at < x {
      PlaceFront(node, at, kinds, x);
    } else if x == at {
      assert x[|at|..] == [];
    }
  }

  /** A place further down is a place below the entry its path goes through. */
  lemma PlaceFront(node: Node, at: seq<string>, kinds: set<Type>, x: seq<string>)
    requires WellFormed(node) && at < x
    ensures IsPlace(node, at, kinds, x) <==>
            && node.Directory? && Among(node, |node.entries|, x[|at|]) && Find(node.entries, x[|at|]).Some?
            && IsPlace(Find(node.entries, x[|at|]).value, at + [x[|at|]], kinds, x)
  {
    var name, rest := x[|at|], x[|at| + 1..];
    assert x[|at|..] == [name] + rest && at + [name] <= x && x[|at + [name]|..] == rest;
    LookupFront(node, name, rest);
    if node.Directory? {
      EntryIndex(node, name);
    }
  }

  /** Which of the first `k` entries has a name. */
  ghost predicate Among(node: Node, k: nat, name: string)
    requires node.Directory? && k <= |node.entries|
  {
    exists i :: 0 <= i < k && node.entries[i].Named? && node.entries[i].title == name
  }

  lemma EntryIndex(node: Node, name: string)
    requires WellFormed(node) && node.Directory?
    ensures Among(node, |node.entries|, name) <==> Find(node.entries, name).Some?
  {
    FindIs(node.entries, name);
  }

  lemma {:induction false} PlacesBelow(node: Node, at: seq<string>, kinds: set<Type>, k: nat, x: seq<string>)
    requires WellFormed(node) && node.Directory? && k <= |node.entries|
    ensures PlacesIn(node, at, kinds, k)[x] ==
            if at < x && Among(node, k, x[|at|]) && Find(node.entries, x[|at|]).Some?
               && IsPlace(Find(node.entries, x[|at|]).value, at + [x[|at|]], kinds, x) then 1 else 0
    decreases node, 0, k
  {
    if k > 0 {
      var e := node.entries[k - 1];
      PlacesBelow(node, at, kinds, k - 1, x);
      if e.Named? {
        assert EntryOK(node.entries, k - 1);
        PlacesExact(e.node, at + [e.title], kinds, x);
        FindEntry(node.entries, k - 1);
        AmongNext(node, k - 1, if at < x then x[|at|] else e.title);
      } else if at < x {
        AmongNext(node, k - 1, x[|at|]);
      }
    }
  }

  lemma AmongNext(node: Node, i: nat, name: string)
    requires WellFormed(node) && node.Directory? && i < |node.entries|
    ensures Among(node, i + 1, name) <==> Among(node, i, name) || (node.entries[i].Named? && node.entries[i].title == name)
    ensures node.entries[i].Named? && node.entries[i].title == name ==> !Among(node, i, name)
  {
    assert EntryOK(node.entries, i);
  }

  /** How often a type occurs is the number of places of that type. */
  lemma {:induction false} TypesCount(node: Node, at: seq<string>, t: Type)
    ensures Types(node)[t] == |PlacesOf(node, at, {t})|
    decreases node, 1, 0
  {
    if node.Directory? {
      TypesCountIn(node, at, t, |node.entries|);
    }
  }

  lemma {:induction false} TypesCountIn(node: Node, at: seq<string>, t: Type, k: nat)
    requires node.Directory? && k <= |node.entries|
    ensures TypesIn(node, k)[t] == |PlacesIn(node, at, {t}, k)|
    decreases node, 0, k
  {
    if k > 0 {
      var e := node.entries[k - 1];
      TypesCountIn(node, at, t, k - 1);
      if e.Named? { TypesCount(e.node, at + [e.title], t); }
    }
  }

  const AllTypes := {Reg, Dir, Blk, Chr, Fifo, Slink, Sock}

  lemma EveryType(t: Type)
    ensures t in AllTypes
  {
    match t
    case Reg => case Dir => case Blk => case Chr => case Fifo => case Slink => case Sock =>
  }

  /** The places a walk comes across are all the places of the tree. */
  lemma {:induction false} TallyPlaces(node: Node, at: seq<string>)
    ensures TallyOf(node, at).places == PlacesOf(node, at, AllTypes)
    decreases node, 1, 0
  {
    EveryType(TypeOf(node));
    if node.Directory? {
      TallyPlacesIn(node, at, |node.entries|);
    }
  }

  lemma {:induction false} TallyPlacesIn(node: Node, at: seq<string>, k: nat)
    requires node.Directory? && k <= |node.entries|
    ensures TallyIn(node, at, k).places == PlacesIn(node, at, AllTypes, k)
    decreases node, 0, k
  {
    if k > 0 {
      var e := node.entries[k - 1];
      TallyPlacesIn(node, at, k - 1);
      if e.Named? { TallyPlaces(e.node, at + [e.title]); }
    }
  }

  /** So the places of a tree, in a walk from the root, are those that can be looked up below `at`, each once. */
  lemma TreePlaces(node: Node, at: seq<string>, x: seq<string>)
    requires WellFormed(node)
    ensures TallyOf(node, at).places[x] == if at <= x && Lookup(node, x[|at|..]).Some? then 1 else 0
  {
    TallyPlaces(node, at);
    PlacesExact(node, at, AllTypes, x);
    if at <= x && Lookup(node, x[|at|..]).Some? {
      EveryType(TypeOf(Lookup(node, x[|at|..]).value));
    }
  }
}
