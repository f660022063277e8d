/**
 Building a snapshot of a worktree's sources and swapping it in by renames (tools/agent_mcp/stack.py). Every step of
 the swap may fail.
 */
module Snapshot {
  import opened Options
  import opened Tree
  import opened SnapshotCopy

  const SOURCES: seq<Path> := [
    ["pyproject.toml"], ["uv.lock"], ["entrypoint.sh"], ["server", "common"], ["server", "routers"], ["server", "schemas"],
    ["gen", "proto", "python"], ["server", "data", "store", "app"], ["server", "data", "ingest", "app"],
    ["server", "data", "store", "alembic.ini"], ["server", "data", "store", "migrations"],
    ["server", "data", "store", "seeds"], ["tests", "system"], ["tests", "fakes"], ["pytest.ini"]
  ]

  function Find(cs: seq<Child>, name: string): (r: Option<Node>)
    ensures r.Some? ==> Child(name, r.value) in cs
  {
    if cs == [] then None else if cs[0].name == name then Some(cs[0].node) else Find(cs[1..], name)
  }

  /** The node at a path, every directory on the way being a directory and no link. */
  function At(n: Node, path: Path): Option<Node>
    decreases |path|
  {
    if path == [] then Some(n)
    else if !n.Dir? then None
    else
      var c := Find(n.children, path[0]);
      if c.None? then None else At(c.value, path[1..])
  }

  // ---- what a pruned tree holds, path by path

  /** What a walk down a path from a directory finds that the copy keeps. */
  function KeptAt(n: Node, rel: Path): Option<Entry>
    decreases |rel|
  {
    if !n.Dir? then None
    else if rel == [] then Some(Folder)
    else match Find(n.children, rel[0])
      case None => None
      case Some(m) =>
        if Pruned(Child(rel[0], m)) then None
        else if m.Dir? then KeptAt(m, rel[1..])
        else if |rel| == 1 && Copied(Child(rel[0], m)) then Some(Regular(m.executable, m.content))
        else None
  }

  lemma {:induction false} FindIsUnique(cs: seq<Child>, c: Child)
    requires c in cs && forall i, j :: 0 <= i < j < |cs| ==> cs[i].name != cs[j].name
    ensures Find(cs, c.name) == Some(c.node)
  {
    if cs[0] != c {
      assert c in cs[1..];
      FindIsUnique(cs[1..], c);
    }
  }

  /** What one child adds to the listing of its directory. */
  function Adds(c: Child, here: Path): set<Placed> {
    if Pruned(c) then {}
    else if c.node.Dir? then ListingIn(c.node, here + [c.name])
    else if Copied(c) then {Placed(here + [c.name], Regular(c.node.executable, c.node.content))}
    else {}
  }

  lemma {:induction false} ListedBySomeChild(cs: seq<Child>, here: Path, e: Placed)
    ensures e in Listing(cs, here) <==> exists c :: c in cs && e in Adds(c, here)
  {
    if cs != [] {
      var rest, last := cs[..|cs| - 1], cs[|cs| - 1];
      ListedBySomeChild(rest, here, e);
      assert forall c :: c in cs <==> c in rest || c == last;
      assert Listing(cs, here) == Listing(rest, here) + Adds(last, here);
    }
  }

  /** The listing of a directory is exactly what the walk down each path keeps. */
  lemma {:induction false} ListingIsWhatIsKept(n: Node, here: Path, e: Placed)
    requires n.Dir? && DistinctNode(n)
    ensures e in ListingIn(n, here) <==> here <= e.path && KeptAt(n, e.path[|here|..]) == Some(e.entry)
    decreases n
  {
    var cs := n.children;
    ListedBySomeChild(cs, here, e);
    if e != Placed(here, Folder) {
      if e in ListingIn(n, here) {
        var c :| c in cs && e in Adds(c, here);
        OneChildKept(n, here, e, c);
      } else if here < e.path {
        var rel := e.path[|here|..];
        var m := Find(cs, rel[0]);
        if m.Some? {
          OneChildKept(n, here, e, Child(rel[0], m.value));
        }
      }
    }
  }

  lemma {:induction false} OneChildKept(n: Node, here: Path, e: Placed, c: Child)
    requires n.Dir? && DistinctNode(n) && c in n.children
    requires e in Adds(c, here) || (here < e.path && e.path[|here|] == c.name)
    ensures here < e.path && e.path[|here|] == c.name
    ensures e in Adds(c, here) <==> KeptAt(n, e.path[|here|..]) == Some(e.entry)
    decreases n, 0
  {
    FindIsUnique(n.children, c);
    assert DistinctNode(c.node);
    var at := here + [c.name];
    if c.node.Dir? {
      ListingIsWhatIsKept(c.node, at, e);
      if at <= e.path { assert e.path[|here|..][1..] == e.path[|at|..]; }
    } else if here < e.path && e.path[|here|] == c.name && |e.path| == |here| + 1 {
      assert e.path == at;
    }
  }

  /** The directories above a source. */
  function Ancestors(source: Path): set<Placed> {
    set k | 0 < k < |source| :: Placed(source[..k], Folder)
  }

  function PlacedBy(root: Node, source: Path): set<Placed> {
    match At(root, source)
    case Some(File(x, content)) => Ancestors(source) + {Placed(source, Regular(x, content))}
    case Some(Dir(cs)) => Ancestors(source) + ListingIn(Dir(cs), source)
    case _ => {}
  }

  /** What a snapshot of the sources should hold. */
  function Wanted(root: Node, sources: seq<Path>): set<Placed> {
    if sources == [] then {}
    else Wanted(root, sources[..|sources| - 1]) + PlacedBy(root, sources[|sources| - 1])
  }

  function EntriesAt(root: Node, source: Path): nat {
    match At(root, source)
    case Some(File(_, _)) => 1
    case Some(Dir(cs)) => EntriesIn(Dir(cs))
    case _ => 0
  }

  function BytesAt(root: Node, source: Path): nat {
    match At(root, source)
    case Some(File(_, content)) => |content|
    case Some(Dir(cs)) => BytesIn(Dir(cs))
    case _ => 0
  }

  function AllEntries(root: Node, sources: seq<Path>): nat {
    if sources == [] then 0 else AllEntries(root, sources[..|sources| - 1]) + EntriesAt(root, sources[|sources| - 1])
  }

  function AllBytes(root: Node, sources: seq<Path>): nat {
    if sources == [] then 0 else AllBytes(root, sources[..|sources| - 1]) + BytesAt(root, sources[|sources| - 1])
  }

  /** The operations of one source that is copied: it is looked up, the directories above it are made, it is copied. */
  function SourceSteps(root: Node, source: Path): nat
    requires source != []
  {
    |source| +
    match At(root, source)
    case Some(File(_, content)) => FileSteps(content)
    case Some(Dir(cs)) => TreeSteps(Dir(cs))
    case _ => 0
  }

  function SourcesSteps(root: Node, sources: seq<Path>): nat
    requires forall i :: 0 <= i < |sources| ==> sources[i] != []
  {
    if sources == [] then 0
    else SourcesSteps(root, sources[..|sources| - 1]) + SourceSteps(root, sources[|sources| - 1])
  }

  /** Every write of a source that is copied from an operation on takes its whole chunk. */
  predicate WholeSource(taken: nat -> nat, root: Node, source: Path, op: nat)
    requires source != []
  {
    match At(root, source)
    case Some(File(_, content)) => WholeWrites(taken, content, op + |source| + 2)
    case Some(Dir(cs)) => WholeTree(taken, Dir(cs), op + |source|)
    case _ => true
  }

  /** Every write of a copy of the sources, one after another, takes its whole chunk. */
  predicate WholeSources(taken: nat -> nat, root: Node, sources: seq<Path>)
    requires forall i :: 0 <= i < |sources| ==> sources[i] != []
  {
    sources != [] ==>
      var front, last := sources[..|sources| - 1], sources[|sources| - 1];
      WholeSources(taken, root, front) && WholeSource(taken, root, last, SourcesSteps(root, front))
  }

  /** When no write is ever short, a generation that is built is the wanted one, whatever the worktree holds. */
  lemma {:induction false} NeverShortSources(taken: nat -> nat, root: Node, sources: seq<Path>)
    requires (forall n :: taken(n) >= CHUNK) && forall i :: 0 <= i < |sources| ==> sources[i] != []
    ensures WholeSources(taken, root, sources)
  {
    if sources != [] {
      var front, last := sources[..|sources| - 1], sources[|sources| - 1];
      NeverShortSources(taken, root, front);
      var op := SourcesSteps(root, front) + |last|;
      match At(root, last)
      case Some(File(_, content)) => NeverShortFile(taken, content, op + 2);
      case Some(Dir(cs)) => NeverShort(taken, Dir(cs), op);
      case _ =>
    }
  }

  /** The source is there, and is a regular file or a directory without links and special nodes. */
  predicate SourceUsable(root: Node, source: Path) {
    match At(root, source)
    case Some(n) => CleanNode(n)
    case None => false
  }

  /** The worktrees a snapshot accepts when nothing fails. */
  ghost predicate Acceptable(root: Node, sources: seq<Path>) {
    && (forall s :: s in sources ==> SourceUsable(root, s))
    && AllEntries(root, sources) <= MAX_FILES && AllBytes(root, sources) <= MAX_BYTES
  }

  /** No source lies in another. */
  ghost predicate Apart(sources: seq<Path>) {
    && (forall i :: 0 <= i < |sources| ==> sources[i] != [])
    && forall i, j :: 0 <= i < |sources| && 0 <= j < |sources| && i != j ==> !Below(sources[i], sources[j])
  }

  lemma SourcesAreApart()
    ensures Apart(SOURCES)
  {
    forall i, j | 0 <= i < |SOURCES| && 0 <= j < |SOURCES| && i != j ensures !Below(SOURCES[i], SOURCES[j]) {
      if Below(SOURCES[i], SOURCES[j]) { SameParts(SOURCES[i], SOURCES[j]); }
    }
  }

  lemma SameParts(p: Path, q: Path)
    requires Below(p, q)
    ensures |p| <= |q| && (|p| > 0 ==> p[0] == q[0]) && (|p| > 1 ==> p[1] == q[1])
    ensures (|p| > 2 ==> p[2] == q[2]) && (|p| > 3 ==> p[3] == q[3])
  {
  }

  lemma {:induction false} DistinctAt(n: Node, path: Path)
    requires DistinctNode(n) && At(n, path).Some?
    ensures DistinctNode(At(n, path).value)
    decreases |path|
  {
    if path != [] {
      var c := Find(n.children, path[0]);
      assert DistinctNode(Child(path[0], c.value).node);
      DistinctAt(c.value, path[1..]);
    }
  }

  lemma {:induction false} WantedLiesWhere(root: Node, sources: seq<Path>, e: Placed)
    requires e in Wanted(root, sources)
    ensures exists s :: s in sources && (Below(s, e.path) || Below(e.path, s))
  {
    var s := sources[|sources| - 1];
    if e in Wanted(root, sources[..|sources| - 1]) {
      WantedLiesWhere(root, sources[..|sources| - 1], e);
      var s' :| s' in sources[..|sources| - 1] && (Below(s', e.path) || Below(e.path, s'));
      assert s' in sources;
    } else {
      if e !in Ancestors(s) && At(root, s).value.Dir? {
        NodeListingLiesBelow(At(root, s).value, s, e);
      }
      assert s in sources;
    }
  }

  /** What other sources placed leaves the place of the next one free. */
  lemma NextSourceIsFree(root: Node, sources: seq<Path>, i: nat)
    requires Apart(sources) && i < |sources|
    ensures FreeBelow(Wanted(root, sources[..i]), sources[i])
  {
    forall e | e in Wanted(root, sources[..i]) ensures !Below(sources[i], e.path) {
      WantedLiesWhere(root, sources[..i], e);
      var s :| s in sources[..i] && (Below(s, e.path) || Below(e.path, s));
      if Below(sources[i], e.path) {
        EitherWay(s, sources[i], e.path);
      }
    }
  }

  lemma EitherWay(s: Path, t: Path, p: Path)
    requires (Below(s, p) || Below(p, s)) && Below(t, p)
    ensures Below(s, t) || Below(t, s)
  {
    if Below(s, p) {
      if |s| <= |t| { assert s == p[..|s|] == t[..|s|]; } else { assert t == p[..|t|] == s[..|t|]; }
    } else {
      assert t == p[..|t|] == s[..|p|][..|t|] == s[..|t|];
    }
  }

  /** Opens the directories above a source, and finds the source. */
  method Locate(root: Node, source: Path) returns (found: Option<Node>)
    ensures found == At(root, source)
  {
    var n, k := root, 0;
    while k < |source|
      invariant 0 <= k <= |source| && At(n, source[k..]) == At(root, source)
    {
      if !n.Dir? { return None; }
      var c := Find(n.children, source[k]);
      if c.None? { return None; }
      assert source[k..][1..] == source[k + 1..];
      n, k := c.value, k + 1;
    }
    return Some(n);
  }

  method MakeAncestors(copy: Copy, source: Path) returns (ok: bool)
    requires copy.Tied()
    modifies copy`ops, copy`dest, copy`meant
    ensures old(copy.ops) <= copy.ops
    ensures ok ==> copy.Tied() && copy.meant == old(copy.meant) + Ancestors(source)
    ensures ok ==> copy.ops == old(copy.ops) + if source == [] then 0 else |source| - 1
    ensures !ok ==> copy.Faulted(old(copy.ops))
  {
    for k := 1 to if |source| > 1 then |source| else 1
      invariant copy.ops == old(copy.ops) + k - 1 && copy.Tied()
      invariant copy.meant == old(copy.meant) + set j | 0 < j < k :: Placed(source[..j], Folder)
    {
      ok := copy.MakeDir(source[..k]);
      if !ok { return; }
    }
    ok := true;
  }

  method CopySource(copy: Copy, root: Node, source: Path) returns (ok: bool)
    requires source != [] && DistinctNode(root) && copy.WithinCaps() && copy.Tied() && FreeBelow(copy.meant, source)
    modifies copy
    ensures old(copy.ops) <= copy.ops
    ensures ok ==> copy.WithinCaps() && copy.Tied() && SourceUsable(root, source)
    ensures ok ==> copy.files == old(copy.files) + EntriesAt(root, source)
    ensures ok ==> copy.total == old(copy.total) + BytesAt(root, source)
    ensures ok ==> copy.meant == old(copy.meant) + PlacedBy(root, source)
    ensures ok ==> copy.ops == old(copy.ops) + SourceSteps(root, source)
    ensures ok ==> copy.whole == (old(copy.whole) && WholeSource(copy.taken, root, source, old(copy.ops)))
    ensures !ok ==> || copy.Faulted(old(copy.ops)) || !SourceUsable(root, source)
                    || old(copy.files) + EntriesAt(root, source) > MAX_FILES
                    || old(copy.total) + BytesAt(root, source) > MAX_BYTES
  {
    ok := copy.Operate();
    if !ok { return; }
    var found := Locate(root, source);
    if found.None? || found.value.Link? || found.value.Special? { return false; }
    DistinctAt(root, source);
    ok := CopyFound(copy, found.value, source);
  }

  /** The directories above a source that has been found, and the source. */
  method CopyFound(copy: Copy, n: Node, source: Path) returns (ok: bool)
    requires source != [] && (n.File? || n.Dir?) && DistinctNode(n)
    requires copy.WithinCaps() && copy.Tied() && FreeBelow(copy.meant, source)
    modifies copy
    ensures old(copy.ops) <= copy.ops
    ensures ok ==> copy.WithinCaps() && copy.Tied() && CleanNode(n)
    ensures ok ==> copy.files == old(copy.files) + (if n.Dir? then EntriesIn(n) else 1)
    ensures ok ==> copy.total == old(copy.total) + (if n.Dir? then BytesIn(n) else |n.content|)
    ensures ok ==> copy.meant == old(copy.meant) + Ancestors(source) + PlacedAt(n, source)
    ensures ok ==> copy.ops == old(copy.ops) + |source| - 1 + (if n.Dir? then TreeSteps(n) else FileSteps(n.content))
    ensures ok ==> copy.whole == (old(copy.whole) &&
                     if n.Dir? then WholeTree(copy.taken, n, old(copy.ops) + |source| - 1)
                     else WholeWrites(copy.taken, n.content, old(copy.ops) + |source| + 1))
    ensures !ok ==> || copy.Faulted(old(copy.ops)) || !CleanNode(n)
                    || old(copy.files) + (if n.Dir? then EntriesIn(n) else 1) > MAX_FILES
                    || old(copy.total) + (if n.Dir? then BytesIn(n) else |n.content|) > MAX_BYTES
  {
    ok := MakeAncestors(copy, source);
    if !ok { return; }
    AncestorsAreAbove(source);
    ok := CopyNode(copy, n, source);
  }

  function PlacedAt(n: Node, source: Path): set<Placed> {
    match n
    case File(x, content) => {Placed(source, Regular(x, content))}
    case Dir(_) => ListingIn(n, source)
    case _ => {}
  }

  /** A source that has been found: a directory with what is in it, or a file. */
  method CopyNode(copy: Copy, n: Node, source: Path) returns (ok: bool)
    requires (n.File? || n.Dir?) && DistinctNode(n) && copy.WithinCaps() && copy.Tied() && FreeBelow(copy.meant, source)
    modifies copy
    ensures old(copy.ops) <= copy.ops
    ensures ok ==> copy.WithinCaps() && copy.Tied() && CleanNode(n)
    ensures ok ==> copy.files == old(copy.files) + (if n.Dir? then EntriesIn(n) else 1)
    ensures ok ==> copy.total == old(copy.total) + (if n.Dir? then BytesIn(n) else |n.content|)
    ensures ok ==> copy.meant == old(copy.meant) + PlacedAt(n, source)
    ensures ok ==> copy.ops == old(copy.ops) + (if n.Dir? then TreeSteps(n) else FileSteps(n.content))
    ensures ok ==> copy.whole == (old(copy.whole) &&
                     if n.Dir? then WholeTree(copy.taken, n, old(copy.ops)) else WholeWrites(copy.taken, n.content, old(copy.ops) + 2))
    ensures !ok ==> || copy.Faulted(old(copy.ops)) || !CleanNode(n)
                    || old(copy.files) + (if n.Dir? then EntriesIn(n) else 1) > MAX_FILES
                    || old(copy.total) + (if n.Dir? then BytesIn(n) else |n.content|) > MAX_BYTES
  {
    if n.Dir? {
      ok := copy.CopyTree(n, source);
    } else {
      assert forall e :: e in copy.meant && e.path == source ==> Below(source, e.path);
      ok := copy.CopyFile(source, n);
    }
  }

  lemma AncestorsAreAbove(source: Path)
    ensures FreeBelow(Ancestors(source), source)
  {
  }

  lemma {:induction false} TotalsGrow(root: Node, sources: seq<Path>, i: nat)
    requires i <= |sources|
    ensures AllEntries(root, sources[..i]) <= AllEntries(root, sources)
    ensures AllBytes(root, sources[..i]) <= AllBytes(root, sources)
  {
    if i < |sources| {
      TotalsGrow(root, sources[..|sources| - 1], i);
      assert sources[..|sources| - 1][..i] == sources[..i];
    } else {
      assert sources[..i] == sources;
    }
  }

  /**
   The copy of every source, verified; it fails only over a fault or a worktree it does not accept. What it holds is
   what is wanted exactly if every write takes its whole chunk; no check of it looks at more than names and kinds.
   */
  method BuildGeneration(copy: Copy, root: Node, sources: seq<Path>) returns (ok: bool)
    requires Apart(sources) && DistinctNode(root) && copy.Empty()
    modifies copy
    ensures ok ==> Built(copy.dest, Wanted(root, sources), WholeSources(copy.taken, root, sources)) && Acceptable(root, sources)
    ensures !ok ==> (exists n: nat :: copy.fault(n)) || !Acceptable(root, sources)
  {
    ok := CopySources(copy, root, sources);
    if !ok { return; }
    ok := Verify(copy, root, sources);
    if !ok { return; }
    ok := copy.Operate();
  }

  /** The sources, one after another. */
  method CopySources(copy: Copy, root: Node, sources: seq<Path>) returns (ok: bool)
    requires Apart(sources) && DistinctNode(root) && copy.Empty()
    modifies copy
    ensures ok ==> copy.Tied() && copy.meant == Wanted(root, sources) && Acceptable(root, sources)
    ensures ok ==> copy.whole == WholeSources(copy.taken, root, sources)
    ensures !ok ==> (exists n: nat :: copy.fault(n)) || !Acceptable(root, sources)
  {
    for i := 0 to |sources|
      invariant SourcesDone(copy, root, sources[..i])
    {
      NextSourceIsFree(root, sources, i);
      TotalsGrow(root, sources, i + 1);
      assert sources[..i + 1] == sources[..i] + [sources[i]];
      assert sources[i] in sources;
      ok := CopyNext(copy, root, sources[..i], sources[i]);
      if !ok { return; }
    }
    assert sources[..|sources|] == sources;
    ok := true;
  }

  /** The copy of some sources, so far. */
  ghost predicate SourcesDone(copy: Copy, root: Node, done: seq<Path>)
    requires forall i :: 0 <= i < |done| ==> done[i] != []
    reads copy
  {
    && copy.WithinCaps() && copy.Tied() && copy.meant == Wanted(root, done)
    && copy.files == AllEntries(root, done) && copy.total == AllBytes(root, done)
    && copy.ops == SourcesSteps(root, done) && copy.whole == WholeSources(copy.taken, root, done)
    && forall k :: 0 <= k < |done| ==> SourceUsable(root, done[k])
  }

  /** One source more. */
  method CopyNext(copy: Copy, root: Node, ghost done: seq<Path>, source: Path) returns (ok: bool)
    requires (forall i :: 0 <= i < |done| ==> done[i] != []) && source != [] && DistinctNode(root)
    requires SourcesDone(copy, root, done) && FreeBelow(copy.meant, source)
    modifies copy
    ensures ok ==> SourcesDone(copy, root, done + [source])
    ensures !ok ==> || (exists n: nat :: copy.fault(n)) || !SourceUsable(root, source)
                    || AllEntries(root, done + [source]) > MAX_FILES || AllBytes(root, done + [source]) > MAX_BYTES
  {
    ghost var more := done + [source];
    assert more[..|more| - 1] == done && more[|more| - 1] == source;
    ok := CopySource(copy, root, source);
  }

  /** A generation at all the wanted paths, and the wanted one exactly if its writes were whole. */
  ghost predicate Built(dest: set<Placed>, wanted: set<Placed>, whole: bool) {
    Mirrors(dest, wanted, whole) && (dest == wanted <==> whole)
  }

  /** Every source is in the copy. */
  method Verify(copy: Copy, root: Node, sources: seq<Path>) returns (ok: bool)
    requires copy.Tied() && copy.meant == Wanted(root, sources) && Acceptable(root, sources)
    modifies copy`ops
    ensures !ok ==> copy.Faulted(old(copy.ops))
  {
    ok := copy.Operate();
    if !ok { return; }
    for i := 0 to |sources| {
      SourceIsPlaced(root, sources, i);
      ok := HasPath(copy.dest, sources[i]);
      if !ok { return; }
    }
  }

  lemma {:induction false} SourceIsPlaced(root: Node, sources: seq<Path>, i: nat)
    requires i < |sources| && SourceUsable(root, sources[i])
    ensures HasPath(Wanted(root, sources), sources[i])
  {
    if i < |sources| - 1 {
      SourceIsPlaced(root, sources[..|sources| - 1], i);
    } else {
      var s := sources[i];
      if At(root, s).value.Dir? {
        assert Placed(s, Folder) in PlacedBy(root, s);
      } else {
        var n := At(root, s).value;
        assert Placed(s, Regular(n.executable, n.content)) in PlacedBy(root, s);
      }
    }
  }

  // ---- the swap

  /** What a name in the stack directory leads to. */
  datatype Slot = Absent | Holds(copy: set<Placed>) | Foreign

  datatype Outcome = Refreshed | RefusedBefore | StoppedBetween | StoppedAfter

  class Stack {
    var live: Slot
    var next: Slot
    var previous: Slot
    /** How many refreshes have been made. */
    var round: nat
    /** Whether the n-th operation of a round fails, and what a failed removal leaves. */
    const fault: (nat, nat) -> bool
    const left: (nat, nat) -> set<Placed>

    constructor (fault: (nat, nat) -> bool, left: (nat, nat) -> set<Placed>)
      ensures this.fault == fault && this.left == left && live == next == previous == Absent && round == 0
    {
      this.fault, this.left, round := fault, left, 0;
      live, next, previous := Absent, Absent, Absent;
    }

    /** A removed generation; a failed removal leaves a part of a tree, or the thing itself. */
    function Removed(s: Slot, n: nat): Slot
      reads this`round
    {
      if !fault(round, n) then Absent
      else match s case Holds(g) => Holds(g * left(round, n)) case _ => s
    }

    ghost predicate Faulty(k: nat) {
      exists n: nat :: fault(k, n)
    }

    /**
     Builds the copy beside the live one and swaps it in. The live name always leads to what it led to, to nothing with
     the earlier copy kept under the previous name and the new one under the next, or to the new copy; the new copy is
     what is wanted exactly if its writes are whole.
     */
    method Refresh(copy: Copy, root: Node, sources: seq<Path>) returns (r: Outcome)
      requires Apart(sources) && DistinctNode(root) && copy.Empty()
      modifies this, copy
      ensures round == old(round) + 1
      ensures r != RefusedBefore ==>
        Built(copy.dest, Wanted(root, sources), WholeSources(copy.taken, root, sources)) && Acceptable(root, sources)
      ensures Moved(r, copy.dest, old(live))
      ensures r == RefusedBefore && !Faulty(old(round)) ==>
        next == Absent && previous == Absent && ((exists n: nat :: copy.fault(n)) || !Acceptable(root, sources))
      ensures r in {StoppedBetween, StoppedAfter} ==> Faulty(old(round))
    {
      r := Attempt(copy, root, sources);
      round := round + 1;
    }

    /** Where an outcome leaves the names, for the new copy and what was live. */
    ghost predicate Moved(r: Outcome, copy: set<Placed>, was: Slot)
      reads this`live, this`next, this`previous
    {
      match r
      case Refreshed => live == Holds(copy) && next == Absent && previous == Absent
      case RefusedBefore => live == was
      case StoppedBetween => live == Absent && previous == was != Absent && next == Holds(copy)
      case StoppedAfter => live == Holds(copy) && next == Absent
    }

    method Attempt(copy: Copy, root: Node, sources: seq<Path>) returns (r: Outcome)
      requires Apart(sources) && DistinctNode(root) && copy.Empty()
      modifies this`live, this`next, this`previous, copy
      ensures r != RefusedBefore ==>
        Built(copy.dest, Wanted(root, sources), WholeSources(copy.taken, root, sources)) && Acceptable(root, sources)
      ensures Moved(r, copy.dest, old(live))
      ensures r == RefusedBefore && !Faulty(round) ==>
        next == Absent && previous == Absent && ((exists n: nat :: copy.fault(n)) || !Acceptable(root, sources))
      ensures r in {StoppedBetween, StoppedAfter} ==> Faulty(round)
    {
      var cleared := Clear();
      if !cleared { return RefusedBefore; }
      var built := BuildGeneration(copy, root, sources);
      next := Holds(copy.dest);
      if !built {
        next := Removed(next, 2);
        return RefusedBefore;
      }
      r := Swap(copy.dest);
    }

    /** What an earlier refresh has left is removed. */
    method Clear() returns (ok: bool)
      modifies this`next, this`previous
      ensures ok ==> next == Absent && previous == Absent
      ensures !ok ==> Faulty(round)
    {
      next := Removed(next, 0);
      if fault(round, 0) && next != Absent { return false; }
      previous := Removed(previous, 1);
      ok := !fault(round, 1) || previous == Absent;
    }

    /** The two renames, and the removal of what was live. */
    method Swap(ghost built: set<Placed>) returns (r: Outcome)
      requires next == Holds(built) && previous == Absent
      modifies this`live, this`next, this`previous
      ensures Moved(r, built, old(live))
      ensures r != Refreshed ==> Faulty(round)
    {
      if live != Absent {
        if fault(round, 3) { return RefusedBefore; }
        live, previous := Absent, live;
      }
      if fault(round, 4) { return if previous == Absent then RefusedBefore else StoppedBetween; }
      live, next := next, Absent;
      previous := Removed(previous, 5);
      if fault(round, 5) && previous != Absent { return StoppedAfter; }
      if fault(round, 6) { return StoppedAfter; }
      return Refreshed;
    }

    /**
     Any number of refreshes. Live holds the generation of the last refresh that was not refused, or what it held at the
     start. After a stop between the renames that generation is under the next name and the earlier one under the
     previous; but the next refresh begins by removing both, and if that one is refused without a fault no name holds
     anything.
     */
    method Refreshes(worktrees: seq<Worktree>, sources: seq<Path>) returns (outcomes: seq<Outcome>)
      requires Apart(sources) && forall w :: w in worktrees ==> DistinctNode(w.root)
      modifies this
      ensures |outcomes| == |worktrees| && round == old(round) + |worktrees|
      ensures Stands(outcomes, worktrees, sources, old(live))
    {
      outcomes := [];
      for i := 0 to |worktrees|
        invariant |outcomes| == i && round == old(round) + i
        invariant Stands(outcomes, worktrees, sources, old(live))
      {
        assert worktrees[i] in worktrees;
        var r := RefreshNext(worktrees[i], sources, outcomes, worktrees, old(live));
        outcomes := outcomes + [r];
      }
    }

    /** Where the names lead after some refreshes. */
    ghost predicate Stands(outcomes: seq<Outcome>, worktrees: seq<Worktree>, sources: seq<Path>, atFirst: Slot)
      requires Apart(sources) && |outcomes| <= |worktrees|
      reads this
    {
      && LiveAfter(live, outcomes, worktrees, sources, atFirst)
      && (outcomes != [] && outcomes[|outcomes| - 1] == StoppedBetween ==>
            && IsBuilt(next, worktrees[|outcomes| - 1], sources)
            && LiveAfter(previous, outcomes[..|outcomes| - 1], worktrees, sources, atFirst) && previous != Absent)
      && (LostAfter(outcomes) && round > 0 && !Faulty(round - 1) ==> live == next == previous == Absent)
    }

    /** The next refresh, after some. */
    method RefreshNext(w: Worktree, sources: seq<Path>, ghost outcomes: seq<Outcome>, ghost worktrees: seq<Worktree>, ghost atFirst: Slot)
      returns (r: Outcome)
      requires Apart(sources) && |outcomes| < |worktrees| && w == worktrees[|outcomes|] && DistinctNode(w.root)
      requires Stands(outcomes, worktrees, sources, atFirst)
      modifies this
      ensures round == old(round) + 1
      ensures Stands(outcomes + [r], worktrees, sources, atFirst)
    {
      r := RefreshFrom(w, sources);
      ghost var more := outcomes + [r];
      assert more[..|more| - 1] == outcomes;
      assert |outcomes| > 0 ==> more[|more| - 2] == outcomes[|outcomes| - 1];
    }

    /** One refresh from a worktree, whatever befalls its copy. */
    method RefreshFrom(w: Worktree, sources: seq<Path>) returns (r: Outcome)
      requires Apart(sources) && DistinctNode(w.root)
      modifies this
      ensures round == old(round) + 1
      ensures match r
              case RefusedBefore => live == old(live) && (Faulty(old(round)) || (next == Absent && previous == Absent))
              case StoppedBetween => live == Absent && previous == old(live) != Absent && IsBuilt(next, w, sources)
              case _ => IsBuilt(live, w, sources)
    {
      var copy := new Copy(w.fault, w.taken);
      r := Refresh(copy, w.root, sources);
    }
  }

  /** A worktree, and what befalls its copy. */
  datatype Worktree = Worktree(root: Node, fault: nat -> bool, taken: nat -> nat)

  /** A generation built from a worktree: all the wanted paths, and the wanted content exactly if its writes are whole. */
  ghost predicate IsBuilt(s: Slot, w: Worktree, sources: seq<Path>)
    requires Apart(sources)
  {
    && s.Holds? && Built(s.copy, Wanted(w.root, sources), WholeSources(w.taken, w.root, sources))
    && Acceptable(w.root, sources)
  }

  /** What the live name leads to: the generation of the last refresh that was not refused. */
  ghost predicate LiveAfter(live: Slot, outcomes: seq<Outcome>, worktrees: seq<Worktree>, sources: seq<Path>, atFirst: Slot)
    requires Apart(sources) && |outcomes| <= |worktrees|
  {
    if outcomes == [] then live == atFirst
    else
      match outcomes[|outcomes| - 1]
      case RefusedBefore => LiveAfter(live, outcomes[..|outcomes| - 1], worktrees, sources, atFirst)
      case StoppedBetween => live == Absent
      case _ => IsBuilt(live, worktrees[|outcomes| - 1], sources)
  }

  /** A refused refresh right after one that stopped between the renames. */
  predicate LostAfter(outcomes: seq<Outcome>) {
    |outcomes| >= 2 && outcomes[|outcomes| - 1] == RefusedBefore && outcomes[|outcomes| - 2] == StoppedBetween
  }

  // ---- a short write

  const TEN: seq<byte> := [0, 1, 2, 3, 4, 5, 6, 7, 8, 9]
  const FOUR: seq<byte> := [0, 1, 2, 3]

  /** A file of ten bytes, a write that takes four of them, no fault anywhere: the copy succeeds, and holds four bytes. */
  method ShortWriteIsUnseen() returns (copy: Copy, ok: bool)
    ensures ok && copy.dest == {Placed(["f"], Regular(false, FOUR))}
    ensures copy.meant == {Placed(["f"], Regular(false, TEN))}
  {
    copy := new Copy(n => false, n => 4);
    FirstChunkOnly(copy.taken, 2);
    assert !HasPath(copy.meant, ["f"]);
    ok := copy.CopyFile(["f"], File(false, TEN));
  }

  lemma FirstChunkOnly(taken: nat -> nat, op: nat)
    requires taken(op) == 4
    ensures AsWritten(taken, TEN, op) == FOUR && !WholeWrites(taken, TEN, op)
  {
    assert AsWritten(taken, TEN[10..], op + 1) == [];
    assert TEN[..4] == FOUR;
  }

  /** And it is swapped in: the refresh succeeds, and what is live is not what is wanted. */
  method ShortCopyGoesLive() returns (stack: Stack, r: Outcome)
    ensures r == Refreshed && stack.live.Holds?
    ensures stack.live.copy != Wanted(OneFile(), [["f"]]) == {Placed(["f"], Regular(false, TEN))}
  {
    stack := new Stack((k, n) => false, (k, n) => {});
    var copy := new Copy(n => false, n => 4);
    OneFileIsWanted(copy.taken);
    r := stack.Refresh(copy, OneFile(), [["f"]]);
  }

  function OneFile(): Node {
    Dir([Child("f", File(false, TEN))])
  }

  lemma OneFileIsWanted(taken: nat -> nat)
    requires taken(3) == 4
    ensures Apart([["f"]]) && DistinctNode(OneFile()) && Acceptable(OneFile(), [["f"]])
    ensures Wanted(OneFile(), [["f"]]) == {Placed(["f"], Regular(false, TEN))}
    ensures !WholeSources(taken, OneFile(), [["f"]])
  {
    var sources: seq<Path> := [["f"]];
    assert ["f"][1..] == [];
    assert At(OneFile(), ["f"]) == Some(File(false, TEN));
    assert sources[..0] == [];
    FirstChunkOnly(taken, 3);
  }
}
