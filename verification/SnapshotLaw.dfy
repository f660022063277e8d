/**
 What a snapshot holds, told path by path from the worktree (tools/agent_mcp/stack.py): which files are left out of it,
 what it refuses, and what its caps count.
 */
module SnapshotLaw {
  import opened Options
  import opened Tree
  import opened SnapshotCopy
  import opened Snapshot

  /** A live env file: .env alone, or .env. and then anything but default. */
  predicate IsLiveEnv(name: string) {
    name == ".env" || (|name| >= 5 && name[..5] == ".env." && name[5..] != "default")
  }

  lemma SkippedExactly(name: string)
    ensures Skipped(name) <==> IsLiveEnv(name)
  {
    if |name| >= 5 && name[..5] == ".env." {
      assert name == ".env." + name[5..];
    }
    assert ".env.default"[5..] == "default";
  }

  /** No cache directory is among the names. */
  predicate Uncached(names: Path) {
    forall i :: 0 <= i < |names| ==> names[i] != CACHE
  }

  /** What a copy keeps of the node at the end of a walk. */
  predicate Keeps(found: Option<Node>, rel: Path, entry: Entry) {
    match found
    case Some(Dir(_)) => entry == Folder && Uncached(rel)
    case Some(File(x, content)) =>
      entry == Regular(x, content) && rel != [] && Uncached(rel[..|rel| - 1]) && !IsLiveEnv(rel[|rel| - 1])
    case _ => false
  }

  lemma {:induction false} KeptExactly(n: Node, rel: Path, entry: Entry)
    requires n.Dir?
    ensures KeptAt(n, rel) == Some(entry) <==> Keeps(At(n, rel), rel, entry)
    decreases |rel|
  {
    if rel != [] {
      var c := Find(n.children, rel[0]);
      if c.Some? {
        SkippedExactly(rel[0]);
        UncachedCons(rel);
        if c.value.Dir? { KeptExactly(c.value, rel[1..], entry); }
      }
    }
  }

  lemma UncachedCons(rel: Path)
    requires rel != []
    ensures Uncached(rel) <==> rel[0] != CACHE && Uncached(rel[1..])
    ensures |rel| > 1 ==>
      && rel[|rel| - 1] == rel[1..][|rel| - 2]
      && (Uncached(rel[..|rel| - 1]) <==> rel[0] != CACHE && Uncached(rel[1..][..|rel| - 2]))
  {
    var rest := rel[1..];
    assert forall i :: 0 <= i < |rest| ==> rest[i] == rel[i + 1];
    if Uncached(rest) && rel[0] != CACHE {
      forall i | 0 <= i < |rel| ensures rel[i] != CACHE { if i > 0 { assert rel[i] == rest[i - 1]; } }
    }
    if |rel| > 1 {
      var front, f := rel[..|rel| - 1], rest[..|rel| - 2];
      assert forall i :: 0 <= i < |f| ==> f[i] == front[i + 1];
      if Uncached(f) && rel[0] != CACHE {
        forall i | 0 <= i < |front| ensures front[i] != CACHE { if i > 0 { assert front[i] == f[i - 1]; } }
      }
    }
  }

  /**
   The listing of a directory: every directory on a walk through no cache directory, and every regular file at the end of
   one whose own name is no live env file's, as it is there; and nothing else.
   */
  lemma ListedExactly(n: Node, here: Path, rel: Path, entry: Entry)
    requires n.Dir? && DistinctNode(n)
    ensures Placed(here + rel, entry) in ListingIn(n, here) <==> Keeps(At(n, rel), rel, entry)
  {
    ListingIsWhatIsKept(n, here, Placed(here + rel, entry));
    assert (here + rel)[|here|..] == rel;
    KeptExactly(n, rel, entry);
  }

  // ---- what is refused

  /** A link or a special node where the walk meets it; a cache directory, and a link to a directory named so, it passes over. */
  predicate Forbidden(n: Node, rel: Path) {
    && rel != [] && Uncached(rel[..|rel| - 1])
    && match At(n, rel)
       case Some(Link(toDirectory)) => !(toDirectory && rel[|rel| - 1] == CACHE)
       case Some(Special) => true
       case _ => false
  }

  /** One step down a walk. */
  lemma ForbiddenBelow(n: Node, rel: Path)
    requires n.Dir? && rel != [] && Find(n.children, rel[0]).Some?
    ensures var m := Find(n.children, rel[0]).value;
      Forbidden(n, rel) <==>
      if |rel| == 1 then m.Special? || (m.Link? && !(m.toDirectory && rel[0] == CACHE))
      else m.Dir? && rel[0] != CACHE && Forbidden(m, rel[1..])
  {
    var m := Find(n.children, rel[0]).value;
    UncachedCons(rel);
    assert At(n, rel) == At(m, rel[1..]);
    if |rel| == 1 { assert rel[1..] == [] && rel[..0] == []; }
  }

  lemma {:induction false} CleanMeetsNone(n: Node, rel: Path)
    requires n.Dir? && CleanNode(n)
    ensures !Forbidden(n, rel)
    decreases |rel|
  {
    if rel != [] && Find(n.children, rel[0]).Some? {
      var m := Find(n.children, rel[0]).value;
      var i :| 0 <= i < |n.children| && n.children[i] == Child(rel[0], m);
      CleanChildren(n.children, i);
      ForbiddenBelow(n, rel);
      if |rel| > 1 && m.Dir? && rel[0] != CACHE { CleanMeetsNone(m, rel[1..]); }
    }
  }

  lemma {:induction false} UncleanMeetsOne(n: Node) returns (rel: Path)
    requires n.Dir? && DistinctNode(n) && !CleanNode(n)
    ensures Forbidden(n, rel)
    decreases n
  {
    var i := UncleanChild(n.children);
    var c := n.children[i];
    FindIsUnique(n.children, c);
    if c.node.Dir? {
      assert DistinctNode(c.node);
      var rest := UncleanMeetsOne(c.node);
      rel := [c.name] + rest;
      assert rel[1..] == rest;
    } else {
      rel := [c.name];
    }
    ForbiddenBelow(n, rel);
  }

  lemma UncleanChild(cs: seq<Child>) returns (i: nat)
    requires !Clean(cs)
    ensures i < |cs| && !Pruned(cs[i]) && !CleanNode(cs[i].node)
  {
    if forall k :: 0 <= k < |cs| ==> Pruned(cs[k]) || CleanNode(cs[k].node) { CleanIfChildrenAre(cs); }
    i :| 0 <= i < |cs| && !Pruned(cs[i]) && !CleanNode(cs[i].node);
  }

  /** A directory is refused exactly when some walk through no cache directory meets a link or a special node. */
  lemma {:induction false} CleanExactly(n: Node)
    requires n.Dir? && DistinctNode(n)
    ensures CleanNode(n) <==> forall rel :: !Forbidden(n, rel)
  {
    if CleanNode(n) {
      forall rel ensures !Forbidden(n, rel) { CleanMeetsNone(n, rel); }
    } else {
      var rel := UncleanMeetsOne(n);
    }
  }

  // ---- the whole snapshot

  /** Where a walk goes on from a node. */
  lemma {:induction false} AtGoesOn(n: Node, p: Path, k: nat)
    requires k <= |p|
    ensures At(n, p) == match At(n, p[..k]) case Some(m) => At(m, p[k..]) case None => None
    decreases k
  {
    if k == 0 {
      assert p[..0] == [] && p[0..] == p;
    } else if n.Dir? && Find(n.children, p[0]).Some? {
      AtGoesOn(Find(n.children, p[0]).value, p[1..], k - 1);
      assert p[..k][1..] == p[1..][..k - 1] && p[1..][k - 1..] == p[k..];
    }
  }

  /** What one source brings: the directories above it, and itself, a directory pruned. */
  predicate Brings(root: Node, source: Path, p: Path, entry: Entry) {
    || (0 < |p| < |source| && p <= source && entry == Folder)
    || (source <= p && BringsBelow(root, source, p, entry))
  }

  predicate BringsBelow(root: Node, source: Path, p: Path, entry: Entry)
    requires source <= p
  {
    if p == source && At(root, p).Some? && At(root, p).value.File?
    then entry == Regular(At(root, p).value.executable, At(root, p).value.content)
    else Keeps(At(root, p), p[|source|..], entry)
  }

  lemma PlacedExactly(root: Node, source: Path, p: Path, entry: Entry)
    requires DistinctNode(root) && SourceUsable(root, source)
    ensures Placed(p, entry) in PlacedBy(root, source) <==> Brings(root, source, p, entry)
  {
    var n := At(root, source).value;
    AboveExactly(source, p, entry);
    if source <= p {
      AtGoesOn(root, p, |source|);
      assert p == source + p[|source|..];
    }
    if n.Dir? {
      DistinctAt(root, source);
      if source <= p {
        ListedExactly(n, source, p[|source|..], entry);
      } else if Placed(p, entry) in ListingIn(n, source) {
        NodeListingLiesBelow(n, source, Placed(p, entry));
      }
    }
  }

  lemma AboveExactly(source: Path, p: Path, entry: Entry)
    ensures Placed(p, entry) in Ancestors(source) <==> 0 < |p| < |source| && p <= source && entry == Folder
  {
    if 0 < |p| < |source| && p <= source { assert p == source[..|p|]; }
  }

  /** A snapshot of an acceptable worktree: what its sources bring, path by path, and nothing else. */
  lemma {:induction false} WantedExactly(root: Node, sources: seq<Path>, p: Path, entry: Entry)
    requires DistinctNode(root) && forall s :: s in sources ==> SourceUsable(root, s)
    ensures Placed(p, entry) in Wanted(root, sources) <==> exists s :: s in sources && Brings(root, s, p, entry)
  {
    if sources != [] {
      var front, last := sources[..|sources| - 1], sources[|sources| - 1];
      assert forall s :: s in sources <==> s in front || s == last;
      WantedExactly(root, front, p, entry);
      PlacedExactly(root, last, p, entry);
    }
  }

  /** No file of the snapshot is a live env file of the worktree, unless it is itself named as a source; none lies in a cache. */
  lemma LiveHoldsNoEnv(live: Slot, w: Worktree, sources: seq<Path>, e: Placed)
    requires Apart(sources) && DistinctNode(w.root) && IsBuilt(live, w, sources) && e in live.copy && e.entry.Regular?
    ensures e.path != [] && (e.path in sources || !IsLiveEnv(e.path[|e.path| - 1]))
    ensures At(w.root, e.path).Some? && At(w.root, e.path).value.File? && At(w.root, e.path).value.executable == e.entry.executable
    ensures exists s :: s in sources && s <= e.path && (e.path == s || Uncached(e.path[|s|..|e.path| - 1]))
  {
    var wanted := Wanted(w.root, sources);
    assert (e.path, e.entry.executable) in FilesIn(live.copy);
    assert (e.path, e.entry.executable) in FilesIn(wanted);
    var m :| m in wanted && m.entry.Regular? && (m.path, m.entry.executable) == (e.path, e.entry.executable);
    WantedExactly(w.root, sources, m.path, m.entry);
    var s :| s in sources && Brings(w.root, s, m.path, m.entry);
    BroughtFile(w.root, s, m.path, m.entry);
  }

  lemma BroughtFile(root: Node, s: Path, p: Path, entry: Entry)
    requires Brings(root, s, p, entry) && entry.Regular? && s != []
    ensures s <= p && (p == s || (!IsLiveEnv(p[|p| - 1]) && Uncached(p[|s|..|p| - 1])))
    ensures At(root, p).Some? && At(root, p).value.File? && At(root, p).value.executable == entry.executable
  {
    var rel := p[|s|..];
    if p != s && rel != [] { assert rel[|rel| - 1] == p[|p| - 1] && rel[..|rel| - 1] == p[|s|..|p| - 1]; }
  }

  /** And every other regular file beneath a source is there, with its own content where every write was whole. */
  lemma LiveHoldsTheRest(live: Slot, w: Worktree, sources: seq<Path>, s: Path, p: Path)
    requires Apart(sources) && DistinctNode(w.root) && IsBuilt(live, w, sources)
    requires s in sources && s < p && At(w.root, p).Some? && At(w.root, p).value.File?
    requires Uncached(p[|s|..|p| - 1]) && !IsLiveEnv(p[|p| - 1])
    ensures (p, At(w.root, p).value.executable) in FilesIn(live.copy)
    ensures WholeSources(w.taken, w.root, sources) ==>
      Placed(p, Regular(At(w.root, p).value.executable, At(w.root, p).value.content)) in live.copy
  {
    var n := At(w.root, p).value;
    FileIsBrought(w.root, s, p);
    WantedExactly(w.root, sources, p, Regular(n.executable, n.content));
    FileIsIn(Wanted(w.root, sources), Placed(p, Regular(n.executable, n.content)));
  }

  lemma FileIsIn(placed: set<Placed>, e: Placed)
    requires e in placed && e.entry.Regular?
    ensures (e.path, e.entry.executable) in FilesIn(placed)
  {
  }

  lemma FileIsBrought(root: Node, s: Path, p: Path)
    requires s < p && At(root, p).Some? && At(root, p).value.File?
    requires Uncached(p[|s|..|p| - 1]) && !IsLiveEnv(p[|p| - 1])
    ensures Brings(root, s, p, Regular(At(root, p).value.executable, At(root, p).value.content))
  {
    var rel := p[|s|..];
    assert rel[|rel| - 1] == p[|p| - 1] && rel[..|rel| - 1] == p[|s|..|p| - 1];
  }

  /** No source of the snapshot is named as a live env file is, so none goes live. */
  lemma SourcesAreNoEnv()
    ensures forall s :: s in SOURCES ==> s != [] && !IsLiveEnv(s[|s| - 1])
  {
    EarlierAreUndotted();
    LaterAreUndotted();
    BothHalves(SOURCES, 8);
  }

  lemma BothHalves(sources: seq<Path>, k: nat)
    requires k <= |sources| && forall s :: s in sources[..k] || s in sources[k..] ==> Undotted(s)
    ensures forall s :: s in sources ==> s != [] && !IsLiveEnv(s[|s| - 1])
  {
    assert sources == sources[..k] + sources[k..];
    forall s | s in sources ensures s != [] && !IsLiveEnv(s[|s| - 1]) {
      assert Undotted(s);
    }
  }

  predicate Undotted(s: Path) {
    s != [] && s[|s| - 1] != "" && s[|s| - 1][0] != '.'
  }

  lemma EarlierAreUndotted()
    ensures |SOURCES| > 8 && forall s :: s in SOURCES[..8] ==> Undotted(s)
  {
  }

  lemma LaterAreUndotted()
    ensures |SOURCES| > 8 && forall s :: s in SOURCES[8..] ==> Undotted(s)
  {
  }

  // ---- what the caps count

  lemma AddsAreApart(cs: seq<Child>, here: Path)
    requires cs != [] && Distinct(cs)
    ensures Listing(cs[..|cs| - 1], here) !! Adds(cs[|cs| - 1], here)
    ensures Listing(cs, here) == Listing(cs[..|cs| - 1], here) + Adds(cs[|cs| - 1], here)
  {
    var front, c := cs[..|cs| - 1], cs[|cs| - 1];
    forall e | e in Listing(front, here) ensures e !in Adds(c, here) {
      ListingLiesBelow(front, here, e);
      var d :| d in front && !Pruned(d) && Below(here + [d.name], e.path) && |e.path| > |here|;
      var i :| 0 <= i < |front| && front[i] == d;
      assert cs[i].name != cs[|cs| - 1].name;
      AddsLieBelow(c, here, e);
    }
  }

  lemma AddsLieBelow(c: Child, here: Path, e: Placed)
    ensures e in Adds(c, here) ==> |e.path| > |here| && e.path[|here|] == c.name
  {
    if e in Adds(c, here) && c.node.Dir? { NodeListingLiesBelow(c.node, here + [c.name], e); }
  }

  lemma {:induction false} ListingSize(cs: seq<Child>, here: Path)
    requires Distinct(cs)
    ensures |Listing(cs, here)| == Entries(cs)
    decreases cs, 0
  {
    if cs != [] {
      var front, c := cs[..|cs| - 1], cs[|cs| - 1];
      assert forall d :: d in front ==> d in cs;
      ListingSize(front, here);
      AddsAreApart(cs, here);
      if c.node.Dir? {
        assert DistinctNode(c.node);
        EntriesAreListed(c.node, here + [c.name]);
      }
    }
  }

  /** The cap on files counts what is placed below the directory that is copied. */
  lemma {:induction false} EntriesAreListed(n: Node, here: Path)
    requires n.Dir? && DistinctNode(n)
    ensures |ListingIn(n, here)| == EntriesIn(n) + 1
    decreases n, 1
  {
    ListingSize(n.children, here);
    if Placed(here, Folder) in Listing(n.children, here) { ListingLiesBelow(n.children, here, Placed(here, Folder)); }
  }

  function Length(e: Placed): nat {
    match e.entry case Regular(_, content) => |content| case Folder => 0
  }

  /** The bytes of all placed things together. */
  ghost function TotalLength(placed: set<Placed>): nat {
    if placed == {} then 0 else var e :| e in placed; Length(e) + TotalLength(placed - {e})
  }

  lemma {:induction false} LengthWithout(placed: set<Placed>, e: Placed)
    requires e in placed
    ensures TotalLength(placed) == Length(e) + TotalLength(placed - {e})
    decreases |placed|
  {
    var first :| first in placed && TotalLength(placed) == Length(first) + TotalLength(placed - {first});
    if first != e {
      LengthWithout(placed - {first}, e);
      LengthWithout(placed - {e}, first);
      assert placed - {first} - {e} == placed - {e} - {first};
    }
  }

  lemma {:induction false} LengthOfBoth(a: set<Placed>, b: set<Placed>)
    requires a !! b
    ensures TotalLength(a + b) == TotalLength(a) + TotalLength(b)
    decreases |b|
  {
    if b == {} {
      assert a + b == a;
    } else {
      var e :| e in b;
      LengthOfBoth(a, b - {e});
      LengthWithout(b, e);
      LengthWithout(a + b, e);
      assert a + b - {e} == a + (b - {e});
    }
  }

  lemma LengthOfOne(e: Placed)
    ensures TotalLength({e}) == Length(e)
  {
    LengthWithout({e}, e);
    assert {e} - {e} == {};
  }

  lemma {:induction false} ListingBytes(cs: seq<Child>, here: Path)
    requires Distinct(cs)
    ensures TotalLength(Listing(cs, here)) == Bytes(cs)
    decreases cs, 0
  {
    if cs != [] {
      var front, c := cs[..|cs| - 1], cs[|cs| - 1];
      assert forall d :: d in front ==> d in cs;
      ListingBytes(front, here);
      AddsAreApart(cs, here);
      LengthOfBoth(Listing(front, here), Adds(c, here));
      if c.node.Dir? {
        assert DistinctNode(c.node);
        BytesAreListed(c.node, here + [c.name]);
      } else if Copied(c) {
        LengthOfOne(Placed(here + [c.name], Regular(c.node.executable, c.node.content)));
      }
    }
  }

  /** The cap on bytes counts every byte of every file placed, and no other. */
  lemma {:induction false} BytesAreListed(n: Node, here: Path)
    requires n.Dir? && DistinctNode(n)
    ensures TotalLength(ListingIn(n, here)) == BytesIn(n)
    decreases n, 1
  {
    ListingBytes(n.children, here);
    if Placed(here, Folder) in Listing(n.children, here) { ListingLiesBelow(n.children, here, Placed(here, Folder)); }
    LengthOfBoth({Placed(here, Folder)}, Listing(n.children, here));
    LengthOfOne(Placed(here, Folder));
  }

  /** What a source adds to the two caps: each thing placed at or below it but a directory itself, and all their bytes. */
  lemma SourceIsCounted(root: Node, source: Path)
    requires DistinctNode(root) && SourceUsable(root, source)
    ensures var placed := PlacedBy(root, source) - Ancestors(source);
      && |placed| == EntriesAt(root, source) + (if At(root, source).value.Dir? then 1 else 0)
      && TotalLength(placed) == BytesAt(root, source)
  {
    var n := At(root, source).value;
    var placed := PlacedBy(root, source) - Ancestors(source);
    if n.Dir? {
      DistinctAt(root, source);
      forall e | e in ListingIn(n, source) ensures e !in Ancestors(source) { NodeListingLiesBelow(n, source, e); }
      assert placed == ListingIn(n, source);
      EntriesAreListed(n, source);
      BytesAreListed(n, source);
    } else {
      var e := Placed(source, Regular(n.executable, n.content));
      assert placed == {e};
      LengthOfOne(e);
    }
  }
}
