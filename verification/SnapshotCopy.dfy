/**
 The copy of one snapshot (tools/agent_mcp/stack.py, `_Copy`): a walk that follows no link, counts what it copies and
 refuses past its caps. Any operation may also fail, or find the copy cancelled, and any write may take a part of its
 chunk only, which the copy does not look at.
 */
module SnapshotCopy {
  import opened Tree

  const MAX_BYTES := 200 * 1024 * 1024
  const MAX_FILES := 20_000
  const CHUNK := 1024 * 1024

  // ---- the parts of one directory, in the order the walk takes them

  function Folders(cs: seq<Child>): nat {
    if cs == [] then 0
    else Folders(cs[..|cs| - 1]) + if !Pruned(cs[|cs| - 1]) && cs[|cs| - 1].node.Dir? then 1 else 0
  }

  function Files(cs: seq<Child>): nat {
    if cs == [] then 0
    else Files(cs[..|cs| - 1]) + if Copied(cs[|cs| - 1]) then 1 else 0
  }

  function FileBytes(cs: seq<Child>): nat {
    if cs == [] then 0
    else FileBytes(cs[..|cs| - 1]) + if Copied(cs[|cs| - 1]) then |cs[|cs| - 1].node.content| else 0
  }

  function FilePlaced(c: Child, here: Path): set<Placed> {
    if Copied(c) then {Placed(here + [c.name], Regular(c.node.executable, c.node.content))} else {}
  }

  function FilesPlaced(cs: seq<Child>, here: Path): set<Placed> {
    if cs == [] then {} else FilesPlaced(cs[..|cs| - 1], here) + FilePlaced(cs[|cs| - 1], here)
  }

  predicate Entered(c: Child) {
    c.node.Dir? && !Pruned(c)
  }

  function DeepEntries(cs: seq<Child>): nat {
    if cs == [] then 0
    else DeepEntries(cs[..|cs| - 1]) + if Entered(cs[|cs| - 1]) then EntriesIn(cs[|cs| - 1].node) else 0
  }

  function DeepBytes(cs: seq<Child>): nat {
    if cs == [] then 0
    else DeepBytes(cs[..|cs| - 1]) + if Entered(cs[|cs| - 1]) then BytesIn(cs[|cs| - 1].node) else 0
  }

  function DeepListing(cs: seq<Child>, here: Path): set<Placed> {
    if cs == [] then {}
    else
      var c := cs[|cs| - 1];
      DeepListing(cs[..|cs| - 1], here) + if Entered(c) then ListingIn(c.node, here + [c.name]) else {}
  }

  /** The parts together are the whole directory. */
  lemma {:induction false} PartsAreWhole(cs: seq<Child>, here: Path)
    ensures Entries(cs) == Folders(cs) + Files(cs) + DeepEntries(cs)
    ensures Bytes(cs) == FileBytes(cs) + DeepBytes(cs)
    ensures Listing(cs, here) == FilesPlaced(cs, here) + DeepListing(cs, here)
  {
    if cs != [] { PartsAreWhole(cs[..|cs| - 1], here); }
  }

  lemma {:induction false} PartsGrow(cs: seq<Child>, i: nat)
    requires i <= |cs|
    ensures Folders(cs[..i]) <= Folders(cs) && Files(cs[..i]) <= Files(cs) && FileBytes(cs[..i]) <= FileBytes(cs)
    ensures DeepEntries(cs[..i]) <= DeepEntries(cs) && DeepBytes(cs[..i]) <= DeepBytes(cs)
  {
    if i < |cs| {
      PartsGrow(cs[..|cs| - 1], i);
      assert cs[..|cs| - 1][..i] == cs[..i];
    } else {
      assert cs[..i] == cs;
    }
  }

  lemma {:induction false} CleanChildren(cs: seq<Child>, i: nat)
    requires i < |cs| && Clean(cs)
    ensures Pruned(cs[i]) || CleanNode(cs[i].node)
  {
    if i < |cs| - 1 { CleanChildren(cs[..|cs| - 1], i); }
  }

  lemma {:induction false} CleanIfChildrenAre(cs: seq<Child>)
    requires forall i :: 0 <= i < |cs| ==> Pruned(cs[i]) || CleanNode(cs[i].node)
    ensures Clean(cs)
  {
    if cs != [] { CleanIfChildrenAre(cs[..|cs| - 1]); }
  }

  // ---- what the writes leave

  predicate HasPath(placed: set<Placed>, p: Path) {
    exists e :: e in placed && e.path == p
  }

  /** Where the regular files are, and which of them are executable. */
  function FilesIn(placed: set<Placed>): set<(Path, bool)> {
    set e | e in placed && e.entry.Regular? :: (e.path, e.entry.executable)
  }

  /**
   The placed things are at the meant paths, files where files are meant; they are the meant things, or else some file is
   not the meant one.
   */
  ghost predicate Mirrors(dest: set<Placed>, meant: set<Placed>, whole: bool) {
    && (forall p :: HasPath(dest, p) <==> HasPath(meant, p))
    && FilesIn(dest) == FilesIn(meant)
    && if whole then dest == meant else exists m :: m in meant && m !in dest && m.entry.Regular?
  }

  lemma FolderMirrors(dest: set<Placed>, meant: set<Placed>, whole: bool, path: Path)
    requires Mirrors(dest, meant, whole)
    ensures Mirrors(dest + {Placed(path, Folder)}, meant + {Placed(path, Folder)}, whole)
  {
    OnePathMore(dest, Placed(path, Folder));
    OnePathMore(meant, Placed(path, Folder));
    OneFileMore(dest, Placed(path, Folder));
    OneFileMore(meant, Placed(path, Folder));
    if !whole {
      var m :| m in meant && m !in dest && m.entry.Regular?;
      assert m in meant + {Placed(path, Folder)};
    }
  }

  lemma OneFileMore(placed: set<Placed>, e: Placed)
    ensures FilesIn(placed + {e}) ==
      FilesIn(placed) + if e.entry.Regular? then {(e.path, e.entry.executable)} else {}
  {
    var more := placed + {e};
    assert e in more;
    forall k | k in FilesIn(placed) ensures k in FilesIn(more) {
      var d :| d in placed && d.entry.Regular? && k == (d.path, d.entry.executable);
      assert d in more;
    }
  }

  lemma OnePathMore(placed: set<Placed>, e: Placed)
    ensures forall p :: HasPath(placed + {e}, p) <==> HasPath(placed, p) || p == e.path
  {
    assert e in placed + {e};
    forall p | HasPath(placed, p) ensures HasPath(placed + {e}, p) {
      var d :| d in placed && d.path == p;
      assert d in placed + {e};
    }
  }

  /** A file at a new path keeps the mirror; what it was meant to hold is there exactly if its writes took all of it. */
  lemma FileMirrors(dest: set<Placed>, meant: set<Placed>, whole: bool, path: Path, x: bool, got: seq<byte>, all: seq<byte>)
    requires Mirrors(dest, meant, whole) && !HasPath(meant, path)
    ensures Mirrors(dest + {Placed(path, Regular(x, got))}, meant + {Placed(path, Regular(x, all))}, whole && got == all)
  {
    OnePathMore(dest, Placed(path, Regular(x, got)));
    OnePathMore(meant, Placed(path, Regular(x, all)));
    OneFileMore(dest, Placed(path, Regular(x, got)));
    OneFileMore(meant, Placed(path, Regular(x, all)));
    if !whole {
      var m :| m in meant && m !in dest && m.entry.Regular?;
      assert m.path != path;
      assert m in meant + {Placed(path, Regular(x, all))};
    } else if got != all {
      assert Placed(path, Regular(x, all)) in meant + {Placed(path, Regular(x, all))};
    }
  }

  /** What a write of a chunk takes, the write being that operation. */
  function Took(taken: nat -> nat, op: nat, chunk: nat): (n: nat)
    ensures n <= chunk
  {
    if taken(op) < chunk then taken(op) else chunk
  }

  function Chunk(content: seq<byte>): (n: nat)
    ensures n <= |content| && (content != [] ==> n > 0)
  {
    if |content| < CHUNK then |content| else CHUNK
  }

  /** How many chunks a file is written in. */
  function Chunks(content: seq<byte>): nat {
    if content == [] then 0 else 1 + Chunks(content[Chunk(content)..])
  }

  /** What the file holds whose chunks are written from an operation on. */
  function AsWritten(taken: nat -> nat, content: seq<byte>, op: nat): (got: seq<byte>)
    ensures |got| <= |content|
  {
    if content == [] then []
    else content[..Took(taken, op, Chunk(content))] + AsWritten(taken, content[Chunk(content)..], op + 1)
  }

  lemma NextChunk(taken: nat -> nat, got: seq<byte>, rest: seq<byte>, op: nat, all: seq<byte>)
    requires rest != [] && got + AsWritten(taken, rest, op) == all
    ensures var chunk := Chunk(rest);
      && got + rest[..Took(taken, op, chunk)] + AsWritten(taken, rest[chunk..], op + 1) == all
      && Chunks(rest) == 1 + Chunks(rest[chunk..])
  {
  }

  /** Every write of the file takes its whole chunk. */
  predicate WholeWrites(taken: nat -> nat, content: seq<byte>, op: nat) {
    content != [] ==> taken(op) >= Chunk(content) && WholeWrites(taken, content[Chunk(content)..], op + 1)
  }

  /** The file holds its source's bytes exactly if every write takes its whole chunk; one short write makes it shorter. */
  lemma {:induction false} WholeExactly(taken: nat -> nat, content: seq<byte>, op: nat)
    ensures AsWritten(taken, content, op) == content <==> WholeWrites(taken, content, op)
    ensures !WholeWrites(taken, content, op) ==> |AsWritten(taken, content, op)| < |content|
    decreases |content|
  {
    if content != [] {
      var chunk := Chunk(content);
      WholeExactly(taken, content[chunk..], op + 1);
      assert content == content[..chunk] + content[chunk..];
    }
  }

  // ---- the operations of a copy that succeeds, and whether its writes are whole

  /** A file: its tick, its opening, and its writes. */
  function FileSteps(content: seq<byte>): nat {
    2 + Chunks(content)
  }

  function FilesSteps(cs: seq<Child>): nat {
    if cs == [] then 0
    else FilesSteps(cs[..|cs| - 1]) + if Copied(cs[|cs| - 1]) then FileSteps(cs[|cs| - 1].node.content) else 0
  }

  function DeepSteps(cs: seq<Child>): nat
    decreases cs, 0
  {
    if cs == [] then 0
    else DeepSteps(cs[..|cs| - 1]) + if Entered(cs[|cs| - 1]) then TreeSteps(cs[|cs| - 1].node) else 0
  }

  /** A directory: its making, a tick for each directory in it, its files, and its directories. */
  function TreeSteps(n: Node): nat
    decreases n, 1
  {
    if n.Dir? then 1 + Folders(n.children) + FilesSteps(n.children) + DeepSteps(n.children) else 0
  }

  /** Every write of the files of one level takes its whole chunk. */
  predicate WholeFiles(taken: nat -> nat, cs: seq<Child>, op: nat) {
    cs != [] ==>
      var front, c := cs[..|cs| - 1], cs[|cs| - 1];
      WholeFiles(taken, front, op) && (Copied(c) ==> WholeWrites(taken, c.node.content, op + FilesSteps(front) + 2))
  }

  predicate WholeDeep(taken: nat -> nat, cs: seq<Child>, op: nat)
    decreases cs, 0
  {
    cs != [] ==>
      var front, c := cs[..|cs| - 1], cs[|cs| - 1];
      WholeDeep(taken, front, op) && (Entered(c) ==> WholeTree(taken, c.node, op + DeepSteps(front)))
  }

  /** Every write of a tree that is copied from an operation on takes its whole chunk. */
  predicate WholeTree(taken: nat -> nat, n: Node, op: nat)
    decreases n, 1
  {
    n.Dir? ==>
      var files := op + 1 + Folders(n.children);
      WholeFiles(taken, n.children, files) && WholeDeep(taken, n.children, files + FilesSteps(n.children))
  }

  /** Writes that are never short are whole, whatever is copied. */
  lemma {:induction false} NeverShortFile(taken: nat -> nat, content: seq<byte>, op: nat)
    requires forall n :: taken(n) >= CHUNK
    ensures WholeWrites(taken, content, op)
    decreases |content|
  {
    if content != [] { NeverShortFile(taken, content[Chunk(content)..], op + 1); }
  }

  lemma {:induction false} NeverShortFiles(taken: nat -> nat, cs: seq<Child>, op: nat)
    requires forall n :: taken(n) >= CHUNK
    ensures WholeFiles(taken, cs, op)
  {
    if cs != [] {
      NeverShortFiles(taken, cs[..|cs| - 1], op);
      if Copied(cs[|cs| - 1]) {
        NeverShortFile(taken, cs[|cs| - 1].node.content, op + FilesSteps(cs[..|cs| - 1]) + 2);
      }
    }
  }

  lemma {:induction false} NeverShortDeep(taken: nat -> nat, cs: seq<Child>, op: nat)
    requires forall n :: taken(n) >= CHUNK
    ensures WholeDeep(taken, cs, op)
    decreases cs, 0
  {
    if cs != [] {
      NeverShortDeep(taken, cs[..|cs| - 1], op);
      NeverShort(taken, cs[|cs| - 1].node, op + DeepSteps(cs[..|cs| - 1]));
    }
  }

  lemma {:induction false} NeverShort(taken: nat -> nat, n: Node, op: nat)
    requires forall n :: taken(n) >= CHUNK
    ensures WholeTree(taken, n, op)
    decreases n, 1
  {
    if n.Dir? {
      NeverShortFiles(taken, n.children, op + 1 + Folders(n.children));
      NeverShortDeep(taken, n.children, op + 1 + Folders(n.children) + FilesSteps(n.children));
    }
  }

  // ---- the copy

  /** Where a copy stands. */
  datatype Count = Count(ops: nat, files: nat, total: nat, meant: set<Placed>, whole: bool)

  class Copy {
    /** Whether the n-th operation fails or finds the copy cancelled. */
    const fault: nat -> bool
    /** How many bytes the write of the n-th operation takes, at most its chunk. */
    const taken: nat -> nat
    var ops: nat
    var dest: set<Placed>
    var files: nat
    var total: nat
    /** What dest was meant to be, and whether every write so far took its whole chunk. */
    ghost var meant: set<Placed>
    ghost var whole: bool

    constructor (fault: nat -> bool, taken: nat -> nat)
      ensures this.fault == fault && this.taken == taken && Empty()
    {
      this.fault, this.taken, ops, dest, files, total := fault, taken, 0, {}, 0, 0;
      meant, whole := {}, true;
    }

    ghost predicate Empty()
      reads this
    {
      ops == 0 && dest == {} && files == 0 && total == 0 && meant == {} && whole
    }

    /** Dest is what was meant exactly as long as the writes are whole. */
    ghost predicate Tied()
      reads this
    {
      Mirrors(dest, meant, whole)
    }

    ghost predicate Faulted(from: nat)
      reads this
    {
      exists n :: from <= n < ops && fault(n)
    }

    ghost predicate WithinCaps()
      reads this
    {
      files <= MAX_FILES && total <= MAX_BYTES
    }

    method Operate() returns (ok: bool)
      modifies this`ops
      ensures ops == old(ops) + 1
      ensures ok == !fault(old(ops))
      ensures !ok ==> Faulted(old(ops))
    {
      ok := !fault(ops);
      ops := ops + 1;
    }

    method Tick() returns (ok: bool)
      modifies this`ops, this`files
      ensures ops == old(ops) + 1
      ensures ok ==> files == old(files) + 1 <= MAX_FILES
      ensures !ok ==> Faulted(old(ops)) || old(files) + 1 > MAX_FILES
    {
      ok := Operate();
      if ok {
        files := files + 1;
        ok := files <= MAX_FILES;
      }
    }

    /** Copies one regular file to a path that must be new, a chunk at a time: what the writes take is what it holds. */
    method CopyFile(path: Path, node: Node) returns (ok: bool)
      requires node.File? && WithinCaps() && Tied()
      modifies this
      ensures old(ops) <= ops
      ensures ok ==> WithinCaps() && files == old(files) + 1 && total == old(total) + |node.content|
      ensures ok ==> dest == old(dest) + {Placed(path, Regular(node.executable, AsWritten(taken, node.content, old(ops) + 2)))}
      ensures ok ==> Tied() && meant == old(meant) + {Placed(path, Regular(node.executable, node.content))}
      ensures ok ==> ops == old(ops) + FileSteps(node.content)
      ensures ok ==> whole == (old(whole) && WholeWrites(taken, node.content, old(ops) + 2))
      ensures !ok ==> || Faulted(old(ops)) || old(files) + 1 > MAX_FILES || old(total) + |node.content| > MAX_BYTES
                      || HasPath(old(meant), path)
    {
      ok := Tick();
      if !ok { return; }
      ok := Operate();
      if !ok { return; }
      if HasPath(dest, path) { return false; }
      var got;
      got, ok := WriteChunks(node.content);
      if !ok { return; }
      WholeExactly(taken, node.content, old(ops) + 2);
      FileMirrors(dest, meant, whole, path, node.executable, got, node.content);
      dest := dest + {Placed(path, Regular(node.executable, got))};
      meant := meant + {Placed(path, Regular(node.executable, node.content))};
      whole := whole && WholeWrites(taken, node.content, old(ops) + 2);
      ok := true;
    }

    method WriteChunks(content: seq<byte>) returns (got: seq<byte>, ok: bool)
      requires total <= MAX_BYTES
      modifies this`ops, this`total
      ensures old(ops) <= ops
      ensures ok ==> got == AsWritten(taken, content, old(ops)) && ops == old(ops) + Chunks(content)
      ensures ok ==> total == old(total) + |content| <= MAX_BYTES
      ensures !ok ==> Faulted(old(ops)) || old(total) + |content| > MAX_BYTES
    {
      got, ok := [], true;
      var rest := content;
      ghost var all, last := AsWritten(taken, content, ops), ops + Chunks(content);
      while rest != []
        invariant old(ops) <= ops && |rest| <= |content| && ops + Chunks(rest) == last
        invariant total == old(total) + |content| - |rest| <= MAX_BYTES
        invariant got + AsWritten(taken, rest, ops) == all
        decreases |rest|
      {
        NextChunk(taken, got, rest, ops, all);
        var part;
        part, ok := WriteChunk(rest);
        if !ok { return; }
        got, rest := got + part, rest[Chunk(rest)..];
      }
    }

    /** One chunk: it is counted whole, however much of it the write takes. */
    method WriteChunk(rest: seq<byte>) returns (got: seq<byte>, ok: bool)
      requires rest != [] && total <= MAX_BYTES
      modifies this`ops, this`total
      ensures ops == old(ops) + 1
      ensures ok ==> got == rest[..Took(taken, old(ops), Chunk(rest))] && total == old(total) + Chunk(rest) <= MAX_BYTES
      ensures !ok ==> Faulted(old(ops)) || old(total) + Chunk(rest) > MAX_BYTES
    {
      got := [];
      ok := Operate();
      if !ok { return; }
      total := total + Chunk(rest);
      if total > MAX_BYTES { return got, false; }
      got := rest[..Took(taken, ops - 1, Chunk(rest))];
    }

    /** Makes a directory; one that is there already stays. */
    method MakeDir(path: Path) returns (ok: bool)
      requires Tied()
      modifies this`ops, this`dest, this`meant
      ensures ops == old(ops) + 1
      ensures ok ==> Tied() && meant == old(meant) + {Placed(path, Folder)}
      ensures !ok ==> Faulted(old(ops))
    {
      ok := Operate();
      if ok {
        FolderMirrors(dest, meant, whole, path);
        dest := dest + {Placed(path, Folder)};
        meant := meant + {Placed(path, Folder)};
      }
    }

    /** The directories of one level: a link among them refuses, and each kept one is counted. */
    method CountFolders(cs: seq<Child>) returns (ok: bool)
      requires WithinCaps()
      modifies this`ops, this`files
      ensures old(ops) <= ops
      ensures ok ==> files == old(files) + Folders(cs) <= MAX_FILES && ops == old(ops) + Folders(cs)
      ensures ok ==> forall c :: c in cs && ListedAsDirectory(c.node) && !Pruned(c) ==> c.node.Dir?
      ensures !ok ==> Faulted(old(ops)) || old(files) + Folders(cs) > MAX_FILES || !Clean(cs)
    {
      for i := 0 to |cs|
        invariant ops == old(ops) + Folders(cs[..i])
        invariant files == old(files) + Folders(cs[..i]) <= MAX_FILES
        invariant forall k :: 0 <= k < i && ListedAsDirectory(cs[k].node) && !Pruned(cs[k]) ==> cs[k].node.Dir?
      {
        var c := cs[i];
        assert cs[..i + 1][..i] == cs[..i];
        if ListedAsDirectory(c.node) && !Pruned(c) {
          if c.node.Link? {
            if Clean(cs) { CleanChildren(cs, i); }
            return false;
          }
          PartsGrow(cs, i + 1);
          ok := Tick();
          if !ok { return; }
        }
      }
      assert cs[..|cs|] == cs;
      ok := true;
    }

    /** One entry of a level that is no directory: a file is copied unless it is a live env file. */
    method CopyEntry(c: Child, here: Path) returns (ok: bool)
      requires WithinCaps() && Tied() && (Copied(c) ==> !HasPath(meant, here + [c.name]))
      modifies this
      ensures old(ops) <= ops
      ensures ok ==> WithinCaps() && Tied() && (ListedAsDirectory(c.node) || c.node.File?)
      ensures ok ==> files == old(files) + (if Copied(c) then 1 else 0)
      ensures ok ==> total == old(total) + (if Copied(c) then |c.node.content| else 0)
      ensures ok ==> meant == old(meant) + FilePlaced(c, here)
      ensures ok ==> ops == old(ops) + (if Copied(c) then FileSteps(c.node.content) else 0)
      ensures ok ==> whole == (old(whole) && (Copied(c) ==> WholeWrites(taken, c.node.content, old(ops) + 2)))
      ensures !ok ==> || Faulted(old(ops)) || !(ListedAsDirectory(c.node) || c.node.File?)
                      || (Copied(c) && (old(files) + 1 > MAX_FILES || old(total) + |c.node.content| > MAX_BYTES))
    {
      ok := true;
      if !ListedAsDirectory(c.node) {
        if !c.node.File? { return false; }
        if !Skipped(c.name) { ok := CopyFile(here + [c.name], c.node); }
      }
    }

    /** The files of one level: a link or a special node refuses, a live env file is passed over. */
    method CopyFiles(cs: seq<Child>, here: Path) returns (ok: bool)
      requires WithinCaps() && Tied() && NothingBelow(meant, here) && Distinct(cs)
      modifies this
      ensures old(ops) <= ops
      ensures ok ==> WithinCaps() && Tied() && files == old(files) + Files(cs) && total == old(total) + FileBytes(cs)
      ensures ok ==> meant == old(meant) + FilesPlaced(cs, here)
      ensures ok ==> ops == old(ops) + FilesSteps(cs) && whole == (old(whole) && WholeFiles(taken, cs, old(ops)))
      ensures ok ==> NoStrangers(cs)
      ensures !ok ==> || Faulted(old(ops)) || old(files) + Files(cs) > MAX_FILES
                      || old(total) + FileBytes(cs) > MAX_BYTES || !Clean(cs)
    {
      ghost var from := Count(ops, files, total, meant, whole);
      for i := 0 to |cs|
        invariant FilesDone(cs, i, here, from)
      {
        ok := CopyNth(cs, i, here, from);
        if !ok { return; }
      }
      assert cs[..|cs|] == cs;
      ok := true;
    }

    /** The first i entries of a level are dealt with. */
    ghost predicate FilesDone(cs: seq<Child>, i: nat, here: Path, from: Count)
      requires i <= |cs|
      reads this
    {
      && from.ops <= ops && WithinCaps() && Tied() && NoStrangers(cs[..i])
      && files == from.files + Files(cs[..i]) && total == from.total + FileBytes(cs[..i])
      && meant == from.meant + FilesPlaced(cs[..i], here)
      && ops == from.ops + FilesSteps(cs[..i]) && whole == (from.whole && WholeFiles(taken, cs[..i], from.ops))
    }

    method CopyNth(cs: seq<Child>, i: nat, here: Path, ghost from: Count) returns (ok: bool)
      requires i < |cs| && FilesDone(cs, i, here, from) && NothingBelow(from.meant, here) && Distinct(cs)
      modifies this
      ensures old(ops) <= ops && (ok ==> FilesDone(cs, i + 1, here, from))
      ensures !ok ==> || Faulted(old(ops)) || from.files + Files(cs) > MAX_FILES
                      || from.total + FileBytes(cs) > MAX_BYTES || !Clean(cs)
    {
      FilesStep(taken, cs, i, here, from.ops, from.meant);
      NameIsNew(cs, i, here, from.meant);
      CleanLevel(cs, i);
      ok := CopyEntry(cs[i], here);
    }

    /** One entry of a level: a kept directory is copied. */
    method EnterFolder(c: Child, here: Path) returns (ok: bool)
      requires WithinCaps() && Tied() && DistinctNode(c.node) && (Entered(c) ==> NothingBelow(meant, here + [c.name]))
      modifies this
      ensures old(ops) <= ops
      ensures ok ==> WithinCaps() && Tied() && (Entered(c) ==> CleanNode(c.node))
      ensures ok ==> files == old(files) + (if Entered(c) then EntriesIn(c.node) else 0)
      ensures ok ==> total == old(total) + (if Entered(c) then BytesIn(c.node) else 0)
      ensures ok ==> meant == old(meant) + if Entered(c) then ListingIn(c.node, here + [c.name]) else {}
      ensures ok ==> ops == old(ops) + (if Entered(c) then TreeSteps(c.node) else 0)
      ensures ok ==> whole == (old(whole) && (Entered(c) ==> WholeTree(taken, c.node, old(ops))))
      ensures !ok ==> Entered(c) && (|| Faulted(old(ops)) || old(files) + EntriesIn(c.node) > MAX_FILES
                                     || old(total) + BytesIn(c.node) > MAX_BYTES || !CleanNode(c.node))
      decreases c, 2
    {
      ok := true;
      if Entered(c) { ok := CopyTree(c.node, here + [c.name]); }
    }

    /** Copies each kept directory of one level. */
    method EnterFolders(cs: seq<Child>, here: Path) returns (ok: bool)
      requires WithinCaps() && Tied() && Distinct(cs)
      requires FoldersFree(meant, cs, here)
      modifies this
      ensures old(ops) <= ops
      ensures ok ==> WithinCaps() && Tied() && files == old(files) + DeepEntries(cs) && total == old(total) + DeepBytes(cs)
      ensures ok ==> meant == old(meant) + DeepListing(cs, here)
      ensures ok ==> ops == old(ops) + DeepSteps(cs) && whole == (old(whole) && WholeDeep(taken, cs, old(ops)))
      ensures ok ==> forall c :: c in cs && Entered(c) ==> CleanNode(c.node)
      ensures !ok ==> || Faulted(old(ops)) || old(files) + DeepEntries(cs) > MAX_FILES
                      || old(total) + DeepBytes(cs) > MAX_BYTES || !Clean(cs)
      decreases cs, 0
    {
      ghost var from := Count(ops, files, total, meant, whole);
      for i := 0 to |cs|
        invariant DeepDone(cs, i, here, from)
      {
        ok := EnterNth(cs, i, here, from);
        if !ok { return; }
      }
      assert cs[..|cs|] == cs;
      ok := true;
    }

    ghost predicate DeepDone(cs: seq<Child>, i: nat, here: Path, from: Count)
      requires i <= |cs|
      reads this
    {
      && from.ops <= ops && WithinCaps() && Tied()
      && files == from.files + DeepEntries(cs[..i]) && total == from.total + DeepBytes(cs[..i])
      && meant == from.meant + DeepListing(cs[..i], here)
      && ops == from.ops + DeepSteps(cs[..i]) && whole == (from.whole && WholeDeep(taken, cs[..i], from.ops))
      && forall k :: 0 <= k < i && Entered(cs[k]) ==> CleanNode(cs[k].node)
    }

    method EnterNth(cs: seq<Child>, i: nat, here: Path, ghost from: Count) returns (ok: bool)
      requires i < |cs| && DeepDone(cs, i, here, from) && FoldersFree(from.meant, cs, here) && Distinct(cs)
      modifies this
      ensures old(ops) <= ops && (ok ==> DeepDone(cs, i + 1, here, from))
      ensures !ok ==> || Faulted(old(ops)) || from.files + DeepEntries(cs) > MAX_FILES
                      || from.total + DeepBytes(cs) > MAX_BYTES || !Clean(cs)
      decreases cs[i], 3
    {
      DeepStep(cs, i, here, from.meant);
      DeepCounts(taken, cs, i, from.ops);
      SubtreeIsNew(cs, i, here, from.meant);
      CleanEntry(cs, i);
      ok := EnterFolder(cs[i], here);
    }

    /** Copies a directory: its own level first, then each directory in it. */
    method CopyTree(node: Node, here: Path) returns (ok: bool)
      requires node.Dir? && DistinctNode(node) && WithinCaps() && Tied() && NothingBelow(meant, here)
      modifies this
      ensures old(ops) <= ops
      ensures ok ==> WithinCaps() && Tied() && files == old(files) + EntriesIn(node) && total == old(total) + BytesIn(node)
      ensures ok ==> meant == old(meant) + ListingIn(node, here) && CleanNode(node)
      ensures ok ==> ops == old(ops) + TreeSteps(node) && whole == (old(whole) && WholeTree(taken, node, old(ops)))
      ensures !ok ==> || Faulted(old(ops)) || old(files) + EntriesIn(node) > MAX_FILES
                      || old(total) + BytesIn(node) > MAX_BYTES || !CleanNode(node)
      decreases node, 1
    {
      var cs := node.children;
      PartsAreWhole(cs, here);
      ok := MakeDir(here);
      if !ok { return; }
      ok := CountFolders(cs);
      if !ok { return; }
      ok := CopyFiles(cs, here);
      if !ok { return; }
      FoldersAreNew(cs, here, meant - FilesPlaced(cs, here));
      assert meant == (meant - FilesPlaced(cs, here)) + FilesPlaced(cs, here);
      ok := EnterFolders(cs, here);
      if ok {
        forall i | 0 <= i < |cs| ensures ListedAsDirectory(cs[i].node) || cs[i].node.File? { NoStranger(cs, cs[i]); }
        CleanIfChildrenAre(cs);
      }
    }
  }

  ghost predicate FreeBelow(placed: set<Placed>, here: Path) {
    forall e :: e in placed ==> !Below(here, e.path)
  }

  ghost predicate FoldersFree(placed: set<Placed>, cs: seq<Child>, here: Path) {
    forall i :: 0 <= i < |cs| && Entered(cs[i]) ==> FreeBelow(placed, here + [cs[i].name])
  }

  lemma TwoNames(here: Path, a: string, b: string, p: Path)
    requires Below(here + [a], p) && Below(here + [b], p)
    ensures a == b
  {
    assert (here + [a])[|here|] == p[|here|] == (here + [b])[|here|];
  }

  lemma DeepStep(cs: seq<Child>, i: nat, here: Path, was: set<Placed>)
    requires i < |cs|
    ensures var c := cs[i];
      && DeepEntries(cs[..i + 1]) == DeepEntries(cs[..i]) + (if Entered(c) then EntriesIn(c.node) else 0) <= DeepEntries(cs)
      && DeepBytes(cs[..i + 1]) == DeepBytes(cs[..i]) + (if Entered(c) then BytesIn(c.node) else 0) <= DeepBytes(cs)
      && was + DeepListing(cs[..i + 1], here) ==
           was + DeepListing(cs[..i], here) + if Entered(c) then ListingIn(c.node, here + [c.name]) else {}
  {
    assert cs[..i + 1][..i] == cs[..i];
    PartsGrow(cs, i + 1);
  }

  /** Nothing on a level but files and what is listed among its directories. */
  predicate NoStrangers(cs: seq<Child>) {
    cs != [] ==>
      NoStrangers(cs[..|cs| - 1]) && (ListedAsDirectory(cs[|cs| - 1].node) || cs[|cs| - 1].node.File?)
  }

  lemma {:induction false} NoStranger(cs: seq<Child>, c: Child)
    requires NoStrangers(cs) && c in cs
    ensures ListedAsDirectory(c.node) || c.node.File?
  {
    if c != cs[|cs| - 1] { NoStranger(cs[..|cs| - 1], c); }
  }

  lemma DeepCounts(taken: nat -> nat, cs: seq<Child>, i: nat, op: nat)
    requires i < |cs|
    ensures var c := cs[i];
      && DeepSteps(cs[..i + 1]) == DeepSteps(cs[..i]) + (if Entered(c) then TreeSteps(c.node) else 0)
      && (WholeDeep(taken, cs[..i + 1], op) <==>
            WholeDeep(taken, cs[..i], op) && (Entered(c) ==> WholeTree(taken, c.node, op + DeepSteps(cs[..i]))))
  {
    assert cs[..i + 1][..i] == cs[..i];
  }

  lemma FilesStep(taken: nat -> nat, cs: seq<Child>, i: nat, here: Path, op: nat, was: set<Placed>)
    requires i < |cs|
    ensures var c := cs[i];
      && (NoStrangers(cs[..i + 1]) <==> NoStrangers(cs[..i]) && (ListedAsDirectory(c.node) || c.node.File?))
      && Files(cs[..i + 1]) == Files(cs[..i]) + (if Copied(c) then 1 else 0) <= Files(cs)
      && FileBytes(cs[..i + 1]) == FileBytes(cs[..i]) + (if Copied(c) then |c.node.content| else 0) <= FileBytes(cs)
      && was + FilesPlaced(cs[..i + 1], here) == was + FilesPlaced(cs[..i], here) + FilePlaced(c, here)
      && FilesSteps(cs[..i + 1]) == FilesSteps(cs[..i]) + (if Copied(c) then FileSteps(c.node.content) else 0)
      && (WholeFiles(taken, cs[..i + 1], op) <==>
            WholeFiles(taken, cs[..i], op) &&
            (Copied(c) ==> WholeWrites(taken, c.node.content, op + FilesSteps(cs[..i]) + 2)))
  {
    assert cs[..i + 1][..i] == cs[..i];
    PartsGrow(cs, i + 1);
  }

  lemma FoldersAreNew(cs: seq<Child>, here: Path, was: set<Placed>)
    requires Distinct(cs) && NothingBelow(was, here)
    ensures FoldersFree(was + FilesPlaced(cs, here), cs, here)
  {
    forall c, e | c in cs && Entered(c) && e in was + FilesPlaced(cs, here) ensures !Below(here + [c.name], e.path) {
      if Below(here + [c.name], e.path) {
        assert Below(here, e.path) by { assert here <= here + [c.name]; }
        assert e in FilesPlaced(cs, here);
        PlacedHere(cs, here, e);
        var d :| d in cs && Copied(d) && e.path == here + [d.name];
        TwoNames(here, c.name, d.name, e.path);
      }
    }
  }

  lemma CleanLevel(cs: seq<Child>, i: nat)
    requires i < |cs|
    ensures Clean(cs) ==> ListedAsDirectory(cs[i].node) || cs[i].node.File?
  {
    if Clean(cs) { CleanChildren(cs, i); }
  }

  lemma CleanEntry(cs: seq<Child>, i: nat)
    requires i < |cs|
    ensures Clean(cs) && Entered(cs[i]) ==> CleanNode(cs[i].node)
  {
    if Clean(cs) { CleanChildren(cs, i); }
  }

  lemma SubtreeIsNew(cs: seq<Child>, i: nat, here: Path, was: set<Placed>)
    requires i < |cs| && Distinct(cs)
    ensures FoldersFree(was, cs, here) && Entered(cs[i]) ==>
      NothingBelow(was + DeepListing(cs[..i], here), here + [cs[i].name])
  {
    if FoldersFree(was, cs, here) && Entered(cs[i]) { NoneInEarlier(cs, i, here, was); }
  }

  lemma NoneInEarlier(cs: seq<Child>, i: nat, here: Path, was: set<Placed>)
    requires i < |cs| && Distinct(cs) && FreeBelow(was, here + [cs[i].name])
    ensures NothingBelow(was + DeepListing(cs[..i], here), here + [cs[i].name])
  {
    forall e | e in was + DeepListing(cs[..i], here) ensures !Below(here + [cs[i].name], e.path) {
      if e !in was {
        DeepLiesBelow(cs[..i], here, e);
        var c :| c in cs[..i] && Below(here + [c.name], e.path);
        if Below(here + [cs[i].name], e.path) {
          TwoNames(here, c.name, cs[i].name, e.path);
        }
      }
    }
  }

  lemma {:induction false} DeepLiesBelow(cs: seq<Child>, here: Path, e: Placed)
    requires e in DeepListing(cs, here)
    ensures exists c :: c in cs && Below(here + [c.name], e.path)
  {
    var c := cs[|cs| - 1];
    if e in DeepListing(cs[..|cs| - 1], here) {
      DeepLiesBelow(cs[..|cs| - 1], here, e);
      var d :| d in cs[..|cs| - 1] && Below(here + [d.name], e.path);
      assert d in cs;
    } else {
      NodeListingLiesBelow(c.node, here + [c.name], e);
      assert c in cs;
    }
  }

  ghost predicate NothingBelow(placed: set<Placed>, here: Path) {
    forall e :: e in placed && Below(here, e.path) ==> e.path == here
  }

  lemma NameIsNew(cs: seq<Child>, i: nat, here: Path, was: set<Placed>)
    requires i < |cs| && Distinct(cs) && NothingBelow(was, here)
    ensures !HasPath(was + FilesPlaced(cs[..i], here), here + [cs[i].name])
  {
    forall e | e in was + FilesPlaced(cs[..i], here) ensures e.path != here + [cs[i].name] {
      if e in was {
        if e.path == here + [cs[i].name] { assert Below(here, e.path); }
      } else {
        PlacedHere(cs[..i], here, e);
        var c :| c in cs[..i] && Copied(c) && e.path == here + [c.name];
        assert e.path[|here|] == c.name != cs[i].name;
      }
    }
  }

  lemma {:induction false} PlacedHere(cs: seq<Child>, here: Path, e: Placed)
    requires e in FilesPlaced(cs, here)
    ensures exists c :: c in cs && Copied(c) && e.path == here + [c.name]
  {
    var c := cs[|cs| - 1];
    if e in FilesPlaced(cs[..|cs| - 1], here) {
      PlacedHere(cs[..|cs| - 1], here, e);
      var d :| d in cs[..|cs| - 1] && Copied(d) && e.path == here + [d.name];
      assert d in cs;
    } else {
      assert c in cs;
    }
  }
}
