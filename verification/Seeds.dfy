/**
 The writer of a seed pair (tools/agent_mcp/seeds.py): no link is followed, both files are written whole beside their
 targets, and only then are they renamed over them. Every call to the system may fail.
 */
module Seeds {
  import opened Text
  import Tree
  import ProxyPath

  type byte = Tree.byte
  type Path = Tree.Path

  const SEEDS := "agent_mcp_seeds"

  /** What a name beneath the share leads to, a link not followed. */
  datatype Kind = Folder | File(data: seq<byte>) | Link | Special

  datatype Bundle = Bundle(revision: string, sql: seq<byte>, manifest: seq<byte>)

  datatype SeedFiles = SeedFiles(sql: Path, manifest: Path, sqlBytes: nat, manifestBytes: nat)

  datatype Outcome = Written(files: SeedFiles) | Refused | Failed

  datatype Opened = Open | NotOpened(why: Outcome)

  predicate IsComponent(name: string) {
    name != "" && '/' !in name && '\0' !in name && name != "." && name != ".."
  }

  function Home(worktree: string): Path { [SEEDS, worktree] }

  function SqlName(b: Bundle): string { b.revision + ".sql" }

  function ManifestName(b: Bundle): string { b.revision + ".json" }

  function Temporary(final: string, token: string): string {
    "." + final + "." + token + ".tmp"
  }

  /** A rename over this name replaces it. */
  predicate Replaceable(at: map<Path, Kind>, p: Path) {
    p in at ==> at[p].File? || at[p].Link?
  }

  /** Nothing but a plain directory is on the way. */
  predicate PlainWay(at: map<Path, Kind>, way: seq<Path>) {
    forall p :: p in way && p in at ==> at[p].Folder?
  }

  predicate IsFolder(at: map<Path, Kind>, p: Path) {
    p in at && at[p].Folder?
  }

  /** Everything that was there is as it was, and all that is new is a folder of these names. */
  ghost predicate FoldersMade(before: map<Path, Kind>, after: map<Path, Kind>, names: set<Path>) {
    && (forall p :: p in before ==> p in after && after[p] == before[p])
    && (forall p :: p in after && p !in before ==> p in names && after[p] == Folder)
  }

  /** Everything that was there is as it was, and nothing is new but this path. */
  ghost predicate Grown(before: map<Path, Kind>, after: map<Path, Kind>, path: Path) {
    && (forall p :: p in before ==> p in after && after[p] == before[p])
    && (forall p :: p in after ==> p in before || p == path)
  }

  lemma GrownBy(before: map<Path, Kind>, after: map<Path, Kind>, path: Path)
    requires after - {path} == before
    ensures Grown(before, after, path)
  {
    forall p | p in before ensures p in after && after[p] == before[p] { assert p in after - {path}; }
    forall p | p in after && p != path ensures p in before { assert p in after - {path}; }
  }

  /** Folders made one under the other are all that is new. */
  lemma TwoFoldersMade(before: map<Path, Kind>, one: map<Path, Kind>, two: map<Path, Kind>, p: Path, q: Path)
    requires one == before || (p !in before && one == before[p := Folder])
    requires two == one || (q !in one && two == one[q := Folder])
    ensures FoldersMade(before, two, {p, q}) && FoldersMade(before, one, {p, q})
  {
  }

  function SqlTarget(dir: Path, b: Bundle): Path { dir + [SqlName(b)] }

  function ManifestTarget(dir: Path, b: Bundle): Path { dir + [ManifestName(b)] }

  /** A target that a rename would not replace. */
  predicate Obstacle(at: map<Path, Kind>, dir: Path, b: Bundle) {
    !Replaceable(at, SqlTarget(dir, b)) || !Replaceable(at, ManifestTarget(dir, b))
  }

  /** The targets that k renames replace. */
  function Targets(dir: Path, b: Bundle, k: nat): set<Path> {
    (if k >= 1 then {SqlTarget(dir, b)} else {}) + if k >= 2 then {ManifestTarget(dir, b)} else {}
  }

  /** After k renames: those targets hold their whole file, and everything else that was there is as it was. */
  ghost predicate Replaced(before: map<Path, Kind>, after: map<Path, Kind>, dir: Path, b: Bundle, k: nat) {
    && (forall p :: p in before && p !in Targets(dir, b, k) ==> p in after && after[p] == before[p])
    && (k == 0 && SqlTarget(dir, b) in after ==> SqlTarget(dir, b) in before)
    && (k <= 1 && ManifestTarget(dir, b) in after ==> ManifestTarget(dir, b) in before)
    && (k >= 1 ==> SqlTarget(dir, b) in after && after[SqlTarget(dir, b)] == File(b.sql))
    && (k >= 2 ==> ManifestTarget(dir, b) in after && after[ManifestTarget(dir, b)] == File(b.manifest))
  }

  /** What is new has one of these names or is one of the leftovers. */
  ghost predicate NewIn(before: map<Path, Kind>, after: map<Path, Kind>, names: set<Path>, leftovers: seq<Path>) {
    forall p :: p in after && p !in before ==> p in names || p in leftovers
  }

  /** Two temporaries beside two targets, all apart. */
  predicate Apart(from: seq<Path>, dir: Path, b: Bundle) {
    && |from| == 2 && from[0] != from[1] && SqlTarget(dir, b) != ManifestTarget(dir, b)
    && SqlTarget(dir, b) !in from && ManifestTarget(dir, b) !in from
  }

  /** Both files written whole beside their targets, and nothing else changed. */
  predicate Staged(before: map<Path, Kind>, after: map<Path, Kind>, from: seq<Path>, b: Bundle) {
    |from| == 2 && from[0] !in before && from[1] !in before && after == before[from[0] := File(b.sql)][from[1] := File(b.manifest)]
  }

  /** The directory once k of the two renames are done. */
  function AfterRenames(staged: map<Path, Kind>, from: seq<Path>, dir: Path, b: Bundle, k: nat): map<Path, Kind>
    requires |from| == 2 && from[0] in staged && from[1] in staged && from[0] != from[1]
    requires from[1] != SqlTarget(dir, b)
  {
    if k == 0 then staged
    else
      var one := staged[SqlTarget(dir, b) := staged[from[0]]] - {from[0]};
      if k == 1 then one else one[ManifestTarget(dir, b) := staged[from[1]]] - {from[1]}
  }

  /** After k renames of a staged pair the targets stand as they should, and the other temporaries are left over. */
  lemma RenamedIsReplaced(before: map<Path, Kind>, staged: map<Path, Kind>, from: seq<Path>, dir: Path, b: Bundle, k: nat)
    requires Staged(before, staged, from, b) && Apart(from, dir, b) && k <= 2
    ensures Replaced(before, AfterRenames(staged, from, dir, b, k), dir, b, k)
    ensures NewIn(before, AfterRenames(staged, from, dir, b, k), Targets(dir, b, k), from[k..])
  {
  }

  /** Taking away leftovers that were not there before changes none of that. */
  lemma CleanedIsReplaced(before: map<Path, Kind>, now: map<Path, Kind>, after: map<Path, Kind>, leftovers: seq<Path>,
                          dir: Path, b: Bundle, k: nat)
    requires Replaced(before, now, dir, b, k)
    requires forall p :: p in after ==> p in now && after[p] == now[p]
    requires forall p :: p in now && p !in leftovers ==> p in after
    requires forall p :: p in leftovers ==> p !in before && p !in Targets(dir, b, k)
    ensures Replaced(before, after, dir, b, k)
  {
  }

  /** Without the leftovers nothing is new beside the targets. */
  lemma CleanedIsNew(before: map<Path, Kind>, now: map<Path, Kind>, after: map<Path, Kind>, names: set<Path>, leftovers: seq<Path>)
    requires NewIn(before, now, names, leftovers)
    requires forall p :: p in after ==> p in now
    requires forall p :: p in leftovers ==> p !in after
    ensures NewIn(before, after, names, [])
  {
  }

  class Share {
    var at: map<Path, Kind>
    /** How many descriptors are open. */
    var open: nat
    var calls: nat
    /** How many targets have been replaced. */
    ghost var renames: nat
    const fault: nat -> bool
    /** Whether the removal of a temporary fails, and whether a close does; a close gives its descriptor back all the same. */
    const stuck: nat -> bool
    const unclosed: nat -> bool
    const taken: nat -> nat
    const token: nat -> string

    constructor (at: map<Path, Kind>, fault: nat -> bool, stuck: nat -> bool, unclosed: nat -> bool, taken: nat -> nat,
                 token: nat -> string)
      ensures this.at == at && open == 0 && renames == 0
    {
      this.at, this.fault, this.stuck, this.unclosed, this.taken, this.token := at, fault, stuck, unclosed, taken, token;
      open, calls, renames := 0, 0, 0;
    }

    /** Some removal or some close fails. */
    ghost predicate Stuck() {
      (exists n :: stuck(n)) || Unclosed()
    }

    ghost predicate Unclosed() {
      exists n :: unclosed(n)
    }

    /** No call to the system fails. */
    ghost predicate Calm() {
      (forall n :: !fault(n)) && !Stuck()
    }

    /** No temporary of this pair has a name that is there already, whatever tokens are drawn. */
    ghost predicate Unclashed(at: map<Path, Kind>, dir: Path, b: Bundle) {
      forall n :: dir + [Temporary(SqlName(b), token(n))] !in at && dir + [Temporary(ManifestName(b), token(n))] !in at
    }

    /** The pair can be written: the directories are plain or missing, and no name is in the way. */
    ghost predicate Clear(at: map<Path, Kind>, dir: Path, b: Bundle) {
      !Obstacle(at, dir, b) && Unclashed(at, dir, b)
    }

    /** Folders made two below the share are in no pair's way. */
    lemma StaysClear(before: map<Path, Kind>, after: map<Path, Kind>, worktree: string, b: Bundle)
      requires Clear(before, Home(worktree), b) && FoldersMade(before, after, {[SEEDS], Home(worktree)})
      ensures Clear(after, Home(worktree), b)
    {
      var dir := Home(worktree);
      assert |[SEEDS]| == 1 && |dir| == 2 && |SqlTarget(dir, b)| == 3 && |ManifestTarget(dir, b)| == 3;
      forall n
        ensures dir + [Temporary(SqlName(b), token(n))] !in after && dir + [Temporary(ManifestName(b), token(n))] !in after
      {
        assert |dir + [Temporary(SqlName(b), token(n))]| == 3 && |dir + [Temporary(ManifestName(b), token(n))]| == 3;
      }
    }

    method Close() returns (ok: bool)
      requires open > 0
      modifies this`open, this`calls
      ensures open == old(open) - 1
      ensures !ok ==> Unclosed()
    {
      calls := calls + 1;
      open := open - 1;
      ok := !unclosed(calls);
    }

    /** One directory, opened without following a link, made when nothing has its name. */
    method OpenComponent(path: Path) returns (r: Opened)
      modifies this`at, this`open, this`calls
      ensures at == old(at) || (path !in old(at) && at == old(at)[path := Folder])
      ensures r.Open? ==> path in at && at[path] == Folder && open == old(open) + 1
      ensures !r.Open? ==> open == old(open) && !r.why.Written?
      ensures !r.Open? && r.why.Refused? ==> path in at && !at[path].Folder?
      ensures Calm() && PlainWay(old(at), [path]) ==> r.Open?
    {
      for pass := 0 to 2
        invariant open == old(open)
        invariant at == old(at) || (path !in old(at) && at == old(at)[path := Folder])
        invariant pass > 0 ==> path in at && at[path] == Folder
        invariant pass < 2
      {
        calls := calls + 1;
        if fault(calls) { return NotOpened(Failed); }
        if path in at {
          if !at[path].Folder? { return NotOpened(Refused); }
          open := open + 1;
          return Open;
        }
        calls := calls + 1;
        if fault(calls) { return NotOpened(Failed); }
        at := at[path := Folder];
      }
      return NotOpened(Refused);
    }

    /** A directory two below the share, reached through plain directories only, one descriptor at a time. */
    method Walk(one: Path, two: Path) returns (r: Opened)
      modifies this`at, this`open, this`calls
      ensures FoldersMade(old(at), at, {one, two})
      ensures r.Open? ==> open == old(open) + 1
      ensures r.Open? ==> IsFolder(at, []) && IsFolder(at, one) && IsFolder(at, two)
      ensures r.Open? ==> PlainWay(old(at), [[], one, two])
      ensures !r.Open? ==> !r.why.Written? && (open == old(open) || Unclosed())
      ensures Calm() && IsFolder(old(at), []) && PlainWay(old(at), [[], one, two]) ==> r.Open?
    {
      calls := calls + 1;
      if fault(calls) || [] !in at { return NotOpened(Failed); }
      if !at[[]].Folder? { return NotOpened(Refused); }
      open := open + 1;
      ghost var before := at;
      r := Down([], one);
      ghost var made := at;
      TwoFoldersMade(before, made, made, one, two);
      if !r.Open? { return; }
      r := Down(one, two);
      TwoFoldersMade(before, made, at, one, two);
    }

    /** One step down: the child opened, then the parent closed. */
    method Down(parent: Path, child: Path) returns (r: Opened)
      requires open > 0
      modifies this`at, this`open, this`calls
      ensures at == old(at) || (child !in old(at) && at == old(at)[child := Folder])
      ensures r.Open? ==> child in at && at[child] == Folder && open == old(open)
      ensures !r.Open? ==> !r.why.Written? && (open == old(open) - 1 || Unclosed())
      ensures Calm() && PlainWay(old(at), [child]) ==> r.Open?
    {
      r := OpenComponent(child);
      var closed := Close();
      if !closed { r := NotOpened(Failed); }
    }

    /** The bytes written to a fresh name in the directory, all of them; nothing stays when that fails. */
    method WriteNew(path: Path, data: seq<byte>) returns (ok: bool)
      modifies this`at, this`open, this`calls
      ensures open == old(open)
      ensures ok ==> path !in old(at) && at == old(at)[path := File(data)]
      ensures !ok ==> at == old(at) || (path !in old(at) && Stuck() && Grown(old(at), at, path))
      ensures Calm() && path !in old(at) ==> ok
    {
      calls := calls + 1;
      if fault(calls) || path in at { return false; }
      ghost var before := at;
      at := at[path := File([])];
      assert at - {path} == before;
      open := open + 1;
      ok := WriteAll(path, data);
      var closed := Close();
      if !ok || !closed { GrownBy(before, at, path); }
      if !ok && closed { Unlink(path); }
      ok := ok && closed;
    }

    /** As many writes as the system needs to take every byte, then a sync. */
    method WriteAll(path: Path, data: seq<byte>) returns (ok: bool)
      requires path in at && at[path] == File([])
      modifies this`at, this`calls
      ensures at.Keys == old(at).Keys && at - {path} == old(at) - {path}
      ensures ok ==> at == old(at)[path := File(data)]
      ensures Calm() ==> ok
    {
      var written := 0;
      while written < |data|
        invariant written <= |data|
        invariant at == old(at)[path := File(data[..written])]
      {
        calls := calls + 1;
        if fault(calls) { return false; }
        var n := if 1 <= taken(calls) <= |data| - written then taken(calls) else |data| - written;
        assert data[..written] + data[written..written + n] == data[..written + n];
        at := at[path := File(data[..written] + data[written..written + n])];
        written := written + n;
      }
      assert data[..written] == data;
      calls := calls + 1;
      ok := !fault(calls);
    }

    method Unlink(path: Path)
      modifies this`at, this`calls
      ensures at == old(at) - {path} || (at == old(at) && Stuck())
    {
      calls := calls + 1;
      if !stuck(calls) { at := at - {path}; }
    }

    /** Whether no target is something that a rename would not replace. */
    method RefuseObstacles(targets: seq<Path>) returns (why: Outcome, ok: bool)
      modifies this`calls
      ensures ok ==> forall t :: t in targets ==> Replaceable(at, t)
      ensures !ok ==> !why.Written?
      ensures !ok && why.Refused? ==> exists t :: t in targets && !Replaceable(at, t)
      ensures Calm() && (forall t :: t in targets ==> Replaceable(at, t)) ==> ok
    {
      for i := 0 to |targets|
        invariant forall j :: 0 <= j < i ==> Replaceable(at, targets[j])
      {
        calls := calls + 1;
        if fault(calls) { return Failed, false; }
        if !Replaceable(at, targets[i]) { return Refused, false; }
      }
      return Failed, true;
    }

    method Rename(from: Path, to: Path) returns (ok: bool)
      requires from in at
      modifies this`at, this`calls, this`renames
      ensures ok ==> at == old(at)[to := old(at)[from]] - {from} && renames == old(renames) + 1
      ensures !ok ==> at == old(at) && renames == old(renames)
      ensures Calm() && Replaceable(old(at), to) ==> ok
    {
      calls := calls + 1;
      if fault(calls) || !Replaceable(at, to) { return false; }
      at := at[to := at[from]] - {from};
      renames := renames + 1;
      return true;
    }

    /** Both files written beside their targets; what is left over after a failure is still to be removed. */
    method Stage(dir: Path, b: Bundle) returns (ok: bool, temporaries: seq<Path>)
      modifies this`at, this`open, this`calls
      ensures open == old(open)
      ensures ok ==> Apart(temporaries, dir, b) && Staged(old(at), at, temporaries, b)
      ensures !ok ==> Replaced(old(at), at, dir, b, 0) && (Stuck() || NewIn(old(at), at, {}, temporaries))
      ensures forall p :: p in temporaries ==> p !in old(at)
      ensures Calm() && Unclashed(old(at), dir, b) ==> ok
    {
      var s, t := token(calls), token(calls + 1);
      var first, second := dir + [Temporary(SqlName(b), s)], dir + [Temporary(ManifestName(b), t)];
      NoTarget(dir, b, SqlName(b), s);
      NoTarget(dir, b, ManifestName(b), t);
      NamesAreApart(dir, b, s, t);
      ok := WriteNew(first, b.sql);
      if !ok { return false, []; }
      ok := WriteNew(second, b.manifest);
      temporaries := if ok then [first, second] else [first];
    }

    /** The two renames, once both targets have been looked at. */
    method Commit(from: seq<Path>, dir: Path, b: Bundle) returns (r: Outcome, leftovers: seq<Path>)
      requires Apart(from, dir, b) && from[0] in at && from[1] in at
      modifies this`at, this`calls, this`renames
      ensures old(renames) <= renames <= old(renames) + 2
      ensures at == AfterRenames(old(at), from, dir, b, renames - old(renames))
      ensures leftovers == from[renames - old(renames)..]
      ensures r.Written? ==> renames == old(renames) + 2 && r.files == Files(dir, b)
      ensures r.Refused? ==> renames == old(renames) && Obstacle(old(at), dir, b)
      ensures Calm() && !Obstacle(old(at), dir, b) ==> r.Written?
    {
      var targets := [SqlTarget(dir, b), ManifestTarget(dir, b)];
      var why, ok := RefuseObstacles(targets);
      leftovers := from;
      if !ok { return why, leftovers; }
      for i := 0 to 2
        invariant renames == old(renames) + i && leftovers == from[i..]
        invariant at == AfterRenames(old(at), from, dir, b, i)
      {
        ok := Rename(leftovers[0], targets[i]);
        if !ok { return Failed, leftovers; }
        leftovers := leftovers[1..];
      }
      calls := calls + 1;
      return if fault(calls) then Failed else Written(Files(dir, b)), leftovers;
    }

    /** The temporaries removed, as far as the system lets them be. */
    method Clean(leftovers: seq<Path>)
      modifies this`at, this`calls
      ensures forall p :: p in at ==> p in old(at) && at[p] == old(at)[p]
      ensures forall p :: p in old(at) && p !in leftovers ==> p in at
      ensures Stuck() || forall p :: p in leftovers ==> p !in at
    {
      for i := 0 to |leftovers|
        invariant forall p :: p in at ==> p in old(at) && at[p] == old(at)[p]
        invariant forall p :: p in old(at) && p !in leftovers ==> p in at
        invariant Stuck() || forall j :: 0 <= j < i ==> leftovers[j] !in at
      {
        Unlink(leftovers[i]);
      }
    }

    /**
     The pair of a seed under its worktree's directory. On every exit each target is what it was or the whole new file,
     the manifest is new only if the SQL is, everything else that was there is as it was, and no descriptor stays open
     unless a close fails. When nothing fails and nothing is in the way, the pair is written.
     */
    method WriteSeed(worktree: string, b: Bundle) returns (r: Outcome)
      modifies this
      ensures old(renames) <= renames <= old(renames) + 2
      ensures Replaced(old(at), at, Home(worktree), b, renames - old(renames))
      ensures Stuck() || NewIn(old(at), at, Targets(Home(worktree), b, renames - old(renames)), [[SEEDS], Home(worktree)])
      ensures r.Written? ==> renames == old(renames) + 2 && r.files == Files(Home(worktree), b)
      ensures r.Refused? ==> renames == old(renames)
      ensures !IsComponent(worktree) ==> r.Refused? && at == old(at)
      ensures renames > old(renames) ==> PlainWay(old(at), [[], [SEEDS], Home(worktree)])
      ensures open == old(open) || Unclosed()
      ensures Calm() && IsComponent(worktree) && IsFolder(old(at), [])
              && PlainWay(old(at), [[], [SEEDS], Home(worktree)]) && Clear(old(at), Home(worktree), b) ==>
                r.Written?
    {
      if !IsComponent(worktree) { return Refused; }
      var dir := Home(worktree);
      var w := Walk([SEEDS], dir);
      if !w.Open? { return w.why; }
      if Clear(old(at), dir, b) { StaysClear(old(at), at, worktree, b); }
      r := WriteIn(dir, b);
      var closed := Close();
      if !closed { r := Failed; }
    }

    /** The pair in a directory that is open. */
    method WriteIn(dir: Path, b: Bundle) returns (r: Outcome)
      modifies this
      ensures old(renames) <= renames <= old(renames) + 2
      ensures Replaced(old(at), at, dir, b, renames - old(renames))
      ensures Stuck() || NewIn(old(at), at, Targets(dir, b, renames - old(renames)), [])
      ensures r.Written? ==> renames == old(renames) + 2 && r.files == Files(dir, b)
      ensures r.Refused? ==> renames == old(renames) && Obstacle(old(at), dir, b)
      ensures open == old(open)
      ensures Calm() && Clear(old(at), dir, b) ==> r.Written?
    {
      var ok, temporaries := Stage(dir, b);
      r := Failed;
      if ok { r, temporaries := CommitStaged(temporaries, dir, b, old(at)); }
      ghost var now := at;
      Clean(temporaries);
      CleanedIsReplaced(old(at), now, at, temporaries, dir, b, renames - old(renames));
      if !Stuck() { CleanedIsNew(old(at), now, at, Targets(dir, b, renames - old(renames)), temporaries); }
    }

    /** The commit of a staged pair, told of the directory before the staging. */
    method CommitStaged(from: seq<Path>, dir: Path, b: Bundle, ghost before: map<Path, Kind>)
      returns (r: Outcome, leftovers: seq<Path>)
      requires Apart(from, dir, b) && Staged(before, at, from, b)
      modifies this`at, this`calls, this`renames
      ensures old(renames) <= renames <= old(renames) + 2
      ensures Replaced(before, at, dir, b, renames - old(renames))
      ensures NewIn(before, at, Targets(dir, b, renames - old(renames)), leftovers)
      ensures forall p :: p in leftovers ==> p !in before && p !in Targets(dir, b, renames - old(renames))
      ensures r.Written? ==> renames == old(renames) + 2 && r.files == Files(dir, b)
      ensures r.Refused? ==> renames == old(renames) && Obstacle(before, dir, b)
      ensures Calm() && !Obstacle(before, dir, b) ==> r.Written?
    {
      StagedIsNoObstacle(before, at, from, dir, b);
      r, leftovers := Commit(from, dir, b);
      RenamedIsReplaced(before, old(at), from, dir, b, renames - old(renames));
    }
  }

  lemma StagedIsNoObstacle(before: map<Path, Kind>, staged: map<Path, Kind>, from: seq<Path>, dir: Path, b: Bundle)
    requires Staged(before, staged, from, b) && Apart(from, dir, b)
    ensures from[0] in staged && from[1] in staged
    ensures Obstacle(staged, dir, b) <==> Obstacle(before, dir, b)
  {
  }

  function Files(dir: Path, b: Bundle): SeedFiles {
    SeedFiles(SqlTarget(dir, b), ManifestTarget(dir, b), |b.sql|, |b.manifest|)
  }

  /** What is reported of a pair is what is there: each path leads to the whole file, and its size is that file's. */
  lemma ReportIsTrue(before: map<Path, Kind>, after: map<Path, Kind>, worktree: string, b: Bundle)
    requires Replaced(before, after, Home(worktree), b, 2)
    ensures var f := Files(Home(worktree), b);
      && f.sql == ["agent_mcp_seeds", worktree, b.revision + ".sql"]
      && f.manifest == ["agent_mcp_seeds", worktree, b.revision + ".json"]
      && f.sql in after && after[f.sql] == File(b.sql) && f.sqlBytes == |after[f.sql].data|
      && f.manifest in after && after[f.manifest] == File(b.manifest) && f.manifestBytes == |after[f.manifest].data|
  {
  }

  /** A pair has an obstacle exactly when one of its two names leads to a directory or a special node. */
  lemma ObstacleExactly(at: map<Path, Kind>, dir: Path, b: Bundle)
    ensures Obstacle(at, dir, b) <==>
      exists p :: p in at && p in {dir + [b.revision + ".sql"], dir + [b.revision + ".json"]} && (at[p] == Folder || at[p] == Special)
  {
    if Obstacle(at, dir, b) {
      var p := if Replaceable(at, SqlTarget(dir, b)) then ManifestTarget(dir, b) else SqlTarget(dir, b);
      assert p in at;
    }
  }

  /** The worktrees that are let through are those that stay one directory beneath the share when the path is walked. */
  lemma ComponentExactly(name: string)
    ensures IsComponent(name) <==>
      '\0' !in name && ProxyPath.Resolve(SplitOn("agent_mcp_seeds/" + name, '/'), false) == ["agent_mcp_seeds", name]
  {
    assert "agent_mcp_seeds/" == "agent_mcp_seeds" + ['/'];
    OneBelow("agent_mcp_seeds", name);
  }

  predicate IsDots(name: string) {
    name == "" || name == "." || name == ".."
  }

  lemma OneBelow(dir: string, name: string)
    requires !IsDots(dir) && '/' !in dir
    ensures ProxyPath.Resolve(SplitOn(dir + ['/'] + name, '/'), false) == [dir, name] <==> !IsDots(name) && '/' !in name
  {
    SplitOnCons(dir, '/', name);
    if '/' in name {
      ResolvedAreParts([dir] + SplitOn(name, '/'), name);
    } else {
      SplitOnCons(name, '/', "");
      assert [dir] + [name] == [dir, name];
      OneResolved(dir);
      assert [dir, name][..1] == [dir];
    }
  }

  lemma OneResolved(dir: string)
    requires !IsDots(dir)
    ensures ProxyPath.Resolve([dir], false) == [dir]
  {
    assert [dir][..0] == [];
  }

  lemma {:induction false} ResolvedAreParts(parts: seq<string>, name: string)
    ensures name in ProxyPath.Resolve(parts, false) ==> name in parts
  {
    if parts != [] {
      ResolvedAreParts(parts[..|parts| - 1], name);
    }
  }

  lemma TemporarySpells(final: string, token: string)
    ensures |Temporary(final, token)| > |final| + 5
    ensures forall i :: 0 <= i < |final| ==> Temporary(final, token)[i + 1] == final[i]
  {
  }

  /** A temporary has the name of no target. */
  lemma NoTarget(dir: Path, b: Bundle, final: string, token: string)
    requires final == SqlName(b) || final == ManifestName(b)
    ensures dir + [Temporary(final, token)] != SqlTarget(dir, b) && dir + [Temporary(final, token)] != ManifestTarget(dir, b)
  {
    var d := |dir|;
    TemporarySpells(final, token);
    assert SqlTarget(dir, b)[d] == SqlName(b) && ManifestTarget(dir, b)[d] == ManifestName(b);
    assert (dir + [Temporary(final, token)])[d] == Temporary(final, token);
  }

  lemma NamesAreApart(dir: Path, b: Bundle, s: string, t: string)
    ensures SqlTarget(dir, b) != ManifestTarget(dir, b)
    ensures dir + [Temporary(SqlName(b), s)] != dir + [Temporary(ManifestName(b), t)]
  {
    var n, d := |b.revision|, |dir|;
    TemporarySpells(SqlName(b), s);
    TemporarySpells(ManifestName(b), t);
    assert Temporary(SqlName(b), s)[n + 2] == 's' && Temporary(ManifestName(b), t)[n + 2] == 'j';
    assert (dir + [Temporary(SqlName(b), s)])[d] == Temporary(SqlName(b), s);
    assert (dir + [Temporary(ManifestName(b), t)])[d] == Temporary(ManifestName(b), t);
    assert SqlTarget(dir, b)[d] == SqlName(b) && ManifestTarget(dir, b)[d] == ManifestName(b);
  }
}
