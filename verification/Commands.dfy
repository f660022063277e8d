/** The commands a verb can issue, which of them can build an image, and how their output is read. */
module Commands {
  import opened Options
  import opened Text
  import opened ModeGuard

  const BASE_IMAGES := [
    "debian:bookworm-slim@sha256:3783cc01769c7b2b1b83a5c5ad96c815348e28ed7da68e2e3687004faa906251",
    "ghcr.io/astral-sh/uv:0.12.19@sha256:04d046b13e60d6bcec73cbc5e1cad25d680dea90c8573340950a0ac2d1aef424",
    "caddy:2.11.7-alpine@sha256:d8542f48d34a9cf4e4c11a478865229840e87e4c96ea3f439101f31a5d35f75f"
  ]
  const DEV_IMAGES := ["trader_joe_data_store:dev", "trader_joe_data_ingest:dev", "trader_joe_web:dev"]
  const TEST_IMAGES := ["trader_joe_data_store:test", "trader_joe_data_ingest:test"]
  const BUILT_SERVICES := {"data_store", "data_ingest", "test_client"}

  const DOWN_TAIL := ["down"]
  const RESTART_SERVICES := {"data_store", "data_ingest", "web"}
  const DEV_BUILD_TAIL := ["build", "data_store", "data_ingest", "web"]
  const DEV_UP_TAIL := ["up", "-d", "--wait", "--wait-timeout", "300", "postgres", "data_store", "data_ingest", "web"]
  const DEV_TOOLS_TAIL := ["up", "-d", "--wait", "pgadmin"]
  const TEST_BUILD_TAIL := ["build", "data_store", "data_ingest"]
  const TEST_UP_TAIL := ["up", "-d", "--wait", "--wait-timeout", "300"]
  const MIGRATE_TAIL := ["run", "--rm", "--no-deps", "data_store", "/code/.venv/bin/alembic", "upgrade", "head"]
  const CLIENT_BUILD_TAIL := ["build", "test_client"]
  const SYSTEM_TESTS_HEAD := ["run", "--rm", "--no-deps", "--build", "test_client"]
  const SEED_RUN := ["run", "--rm", "-T", "--entrypoint", "/code/.venv/bin/python", "test_client", "-m", "data.store.seeds"]

  /** The compose files a command names; a label-only command names none. */
  datatype Files = LabelOnly | DevFiles | ToolsFiles | TestFiles | TestBuildFiles | ClientFiles

  datatype Action =
    | GuardList
    | Lookup(service: string)
    | ImageInspect(image: string)
    | ImageStamp(stamped: string)
    | ContainerStamp(container: string)
    | MountRead(mounted: string)
    | Digest(which: nat)
    | NetworkInspect
    | NetworkCreate
    | BasePull(ref: string)
    | Compose(files: Files, tail: seq<string>)

  datatype Step = Step(action: Action, builds: bool)

  /** Whether a compose command can build: build, any --build, up always, a run that names a built service. */
  predicate Builds(tail: seq<string>) {
    |tail| > 0 &&
    (tail[0] in {"build", "up"} || "--build" in tail || (tail[0] == "run" && exists w :: w in tail && w in BUILT_SERVICES))
  }

  /** Actions that only look. Every other one creates, removes, restarts or fetches something. */
  predicate Looks(a: Action) {
    !a.NetworkCreate? && !a.BasePull? && !a.Compose?
  }

  /** Actions on the project's own containers. */
  predicate TouchesProject(a: Action) {
    a.Compose? && |a.tail| > 0 && a.tail[0] != "build"
  }

  function Look(a: Action): Step { Step(a, false) }

  function DownStep(): Step { Step(Compose(LabelOnly, DOWN_TAIL), false) }

  function RestartStep(service: string): Step { Step(Compose(LabelOnly, ["restart", service]), false) }

  /** The tools step starts image-only services, so its builder leaves the mark off though it is an up. */
  function ToolsStep(): Step { Step(Compose(ToolsFiles, DEV_TOOLS_TAIL), false) }

  /** A file-based step, marked by its own words. */
  function FileStep(files: Files, tail: seq<string>): Step { Step(Compose(files, tail), Builds(tail)) }

  /** A word that lets a tail build: build or up in front, --build anywhere, a built service in a run. */
  predicate LetsBuild(tail: seq<string>, i: nat)
    requires i < |tail|
  {
    || (i == 0 && (tail[i] == "build" || tail[i] == "up")) || tail[i] == "--build"
    || (tail[0] == "run" && (tail[i] == "data_store" || tail[i] == "data_ingest" || tail[i] == "test_client"))
  }

  lemma BuildsExactly(tail: seq<string>)
    ensures Builds(tail) <==> exists i :: 0 <= i < |tail| && LetsBuild(tail, i)
  {
    if Builds(tail) {
      if "--build" in tail {
        var i :| 0 <= i < |tail| && tail[i] == "--build";
        assert LetsBuild(tail, i);
      } else if tail[0] != "build" && tail[0] != "up" {
        var w :| w in tail && w in BUILT_SERVICES;
        var i :| 0 <= i < |tail| && tail[i] == w;
        assert LetsBuild(tail, i);
      } else {
        assert LetsBuild(tail, 0);
      }
    }
  }

  /** Every file-based step of the verbs is marked as building. */
  lemma FileStepsBuild()
    ensures Builds(DEV_BUILD_TAIL) && Builds(DEV_UP_TAIL) && Builds(TEST_BUILD_TAIL) && Builds(TEST_UP_TAIL)
    ensures Builds(MIGRATE_TAIL) && Builds(CLIENT_BUILD_TAIL) && Builds(SEED_RUN)
    ensures forall paths: seq<string> :: Builds(SYSTEM_TESTS_HEAD + paths)
    ensures forall date: seq<string> :: Builds(SEED_RUN + date)
    ensures !Builds(DOWN_TAIL) && forall s :: s in RESTART_SERVICES ==> !Builds(["restart", s])
  {
    assert MIGRATE_TAIL[3] in BUILT_SERVICES && SEED_RUN[5] in BUILT_SERVICES;
    forall paths: seq<string> ensures Builds(SYSTEM_TESTS_HEAD + paths) {
      assert (SYSTEM_TESTS_HEAD + paths)[3] == "--build";
    }
    forall date: seq<string> ensures Builds(SEED_RUN + date) {
      assert (SEED_RUN + date)[0] == "run" && (SEED_RUN + date)[5] == "test_client";
    }
  }

  // ---- outputs

  predicate IsHex64(t: string) {
    |t| == 64 && forall c :: c in t ==> '0' <= c <= '9' || 'a' <= c <= 'f'
  }

  /** The digest a digest step printed: exit 0 and exactly 64 lowercase hex and a newline. */
  function ParseDigest(x: Exit): Option<string> {
    if x.status == Some(0) && |x.stdout| == 65 && x.stdout[64] == '\n' && IsHex64(x.stdout[..64])
    then Some(x.stdout[..64]) else None
  }

  /** A stamp verifies when the read succeeds and its stripped output is the digest. */
  predicate StampMatches(x: Exit, digest: string) {
    x.status == Some(0) && IsHex64(Strip(x.stdout)) && Strip(x.stdout) == digest
  }

  predicate IsContainerId(id: string) {
    12 <= |id| <= 64 && forall c :: c in id ==> '0' <= c <= '9' || 'a' <= c <= 'f'
  }

  /** The ids a lookup printed: its stripped lines that are not blank. */
  function Ids(x: Exit): seq<string> {
    NonBlankLines(x.stdout)
  }

  /** A lookup that found no container, or one with an id. */
  predicate OneAtMost(x: Exit) {
    Ids(x) == [] || (|Ids(x)| == 1 && IsContainerId(Ids(x)[0]))
  }

  /** The data mount of the test postgres: the output less one final newline is exactly the expected directory. */
  predicate MountMatches(x: Exit, expected: string) {
    && x.status == Some(0) && x.utf8
    && expected == if x.stdout != "" && x.stdout[|x.stdout| - 1] == '\n' then x.stdout[..|x.stdout| - 1] else x.stdout
  }
}
