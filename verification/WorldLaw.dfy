/**
 What the law of the verbs means for the world: the trace of a call tells only what its world answered, so a world that
 shows a protected project, lacks a base or carries stale stamps is not touched.
 */
module WorldLaw {
  import opened Options
  import opened ModeGuard
  import opened Commands
  import opened VerbLaw
  import opened Runner
  import opened Outputs

  lemma {:induction false} FromWorldAt(w: World, t: Trace, i: nat)
    requires FromWorld(w, t) && i < |t|
    ensures FromWorld(w, t[..i]) && Tells(w, t[..i], t[i])
  {
    if i < |t| - 1 {
      FromWorldAt(w, t[..|t| - 1], i);
      assert t[..|t| - 1][..i] == t[..i];
    }
  }

  /** Every command in a trace got its world's answer at that point, and every check passed there. */
  lemma EventIsTheWorlds(w: World, t: Trace, e: Event)
    requires FromWorld(w, t) && e in t
    ensures exists i :: 0 <= i < |t| && t[i] == e && Tells(w, t[..i], e)
  {
    var i :| 0 <= i < |t| && t[i] == e;
    FromWorldAt(w, t, i);
  }

  /** Whenever the project is listed, the guard refuses it. */
  ghost predicate AlwaysRefused(w: World) {
    forall t, x :: w.answer(t, Look(GuardList)) == Exited(x) ==> CheckModeGuard(x, MODES_ANY) == Refused
  }

  /** A project that shows a PROD container, or a mix of modes, whenever it is listed, is touched by no call of any verb. */
  lemma {:induction false} ProtectedIsNotTouched(w: World, verb: Verb, t: Trace, i: nat)
    requires Happened(w, verb, t) && AlwaysRefused(w) && i < |t| && t[i].Ran?
    ensures !TouchesProject(t[i].step.action)
  {
    if TouchesProject(t[i].step.action) {
      LawfulAt(verb, w.testMount, t, i);
      FromWorldAt(w, t, i);
      TouchedIsGuarded(verb, w.testMount, t[..i], t[i].step.action);
      NeverGuarded(w, t[..i]);
    }
  }

  lemma NeverGuarded(w: World, t: Trace)
    requires FromWorld(w, t) && AlwaysRefused(w)
    ensures !GuardedAny(t, MODES_ANY)
  {
    forall x | Ran(Look(GuardList), Exited(x)) in t ensures CheckModeGuard(x, MODES_ANY) == Refused {
      EventIsTheWorlds(w, t, Ran(Look(GuardList), Exited(x)));
    }
  }

  lemma TouchedIsGuarded(verb: Verb, expected: string, t: Trace, a: Action)
    requires MayAct(verb, expected, t, a) && TouchesProject(a)
    ensures GuardedAny(t, MODES_ANY)
  {
    NarrowGuardIsGuard(t, MODES_DEV_OR_EMPTY);
    NarrowGuardIsGuard(t, MODES_DEV_OR_TEST);
    NarrowGuardIsGuard(t, MODES_TEST);
  }

  /** A base that is never there and can never be pulled. */
  ghost predicate NeverPresent(w: World, ref: string) {
    forall t :: !ExitedZero(w.answer(t, Look(ImageInspect(ref)))) && !ExitedZero(w.answer(t, Look(BasePull(ref))))
  }

  /** Without a base nothing is built, and `up` and `test_up` leave the project as it is. */
  lemma {:induction false} MissingBaseStops(w: World, verb: Verb, t: Trace, i: nat, ref: string)
    requires Happened(w, verb, t) && ref in BASE_IMAGES && NeverPresent(w, ref) && i < |t| && t[i].Ran?
    ensures !t[i].step.builds
    ensures verb in {Up, TestUp} ==> !TouchesProject(t[i].step.action)
  {
    LawfulAt(verb, w.testMount, t, i);
    FromWorldAt(w, t, i);
    if Confirmed(t[..i], ref) { NeverConfirmed(w, t[..i], ref); }
    assert !AllBases(t[..i]);
    if verb in {Up, TestUp} && TouchesProject(t[i].step.action) {
      UpOnlyAfterDown(verb, w.testMount, t, i);
    }
  }

  lemma NeverConfirmed(w: World, t: Trace, ref: string)
    requires FromWorld(w, t) && NeverPresent(w, ref)
    ensures !Confirmed(t, ref)
  {
    forall a | Ran(Look(ImageInspect(ref)), a) in t ensures !ExitedZero(a) {
      EventIsTheWorlds(w, t, Ran(Look(ImageInspect(ref)), a));
    }
    forall a | Ran(Look(BasePull(ref)), a) in t ensures !ExitedZero(a) {
      EventIsTheWorlds(w, t, Ran(Look(BasePull(ref)), a));
    }
  }

  /** A reading of a stamp that never prints what a digest step prints. */
  ghost predicate AlwaysStale(w: World, which: nat, stamp: Action) {
    forall t, u, x, y :: w.answer(t, Look(Digest(which))) == Exited(x) && w.answer(u, Look(stamp)) == Exited(y) ==> Differ(x, y)
  }

  lemma StaleIsNoMatch(w: World, t: Trace, which: nat, stamp: Action, y: Exit, d: string)
    requires FromWorld(w, t) && AlwaysStale(w, which, stamp) && DigestIs(t, which, d) && Ran(Look(stamp), Exited(y)) in t
    ensures !StampMatches(y, d)
  {
    var x :| Ran(Look(Digest(which)), Exited(x)) in t && ParseDigest(x) == Some(d);
    EventIsTheWorlds(w, t, Ran(Look(Digest(which)), Exited(x)));
    EventIsTheWorlds(w, t, Ran(Look(stamp), Exited(y)));
    DifferentIsNoMatch(x, y);
  }

  lemma NeverCurrent(w: World, t: Trace, which: nat)
    requires FromWorld(w, t) && which < 2 && AlwaysStale(w, which, ImageStamp(TEST_IMAGES[which]))
    ensures !ImageCurrent(t, which)
  {
    if ImageCurrent(t, which) {
      var y, d :| DigestIs(t, which, d) && Ran(Look(ImageStamp(TEST_IMAGES[which])), Exited(y)) in t && StampMatches(y, d);
      StaleIsNoMatch(w, t, which, ImageStamp(TEST_IMAGES[which]), y, d);
    }
  }

  /** `test_up` leaves the project as it is while the stamp printed of an image is another text than the digest printed. */
  lemma {:induction false} StaleImageStops(w: World, t: Trace, i: nat, which: nat)
    requires Happened(w, TestUp, t) && which < 2 && AlwaysStale(w, which, ImageStamp(TEST_IMAGES[which]))
    requires i < |t| && t[i].Ran?
    ensures !TouchesProject(t[i].step.action)
  {
    if TouchesProject(t[i].step.action) {
      UpOnlyAfterDown(TestUp, w.testMount, t, i);
      FromWorldAt(w, t, i);
      NeverCurrent(w, t[..i], which);
    }
  }

  /** Nor does `migrate` touch the test database then, for the image it would run. */
  lemma {:induction false} StaleMigrationStops(w: World, t: Trace, i: nat)
    requires Happened(w, Migrate, t) && AlwaysStale(w, 0, ImageStamp(TEST_IMAGES[0]))
    requires i < |t| && t[i].Ran?
    ensures !(t[i].step.action.Compose? && t[i].step.action.files == TestFiles)
  {
    LawfulAt(Migrate, w.testMount, t, i);
    FromWorldAt(w, t, i);
    NeverCurrent(w, t[..i], 0);
  }

  const TEST_SERVICES := ["data_store", "data_ingest"]

  /** A service whose lookup always prints one container, of stale stamp whichever container that is. */
  ghost predicate AlwaysStaleService(w: World, which: nat)
    requires which < 2
  {
    && (forall t, x :: w.answer(t, Look(Lookup(TEST_SERVICES[which]))) == Exited(x) ==>
          exists id :: IsWord(id) && x.stdout == PrintLabels([id]))
    && (forall id :: AlwaysStale(w, which, ContainerStamp(id)))
  }

  lemma NeverServiceCurrent(w: World, t: Trace, which: nat)
    requires FromWorld(w, t) && which < 2 && AlwaysStaleService(w, which)
    ensures !ServiceCurrent(t, TEST_SERVICES[which], which)
  {
    var service := TEST_SERVICES[which];
    if ServiceCurrent(t, service, which) {
      var l :| Ran(Look(Lookup(service)), Exited(l)) in t && l.status == Some(0) &&
        (Ids(l) == [] || ContainerCurrent(t, l, which));
      EventIsTheWorlds(w, t, Ran(Look(Lookup(service)), Exited(l)));
      var id :| IsWord(id) && l.stdout == PrintLabels([id]);
      IdsArePrinted(l, [id]);
      var y, d :| |Ids(l)| == 1 && DigestIs(t, which, d) &&
        Ran(Look(ContainerStamp(Ids(l)[0])), Exited(y)) in t && StampMatches(y, d);
      StaleIsNoMatch(w, t, which, ContainerStamp(id), y, d);
    }
  }

  /** The verbs that write the test database, and `migrate` in test mode, run nothing in it beside a stale container. */
  lemma {:induction false} StaleServiceStops(w: World, verb: Verb, t: Trace, i: nat, which: nat)
    requires verb in {RunSystemTests, SeedDump, Migrate} && Happened(w, verb, t) && which < 2 && AlwaysStaleService(w, which)
    requires i < |t| && t[i].Ran? && t[i].step.action.Compose?
    ensures verb == Migrate && t[i].step.action.files == DevFiles
  {
    LawfulAt(verb, w.testMount, t, i);
    FromWorldAt(w, t, i);
    NeverServiceCurrent(w, t[..i], which);
  }

  /** A postgres that always prints a data mount other than the test directory. */
  ghost predicate AlwaysElsewhere(w: World) {
    forall t, id, x :: w.answer(t, Look(MountRead(id))) == Exited(x) ==> x.stdout != w.testMount && !IsLine(x.stdout, w.testMount)
  }

  lemma NeverOnMount(w: World, t: Trace)
    requires FromWorld(w, t) && AlwaysElsewhere(w) && w.testMount != "" && w.testMount[|w.testMount| - 1] != '\n'
    ensures !PostgresOnMount(t, w.testMount)
  {
    forall id, x | Ran(Look(MountRead(id)), Exited(x)) in t ensures !MountMatches(x, w.testMount) {
      EventIsTheWorlds(w, t, Ran(Look(MountRead(id)), Exited(x)));
      MountExactly(x, w.testMount);
    }
  }

  /** Nothing is run on a database whose data lies elsewhere. */
  lemma {:induction false} OtherMountStops(w: World, verb: Verb, t: Trace, i: nat)
    requires verb in {RunSystemTests, SeedDump} && Happened(w, verb, t) && AlwaysElsewhere(w)
    requires w.testMount != "" && w.testMount[|w.testMount| - 1] != '\n'
    requires i < |t| && t[i].Ran?
    ensures !t[i].step.action.Compose?
  {
    if t[i].step.action.Compose? {
      LawfulAt(verb, w.testMount, t, i);
      FromWorldAt(w, t, i);
      NeverOnMount(w, t[..i]);
    }
  }

  /** The checks that a verb makes before any compose command. */
  function Demanded(verb: Verb): set<Check> {
    match verb
    case Down => {SteeringFiles}
    case Restart => {BindSources(DEV), SteeringFiles}
    case Build => {TrustedCopies, GeneratedCode}
    case Up => {TrustedCopies, BindSources(DEV), EnvFiles, SteeringFiles, GeneratedCode}
    case Tools => {TrustedCopies, BindSources(DEV), EnvFiles}
    case TestBuild => {TrustedCopies, GeneratedCode}
    case TestUp => {TrustedCopies, BindSources(TEST), EnvFiles, SteeringFiles}
    case Migrate => {TrustedCopies, EnvFiles, Revisions}
    case RunSystemTests => {TrustedCopies, EnvFiles, Snapshot}
    case SeedDump => {TrustedCopies, EnvFiles, Snapshot}
  }

  lemma AllDemandedPassed(verb: Verb, expected: string, t: Trace, files: Files, tail: seq<string>, c: Check)
    requires MayCompose(verb, expected, t, files, tail) && c in Demanded(verb)
    ensures Passed(c) in t
  {
  }

  /** A check that never passes keeps the verb from every compose command. */
  lemma {:induction false} FailedCheckStops(w: World, verb: Verb, t: Trace, i: nat, c: Check)
    requires Happened(w, verb, t) && c in Demanded(verb) && (forall u :: w.verdict(u, c) != Pass)
    requires i < |t| && t[i].Ran?
    ensures !t[i].step.action.Compose?
  {
    if t[i].step.action.Compose? {
      LawfulAt(verb, w.testMount, t, i);
      FromWorldAt(w, t, i);
      AllDemandedPassed(verb, w.testMount, t[..i], t[i].step.action.files, t[i].step.action.tail, c);
      EventIsTheWorlds(w, t[..i], Passed(c));
    }
  }

  ghost predicate NeverThere(w: World, image: string) {
    forall u :: !ExitedZero(w.answer(u, Look(ImageInspect(image))))
  }

  lemma NotThere(w: World, t: Trace, image: string)
    requires FromWorld(w, t) && NeverThere(w, image)
    ensures !RanOk(t, Look(ImageInspect(image)))
  {
    if RanOk(t, Look(ImageInspect(image))) {
      var a :| ExitedZero(a) && Ran(Look(ImageInspect(image)), a) in t;
      EventIsTheWorlds(w, t, Ran(Look(ImageInspect(image)), a));
    }
  }

  /** An image that is never there keeps `up` and `test_up` from the project. */
  lemma {:induction false} MissingImageStops(w: World, verb: Verb, t: Trace, i: nat, image: string)
    requires verb in {Up, TestUp} && Happened(w, verb, t) && image in (if verb == Up then DEV_IMAGES else TEST_IMAGES)
    requires NeverThere(w, image)
    requires i < |t| && t[i].Ran?
    ensures !TouchesProject(t[i].step.action)
  {
    if TouchesProject(t[i].step.action) {
      UpOnlyAfterDown(verb, w.testMount, t, i);
      FromWorldAt(w, t, i);
      NotThere(w, t[..i], image);
    }
  }

  /** A digest step that never prints 64 lowercase hex digits and a newline. */
  ghost predicate NeverDigest(w: World, which: nat) {
    forall t, x, d :: w.answer(t, Look(Digest(which))) == Exited(x) ==> !(Hex64(d) && IsLine(x.stdout, d))
  }

  lemma NeverRead(w: World, t: Trace, which: nat)
    requires FromWorld(w, t) && NeverDigest(w, which)
    ensures forall d :: !DigestIs(t, which, d)
  {
    forall d ensures !DigestIs(t, which, d) {
      if DigestIs(t, which, d) {
        var x :| Ran(Look(Digest(which)), Exited(x)) in t && ParseDigest(x) == Some(d);
        EventIsTheWorlds(w, t, Ran(Look(Digest(which)), Exited(x)));
        DigestExactly(x, d);
      }
    }
  }

  /** Sources whose digest cannot be computed are neither built nor put up. */
  lemma {:induction false} UnreadDigestStops(w: World, verb: Verb, t: Trace, i: nat, which: nat)
    requires verb in {Build, TestBuild, Up, TestUp} && Happened(w, verb, t) && which < 2 && NeverDigest(w, which)
    requires i < |t| && t[i].Ran?
    ensures !t[i].step.action.Compose?
  {
    LawfulAt(verb, w.testMount, t, i);
    FromWorldAt(w, t, i);
    NeverRead(w, t[..i], which);
  }

  /** When no down of the project exits with zero, `up` and `test_up` issue no command on it but that down. */
  lemma {:induction false} NothingAfterAFailedDown(w: World, verb: Verb, t: Trace, i: nat)
    requires verb in {Up, TestUp} && Happened(w, verb, t) && (forall u :: !ExitedZero(w.answer(u, DownStep())))
    requires i < |t| && t[i].Ran? && TouchesProject(t[i].step.action)
    ensures t[i].step.action == DownStep().action
  {
    if t[i].step.action != DownStep().action {
      UpOnlyAfterDown(verb, w.testMount, t, i);
      FromWorldAt(w, t, i);
      var a :| ExitedZero(a) && Ran(DownStep(), a) in t[..i];
      EventIsTheWorlds(w, t[..i], Ran(DownStep(), a));
    }
  }

  /** Without a network nothing is put up on it. */
  lemma {:induction false} NoNetworkStops(w: World, verb: Verb, t: Trace, i: nat)
    requires Happened(w, verb, t) && (forall u :: !ExitedZero(w.answer(u, Look(NetworkInspect))))
    requires i < |t| && t[i].Ran?
    ensures t[i].step.action != Compose(DevFiles, DEV_UP_TAIL) && t[i].step.action != Compose(ToolsFiles, DEV_TOOLS_TAIL)
  {
    LawfulAt(verb, w.testMount, t, i);
    FromWorldAt(w, t, i);
    NeverOnNetwork(w, t[..i]);
    if t[i].step.action.Compose? { NeedsNetwork(verb, w.testMount, t[..i], t[i].step.action.files, t[i].step.action.tail); }
  }

  lemma NeverOnNetwork(w: World, t: Trace)
    requires FromWorld(w, t) && forall u :: !ExitedZero(w.answer(u, Look(NetworkInspect)))
    ensures !RanOk(t, Look(NetworkInspect))
  {
    if RanOk(t, Look(NetworkInspect)) {
      var a :| ExitedZero(a) && Ran(Look(NetworkInspect), a) in t;
      EventIsTheWorlds(w, t, Ran(Look(NetworkInspect), a));
    }
  }

  lemma NeedsNetwork(verb: Verb, expected: string, t: Trace, files: Files, tail: seq<string>)
    requires MayCompose(verb, expected, t, files, tail)
    ensures (files == DevFiles && tail == DEV_UP_TAIL) || (files == ToolsFiles && tail == DEV_TOOLS_TAIL) ==>
      RanOk(t, Look(NetworkInspect))
  {
    TailsDiffer();
  }

  lemma TailsDiffer()
    ensures DEV_UP_TAIL != DEV_BUILD_TAIL && DEV_UP_TAIL != MIGRATE_TAIL
  {
    assert DEV_UP_TAIL[0] != DEV_BUILD_TAIL[0] && DEV_UP_TAIL[0] != MIGRATE_TAIL[0];
  }

  /** Of the compose commands of a call those that build touch nothing yet, and every other one touches the project. */
  lemma {:induction false} LawfulTouches(verb: Verb, expected: string, t: Trace, files: Files, tail: seq<string>)
    requires MayCompose(verb, expected, t, files, tail)
    ensures !Looks(Compose(files, tail))
    ensures TouchesProject(Compose(files, tail)) <==> tail !in {DEV_BUILD_TAIL, TEST_BUILD_TAIL, CLIENT_BUILD_TAIL}
  {
  }

  /** A service whose lookup never prints exactly one line: it does not run, or runs more than once. */
  ghost predicate NeverOne(w: World, service: string) {
    forall t, x :: w.answer(t, Look(Lookup(service))) == Exited(x) ==>
      exists ids :: |ids| != 1 && x.stdout == PrintLabels(ids) && forall id :: id in ids ==> IsWord(id)
  }

  lemma NeverOneRunning(w: World, t: Trace, service: string)
    requires FromWorld(w, t) && NeverOne(w, service)
    ensures forall id :: !OneRunning(t, service, id)
  {
    forall id ensures !OneRunning(t, service, id) {
      if OneRunning(t, service, id) {
        var l :| Ran(Look(Lookup(service)), Exited(l)) in t && l.status == Some(0) && Ids(l) == [id];
        EventIsTheWorlds(w, t, Ran(Look(Lookup(service)), Exited(l)));
        var ids :| |ids| != 1 && l.stdout == PrintLabels(ids) && forall i :: i in ids ==> IsWord(i);
        IdsArePrinted(l, ids);
      }
    }
  }

  /** Nothing is run on a database, and nothing is migrated, without one running postgres; nor tested without one data_store. */
  lemma {:induction false} NotRunningStops(w: World, verb: Verb, t: Trace, i: nat, service: string)
    requires verb in {RunSystemTests, SeedDump, Migrate} && Happened(w, verb, t) && NeverOne(w, service)
    requires service == "postgres" || (verb != Migrate && service == "data_store")
    requires i < |t| && t[i].Ran?
    ensures !t[i].step.action.Compose?
  {
    LawfulAt(verb, w.testMount, t, i);
    FromWorldAt(w, t, i);
    NeverOneRunning(w, t[..i], service);
  }

  /** A project that shows one mode whenever it is listed. */
  ghost predicate AlwaysIn(w: World, m: Mode) {
    forall t, x :: w.answer(t, Look(GuardList)) == Exited(x) ==>
      exists labels :: labels != [] && x.stdout == PrintLabels(labels) && AllInMode(labels, m)
  }

  predicate AllInMode(labels: seq<string>, m: Mode) {
    forall l :: l in labels ==> '\n' !in l && ClassifyMode(l) == m
  }

  lemma NeverInOther(w: World, t: Trace, m: Mode, accepted: set<Option<Mode>>, seen: Option<Mode>)
    requires FromWorld(w, t) && AlwaysIn(w, m) && Guarded(t, accepted, seen)
    ensures seen == Some(m) && seen in accepted
  {
    var x :| Ran(Look(GuardList), Exited(x)) in t && CheckModeGuard(x, accepted) == Accepted(seen);
    EventIsTheWorlds(w, t, Ran(Look(GuardList), Exited(x)));
    var labels :| labels != [] && x.stdout == PrintLabels(labels) && AllInMode(labels, m);
    GuardShows(x, labels, m, accepted, seen);
  }

  lemma GuardShows(x: Exit, labels: seq<string>, m: Mode, accepted: set<Option<Mode>>, seen: Option<Mode>)
    requires labels != [] && x.stdout == PrintLabels(labels) && AllInMode(labels, m)
    requires CheckModeGuard(x, accepted) == Accepted(seen)
    ensures seen == Some(m) && seen in accepted
  {
    assert |PrintLabels(labels)| > 0 && x == Exit(Some(0), PrintLabels(labels), true);
    GuardSeesEveryContainer(labels, accepted, seen);
    assert labels[0] in labels;
  }

  /** In DEV mode the test database is left alone; in TEST mode the tools and the dev migration are. */
  lemma {:induction false} OtherModeStops(w: World, verb: Verb, t: Trace, i: nat, m: Mode)
    requires Happened(w, verb, t) && m in {DEV, TEST} && AlwaysIn(w, m) && i < |t| && t[i].Ran? && t[i].step.action.Compose?
    ensures m == DEV ==> verb !in {RunSystemTests, SeedDump} && (verb == Migrate ==> t[i].step.action.files == DevFiles)
    ensures m == TEST ==> verb != Tools && (verb == Migrate ==> t[i].step.action.files == TestFiles)
  {
    LawfulAt(verb, w.testMount, t, i);
    FromWorldAt(w, t, i);
    var before := t[..i];
    if verb in {RunSystemTests, SeedDump} { NeverInOther(w, before, m, MODES_TEST, Some(TEST)); }
    if verb == Migrate {
      NeverInOther(w, before, m, MODES_DEV_OR_TEST, Some(if t[i].step.action.files == DevFiles then DEV else TEST));
    }
    if verb == Tools {
      var seen :| Guarded(before, MODES_DEV_OR_EMPTY, seen);
      NeverInOther(w, before, m, MODES_DEV_OR_EMPTY, seen);
    }
  }

  /** What `migrate` runs by the files of its mode. */
  function MigrationImage(files: Files): string {
    if files == TestFiles then TEST_IMAGES[0] else DEV_IMAGES[0]
  }

  lemma MigrationNeedsImage(expected: string, t: Trace, files: Files, tail: seq<string>)
    requires MayCompose(Migrate, expected, t, files, tail)
    ensures RanOk(t, Look(ImageInspect(MigrationImage(files))))
  {
  }

  /** An image that is never there keeps `migrate` from the files of its mode. */
  lemma {:induction false} MissingImageStopsMigration(w: World, t: Trace, i: nat, files: Files)
    requires Happened(w, Migrate, t) && NeverThere(w, MigrationImage(files))
    requires i < |t| && t[i].Ran?
    ensures !(t[i].step.action.Compose? && t[i].step.action.files == files)
  {
    LawfulAt(Migrate, w.testMount, t, i);
    FromWorldAt(w, t, i);
    if t[i].step.action.Compose? && t[i].step.action.files == files {
      MigrationNeedsImage(w.testMount, t[..i], files, t[i].step.action.tail);
      NotThere(w, t[..i], MigrationImage(files));
    }
  }
}
