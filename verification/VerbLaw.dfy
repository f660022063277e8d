/**
 What every verb keeps, whatever its commands answer: the law says, of each command and each charge, what must already
 lie behind it in the call. A trace is lawful when each of its events was.
 */
module VerbLaw {
  import opened Options
  import opened ModeGuard
  import opened Commands

  datatype Verb = Down | Restart | Build | Up | Tools | TestBuild | TestUp | Migrate | RunSystemTests | SeedDump

  /** What a command did: it exited, the verb's timeout interrupted it, or it could not be run. */
  datatype Answer = Exited(exit: Exit) | Interrupted | Broken

  /** The checks a verb makes outside any command. */
  datatype Check =
    | Arguments | TrustedCopies | BindSources(mode: Mode) | EnvFiles | SteeringFiles | GeneratedCode | Revisions
    | Snapshot | SeedBundle

  datatype Event = Ran(step: Step, answer: Answer) | Passed(check: Check) | Charged

  type Trace = seq<Event>

  const MODES_ANY := {Some(DEV), Some(TEST), None}
  const MODES_DEV_OR_EMPTY := {Some(DEV), None}
  const MODES_DEV_OR_TEST := {Some(DEV), Some(TEST)}
  const MODES_TEST := {Some(TEST)}

  predicate ExitedZero(a: Answer) {
    a.Exited? && a.exit.status == Some(0)
  }

  ghost predicate RanOk(t: Trace, step: Step) {
    exists a :: ExitedZero(a) && Ran(step, a) in t
  }

  ghost predicate Confirmed(t: Trace, ref: string) {
    RanOk(t, Look(ImageInspect(ref))) || RanOk(t, Look(BasePull(ref)))
  }

  ghost predicate AllBases(t: Trace) {
    forall ref :: ref in BASE_IMAGES ==> Confirmed(t, ref)
  }

  ghost predicate NoFailedPull(t: Trace) {
    forall e :: e in t && e.Ran? && e.step.action.BasePull? ==> ExitedZero(e.answer)
  }

  /** The mode guard let the project through in mode m. */
  ghost predicate Guarded(t: Trace, accepted: set<Option<Mode>>, m: Option<Mode>) {
    exists x :: Ran(Look(GuardList), Exited(x)) in t && CheckModeGuard(x, accepted) == Accepted(m)
  }

  ghost predicate GuardedAny(t: Trace, accepted: set<Option<Mode>>) {
    exists m :: Guarded(t, accepted, m)
  }

  /** The digest of one service was printed and is d. */
  ghost predicate DigestIs(t: Trace, which: nat, d: string) {
    exists x :: Ran(Look(Digest(which)), Exited(x)) in t && ParseDigest(x) == Some(d)
  }

  ghost predicate DigestsRead(t: Trace) {
    (exists d :: DigestIs(t, 0, d)) && exists d :: DigestIs(t, 1, d)
  }

  /** The stamp of an image was read and equals the digest of its service. */
  ghost predicate ImageCurrent(t: Trace, which: nat)
    requires which < 2
  {
    exists x, d :: DigestIs(t, which, d) && Ran(Look(ImageStamp(TEST_IMAGES[which])), Exited(x)) in t && StampMatches(x, d)
  }

  /** No container of the service runs, or its one container carries the digest of its service. */
  ghost predicate ServiceCurrent(t: Trace, service: string, which: nat) {
    exists l :: Ran(Look(Lookup(service)), Exited(l)) in t && l.status == Some(0) &&
      (Ids(l) == [] || ContainerCurrent(t, l, which))
  }

  /** The one container of a lookup carries the digest. */
  ghost predicate ContainerCurrent(t: Trace, l: Exit, which: nat) {
    exists x, d :: |Ids(l)| == 1 && DigestIs(t, which, d) &&
      Ran(Look(ContainerStamp(Ids(l)[0])), Exited(x)) in t && StampMatches(x, d)
  }

  /** The one running container of a service. */
  ghost predicate OneRunning(t: Trace, service: string, id: string) {
    exists l :: Ran(Look(Lookup(service)), Exited(l)) in t && l.status == Some(0) && Ids(l) == [id]
  }

  ghost predicate PostgresUp(t: Trace) {
    exists id :: OneRunning(t, "postgres", id)
  }

  /** The one running postgres keeps its data in the expected directory. */
  ghost predicate PostgresOnMount(t: Trace, expected: string) {
    exists id, x :: OneRunning(t, "postgres", id) && Ran(Look(MountRead(id)), Exited(x)) in t && MountMatches(x, expected)
  }

  ghost predicate AllPassed(t: Trace, checks: set<Check>) {
    forall c :: c in checks ==> Passed(c) in t
  }

  ghost predicate ImagesPresent(t: Trace, images: seq<string>) {
    forall i :: i in images ==> RanOk(t, Look(ImageInspect(i)))
  }

  /** Everything `up` knows before it stops the project. */
  ghost predicate ReadyForUp(t: Trace) {
    && GuardedAny(t, MODES_ANY)
    && AllPassed(t, {TrustedCopies, BindSources(DEV), EnvFiles, SteeringFiles, GeneratedCode})
    && ImagesPresent(t, DEV_IMAGES) && DigestsRead(t) && AllBases(t)
  }

  /** What `test_up` finds out before it is charged. */
  ghost predicate AdmittedForTestUp(t: Trace) {
    && GuardedAny(t, MODES_ANY)
    && AllPassed(t, {TrustedCopies, BindSources(TEST), EnvFiles, SteeringFiles})
    && ImagesPresent(t, TEST_IMAGES) && ImageCurrent(t, 0) && ImageCurrent(t, 1)
  }

  /** Everything `test_up` knows before it stops the project. */
  ghost predicate ReadyForTestUp(t: Trace) {
    AdmittedForTestUp(t) && AllBases(t)
  }

  /** What `migrate` sees of the project, its checkout and the image of the mode. */
  ghost predicate SeenForMigrate(t: Trace, mode: Mode) {
    && Guarded(t, MODES_DEV_OR_TEST, Some(mode))
    && AllPassed(t, {TrustedCopies, BindSources(mode), EnvFiles, Revisions})
    && PostgresUp(t)
    && RanOk(t, Look(ImageInspect(if mode == TEST then TEST_IMAGES[0] else DEV_IMAGES[0])))
  }

  ghost predicate ReadyToMigrate(t: Trace, mode: Mode) {
    && SeenForMigrate(t, mode)
    && (mode == TEST ==> ImageCurrent(t, 0) && StackCurrent(t))
  }

  /** The test stack alone is up, its database on the expected directory. */
  ghost predicate TestStackSeen(t: Trace, expected: string) {
    && Guarded(t, MODES_TEST, Some(TEST))
    && AllPassed(t, {TrustedCopies, EnvFiles})
    && PostgresOnMount(t, expected)
    && (exists id :: OneRunning(t, "data_store", id))
  }

  ghost predicate StackCurrent(t: Trace) {
    ServiceCurrent(t, "data_store", 0) && ServiceCurrent(t, "data_ingest", 1)
  }

  /** The rails of the two verbs that write the test database; the expected mount is the test directory's. */
  ghost predicate OnTheTestRails(t: Trace, expected: string) {
    TestStackSeen(t, expected) && StackCurrent(t) && Passed(Snapshot) in t
  }

  /** The compose commands of a verb, each with what it needs. */
  ghost predicate MayCompose(verb: Verb, expected: string, t: Trace, files: Files, tail: seq<string>) {
    match verb
    case Down => files == LabelOnly && tail == DOWN_TAIL && GuardedAny(t, MODES_ANY) && AllPassed(t, {SteeringFiles})
    case Restart =>
      && files == LabelOnly && (exists s :: s in RESTART_SERVICES && tail == ["restart", s])
      && GuardedAny(t, MODES_ANY) && AllPassed(t, {BindSources(DEV), SteeringFiles})
    case Build =>
      files == DevFiles && tail == DEV_BUILD_TAIL && AllPassed(t, {TrustedCopies, GeneratedCode}) && DigestsRead(t)
    case Up =>
      && ReadyForUp(t)
      && ((files == LabelOnly && tail == DOWN_TAIL) ||
          (files == DevFiles && tail == DEV_UP_TAIL && RanOk(t, DownStep()) && RanOk(t, Look(NetworkInspect))))
    case Tools =>
      && files == ToolsFiles && tail == DEV_TOOLS_TAIL && GuardedAny(t, MODES_DEV_OR_EMPTY)
      && AllPassed(t, {TrustedCopies, BindSources(DEV), EnvFiles}) && RanOk(t, Look(NetworkInspect))
    case TestBuild =>
      files == TestBuildFiles && tail == TEST_BUILD_TAIL && AllPassed(t, {TrustedCopies, GeneratedCode}) && DigestsRead(t)
    case TestUp =>
      && ReadyForTestUp(t)
      && ((files == LabelOnly && tail == DOWN_TAIL) || (files == TestFiles && tail == TEST_UP_TAIL && RanOk(t, DownStep())))
    case Migrate =>
      && tail == MIGRATE_TAIL
      && ((files == DevFiles && ReadyToMigrate(t, DEV)) || (files == TestFiles && ReadyToMigrate(t, TEST)))
    case RunSystemTests => files == ClientFiles && OnTheTestRails(t, expected) && SYSTEM_TESTS_HEAD <= tail
    case SeedDump =>
      && files == ClientFiles && OnTheTestRails(t, expected)
      && (tail == CLIENT_BUILD_TAIL || (SEED_RUN <= tail && RanOk(t, FileStep(ClientFiles, CLIENT_BUILD_TAIL))))
  }

  /** What must lie behind a command. */
  ghost predicate MayAct(verb: Verb, expected: string, t: Trace, a: Action) {
    match a
    case GuardList => forall e :: e in t && e.Ran? ==> !e.step.action.GuardList?
    case BasePull(ref) =>
      && Charged in t && ref in BASE_IMAGES
      && exists b :: !ExitedZero(b) && Ran(Look(ImageInspect(ref)), b) in t
    case NetworkCreate =>
      && Charged in t
      && ((verb == Tools && GuardedAny(t, MODES_DEV_OR_EMPTY)) || (verb == Up && RanOk(t, DownStep())))
      && exists b :: !ExitedZero(b) && Ran(Look(NetworkInspect), b) in t
    case Compose(files, tail) => Charged in t && MayCompose(verb, expected, t, files, tail)
    case _ => true
  }

  /** What must lie behind an event: a call is charged once, and no command runs after a failed pull. */
  ghost predicate May(verb: Verb, expected: string, t: Trace, e: Event) {
    match e
    case Charged => Charged !in t && forall e' :: e' in t && e'.Ran? ==> Looks(e'.step.action)
    case Ran(step, _) => NoFailedPull(t) && (step.builds ==> AllBases(t)) && MayAct(verb, expected, t, step.action)
    case Passed(c) => c == SeedBundle ==> exists tail :: SEED_RUN <= tail && RanOk(t, FileStep(ClientFiles, tail))
  }

  ghost predicate Lawful(verb: Verb, expected: string, t: Trace) {
    |t| > 0 ==>
      && Lawful(verb, expected, t[..|t| - 1])
      && May(verb, expected, t[..|t| - 1], t[|t| - 1])
  }

  // ---- what is known stays known

  lemma FactsGrow(t: Trace, t': Trace)
    requires forall e :: e in t ==> e in t'
    ensures forall step :: RanOk(t, step) ==> RanOk(t', step)
    ensures forall a, m :: Guarded(t, a, m) ==> Guarded(t', a, m)
    ensures forall a :: GuardedAny(t, a) ==> GuardedAny(t', a)
    ensures forall w, d :: DigestIs(t, w, d) ==> DigestIs(t', w, d)
    ensures DigestsRead(t) ==> DigestsRead(t')
    ensures AllBases(t) ==> AllBases(t')
    ensures forall s, id :: OneRunning(t, s, id) ==> OneRunning(t', s, id)
  {
    forall a | GuardedAny(t, a) ensures GuardedAny(t', a) {
      var m :| Guarded(t, a, m);
      assert Guarded(t', a, m);
    }
    if DigestsRead(t) {
      var d0, d1 :| DigestIs(t, 0, d0) && DigestIs(t, 1, d1);
      assert DigestIs(t', 0, d0) && DigestIs(t', 1, d1);
    }
    if AllBases(t) {
      forall ref | ref in BASE_IMAGES ensures Confirmed(t', ref) {
        assert Confirmed(t, ref);
      }
    }
  }

  lemma CurrencyGrows(t: Trace, t': Trace)
    requires forall e :: e in t ==> e in t'
    ensures forall w: nat :: w < 2 && ImageCurrent(t, w) ==> ImageCurrent(t', w)
    ensures forall s, w :: ServiceCurrent(t, s, w) ==> ServiceCurrent(t', s, w)
  {
    forall w: nat | w < 2 && ImageCurrent(t, w) ensures ImageCurrent(t', w) {
      var x, d :| DigestIs(t, w, d) && Ran(Look(ImageStamp(TEST_IMAGES[w])), Exited(x)) in t && StampMatches(x, d);
      assert DigestIs(t', w, d);
    }
    forall s, w | ServiceCurrent(t, s, w) ensures ServiceCurrent(t', s, w) {
      var l :| Ran(Look(Lookup(s)), Exited(l)) in t && l.status == Some(0) && (Ids(l) == [] || ContainerCurrent(t, l, w));
      if Ids(l) != [] {
        var x, d :| |Ids(l)| == 1 && DigestIs(t, w, d) &&
          Ran(Look(ContainerStamp(Ids(l)[0])), Exited(x)) in t && StampMatches(x, d);
        assert DigestIs(t', w, d);
        assert ContainerCurrent(t', l, w);
      }
    }
  }

  lemma DigestGrows(t: Trace, t': Trace, which: nat, d: string)
    requires (forall e :: e in t ==> e in t') && DigestIs(t, which, d)
    ensures DigestIs(t', which, d)
  {
  }

  lemma ServiceGrows(t: Trace, t': Trace, service: string, which: nat)
    requires (forall e :: e in t ==> e in t') && ServiceCurrent(t, service, which)
    ensures ServiceCurrent(t', service, which)
  {
    CurrencyGrows(t, t');
  }

  lemma BasesGrow(t: Trace, t': Trace)
    requires (forall e :: e in t ==> e in t') && AllBases(t)
    ensures AllBases(t')
  {
    FactsGrow(t, t');
  }

  lemma TestUpGrows(t: Trace, t': Trace)
    requires (forall e :: e in t ==> e in t') && AdmittedForTestUp(t)
    ensures AdmittedForTestUp(t')
  {
    FactsGrow(t, t');
    CurrencyGrows(t, t');
  }

  lemma PostgresGrows(t: Trace, t': Trace, expected: string)
    requires forall e :: e in t ==> e in t'
    ensures PostgresUp(t) ==> PostgresUp(t')
    ensures PostgresOnMount(t, expected) ==> PostgresOnMount(t', expected)
  {
    if PostgresUp(t) {
      var id :| OneRunning(t, "postgres", id);
      assert OneRunning(t', "postgres", id);
    }
    if PostgresOnMount(t, expected) {
      var id, x :| OneRunning(t, "postgres", id) && Ran(Look(MountRead(id)), Exited(x)) in t && MountMatches(x, expected);
      assert OneRunning(t', "postgres", id);
    }
  }

  lemma SeenForMigrateGrows(t: Trace, t': Trace, mode: Mode)
    requires forall e :: e in t ==> e in t'
    ensures SeenForMigrate(t, mode) ==> SeenForMigrate(t', mode)
  {
    FactsGrow(t, t');
    PostgresGrows(t, t', "");
  }

  lemma MigrateGrows(t: Trace, t': Trace, mode: Mode)
    requires forall e :: e in t ==> e in t'
    ensures SeenForMigrate(t, mode) ==> SeenForMigrate(t', mode)
    ensures ReadyToMigrate(t, mode) ==> ReadyToMigrate(t', mode)
  {
    SeenForMigrateGrows(t, t', mode);
    CurrencyGrows(t, t');
  }

  lemma ReadyGrows(t: Trace, t': Trace, mode: Mode)
    requires (forall e :: e in t ==> e in t') && ReadyToMigrate(t, mode)
    ensures ReadyToMigrate(t', mode)
  {
    MigrateGrows(t, t', mode);
  }

  lemma TestStackGrows(t: Trace, t': Trace, expected: string)
    requires (forall e :: e in t ==> e in t') && TestStackSeen(t, expected)
    ensures TestStackSeen(t', expected)
  {
    FactsGrow(t, t');
    PostgresGrows(t, t', expected);
    var id :| OneRunning(t, "data_store", id);
    assert OneRunning(t', "data_store", id);
  }

  lemma RailsGrow(t: Trace, t': Trace, expected: string)
    requires (forall e :: e in t ==> e in t') && TestStackSeen(t, expected) && StackCurrent(t) && Passed(Snapshot) in t'
    ensures OnTheTestRails(t', expected)
  {
    TestStackGrows(t, t', expected);
    CurrencyGrows(t, t');
  }

  // ---- what follows from the law

  lemma {:induction false} LawfulAt(verb: Verb, expected: string, t: Trace, i: nat)
    requires Lawful(verb, expected, t) && i < |t|
    ensures Lawful(verb, expected, t[..i]) && May(verb, expected, t[..i], t[i])
  {
    if i < |t| - 1 {
      LawfulAt(verb, expected, t[..|t| - 1], i);
      assert t[..|t| - 1][..i] == t[..i];
    }
  }

  /** A step that can build runs only after every base was confirmed in the same call. */
  lemma {:induction false} BuildsAfterEveryBase(verb: Verb, expected: string, t: Trace, i: nat, ref: string)
    requires Lawful(verb, expected, t) && i < |t| && t[i].Ran? && t[i].step.builds && ref in BASE_IMAGES
    ensures Confirmed(t[..i], ref)
  {
    LawfulAt(verb, expected, t, i);
  }

  /** A pull that failed is the call's last command. */
  lemma {:induction false} FailedPullIsLast(verb: Verb, expected: string, t: Trace, i: nat, j: nat)
    requires Lawful(verb, expected, t) && i < j < |t|
    requires t[i].Ran? && t[i].step.action.BasePull? && !ExitedZero(t[i].answer)
    ensures !t[j].Ran?
  {
    LawfulAt(verb, expected, t, j);
    assert t[..j][i] in t[..j];
  }

  /** Every command that does more than look comes after the one charge of the call. */
  lemma {:induction false} ChargedOnceAndFirst(verb: Verb, expected: string, t: Trace, i: nat, j: nat)
    requires Lawful(verb, expected, t) && i < |t| && j < |t| && t[j] == Charged
    ensures t[i] == Charged ==> i == j
    ensures t[i].Ran? && !Looks(t[i].step.action) ==> j < i
  {
    LawfulAt(verb, expected, t, i);
    LawfulAt(verb, expected, t, j);
    if i < j { assert t[..j][i] in t[..j]; }
    if j < i { assert t[..i][j] in t[..i]; }
  }

  lemma {:induction false} NothingActsUncharged(verb: Verb, expected: string, t: Trace, i: nat)
    requires Lawful(verb, expected, t) && i < |t| && t[i].Ran? && !Looks(t[i].step.action)
    ensures Charged in t
  {
    LawfulAt(verb, expected, t, i);
    assert forall e :: e in t[..i] ==> e in t;
  }

  /** `up` and `test_up` start nothing before the project was stopped with a zero exit, all preconditions known by then. */
  lemma {:induction false} UpOnlyAfterDown(verb: Verb, expected: string, t: Trace, i: nat)
    requires verb in {Up, TestUp} && Lawful(verb, expected, t)
    requires i < |t| && t[i].Ran? && TouchesProject(t[i].step.action)
    ensures if verb == Up then ReadyForUp(t[..i]) else ReadyForTestUp(t[..i])
    ensures t[i].step.action != DownStep().action ==> RanOk(t[..i], DownStep())
  {
    LawfulAt(verb, expected, t, i);
  }

  lemma {:induction false} RanOkWasRun(t: Trace, i: nat, step: Step)
    requires i <= |t| && RanOk(t[..i], step)
    ensures exists j :: 0 <= j < i && t[j].Ran? && t[j].step == step && ExitedZero(t[j].answer)
  {
    var a :| ExitedZero(a) && Ran(step, a) in t[..i];
  }

  /** A call that issued no down left the project as it was, whatever its commands printed. */
  lemma {:induction false} NoDownNoTouch(verb: Verb, expected: string, t: Trace, i: nat)
    requires verb in {Up, TestUp} && Lawful(verb, expected, t)
    requires forall j :: 0 <= j < |t| && t[j].Ran? ==> t[j].step.action != DownStep().action
    requires i < |t| && t[i].Ran?
    ensures !TouchesProject(t[i].step.action)
  {
    if TouchesProject(t[i].step.action) {
      UpOnlyAfterDown(verb, expected, t, i);
      RanOkWasRun(t, i, DownStep());
    }
  }

  /** A project the guard refuses is not touched by any verb: not by its own commands and not by a network. */
  lemma {:induction false} RefusedGuardProtects(verb: Verb, expected: string, t: Trace, g: nat, x: Exit, i: nat)
    requires Lawful(verb, expected, t) && g < |t| && t[g] == Ran(Look(GuardList), Exited(x))
    requires CheckModeGuard(x, MODES_ANY) == Refused
    requires i < |t| && t[i].Ran?
    ensures !TouchesProject(t[i].step.action)
  {
    if TouchesProject(t[i].step.action) {
      LawfulAt(verb, expected, t, i);
      var m, x' :| Ran(Look(GuardList), Exited(x')) in t[..i] && CheckModeGuard(x', MODES_ANY) == Accepted(m) by {
        NarrowGuardIsGuard(t[..i], MODES_DEV_OR_EMPTY);
        NarrowGuardIsGuard(t[..i], MODES_DEV_OR_TEST);
        NarrowGuardIsGuard(t[..i], MODES_TEST);
        assert GuardedAny(t[..i], MODES_ANY);
      }
      var j :| 0 <= j < i && t[j] == Ran(Look(GuardList), Exited(x'));
      OneGuard(verb, expected, t, j, g);
    }
  }

  lemma {:induction false} NarrowGuardIsGuard(t: Trace, accepted: set<Option<Mode>>)
    requires accepted <= MODES_ANY
    ensures forall m :: Guarded(t, accepted, m) ==> Guarded(t, MODES_ANY, m)
  {
    forall m | Guarded(t, accepted, m) ensures Guarded(t, MODES_ANY, m) {
      var x :| Ran(Look(GuardList), Exited(x)) in t && CheckModeGuard(x, accepted) == Accepted(m);
      assert CheckModeGuard(x, MODES_ANY) == Accepted(m);
    }
  }

  lemma {:induction false} OneGuard(verb: Verb, expected: string, t: Trace, i: nat, j: nat)
    requires Lawful(verb, expected, t) && i < |t| && j < |t|
    requires t[i].Ran? && t[i].step.action.GuardList? && t[j].Ran? && t[j].step.action.GuardList?
    ensures i == j
  {
    LawfulAt(verb, expected, t, i);
    LawfulAt(verb, expected, t, j);
  }

  /** The two verbs that write the test database run nothing in it unless the guard saw TEST mode alone. */
  lemma {:induction false} TestDatabaseOnlyInTestMode(verb: Verb, expected: string, t: Trace, i: nat)
    requires verb in {RunSystemTests, SeedDump} && Lawful(verb, expected, t)
    requires i < |t| && t[i].Ran? && !Looks(t[i].step.action) && !t[i].step.action.BasePull?
    ensures Guarded(t[..i], MODES_TEST, Some(TEST)) && OnTheTestRails(t[..i], expected)
  {
    LawfulAt(verb, expected, t, i);
  }
}
