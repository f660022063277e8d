/** The state-changing verbs (tools/agent_mcp/runner.py), each an ordered program over the steps and checks of a call. */
module Verbs {
  import opened Options
  import opened ModeGuard
  import opened Commands
  import opened VerbLaw
  import opened Runner
  import Budget

  datatype Outcome = Replied(reply: Reply) | Halted(halt: Halt) | Busy(running: Verb)

  class AgentStack {
    var running: Option<Verb>
    const budget: Budget.DevBudget

    constructor ()
      ensures running == None && budget.calls == [] && budget.asked == [] && fresh(budget)
    {
      running := None;
      budget := new Budget.DevBudget();
    }

    // ---- shared parts

    /** Counts the call, or refuses it. */
    method Charge(call: Call) returns (r: Flow<()>)
      requires call.Sound() && OnlyLooked(call.trace)
      modifies call, budget
      ensures call.Sound() && forall e :: e in old(call.trace) ==> e in call.trace
      ensures call.basesPresent == old(call.basesPresent)
      ensures r.Go? ==> Charged in call.trace && call.trace == old(call.trace) + [Charged]
      ensures r.Stop? ==> r.halt == Refusal && call.trace == old(call.trace) && Charged !in call.trace
      ensures budget.asked == old(budget.asked) + [call.world.clock(old(call.trace))]
      ensures r.Go? ==> call.reading == call.world.clock(old(call.trace))
      ensures r.Go? ==> Happened(call.world, call.verb, call.trace)
      ensures Budget.Booked(old(budget.calls), old(budget.asked), budget.calls, budget.asked, r.Go?)
      ensures |old(budget.calls)| < Budget.LIMIT ==> r.Go?
    {
      var admitted := budget.Charge(call.world.clock(call.trace));
      r := ChargeIf(call, admitted);
    }

    /** Notes the charge in the call, or refuses it. */
    method ChargeIf(call: Call, admitted: bool) returns (r: Flow<()>)
      requires call.Sound() && OnlyLooked(call.trace)
      modifies call
      ensures call.Sound() && forall e :: e in old(call.trace) ==> e in call.trace
      ensures call.basesPresent == old(call.basesPresent) && r.Go? == admitted
      ensures r.Go? ==> Charged in call.trace && call.trace == old(call.trace) + [Charged]
      ensures r.Go? ==> call.reading == call.world.clock(old(call.trace))
      ensures r.Stop? ==> r.halt == Refusal && call.trace == old(call.trace) && Charged !in call.trace
    {
      OnlyLookedIsUncharged(call.trace);
      if !admitted { return Stop(Refusal); }
      call.NoteCharge();
      return Go(());
    }

    method ModeGuard(call: Call, accepted: set<Option<Mode>>) returns (r: Flow<Option<Mode>>)
      requires call.Sound() && NotGuardedYet(call.trace)
      modifies call
      ensures call.Advanced(r.Stop?)
      ensures OnlyLooked(old(call.trace)) ==> OnlyLooked(call.trace)
      ensures r.Go? ==> Guarded(call.trace, accepted, r.value)
      ensures Steady(call.world) && GuardLets(call.world, accepted) ==> r.Go?
      ensures r.Stop? ==> Why(call.world, call.trace, r.halt)
    {
      var x :- call.LookAt(GuardList);
      match CheckModeGuard(x, accepted)
      case Accepted(m) => return Go(m);
      case Refused => return Stop(Refusal);
    }

    method Checks(call: Call, checks: seq<Check>) returns (r: Flow<()>)
      requires call.Sound() && SeedBundle !in checks
      modifies call
      ensures call.Advanced(r.Stop?)
      ensures OnlyLooked(old(call.trace)) ==> OnlyLooked(call.trace)
      ensures NotGuardedYet(old(call.trace)) ==> NotGuardedYet(call.trace)
      ensures r.Go? ==> forall c :: c in checks ==> Passed(c) in call.trace
      ensures Steady(call.world) ==> r.Go?
      ensures r.Stop? ==> Why(call.world, call.trace, r.halt)
    {
      for n := 0 to |checks|
        invariant call.Advanced(false)
        invariant OnlyLooked(old(call.trace)) ==> OnlyLooked(call.trace)
        invariant NotGuardedYet(old(call.trace)) ==> NotGuardedYet(call.trace)
        invariant forall i :: 0 <= i < n ==> Passed(checks[i]) in call.trace
      {
        var _ :- call.Check(checks[n]);
      }
      return Go(());
    }

    /** Every image is on the daemon, or the verb is refused. */
    method ImagesMustExist(call: Call, images: seq<string>) returns (r: Flow<()>)
      requires call.Sound()
      modifies call
      ensures call.Advanced(r.Stop?)
      ensures OnlyLooked(old(call.trace)) ==> OnlyLooked(call.trace)
      ensures r.Go? ==> ImagesPresent(call.trace, images)
      ensures r.Stop? ==> Why(call.world, call.trace, r.halt)
      ensures Steady(call.world) ==> r.Go?
    {
      for n := 0 to |images|
        invariant call.Advanced(false)
        invariant OnlyLooked(old(call.trace)) ==> OnlyLooked(call.trace)
        invariant forall i :: 0 <= i < n ==> RanOk(call.trace, Look(ImageInspect(images[i])))
      {
        var x :- call.LookAt(ImageInspect(images[n]));
        if x.status != Some(0) { return Stop(Refusal); }
        assert ExitedZero(Exited(x));
      }
      return Go(());
    }

    /** The two source digests, or none when one could not be computed. */
    method SourceDigests(call: Call) returns (r: Flow<Option<seq<string>>>)
      requires call.Sound()
      modifies call
      ensures call.Advanced(r.Stop?)
      ensures OnlyLooked(old(call.trace)) ==> OnlyLooked(call.trace)
      ensures r.Go? && r.value.Some? ==>
                |r.value.value| == 2 && DigestIs(call.trace, 0, r.value.value[0]) && DigestIs(call.trace, 1, r.value.value[1])
      ensures r.Stop? ==> r.halt != Refusal
      ensures DigestsAnswer(call.world) ==> r == Go(Some([DigestOf(call.world, 0), DigestOf(call.world, 1)]))
      ensures r.Stop? ==> Why(call.world, call.trace, r.halt)
      ensures r == Go(None) ==> FailedBy(call.world, call.trace)
    {
      var first :- call.LookAt(Digest(0));
      if ParseDigest(first).None? { return Go(None); }
      assert DigestIs(call.trace, 0, ParseDigest(first).value);
      var second :- call.LookAt(Digest(1));
      if ParseDigest(second).None? { return Go(None); }
      return Go(Some([ParseDigest(first).value, ParseDigest(second).value]));
    }

    /** The id of the one running container of a service. */
    method ExecTarget(call: Call, service: string) returns (r: Flow<string>)
      requires call.Sound()
      modifies call
      ensures call.Advanced(r.Stop?)
      ensures OnlyLooked(old(call.trace)) ==> OnlyLooked(call.trace)
      ensures r.Go? ==> OneRunning(call.trace, service, r.value)
      ensures TestStackAnswers(call.world) ==> r.Go?
      ensures r.Stop? ==> Why(call.world, call.trace, r.halt)
    {
      var l :- call.LookAt(Lookup(service));
      if l.status != Some(0) || |Ids(l)| != 1 || !IsContainerId(Ids(l)[0]) { return Stop(Refusal); }
      assert Ids(l) == [Ids(l)[0]];
      return Go(Ids(l)[0]);
    }

    // ---- the verbs

    method DownVerb(call: Call) returns (r: Flow<Reply>)
      requires call.verb == Down && call.trace == [] && call.Sound()
      modifies call, budget
      ensures BookedIn(call.world, call.trace, call.reading, old(budget.calls), old(budget.asked), budget.calls, budget.asked)
      ensures call.Told()
      ensures r == Go(Ok) ==> RanOk(call.trace, DownStep())
      ensures r != Go(Declined)
      ensures r == Stop(Refusal) ==> Charged !in call.trace
      ensures Explained(call.world, call.trace, r) || (r == Stop(Refusal) && budget.asked != old(budget.asked))
    {
      var m :- ModeGuard(call, MODES_ANY);
      var _ :- call.Check(SteeringFiles);
      var _ :- Charge(call);
      assert Guarded(call.trace, MODES_ANY, m);
      var ok :- call.StepsUntilFailure(DownStep());
      return Go(if ok then Ok else Failed);
    }

    method RestartVerb(call: Call, service: string) returns (r: Flow<Reply>)
      requires call.verb == Restart && call.trace == [] && call.Sound()
      modifies call, budget
      ensures BookedIn(call.world, call.trace, call.reading, old(budget.calls), old(budget.asked), budget.calls, budget.asked)
      ensures call.Told()
      ensures r == Go(Ok) ==> RanOk(call.trace, RestartStep(service))
      ensures r != Go(Declined)
      ensures r == Stop(Refusal) ==> Charged !in call.trace
      ensures service !in RESTART_SERVICES ==> r == Stop(Refusal) && call.trace == []
      ensures || Explained(call.world, call.trace, r) || (r == Stop(Refusal) && budget.asked != old(budget.asked))
              || service !in RESTART_SERVICES
    {
      if service !in RESTART_SERVICES { return Stop(Refusal); }
      var m :- ModeGuard(call, MODES_ANY);
      var _ :- Checks(call, [BindSources(DEV), SteeringFiles]);
      var _ :- Charge(call);
      assert Guarded(call.trace, MODES_ANY, m);
      assert AllPassed(call.trace, {BindSources(DEV), SteeringFiles});
      r := RestartService(call, service);
    }

    method RestartService(call: Call, service: string) returns (r: Flow<Reply>)
      requires call.verb == Restart && call.Sound() && Charged in call.trace && service in RESTART_SERVICES
      requires GuardedAny(call.trace, MODES_ANY) && AllPassed(call.trace, {BindSources(DEV), SteeringFiles})
      modifies call
      ensures call.Told() && Charged in call.trace
      ensures r == Go(Ok) ==> RanOk(call.trace, RestartStep(service))
      ensures r != Go(Declined) && r != Stop(Refusal)
      ensures Explained(call.world, call.trace, r)
      ensures call.reading == old(call.reading)
    {
      var ok :- call.StepsUntilFailure(RestartStep(service));
      return Go(if ok then Ok else Failed);
    }

    method BuildVerb(call: Call) returns (r: Flow<Reply>)
      requires call.verb in {Build, TestBuild} && call.trace == [] && call.Sound()
      modifies call, budget
      ensures BookedIn(call.world, call.trace, call.reading, old(budget.calls), old(budget.asked), budget.calls, budget.asked)
      ensures call.Told()
      ensures r == Go(Ok) ==> RanOk(call.trace, if call.verb == Build then FileStep(DevFiles, DEV_BUILD_TAIL)
                                                else FileStep(TestBuildFiles, TEST_BUILD_TAIL))
      ensures r != Go(Declined)
      ensures r == Stop(Refusal) ==> Charged !in call.trace
      ensures Explained(call.world, call.trace, r) || (r == Stop(Refusal) && budget.asked != old(budget.asked))
    {
      var _ :- Checks(call, [TrustedCopies, GeneratedCode]);
      var _ :- Charge(call);
      assert AllPassed(call.trace, {TrustedCopies, GeneratedCode});
      var digests :- SourceDigests(call);
      if digests.None? { return Go(Failed); }
      assert DigestIs(call.trace, 0, digests.value[0]) && DigestIs(call.trace, 1, digests.value[1]);
      r := BuildImages(call);
    }

    /** The one build of the two verbs, over digests that were read. */
    method BuildImages(call: Call) returns (r: Flow<Reply>)
      requires call.verb in {Build, TestBuild} && call.Sound() && Charged in call.trace
      requires AllPassed(call.trace, {TrustedCopies, GeneratedCode}) && DigestsRead(call.trace)
      modifies call
      ensures call.Told() && Charged in call.trace
      ensures r == Go(Ok) ==> RanOk(call.trace, if call.verb == Build then FileStep(DevFiles, DEV_BUILD_TAIL)
                                                else FileStep(TestBuildFiles, TEST_BUILD_TAIL))
      ensures r != Go(Declined) && r != Stop(Refusal)
      ensures Explained(call.world, call.trace, r)
      ensures call.reading == old(call.reading)
    {
      var step := if call.verb == Build then FileStep(DevFiles, DEV_BUILD_TAIL) else FileStep(TestBuildFiles, TEST_BUILD_TAIL);
      var ok :- call.StepsUntilFailure(step);
      return Go(if ok then Ok else Failed);
    }

    /** Looks for the network, else creates it and looks again. */
    method NetworkReady(call: Call) returns (r: Flow<bool>)
      requires call.Sound() && Charged in call.trace
      requires if call.verb == Tools then GuardedAny(call.trace, MODES_DEV_OR_EMPTY)
               else call.verb == Up && RanOk(call.trace, DownStep())
      modifies call
      ensures call.Advanced(r.Stop?)
      ensures r == Go(true) ==> RanOk(call.trace, Look(NetworkInspect))
      ensures r.Stop? ==> r.halt != Refusal
      ensures r.Stop? ==> Why(call.world, call.trace, r.halt)
      ensures r == Go(false) ==> FailedBy(call.world, call.trace)
      ensures Steady(call.world) && Says(call.world, Look(NetworkInspect)).status == Some(0) ==> r == Go(true)
    {
      var seen :- call.LookAt(NetworkInspect);
      if seen.status == Some(0) {
        assert ExitedZero(Exited(seen));
        return Go(true);
      }
      assert !ExitedZero(Exited(seen));
      FactsGrow(old(call.trace), call.trace);
      r := MakeNetwork(call);
    }

    /** A network that is not there is made, and looked at again. */
    method MakeNetwork(call: Call) returns (r: Flow<bool>)
      requires call.Sound() && MayAct(call.verb, call.world.testMount, call.trace, NetworkCreate)
      modifies call
      ensures call.Advanced(r.Stop?)
      ensures r == Go(true) ==> RanOk(call.trace, Look(NetworkInspect))
      ensures r.Stop? ==> r.halt != Refusal
      ensures r.Stop? ==> Why(call.world, call.trace, r.halt)
      ensures r == Go(false) ==> FailedBy(call.world, call.trace)
    {
      var _ :- call.Do(Look(NetworkCreate));
      var seen :- call.LookAt(NetworkInspect);
      assert seen.status == Some(0) ==> ExitedZero(Exited(seen));
      return Go(seen.status == Some(0));
    }

    method UpAdmit(call: Call) returns (r: Flow<Option<Mode>>)
      requires call.verb == Up && call.trace == [] && call.Sound()
      modifies call
      ensures call.Advanced(r.Stop?) && OnlyLooked(call.trace)
      ensures r.Go? ==>
        && Guarded(call.trace, MODES_ANY, r.value)
        && AllPassed(call.trace, {TrustedCopies, BindSources(DEV), EnvFiles, SteeringFiles, GeneratedCode})
        && ImagesPresent(call.trace, DEV_IMAGES)
      ensures r.Stop? ==> Why(call.world, call.trace, r.halt)
      ensures Steady(call.world) && GuardLets(call.world, MODES_ANY) ==> r.Go?
    {
      var m :- ModeGuard(call, MODES_ANY);
      var _ :- Checks(call, [TrustedCopies, BindSources(DEV), EnvFiles, SteeringFiles, GeneratedCode]);
      assert Guarded(call.trace, MODES_ANY, m);
      var _ :- ImagesMustExist(call, DEV_IMAGES);
      return Go(m);
    }

    method UpVerb(call: Call) returns (r: Flow<Reply>)
      requires call.verb == Up && call.trace == [] && call.Sound()
      modifies call, budget
      ensures BookedIn(call.world, call.trace, call.reading, old(budget.calls), old(budget.asked), budget.calls, budget.asked)
      ensures call.Told()
      ensures r == Go(Ok) ==> RanOk(call.trace, FileStep(DevFiles, DEV_UP_TAIL))
      ensures r != Go(Declined)
      ensures r == Stop(Refusal) ==> Charged !in call.trace
      ensures Explained(call.world, call.trace, r) || (r == Stop(Refusal) && budget.asked != old(budget.asked))
      ensures DevStackAnswers(call.world) && |old(budget.calls)| < Budget.LIMIT ==> r == Go(Ok)
    {
      var m :- UpAdmit(call);
      ghost var admitted := call.trace;
      var _ :- Charge(call);
      FactsGrow(admitted, call.trace);
      r := ReplaceDev(call);
    }

    /** What `up` does once it is charged: the digests, the bases, the down, the network and the up. */
    method ReplaceDev(call: Call) returns (r: Flow<Reply>)
      requires call.verb == Up && call.Sound() && Charged in call.trace && AdmittedForUp(call.trace)
      modifies call
      ensures call.Told() && Charged in call.trace && call.reading == old(call.reading)
      ensures r == Go(Ok) ==> RanOk(call.trace, FileStep(DevFiles, DEV_UP_TAIL))
      ensures r != Go(Declined) && r != Stop(Refusal)
      ensures Explained(call.world, call.trace, r)
      ensures DevStackAnswers(call.world) ==> r == Go(Ok)
    {
      ghost var admitted := call.trace;
      var digests :- SourceDigests(call);
      if digests.None? { return Go(Failed); }
      ghost var read := call.trace;
      var _ :- call.EnsureBases();
      FactsGrow(admitted, call.trace);
      FactsGrow(read, call.trace);
      assert ReadyForUp(call.trace);
      r := SwapDev(call);
    }

    method SwapDev(call: Call) returns (r: Flow<Reply>)
      requires call.verb == Up && call.Sound() && Charged in call.trace && ReadyForUp(call.trace)
      modifies call
      ensures call.Told() && Charged in call.trace && call.reading == old(call.reading)
      ensures r == Go(Ok) ==> RanOk(call.trace, FileStep(DevFiles, DEV_UP_TAIL))
      ensures r != Go(Declined) && r != Stop(Refusal)
      ensures Explained(call.world, call.trace, r)
      ensures DevStackAnswers(call.world) ==> r == Go(Ok)
    {
      ghost var ready := call.trace;
      var down :- call.StepsUntilFailure(DownStep());
      if !down { return Go(Failed); }
      var network :- NetworkReady(call);
      if !network { return Go(Failed); }
      UpReadinessGrows(ready, call.trace);
      assert RanOk(call.trace, DownStep());
      var up :- call.StepsUntilFailure(FileStep(DevFiles, DEV_UP_TAIL));
      return Go(if up then Ok else Failed);
    }

    method ToolsVerb(call: Call) returns (r: Flow<Reply>)
      requires call.verb == Tools && call.trace == [] && call.Sound()
      modifies call, budget
      ensures BookedIn(call.world, call.trace, call.reading, old(budget.calls), old(budget.asked), budget.calls, budget.asked)
      ensures call.Told()
      ensures r == Go(Ok) ==> RanOk(call.trace, ToolsStep())
      ensures r != Go(Declined)
      ensures r == Stop(Refusal) ==> Charged !in call.trace
      ensures Explained(call.world, call.trace, r) || (r == Stop(Refusal) && budget.asked != old(budget.asked))
    {
      var m :- ModeGuard(call, MODES_DEV_OR_EMPTY);
      var _ :- Checks(call, [TrustedCopies, BindSources(DEV), EnvFiles]);
      var _ :- Charge(call);
      assert Guarded(call.trace, MODES_DEV_OR_EMPTY, m);
      r := StartTools(call);
    }

    method StartTools(call: Call) returns (r: Flow<Reply>)
      requires call.verb == Tools && call.Sound() && Charged in call.trace && GuardedAny(call.trace, MODES_DEV_OR_EMPTY)
      requires AllPassed(call.trace, {TrustedCopies, BindSources(DEV), EnvFiles})
      modifies call
      ensures call.Told() && Charged in call.trace && call.reading == old(call.reading)
      ensures r == Go(Ok) ==> RanOk(call.trace, ToolsStep())
      ensures r != Go(Declined) && r != Stop(Refusal)
      ensures Explained(call.world, call.trace, r)
    {
      ghost var before := call.trace;
      var network :- NetworkReady(call);
      if !network { return Go(Failed); }
      FactsGrow(before, call.trace);
      var ok :- call.StepsUntilFailure(ToolsStep());
      return Go(if ok then Ok else Failed);
    }

    /** Both test images exist and carry the digests of the checkout. */
    method TestImagesCurrent(call: Call, digests: seq<string>) returns (r: Flow<()>)
      requires call.Sound() && |digests| == 2
      requires DigestIs(call.trace, 0, digests[0]) && DigestIs(call.trace, 1, digests[1])
      modifies call
      ensures call.Advanced(r.Stop?)
      ensures OnlyLooked(old(call.trace)) ==> OnlyLooked(call.trace)
      ensures r.Go? ==> ImageCurrent(call.trace, 0) && ImageCurrent(call.trace, 1)
      ensures r.Stop? ==> Why(call.world, call.trace, r.halt)
      ensures Steady(call.world) && TestStampsMatch(call.world, digests) ==> r.Go?
    {
      var _ :- ImageMustBeCurrent(call, 0, digests[0]);
      ghost var first := call.trace;
      FactsGrow(old(call.trace), call.trace);
      var _ :- ImageMustBeCurrent(call, 1, digests[1]);
      CurrencyGrows(first, call.trace);
      return Go(());
    }

    method ImageMustBeCurrent(call: Call, which: nat, digest: string) returns (r: Flow<()>)
      requires call.Sound() && which < 2 && DigestIs(call.trace, which, digest)
      modifies call
      ensures call.Advanced(r.Stop?)
      ensures OnlyLooked(old(call.trace)) ==> OnlyLooked(call.trace)
      ensures r.Go? ==> ImageCurrent(call.trace, which)
      ensures r.Stop? ==> Why(call.world, call.trace, r.halt)
      ensures Steady(call.world) && StampMatches(Says(call.world, Look(ImageStamp(TEST_IMAGES[which]))), digest) ==> r.Go?
    {
      var x :- call.LookAt(ImageStamp(TEST_IMAGES[which]));
      if !StampMatches(x, digest) { return Stop(Refusal); }
      FactsGrow(old(call.trace), call.trace);
      assert DigestIs(call.trace, which, digest);
      return Go(());
    }

    /** The preconditions of test_up; Go(false) when a digest could not be computed. */
    method TestUpAdmit(call: Call) returns (r: Flow<bool>)
      requires call.verb == TestUp && call.trace == [] && call.Sound()
      modifies call
      ensures call.Advanced(r.Stop?) && OnlyLooked(call.trace)
      ensures r == Go(true) ==> AdmittedForTestUp(call.trace)
      ensures r.Stop? ==> Why(call.world, call.trace, r.halt)
      ensures r == Go(false) ==> FailedBy(call.world, call.trace)
      ensures TestImagesAnswer(call.world) ==> r == Go(true)
    {
      var _ :- TestUpChecks(call);
      ghost var seen := call.trace;
      var digests :- SourceDigests(call);
      if digests.None? { return Go(false); }
      var _ :- TestImagesCurrent(call, digests.value);
      FactsGrow(seen, call.trace);
      return Go(true);
    }

    method TestUpChecks(call: Call) returns (r: Flow<()>)
      requires call.verb == TestUp && call.trace == [] && call.Sound()
      modifies call
      ensures call.Advanced(r.Stop?) && OnlyLooked(call.trace)
      ensures r.Go? ==> GuardedAny(call.trace, MODES_ANY)
      ensures r.Go? ==> AllPassed(call.trace, {TrustedCopies, BindSources(TEST), EnvFiles, SteeringFiles})
      ensures r.Go? ==> ImagesPresent(call.trace, TEST_IMAGES)
      ensures r.Stop? ==> Why(call.world, call.trace, r.halt)
      ensures Steady(call.world) && GuardLets(call.world, MODES_ANY) ==> r.Go?
    {
      var m :- ModeGuard(call, MODES_ANY);
      var _ :- Checks(call, [TrustedCopies, BindSources(TEST), EnvFiles, SteeringFiles]);
      assert Guarded(call.trace, MODES_ANY, m);
      var _ :- ImagesMustExist(call, TEST_IMAGES);
      assert Guarded(call.trace, MODES_ANY, m);
      return Go(());
    }

    method TestUpVerb(call: Call) returns (r: Flow<Reply>)
      requires call.verb == TestUp && call.trace == [] && call.Sound()
      modifies call, budget
      ensures BookedIn(call.world, call.trace, call.reading, old(budget.calls), old(budget.asked), budget.calls, budget.asked)
      ensures call.Told()
      ensures r == Go(Ok) ==> RanOk(call.trace, FileStep(TestFiles, TEST_UP_TAIL))
      ensures r != Go(Declined)
      ensures r == Stop(Refusal) ==> Charged !in call.trace
      ensures Explained(call.world, call.trace, r) || (r == Stop(Refusal) && budget.asked != old(budget.asked))
      ensures TestImagesAnswer(call.world) && |old(budget.calls)| < Budget.LIMIT ==> r == Go(Ok)
    {
      var ready :- TestUpAdmit(call);
      if !ready { return Go(Failed); }
      ghost var admitted := call.trace;
      var _ :- Charge(call);
      TestUpGrows(admitted, call.trace);
      r := ReplaceTest(call);
    }

    /** What `test_up` does once it is charged: the bases, the down and the up. */
    method ReplaceTest(call: Call) returns (r: Flow<Reply>)
      requires call.verb == TestUp && call.Sound() && Charged in call.trace && AdmittedForTestUp(call.trace)
      modifies call
      ensures call.Told() && Charged in call.trace && call.reading == old(call.reading)
      ensures r == Go(Ok) ==> RanOk(call.trace, FileStep(TestFiles, TEST_UP_TAIL))
      ensures r != Go(Declined) && r != Stop(Refusal)
      ensures Explained(call.world, call.trace, r)
      ensures TestImagesAnswer(call.world) ==> r == Go(Ok)
    {
      ghost var admitted := call.trace;
      var _ :- call.EnsureBases();
      TestUpGrows(admitted, call.trace);
      ghost var ensured := call.trace;
      var down :- call.StepsUntilFailure(DownStep());
      if !down { return Go(Failed); }
      TestUpGrows(ensured, call.trace);
      BasesGrow(ensured, call.trace);
      var up :- call.StepsUntilFailure(FileStep(TestFiles, TEST_UP_TAIL));
      return Go(if up then Ok else Failed);
    }

    /** Every running data_store and data_ingest container carries the digest of its service. */
    method RunningStampsCurrent(call: Call, store: Exit, digests: seq<string>) returns (r: Flow<()>)
      requires call.Sound() && |digests| == 2
      requires DigestIs(call.trace, 0, digests[0]) && DigestIs(call.trace, 1, digests[1])
      requires Ran(Look(Lookup("data_store")), Exited(store)) in call.trace && store.status == Some(0)
      modifies call
      ensures call.Advanced(r.Stop?)
      ensures OnlyLooked(old(call.trace)) ==> OnlyLooked(call.trace)
      ensures r.Go? ==> StackCurrent(call.trace)
      ensures TestStackAnswers(call.world) && store == Says(call.world, Look(Lookup("data_store"))) && StampsAgree(call.world, digests) ==> r.Go?
      ensures r.Stop? ==> Why(call.world, call.trace, r.halt)
    {
      ghost var before := call.trace;
      var ingest :- call.LookAt(Lookup("data_ingest"));
      if ingest.status != Some(0) || !OneAtMost(store) || !OneAtMost(ingest) { return Stop(Refusal); }
      DigestGrows(before, call.trace, 0, digests[0]);
      DigestGrows(before, call.trace, 1, digests[1]);
      r := BothCurrent(call, store, ingest, digests);
    }

    /** The stamp of each of the two services that runs. */
    method BothCurrent(call: Call, store: Exit, ingest: Exit, digests: seq<string>) returns (r: Flow<()>)
      requires call.Sound() && |digests| == 2
      requires DigestIs(call.trace, 0, digests[0]) && DigestIs(call.trace, 1, digests[1])
      requires Ran(Look(Lookup("data_store")), Exited(store)) in call.trace && store.status == Some(0) && OneAtMost(store)
      requires Ran(Look(Lookup("data_ingest")), Exited(ingest)) in call.trace && ingest.status == Some(0) && OneAtMost(ingest)
      modifies call
      ensures call.Advanced(r.Stop?)
      ensures OnlyLooked(old(call.trace)) ==> OnlyLooked(call.trace)
      ensures r.Go? ==> StackCurrent(call.trace)
      ensures TestStackAnswers(call.world) && StampsAgree(call.world, digests) ==> r.Go?
      ensures r.Stop? ==> Why(call.world, call.trace, r.halt)
    {
      ghost var before := call.trace;
      var _ :- ServiceMustBeCurrent(call, "data_store", 0, store, digests[0]);
      ghost var first := call.trace;
      DigestGrows(before, first, 1, digests[1]);
      var _ :- ServiceMustBeCurrent(call, "data_ingest", 1, ingest, digests[1]);
      ServiceGrows(first, call.trace, "data_store", 0);
      return Go(());
    }

    method ServiceMustBeCurrent(call: Call, service: string, which: nat, l: Exit, digest: string) returns (r: Flow<()>)
      requires call.Sound() && DigestIs(call.trace, which, digest)
      requires Ran(Look(Lookup(service)), Exited(l)) in call.trace && l.status == Some(0) && OneAtMost(l)
      modifies call
      ensures call.Advanced(r.Stop?)
      ensures OnlyLooked(old(call.trace)) ==> OnlyLooked(call.trace)
      ensures r.Go? ==> ServiceCurrent(call.trace, service, which)
      ensures TestStackAnswers(call.world) && StampIs(call.world, digest) ==> r.Go?
      ensures r.Stop? ==> Why(call.world, call.trace, r.halt)
    {
      if Ids(l) == [] { return Go(()); }
      var x :- call.LookAt(ContainerStamp(Ids(l)[0]));
      if !StampMatches(x, digest) { return Stop(Refusal); }
      FactsGrow(old(call.trace), call.trace);
      assert DigestIs(call.trace, which, digest);
      return Go(());
    }

    /** One postgres runs, and at most one data_store. */
    method MigrateContainers(call: Call) returns (r: Flow<Exit>)
      requires call.Sound() && OnlyLooked(call.trace)
      modifies call
      ensures call.Advanced(r.Stop?) && OnlyLooked(call.trace)
      ensures r.Go? ==> PostgresUp(call.trace) && r.value.status == Some(0)
      ensures r.Go? ==> Ran(Look(Lookup("data_store")), Exited(r.value)) in call.trace
      ensures r.Stop? ==> Why(call.world, call.trace, r.halt)
    {
      var id :- ExecTarget(call, "postgres");
      var store :- call.LookAt(Lookup("data_store"));
      if store.status != Some(0) || |Ids(store)| > 1 { return Stop(Refusal); }
      assert OneRunning(call.trace, "postgres", id);
      return Go(store);
    }

    method MigrateLooks(call: Call, mode: Mode) returns (r: Flow<Exit>)
      requires call.verb == Migrate && mode in {DEV, TEST} && call.Sound() && OnlyLooked(call.trace)
      requires Guarded(call.trace, MODES_DEV_OR_TEST, Some(mode))
      modifies call
      ensures call.Advanced(r.Stop?) && OnlyLooked(call.trace)
      ensures r.Go? ==> SeenForMigrate(call.trace, mode) && r.value.status == Some(0)
      ensures r.Go? ==> Ran(Look(Lookup("data_store")), Exited(r.value)) in call.trace
      ensures r.Stop? ==> Why(call.world, call.trace, r.halt)
    {
      var _ :- Checks(call, [TrustedCopies, BindSources(mode), EnvFiles, Revisions]);
      assert AllPassed(call.trace, {TrustedCopies, BindSources(mode), EnvFiles, Revisions});
      r := MigrateSees(call, mode);
    }

    method MigrateSees(call: Call, mode: Mode) returns (r: Flow<Exit>)
      requires mode in {DEV, TEST} && call.Sound() && OnlyLooked(call.trace)
      requires Guarded(call.trace, MODES_DEV_OR_TEST, Some(mode))
      requires AllPassed(call.trace, {TrustedCopies, BindSources(mode), EnvFiles, Revisions})
      modifies call
      ensures call.Advanced(r.Stop?) && OnlyLooked(call.trace)
      ensures r.Go? ==> SeenForMigrate(call.trace, mode) && r.value.status == Some(0)
      ensures r.Go? ==> Ran(Look(Lookup("data_store")), Exited(r.value)) in call.trace
      ensures r.Stop? ==> Why(call.world, call.trace, r.halt)
    {
      var store :- MigrateContainers(call);
      var _ :- MigrateImage(call, mode);
      return Go(store);
    }

    /** The one image that runs the migration of a mode. */
    method MigrateImage(call: Call, mode: Mode) returns (r: Flow<()>)
      requires call.Sound() && OnlyLooked(call.trace) && PostgresUp(call.trace)
      modifies call
      ensures call.Advanced(r.Stop?) && OnlyLooked(call.trace)
      ensures r.Go? ==> RanOk(call.trace, Look(ImageInspect(if mode == TEST then TEST_IMAGES[0] else DEV_IMAGES[0])))
      ensures PostgresUp(call.trace)
      ensures r.Stop? ==> Why(call.world, call.trace, r.halt)
    {
      var image := if mode == TEST then TEST_IMAGES[0] else DEV_IMAGES[0];
      ghost var seen := call.trace;
      r := ImagesMustExist(call, [image]);
      PostgresGrows(seen, call.trace, "");
      assert image in [image];
    }

    /** The test image that runs the migration, and every running container of the stack, carry the checkout's digests. */
    method MigrateTestCurrent(call: Call, store: Exit) returns (r: Flow<bool>)
      requires call.Sound() && OnlyLooked(call.trace) && store.status == Some(0)
      requires Ran(Look(Lookup("data_store")), Exited(store)) in call.trace
      modifies call
      ensures call.Advanced(r.Stop?) && OnlyLooked(call.trace)
      ensures r == Go(true) ==> ImageCurrent(call.trace, 0) && StackCurrent(call.trace)
      ensures r.Stop? ==> Why(call.world, call.trace, r.halt)
      ensures r == Go(false) ==> FailedBy(call.world, call.trace)
    {
      var digests :- SourceDigests(call);
      if digests.None? { return Go(false); }
      r := MigrateStamps(call, store, digests.value);
    }

    method MigrateStamps(call: Call, store: Exit, digests: seq<string>) returns (r: Flow<bool>)
      requires call.Sound() && OnlyLooked(call.trace) && store.status == Some(0) && |digests| == 2
      requires Ran(Look(Lookup("data_store")), Exited(store)) in call.trace
      requires DigestIs(call.trace, 0, digests[0]) && DigestIs(call.trace, 1, digests[1])
      modifies call
      ensures call.Advanced(r.Stop?) && OnlyLooked(call.trace)
      ensures r.Stop? ==> Why(call.world, call.trace, r.halt)
      ensures r.Go? ==> r.value && ImageCurrent(call.trace, 0) && StackCurrent(call.trace)
    {
      ghost var read := call.trace;
      var _ :- ImageMustBeCurrent(call, 0, digests[0]);
      ghost var stamped := call.trace;
      DigestGrows(read, stamped, 0, digests[0]);
      DigestGrows(read, stamped, 1, digests[1]);
      var _ :- RunningStampsCurrent(call, store, digests);
      CurrencyGrows(stamped, call.trace);
      return Go(true);
    }

    /** The preconditions of migrate after the mode guard; Go(false) when a digest could not be computed. */
    method MigrateAdmit(call: Call, mode: Mode) returns (r: Flow<bool>)
      requires call.verb == Migrate && mode in {DEV, TEST} && call.Sound() && OnlyLooked(call.trace)
      requires Guarded(call.trace, MODES_DEV_OR_TEST, Some(mode))
      modifies call
      ensures call.Advanced(r.Stop?) && OnlyLooked(call.trace)
      ensures r == Go(true) ==> ReadyToMigrate(call.trace, mode)
      ensures r.Stop? ==> Why(call.world, call.trace, r.halt)
      ensures r == Go(false) ==> FailedBy(call.world, call.trace)
    {
      var store :- MigrateLooks(call, mode);
      if mode == DEV { return Go(true); }
      ghost var seen := call.trace;
      r := MigrateTestCurrent(call, store);
      MigrateGrows(seen, call.trace, mode);
    }

    method MigrateVerb(call: Call) returns (r: Flow<Reply>)
      requires call.verb == Migrate && call.trace == [] && call.Sound()
      modifies call, budget
      ensures BookedIn(call.world, call.trace, call.reading, old(budget.calls), old(budget.asked), budget.calls, budget.asked)
      ensures call.Told()
      ensures r == Go(Ok) ==>
        RanOk(call.trace, FileStep(DevFiles, MIGRATE_TAIL)) || RanOk(call.trace, FileStep(TestFiles, MIGRATE_TAIL))
      ensures r != Go(Declined)
      ensures r == Stop(Refusal) ==> Charged !in call.trace
      ensures Explained(call.world, call.trace, r) || (r == Stop(Refusal) && budget.asked != old(budget.asked))
    {
      var mode :- MigrateMode(call);
      var ready :- MigrateAdmit(call, mode);
      if !ready { return Go(Failed); }
      r := ChargeMigration(call, mode);
    }

    /** The charge of a migration that is ready, and the migration. */
    method ChargeMigration(call: Call, mode: Mode) returns (r: Flow<Reply>)
      requires call.verb == Migrate && call.Sound() && OnlyLooked(call.trace)
      requires mode in {DEV, TEST} && ReadyToMigrate(call.trace, mode)
      modifies call, budget
      ensures BookedIn(call.world, call.trace, call.reading, old(budget.calls), old(budget.asked), budget.calls, budget.asked)
      ensures call.Told()
      ensures r == Go(Ok) ==>
        RanOk(call.trace, FileStep(DevFiles, MIGRATE_TAIL)) || RanOk(call.trace, FileStep(TestFiles, MIGRATE_TAIL))
      ensures r != Go(Declined)
      ensures r == Stop(Refusal) ==> Charged !in call.trace
      ensures Explained(call.world, call.trace, r) || (r == Stop(Refusal) && budget.asked != old(budget.asked))
    {
      ghost var admitted := call.trace;
      var _ :- Charge(call);
      ReadyGrows(admitted, call.trace, mode);
      r := RunMigration(call, mode);
    }

    /** The one mode that the guard sees. */
    method MigrateMode(call: Call) returns (r: Flow<Mode>)
      requires call.trace == [] && call.Sound()
      modifies call
      ensures call.Advanced(r.Stop?) && OnlyLooked(call.trace)
      ensures r.Go? ==> r.value in {DEV, TEST} && Guarded(call.trace, MODES_DEV_OR_TEST, Some(r.value))
      ensures r.Stop? ==> Why(call.world, call.trace, r.halt)
    {
      var m :- ModeGuard(call, MODES_DEV_OR_TEST);
      OnlyAcceptedModes(call.trace, m);
      return Go(m.value);
    }

    method RunMigration(call: Call, mode: Mode) returns (r: Flow<Reply>)
      requires call.verb == Migrate && call.Sound() && Charged in call.trace
      requires mode in {DEV, TEST} && ReadyToMigrate(call.trace, mode)
      modifies call
      ensures call.Told() && Charged in call.trace && call.reading == old(call.reading)
      ensures r == Go(Ok) ==>
        RanOk(call.trace, FileStep(DevFiles, MIGRATE_TAIL)) || RanOk(call.trace, FileStep(TestFiles, MIGRATE_TAIL))
      ensures r != Go(Declined) && r != Stop(Refusal)
      ensures Explained(call.world, call.trace, r)
    {
      var ok :- call.StepsUntilFailure(FileStep(if mode == TEST then TestFiles else DevFiles, MIGRATE_TAIL));
      return Go(if ok then Ok else Failed);
    }

    /** One postgres runs on the test directory, and one data_store. */
    method TestContainers(call: Call) returns (r: Flow<Exit>)
      requires call.Sound() && OnlyLooked(call.trace)
      modifies call
      ensures call.Advanced(r.Stop?) && OnlyLooked(call.trace)
      ensures r.Go? ==> PostgresOnMount(call.trace, call.world.testMount)
      ensures r.Go? ==> r.value.status == Some(0) && exists id :: OneRunning(call.trace, "data_store", id)
      ensures r.Go? ==> Ran(Look(Lookup("data_store")), Exited(r.value)) in call.trace
      ensures TestStackAnswers(call.world) ==> r == Go(Says(call.world, Look(Lookup("data_store"))))
      ensures r.Stop? ==> Why(call.world, call.trace, r.halt)
    {
      var id :- ExecTarget(call, "postgres");
      var x :- call.LookAt(MountRead(id));
      if !MountMatches(x, call.world.testMount) { return Stop(Refusal); }
      var store :- call.LookAt(Lookup("data_store"));
      if store.status != Some(0) || |Ids(store)| != 1 || !IsContainerId(Ids(store)[0]) { return Stop(Refusal); }
      assert Ids(store) == [Ids(store)[0]];
      assert OneRunning(call.trace, "postgres", id) && OneRunning(call.trace, "data_store", Ids(store)[0]);
      return Go(store);
    }

    /** The test mode alone is up, and the checks of its files pass. */
    method TestModeAlone(call: Call) returns (r: Flow<()>)
      requires call.Sound() && NotGuardedYet(call.trace) && OnlyLooked(call.trace)
      modifies call
      ensures call.Advanced(r.Stop?) && OnlyLooked(call.trace)
      ensures r.Go? ==> Guarded(call.trace, MODES_TEST, Some(TEST)) && AllPassed(call.trace, {TrustedCopies, EnvFiles})
      ensures Steady(call.world) && GuardLets(call.world, MODES_TEST) ==> r.Go?
      ensures r.Stop? ==> Why(call.world, call.trace, r.halt)
    {
      var m :- ModeGuard(call, MODES_TEST);
      OnlyTestMode(call.trace, m);
      r := Checks(call, [TrustedCopies, EnvFiles]);
    }

    method TestStackLooks(call: Call) returns (r: Flow<Exit>)
      requires call.verb in {RunSystemTests, SeedDump} && call.Sound()
      requires NotGuardedYet(call.trace) && OnlyLooked(call.trace)
      modifies call
      ensures call.Advanced(r.Stop?) && OnlyLooked(call.trace)
      ensures r.Go? ==> TestStackSeen(call.trace, call.world.testMount) && r.value.status == Some(0)
      ensures r.Go? ==> Ran(Look(Lookup("data_store")), Exited(r.value)) in call.trace
      ensures TestStackAnswers(call.world) ==> r == Go(Says(call.world, Look(Lookup("data_store"))))
      ensures r.Stop? ==> Why(call.world, call.trace, r.halt)
    {
      var _ :- TestModeAlone(call);
      r := TestContainers(call);
    }

    /** The preconditions of the two verbs that write the test database; Go(false) when a digest could not be computed. */
    method TestModeRails(call: Call) returns (r: Flow<bool>)
      requires call.verb in {RunSystemTests, SeedDump} && call.Sound()
      requires NotGuardedYet(call.trace) && OnlyLooked(call.trace)
      modifies call
      ensures call.Advanced(r.Stop?) && OnlyLooked(call.trace)
      ensures r == Go(true) ==> TestStackSeen(call.trace, call.world.testMount) && StackCurrent(call.trace)
      ensures TestStackAnswers(call.world) ==> r == Go(true)
      ensures r.Stop? ==> Why(call.world, call.trace, r.halt)
      ensures r == Go(false) ==> FailedBy(call.world, call.trace)
    {
      var store :- TestStackLooks(call);
      ghost var seen := call.trace;
      var current :- StampsRead(call, store);
      if !current { return Go(false); }
      TestStackGrows(seen, call.trace, call.world.testMount);
      return Go(true);
    }

    /** The digests of the sources, and then the stamps of what runs. */
    method StampsRead(call: Call, store: Exit) returns (r: Flow<bool>)
      requires call.Sound() && OnlyLooked(call.trace)
      requires Ran(Look(Lookup("data_store")), Exited(store)) in call.trace && store.status == Some(0)
      modifies call
      ensures call.Advanced(r.Stop?) && OnlyLooked(call.trace)
      ensures r == Go(true) ==> StackCurrent(call.trace)
      ensures TestStackAnswers(call.world) && store == Says(call.world, Look(Lookup("data_store"))) ==> r == Go(true)
      ensures r.Stop? ==> Why(call.world, call.trace, r.halt)
      ensures r == Go(false) ==> FailedBy(call.world, call.trace)
    {
      var digests :- SourceDigests(call);
      if digests.None? { return Go(false); }
      var _ :- RunningStampsCurrent(call, store, digests.value);
      return Go(true);
    }

    /** The rails, the snapshot and the charge. */
    method AdmitToTestDatabase(call: Call) returns (r: Flow<bool>)
      requires call.verb in {RunSystemTests, SeedDump} && call.trace == [] && call.Sound()
      modifies call, budget
      ensures BookedIn(call.world, call.trace, call.reading, old(budget.calls), old(budget.asked), budget.calls, budget.asked)
      ensures call.Told()
      ensures r.Go? ==> call.Sound()
      ensures r == Go(true) ==> OnTheTestRails(call.trace, call.world.testMount)
      ensures r == Go(true) ==> Charged in call.trace
      ensures r == Stop(Refusal) ==> Charged !in call.trace
      ensures !IsCompose(Last(call.trace))
      ensures TestStackAnswers(call.world) && |old(budget.calls)| < Budget.LIMIT ==> r == Go(true)
      ensures r.Stop? ==> Why(call.world, call.trace, r.halt) || (r.halt == Refusal && budget.asked != old(budget.asked))
      ensures r == Go(false) ==> FailedBy(call.world, call.trace)
    {
      var ready := RailsAndSnapshot(call);
      if ready.Stop? { return Stop(ready.halt); }
      if !ready.value { return Go(false); }
      ghost var railed := call.trace;
      var _ :- Charge(call);
      RailsGrow(railed, call.trace, call.world.testMount);
      return Go(true);
    }

    /** What the two verbs find out before they are charged. */
    method RailsAndSnapshot(call: Call) returns (r: Flow<bool>)
      requires call.verb in {RunSystemTests, SeedDump} && call.trace == [] && call.Sound()
      modifies call
      ensures call.Advanced(r.Stop?) && OnlyLooked(call.trace)
      ensures r == Go(true) ==> TestStackSeen(call.trace, call.world.testMount) && StackCurrent(call.trace)
      ensures r == Go(true) ==> Passed(Snapshot) in call.trace
      ensures TestStackAnswers(call.world) ==> r == Go(true)
      ensures r.Stop? ==> Why(call.world, call.trace, r.halt)
      ensures r == Go(false) ==> FailedBy(call.world, call.trace)
    {
      var _ :- call.Check(Arguments);
      var ready :- TestModeRails(call);
      if !ready { return Go(false); }
      ghost var railed := call.trace;
      var _ :- call.Check(Snapshot);
      RailsGrow(railed, call.trace, call.world.testMount);
      return Go(true);
    }

    method RunSystemTestsVerb(call: Call, paths: seq<string>) returns (r: Flow<Reply>)
      requires call.verb == RunSystemTests && call.trace == [] && call.Sound()
      modifies call, budget
      ensures BookedIn(call.world, call.trace, call.reading, old(budget.calls), old(budget.asked), budget.calls, budget.asked)
      ensures call.Told()
      ensures r == Go(Ok) ==> RanOk(call.trace, FileStep(ClientFiles, SYSTEM_TESTS_HEAD + paths))
      ensures r != Go(Declined)
      ensures r == Stop(Refusal) ==> Charged !in call.trace
      ensures Explained(call.world, call.trace, r) || (r == Stop(Refusal) && budget.asked != old(budget.asked))
    {
      var ready :- AdmitToTestDatabase(call);
      if !ready { return Go(Failed); }
      r := RunTests(call, paths);
    }

    method RunTests(call: Call, paths: seq<string>) returns (r: Flow<Reply>)
      requires call.verb == RunSystemTests && call.Sound() && Charged in call.trace
      requires OnTheTestRails(call.trace, call.world.testMount)
      modifies call
      ensures call.Told() && Charged in call.trace && call.reading == old(call.reading)
      ensures r == Go(Ok) ==> RanOk(call.trace, FileStep(ClientFiles, SYSTEM_TESTS_HEAD + paths))
      ensures r != Go(Declined) && r != Stop(Refusal)
      ensures Explained(call.world, call.trace, r)
    {
      var ok :- call.StepsUntilFailure(FileStep(ClientFiles, SYSTEM_TESTS_HEAD + paths));
      return Go(if ok then Ok else Failed);
    }

    /**
     Builds the client and runs the producer. The reply is Declined, though the call has been charged, exactly when the
     call's last command is the producer's and it exited with 3.
     */
    method SeedDumpVerb(call: Call, date: seq<string>) returns (r: Flow<Reply>)
      requires call.verb == SeedDump && call.trace == [] && call.Sound()
      modifies call, budget
      ensures BookedIn(call.world, call.trace, call.reading, old(budget.calls), old(budget.asked), budget.calls, budget.asked)
      ensures call.Told()
      ensures r == Go(Ok) ==> Passed(SeedBundle) in call.trace && RanOk(call.trace, FileStep(ClientFiles, SEED_RUN + date))
      ensures r == Stop(Refusal) ==> Charged !in call.trace
      ensures r == Go(Declined) <==> EndsInThree(call.trace, FileStep(ClientFiles, SEED_RUN + date))
      ensures r == Go(Declined) ==> Charged in call.trace
      ensures TestStackAnswers(call.world) && |old(budget.calls)| < Budget.LIMIT && ProducerDeclines(call.world, date) ==> r == Go(Declined)
      ensures Explained(call.world, call.trace, r) || (r == Stop(Refusal) && budget.asked != old(budget.asked))
    {
      var ready :- AdmitToTestDatabase(call);
      if !ready { return Go(Failed); }
      r := BuildAndProduce(call, date);
    }

    method BuildAndProduce(call: Call, date: seq<string>) returns (r: Flow<Reply>)
      requires call.verb == SeedDump && call.Sound() && Charged in call.trace
      requires OnTheTestRails(call.trace, call.world.testMount) && !IsCompose(Last(call.trace))
      modifies call
      ensures call.Told() && Charged in call.trace
      ensures r == Go(Ok) ==> Passed(SeedBundle) in call.trace && RanOk(call.trace, FileStep(ClientFiles, SEED_RUN + date))
      ensures r != Stop(Refusal)
      ensures r == Go(Declined) <==> EndsInThree(call.trace, FileStep(ClientFiles, SEED_RUN + date))
      ensures Steady(call.world) && ProducerDeclines(call.world, date) ==> r == Go(Declined)
      ensures Explained(call.world, call.trace, r)
      ensures call.reading == old(call.reading)
    {
      BuildIsNoRun(date);
      var built :- BuildClient(call);
      if !built { return Go(Failed); }
      r := Produce(call, date);
    }

    method BuildClient(call: Call) returns (r: Flow<bool>)
      requires call.verb == SeedDump && call.Sound() && Charged in call.trace
      requires OnTheTestRails(call.trace, call.world.testMount) && !IsCompose(Last(call.trace))
      modifies call
      ensures call.Advanced(r.Stop?)
      ensures r == Go(true) ==> RanOk(call.trace, FileStep(ClientFiles, CLIENT_BUILD_TAIL))
      ensures r == Go(true) ==> OnTheTestRails(call.trace, call.world.testMount)
      ensures r == Go(false) ==> FailedBy(call.world, call.trace)
      ensures r.Stop? ==> Why(call.world, call.trace, r.halt) && r.halt != Refusal
      ensures !IsCompose(Last(call.trace)) || IsOf(Last(call.trace), FileStep(ClientFiles, CLIENT_BUILD_TAIL))
      ensures Steady(call.world) ==> r == Go(Says(call.world, FileStep(ClientFiles, CLIENT_BUILD_TAIL)).status == Some(0))
    {
      ghost var admitted := call.trace;
      r := call.StepsUntilFailure(FileStep(ClientFiles, CLIENT_BUILD_TAIL));
      RailsGrow(admitted, call.trace, call.world.testMount);
    }

    /** The producer, run once the client is built, and what its exit means. */
    method Produce(call: Call, date: seq<string>) returns (r: Flow<Reply>)
      requires call.verb == SeedDump && call.Sound() && Charged in call.trace
      requires OnTheTestRails(call.trace, call.world.testMount) && RanOk(call.trace, FileStep(ClientFiles, CLIENT_BUILD_TAIL))
      requires !IsOf(Last(call.trace), FileStep(ClientFiles, SEED_RUN + date))
      modifies call
      ensures call.Told() && Charged in call.trace
      ensures r == Go(Ok) ==> Passed(SeedBundle) in call.trace && RanOk(call.trace, FileStep(ClientFiles, SEED_RUN + date))
      ensures r != Stop(Refusal)
      ensures r == Go(Declined) <==> EndsInThree(call.trace, FileStep(ClientFiles, SEED_RUN + date))
      ensures Steady(call.world) && Says(call.world, FileStep(ClientFiles, SEED_RUN + date)).status == Some(3) ==> r == Go(Declined)
      ensures Explained(call.world, call.trace, r)
      ensures call.reading == old(call.reading)
    {
      ProducerIsAllowed(call.world.testMount, call.trace, date);
      r := RunProducer(call, FileStep(ClientFiles, SEED_RUN + date));
    }

    method RunProducer(call: Call, step: Step) returns (r: Flow<Reply>)
      requires call.verb == SeedDump && call.Sound() && Charged in call.trace && step.action.Compose?
      requires MayAct(call.verb, call.world.testMount, call.trace, step.action) && !IsOf(Last(call.trace), step)
      requires IsProducer(step)
      modifies call
      ensures call.Told() && Charged in call.trace
      ensures r == Go(Ok) ==> Passed(SeedBundle) in call.trace && RanOk(call.trace, step)
      ensures r != Stop(Refusal)
      ensures r == Go(Declined) <==> EndsInThree(call.trace, step)
      ensures Steady(call.world) && Says(call.world, step).status == Some(3) ==> r == Go(Declined)
      ensures Explained(call.world, call.trace, r)
      ensures call.reading == old(call.reading)
    {
      var produced :- call.Do(step);
      r := JudgeProducer(call, step, produced);
    }

    /** What the exit of the producer means. */
    method JudgeProducer(call: Call, step: Step, produced: Exit) returns (r: Flow<Reply>)
      requires call.Sound() && Charged in call.trace && Ran(step, Exited(produced)) in call.trace && IsProducer(step)
      requires Last(call.trace) == Ran(step, Exited(produced))
      modifies call
      ensures call.Told() && Charged in call.trace
      ensures r == Go(Ok) ==> Passed(SeedBundle) in call.trace && RanOk(call.trace, step)
      ensures r != Stop(Refusal)
      ensures r == Go(Declined) <==> produced.status == Some(3)
      ensures r == Go(Declined) <==> EndsInThree(call.trace, step)
      ensures Explained(call.world, call.trace, r)
      ensures call.reading == old(call.reading)
    {
      if produced.status == Some(3) { return Go(Declined); }
      if produced.status != Some(0) { return Go(Failed); }
      r := AcceptBundle(call, step, produced);
    }

    /** Reads the bundle that a producer printed, and writes its two files. */
    method AcceptBundle(call: Call, step: Step, produced: Exit) returns (r: Flow<Reply>)
      requires call.Sound() && Charged in call.trace && Ran(step, Exited(produced)) in call.trace
      requires Last(call.trace) == Ran(step, Exited(produced)) && produced.status == Some(0)
      requires IsProducer(step)
      modifies call
      ensures call.Told() && Charged in call.trace
      ensures r == Go(Ok) ==> Passed(SeedBundle) in call.trace && RanOk(call.trace, step)
      ensures r != Stop(Refusal) && r != Go(Declined) && !EndsInThree(call.trace, step)
      ensures Explained(call.world, call.trace, r)
      ensures call.reading == old(call.reading)
    {
      BundleMayPass(call.verb, call.world.testMount, call.trace, step, produced);
      var verdict := call.world.verdict(call.trace, SeedBundle);
      BundleExplains(call.world, call.trace, verdict);
      match verdict
      case Refuse => return Go(Failed);
      case Interrupt => return Stop(TimedOut);
      case Break => return Stop(Raised);
      case Pass => r := NoteBundle(call, step);
    }

    method NoteBundle(call: Call, step: Step) returns (r: Flow<Reply>)
      requires call.Sound() && Charged in call.trace && RanOk(call.trace, step)
      requires May(call.verb, call.world.testMount, call.trace, Passed(SeedBundle))
      requires call.world.verdict(call.trace, SeedBundle) == Pass
      modifies call
      ensures call.Told() && Charged in call.trace && Last(call.trace) == Passed(SeedBundle)
      ensures r == Go(Ok) && Passed(SeedBundle) in call.trace && RanOk(call.trace, step)
      ensures call.reading == old(call.reading)
    {
      call.Append(Passed(SeedBundle));
      return Go(Ok);
    }

    /** Runs one verb, unless one is running; the lock is free again on every way out. */
    method CallVerb(verb: Verb, world: World, service: string, arguments: seq<string>) returns (out: Outcome, call: Call)
      modifies this, budget
      ensures BookedIn(world, call.trace, Reading(world, call.trace), old(budget.calls), old(budget.asked), budget.calls, budget.asked)
      ensures fresh(call) && call.verb == verb && call.world == world
      ensures running == old(running)
      ensures Happened(world, verb, call.trace)
      ensures old(running).Some? ==> out == Busy(old(running).value) && call.trace == [] && budget.asked == old(budget.asked)
      ensures old(running).None? ==> !out.Busy?
      ensures out == Halted(Refusal) ==> Charged !in call.trace
      ensures old(running).None? ==>
        || OutcomeExplained(world, call.trace, out)
        || (out == Halted(Refusal) && (budget.asked != old(budget.asked) || (verb == Restart && service !in RESTART_SERVICES)))
      ensures old(running).None? ==>
        (out == Replied(Declined) <==> verb == SeedDump && EndsInThree(call.trace, FileStep(ClientFiles, SEED_RUN + arguments)))
      ensures out == Replied(Declined) ==> Charged in call.trace
      ensures old(running).None? && verb == SeedDump && TestStackAnswers(world) && |old(budget.calls)| < Budget.LIMIT && ProducerDeclines(world, arguments)
        ==> out == Replied(Declined)
      ensures old(running).None? && |old(budget.calls)| < Budget.LIMIT && UpAnswers(world, verb) ==> out == Replied(Ok)
    {
      call := new Call(verb, world);
      if running.Some? { return Busy(running.value), call; }
      running := Some(verb);
      var r;
      match verb {
        case Down => r := DownVerb(call);
        case Restart => r := RestartVerb(call, service);
        case Build => r := BuildVerb(call);
        case Up => r := UpVerb(call);
        case Tools => r := ToolsVerb(call);
        case TestBuild => r := BuildVerb(call);
        case TestUp => r := TestUpVerb(call);
        case Migrate => r := MigrateVerb(call);
        case RunSystemTests => r := RunSystemTestsVerb(call, arguments);
        case SeedDump => r := SeedDumpVerb(call, arguments);
      }
      running := None;
      ReadingIs(world, call.trace, call.reading);
      out := match r case Go(reply) => Replied(reply) case Stop(halt) => Halted(halt);
    }
  }

  /**
   What a call does to the limiter, in its world: it asks at most once, at what the clock reads at its charge, or at its
   end when it is refused.
   */
  ghost predicate BookedIn(
    w: World, t: Trace, reading: int, calls: seq<int>, asked: seq<int>, calls': seq<int>, asked': seq<int>)
  {
    && Budget.Booked(calls, asked, calls', asked', Charged in t)
    && (asked' != asked ==> asked'[|asked'| - 1] == if Charged in t then reading else w.clock(t))
  }

  /** Why a verb ends as it does: a failure and a halt each have their cause in the world. */
  ghost predicate Explained(w: World, t: Trace, r: Flow<Reply>) {
    match r
    case Go(Failed) => FailedBy(w, t)
    case Go(_) => true
    case Stop(halt) => Why(w, t, halt)
  }

  ghost predicate OutcomeExplained(w: World, t: Trace, out: Outcome) {
    match out
    case Replied(reply) => Explained(w, t, Go(reply))
    case Halted(halt) => Why(w, t, halt)
    case Busy(_) => false
  }

  // ---- a server on which the test stack is up and current

  function DigestOf(w: World, which: nat): string {
    var d := ParseDigest(Says(w, Look(Digest(which))));
    if d.Some? then d.value else ""
  }

  ghost predicate StampIs(w: World, digest: string) {
    forall id :: StampMatches(Says(w, Look(ContainerStamp(id))), digest)
  }

  ghost predicate StampsAgree(w: World, digests: seq<string>) {
    |digests| == 2 && StampIs(w, digests[0]) && StampIs(w, digests[1])
  }

  predicate GuardLets(w: World, accepted: set<Option<Mode>>) {
    CheckModeGuard(Says(w, Look(GuardList)), accepted).Accepted?
  }

  ghost predicate DigestsAnswer(w: World) {
    Steady(w) && ParseDigest(Says(w, Look(Digest(0)))).Some? && ParseDigest(Says(w, Look(Digest(1)))).Some?
  }

  /** The project may be replaced: any one mode is up, the digests can be computed, the network is there, and compose works. */
  ghost predicate DevStackAnswers(w: World) {
    && DigestsAnswer(w) && GuardLets(w, MODES_ANY)
    && Says(w, Look(NetworkInspect)).status == Some(0)
    && Says(w, DownStep()).status == Some(0) && Says(w, FileStep(DevFiles, DEV_UP_TAIL)).status == Some(0)
  }

  predicate TestStampsMatch(w: World, digests: seq<string>) {
    && |digests| == 2
    && StampMatches(Says(w, Look(ImageStamp(TEST_IMAGES[0]))), digests[0])
    && StampMatches(Says(w, Look(ImageStamp(TEST_IMAGES[1]))), digests[1])
  }

  /** The same for test mode, its two images carrying the digests. */
  ghost predicate TestImagesAnswer(w: World) {
    && DigestsAnswer(w) && GuardLets(w, MODES_ANY) && TestStampsMatch(w, [DigestOf(w, 0), DigestOf(w, 1)])
    && Says(w, DownStep()).status == Some(0) && Says(w, FileStep(TestFiles, TEST_UP_TAIL)).status == Some(0)
  }

  ghost predicate UpAnswers(w: World, verb: Verb) {
    (verb == Up && DevStackAnswers(w)) || (verb == TestUp && TestImagesAnswer(w))
  }

  ghost predicate TestStackAnswers(w: World) {
    && DigestsAnswer(w) && GuardLets(w, MODES_TEST)
    && (forall s :: OneFound(Says(w, Look(Lookup(s)))))
    && (forall id :: MountMatches(Says(w, Look(MountRead(id))), w.testMount))
    && StampsAgree(w, [DigestOf(w, 0), DigestOf(w, 1)])
  }

  predicate OneFound(x: Exit) {
    x.status == Some(0) && |Ids(x)| == 1 && IsContainerId(Ids(x)[0])
  }

  /** The client is built, and its producer exits with 3. */
  predicate ProducerDeclines(w: World, date: seq<string>) {
    && Says(w, FileStep(ClientFiles, CLIENT_BUILD_TAIL)).status == Some(0)
    && Says(w, FileStep(ClientFiles, SEED_RUN + date)).status == Some(3)
  }

  /** The last event is this step, exited with 3. */
  predicate EndsInThree(t: Trace, step: Step) {
    IsOf(Last(t), step) && Last(t).answer.Exited? && Last(t).answer.exit.status == Some(3)
  }

  /** A run of the producer, with whatever arguments. */
  predicate IsProducer(step: Step) {
    step.action.Compose? && SEED_RUN <= step.action.tail && step == FileStep(ClientFiles, step.action.tail)
  }

  lemma BundleExplains(w: World, t: Trace, verdict: Runner.Verdict)
    requires w.verdict(t, SeedBundle) == verdict
    ensures verdict == Refuse ==> FailedBy(w, t)
    ensures verdict == Interrupt ==> Why(w, t, TimedOut)
    ensures verdict == Break ==> Why(w, t, Raised)
  {
  }

  lemma BundleMayPass(verb: Verb, expected: string, t: Trace, step: Step, produced: Exit)
    requires IsProducer(step) && Ran(step, Exited(produced)) in t && produced.status == Some(0)
    ensures May(verb, expected, t, Passed(SeedBundle)) && RanOk(t, step)
  {
    assert ExitedZero(Exited(produced));
    assert RanOk(t, FileStep(ClientFiles, step.action.tail));
  }

  lemma ProducerIsAllowed(expected: string, t: Trace, date: seq<string>)
    requires Charged in t && OnTheTestRails(t, expected) && RanOk(t, FileStep(ClientFiles, CLIENT_BUILD_TAIL))
    ensures MayAct(SeedDump, expected, t, Compose(ClientFiles, SEED_RUN + date))
    ensures IsProducer(FileStep(ClientFiles, SEED_RUN + date))
  {
  }

  lemma BuildIsNoRun(date: seq<string>)
    ensures FileStep(ClientFiles, CLIENT_BUILD_TAIL) != FileStep(ClientFiles, SEED_RUN + date)
  {
    assert CLIENT_BUILD_TAIL[0] != (SEED_RUN + date)[0];
  }

  predicate IsCompose(e: Event) {
    e.Ran? && e.step.action.Compose?
  }

  lemma OnlyAcceptedModes(t: Trace, m: Option<Mode>)
    requires Guarded(t, MODES_DEV_OR_TEST, m)
    ensures m in MODES_DEV_OR_TEST
  {
  }

  lemma OnlyTestMode(t: Trace, m: Option<Mode>)
    requires Guarded(t, MODES_TEST, m)
    ensures m == Some(TEST)
  {
  }

  /** What `up` finds out before it is charged. */
  ghost predicate AdmittedForUp(t: Trace) {
    && GuardedAny(t, MODES_ANY)
    && AllPassed(t, {TrustedCopies, BindSources(DEV), EnvFiles, SteeringFiles, GeneratedCode})
    && ImagesPresent(t, DEV_IMAGES)
  }

  lemma UpReadinessGrows(t: Trace, t': Trace)
    requires (forall e :: e in t ==> e in t') && ReadyForUp(t)
    ensures ReadyForUp(t')
  {
    FactsGrow(t, t');
  }
}
