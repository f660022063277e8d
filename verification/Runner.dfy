/**
 One verb call after another (tools/agent_mcp/runner.py). What a command answers, what a check finds and what the clock
 reads are functions of all that happened before in the call; the verbs are proved for every such world.
 */
module Runner {
  import opened Options
  import opened ModeGuard
  import opened Commands
  import opened VerbLaw
  import Budget

  datatype Verdict = Pass | Refuse | Interrupt | Break

  datatype World = World(
    answer: (Trace, Step) -> Answer,
    verdict: (Trace, Check) -> Verdict,
    clock: Trace -> int,
    testMount: string)

  /** What a world answers to a command at the start of a call. */
  function Says(w: World, step: Step): Exit {
    match w.answer([], step)
    case Exited(x) => x
    case _ => Exit(None, "", true)
  }

  /** A world that answers every command the same way at all times, and passes every check. */
  ghost predicate Steady(w: World) {
    && (forall t, s :: w.answer(t, s) == Exited(Says(w, s)))
    && (forall t, c :: w.verdict(t, c) == Pass)
    && (forall ref :: Says(w, Look(ImageInspect(ref))).status == Some(0))
  }

  /** What a world lets happen next: a command answers what it answers then, and a check passes only if it does. */
  predicate Tells(w: World, t: Trace, e: Event) {
    match e
    case Ran(step, a) => a == w.answer(t, step)
    case Passed(c) => w.verdict(t, c) == Pass
    case Charged => true
  }

  /** Every event of a trace is the world's own. */
  predicate FromWorld(w: World, t: Trace) {
    |t| > 0 ==> FromWorld(w, t[..|t| - 1]) && Tells(w, t[..|t| - 1], t[|t| - 1])
  }

  /** A call that keeps the law of its verb, in a world. */
  ghost predicate Happened(w: World, verb: Verb, t: Trace) {
    Lawful(verb, w.testMount, t) && FromWorld(w, t)
  }

  /** The clock read this at every charge of a trace. */
  predicate ClockAt(w: World, t: Trace, reading: int) {
    |t| > 0 ==>
      ClockAt(w, t[..|t| - 1], reading) && (t[|t| - 1] == Charged ==> reading == w.clock(t[..|t| - 1]))
  }

  /** The position of the charge, or the length of a trace without one. */
  function ChargeIndex(t: Trace): (k: nat)
    ensures k <= |t|
    ensures Charged in t <==> k < |t|
    ensures k < |t| ==> t[k] == Charged
  {
    if t == [] then 0 else if t[0] == Charged then 0 else 1 + ChargeIndex(t[1..])
  }

  /** What the clock read at the charge, or at the end of a call that was not charged. */
  function Reading(w: World, t: Trace): int {
    w.clock(t[..ChargeIndex(t)])
  }

  lemma {:induction false} ClockAtEach(w: World, t: Trace, reading: int, i: nat)
    requires ClockAt(w, t, reading) && i < |t| && t[i] == Charged
    ensures w.clock(t[..i]) == reading
  {
    if i < |t| - 1 {
      ClockAtEach(w, t[..|t| - 1], reading, i);
      assert t[..|t| - 1][..i] == t[..i];
    }
  }

  lemma ReadingIs(w: World, t: Trace, reading: int)
    requires ClockAt(w, t, reading)
    ensures Reading(w, t) == if Charged in t then reading else w.clock(t)
  {
    var k := ChargeIndex(t);
    if k < |t| { ClockAtEach(w, t, reading, k); } else { assert t[..k] == t; }
  }

  lemma {:induction false} UnchargedIsAtAny(w: World, t: Trace, x: int, y: int)
    requires Charged !in t && ClockAt(w, t, x)
    ensures ClockAt(w, t, y)
  {
    if t != [] {
      assert Charged !in t[..|t| - 1];
      UnchargedIsAtAny(w, t[..|t| - 1], x, y);
    }
  }

  /** How a verb is left early: the source's exceptions. */
  datatype Halt = Refusal | BasePullFailed(ref: string) | TimedOut | Raised

  /** Why a verb was left early: its last command, or a check that did not pass then. */
  ghost predicate Why(w: World, t: Trace, h: Halt) {
    match h
    case TimedOut => (Last(t).Ran? && Last(t).answer == Interrupted) || NotPassed(w, t, Interrupt)
    case Raised => (Last(t).Ran? && Last(t).answer == Broken) || NotPassed(w, t, Break)
    case BasePullFailed(ref) =>
      IsOf(Last(t), Look(BasePull(ref))) && Last(t).answer.Exited? && Last(t).answer.exit.status != Some(0)
    case Refusal => Looked(Last(t)) || NotPassed(w, t, Refuse)
  }

  ghost predicate NotPassed(w: World, t: Trace, v: Verdict) {
    exists c :: w.verdict(t, c) == v
  }

  /** A command that only looks, and what it found. */
  predicate Looked(e: Event) {
    e.Ran? && Looks(e.step.action) && e.answer.Exited?
  }

  /** Why a verb failed: its last command did not exit with zero, or printed no digest; or the seed bundle was refused. */
  predicate FailedBy(w: World, t: Trace) {
    || (Last(t).Ran? && Last(t).answer.Exited? &&
        (Last(t).answer.exit.status != Some(0) || (Last(t).step.action.Digest? && ParseDigest(Last(t).answer.exit).None?)))
    || w.verdict(t, SeedBundle) == Refuse
  }

  datatype Flow<+T> = Go(value: T) | Stop(halt: Halt) {
    predicate IsFailure() { Stop? }
    function PropagateFailure<U>(): Flow<U> requires Stop? { Stop(halt) }
    function Extract(): T requires Go? { value }
  }

  datatype Reply = Ok | Failed | Declined

  class Call {
    const verb: Verb
    const world: World
    var trace: Trace
    var basesPresent: bool
    var lastExit: Option<int>
    /** What the clock read at the charge. */
    ghost var reading: int

    constructor (verb: Verb, world: World)
      ensures this.verb == verb && this.world == world && trace == []
      ensures Sound()
    {
      this.verb, this.world := verb, world;
      trace, basesPresent, lastExit, reading := [], false, None, 0;
    }

    /** The trace is the world's, lawful and charged when the clock said so. */
    ghost predicate Told()
      reads this
    {
      Happened(world, verb, trace) && ClockAt(world, trace, reading)
    }

    /** And no pull has failed in it. */
    ghost predicate Sound()
      reads this
    {
      && Told()
      && NoFailedPull(trace)
      && (basesPresent ==> AllBases(trace))
    }

    /**
     What one or more steps leave: the earlier events in place, the charge and its instant as they were, and the trace
     the world's and lawful; sound too, unless halted.
     */
    twostate predicate Advanced(halted: bool)
      reads this
    {
      && old(trace) <= trace
      && (forall e :: e in old(trace) ==> e in trace)
      && (Charged in trace <==> Charged in old(trace))
      && reading == old(reading)
      && Told()
      && (!halted ==> Sound())
    }

    method Append(e: Event)
      requires Told() && May(verb, world.testMount, trace, e) && Tells(world, trace, e)
      requires e == Charged ==> reading == world.clock(trace)
      modifies this`trace
      ensures trace == old(trace) + [e] && Told() && Last(trace) == e
      ensures forall x :: x in trace <==> x in old(trace) || x == e
    {
      trace := trace + [e];
      assert trace[..|trace| - 1] == old(trace);
    }

    /** Notes the one charge of the call. */
    method NoteCharge()
      requires Sound() && OnlyLooked(trace)
      modifies this`trace, this`reading
      ensures Sound() && trace == old(trace) + [Charged] && Charged in trace
      ensures reading == world.clock(old(trace))
      ensures forall e :: e in old(trace) ==> e in trace
    {
      OnlyLookedMeans(trace);
      UnchargedIsAtAny(world, trace, reading, world.clock(trace));
      reading := world.clock(trace);
      Append(Charged);
    }

    /** Runs one command whose bases, if it needs any, are present. */
    method Run(step: Step) returns (r: Flow<Exit>)
      requires Sound() && MayAct(verb, world.testMount, trace, step.action) && (step.builds ==> AllBases(trace))
      modifies this
      ensures Advanced(r.Stop? || (step.action.BasePull? && r.value.status != Some(0)))
      ensures basesPresent == old(basesPresent)
      ensures r.Go? ==> Ran(step, Exited(r.value)) in trace
      ensures r.Stop? ==> r.halt in {TimedOut, Raised} && Why(world, trace, r.halt)
      ensures trace == old(trace) + [Ran(step, world.answer(old(trace), step))] && trace[..|trace| - 1] == old(trace)
      ensures if world.answer(old(trace), step).Exited? then r == Go(world.answer(old(trace), step).exit) else r.Stop?
    {
      var a := world.answer(trace, step);
      Append(Ran(step, a));
      match a
      case Interrupted => return Stop(TimedOut);
      case Broken => return Stop(Raised);
      case Exited(exit) =>
        lastExit := exit.status;
        return Go(exit);
    }

    /** Per base: an inspect, and a pull only when that fails; a failed pull ends the verb. */
    method EnsureBases() returns (r: Flow<()>)
      requires Sound() && Charged in trace
      modifies this
      ensures Advanced(r.Stop?)
      ensures Steady(world) ==> r.Go?
      ensures r.Go? ==> AllBases(trace) && basesPresent
      ensures r.Stop? ==> r.halt != Refusal && Why(world, trace, r.halt)
      ensures Last(trace) == Last(old(trace)) || AboutBases(Last(trace))
    {
      for n := 0 to |BASE_IMAGES|
        invariant Advanced(false)
        invariant Charged in trace
        invariant Last(trace) == Last(old(trace)) || AboutBases(Last(trace))
        invariant forall i :: 0 <= i < n ==> Confirmed(trace, BASE_IMAGES[i])
      {
        var _ :- EnsureBase(BASE_IMAGES[n]);
      }
      basesPresent := true;
      return Go(());
    }

    method EnsureBase(ref: string) returns (r: Flow<()>)
      requires Sound() && Charged in trace && ref in BASE_IMAGES
      modifies this
      ensures Advanced(r.Stop?) && basesPresent == old(basesPresent)
      ensures Steady(world) ==> r.Go?
      ensures r.Go? ==> Confirmed(trace, ref)
      ensures r.Stop? ==> r.halt != Refusal && Why(world, trace, r.halt)
      ensures Last(trace) == Last(old(trace)) || AboutBases(Last(trace))
    {
      var seen :- Run(Look(ImageInspect(ref)));
      if seen.status == Some(0) { return Go(()); }
      assert !ExitedZero(Exited(seen));
      var pulled :- Run(Look(BasePull(ref)));
      if pulled.status != Some(0) { return Stop(BasePullFailed(ref)); }
      assert ExitedZero(Exited(pulled));
      return Go(());
    }

    /** Every command passes here: the bases are made present before the first step that builds. */
    method Do(step: Step) returns (r: Flow<Exit>)
      requires Sound() && MayAct(verb, world.testMount, trace, step.action) && !step.action.BasePull?
      requires step.builds ==> Charged in trace && step.action.Compose?
      modifies this
      ensures Advanced(r.Stop?)
      ensures Steady(world) ==> r == Go(Says(world, step))
      ensures r.Go? ==> trace != [] && Last(trace) == Ran(step, Exited(r.value)) && Ran(step, Exited(r.value)) in trace
      ensures r.Stop? ==> r.halt != Refusal && Why(world, trace, r.halt)
      ensures r.Stop? ==> Last(trace) == Last(old(trace)) || AboutBases(Last(trace)) || (IsOf(Last(trace), step) && !Last(trace).answer.Exited?)
    {
      if step.builds && !basesPresent {
        var _ :- EnsureBases();
        ComposeStaysLawful(verb, world.testMount, old(trace), trace, step.action.files, step.action.tail);
      }
      r := Run(step);
    }

    method StepsUntilFailure(step: Step) returns (r: Flow<bool>)
      requires Sound() && MayAct(verb, world.testMount, trace, step.action) && !step.action.BasePull?
      requires step.builds ==> Charged in trace && step.action.Compose?
      modifies this
      ensures Advanced(r.Stop?)
      ensures Steady(world) ==> r == Go(Says(world, step).status == Some(0))
      ensures r == Go(true) ==> RanOk(trace, step)
      ensures r == Go(false) ==> FailedBy(world, trace)
      ensures r.Stop? ==> r.halt != Refusal && Why(world, trace, r.halt)
      ensures Last(trace) == Last(old(trace)) || AboutBases(Last(trace)) || IsOf(Last(trace), step)
      ensures r.Go? ==> IsOf(Last(trace), step) && Last(trace).answer.Exited? && (r.value <==> ExitedZero(Last(trace).answer))
    {
      var x :- Do(step);
      assert x.status == Some(0) ==> ExitedZero(Exited(x));
      return Go(x.status == Some(0));
    }

    /** A command that only looks. */
    method LookAt(a: Action) returns (r: Flow<Exit>)
      requires Sound() && Looks(a) && (a.GuardList? ==> NotGuardedYet(trace))
      modifies this
      ensures Advanced(r.Stop?)
      ensures OnlyLooked(old(trace)) ==> OnlyLooked(trace)
      ensures Steady(world) ==> r == Go(Says(world, Look(a)))
      ensures r.Go? ==> Ran(Look(a), Exited(r.value)) in trace && Last(trace) == Ran(Look(a), Exited(r.value))
      ensures r.Stop? ==> r.halt != Refusal && Why(world, trace, r.halt)
    {
      NotGuardedYetIfGuard(a);
      r := Run(Look(a));
    }

    lemma NotGuardedYetIfGuard(a: Action)
      requires Looks(a) && (a.GuardList? ==> NotGuardedYet(trace))
      ensures MayAct(verb, world.testMount, trace, a)
    {
      if a.GuardList? { NotGuardedYetMeans(trace); }
    }

    method Check(check: Check) returns (r: Flow<()>)
      requires Sound() && check != SeedBundle
      modifies this
      ensures Advanced(r.Stop?)
      ensures OnlyLooked(old(trace)) ==> OnlyLooked(trace)
      ensures NotGuardedYet(old(trace)) ==> NotGuardedYet(trace)
      ensures Steady(world) ==> r.Go?
      ensures r.Go? ==> Passed(check) in trace
      ensures r.Stop? ==> Why(world, trace, r.halt)
    {
      match world.verdict(trace, check)
      case Refuse => return Stop(Refusal);
      case Interrupt => return Stop(TimedOut);
      case Break => return Stop(Raised);
      case Pass =>
        Append(Passed(check));
        assert trace[..|trace| - 1] == old(trace);
        return Go(());
    }
  }

  /** The last event of a trace that has one. */
  function Last(t: Trace): Event {
    if t == [] then Charged else t[|t| - 1]
  }

  /** A command that makes a base present. */
  predicate AboutBases(e: Event) {
    e.Ran? && (e.step.action.ImageInspect? || e.step.action.BasePull?)
  }

  predicate IsOf(e: Event, step: Step) {
    e.Ran? && e.step == step
  }

  /** Nothing but looks and checks so far. */
  ghost predicate OnlyLooked(t: Trace) {
    |t| > 0 ==>
      && OnlyLooked(t[..|t| - 1])
      && t[|t| - 1] != Charged && (t[|t| - 1].Ran? ==> Looks(t[|t| - 1].step.action))
  }

  lemma {:induction false} OnlyLookedMeans(t: Trace)
    requires OnlyLooked(t)
    ensures Charged !in t && forall e :: e in t && e.Ran? ==> Looks(e.step.action)
  {
    if t != [] {
      OnlyLookedMeans(t[..|t| - 1]);
      assert t == t[..|t| - 1] + [t[|t| - 1]];
    }
  }

  lemma OnlyLookedIsUncharged(t: Trace)
    requires OnlyLooked(t)
    ensures Charged !in t
  {
    OnlyLookedMeans(t);
  }

  ghost predicate NotGuardedYet(t: Trace) {
    |t| > 0 ==>
      NotGuardedYet(t[..|t| - 1]) && (t[|t| - 1].Ran? ==> !t[|t| - 1].step.action.GuardList?)
  }

  lemma {:induction false} NotGuardedYetMeans(t: Trace)
    requires NotGuardedYet(t)
    ensures forall e :: e in t && e.Ran? ==> !e.step.action.GuardList?
  {
    if t != [] {
      NotGuardedYetMeans(t[..|t| - 1]);
      assert t == t[..|t| - 1] + [t[|t| - 1]];
    }
  }

  /** A longer trace allows every compose command a shorter one does. */
  lemma ComposeStaysLawful(verb: Verb, expected: string, t: Trace, t': Trace, files: Files, tail: seq<string>)
    requires forall e :: e in t ==> e in t'
    requires MayAct(verb, expected, t, Compose(files, tail))
    ensures MayAct(verb, expected, t', Compose(files, tail))
  {
    FactsGrow(t, t');
    CurrencyGrows(t, t');
    if verb.Migrate? {
      MigrateGrows(t, t', DEV);
      MigrateGrows(t, t', TEST);
    }
    if verb in {RunSystemTests, SeedDump} {
      RailsGrow(t, t', expected);
    }
  }
}
