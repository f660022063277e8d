/** Calls one after another on one server (tools/agent_mcp/runner.py), and what the budget lets through over all of them. */
module CallHistory {
  import opened Options
  import opened VerbLaw
  import opened Commands
  import opened Runner
  import opened Verbs
  import opened Budget

  datatype Request = Request(verb: Verb, world: World, service: string, arguments: seq<string>)

  datatype Done = Done(request: Request, trace: Trace, out: Outcome) {
    /** What the clock read at its charge, or at its end when it was not charged. */
    function At(): int { Reading(request.world, trace) }
  }

  /** What the clock read in each call. */
  function Readings(dones: seq<Done>): (r: seq<int>)
    ensures |r| == |dones|
  {
    if dones == [] then [] else Readings(dones[..|dones| - 1]) + [dones[|dones| - 1].At()]
  }

  /** What the clock read at each charge. */
  function ChargedAt(dones: seq<Done>): seq<int> {
    if dones == [] then []
    else
      var last := dones[|dones| - 1];
      ChargedAt(dones[..|dones| - 1]) + if Charged in last.trace then [last.At()] else []
  }

  /** The twelve last charges all lie within the window before an instant. */
  predicate Full(charged: seq<int>, now: int) {
    |charged| >= LIMIT && now - charged[|charged| - LIMIT] < WINDOW
  }

  /** A call ended for a cause in its world, or it was refused over a full budget or over its own argument. */
  ghost predicate Accounted(d: Done, charged: seq<int>) {
    || OutcomeExplained(d.request.world, d.trace, d.out)
    || (d.out == Halted(Refusal) && Charged !in d.trace && Full(charged, d.At()))
    || (d.out == Halted(Refusal) && d.request.verb == Restart && d.request.service !in RESTART_SERVICES)
  }

  ghost predicate AllAccounted(dones: seq<Done>) {
    dones != [] ==>
      AllAccounted(dones[..|dones| - 1]) && Accounted(dones[|dones| - 1], ChargedAt(dones[..|dones| - 1]))
  }

  /** Every trace is its world's own and keeps the law of its verb. */
  ghost predicate AllHappened(dones: seq<Done>, requests: seq<Request>) {
    |dones| == |requests| &&
    forall k :: 0 <= k < |dones| ==>
      dones[k].request == requests[k] && Happened(requests[k].world, requests[k].verb, dones[k].trace)
  }

  /** What the limiter has been asked, as long as the clock has not gone back. */
  ghost predicate InStep(dones: seq<Done>, calls: seq<int>, asked: seq<int>) {
    && calls == Held(asked)
    && (Monotone(Readings(dones)) ==>
          && Monotone(asked) && ChargedAt(dones) == Admitted(asked)
          && (asked != [] ==> dones != [] && asked[|asked| - 1] <= dones[|dones| - 1].At()))
  }

  lemma MonotonePrefix(times: seq<int>, now: int)
    requires Monotone(times + [now])
    ensures Monotone(times) && (times != [] ==> times[|times| - 1] <= now)
  {
    var all := times + [now];
    forall i, j | 0 <= i < j < |times| ensures times[i] <= times[j] { assert all[i] <= all[j]; }
    if times != [] { assert all[|times| - 1] <= all[|times|]; }
  }

  lemma MonotoneMore(times: seq<int>, now: int)
    requires Monotone(times) && (times != [] ==> times[|times| - 1] <= now)
    ensures Monotone(times + [now])
  {
    var all := times + [now];
    forall i, j | 0 <= i < j < |all| ensures all[i] <= all[j] {
      if j == |times| { assert i < |times| - 1 ==> times[i] <= times[|times| - 1]; }
    }
  }

  /** One call more keeps step, and a call that asked and was not charged met a full budget. */
  lemma OneMore(dones: seq<Done>, d: Done, calls: seq<int>, asked: seq<int>, calls': seq<int>, asked': seq<int>)
    requires InStep(dones, calls, asked)
    requires BookedIn(d.request.world, d.trace, d.At(), calls, asked, calls', asked')
    requires Charged !in d.trace ==> d.At() == d.request.world.clock(d.trace)
    ensures InStep(dones + [d], calls', asked')
    ensures Monotone(Readings(dones + [d])) && asked' != asked && Charged !in d.trace ==> Full(ChargedAt(dones), d.At())
  {
    var all := dones + [d];
    assert all[..|all| - 1] == dones;
    BookedHolds(calls, asked, calls', asked', Charged in d.trace);
    if Monotone(Readings(all)) {
      MonotonePrefix(Readings(dones), d.At());
      if asked' != asked {
        LastIsReading(dones);
        AskedStaysInOrder(dones, asked, d.At());
        BookedIsAdmitted(calls, asked, calls', asked', Charged in d.trace);
        RefusedWhenTwelveRecent(asked, d.At());
      } else {
        LastIsReading(dones);
      }
    }
  }

  lemma LastIsReading(dones: seq<Done>)
    ensures dones != [] ==> Readings(dones)[|dones| - 1] == dones[|dones| - 1].At()
  {
  }

  lemma AskedStaysInOrder(dones: seq<Done>, asked: seq<int>, now: int)
    requires Monotone(asked) && (asked != [] ==> dones != [] && asked[|asked| - 1] <= dones[|dones| - 1].At())
    requires dones != [] ==> dones[|dones| - 1].At() <= now
    ensures Monotone(asked + [now])
  {
    MonotoneMore(asked, now);
  }

  /** The next call, after those that were made. */
  method CallNext(stack: AgentStack, q: Request, ghost dones: seq<Done>) returns (d: Done)
    requires stack.running == None && InStep(dones, stack.budget.calls, stack.budget.asked)
    modifies stack, stack.budget
    ensures stack.running == None && InStep(dones + [d], stack.budget.calls, stack.budget.asked)
    ensures d.request == q && Happened(q.world, q.verb, d.trace)
    ensures Monotone(Readings(dones + [d])) ==> Accounted(d, ChargedAt(dones))
  {
    ghost var calls, asked := stack.budget.calls, stack.budget.asked;
    var out, call := stack.CallVerb(q.verb, q.world, q.service, q.arguments);
    d := Done(q, call.trace, out);
    ReadingUncharged(q.world, call.trace);
    OneMore(dones, d, calls, asked, stack.budget.calls, stack.budget.asked);
  }

  lemma OneMoreHappened(dones: seq<Done>, d: Done, requests: seq<Request>, n: nat)
    requires n < |requests| && AllHappened(dones, requests[..n])
    requires d.request == requests[n] && Happened(requests[n].world, requests[n].verb, d.trace)
    ensures AllHappened(dones + [d], requests[..n + 1])
  {
  }

  lemma OneMoreAccounted(dones: seq<Done>, d: Done)
    requires Monotone(Readings(dones)) ==> AllAccounted(dones)
    requires Monotone(Readings(dones + [d])) ==> Accounted(d, ChargedAt(dones))
    ensures Monotone(Readings(dones + [d])) ==> AllAccounted(dones + [d])
  {
    var all := dones + [d];
    assert all[..|all| - 1] == dones;
    if Monotone(Readings(all)) { MonotonePrefix(Readings(dones), d.At()); }
  }

  lemma ReadingUncharged(w: World, t: Trace)
    ensures Charged !in t ==> Reading(w, t) == w.clock(t)
  {
    if Charged !in t { assert t[..ChargeIndex(t)] == t; }
  }

  /**
   Any number of calls, one after another, on a server that has just started. Every trace is what its world let happen,
   and keeps the law of its verb. By a clock that never goes back, every call ended for a cause, and no window of an hour
   holds more than twelve of the instants at which calls were charged.
   */
  method CallAll(stack: AgentStack, requests: seq<Request>) returns (dones: seq<Done>)
    requires stack.running == None && stack.budget.calls == [] && stack.budget.asked == []
    modifies stack, stack.budget
    ensures AllHappened(dones, requests)
    ensures Monotone(Readings(dones)) ==> AllAccounted(dones) && AtMostLimit(ChargedAt(dones))
  {
    dones := [];
    for n := 0 to |requests|
      invariant stack.running == None && InStep(dones, stack.budget.calls, stack.budget.asked)
      invariant AllHappened(dones, requests[..n])
      invariant Monotone(Readings(dones)) ==> AllAccounted(dones)
    {
      var d := CallNext(stack, requests[n], dones);
      OneMoreHappened(dones, d, requests, n);
      OneMoreAccounted(dones, d);
      dones := dones + [d];
    }
    assert requests[..|requests|] == requests;
    if Monotone(Readings(dones)) { AdmittedIsAtMostLimit(stack.budget.asked); }
  }
}
