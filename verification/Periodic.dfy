/**
 The loop around a schedule (server/common/scheduling.py, `_run_loop`). A round is one turn of the loop, with whatever
 the clock, the wakes and the schedule do in it; the clock never goes back and a sleep never ends early without a wake.
 */
module Periodic {
  import opened Options
  import opened Schedules

  /** The instant, the last start and the turn, to a fire; a failing schedule answers one of the failures. */
  type Asked = (int, Option<int>, nat) -> Fire

  /**
   What happens in one turn: the time since the last turn and the wakes set in it (during the job, say), the wakes set
   during the sleep, and how late the loop goes on: after the fire when it slept undisturbed, else after the asking.
   */
  datatype Round = Round(pause: nat, wakesBefore: nat, wakesAsleep: nat, late: nat)

  /** One start of the job: when, the fire it was started for, and whether it took up a wake. */
  datatype Start = Start(at: int, fire: int, woken: bool)

  datatype Setting = Setting(ask: Asked, retryDelay: nat, hasWake: bool)

  datatype State =
    State(clock: int, lastRun: Option<int>, wakeSet: bool, finished: bool, turns: nat, starts: seq<Start>)

  // ---- what a run comes to

  /** Whether a wake is set once more of them may have been. */
  predicate WakeIsSet(c: Setting, before: bool, wakes: nat) {
    before || (c.hasWake && wakes > 0)
  }

  /** The instant after a sleep that a wake cuts short. */
  function Slept(clock: int, delay: nat, woke: bool, late: nat): int {
    clock + late + if woke then 0 else delay
  }

  /** The state one round later. */
  function Turned(c: Setting, s: State, r: Round): State {
    var now, waits := s.clock + r.pause, WakeIsSet(c, s.wakeSet, r.wakesBefore);
    match c.ask(now, s.lastRun, s.turns)
    case Never => State(now, s.lastRun, waits, true, s.turns + 1, s.starts)
    case At(instant) =>
      var sleeps := instant > now && !waits;
      var woken := waits || (sleeps && WakeIsSet(c, false, r.wakesAsleep));
      var at := if sleeps then Slept(now, instant - now, woken, r.late) else now + r.late;
      State(at, Some(at), false, false, s.turns + 1, s.starts + [Start(at, instant, woken)])
    case _ =>
      State(Slept(now, c.retryDelay, WakeIsSet(c, waits, r.wakesAsleep), r.late), s.lastRun, false, false, s.turns + 1, s.starts)
  }

  /** The state after some rounds; once the loop has ended, no further one changes it. */
  function Reached(c: Setting, s: State, rounds: seq<Round>): State {
    if rounds == [] then s
    else
      var before := Reached(c, s, rounds[..|rounds| - 1]);
      if before.finished then before else Turned(c, before, rounds[|rounds| - 1])
  }

  /** How many wakes are set in some rounds. */
  function WakesIn(rounds: seq<Round>): nat {
    if rounds == [] then 0
    else WakesIn(rounds[..|rounds| - 1]) + rounds[|rounds| - 1].wakesBefore + rounds[|rounds| - 1].wakesAsleep
  }

  class Loop {
    const setting: Setting
    var clock: int
    var lastRun: Option<int>
    var wakeSet: bool
    var finished: bool
    var turns: nat
    var starts: seq<Start>

    constructor (setting: Setting, clock: int)
      requires setting.retryDelay > 0
      ensures this.setting == setting && Now() == Fresh(clock)
    {
      this.setting, this.clock := setting, clock;
      lastRun, wakeSet, finished, turns, starts := None, false, false, 0, [];
    }

    function Now(): State
      reads this
    {
      State(clock, lastRun, wakeSet, finished, turns, starts)
    }

    method Wake(times: nat)
      modifies this`wakeSet
      ensures wakeSet == WakeIsSet(setting, old(wakeSet), times)
    {
      if setting.hasWake && times > 0 { wakeSet := true; }
    }

    /** Sleeps until the delay is over or a wake is set. */
    method SleepOrWake(delay: nat, asleep: nat, late: nat)
      modifies this`clock, this`wakeSet
      ensures wakeSet == WakeIsSet(setting, old(wakeSet), asleep) && clock == Slept(old(clock), delay, wakeSet, late)
    {
      Wake(asleep);
      clock := clock + late + if wakeSet then 0 else delay;
    }

    /** One turn of the loop. */
    method Turn(r: Round)
      requires !finished
      modifies this
      ensures Now() == Turned(setting, old(Now()), r)
    {
      clock := clock + r.pause;
      Wake(r.wakesBefore);
      var now := clock;
      var fire := setting.ask(now, lastRun, turns);
      turns := turns + 1;
      match fire
      case Never =>
        finished := true;
      case At(instant) =>
        var delay := instant - now;
        if delay > 0 && !wakeSet {
          SleepOrWake(delay, r.wakesAsleep, r.late);
        } else {
          clock := clock + r.late;
        }
        var woken := wakeSet;
        wakeSet := false;
        lastRun := Some(clock);
        starts := starts + [Start(clock, instant, woken)];
      case _ =>
        SleepOrWake(setting.retryDelay, r.wakesAsleep, r.late);
        wakeSet := false;
    }

    /** Any number of turns, until the schedule names no further fire. */
    method Run(rounds: seq<Round>)
      modifies this
      ensures Now() == Reached(setting, old(Now()), rounds)
    {
      for n := 0 to |rounds|
        invariant Now() == Reached(setting, old(Now()), rounds[..n])
      {
        assert rounds[..n + 1][..n] == rounds[..n];
        if !finished { Turn(rounds[n]); }
      }
      assert rounds[..|rounds|] == rounds;
    }
  }

  function Fresh(clock: int): State {
    State(clock, None, false, false, 0, [])
  }

  // ---- what every run keeps

  /** Each start lies at or after its fire or takes up a wake, the starts are in order, and the last one is remembered. */
  ghost predicate Kept(s: State) {
    && (s.lastRun == if s.starts == [] then None else Some(s.starts[|s.starts| - 1].at))
    && (s.starts != [] ==> s.starts[|s.starts| - 1].at <= s.clock)
    && (forall i :: 0 <= i < |s.starts| ==> s.starts[i].at >= s.starts[i].fire || s.starts[i].woken)
    && Ascending(s.starts)
  }

  ghost predicate Ascending(starts: seq<Start>) {
    forall i, j :: 0 <= i < j < |starts| ==> starts[i].at <= starts[j].at
  }

  lemma TurnKeeps(c: Setting, s: State, r: Round)
    requires Kept(s)
    ensures Kept(Turned(c, s, r)) && Turned(c, s, r).clock >= s.clock
    ensures Taken(Turned(c, s, r)) <= Taken(s) + r.wakesBefore + r.wakesAsleep
    ensures !c.hasWake && Taken(s) == 0 ==> Taken(Turned(c, s, r)) == 0
  {
    var t := Turned(c, s, r);
    if |t.starts| > |s.starts| {
      assert t.starts[..|t.starts| - 1] == s.starts;
    }
  }

  /** The wakes that starts took up, and the one that is waiting. */
  function Taken(s: State): nat {
    Woken(s.starts) + if s.wakeSet then 1 else 0
  }

  /**
   Over every run from the loop's start: each job starts at or after the fire computed for it or takes up a wake, and
   together the starts take up no more wakes than were set; without a wake event none of them takes up any.
   */
  lemma {:induction false} EveryRunKeeps(c: Setting, clock: int, rounds: seq<Round>)
    ensures var s := Reached(c, Fresh(clock), rounds);
      Kept(s) && Taken(s) <= (if c.hasWake then WakesIn(rounds) else 0)
  {
    if rounds != [] {
      var before := rounds[..|rounds| - 1];
      EveryRunKeeps(c, clock, before);
      TurnKeeps(c, Reached(c, Fresh(clock), before), rounds[|rounds| - 1]);
    }
  }

  lemma TurnEnds(c: Setting, s: State, r: Round)
    ensures Turned(c, s, r).turns == s.turns + 1
    ensures Turned(c, s, r).finished <==> c.ask(s.clock + r.pause, s.lastRun, s.turns) == Never
  {
  }

  lemma LastRound(c: Setting, clock: int, rounds: seq<Round>)
    requires rounds != []
    ensures var before, s := Reached(c, Fresh(clock), rounds[..|rounds| - 1]), Reached(c, Fresh(clock), rounds);
      if before.finished then s == before
      else s.turns == before.turns + 1 && (s.finished <==> Asks(c, clock, rounds, |rounds| - 1) == Never)
  {
    var before, r := Reached(c, Fresh(clock), rounds[..|rounds| - 1]), rounds[|rounds| - 1];
    LastTurn(c, clock, rounds, before, r);
    TurnEnds(c, before, r);
  }

  lemma {:induction false} LastTurn(c: Setting, clock: int, rounds: seq<Round>, before: State, r: Round)
    requires rounds != [] && r == rounds[|rounds| - 1] && before == Reached(c, Fresh(clock), rounds[..|rounds| - 1])
    ensures Reached(c, Fresh(clock), rounds) == if before.finished then before else Turned(c, before, r)
    ensures Asks(c, clock, rounds, |rounds| - 1) == c.ask(before.clock + r.pause, before.lastRun, before.turns)
  {
  }

  lemma EarlierAsks(c: Setting, clock: int, rounds: seq<Round>, n: nat)
    requires n < |rounds| - 1
    ensures Asks(c, clock, rounds[..|rounds| - 1], n) == Asks(c, clock, rounds, n)
  {
    assert rounds[..|rounds| - 1][..n] == rounds[..n];
  }

  ghost predicate HasNever(c: Setting, clock: int, rounds: seq<Round>) {
    exists n :: 0 <= n < |rounds| && Asks(c, clock, rounds, n) == Never
  }

  lemma NeverOneMore(c: Setting, clock: int, rounds: seq<Round>)
    requires rounds != []
    ensures HasNever(c, clock, rounds) <==>
      HasNever(c, clock, rounds[..|rounds| - 1]) || Asks(c, clock, rounds, |rounds| - 1) == Never
  {
    var before := rounds[..|rounds| - 1];
    if HasNever(c, clock, before) {
      var n :| 0 <= n < |before| && Asks(c, clock, before, n) == Never;
      EarlierAsks(c, clock, rounds, n);
    }
    if HasNever(c, clock, rounds) {
      var n :| 0 <= n < |rounds| && Asks(c, clock, rounds, n) == Never;
      if n < |rounds| - 1 { EarlierAsks(c, clock, rounds, n); }
    }
  }

  /** The loop ends exactly when in some round the schedule names no fire, and before that every round is one turn. */
  lemma {:induction false} EndsOnNeverOnly(c: Setting, clock: int, rounds: seq<Round>)
    ensures var s := Reached(c, Fresh(clock), rounds);
      (!s.finished ==> s.turns == |rounds|) && (s.finished <==> HasNever(c, clock, rounds))
  {
    if rounds != [] {
      EndsOnNeverOnly(c, clock, rounds[..|rounds| - 1]);
      LastRound(c, clock, rounds);
      NeverOneMore(c, clock, rounds);
    }
  }

  /** What the schedule answers in a round, if the loop is still on. */
  function Asks(c: Setting, clock: int, rounds: seq<Round>, n: nat): Fire
    requires n < |rounds|
  {
    var s := Reached(c, Fresh(clock), rounds[..n]);
    c.ask(s.clock + rounds[n].pause, s.lastRun, s.turns)
  }

  predicate WakesInFirst(c: Setting, rounds: seq<Round>) {
    c.hasWake && rounds != [] && rounds[0].wakesBefore + rounds[0].wakesAsleep > 0
  }

  /** Under `Once` the first round starts the job, at its instant or for a wake set in it, and the second ends the loop. */
  lemma {:induction false} OnceRunsOnce(c: Setting, clock: int, instant: int, rounds: seq<Round>)
    requires forall now, last, n :: c.ask(now, last, n) == OnceFire(instant, now, last)
    ensures var s := Reached(c, Fresh(clock), rounds);
      && |s.starts| == (if rounds == [] then 0 else 1) && (s.finished <==> |rounds| >= 2)
      && (s.starts == [] <==> s.lastRun == None)
      && (s.starts != [] ==>
            var asked := clock + rounds[0].pause;
            && s.starts[0].fire == Max(instant, asked)
            && (!WakesInFirst(c, rounds) ==> s.starts[0].at == Max(instant, asked) + rounds[0].late)
            && s.starts[0].at >= asked)
  {
    if rounds != [] {
      OnceRunsOnce(c, clock, instant, rounds[..|rounds| - 1]);
    }
  }

  // ---- when a job starts

  /** The instant of asking in a round. */
  function Asking(c: Setting, clock: int, rounds: seq<Round>, n: nat): int
    requires n < |rounds|
  {
    Reached(c, Fresh(clock), rounds[..n]).clock + rounds[n].pause
  }

  /** The loop is still on before a round. */
  predicate IsOn(c: Setting, clock: int, rounds: seq<Round>, n: nat)
    requires n < |rounds|
  {
    !Reached(c, Fresh(clock), rounds[..n]).finished
  }

  /** A wake is waiting when a round asks: one set since the last turn, for every turn clears what it took up. */
  predicate WakeWaits(c: Setting, r: Round) {
    c.hasWake && r.wakesBefore > 0
  }

  predicate WakeComes(c: Setting, r: Round) {
    c.hasWake && r.wakesAsleep > 0
  }

  /** A turn that goes on leaves no wake behind. */
  lemma {:induction false} NoWakeIsLeft(c: Setting, clock: int, rounds: seq<Round>)
    ensures var s := Reached(c, Fresh(clock), rounds); !s.finished ==> !s.wakeSet
  {
    if rounds != [] { NoWakeIsLeft(c, clock, rounds[..|rounds| - 1]); }
  }

  lemma OneRoundMore(c: Setting, clock: int, rounds: seq<Round>, n: nat)
    requires n < |rounds| && IsOn(c, clock, rounds, n)
    ensures Reached(c, Fresh(clock), rounds[..n + 1]) == Turned(c, Reached(c, Fresh(clock), rounds[..n]), rounds[n])
  {
    var more := rounds[..n + 1];
    assert more[..|more| - 1] == rounds[..n];
  }

  /**
   When the job of a round starts, over every run. Without a wake it starts at the later of its fire and the instant of
   asking, and as much later as the loop goes on late; a wake that waits, or one that comes while it sleeps, starts it at
   the asking instead. A round without a fire starts nothing.
   */
  lemma {:induction false} StartIsPunctual(c: Setting, clock: int, rounds: seq<Round>, n: nat)
    requires n < |rounds| && IsOn(c, clock, rounds, n)
    ensures var before, after := Reached(c, Fresh(clock), rounds[..n]).starts, Reached(c, Fresh(clock), rounds[..n + 1]).starts;
      match Asks(c, clock, rounds, n)
      case At(fire) =>
        && |after| == |before| + 1 && after[..|before|] == before && after[|before|].fire == fire
        && (after[|before|].woken <==>
              WakeWaits(c, rounds[n]) || (fire > Asking(c, clock, rounds, n) && WakeComes(c, rounds[n])))
        && after[|before|].at - rounds[n].late ==
             (if after[|before|].woken then Asking(c, clock, rounds, n) else Max(fire, Asking(c, clock, rounds, n)))
      case _ => after == before
  {
    NoWakeIsLeft(c, clock, rounds[..n]);
    OneRoundMore(c, clock, rounds, n);
  }

  /**
   When a round asks again, over every run: after a start, the pause since; after a failing schedule the retry delay, or
   none with a wake, then the lateness and the pause.
   */
  lemma {:induction false} AsksAgain(c: Setting, clock: int, rounds: seq<Round>, n: nat)
    requires n + 1 < |rounds| && IsOn(c, clock, rounds, n)
    ensures var starts := Reached(c, Fresh(clock), rounds[..n + 1]).starts;
      match Asks(c, clock, rounds, n)
      case At(_) => starts != [] && Asking(c, clock, rounds, n + 1) == starts[|starts| - 1].at + rounds[n + 1].pause
      case Never => !IsOn(c, clock, rounds, n + 1)
      case _ =>
        Asking(c, clock, rounds, n + 1) - rounds[n].late - rounds[n + 1].pause ==
          Asking(c, clock, rounds, n) + if WakeWaits(c, rounds[n]) || WakeComes(c, rounds[n]) then 0 else c.retryDelay
  {
    NoWakeIsLeft(c, clock, rounds[..n]);
    OneRoundMore(c, clock, rounds, n);
  }

  /** What the schedule is asked with: the instant of asking, the last start, and the number of the turn. */
  lemma {:induction false} AskedWith(c: Setting, clock: int, rounds: seq<Round>, n: nat)
    requires n < |rounds| && IsOn(c, clock, rounds, n)
    ensures var starts := Reached(c, Fresh(clock), rounds[..n]).starts;
      Asks(c, clock, rounds, n) ==
        c.ask(Asking(c, clock, rounds, n), if starts == [] then None else Some(starts[|starts| - 1].at), n)
  {
    EveryRunKeeps(c, clock, rounds[..n]);
    EndsOnNeverOnly(c, clock, rounds[..n]);
  }

  /** Each job takes no longer than the interval, nothing is late, and no wake is set. */
  ghost predicate Undisturbed(rounds: seq<Round>, interval: nat) {
    forall r :: r in rounds ==> r.pause <= interval && r.wakesBefore == 0 && r.wakesAsleep == 0 && r.late == 0
  }

  /** Then `Every` without jitter runs on the beat: the n-th job at the first fire and n whole intervals. */
  lemma {:induction false} EveryIsOnTheBeat(c: Setting, clock: int, rounds: seq<Round>, interval: nat, first: Option<int>)
    requires forall now, last, n :: c.ask(now, last, n) == EveryFire(interval, first, now, last, 0)
    requires Undisturbed(rounds, interval)
    ensures var s := Reached(c, Fresh(clock), rounds);
      && !s.finished && |s.starts| == |rounds| && (rounds == [] <==> s.lastRun == None)
      && (rounds != [] ==>
            var asked := clock + rounds[0].pause;
            var begin := if first.Some? then Max(first.value, asked) else asked;
            && s.clock == begin + Lasting(interval, |rounds| - 1) && s.lastRun == Some(s.clock)
            && forall i :: 0 <= i < |rounds| ==> s.starts[i].at == begin + Lasting(interval, i))
  {
    if rounds != [] {
      var before, r := rounds[..|rounds| - 1], rounds[|rounds| - 1];
      assert forall x :: x in before ==> x in rounds;
      assert r in rounds;
      EveryIsOnTheBeat(c, clock, before, interval, first);
      NoWakeIsLeft(c, clock, before);
      if before != [] { assert before[0] == rounds[0]; }
      OneBeat(c, Reached(c, Fresh(clock), before), r, interval, first);
    }
  }

  /** One undisturbed round: the job starts at the first fire, or an interval after the last one. */
  lemma OneBeat(c: Setting, s: State, r: Round, interval: nat, first: Option<int>)
    requires forall now, last, n :: c.ask(now, last, n) == EveryFire(interval, first, now, last, 0)
    requires r.pause <= interval && r.wakesBefore == 0 && r.wakesAsleep == 0 && r.late == 0
    requires !s.finished && !s.wakeSet && (s.lastRun.Some? ==> s.lastRun.value == s.clock)
    ensures var t, asked := Turned(c, s, r), s.clock + r.pause;
      var at := if s.lastRun.Some? then s.clock + interval else if first.Some? then Max(first.value, asked) else asked;
      && !t.finished && t.clock == at && t.lastRun == Some(at) && |t.starts| == |s.starts| + 1
      && t.starts[..|s.starts|] == s.starts && t.starts[|s.starts|].at == at
  {
  }

  /** Under a schedule that keeps an interval, two starts without a wake between them are that far apart. */
  lemma {:induction false} EveryRunIsSpaced(c: Setting, clock: int, rounds: seq<Round>, interval: nat)
    requires KeepsInterval(c.ask, interval)
    ensures Spaced(Reached(c, Fresh(clock), rounds).starts, interval)
  {
    if rounds != [] {
      var before := rounds[..|rounds| - 1];
      EveryRunIsSpaced(c, clock, before, interval);
      EveryRunKeeps(c, clock, before);
    }
  }

  /** So in any window the starts number at most its whole intervals, one more, and the wakes that were set. */
  lemma RunsNeverBurst(c: Setting, clock: int, rounds: seq<Round>, interval: nat, i: nat, j: nat, window: nat)
    requires KeepsInterval(c.ask, interval) && interval > 0
    requires i <= j < |Reached(c, Fresh(clock), rounds).starts|
    requires var starts := Reached(c, Fresh(clock), rounds).starts; starts[j].at - starts[i].at <= window
    ensures j - i + 1 <= window / interval + 1 + if c.hasWake then WakesIn(rounds) else 0
  {
    var starts := Reached(c, Fresh(clock), rounds).starts;
    EveryRunIsSpaced(c, clock, rounds, interval);
    EveryRunKeeps(c, clock, rounds);
    StartsInAWindow(starts, interval, i, j, window);
    WokenInside(starts, i + 1, j + 1);
  }

  lemma {:induction false} WokenInside(starts: seq<Start>, i: nat, j: nat)
    requires i <= j <= |starts|
    ensures Woken(starts[i..j]) <= Woken(starts)
  {
    if j < |starts| {
      WokenInside(starts[..|starts| - 1], i, j);
      assert starts[..|starts| - 1][i..j] == starts[i..j];
    } else if i < j {
      WokenInside(starts[..|starts| - 1], i, j - 1);
      assert starts[i..j][..j - i - 1] == starts[i..j - 1] == starts[..|starts| - 1][i..j - 1];
      assert starts[i..j][j - i - 1] == starts[j - 1];
    }
  }

  /** How many starts took up a wake. */
  function Woken(starts: seq<Start>): nat {
    if starts == [] then 0 else Woken(starts[..|starts| - 1]) + if starts[|starts| - 1].woken then 1 else 0
  }

  /** After a run, no fire is nearer to its start than the interval. */
  ghost predicate KeepsInterval(ask: Asked, interval: nat) {
    forall now, last, n :: ask(now, Some(last), n).At? ==> ask(now, Some(last), n).instant >= last + interval
  }

  /** `Every` is such a schedule, whatever its jitter draws. */
  lemma EveryIsSuchASchedule(ask: Asked, interval: nat, first: Option<int>, draws: nat -> nat)
    requires forall now, last, n :: ask(now, last, n) == EveryFire(interval, first, now, last, draws(n))
    ensures KeepsInterval(ask, interval)
  {
  }

  ghost predicate Spaced(starts: seq<Start>, interval: nat) {
    forall i :: 0 < i < |starts| ==> starts[i].woken || starts[i].at - starts[i - 1].at >= interval
  }

  lemma WokenOneMore(starts: seq<Start>, i: nat, j: nat)
    requires i <= j < |starts|
    ensures Woken(starts[i..j + 1]) == Woken(starts[i..j]) + if starts[j].woken then 1 else 0
  {
    var run := starts[i..j + 1];
    assert run[..|run| - 1] == starts[i..j] && run[|run| - 1] == starts[j];
  }

  /** How many of the starts after i, up to j, took up no wake. */
  function Quiet(starts: seq<Start>, i: nat, j: nat): int
    requires i <= j < |starts|
  {
    j - i - Woken(starts[i + 1..j + 1])
  }

  /** So many intervals, one after another. */
  function Lasting(interval: nat, n: nat): nat {
    if n == 0 then 0 else Lasting(interval, n - 1) + interval
  }

  lemma QuietOneMore(starts: seq<Start>, i: nat, j: nat)
    requires i < j < |starts|
    ensures Quiet(starts, i, j) == Quiet(starts, i, j - 1) + if starts[j].woken then 0 else 1
  {
    WokenOneMore(starts, i + 1, j);
  }

  lemma {:induction false} SpacingAddsUp(starts: seq<Start>, interval: nat, i: nat, j: nat)
    requires Spaced(starts, interval) && Ascending(starts) && i <= j < |starts|
    ensures Quiet(starts, i, j) >= 0 && starts[j].at - starts[i].at >= Lasting(interval, Quiet(starts, i, j))
    decreases j - i
  {
    if i < j {
      SpacingAddsUp(starts, interval, i, j - 1);
      QuietOneMore(starts, i, j);
      SpacedOneMore(starts, interval, j);
    }
  }

  lemma SpacedOneMore(starts: seq<Start>, interval: nat, j: nat)
    requires Spaced(starts, interval) && Ascending(starts) && 0 < j < |starts|
    ensures starts[j].at >= starts[j - 1].at
    ensures starts[j].woken || starts[j].at - starts[j - 1].at >= interval
  {
  }

  /** The starts that fit in a window number at most its whole intervals, one more, and the wakes taken up in it. */
  lemma StartsInAWindow(starts: seq<Start>, interval: nat, i: nat, j: nat, window: nat)
    requires interval > 0 && Spaced(starts, interval) && Ascending(starts) && i <= j < |starts|
    requires starts[j].at - starts[i].at <= window
    ensures j - i + 1 <= window / interval + 1 + Woken(starts[i + 1..j + 1])
  {
    SpacingAddsUp(starts, interval, i, j);
    WholeIntervals(interval, Quiet(starts, i, j), window);
  }

  /** So many intervals fit in a window as it holds whole ones. */
  lemma WholeIntervals(interval: nat, n: nat, window: nat)
    requires interval > 0 && Lasting(interval, n) <= window
    ensures n <= window / interval
  {
    LastingIsTimes(interval, n);
    WholeQuotient(interval, n, window);
  }

  lemma {:induction false} LastingIsTimes(interval: nat, n: nat)
    ensures Lasting(interval, n) == interval * n
  {
    if n > 0 {
      LastingIsTimes(interval, n - 1);
      assert interval * n == interval * (n - 1) + interval;
    }
  }

  lemma WholeQuotient(interval: nat, n: nat, window: nat)
    requires interval > 0 && interval * n <= window
    ensures n <= window / interval
  {
    var whole := window / interval;
    assert window < interval * (whole + 1);
    if n > whole { TimesGrows(interval, whole + 1, n); }
  }

  lemma TimesGrows(k: nat, a: nat, b: nat)
    requires a <= b
    ensures k * a <= k * b
  {
  }
}
