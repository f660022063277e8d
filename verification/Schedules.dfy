/** The schedules (server/common/scheduling.py). Instants are microseconds of UTC, a date is a number of days. */
module Schedules {
  import opened Options

  const DAY := 86_400_000_000
  const MAX_SESSIONS_SCANNED := 8

  /** What a schedule answers: a fire, never again, or a failure of the calendar or of the bounded scan. */
  datatype Fire = At(instant: int) | Never | CalendarEnded | ScanExhausted

  datatype Session = Session(day: int, open: int, close: int)

  /** A calendar may end: it knows no session after its last. */
  type Calendar = seq<Session>

  datatype TradingEvent = OPEN | CLOSE

  function Date(t: int): int {
    t / DAY
  }

  function Max(a: int, b: int): int {
    if a >= b then a else b
  }

  // ---- Once and Every

  function OnceFire(at: int, now: int, lastRun: Option<int>): Fire {
    if lastRun.Some? then Never else At(Max(at, now))
  }

  /** The draw is the jitter of this fire, at least zero and less than the schedule's jitter. */
  function EveryFire(interval: int, first: Option<int>, now: int, lastRun: Option<int>, draw: int): Fire {
    var base := match lastRun
                case None => if first.None? then now else first.value
                case Some(last) => last + interval;
    At(Max(base, now) + draw)
  }

  /** A fire is never before now, and after a run never before a whole interval from its start. */
  lemma EveryKeepsItsInterval(interval: int, first: Option<int>, now: int, lastRun: Option<int>, draw: int)
    requires 0 <= draw
    ensures var fire := EveryFire(interval, first, now, lastRun, draw).instant;
      && fire >= now && (lastRun.Some? ==> fire >= lastRun.value + interval)
      && var due := match lastRun case Some(last) => last + interval case None => if first.Some? then first.value else now;
         if now >= due then fire - now == draw else fire - due == draw
  {
  }

  // ---- the calendar

  /** Sessions in order that do not overlap. */
  ghost predicate Ordered(cal: Calendar) {
    && (forall i :: 0 <= i < |cal| ==> cal[i].open <= cal[i].close)
    && (forall i, j :: 0 <= i < j < |cal| ==> cal[i].day < cal[j].day && cal[i].close <= cal[j].open)
  }

  /** No session closes after its own date. */
  ghost predicate ClosesOnItsDay(cal: Calendar) {
    forall i :: 0 <= i < |cal| ==> Date(cal[i].close) <= cal[i].day
  }

  /** The first session after a date, which need not itself be one; the length when there is none. */
  function NextSession(cal: Calendar, day: int): (k: nat)
    ensures k <= |cal|
    ensures forall i :: 0 <= i < k ==> cal[i].day <= day
    ensures k < |cal| ==> cal[k].day > day
  {
    NextFrom(cal, day, 0)
  }

  function NextFrom(cal: Calendar, day: int, n: nat): (k: nat)
    requires n <= |cal|
    ensures n <= k <= |cal|
    ensures forall i :: n <= i < k ==> cal[i].day <= day
    ensures k < |cal| ==> cal[k].day > day
    decreases |cal| - n
  {
    if n == |cal| || cal[n].day > day then n else NextFrom(cal, day, n + 1)
  }

  /** The latest session that has closed by an instant. */
  function LastCompleted(cal: Calendar, now: int): (k: Option<nat>)
    ensures k.Some? ==> k.value < |cal| && cal[k.value].close <= now
    ensures k.Some? ==> forall i :: k.value < i < |cal| ==> cal[i].close > now
    ensures k.None? ==> forall i :: 0 <= i < |cal| ==> cal[i].close > now
  {
    LastUpTo(cal, now, |cal|)
  }

  function LastUpTo(cal: Calendar, now: int, n: nat): (k: Option<nat>)
    requires n <= |cal|
    ensures k.Some? ==> k.value < n && cal[k.value].close <= now
    ensures k.Some? ==> forall i :: k.value < i < n ==> cal[i].close > now
    ensures k.None? ==> forall i :: 0 <= i < n ==> cal[i].close > now
  {
    if n == 0 then None else if cal[n - 1].close <= now then Some(n - 1) else LastUpTo(cal, now, n - 1)
  }

  function EventOf(s: Session, event: TradingEvent): int {
    if event == OPEN then s.open else s.close
  }

  /** The first fire strictly after the floor among the sessions from k on. */
  function FirstFrom(cal: Calendar, event: TradingEvent, offset: int, floor: int, k: nat): Fire
    requires k <= |cal|
    decreases |cal| - k
  {
    if k == |cal| then CalendarEnded
    else if EventOf(cal[k], event) + offset > floor then At(EventOf(cal[k], event) + offset)
    else FirstFrom(cal, event, offset, floor, k + 1)
  }

  /** What the schedule promises: the earliest event plus offset strictly after the floor, over the whole calendar. */
  function Earliest(cal: Calendar, event: TradingEvent, offset: int, floor: int): Fire {
    FirstFrom(cal, event, offset, floor, 0)
  }

  function FloorOf(now: int, lastRun: Option<int>): int {
    match lastRun case None => now case Some(last) => Max(now, last)
  }

  /** The session the scan starts from. */
  function ScanStart(cal: Calendar, target: int): (k: nat)
    ensures k <= |cal|
  {
    var last := LastCompleted(cal, target);
    if last.None? then NextSession(cal, Date(target) - 1) else NextSession(cal, cal[last.value].day)
  }

  /** The next fire: a scan of a bounded number of sessions from the first that can still close after the target. */
  method NextFire(cal: Calendar, event: TradingEvent, offset: int, now: int, lastRun: Option<int>) returns (r: Fire)
    requires Ordered(cal)
    ensures r == Answer(cal, event, offset, now, lastRun) && r != ScanExhausted
  {
    var floor := FloorOf(now, lastRun);
    r := FireFrom(cal, event, offset, floor, ScanStart(cal, floor - offset));
  }

  method FireFrom(cal: Calendar, event: TradingEvent, offset: int, floor: int, k: nat) returns (r: Fire)
    requires Ordered(cal) && k == ScanStart(cal, floor - offset)
    ensures r == FirstFrom(cal, event, offset, floor, k)
    ensures r != ScanExhausted
  {
    StartClosesLater(cal, floor - offset, k);
    r := Scan(cal, event, offset, floor, k);
  }

  /** From a session that closes after the target the scan has one more at most to look at: it opens after that close. */
  lemma ScanIsShort(cal: Calendar, event: TradingEvent, offset: int, floor: int, k: nat)
    requires Ordered(cal) && (k < |cal| ==> cal[k].close > floor - offset)
    ensures k < |cal| ==> NextSession(cal, cal[k].day) == k + 1
    ensures k + 1 < |cal| ==> EventOf(cal[k + 1], event) + offset > floor
  {
    if k < |cal| { NextIsSuccessor(cal, k); }
    if k + 1 < |cal| { assert cal[k].close <= cal[k + 1].open <= cal[k + 1].close; }
  }

  /** The scan, from a session that closes after the target. */
  method Scan(cal: Calendar, event: TradingEvent, offset: int, floor: int, start: nat) returns (r: Fire)
    requires Ordered(cal) && start <= |cal| && (start < |cal| ==> cal[start].close > floor - offset)
    ensures r == FirstFrom(cal, event, offset, floor, start)
    ensures r != ScanExhausted
  {
    var k := start;
    if k == |cal| { return CalendarEnded; }
    ScanIsShort(cal, event, offset, floor, start);
    for n := 0 to MAX_SESSIONS_SCANNED
      invariant n <= 1 && k == start + n < |cal|
      invariant FirstFrom(cal, event, offset, floor, k) == FirstFrom(cal, event, offset, floor, start)
    {
      var fire := EventOf(cal[k], event) + offset;
      FirstOrNext(cal, event, offset, floor, k);
      if fire > floor { return At(fire); }
      k := NextSession(cal, cal[k].day);
      if k == |cal| { return CalendarEnded; }
    }
    assert false;
    return ScanExhausted;
  }

  lemma FirstOrNext(cal: Calendar, event: TradingEvent, offset: int, floor: int, k: nat)
    requires k < |cal|
    ensures var fire := EventOf(cal[k], event) + offset;
      FirstFrom(cal, event, offset, floor, k) == if fire > floor then At(fire) else FirstFrom(cal, event, offset, floor, k + 1)
    ensures FirstFrom(cal, event, offset, floor, |cal|) == CalendarEnded
  {
  }

  lemma InOrder(cal: Calendar, i: nat, j: nat)
    requires Ordered(cal) && i < j < |cal|
    ensures cal[i].day < cal[j].day
  {
  }

  lemma NextIsSuccessor(cal: Calendar, k: nat)
    requires Ordered(cal) && k < |cal|
    ensures NextSession(cal, cal[k].day) == k + 1
  {
    if k + 1 < |cal| { InOrder(cal, k, k + 1); }
  }

  /** The session the scan starts from closes after the target. */
  lemma StartClosesLater(cal: Calendar, target: int, k: nat)
    requires Ordered(cal) && k == ScanStart(cal, target)
    ensures k < |cal| ==> cal[k].close > target
  {
    var last := LastCompleted(cal, target);
    if last.Some? { NextIsSuccessor(cal, last.value); }
  }

  // ---- the promise

  /** The earliest fire is one, strictly after the floor, and no session fires between; none means no session fires. */
  lemma {:induction false} EarliestIsEarliest(cal: Calendar, event: TradingEvent, offset: int, floor: int, k: nat)
    requires Ordered(cal) && k <= |cal|
    ensures match FirstFrom(cal, event, offset, floor, k)
            case At(t) =>
              && t > floor && (exists i :: k <= i < |cal| && t == EventOf(cal[i], event) + offset)
              && forall i :: k <= i < |cal| && EventOf(cal[i], event) + offset > floor ==> t <= EventOf(cal[i], event) + offset
            case _ => forall i :: k <= i < |cal| ==> EventOf(cal[i], event) + offset <= floor
    decreases |cal| - k
  {
    if k < |cal| {
      EarliestIsEarliest(cal, event, offset, floor, k + 1);
      forall i | k < i < |cal| ensures EventOf(cal[k], event) <= EventOf(cal[i], event) {
        assert cal[k].close <= cal[i].open;
      }
    }
  }

  /** An instant is the opening or the closing of a session, as the event says, plus the offset. */
  predicate IsFireOf(s: Session, event: TradingEvent, offset: int, t: int) {
    match event
    case OPEN => t - s.open == offset
    case CLOSE => t - s.close == offset
  }

  predicate AfterBoth(t: int, now: int, lastRun: Option<int>) {
    t > now && (lastRun.Some? ==> t > lastRun.value)
  }

  /** The promise: the first of all the sessions' events that is after both instants, and none only when there is none. */
  ghost predicate IsPromised(cal: Calendar, event: TradingEvent, offset: int, now: int, lastRun: Option<int>, f: Fire) {
    match f
    case At(t) =>
      && AfterBoth(t, now, lastRun) && (exists i :: 0 <= i < |cal| && IsFireOf(cal[i], event, offset, t))
      && forall i, u :: 0 <= i < |cal| && IsFireOf(cal[i], event, offset, u) && AfterBoth(u, now, lastRun) ==> t <= u
    case CalendarEnded => forall i, u :: 0 <= i < |cal| && IsFireOf(cal[i], event, offset, u) ==> !AfterBoth(u, now, lastRun)
    case _ => false
  }

  lemma EarliestKeepsThePromise(cal: Calendar, event: TradingEvent, offset: int, now: int, lastRun: Option<int>)
    requires Ordered(cal)
    ensures IsPromised(cal, event, offset, now, lastRun, Earliest(cal, event, offset, FloorOf(now, lastRun)))
  {
    var floor := FloorOf(now, lastRun);
    var e := Earliest(cal, event, offset, floor);
    EarliestIsEarliest(cal, event, offset, floor, 0);
    EarliestIsKnown(cal, event, offset, floor, 0);
    assert forall t :: AfterBoth(t, now, lastRun) <==> t > floor;
    if e.At? {
      var i :| 0 <= i < |cal| && e.instant == EventOf(cal[i], event) + offset;
      assert IsFireOf(cal[i], event, offset, e.instant);
    }
    forall i, u | 0 <= i < |cal| && IsFireOf(cal[i], event, offset, u) && AfterBoth(u, now, lastRun)
      ensures e.At? && e.instant <= u
    {
      assert u == EventOf(cal[i], event) + offset;
    }
  }

  /** One fire at most is promised. */
  lemma PromisedIsUnique(cal: Calendar, event: TradingEvent, offset: int, now: int, lastRun: Option<int>, f: Fire, g: Fire)
    requires IsPromised(cal, event, offset, now, lastRun, f) && IsPromised(cal, event, offset, now, lastRun, g)
    ensures f == g
  {
    if f.At? {
      var i :| 0 <= i < |cal| && IsFireOf(cal[i], event, offset, f.instant);
    }
    if g.At? {
      var j :| 0 <= j < |cal| && IsFireOf(cal[j], event, offset, g.instant);
    }
  }

  /** The specification's answer is what is promised, and nothing else is. */
  lemma EarliestIsPromised(cal: Calendar, event: TradingEvent, offset: int, now: int, lastRun: Option<int>, f: Fire)
    requires Ordered(cal)
    ensures IsPromised(cal, event, offset, now, lastRun, f) <==> f == Earliest(cal, event, offset, FloorOf(now, lastRun))
  {
    EarliestKeepsThePromise(cal, event, offset, now, lastRun);
    if IsPromised(cal, event, offset, now, lastRun, f) {
      PromisedIsUnique(cal, event, offset, now, lastRun, f, Earliest(cal, event, offset, FloorOf(now, lastRun)));
    }
  }

  lemma {:induction false} EarliestIsKnown(cal: Calendar, event: TradingEvent, offset: int, floor: int, k: nat)
    requires k <= |cal|
    ensures FirstFrom(cal, event, offset, floor, k).At? || FirstFrom(cal, event, offset, floor, k).CalendarEnded?
    decreases |cal| - k
  {
    if k < |cal| { EarliestIsKnown(cal, event, offset, floor, k + 1); }
  }

  /** Skipping sessions that do not fire changes nothing. */
  lemma {:induction false} SkippedDoNotFire(cal: Calendar, event: TradingEvent, offset: int, floor: int, j: nat, k: nat)
    requires j <= k <= |cal| && forall i :: j <= i < k ==> EventOf(cal[i], event) + offset <= floor
    ensures FirstFrom(cal, event, offset, floor, j) == FirstFrom(cal, event, offset, floor, k)
    decreases k - j
  {
    if j < k { SkippedDoNotFire(cal, event, offset, floor, j + 1, k); }
  }

  /** The scan passed over a session whose event still fires: nothing has closed yet, and the dates run past it. */
  predicate PassesOverAFire(cal: Calendar, event: TradingEvent, offset: int, floor: int) {
    var target := floor - offset;
    && LastCompleted(cal, target).None?
    && ScanStart(cal, target) > 0
    && EventOf(cal[ScanStart(cal, target) - 1], event) + offset > floor
  }

  /** Unless it passes over a fire, the scan finds the earliest one. */
  lemma ScanFindsTheEarliest(cal: Calendar, event: TradingEvent, offset: int, floor: int)
    requires Ordered(cal) && !PassesOverAFire(cal, event, offset, floor)
    ensures FirstFrom(cal, event, offset, floor, ScanStart(cal, floor - offset)) == Earliest(cal, event, offset, floor)
  {
    forall i | 0 <= i < ScanStart(cal, floor - offset) ensures EventOf(cal[i], event) + offset <= floor {
      SkippedIsPast(cal, event, offset, floor, i);
    }
    SkippedDoNotFire(cal, event, offset, floor, 0, ScanStart(cal, floor - offset));
  }

  /** What lies before the start of the scan is past. */
  lemma SkippedIsPast(cal: Calendar, event: TradingEvent, offset: int, floor: int, i: nat)
    requires Ordered(cal) && !PassesOverAFire(cal, event, offset, floor) && i < ScanStart(cal, floor - offset)
    ensures EventOf(cal[i], event) + offset <= floor
  {
    var target := floor - offset;
    var last, k := LastCompleted(cal, target), ScanStart(cal, target);
    if last.Some? { NextIsSuccessor(cal, last.value); }
    if i < k - 1 { assert cal[i].close <= cal[k - 1].open; }
  }

  /** A calendar whose sessions close on their own date is never passed over. */
  lemma OwnDateIsEnough(cal: Calendar, event: TradingEvent, offset: int, floor: int)
    requires Ordered(cal) && ClosesOnItsDay(cal)
    ensures !PassesOverAFire(cal, event, offset, floor)
  {
    var target := floor - offset;
    EarlierDatesAreEarlier(target);
  }

  /** So over such a calendar the schedule always names the earliest fire after both instants. */
  lemma NextFireIsTheEarliest(cal: Calendar, event: TradingEvent, offset: int, now: int, lastRun: Option<int>)
    requires Ordered(cal) && ClosesOnItsDay(cal)
    ensures IsPromised(cal, event, offset, now, lastRun, Answer(cal, event, offset, now, lastRun))
  {
    EarliestKeepsThePromise(cal, event, offset, now, lastRun);
    OwnDateIsEnough(cal, event, offset, FloorOf(now, lastRun));
    ScanFindsTheEarliest(cal, event, offset, FloorOf(now, lastRun));
  }

  lemma EarlierDatesAreEarlier(b: int)
    ensures forall a :: Date(a) < Date(b) ==> a < b
  {
  }

  /** Sessions take time, so no two have the same event instant. */
  ghost predicate Proper(cal: Calendar) {
    Ordered(cal) && forall i :: 0 <= i < |cal| ==> cal[i].open < cal[i].close
  }

  lemma ScanIsEarliestExactly(cal: Calendar, event: TradingEvent, offset: int, floor: int)
    requires Proper(cal)
    ensures FirstFrom(cal, event, offset, floor, ScanStart(cal, floor - offset)) == Earliest(cal, event, offset, floor)
            <==> !PassesOverAFire(cal, event, offset, floor)
  {
    if PassesOverAFire(cal, event, offset, floor) {
      var k := ScanStart(cal, floor - offset);
      EarliestIsDue(cal, event, offset, floor, 0, k);
      LaterStartsFireLater(cal, event, offset, floor, k - 1, k);
    } else {
      ScanFindsTheEarliest(cal, event, offset, floor);
    }
  }

  /** What the schedule answers. */
  function Answer(cal: Calendar, event: TradingEvent, offset: int, now: int, lastRun: Option<int>): Fire {
    FirstFrom(cal, event, offset, FloorOf(now, lastRun), ScanStart(cal, FloorOf(now, lastRun) - offset))
  }

  /** The schedule keeps its promise exactly when the scan passes over no fire. */
  lemma PromiseKeptExactly(cal: Calendar, event: TradingEvent, offset: int, now: int, lastRun: Option<int>)
    requires Proper(cal)
    ensures IsPromised(cal, event, offset, now, lastRun, Answer(cal, event, offset, now, lastRun)) <==>
      !PassesOverAFire(cal, event, offset, FloorOf(now, lastRun))
  {
    EarliestIsPromised(cal, event, offset, now, lastRun, Answer(cal, event, offset, now, lastRun));
    ScanIsEarliestExactly(cal, event, offset, FloorOf(now, lastRun));
  }

  lemma {:induction false} EarliestIsDue(cal: Calendar, event: TradingEvent, offset: int, floor: int, j: nat, k: nat)
    requires Ordered(cal) && j < k <= |cal| && EventOf(cal[k - 1], event) + offset > floor
    ensures FirstFrom(cal, event, offset, floor, j).At?
    ensures FirstFrom(cal, event, offset, floor, j).instant <= EventOf(cal[k - 1], event) + offset
    decreases k - j
  {
    if j < k - 1 {
      assert cal[j].close <= cal[k - 1].open;
      if EventOf(cal[j], event) + offset <= floor { EarliestIsDue(cal, event, offset, floor, j + 1, k); }
    }
  }

  lemma {:induction false} LaterStartsFireLater(cal: Calendar, event: TradingEvent, offset: int, floor: int, j: nat, k: nat)
    requires Proper(cal) && j < k <= |cal|
    ensures var r := FirstFrom(cal, event, offset, floor, k);
            r == CalendarEnded || (r.At? && r.instant > EventOf(cal[j], event) + offset)
    decreases |cal| - k
  {
    if k < |cal| {
      assert cal[j].close <= cal[k].open;
      LaterStartsFireLater(cal, event, offset, floor, j, k + 1);
    }
  }

  /** A session that closes after midnight of its date, asked for in the morning after: its close is passed over. */
  lemma NightSessionIsMissed()
    ensures var cal := [Session(0, 10, DAY + 20), Session(5, 5 * DAY, 5 * DAY + 10)];
      && Proper(cal) && PassesOverAFire(cal, CLOSE, 0, DAY + 5)
      && FirstFrom(cal, CLOSE, 0, DAY + 5, ScanStart(cal, DAY + 5)) == At(5 * DAY + 10)
      && Earliest(cal, CLOSE, 0, DAY + 5) == At(DAY + 20)
  {
    var cal := [Session(0, 10, DAY + 20), Session(5, 5 * DAY, 5 * DAY + 10)];
    assert Date(DAY + 5) == 1;
    assert LastUpTo(cal, DAY + 5, 2) == LastUpTo(cal, DAY + 5, 1) == LastUpTo(cal, DAY + 5, 0) == None;
    assert NextFrom(cal, 0, 0) == NextFrom(cal, 0, 1) == 1;
  }
}
