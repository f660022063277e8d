/** The limiter of state-changing calls: at most LIMIT of them in any rolling window. Instants are microseconds. */
module Budget {

  const LIMIT := 12
  const WINDOW := 3_600_000_000

  function Recent(calls: seq<int>, now: int): seq<int> {
    if calls == [] then []
    else (if now - calls[0] < WINDOW then [calls[0]] else []) + Recent(calls[1..], now)
  }

  class DevBudget {
    var calls: seq<int>
    /** The instants of all that asked to be charged, the refused ones among them. */
    ghost var asked: seq<int>

    constructor ()
      ensures calls == [] && asked == []
    {
      calls, asked := [], [];
    }

    /** Counts one call, or refuses it when the window already holds the limit; a refused call is not counted. */
    method Charge(now: int) returns (admitted: bool)
      modifies this
      ensures admitted == (|Recent(old(calls), now)| < LIMIT)
      ensures calls == Recent(old(calls), now) + if admitted then [now] else []
      ensures asked == old(asked) + [now]
      ensures |old(calls)| < LIMIT ==> admitted
      ensures Booked(old(calls), old(asked), calls, asked, admitted)
    {
      RecentIsNoLonger(calls, now);
      calls := Kept(calls, now);
      admitted := |calls| < LIMIT;
      if admitted {
        calls := calls + [now];
      }
      asked := asked + [now];
    }
  }

  /**
   What one call does to the limiter: it asks at most once. When it does not ask, nothing changes; when it asks, the old
   calls are pruned, and its instant is added exactly if it is charged, which it is exactly with room in the window.
   */
  ghost predicate Booked(calls: seq<int>, asked: seq<int>, calls': seq<int>, asked': seq<int>, charged: bool) {
    if asked' == asked then calls' == calls && !charged
    else
      && asked' != [] && asked' == asked + [asked'[|asked'| - 1]]
      && var now := asked'[|asked'| - 1];
         && charged == (|Recent(calls, now)| < LIMIT)
         && calls' == Recent(calls, now) + if charged then [now] else []
  }

  /** So what the limiter holds is a matter of what was asked. */
  lemma BookedHolds(calls: seq<int>, asked: seq<int>, calls': seq<int>, asked': seq<int>, charged: bool)
    requires Booked(calls, asked, calls', asked', charged) && calls == Held(asked)
    ensures calls' == Held(asked')
    ensures asked' != asked ==> asked'[..|asked'| - 1] == asked
  {
  }

  lemma {:induction false} RecentIsNoLonger(calls: seq<int>, now: int)
    ensures |Recent(calls, now)| <= |calls|
  {
    if calls != [] { RecentIsNoLonger(calls[1..], now); }
  }

  method Kept(calls: seq<int>, now: int) returns (kept: seq<int>)
    ensures kept == Recent(calls, now)
  {
    kept := [];
    for i := 0 to |calls|
      invariant kept + Recent(calls[i..], now) == Recent(calls, now)
    {
      RecentFrom(calls, i, now);
      ghost var rest := Recent(calls[i + 1..], now);
      if now - calls[i] < WINDOW {
        Regroup(kept, [calls[i]], rest);
        kept := kept + [calls[i]];
      } else {
        assert [] + rest == rest;
      }
    }
  }

  lemma RecentFrom(calls: seq<int>, i: nat, now: int)
    requires i < |calls|
    ensures Recent(calls[i..], now) == (if now - calls[i] < WINDOW then [calls[i]] else []) + Recent(calls[i + 1..], now)
  {
    assert calls[i..][1..] == calls[i + 1..];
  }

  lemma Regroup(a: seq<int>, b: seq<int>, c: seq<int>)
    ensures a + (b + c) == (a + b) + c
  {
  }

  // ---- whole histories

  ghost predicate Monotone(times: seq<int>) {
    forall i, j :: 0 <= i < j < |times| ==> times[i] <= times[j]
  }

  /** What the limiter holds after calls at the given instants. */
  function Held(times: seq<int>): seq<int> {
    if times == [] then []
    else
      var now := times[|times| - 1];
      var recent := Recent(Held(times[..|times| - 1]), now);
      if |recent| < LIMIT then recent + [now] else recent
  }

  /** The admitted instants when nothing is ever forgotten. */
  function Admitted(times: seq<int>): seq<int> {
    if times == [] then []
    else
      var now := times[|times| - 1];
      var before := Admitted(times[..|times| - 1]);
      if |Recent(before, now)| < LIMIT then before + [now] else before
  }

  /** Of ordered instants the recent ones are a suffix. */
  lemma {:induction false} RecentIsSuffix(calls: seq<int>, now: int) returns (k: nat)
    requires Monotone(calls)
    ensures k <= |calls| && Recent(calls, now) == calls[k..]
    ensures forall i :: 0 <= i < k ==> now - calls[i] >= WINDOW
    ensures forall i :: k <= i < |calls| ==> now - calls[i] < WINDOW
  {
    k := 0;
    while k < |calls| && now - calls[k] >= WINDOW
      invariant k <= |calls| && Recent(calls, now) == Recent(calls[k..], now)
      invariant forall i :: 0 <= i < k ==> now - calls[i] >= WINDOW
    {
      assert calls[k..][1..] == calls[k + 1..];
      k := k + 1;
    }
    AllRecent(calls[k..], now);
  }

  lemma {:induction false} AllRecent(calls: seq<int>, now: int)
    requires forall i :: 0 <= i < |calls| ==> now - calls[i] < WINDOW
    ensures Recent(calls, now) == calls
  {
    if calls != [] { AllRecent(calls[1..], now); }
  }

  lemma {:induction false} AdmittedIsOrdered(times: seq<int>)
    requires Monotone(times)
    ensures Monotone(Admitted(times))
    ensures forall a :: a in Admitted(times) ==> a in times
  {
    if times != [] {
      var earlier := times[..|times| - 1];
      AdmittedIsOrdered(earlier);
      forall i | 0 <= i < |Admitted(earlier)| ensures Admitted(earlier)[i] <= times[|times| - 1] {
        assert Admitted(earlier)[i] in Admitted(earlier);
      }
    }
  }

  /** Forgetting an old call never changes a later decision: the limiter holds the recent part of all it admitted. */
  lemma {:induction false} PruningChangesNothing(times: seq<int>)
    requires Monotone(times)
    ensures times != [] ==> Held(times) == Recent(Admitted(times), times[|times| - 1])
    ensures forall now :: (forall t :: t in times ==> t <= now) ==> Recent(Held(times), now) == Recent(Admitted(times), now)
  {
    if times != [] {
      var now, earlier := times[|times| - 1], times[..|times| - 1];
      PruningChangesNothing(earlier);
      AdmittedIsOrdered(earlier);
      var before := Admitted(earlier);
      assert Recent(Held(earlier), now) == Recent(before, now);
      var k := RecentIsSuffix(before, now);
      if |Recent(before, now)| < LIMIT {
        RecentAppends(before, now, now);
      }
      forall later | forall t :: t in times ==> t <= later
        ensures Recent(Held(times), later) == Recent(Admitted(times), later)
      {
        assert now in times;
        RecentTwice(Admitted(times), now, later);
      }
    }
  }

  lemma {:induction false} RecentAppends(calls: seq<int>, last: int, now: int)
    ensures Recent(calls + [last], now) == Recent(calls, now) + if now - last < WINDOW then [last] else []
  {
    if calls != [] {
      assert (calls + [last])[1..] == calls[1..] + [last];
      RecentAppends(calls[1..], last, now);
    }
  }

  lemma {:induction false} RecentTwice(calls: seq<int>, now: int, later: int)
    requires now <= later
    ensures Recent(Recent(calls, now), later) == Recent(calls, later)
  {
    if calls != [] {
      RecentTwice(calls[1..], now, later);
      var rest := Recent(calls[1..], now);
      assert Recent(calls, now) == (if now - calls[0] < WINDOW then [calls[0]] else []) + rest;
      if now - calls[0] < WINDOW {
        assert ([calls[0]] + rest)[1..] == rest;
      } else {
        assert [] + rest == rest;
      }
    }
  }

  /** Two admitted calls with LIMIT - 1 between them lie a whole window apart: no window holds more than LIMIT. */
  lemma {:induction false} AtMostTwelveInAnyWindow(times: seq<int>, i: nat)
    requires Monotone(times) && i + LIMIT < |Admitted(times)|
    ensures Admitted(times)[i + LIMIT] - Admitted(times)[i] >= WINDOW
  {
    var now, earlier := times[|times| - 1], times[..|times| - 1];
    var before := Admitted(earlier);
    if i + LIMIT < |before| {
      AtMostTwelveInAnyWindow(earlier, i);
    } else {
      AdmittedIsOrdered(earlier);
      var k := RecentIsSuffix(before, now);
      assert Recent(before, now) == before[k..];
    }
  }

  /** A call is refused exactly when the twelve last admitted calls all lie within the window before it. */
  lemma RefusedWhenTwelveRecent(times: seq<int>, now: int)
    requires Monotone(times + [now])
    ensures var a := Admitted(times);
            Admitted(times + [now]) == a <==> |a| >= LIMIT && now - a[|a| - LIMIT] < WINDOW
  {
    var a := Admitted(times);
    assert (times + [now])[..|times|] == times;
    assert Monotone(times) by {
      forall i, j | 0 <= i < j < |times| ensures times[i] <= times[j] {
        assert (times + [now])[i] <= (times + [now])[j];
      }
    }
    AdmittedIsOrdered(times);
    var k := RecentIsSuffix(a, now);
    assert |Recent(a, now)| == |a| - k;
  }

  /** What a call adds to the instants admitted is what it was charged for, though the limiter has forgotten most of them. */
  lemma BookedIsAdmitted(calls: seq<int>, asked: seq<int>, calls': seq<int>, asked': seq<int>, charged: bool)
    requires Booked(calls, asked, calls', asked', charged) && calls == Held(asked) && Monotone(asked')
    ensures Monotone(asked)
    ensures Admitted(asked') == Admitted(asked) + if charged then [asked'[|asked'| - 1]] else []
  {
    if asked' != asked {
      var now := asked'[|asked'| - 1];
      assert asked'[..|asked'| - 1] == asked;
      forall i, j | 0 <= i < j < |asked| ensures asked[i] <= asked[j] {
        assert asked'[i] <= asked'[j];
      }
      forall t | t in asked ensures t <= now {
        var i :| 0 <= i < |asked| && asked[i] == t;
        assert asked'[i] <= now;
      }
      PruningChangesNothing(asked);
    }
  }

  ghost predicate AtMostLimit(charged: seq<int>) {
    forall i: nat :: i + LIMIT < |charged| ==> charged[i + LIMIT] - charged[i] >= WINDOW
  }

  lemma AdmittedIsAtMostLimit(asked: seq<int>)
    requires Monotone(asked)
    ensures AtMostLimit(Admitted(asked))
  {
    forall i: nat | i + LIMIT < |Admitted(asked)| ensures Admitted(asked)[i + LIMIT] - Admitted(asked)[i] >= WINDOW {
      AtMostTwelveInAnyWindow(asked, i);
    }
  }
}
