/** What a fetch yields, and how its bars are cut into pages. */
module FetchEvents {
  import opened Options

  const MAX_PAGE_BARS := 5000

  datatype Feed = IEX | SIP

  datatype VendorBar =
    VendorBar(timestamp: int, open: real, high: real, low: real, close: real, volume: real,
              tradeCount: Option<int>, vwap: Option<real>)

  datatype Bar =
    Bar(barStart: int, open: real, high: real, low: real, close: real, volume: real,
        tradeCount: Option<int>, vwap: Option<real>, feed: Feed)

  datatype Done = FetchDone(barCount: nat, start: int, end: int, asOf: int)

  datatype Event = Accepted(feed: Feed) | Page(bars: seq<Bar>) | Ended(done: Done)

  /** A vendor's bar on the feed resolved for the whole fetch. */
  function Stamp(b: VendorBar, feed: Feed): Bar {
    Bar(b.timestamp, b.open, b.high, b.low, b.close, b.volume, b.tradeCount, b.vwap, feed)
  }

  function Stamped(bars: seq<VendorBar>, feed: Feed): (r: seq<Bar>)
    ensures |r| == |bars| && forall i :: 0 <= i < |bars| ==> r[i] == Stamp(bars[i], feed)
  {
    seq(|bars|, i requires 0 <= i < |bars| => Stamp(bars[i], feed))
  }

  /** The bar is the vendor's, value by value, on that feed. */
  predicate Carries(b: Bar, v: VendorBar, feed: Feed) {
    && b.feed == feed && b.barStart == v.timestamp && b.open == v.open && b.high == v.high && b.low == v.low
    && b.close == v.close && b.volume == v.volume && b.tradeCount == v.tradeCount && b.vwap == v.vwap
  }

  ghost predicate AllCarry(bars: seq<Bar>, vendors: seq<VendorBar>, feed: Feed) {
    |bars| <= |vendors| && forall i :: 0 <= i < |bars| ==> Carries(bars[i], vendors[i], feed)
  }

  lemma StampedCarries(vendors: seq<VendorBar>, feed: Feed)
    ensures AllCarry(Stamped(vendors, feed), vendors, feed)
  {
  }

  /** The pages of a run of bars: full ones, and a last one with what is left. */
  function Pages(bars: seq<Bar>): seq<Event>
    decreases |bars|
  {
    if bars == [] then []
    else if |bars| <= MAX_PAGE_BARS then [Page(bars)]
    else [Page(bars[..MAX_PAGE_BARS])] + Pages(bars[MAX_PAGE_BARS..])
  }

  function Concat(events: seq<Event>): seq<Bar> {
    if events == [] then []
    else (if events[0].Page? then events[0].bars else []) + Concat(events[1..])
  }

  /** The pages hold the bars in order, none is empty or too long, and only the last can fall short. */
  lemma {:induction false} PagesHoldTheBars(bars: seq<Bar>)
    ensures Concat(Pages(bars)) == bars
    ensures forall i :: 0 <= i < |Pages(bars)| ==>
              && Pages(bars)[i].Page? && 0 < |Pages(bars)[i].bars| <= MAX_PAGE_BARS
              && (i < |Pages(bars)| - 1 ==> |Pages(bars)[i].bars| == MAX_PAGE_BARS)
    decreases |bars|
  {
    if bars != [] {
      if |bars| <= MAX_PAGE_BARS {
        assert Pages(bars)[1..] == [];
      } else {
        PagesHoldTheBars(bars[MAX_PAGE_BARS..]);
        assert Pages(bars)[1..] == Pages(bars[MAX_PAGE_BARS..]);
        assert bars == bars[..MAX_PAGE_BARS] + bars[MAX_PAGE_BARS..];
      }
    }
  }

  /** Whole pages followed by more bars are the pages of all. */
  lemma {:induction false} WholePagesFirst(a: seq<Bar>, b: seq<Bar>)
    requires |a| % MAX_PAGE_BARS == 0
    ensures Pages(a + b) == Pages(a) + Pages(b)
    decreases |a|
  {
    if a == [] {
      assert a + b == b;
    } else {
      var page, rest := a[..MAX_PAGE_BARS], a[MAX_PAGE_BARS..];
      WholePagesFirst(rest, b);
      PagesCons(a);
      PagesCons(a + b);
      assert (a + b)[..MAX_PAGE_BARS] == page && (a + b)[MAX_PAGE_BARS..] == rest + b;
      assert [Page(page)] + (Pages(rest) + Pages(b)) == ([Page(page)] + Pages(rest)) + Pages(b);
    }
  }

  lemma PagesCons(bars: seq<Bar>)
    requires |bars| >= MAX_PAGE_BARS
    ensures Pages(bars) == [Page(bars[..MAX_PAGE_BARS])] + Pages(bars[MAX_PAGE_BARS..])
  {
    if |bars| == MAX_PAGE_BARS { assert bars[..MAX_PAGE_BARS] == bars && bars[MAX_PAGE_BARS..] == []; }
  }

  lemma {:induction false} ConcatAdds(a: seq<Event>, b: seq<Event>)
    ensures Concat(a + b) == Concat(a) + Concat(b)
  {
    if a == [] {
      assert a + b == b;
    } else {
      ConcatAdds(a[1..], b);
      assert (a + b)[1..] == a[1..] + b && (a + b)[0] == a[0];
      AppendTwice(if a[0].Page? then a[0].bars else [], Concat(a[1..]), Concat(b));
    }
  }

  lemma AppendTwice(x: seq<Bar>, y: seq<Bar>, z: seq<Bar>)
    ensures x + (y + z) == (x + y) + z
  {
  }

  lemma {:induction false} PagesAreOnTheFeed(bars: seq<Bar>, feed: Feed)
    requires forall b :: b in bars ==> b.feed == feed
    ensures forall p :: p in Pages(bars) ==> p.Page? && |p.bars| <= MAX_PAGE_BARS && forall b :: b in p.bars ==> b.feed == feed
    decreases |bars|
  {
    if |bars| > MAX_PAGE_BARS { PagesAreOnTheFeed(bars[MAX_PAGE_BARS..], feed); }
  }
}
