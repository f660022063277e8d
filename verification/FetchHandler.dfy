/**
 The domain side of one fetch (server/routers/data_ingest/fetch_dataset_handler.py): what is refused before the vendor
 is asked, the paging, and the one close of the bars on every way out.
 */
module FetchHandler {
  import opened Options
  import opened Vocabulary
  import opened FetchEvents

  datatype DataType = BAR | QUOTE | TRADE
  datatype AssetType = STOCK | CRYPTO | OPTION

  datatype Request = Request(dataTypes: seq<DataType>, assetType: AssetType, source: string)

  /** How a source breaks off: with an error of the vocabulary, with any other exception, or because it is cancelled. */
  datatype Failure = FailsWith(error: TraderJoeError) | FailsOtherwise | IsCancelled

  /** What a reader answers: a failure, or bars that end well or break off; or it breaks off itself. */
  datatype Response =
    | Bars(feed: Feed, bars: seq<VendorBar>, failure: Option<Failure>, start: int, end: int, asOf: int)
    | BarsFailure(error: TraderJoeError)
    | NoAnswer(cause: Failure)

  /** How the generator ends; the consumer can stop it at any of its yields. */
  datatype HandlerEnd = Completed | Stopped | RaisedError(error: TraderJoeError) | RaisedOther | WasCancelled

  /** Whatever breaks the source off leaves the handler unchanged. */
  function EndOf(f: Failure): HandlerEnd {
    match f
    case FailsWith(e) => RaisedError(e)
    case FailsOtherwise => RaisedOther
    case IsCancelled => WasCancelled
  }

  function Invalid(reason: Reason, detail: string): TraderJoeError {
    TraderJoeError(InvalidRequestError, reason, detail, map[], None)
  }

  /** What can be refused before any vendor call. */
  function Refusal(r: Request): Option<TraderJoeError> {
    if r.dataTypes == [] then Some(Invalid(INVALID_REQUEST, "data_types must not be empty"))
    else if QUOTE in r.dataTypes then Some(Invalid(UNSUPPORTED_ASSET_TYPE, "Quotes are not supported yet: data_type=QUOTE"))
    else if TRADE in r.dataTypes then Some(Invalid(UNSUPPORTED_ASSET_TYPE, "Trades are not supported yet: data_type=TRADE"))
    else if r.assetType != STOCK then Some(Invalid(UNSUPPORTED_ASSET_TYPE, "this asset type is not supported yet"))
    else None
  }

  /** Every early refusal is an error that can cross the hop, and tells of a request with something other than stock bars. */
  lemma RefusedUnlessStockBars(r: Request)
    ensures Refusal(r).None? <==> r.assetType == STOCK && r.dataTypes != [] && forall d :: d in r.dataTypes ==> d == BAR
    ensures Refusal(r).Some? ==> Valid(Refusal(r).value) && Reasons(Refusal(r).value.reason).code == Some(INVALID_ARGUMENT)
    ensures Refusal(r).Some? ==> Refusal(r).value.reason == if r.dataTypes == [] then INVALID_REQUEST else UNSUPPORTED_ASSET_TYPE
  {
    if Refusal(r).Some? { InvalidIsValid(Refusal(r).value.reason, Refusal(r).value.detail); }
  }

  lemma InvalidIsValid(reason: Reason, detail: string)
    requires reason in {INVALID_REQUEST, UNSUPPORTED_ASSET_TYPE}
    ensures Valid(Invalid(reason, detail)) && Reasons(reason).code == Some(INVALID_ARGUMENT)
  {
  }

  /** All that a response makes the handler yield when it is not stopped. */
  function Script(r: Response): seq<Event>
    requires r.Bars?
  {
    var all := Stamped(r.bars, r.feed);
    [Accepted(r.feed)] +
    if r.failure.None? then Pages(all) + [Ended(FetchDone(|all|, r.start, r.end, r.asOf))]
    else Pages(all[..|all| - |all| % MAX_PAGE_BARS])
  }

  /** A finished fetch delivers the vendor's bars, every one and in order, and says how many. */
  lemma ScriptConserves(r: Response)
    requires r.Bars? && r.failure.None?
    ensures Concat(Script(r)) == Stamped(r.bars, r.feed)
    ensures |Concat(Script(r))| == |r.bars| && AllCarry(Concat(Script(r)), r.bars, r.feed)
    ensures Script(r)[|Script(r)| - 1] == Ended(FetchDone(|Concat(Script(r))|, r.start, r.end, r.asOf))
  {
    var all := Stamped(r.bars, r.feed);
    var tail := [Ended(FetchDone(|all|, r.start, r.end, r.asOf))];
    StampedCarries(r.bars, r.feed);
    PagesHoldTheBars(all);
    ConcatAdds(Pages(all), tail);
    assert Concat(tail) == [] by { assert tail[1..] == []; }
    assert Script(r)[1..] == Pages(all) + tail;
  }

  /** A fetch whose source fails delivers a prefix of its bars, short by less than a page. */
  lemma FailedScriptIsAPrefix(r: Response)
    requires r.Bars? && r.failure.Some?
    ensures Concat(Script(r)) <= Stamped(r.bars, r.feed) && AllCarry(Concat(Script(r)), r.bars, r.feed)
    ensures |r.bars| - |Concat(Script(r))| < MAX_PAGE_BARS
    ensures Script(r) <= Script(r.(failure := None))
  {
    var all := Stamped(r.bars, r.feed);
    var whole := |all| - |all| % MAX_PAGE_BARS;
    StampedCarries(r.bars, r.feed);
    WholeCount(|all|);
    PagesHoldTheBars(all[..whole]);
    assert Script(r)[1..] == Pages(all[..whole]);
    WholePagesFirst(all[..whole], all[whole..]);
    assert all[..whole] + all[whole..] == all;
  }

  lemma WholeCount(n: nat)
    ensures (n - n % MAX_PAGE_BARS) % MAX_PAGE_BARS == 0
  {
  }

  class Fetching {
    /** Whether the consumer goes on after the n-th event. */
    const wants: nat -> bool
    var emitted: seq<Event>
    var asked: bool
    var closes: nat

    constructor (wants: nat -> bool)
      ensures this.wants == wants && emitted == [] && !asked && closes == 0
    {
      this.wants, emitted, asked, closes := wants, [], false, 0;
    }

    method Yield(e: Event) returns (go: bool)
      modifies this`emitted
      ensures emitted == old(emitted) + [e] && go == wants(|emitted|)
    {
      emitted := emitted + [e];
      go := wants(|emitted|);
    }

    /** The part between the accepted event and the end of the bars. */
    method Drain(r: Response) returns (end: HandlerEnd)
      requires r.Bars? && emitted == []
      modifies this`emitted
      ensures end == Completed ==> r.failure.None? && emitted == Script(r)[..|Script(r)| - 1]
      ensures end !in {Completed, Stopped} ==> r.failure.Some? && end == EndOf(r.failure.value) && emitted == Script(r)
      ensures end == Stopped ==> emitted != [] && emitted <= Script(r) && !wants(|emitted|)
    {
      var go := Yield(Accepted(r.feed));
      if !go { return Stopped; }
      end := DrainPages(r);
    }

    method DrainPages(r: Response) returns (end: HandlerEnd)
      requires r.Bars? && emitted == [Accepted(r.feed)] && wants(1)
      modifies this`emitted
      ensures end == Completed ==> r.failure.None? && emitted == Script(r)[..|Script(r)| - 1]
      ensures end !in {Completed, Stopped} ==> r.failure.Some? && end == EndOf(r.failure.value) && emitted == Script(r)
      ensures end == Stopped ==> emitted != [] && emitted <= Script(r) && !wants(|emitted|)
    {
      ghost var all := Stamped(r.bars, r.feed);
      var total := 0;
      var batch: seq<Bar> := [];
      ghost var paged := 0;
      while total < |r.bars|
        invariant paged <= total <= |r.bars| && paged % MAX_PAGE_BARS == 0 && |batch| < MAX_PAGE_BARS
        invariant batch == all[paged..total]
        invariant emitted == [Accepted(r.feed)] + Pages(all[..paged])
        invariant forall n :: 1 <= n <= |emitted| ==> wants(n)
      {
        StampedNext(r, paged, total);
        batch := batch + [Stamp(r.bars[total], r.feed)];
        total := total + 1;
        if |batch| >= MAX_PAGE_BARS {
          var go := YieldPage(r, paged, batch);
          if !go { return Stopped; }
          paged := total;
          batch := [];
        }
      }
      assert batch == all[paged..];
      end := LastPage(r, paged, batch);
    }

    /** A full page. */
    method YieldPage(r: Response, ghost paged: nat, batch: seq<Bar>) returns (go: bool)
      requires r.Bars? && paged % MAX_PAGE_BARS == 0 && paged + MAX_PAGE_BARS <= |r.bars|
      requires batch == Stamped(r.bars, r.feed)[paged..paged + MAX_PAGE_BARS]
      requires emitted == [Accepted(r.feed)] + Pages(Stamped(r.bars, r.feed)[..paged])
      modifies this`emitted
      ensures emitted == [Accepted(r.feed)] + Pages(Stamped(r.bars, r.feed)[..paged + MAX_PAGE_BARS])
      ensures emitted == old(emitted) + [Page(batch)] && emitted <= Script(r) && go == wants(|emitted|)
    {
      PageIsNext(r, paged, batch);
      go := Yield(Page(batch));
    }

    /** The end of the bars: the source's failure, or what is left of the batch. */
    method LastPage(r: Response, ghost paged: nat, batch: seq<Bar>) returns (end: HandlerEnd)
      requires r.Bars? && paged % MAX_PAGE_BARS == 0 && paged <= |r.bars| < paged + MAX_PAGE_BARS
      requires batch == Stamped(r.bars, r.feed)[paged..]
      requires emitted == [Accepted(r.feed)] + Pages(Stamped(r.bars, r.feed)[..paged])
      modifies this`emitted
      ensures end == Completed ==> r.failure.None? && emitted == Script(r)[..|Script(r)| - 1]
      ensures end !in {Completed, Stopped} ==> r.failure.Some? && end == EndOf(r.failure.value) && emitted == Script(r)
      ensures end == Stopped ==> emitted != [] && emitted <= Script(r) && !wants(|emitted|)
    {
      LastPageIsNext(r, paged, batch);
      if r.failure.Some? { return EndOf(r.failure.value); }
      if batch != [] {
        var go := Yield(Page(batch));
        if !go { return Stopped; }
      }
      return Completed;
    }

    /**
     One fetch. Before the vendor is asked nothing is opened; once it answers with bars they are closed exactly once,
     whether they run out, break off in any way, or the consumer stops.
     */
    method Fetch(request: Request, readers: map<string, Response>) returns (end: HandlerEnd)
      requires emitted == [] && !asked && closes == 0
      modifies this
      ensures Refusal(request).Some? ==> end == RaisedError(Refusal(request).value)
      ensures Refusal(request).None? && request.source !in readers ==> end == RaisedOther
      ensures asked <==> Refusal(request).None? && request.source in readers
      ensures !asked ==> emitted == [] && closes == 0
      ensures asked && readers[request.source].BarsFailure? ==>
                end == RaisedError(readers[request.source].error) && emitted == [] && closes == 0
      ensures asked && readers[request.source].NoAnswer? ==>
                end == EndOf(readers[request.source].cause) && emitted == [] && closes == 0
      ensures asked && readers[request.source].Bars? ==>
                var r := readers[request.source];
                && closes == 1 && emitted <= Script(r)
                && (end == Completed ==> emitted == Script(r) && r.failure.None?)
                && (end !in {Completed, Stopped} ==> emitted == Script(r) && r.failure.Some? && end == EndOf(r.failure.value))
                && (end == Stopped ==> emitted != [] && !wants(|emitted|))
                && ((forall n: nat :: n <= |Script(r)| ==> wants(n)) ==> end != Stopped)
    {
      var refusal := Refusal(request);
      if refusal.Some? { return RaisedError(refusal.value); }
      if request.source !in readers { return RaisedOther; }
      asked := true;
      var r := readers[request.source];
      if r.BarsFailure? { return RaisedError(r.error); }
      if r.NoAnswer? { return EndOf(r.cause); }
      end := Drain(r);
      closes := closes + 1;
      if end == Completed {
        var last := Ended(FetchDone(|r.bars|, r.start, r.end, r.asOf));
        assert Script(r)[..|Script(r)| - 1] + [last] == Script(r);
        var go := Yield(last);
        if !go { return Stopped; }
      }
    }
  }

  lemma StampedNext(r: Response, paged: nat, total: nat)
    requires r.Bars? && paged <= total < |r.bars|
    ensures var all := Stamped(r.bars, r.feed);
      all[paged..total] + [Stamp(r.bars[total], r.feed)] == all[paged..total + 1]
  {
  }

  lemma PageIsNext(r: Response, paged: nat, batch: seq<Bar>)
    requires r.Bars? && paged % MAX_PAGE_BARS == 0 && paged + MAX_PAGE_BARS <= |r.bars|
    requires batch == Stamped(r.bars, r.feed)[paged..paged + MAX_PAGE_BARS]
    ensures var all := Stamped(r.bars, r.feed);
      && Pages(all[..paged + MAX_PAGE_BARS]) == Pages(all[..paged]) + [Page(batch)]
      && [Accepted(r.feed)] + Pages(all[..paged]) + [Page(batch)] <= Script(r)
  {
    var all := Stamped(r.bars, r.feed);
    var next := paged + MAX_PAGE_BARS;
    assert all[..paged] + batch == all[..next];
    WholePagesFirst(all[..paged], batch);
    var cut := if r.failure.None? then |all| else |all| - |all| % MAX_PAGE_BARS;
    NextWholeFits(|all|, paged);
    WholePagesFirst(all[..next], all[next..cut]);
    assert all[..next] + all[next..cut] == all[..cut];
    assert all[..|all|] == all;
  }

  lemma NextWholeFits(n: nat, paged: nat)
    requires paged % MAX_PAGE_BARS == 0 && paged + MAX_PAGE_BARS <= n
    ensures paged + MAX_PAGE_BARS <= n - n % MAX_PAGE_BARS && (paged + MAX_PAGE_BARS) % MAX_PAGE_BARS == 0
  {
  }

  lemma LastPageIsNext(r: Response, paged: nat, batch: seq<Bar>)
    requires r.Bars? && paged % MAX_PAGE_BARS == 0 && paged <= |r.bars| < paged + MAX_PAGE_BARS
    requires batch == Stamped(r.bars, r.feed)[paged..]
    ensures var all := Stamped(r.bars, r.feed);
      && (r.failure.Some? ==> [Accepted(r.feed)] + Pages(all[..paged]) == Script(r))
      && (r.failure.None? ==>
            [Accepted(r.feed)] + Pages(all[..paged]) + (if batch == [] then [] else [Page(batch)]) ==
            Script(r)[..|Script(r)| - 1])
  {
    var all := Stamped(r.bars, r.feed);
    assert all[..paged] + batch == all;
    WholePagesFirst(all[..paged], batch);
    assert |all| - |all| % MAX_PAGE_BARS == paged;
  }
}
