/**
 The two ends of the fetch stream: the servicer that encodes a handler's events (server/common/rpc/ingest.py), and the
 client that enforces the grammar of what it is sent (server/common/rpc/clients/ingest_fetch.py).
 */
module FetchHop {
  import opened Options
  import opened Vocabulary
  import opened ErrorHop
  import opened FetchEvents
  import opened FetchHandler

  datatype Message =
    | AckAccepted(feed: Feed)
    | AckRefused(reason: WireReason, domain: string, detail: string, metadata: map<string, string>)
    | PageMessage(bars: seq<Bar>)
    | DoneMessage(done: Done)
    | NoEvent

  /** How the servicer's generator ends: well, by an exception that escapes to the boundary, or let
   *  through because the client stopped it or it was cancelled. */
  datatype ServeEnd = ServedWell | Escapes(exc: Raised) | ClientLeft

  // ---- the servicer

  /** The encoder refuses a page that is too long or holds a bar on another feed. */
  predicate Encodable(bars: seq<Bar>, feed: Feed) {
    |bars| <= MAX_PAGE_BARS && forall b :: b in bars ==> b.feed == feed
  }

  function Refused(e: TraderJoeError, minted: string): Message {
    AckRefused(Known(e.reason), DOMAIN, e.detail, WireMetadata(e, minted))
  }

  class Servicer {
    var encoder: Option<Feed>
    var wire: seq<Message>

    constructor ()
      ensures encoder == None && wire == []
    {
      encoder, wire := None, [];
    }

    /** Puts one event on the wire; false when it cannot be, which is a mapping error. */
    method OnEvent(e: Event) returns (ok: bool)
      modifies this
      ensures ok == match e
                    case Accepted(_) => old(encoder).None?
                    case Page(bars) => old(encoder).Some? && Encodable(bars, old(encoder).value)
                    case Ended(_) => old(encoder).Some?
      ensures ok ==> wire == old(wire) + [EncodedAs(e)] && encoder == if e.Accepted? then Some(e.feed) else old(encoder)
      ensures !ok ==> wire == old(wire) && encoder == old(encoder)
    {
      if e.Accepted? {
        if encoder.Some? { return false; }
        encoder := Some(e.feed);
        wire := wire + [AckAccepted(e.feed)];
        return true;
      }
      if encoder.None? { return false; }
      if e.Page? {
        if !Encodable(e.bars, encoder.value) { return false; }
        wire := wire + [PageMessage(e.bars)];
      } else {
        wire := wire + [DoneMessage(e.done)];
      }
      return true;
    }

    /** Serves whatever a handler yields and however it ends. */
    method Serve(events: seq<Event>, ending: HandlerEnd, minted: string) returns (end: ServeEnd)
      requires encoder == None && wire == []
      modifies this
      ensures (wire, end) == Served(events, ending, minted)
      ensures Grammatical(wire)
    {
      var n := 0;
      while n < |events|
        invariant n <= |events| && wire == Encoded(events[..n]) && WellPlaced(events[..n])
        invariant encoder == FeedOf(events[..n])
      {
        PlacedOneByOne(events, n);
        var ok := OnEvent(events[n]);
        if !ok {
          PlacedUpTo(events, n);
          return Escapes(OtherException);
        }
        n := n + 1;
      }
      assert events[..n] == events;
      PlacedUpTo(events, n);
      match ending
      case Completed => return ServedWell;
      case Stopped => return ClientLeft;
      case WasCancelled => return ClientLeft;
      case RaisedOther => return Escapes(OtherException);
      case RaisedError(error) =>
        assert encoder.None? ==> events == [];
        if encoder.Some? || error.reason != FEED_NOT_AVAILABLE { return Escapes(Vocab(error, false)); }
        wire := wire + [Refused(error, minted)];
        assert wire == [Refused(error, minted)];
        return ServedWell;
    }
  }

  function EncodedAs(e: Event): Message {
    match e
    case Accepted(feed) => AckAccepted(feed)
    case Page(bars) => PageMessage(bars)
    case Ended(done) => DoneMessage(done)
  }

  function Encoded(events: seq<Event>): (r: seq<Message>)
    ensures |r| == |events|
  {
    seq(|events|, i requires 0 <= i < |events| => EncodedAs(events[i]))
  }

  /** The feed the first event settles. */
  function FeedOf(events: seq<Event>): Option<Feed> {
    if events != [] && events[0].Accepted? then Some(events[0].feed) else None
  }

  /** The one accepted event comes first, and every page is encodable on its feed. */
  ghost predicate WellPlaced(events: seq<Event>) {
    events != [] ==>
      && events[0].Accepted?
      && (forall i :: 0 < i < |events| ==> !events[i].Accepted?)
      && (forall i :: 0 < i < |events| && events[i].Page? ==> Encodable(events[i].bars, events[0].feed))
  }

  /** How many events can be put on the wire. */
  ghost function Placeable(events: seq<Event>, n: nat): (k: nat)
    requires n <= |events|
    ensures k <= n && WellPlaced(events[..k])
  {
    if WellPlaced(events[..n]) then n else assert events[..0] == []; Placeable(events, n - 1)
  }

  /** What a servicer sends for a handler's events and ending. */
  ghost function Served(events: seq<Event>, ending: HandlerEnd, minted: string): (seq<Message>, ServeEnd) {
    var k := Placeable(events, |events|);
    if k < |events| then (Encoded(events[..k]), Escapes(OtherException))
    else match ending
      case Completed => (Encoded(events), ServedWell)
      case Stopped => (Encoded(events), ClientLeft)
      case WasCancelled => (Encoded(events), ClientLeft)
      case RaisedOther => (Encoded(events), Escapes(OtherException))
      case RaisedError(e) =>
        if events == [] && e.reason == FEED_NOT_AVAILABLE then ([Refused(e, minted)], ServedWell)
        else (Encoded(events), Escapes(Vocab(e, false)))
  }

  lemma PlacedOneByOne(events: seq<Event>, n: nat)
    requires n < |events| && WellPlaced(events[..n])
    ensures WellPlaced(events[..n + 1]) <==>
            match events[n]
            case Accepted(_) => FeedOf(events[..n]).None?
            case Page(bars) => FeedOf(events[..n]).Some? && Encodable(bars, FeedOf(events[..n]).value)
            case Ended(_) => FeedOf(events[..n]).Some?
    ensures Encoded(events[..n + 1]) == Encoded(events[..n]) + [EncodedAs(events[n])]
    ensures WellPlaced(events[..n + 1]) ==>
              FeedOf(events[..n + 1]) == if events[n].Accepted? then Some(events[n].feed) else FeedOf(events[..n])
  {
    assert events[..n + 1] == events[..n] + [events[n]];
  }

  lemma {:induction false} PlacedUpTo(events: seq<Event>, n: nat)
    requires n <= |events| && WellPlaced(events[..n]) && (n < |events| ==> !WellPlaced(events[..n + 1]))
    ensures Placeable(events, |events|) == n
  {
    PlacedUpToIn(events, n, |events|);
  }

  lemma {:induction false} PlacedUpToIn(events: seq<Event>, n: nat, m: nat)
    requires n <= m <= |events| && WellPlaced(events[..n]) && (n < |events| ==> !WellPlaced(events[..n + 1]))
    ensures Placeable(events, m) == n
  {
    if n < m {
      assert events[..m][..n + 1] == events[..n + 1];
      if WellPlaced(events[..m]) { ShorterIsPlaced(events[..m], n + 1); }
      PlacedUpToIn(events, n, m - 1);
    }
  }

  lemma ShorterIsPlaced(events: seq<Event>, n: nat)
    requires n <= |events| && WellPlaced(events)
    ensures WellPlaced(events[..n])
  {
  }

  /**
   The streams a server sends: nothing, one refused ack, or an accepted ack and then dones and pages only, each page of at
   most five thousand bars and all of them on the feed of the ack.
   */
  ghost predicate Grammatical(wire: seq<Message>) {
    || wire == []
    || (|wire| == 1 && wire[0].AckRefused?)
    || (wire[0].AckAccepted? && forall i :: 0 < i < |wire| ==> wire[i].DoneMessage? || IsPageOn(wire[i], wire[0].feed))
  }

  ghost predicate IsPageOn(m: Message, feed: Feed) {
    m.PageMessage? && |m.bars| <= 5000 && forall b :: b in m.bars ==> b.feed == feed
  }

  /** The refused form is sent exactly when the handler raises FEED_NOT_AVAILABLE before yielding anything. */
  lemma RefusedInBandExactly(events: seq<Event>, ending: HandlerEnd, minted: string)
    ensures (exists m :: m in Served(events, ending, minted).0 && m.AckRefused?)
            <==> events == [] && ending.RaisedError? && ending.error.reason == FEED_NOT_AVAILABLE
  {
    var wire := Served(events, ending, minted).0;
    if events == [] && ending.RaisedError? && ending.error.reason == FEED_NOT_AVAILABLE {
      assert wire[0] in wire && wire[0].AckRefused?;
    }
  }

  // ---- the client

  datatype Read = Yields(event: Event) | Fails(error: TraderJoeError)

  /** How the call ends under the stream: well, or with a status. */
  datatype CallResult = CallEndedWell | CallFailed(rpc: RpcError)

  /** How the client's generator ends; it escapes with the OverflowError of a status that cannot be decoded. */
  datatype FetchEnd = FetchComplete | FetchFailed(error: TraderJoeError) | FetchEscaped

  function FailedWith(rpc: RpcError, now: int): FetchEnd {
    match FromRpcError(rpc, now)
    case Decoded(e) => FetchFailed(e)
    case OverflowEscapes => FetchEscaped
  }

  /** A refusal in band, rebuilt as the error it mirrors. */
  function RefusalError(reason: WireReason, domain: string, detail: string, metadata: map<string, string>): (e: TraderJoeError)
    ensures Valid(e)
  {
    if domain != DOMAIN || reason.Unknown? then ProtocolError(detail)
    else match Build(Reasons(reason.reason).branch, reason.reason, detail, map k | k in metadata :: Text(metadata[k]), None)
      case Ok(e) => e
      case _ => ProtocolError(detail)
  }

  /** The payload of a refusal in band is one that its reason can have. */
  predicate RefusalFits(reason: WireReason, domain: string, metadata: map<string, string>) {
    && domain == "trader-joe" && reason.Known? && !Reasons(reason.reason).needsReset
    && forall k :: k in metadata ==> k in METADATA_KEYS && k != "reset_at" && k != "retry_after"
  }

  /** A refusal in band is the error that it names exactly when its payload fits, and a protocol error otherwise. */
  lemma RefusalIsReadExactly(reason: WireReason, domain: string, detail: string, metadata: map<string, string>)
    ensures var e := RefusalError(reason, domain, detail, metadata);
      if RefusalFits(reason, domain, metadata) then
        && e.reason == reason.reason && e.branch == Reasons(reason.reason).branch && e.detail == detail && e.resetAt == None
        && e.metadata.Keys == metadata.Keys && forall k :: k in metadata ==> e.metadata[k] == Text(metadata[k])
      else e.reason == PEER_PROTOCOL_ERROR && e.metadata == map[] && e.resetAt == None
  {
    if domain == DOMAIN && reason.Known? { RefusalIsBuilt(reason.reason, detail, metadata); }
  }

  lemma RefusalIsBuilt(r: Reason, detail: string, metadata: map<string, string>)
    ensures var texts: map<string, Meta> := map k | k in metadata :: Text(metadata[k]);
      Build(Reasons(r).branch, r, detail, texts, None) ==
      if RefusalFits(Known(r), DOMAIN, metadata) then Ok(TraderJoeError(Reasons(r).branch, r, detail, texts, None)) else ValueError
  {
    TextsAreAllowed(metadata);
  }

  lemma TextsAreAllowed(metadata: map<string, string>)
    ensures var texts: map<string, Meta> := map k | k in metadata :: Text(metadata[k]);
      && texts.Keys == metadata.Keys
      && (AllowedKeys(texts) <==> forall k :: k in metadata ==> k in METADATA_KEYS && k != "reset_at" && k != "retry_after")
  {
    var texts: map<string, Meta> := map k | k in metadata :: Text(metadata[k]);
    assert texts.Keys == metadata.Keys;
  }

  class StreamReader {
    var accepted: Option<Feed>
    var done: bool

    constructor ()
      ensures accepted == None && !done
    {
      accepted, done := None, false;
    }

    /** The grammar, one message at a time. */
    method OnMessage(m: Message) returns (r: Read)
      modifies this
      ensures r == ReadOne(m, old(accepted), old(done))
      ensures r.Yields? ==> accepted == if r.event.Accepted? then Some(r.event.feed) else old(accepted)
      ensures r.Yields? ==> done == (old(done) || r.event.Ended?)
    {
      if m.NoEvent? { return Fails(ProtocolError("no event")); }
      if done { return Fails(ProtocolError("after the done")); }
      match m
      case AckAccepted(feed) =>
        if accepted.Some? { return Fails(ProtocolError("second ack")); }
        accepted := Some(feed);
        return Yields(Accepted(feed));
      case AckRefused(reason, domain, detail, metadata) =>
        if accepted.Some? { return Fails(ProtocolError("second ack")); }
        return Fails(RefusalError(reason, domain, detail, metadata));
      case PageMessage(bars) =>
        if accepted.None? { return Fails(ProtocolError("no ack")); }
        if exists b :: b in bars && b.feed != accepted.value { return Fails(ProtocolError("another feed")); }
        return Yields(Page(bars));
      case DoneMessage(d) =>
        if accepted.None? { return Fails(ProtocolError("no ack")); }
        done := true;
        return Yields(Ended(d));
    }
  }

  function ReadOne(m: Message, accepted: Option<Feed>, done: bool): Read {
    if m.NoEvent? then Fails(ProtocolError("no event"))
    else if done then Fails(ProtocolError("after the done"))
    else match m
      case AckAccepted(feed) => if accepted.Some? then Fails(ProtocolError("second ack")) else Yields(Accepted(feed))
      case AckRefused(reason, domain, detail, metadata) =>
        if accepted.Some? then Fails(ProtocolError("second ack")) else Fails(RefusalError(reason, domain, detail, metadata))
      case PageMessage(bars) =>
        if accepted.None? then Fails(ProtocolError("no ack"))
        else if exists b :: b in bars && b.feed != accepted.value then Fails(ProtocolError("another feed"))
        else Yields(Page(bars))
      case DoneMessage(d) => if accepted.None? then Fails(ProtocolError("no ack")) else Yields(Ended(d))
  }

  /** The events a complete stream may yield: an accepted one, pages on its feed, and one finished at the end. */
  ghost predicate CompleteEvents(events: seq<Event>) {
    && |events| >= 2 && events[0].Accepted? && events[|events| - 1].Ended?
    && forall i :: 0 < i < |events| - 1 ==> OnFeed(events[i], events[0].feed)
  }

  ghost predicate OnFeed(e: Event, feed: Feed) {
    e.Page? && forall b :: b in e.bars ==> b.feed == feed
  }

  /** What any stream lets the client yield: such a run of events, perhaps cut short. */
  ghost predicate PartialEvents(events: seq<Event>) {
    events != [] ==>
      && events[0].Accepted?
      && (forall i :: 0 < i < |events| - 1 ==> OnFeed(events[i], events[0].feed))
      && (|events| > 1 ==> OnFeed(events[|events| - 1], events[0].feed) || events[|events| - 1].Ended?)
  }

  /**
   Reads a whole call, whoever sent it. What it yields always keeps the grammar; it completes exactly on a grammatical
   stream that ends with its done and a good status, and every other ending is an error, but for a status that leads past
   the calendar.
   */
  method FetchFrom(wire: seq<Message>, result: CallResult, now: int) returns (events: seq<Event>, end: FetchEnd)
    ensures |events| <= |wire| && PartialEvents(events) && Encoded(events) == wire[..|events|]
    ensures end == FetchComplete <==> result == CallEndedWell && |events| == |wire| && CompleteEvents(events)
    ensures end.FetchFailed? ==> Valid(end.error)
    ensures end.FetchEscaped? <==> |events| == |wire| && result.CallFailed? && FromRpcError(result.rpc, now).OverflowEscapes?
    ensures |events| == |wire| && result.CallFailed? ==> end == FailedWith(result.rpc, now)
    ensures |events| < |wire| ==> ReadOne(wire[|events|], FeedOf(events), HasEnded(events)).Fails?
    ensures |events| < |wire| ==> end == FetchFailed(ReadOne(wire[|events|], FeedOf(events), HasEnded(events)).error)
  {
    var reader := new StreamReader();
    events := [];
    while |events| < |wire|
      invariant |events| <= |wire| && PartialEvents(events) && Encoded(events) == wire[..|events|]
      invariant reader.accepted == FeedOf(events) && reader.done == HasEnded(events)
    {
      var r := reader.OnMessage(wire[|events|]);
      match r
      case Fails(error) =>
        ReadErrorsAreValid(wire[|events|], FeedOf(events), HasEnded(events));
        return events, FetchFailed(error);
      case Yields(event) =>
        assert Encoded(events + [event]) == Encoded(events) + [EncodedAs(event)];
        assert wire[..|events| + 1] == wire[..|events|] + [wire[|events|]];
        events := events + [event];
    }
    match result
    case CallFailed(rpc) => return events, FailedWith(rpc, now);
    case CallEndedWell =>
      if !reader.done { return events, FetchFailed(ProtocolError("no done")); }
      return events, FetchComplete;
  }

  predicate HasEnded(events: seq<Event>) {
    events != [] && events[|events| - 1].Ended?
  }

  lemma ReadErrorsAreValid(m: Message, accepted: Option<Feed>, done: bool)
    ensures ReadOne(m, accepted, done).Fails? ==> Valid(ReadOne(m, accepted, done).error)
  {
  }

  // ---- both ends

  /** The status that ends a call when its servicer ends so. */
  function ResultOf(end: ServeEnd, minted: string, now: int): CallResult {
    match end
    case Escapes(exc) => CallFailed(AnswerTo(exc, minted, now))
    case ClientLeft => CallFailed(RpcError(OtherCode("CANCELLED"), "", None))
    case ServedWell => CallEndedWell
  }

  lemma ScriptIsWellPlaced(r: Response)
    requires r.Bars?
    ensures WellPlaced(Script(r)) && PartialEvents(Script(r)) && (r.failure.None? ==> CompleteEvents(Script(r)))
  {
    var all := Stamped(r.bars, r.feed);
    PagesAreOnTheFeed(all, r.feed);
    PagesAreOnTheFeed(all[..|all| - |all| % MAX_PAGE_BARS], r.feed);
    var s := Script(r);
    forall i | 0 < i < |s| ensures s[i].Ended? ==> i == |s| - 1 && r.failure.None?
                           ensures !s[i].Ended? ==> OnFeed(s[i], r.feed) && |s[i].bars| <= MAX_PAGE_BARS
    {
      var pages := if r.failure.None? then Pages(all) else Pages(all[..|all| - |all| % MAX_PAGE_BARS]);
      if i - 1 < |pages| { assert s[i] == pages[i - 1] && pages[i - 1] in pages; }
    }
  }

  lemma WellPlacedIsServed(events: seq<Event>, ending: HandlerEnd, minted: string)
    requires WellPlaced(events) && events != []
    ensures Served(events, ending, minted).0 == Encoded(events)
    ensures ending == Completed ==> Served(events, ending, minted).1 == ServedWell
    ensures ending.RaisedError? ==> Served(events, ending, minted).1 == Escapes(Vocab(ending.error, false))
    ensures ending == RaisedOther ==> Served(events, ending, minted).1 == Escapes(OtherException)
    ensures ending == WasCancelled ==> Served(events, ending, minted).1 == ClientLeft
  {
    assert events[..|events|] == events;
  }

  /** A message that an encodable event made is read back as that event. */
  lemma ReadsWhatWasSent(events: seq<Event>, n: nat)
    requires n < |events| && WellPlaced(events) && PartialEvents(events)
    ensures ReadOne(EncodedAs(events[n]), FeedOf(events[..n]), HasEnded(events[..n])) == Yields(events[n])
  {
  }

  /** What the client makes of a source that breaks off: its error as one hop carries it, or an error of the peer. */
  ghost predicate FailsAs(end: FetchEnd, f: Failure, minted: string) {
    match f
    case FailsWith(e) =>
      if HasCode(e.reason) then end == FetchFailed(Arrived(e, minted))
      else end.FetchFailed? && end.error.reason == PEER_INTERNAL && OwnErrorId(end.error) == Some(minted)
    case FailsOtherwise => end.FetchFailed? && end.error.reason == PEER_INTERNAL && OwnErrorId(end.error) == Some(minted)
    case IsCancelled => end.FetchFailed? && end.error.reason == PEER_PROTOCOL_ERROR
  }

  lemma FailureArrives(f: Failure, minted: string, sent: int, read: int)
    requires Mintable(minted) && (f.FailsWith? ==> Valid(f.error))
    ensures var end := match EndOf(f)
                       case RaisedError(e) => Escapes(Vocab(e, false))
                       case RaisedOther => Escapes(OtherException)
                       case _ => ClientLeft;
      FailsAs(FailedWith(ResultOf(end, minted, sent).rpc, read), f, minted)
  {
    match f
    case FailsWith(e) =>
      BoundaryIsTotal(Vocab(e, false), minted, sent, read);
      if HasCode(e.reason) {
        SettledOnce(e, minted);
        HopKeepsTheError(e, SettledId(e, minted), sent, read);
      }
    case FailsOtherwise => BoundaryIsTotal(OtherException, minted, sent, read);
    case IsCancelled =>
  }

  /**
   Handler, servicer, wire and client together, for a source that answers with bars: the client yields the handler's own
   events. When the source ends well the fetch completes. When it breaks off, the client fails: with the source's error
   as one hop carries it, or with PEER_INTERNAL under the server's id when it is none for a status, whatever it was.
   */
  method WholeFetch(r: Response, minted: string, sent: int, read: int) returns (events: seq<Event>, end: FetchEnd)
    requires r.Bars? && Mintable(minted) && (r.failure.Some? && r.failure.value.FailsWith? ==> Valid(r.failure.value.error))
    ensures events == Script(r)
    ensures AllCarry(Concat(events), r.bars, r.feed)
    ensures r.failure.None? ==> end == FetchComplete && Concat(events) == Stamped(r.bars, r.feed)
    ensures r.failure.Some? ==> FailsAs(end, r.failure.value, minted)
  {
    var emitted, handled := Handle(r);
    ScriptIsWellPlaced(r);
    WellPlacedIsServed(Script(r), handled, minted);
    events, end := Deliver(emitted, handled, minted, sent, read);
    if r.failure.Some? {
      FailureArrives(r.failure.value, minted, sent, read);
    }
    ScriptCarries(r);
  }

  /** The two ends of the stream: what is well placed arrives whole, and then the status of its ending. */
  method Deliver(emitted: seq<Event>, handled: HandlerEnd, minted: string, sent: int, read: int)
    returns (events: seq<Event>, end: FetchEnd)
    requires emitted != [] && WellPlaced(emitted) && PartialEvents(emitted)
    ensures events == emitted
    ensures var result := ResultOf(Served(emitted, handled, minted).1, minted, sent);
      && (result.CallFailed? ==> end == FailedWith(result.rpc, read))
      && (result == CallEndedWell && CompleteEvents(emitted) ==> end == FetchComplete)
  {
    var servicer := new Servicer();
    var served := servicer.Serve(emitted, handled, minted);
    WellPlacedIsServed(emitted, handled, minted);
    events, end := FetchFrom(servicer.wire, ResultOf(served, minted, sent), read);
    ReadToTheEnd(emitted, events);
  }

  /** The handler's part, for a servicer that takes every event. */
  method Handle(r: Response) returns (emitted: seq<Event>, handled: HandlerEnd)
    requires r.Bars?
    ensures emitted == Script(r)
    ensures handled == if r.failure.None? then Completed else EndOf(r.failure.value)
  {
    var wants := n => true;
    var fetching := new Fetching(wants);
    handled := fetching.Fetch(Request([BAR], STOCK, "source"), map["source" := r]);
    RefusedUnlessStockBars(Request([BAR], STOCK, "source"));
    emitted := fetching.emitted;
  }

  lemma ScriptCarries(r: Response)
    requires r.Bars?
    ensures AllCarry(Concat(Script(r)), r.bars, r.feed)
    ensures r.failure.None? ==> Concat(Script(r)) == Stamped(r.bars, r.feed)
  {
    if r.failure.None? { ScriptConserves(r); } else { FailedScriptIsAPrefix(r); }
  }

  lemma SettledOnce(e: TraderJoeError, minted: string)
    ensures Arrived(e, SettledId(e, minted)) == Arrived(e, minted)
  {
    assert SettledId(e, SettledId(e, minted)) == SettledId(e, minted);
  }

  /** The client stops at no message of a well-placed run of events. */
  lemma ReadToTheEnd(script: seq<Event>, events: seq<Event>)
    requires WellPlaced(script) && PartialEvents(script) && |events| <= |script|
    requires Encoded(events) == Encoded(script)[..|events|]
    ensures events == script[..|events|]
    ensures |events| < |script| ==> ReadOne(Encoded(script)[|events|], FeedOf(events), HasEnded(events)).Yields?
  {
    forall i | 0 <= i < |events| ensures events[i] == script[i] {
      assert Encoded(events)[i] == Encoded(script)[i];
    }
    if |events| < |script| {
      ReadsWhatWasSent(script, |events|);
      assert Encoded(script)[|events|] == EncodedAs(script[|events|]);
    }
  }

  /** The in-band refusal: the client yields nothing and fails with the very error the handler raised, and an id. */
  method WholeRefusal(e: TraderJoeError, minted: string, read: int) returns (events: seq<Event>, end: FetchEnd)
    requires Valid(e) && e.reason == FEED_NOT_AVAILABLE && minted != ""
    ensures events == [] && end == FetchFailed(Arrived(e, minted))
  {
    var servicer := new Servicer();
    var served := servicer.Serve([], RaisedError(e), minted);
    assert servicer.wire == [Refused(e, minted)];
    events, end := FetchFrom(servicer.wire, CallEndedWell, read);
    RefusalArrives(e, minted);
    if |events| == 1 { EncodedIsNoRefusal(events); }
  }

  lemma EncodedIsNoRefusal(events: seq<Event>)
    ensures forall i :: 0 <= i < |events| ==> !Encoded(events)[i].AckRefused?
  {
  }

  lemma {:induction false} RefusalArrives(e: TraderJoeError, minted: string)
    requires Valid(e) && e.reason == FEED_NOT_AVAILABLE
    ensures RefusalError(Known(e.reason), DOMAIN, e.detail, WireMetadata(e, minted)) == Arrived(e, minted)
  {
    ArrivedIsValid(e, minted);
    var wire := WireMetadata(e, minted);
    assert (map k | k in wire :: Text(wire[k])) == Arrived(e, minted).metadata;
  }
}
