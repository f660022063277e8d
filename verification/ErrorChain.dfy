/**
 The HTTP edge (server/routers/common/errors.py) and whole chains: an exception relayed over any number of gRPC edges
 and answered at last over HTTP.
 */
module ErrorChain {
  import opened Options
  import opened Text
  import opened Vocabulary
  import opened ErrorHop

  /** The members of a problem body that matter here. */
  datatype Problem =
    Problem(status: int, reason: Option<Reason>, detail: Option<string>, metadata: map<string, Meta>,
            retryAfter: Option<nat>, resetAt: Option<int>)

  function Describe(e: TraderJoeError, minted: string, now: int): Problem {
    Problem(Reasons(e.reason).http, Some(e.reason), Some(e.detail),
            if OwnErrorId(e).None? then e.metadata[ERROR_ID := Text(minted)] else e.metadata,
            RetryAfter(e, now), e.resetAt)
  }

  function BugProblem(minted: string): Problem {
    Problem(500, None, None, map[ERROR_ID := Text(minted)], None, None)
  }

  /** The line of the HTTP edge: an error of the vocabulary is typed here whatever its gRPC code. */
  function HttpLine(exc: Raised, minted: string): LogLine {
    match exc
    case Vocab(e, hasCause) =>
      LogLine(LevelOf(Reasons(e.reason).disposition), SettledId(e, minted), OwnErrorId(e).None? && hasCause)
    case OtherException => LogLine(ERROR_LEVEL, minted, true)
  }

  function HttpBody(exc: Raised, minted: string, now: int): Problem {
    match exc
    case Vocab(e, _) => Describe(e, SettledId(e, minted), now)
    case OtherException => BugProblem(minted)
  }

  class HttpEdge {
    var log: seq<LogLine>

    constructor ()
      ensures log == []
    {
      log := [];
    }

    /** Answers one exception and logs one line. */
    method Answer(exc: Raised, minted: string, now: int) returns (body: Problem)
      modifies this
      ensures body == HttpBody(exc, minted, now) && log == old(log) + [HttpLine(exc, minted)]
    {
      match exc
      case OtherException =>
        log := log + [LogLine(ERROR_LEVEL, minted, true)];
        return BugProblem(minted);
      case Vocab(error, hasCause) =>
        var own := OwnErrorId(error);
        var id := if own.None? then minted else own.value;
        body := Describe(error, id, now);
        log := log + [LogLine(LevelOf(Reasons(error.reason).disposition), id, own.None? && hasCause)];
    }
  }

  /** The id in the body, as one text, is the id in the log; the body has both waits or neither. */
  lemma {:induction false} BodyNamesTheLoggedId(exc: Raised, minted: string, now: int)
    requires exc.Vocab? ==> Valid(exc.error)
    ensures var body := HttpBody(exc, minted, now);
      && ERROR_ID in body.metadata && WireValue(body.metadata[ERROR_ID]) == HttpLine(exc, minted).id
      && (body.retryAfter.Some? <==> body.resetAt.Some?)
      && (400 <= body.status <= 599)
      && (body.resetAt.Some? ==> exc.Vocab? && Reasons(exc.error.reason).outcome == NOT_READY)
  {
  }

  // ---- chains

  /** One edge of a chain: the id it would mint, when it sends and when the next reads, and whether what it raises has a cause. */
  datatype Edge = Edge(minted: string, sent: int, read: int, hasCause: bool)

  /** What the caller of an edge raises in its turn. */
  function Relayed(exc: Raised, edge: Edge): Raised {
    match FromRpcError(AnswerTo(exc, edge.minted, edge.sent), edge.read)
    case Decoded(e) => Vocab(e, edge.hasCause)
    case OverflowEscapes => OtherException
  }

  /** The log lines of a chain of gRPC edges that ends at the HTTP edge. */
  function Lines(exc: Raised, edges: seq<Edge>, http: string): seq<LogLine>
    decreases |edges|
  {
    if edges == [] then [HttpLine(exc, http)]
    else [LineFor(exc, edges[0].minted)] + Lines(Relayed(exc, edges[0]), edges[1..], http)
  }

  /** The body that answers the chain. */
  function Body(exc: Raised, edges: seq<Edge>, http: string, now: int): Problem
    decreases |edges|
  {
    if edges == [] then HttpBody(exc, http, now) else Body(Relayed(exc, edges[0]), edges[1..], http, now)
  }

  ghost predicate AllMintable(edges: seq<Edge>, http: string) {
    Mintable(http) && forall e :: e in edges ==> Mintable(e.minted)
  }

  /** Every edge mints an id of its own. */
  ghost predicate Fresh(edges: seq<Edge>, http: string) {
    && (forall i, j :: 0 <= i < j < |edges| ==> edges[i].minted != edges[j].minted)
    && (forall i :: 0 <= i < |edges| ==> edges[i].minted != http)
  }

  /** A typed error that has its id is named by it in every later line, without a traceback, and in the body. */
  lemma {:induction false} IdentifiedStaysNamed(e: TraderJoeError, hasCause: bool, edges: seq<Edge>, http: string, now: int)
    requires Valid(e) && OwnErrorId(e).Some? && (HasCode(e.reason) || edges == [])
    requires AllMintable(edges, http)
    ensures var lines, id := Lines(Vocab(e, hasCause), edges, http), OwnErrorId(e).value;
      && |lines| == |edges| + 1
      && (forall l :: l in lines ==> l.id == id && !l.traceback)
      && ERROR_ID in Body(Vocab(e, hasCause), edges, http, now).metadata
      && WireValue(Body(Vocab(e, hasCause), edges, http, now).metadata[ERROR_ID]) == id
    decreases |edges|
  {
    if edges != [] {
      var edge := edges[0];
      assert edge in edges;
      var id := OwnErrorId(e).value;
      OwnIdIsNotEmpty(e);
      HopKeepsTheError(e, id, edge.sent, edge.read);
      ArrivedIsNormal(e, id, id);
      IdentifiedStaysNamed(Arrived(e, id), edge.hasCause, edges[1..], http, now);
    }
  }

  /** After its first edge a typed error is identified, and keeps its reason. */
  lemma FirstEdgeIdentifies(e: TraderJoeError, hasCause: bool, edge: Edge)
    requires Valid(e) && HasCode(e.reason) && Mintable(edge.minted)
    ensures var next := Relayed(Vocab(e, hasCause), edge);
      && next.Vocab? && next.error == Arrived(e, SettledId(e, edge.minted)) && HasCode(next.error.reason) && Valid(next.error)
      && OwnErrorId(next.error) == Some(LineFor(Vocab(e, hasCause), edge.minted).id)
  {
    OwnIdIsNotEmpty(e);
    var id := SettledId(e, edge.minted);
    HopKeepsTheError(e, id, edge.sent, edge.read);
    ArrivedIsNormal(e, id, id);
  }

  /** After an edge that answers it as a bug, an exception is PEER_INTERNAL under the id of that edge. */
  lemma BugIsRelayed(exc: Raised, edge: Edge)
    requires !IsTyped(exc) && Mintable(edge.minted)
    ensures var next := Relayed(exc, edge);
      && next.Vocab? && Valid(next.error) && next.error.reason == PEER_INTERNAL && OwnErrorId(next.error) == Some(edge.minted)
  {
    BugIdIsRead(edge.minted);
  }

  /** An exception that renders has one id in all its lines. */
  lemma {:induction false} TypedHasOneId(e: TraderJoeError, hasCause: bool, edges: seq<Edge>, http: string)
    requires Valid(e) && HasCode(e.reason) && AllMintable(edges, http) && edges != []
    ensures var lines := Lines(Vocab(e, hasCause), edges, http);
      |lines| == |edges| + 1 && forall i :: 0 <= i < |lines| ==> lines[i].id == lines[0].id
  {
    var exc, edge, rest := Vocab(e, hasCause), edges[0], edges[1..];
    RestIsMintable(edges, http);
    FirstEdgeIdentifies(e, hasCause, edge);
    var next := Relayed(exc, edge);
    IdentifiedStaysNamed(next.error, next.hasCause, rest, http, 0);
    AllOfOneId(LineFor(exc, edge.minted), Lines(next, rest, http), OwnErrorId(next.error).value);
  }

  lemma RestIsMintable(edges: seq<Edge>, http: string)
    requires edges != [] && AllMintable(edges, http)
    ensures Mintable(edges[0].minted) && AllMintable(edges[1..], http)
  {
    assert edges[0] in edges;
  }

  lemma AllOfOneId(first: LogLine, later: seq<LogLine>, id: string)
    requires first.id == id && forall l :: l in later ==> l.id == id
    ensures forall i :: 0 <= i < 1 + |later| ==> ([first] + later)[i].id == id
  {
    forall i | 0 <= i < 1 + |later| ensures ([first] + later)[i].id == id {
      if i > 0 { assert later[i - 1] in later; }
    }
  }

  /** What does not render has two ids as soon as it crosses two gRPC edges. */
  lemma UntypedHasTwoIds(exc: Raised, edges: seq<Edge>, http: string)
    requires !IsTyped(exc) && AllMintable(edges, http) && Fresh(edges, http) && |edges| > 1
    ensures var lines := Lines(exc, edges, http); |lines| > 1 && lines[1].id != lines[0].id
  {
    BugIsLoggedByEveryEdge(exc, edges, http, 0);
    BugIsLoggedByEveryEdge(exc, edges, http, 1);
  }

  /** Across one gRPC edge every failure keeps one id. */
  lemma {:induction false} OneEdgeOneId(exc: Raised, edge: Edge, http: string)
    requires !IsTyped(exc) && Mintable(edge.minted) && Mintable(http)
    ensures var lines := Lines(exc, [edge], http); |lines| == 2 && lines[1].id == lines[0].id
  {
    BugIsRelayed(exc, edge);
    var next := Relayed(exc, edge);
    assert Lines(next, [], http) == [HttpLine(next, http)];
  }

  /**
   Whether one id names a failure along the whole chain, in every line: exactly when the exception renders as a status,
   or crosses at most one gRPC edge. What does not render is answered anew by every edge it reaches.
   */
  lemma {:induction false} OneIdAlongTheChain(exc: Raised, edges: seq<Edge>, http: string)
    requires (exc.Vocab? ==> Valid(exc.error)) && AllMintable(edges, http) && Fresh(edges, http)
    ensures var lines := Lines(exc, edges, http);
      (forall i :: 0 <= i < |lines| ==> lines[i].id == lines[0].id) <==> IsTyped(exc) || |edges| <= 1
  {
    if edges == [] {
    } else if IsTyped(exc) {
      TypedHasOneId(exc.error, exc.hasCause, edges, http);
    } else if |edges| == 1 {
      assert edges == [edges[0]] && edges[0] in edges;
      OneEdgeOneId(exc, edges[0], http);
    } else {
      UntypedHasTwoIds(exc, edges, http);
    }
  }

  /** The traceback of an exception that renders is logged at most once: by the first edge, and only under an id it minted. */
  lemma {:induction false} TracebackAtTheMintingEdge(exc: Raised, edges: seq<Edge>, http: string, i: nat)
    requires exc.Vocab? && Valid(exc.error) && (HasCode(exc.error.reason) || edges == []) && AllMintable(edges, http)
    requires i < |Lines(exc, edges, http)|
    ensures Lines(exc, edges, http)[i].traceback <==> i == 0 && OwnErrorId(exc.error).None? && exc.hasCause
  {
    if edges != [] {
      var edge, rest := edges[0], edges[1..];
      assert edge in edges;
      FirstEdgeIdentifies(exc.error, exc.hasCause, edge);
      var next := Relayed(exc, edge);
      IdentifiedStaysNamed(next.error, next.hasCause, rest, http, 0);
      var later := Lines(next, rest, http);
      assert forall l :: l in later ==> !l.traceback;
      if i > 0 { assert later[i - 1] in later; }
    }
  }

  /** What does not render is logged with its traceback by every gRPC edge of its chain. */
  lemma {:induction false} BugIsLoggedByEveryEdge(exc: Raised, edges: seq<Edge>, http: string, i: nat)
    requires !IsTyped(exc) && AllMintable(edges, http) && i < |edges|
    ensures |Lines(exc, edges, http)| == |edges| + 1
    ensures Lines(exc, edges, http)[i].traceback && Lines(exc, edges, http)[i].id == edges[i].minted
    decreases |edges|
  {
    RestIsMintable(edges, http);
    BugIsStillOne(exc, edges[0]);
    LinesFollow(exc, edges, http);
    if |edges| > 1 {
      BugIsLoggedByEveryEdge(Relayed(exc, edges[0]), edges[1..], http, if i > 0 then i - 1 else 0);
    }
  }

  lemma BugIsStillOne(exc: Raised, edge: Edge)
    requires !IsTyped(exc) && Mintable(edge.minted)
    ensures !IsTyped(Relayed(exc, edge))
  {
    BugIsRelayed(exc, edge);
  }

  /** The line of the first edge, and then those of the rest of the chain. */
  lemma LinesFollow(exc: Raised, edges: seq<Edge>, http: string)
    requires edges != []
    ensures Lines(exc, edges, http) == [LineFor(exc, edges[0].minted)] + Lines(Relayed(exc, edges[0]), edges[1..], http)
    ensures |edges| == 1 ==> |Lines(exc, edges, http)| == 2
  {
  }

  // ---- what the last body tells

  /** The body tells of the error: its reason, its words, the status of its row, its reset, and its metadata beside the id. */
  ghost predicate TellsOf(body: Problem, e: TraderJoeError, now: int) {
    && body.reason == Some(e.reason) && body.detail == Some(e.detail) && body.status == Reasons(e.reason).http
    && body.resetAt == e.resetAt && (body.retryAfter.Some? <==> e.resetAt.Some?)
    && (e.resetAt.Some? ==>
          && now + body.retryAfter.value * SECOND >= e.resetAt.value
          && (body.retryAfter.value > 0 ==> now + (body.retryAfter.value - 1) * SECOND < e.resetAt.value))
    && body.metadata.Keys == e.metadata.Keys + {ERROR_ID}
    && forall k :: k in e.metadata && k != ERROR_ID ==> WireValue(body.metadata[k]) == WireValue(e.metadata[k])
  }

  /** The HTTP edge tells of the very error that it answers, its metadata as it was. */
  lemma BodyTellsTheError(e: TraderJoeError, hasCause: bool, minted: string, now: int)
    ensures var body := HttpBody(Vocab(e, hasCause), minted, now);
      TellsOf(body, e, now) && forall k :: k in e.metadata && k != ERROR_ID ==> body.metadata[k] == e.metadata[k]
  {
    if e.resetAt.Some? { RetryAfterIsNeverShort(e, now); }
    if OwnErrorId(e).Some? { assert e.metadata.Keys + {ERROR_ID} == e.metadata.Keys; }
  }

  lemma ArrivedTellsTheSame(e: TraderJoeError, minted: string, body: Problem, now: int)
    requires TellsOf(body, Arrived(e, minted), now)
    ensures TellsOf(body, e, now)
  {
    assert Arrived(e, minted).metadata.Keys + {ERROR_ID} == e.metadata.Keys + {ERROR_ID};
  }

  /** An error that renders is told of at the end of every chain as it was raised at its start. */
  lemma {:induction false} LastBodyTellsTheError(e: TraderJoeError, hasCause: bool, edges: seq<Edge>, http: string, now: int)
    requires Valid(e) && (HasCode(e.reason) || edges == []) && AllMintable(edges, http)
    ensures TellsOf(Body(Vocab(e, hasCause), edges, http, now), e, now)
    decreases |edges|
  {
    if edges == [] {
      BodyTellsTheError(e, hasCause, http, now);
    } else {
      assert edges[0] in edges;
      FirstEdgeIdentifies(e, hasCause, edges[0]);
      var a := Arrived(e, SettledId(e, edges[0].minted));
      LastBodyTellsTheError(a, edges[0].hasCause, edges[1..], http, now);
      ArrivedTellsTheSame(e, SettledId(e, edges[0].minted), Body(Vocab(a, edges[0].hasCause), edges[1..], http, now), now);
    }
  }

  predicate TellsOfAPeersBug(body: Problem) {
    body.reason == Some(PEER_INTERNAL) && body.status == 502 && body.detail.Some? && body.resetAt == None
  }

  lemma BugOverOneEdge(exc: Raised, edge: Edge, http: string, now: int)
    requires !IsTyped(exc) && Mintable(edge.minted)
    ensures TellsOfAPeersBug(HttpBody(Relayed(exc, edge), http, now))
  {
    BugIsRelayed(exc, edge);
    var next := Relayed(exc, edge);
    BodyTellsTheError(next.error, next.hasCause, http, now);
  }

  /** What does not render is told of as a bug of a peer at the end of every chain that it crosses an edge of. */
  lemma {:induction false} BugIsToldAsThePeers(exc: Raised, edges: seq<Edge>, http: string, now: int)
    requires !IsTyped(exc) && edges != [] && AllMintable(edges, http)
    ensures TellsOfAPeersBug(Body(exc, edges, http, now))
    decreases |edges|
  {
    RestIsMintable(edges, http);
    BodyFollows(exc, edges, http, now);
    if |edges| > 1 {
      BugIsStillOne(exc, edges[0]);
      BugIsToldAsThePeers(Relayed(exc, edges[0]), edges[1..], http, now);
    } else {
      BugOverOneEdge(exc, edges[0], http, now);
    }
  }

  lemma BodyFollows(exc: Raised, edges: seq<Edge>, http: string, now: int)
    requires edges != []
    ensures Body(exc, edges, http, now) == Body(Relayed(exc, edges[0]), edges[1..], http, now)
    ensures |edges| == 1 ==> Body(exc, edges, http, now) == HttpBody(Relayed(exc, edges[0]), http, now)
  {
  }

  /** A body without a reason, which is the one of status 500, answers nothing but what is no vocabulary error, raised at the HTTP edge. */
  lemma {:induction false} NoReasonExactly(exc: Raised, edges: seq<Edge>, http: string, now: int)
    requires (exc.Vocab? ==> Valid(exc.error)) && AllMintable(edges, http)
    ensures var body := Body(exc, edges, http, now);
      && (body.reason == None <==> exc.OtherException? && edges == [])
      && (body.status == 500 <==> body.reason == None) && (body.detail == None <==> body.reason == None)
  {
    if exc.Vocab? && (IsTyped(exc) || edges == []) {
      LastBodyTellsTheError(exc.error, exc.hasCause, edges, http, now);
      NoRowIs500(exc.error.reason);
    } else if edges != [] {
      BugIsToldAsThePeers(exc, edges, http, now);
    }
  }

  lemma NoRowIs500(r: Reason)
    ensures Reasons(r).http != 500
  {
  }

  /** The line of the HTTP edge pages exactly for what is no vocabulary error and for the reasons that say so. */
  lemma HttpLevelTells(exc: Raised, minted: string)
    ensures var level := HttpLine(exc, minted).level;
      && (level == ERROR_LEVEL <==> exc.OtherException? || Reasons(exc.error.reason).disposition == PAGE)
      && (level == WARNING_LEVEL <==> exc.Vocab? && Reasons(exc.error.reason).disposition == RECORD)
  {
  }
}
