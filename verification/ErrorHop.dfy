/**
 An error over one gRPC hop (server/common/rpc/errors.py): rendered as a rich status, answered by the boundary of every
 method, and rebuilt on the other side. An instant is written as decimal microseconds.
 */
module ErrorHop {
  import opened Options
  import opened Text
  import opened Decimal
  import opened Vocabulary

  const DOMAIN := "trader-joe"
  const BUG_PREFIX := "internal error; error_id "

  datatype WireReason = Known(reason: Reason) | Unknown(name: string)

  datatype ErrorInfo = ErrorInfo(reason: WireReason, domain: string, metadata: map<string, string>)

  /** google.rpc.Status with its two details; the delay is in microseconds. */
  datatype Status = Status(code: Code, message: string, info: Option<ErrorInfo>, retryDelay: Option<int>)

  /** What a failed call gives its caller. */
  datatype RpcError = RpcError(code: Code, details: string, rich: Option<Status>)

  // ---- sending

  function WireMetadata(e: TraderJoeError, minted: string): map<string, string> {
    var own := map k | k in e.metadata :: WireValue(e.metadata[k]);
    var identified := if OwnErrorId(e).None? then own[ERROR_ID := minted] else own;
    if e.resetAt.Some? then identified[RESET_AT := PrintInt(e.resetAt.value)] else identified
  }

  /** The status of an error, none for a reason that is never a status; minted is the id for an error without one. */
  function Render(e: TraderJoeError, minted: string, now: int): Option<Status> {
    var row := Reasons(e.reason);
    if row.code.None? then None
    else
      var delay := RetryAfter(e, now);
      Some(Status(
        row.code.value, e.detail, Some(ErrorInfo(Known(e.reason), DOMAIN, WireMetadata(e, minted))),
        if delay.Some? then Some(delay.value * SECOND) else None))
  }

  predicate HasCode(r: Reason) {
    Reasons(r).code.Some?
  }

  function SendError(e: TraderJoeError, minted: string, now: int): RpcError
    requires HasCode(e.reason)
  {
    var s := Render(e, minted, now);
    RpcError(s.value.code, s.value.message, s)
  }

  function SendBug(minted: string): RpcError {
    RpcError(INTERNAL, BUG_PREFIX + minted, None)
  }

  // ---- decoding

  /** The id in the fixed message of a bug. */
  function BugErrorId(detail: string): Option<string> {
    if !(BUG_PREFIX <= detail) then None
    else
      var id := Strip(detail[|BUG_PREFIX|..]);
      if id == "" then None else Some(id)
  }

  function ProtocolError(detail: string): (e: TraderJoeError)
    ensures Valid(e)
  {
    TraderJoeError(ExogenousError, PEER_PROTOCOL_ERROR, "the peer answered in a form this release cannot read: " + detail,
                   map[], None)
  }

  function ReadMetadata(wire: map<string, string>): map<string, Meta> {
    map k | k in wire && k !in DERIVED_KEYS :: Text(wire[k])
  }

  /**
   A written instant, none for a text that is none. Its own offset from UTC, less than a day, is not yet taken off, so it
   may lie a little outside the calendar.
   */
  function ReadInstant(text: string): Option<int> {
    match ReadInt(text)
    case Some(at) => if LEAST - DAY < at < GREATEST + DAY then Some(at) else None
    case None => None
  }

  /** Built on the reason's own branch: with the written reset, else a reset that many seconds from now, else none. */
  function Rebuilt(reason: Reason, detail: string, info: ErrorInfo, retryDelay: Option<int>, now: int): (b: Built)
    ensures b.Ok? ==> Valid(b.error)
  {
    var branch, metadata := Reasons(reason).branch, ReadMetadata(info.metadata);
    if RESET_AT in info.metadata && info.metadata[RESET_AT] != "" then
      match ReadInstant(info.metadata[RESET_AT])
      case Some(at) => Build(branch, reason, detail, metadata, Some(at))
      case None => ValueError
    else if retryDelay.Some? then
      if !(-LONGEST <= retryDelay.value < LONGEST + DAY) then OverflowError
      else FromRetryAfter(branch, reason, detail, retryDelay.value, metadata, now)
    else Build(branch, reason, detail, metadata, None)
  }

  /** What a status without a readable reason stands for. */
  function PeerError(reason: Reason, detail: string, otherwise: string, id: Option<string>): (e: TraderJoeError)
    requires reason in {PEER_UNAVAILABLE, DEADLINE, PEER_INTERNAL}
    ensures Valid(e)
  {
    TraderJoeError(ExogenousError, reason, if detail == "" then otherwise else detail,
                   if id.Some? then map[ERROR_ID := Text(id.value)] else map[], None)
  }

  /** What decoding a failed call gives: an error, or an OverflowError that escapes it. */
  datatype Decoding = Decoded(error: TraderJoeError) | OverflowEscapes

  /** The error in a status' rich details, when they can be read. */
  function FromDetails(rpc: RpcError, now: int): (d: Decoding)
    ensures d.Decoded? ==> Valid(d.error)
  {
    match rpc.rich
    case None => Decoded(ProtocolError(rpc.details))
    case Some(status) =>
      if !IsOurs(status) then Decoded(ProtocolError(rpc.details))
      else match Rebuilt(status.info.value.reason.reason, rpc.details, status.info.value, status.retryDelay, now)
        case Ok(e) => Decoded(e)
        case OverflowError => OverflowEscapes
        case _ => Decoded(ProtocolError(rpc.details))
  }

  /** The status names a reason of this release in its own domain. */
  predicate IsOurs(status: Status) {
    status.info.Some? && status.info.value.domain == DOMAIN && status.info.value.reason.Known?
  }

  /** The error a failed call stands for. Only the two errors of the constructor are caught. */
  function FromRpcError(rpc: RpcError, now: int): (d: Decoding)
    ensures d.Decoded? ==> Valid(d.error)
  {
    match rpc.code
    case UNAVAILABLE => Decoded(PeerError(PEER_UNAVAILABLE, rpc.details, "the peer could not be reached", None))
    case DEADLINE_EXCEEDED => Decoded(PeerError(DEADLINE, rpc.details, "the call did not finish within its deadline", None))
    case INTERNAL =>
      Decoded(PeerError(PEER_INTERNAL, rpc.details, "the peer failed with an internal error", BugErrorId(rpc.details)))
    case _ => FromDetails(rpc, now)
  }

  /** A written reset that lies past the calendar once it is in UTC, on an error that may carry one. */
  predicate ResetPastCalendar(info: ErrorInfo)
    requires info.reason.Known?
  {
    && RESET_AT in info.metadata && info.metadata[RESET_AT] != ""
    && ReadInstant(info.metadata[RESET_AT]).Some? && !InCalendar(ReadInstant(info.metadata[RESET_AT]).value)
    && AllowedKeys(ReadMetadata(info.metadata)) && Reasons(info.reason.reason).outcome != REFUSED
  }

  /** A delay that cannot be held, or leads past the calendar from now. */
  predicate DelayPastCalendar(status: Status, now: int)
    requires IsOurs(status)
  {
    && (RESET_AT !in status.info.value.metadata || status.info.value.metadata[RESET_AT] == "")
    && status.retryDelay.Some?
    && var delay := status.retryDelay.value;
       !(-LONGEST <= delay < LONGEST + DAY) || (delay >= 0 && !InCalendar(now + delay))
  }

  /** Decoding a failed call gives an error, whoever sent it, if and only if no reset and no delay leads past the calendar. */
  lemma DecodesExactly(rpc: RpcError, now: int)
    ensures FromRpcError(rpc, now).OverflowEscapes? <==>
      && rpc.code !in {UNAVAILABLE, DEADLINE_EXCEEDED, INTERNAL} && rpc.rich.Some? && IsOurs(rpc.rich.value)
      && (ResetPastCalendar(rpc.rich.value.info.value) || DelayPastCalendar(rpc.rich.value, now))
  {
  }

  /** A vendor that asks for ten thousand years: the answer decodes to no error. */
  lemma LongDelayEscapes(now: int)
    requires InCalendar(now)
    ensures var info := ErrorInfo(Known(VENDOR_UNAVAILABLE), DOMAIN, map[]);
      FromRpcError(RpcError(FAILED_PRECONDITION, "", Some(Status(FAILED_PRECONDITION, "", Some(info), Some(315_576_000_000 * SECOND)))), now)
      == OverflowEscapes
  {
    assert LEAST + 315_576_000_000 * SECOND > GREATEST;
  }

  /** The first minute of the calendar, written with an offset of 23:59. */
  lemma EarlyResetEscapes(now: int)
    ensures var info := ErrorInfo(Known(VENDOR_UNAVAILABLE), DOMAIN, map[RESET_AT := PrintInt(LEAST - 86_340 * SECOND)]);
      FromRpcError(RpcError(FAILED_PRECONDITION, "", Some(Status(FAILED_PRECONDITION, "", Some(info), None))), now)
      == OverflowEscapes
  {
    ReadsWhatIsPrinted(LEAST - 86_340 * SECOND);
    assert ReadMetadata(map[RESET_AT := PrintInt(LEAST - 86_340 * SECOND)]) == map[];
  }

  // ---- the round trip

  /** The id an error is answered under. */
  function SettledId(e: TraderJoeError, minted: string): string {
    match OwnErrorId(e) case Some(id) => id case None => minted
  }

  /** An error as it arrives: each metadata value one text, and an id. */
  function Arrived(e: TraderJoeError, minted: string): TraderJoeError {
    e.(metadata := map k | k in e.metadata.Keys + {ERROR_ID} ::
                     Text(if k == ERROR_ID then SettledId(e, minted) else WireValue(e.metadata[k])))
  }

  lemma MetadataArrives(e: TraderJoeError, minted: string)
    requires Valid(e)
    ensures ReadMetadata(WireMetadata(e, minted)) == Arrived(e, minted).metadata
    ensures RESET_AT in WireMetadata(e, minted) <==> e.resetAt.Some?
    ensures e.resetAt.Some? ==> WireMetadata(e, minted)[RESET_AT] == PrintInt(e.resetAt.value)
  {
    assert RESET_AT !in e.metadata && "retry_after" !in e.metadata;
  }

  lemma ArrivedIsValid(e: TraderJoeError, minted: string)
    requires Valid(e)
    ensures Valid(Arrived(e, minted))
  {
  }

  lemma RebuiltAsArrived(e: TraderJoeError, minted: string, delay: Option<int>, read: int)
    requires Valid(e) && (e.resetAt.None? ==> delay.None?)
    ensures Rebuilt(e.reason, e.detail, ErrorInfo(Known(e.reason), DOMAIN, WireMetadata(e, minted)), delay, read) ==
            Ok(Arrived(e, minted))
  {
    MetadataArrives(e, minted);
    ArrivedIsValid(e, minted);
    if e.resetAt.Some? {
      ReadsWhatIsPrinted(e.resetAt.value);
    }
  }

  /** Every error that renders as a status arrives with its reason, branch, detail, reset and metadata, whenever it is read. */
  lemma {:induction false} HopKeepsTheError(e: TraderJoeError, minted: string, sent: int, read: int)
    requires Valid(e) && HasCode(e.reason)
    ensures FromRpcError(SendError(e, minted, sent), read) == Decoded(Arrived(e, minted))
  {
    CodesAreOurs(e.reason);
    var status := Render(e, minted, sent).value;
    RebuiltAsArrived(e, minted, status.retryDelay, read);
  }

  /** What arrives names an id, and going over another hop changes nothing more. */
  lemma {:induction false} ArrivedIsNormal(e: TraderJoeError, minted: string, again: string)
    requires Valid(e) && minted != ""
    ensures Valid(Arrived(e, minted))
    ensures OwnErrorId(Arrived(e, minted)) == Some(SettledId(e, minted)) && SettledId(e, minted) != ""
    ensures Arrived(Arrived(e, minted), again) == Arrived(e, minted)
  {
    OwnIdIsNotEmpty(e);
    var a := Arrived(e, minted);
    assert a.metadata[ERROR_ID] == Text(SettledId(e, minted));
    assert a.metadata.Keys + {ERROR_ID} == a.metadata.Keys;
    assert Arrived(a, again).metadata == a.metadata;
  }

  /** Two hops in a row give what one gives. */
  lemma {:induction false} SecondHopChangesNothing(e: TraderJoeError, minted: string, again: string, t1: int, t2: int, t3: int, t4: int)
    requires Valid(e) && HasCode(e.reason) && minted != ""
    ensures var first := FromRpcError(SendError(e, minted, t1), t2);
            first.Decoded? && HasCode(first.error.reason) && FromRpcError(SendError(first.error, again, t3), t4) == first
  {
    HopKeepsTheError(e, minted, t1, t2);
    var first := Arrived(e, minted);
    ArrivedIsNormal(e, minted, again);
    HopKeepsTheError(first, again, t3, t4);
  }

  /** The status of the second hop differs from that of the first in its delay alone. */
  lemma SecondStatusIsTheFirst(e: TraderJoeError, minted: string, again: string, t1: int, t3: int)
    requires Valid(e) && HasCode(e.reason) && minted != ""
    ensures Render(Arrived(e, minted), again, t3).value.(retryDelay := None) == Render(e, minted, t1).value.(retryDelay := None)
  {
    SameWireMetadata(e, minted, again);
  }

  lemma SameWireMetadata(e: TraderJoeError, minted: string, again: string)
    requires Valid(e) && minted != ""
    ensures WireMetadata(Arrived(e, minted), again) == WireMetadata(e, minted)
  {
    ArrivedIsNormal(e, minted, again);
    assert RESET_AT !in e.metadata;
  }

  // ---- the boundary

  datatype Raised = Vocab(error: TraderJoeError, hasCause: bool) | OtherException

  /** How a method's behaviour ends. */
  datatype Ending = Finished | Aborted | Cancelled | Raises(exc: Raised)

  /** How a call ends: well, with a status, or by letting an abort or a cancellation through. */
  datatype CallEnd = Running | EndedWell | Answered(rpc: RpcError) | LetThrough

  datatype Level = ERROR_LEVEL | WARNING_LEVEL | INFO_LEVEL

  datatype LogLine = LogLine(level: Level, id: string, traceback: bool)

  function LevelOf(d: Disposition): Level {
    match d case PAGE => ERROR_LEVEL case RECORD => WARNING_LEVEL case CLIENT_FIX => INFO_LEVEL
  }

  /** The text of a fresh id: not empty and not framed by white space. */
  predicate Mintable(id: string) {
    id != "" && Strip(id) == id
  }

  predicate IsTyped(exc: Raised) {
    exc.Vocab? && HasCode(exc.error.reason)
  }

  /** The answer to an exception, and the one line it is logged in. */
  function AnswerTo(exc: Raised, minted: string, now: int): RpcError {
    if IsTyped(exc) then SendError(exc.error, SettledId(exc.error, minted), now) else SendBug(minted)
  }

  function LineFor(exc: Raised, minted: string): LogLine {
    if IsTyped(exc) then
      LogLine(LevelOf(Reasons(exc.error.reason).disposition), SettledId(exc.error, minted),
              OwnErrorId(exc.error).None? && exc.hasCause)
    else LogLine(ERROR_LEVEL, minted, true)
  }

  /** One call on the server: what it sent, how it ended, and its log. */
  class ServerCall<M> {
    var sent: seq<M>
    var end: CallEnd
    var log: seq<LogLine>

    constructor ()
      ensures sent == [] && end == Running && log == []
    {
      sent, end, log := [], Running, [];
    }

    method AbortWithError(error: TraderJoeError, hasCause: bool, minted: string, now: int)
      requires end == Running && HasCode(error.reason)
      modifies this
      ensures end == Answered(AnswerTo(Vocab(error, hasCause), minted, now))
      ensures log == old(log) + [LineFor(Vocab(error, hasCause), minted)] && sent == old(sent)
    {
      var own := OwnErrorId(error);
      var id := if own.None? then minted else own.value;
      var status := SendError(error, id, now);
      log := log + [LogLine(LevelOf(Reasons(error.reason).disposition), id, own.None? && hasCause)];
      end := Answered(status);
    }

    method AbortFor(exc: Raised, minted: string, now: int)
      requires end == Running
      modifies this
      ensures end == Answered(AnswerTo(exc, minted, now))
      ensures log == old(log) + [LineFor(exc, minted)] && sent == old(sent)
    {
      if exc.Vocab? && Reasons(exc.error.reason).code.Some? {
        AbortWithError(exc.error, exc.hasCause, minted, now);
      } else {
        log := log + [LogLine(ERROR_LEVEL, minted, true)];
        end := Answered(SendBug(minted));
      }
    }

    /** The guarded stream: it sends what the behaviour yields and then ends the call one way. */
    method Stream(messages: seq<M>, ending: Ending, minted: string, now: int)
      requires end == Running && sent == [] && log == []
      modifies this
      ensures sent == messages && end != Running
      ensures match ending
              case Finished => end == EndedWell && log == []
              case Raises(exc) => end == Answered(AnswerTo(exc, minted, now)) && log == [LineFor(exc, minted)]
              case _ => end == LetThrough && log == []
    {
      for n := 0 to |messages|
        invariant sent == messages[..n] && end == Running && log == []
      {
        sent := sent + [messages[n]];
      }
      match ending
      case Finished => end := EndedWell;
      case Aborted => end := LetThrough;
      case Cancelled => end := LetThrough;
      case Raises(exc) => AbortFor(exc, minted, now);
    }
  }

  /**
   Every exception is answered with one status that is never UNAVAILABLE; it is INTERNAL exactly for what is no error of
   the vocabulary or has no code, and the caller reads the logged id out of every answer.
   */
  lemma {:induction false} BoundaryIsTotal(exc: Raised, minted: string, now: int, read: int)
    requires Mintable(minted) && (exc.Vocab? ==> Valid(exc.error))
    ensures var rpc := AnswerTo(exc, minted, now);
      && rpc.code != UNAVAILABLE && rpc.code != DEADLINE_EXCEEDED
      && (rpc.code == INTERNAL <==> !IsTyped(exc))
      && FromRpcError(rpc, read).Decoded?
      && (rpc.code == INTERNAL <==> FromRpcError(rpc, read).error.reason == PEER_INTERNAL)
      && OwnErrorId(FromRpcError(rpc, read).error) == Some(LineFor(exc, minted).id)
      && (rpc.rich.None? <==> rpc.code == INTERNAL)
  {
    if IsTyped(exc) {
      var e := exc.error;
      CodesAreOurs(e.reason);
      OwnIdIsNotEmpty(e);
      var id := SettledId(e, minted);
      HopKeepsTheError(e, id, now, read);
      ArrivedIsNormal(e, id, id);
    } else {
      BugIdIsRead(minted);
    }
  }

  lemma BugIdIsRead(minted: string)
    requires Mintable(minted)
    ensures BugErrorId(BUG_PREFIX + minted) == Some(minted)
  {
    assert (BUG_PREFIX + minted)[|BUG_PREFIX|..] == minted;
  }
}
