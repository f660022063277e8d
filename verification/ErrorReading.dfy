/**
 What a caller makes of a failed call, told of what the peer sent (server/common/rpc/errors.py): which reason, which
 detail, which reset; and what a status and a log line tell of an error.
 */
module ErrorReading {
  import opened Options
  import opened Text
  import opened Vocabulary
  import opened ErrorHop

  // ---- the transport's codes

  /** An error of the peer without a reset, in the peer's own words when it said any. */
  predicate IsOfThePeer(d: Decoding, reason: Reason, details: string) {
    && d.Decoded? && d.error.reason == reason && d.error.branch == ExogenousError && d.error.resetAt == None
    && d.error.detail != "" && (details != "" ==> d.error.detail == details)
  }

  /** The three codes that are read before any detail: a peer that is down, a deadline, and a bug of the peer. */
  lemma TransportIsRead(rpc: RpcError, now: int)
    ensures rpc.code == UNAVAILABLE ==>
      IsOfThePeer(FromRpcError(rpc, now), PEER_UNAVAILABLE, rpc.details) && FromRpcError(rpc, now).error.metadata == map[]
    ensures rpc.code == DEADLINE_EXCEEDED ==>
      IsOfThePeer(FromRpcError(rpc, now), DEADLINE, rpc.details) && FromRpcError(rpc, now).error.metadata == map[]
    ensures rpc.code == INTERNAL ==> IsOfThePeer(FromRpcError(rpc, now), PEER_INTERNAL, rpc.details)
  {
  }

  /** The details are the fixed message of a bug and an id, perhaps between white space. */
  ghost predicate NamesBug(details: string, id: string) {
    id != "" && BUG_PREFIX <= details && Framed(details[|BUG_PREFIX|..], id)
  }

  /** A bug of the peer carries exactly the id in its fixed message. */
  lemma BugIsReadExactly(rpc: RpcError, now: int, id: string)
    requires rpc.code == INTERNAL
    ensures NamesBug(rpc.details, id) <==> FromRpcError(rpc, now).error.metadata == map[ERROR_ID := Text(id)]
  {
    if BUG_PREFIX <= rpc.details { StripExactly(rpc.details[|BUG_PREFIX|..], id); }
    var m: map<string, Meta> := map[ERROR_ID := Text(id)];
    assert m[ERROR_ID] == Text(id);
  }

  // ---- every other code

  predicate FromTransport(rpc: RpcError) {
    rpc.code in {UNAVAILABLE, DEADLINE_EXCEEDED, INTERNAL}
  }

  /** The peer names a reason of this release, in its own domain. */
  predicate NamesReason(rpc: RpcError, r: Reason) {
    rpc.rich.Some? && rpc.rich.value.info.Some? && rpc.rich.value.info.value.domain == "trader-joe" &&
    rpc.rich.value.info.value.reason == Known(r)
  }

  predicate IsProtocolError(d: Decoding, details: string) {
    && d.Decoded? && d.error.reason == PEER_PROTOCOL_ERROR && d.error.branch == ExogenousError
    && d.error.metadata == map[] && d.error.resetAt == None
    && |d.error.detail| >= |details| && d.error.detail[|d.error.detail| - |details|..] == details
  }

  /** A status that names no reason of ours is a protocol error, with the peer's words in it. */
  lemma UnreadableIsProtocolError(rpc: RpcError, now: int)
    requires !FromTransport(rpc) && forall r :: !NamesReason(rpc, r)
    ensures IsProtocolError(FromRpcError(rpc, now), rpc.details)
  {
    ProtocolErrorSays(rpc.details);
    if rpc.rich.Some? && IsOurs(rpc.rich.value) { assert NamesReason(rpc, rpc.rich.value.info.value.reason.reason); }
  }

  function WrittenReset(info: ErrorInfo): string {
    if RESET_AT in info.metadata then info.metadata[RESET_AT] else ""
  }

  /** The payload is one that the vocabulary lets an error of that reason have, at the instant it is read. */
  predicate Fits(r: Reason, info: ErrorInfo, delay: Option<int>, now: int) {
    && (forall k :: k in info.metadata ==> k in METADATA_KEYS)
    && if WrittenReset(info) != "" then
         && Reasons(r).outcome == NOT_READY && ReadInstant(WrittenReset(info)).Some?
         && InCalendar(ReadInstant(WrittenReset(info)).value)
       else if delay.Some? then
         Reasons(r).outcome == NOT_READY && 0 <= delay.value < LONGEST + DAY && InCalendar(now + delay.value)
       else !Reasons(r).needsReset
  }

  /** The error of that reason, of its own branch: the peer's words, its reset or its delay from now, and its other metadata. */
  predicate IsAsNamed(e: TraderJoeError, r: Reason, details: string, info: ErrorInfo, delay: Option<int>, now: int) {
    && e.reason == r && e.branch == Reasons(r).branch && e.detail == details
    && e.resetAt == (if WrittenReset(info) != "" then ReadInstant(WrittenReset(info))
                     else if delay.Some? then Some(now + delay.value) else None)
    && e.metadata.Keys == info.metadata.Keys - {"reset_at", "retry_after"}
    && forall k :: k in e.metadata ==> e.metadata[k] == Text(info.metadata[k])
  }

  /** A named reason is kept exactly when its payload fits; every other payload is a protocol error, or leaves the calendar. */
  lemma {:induction false} NamedReasonIsRead(rpc: RpcError, r: Reason, now: int)
    requires !FromTransport(rpc) && NamesReason(rpc, r)
    ensures var info, delay, d := rpc.rich.value.info.value, rpc.rich.value.retryDelay, FromRpcError(rpc, now);
      if Fits(r, info, delay, now) then d.Decoded? && IsAsNamed(d.error, r, rpc.details, info, delay, now)
      else d == OverflowEscapes || IsProtocolError(d, rpc.details)
  {
    var info, delay := rpc.rich.value.info.value, rpc.rich.value.retryDelay;
    ProtocolErrorSays(rpc.details);
    if Fits(r, info, delay, now) {
      RebuiltWhenItFits(r, rpc.details, info, delay, now);
    } else {
      NotRebuiltOtherwise(r, rpc.details, info, delay, now);
    }
  }

  lemma ProtocolErrorSays(details: string)
    ensures IsProtocolError(Decoded(ProtocolError(details)), details)
  {
  }

  lemma RebuiltWhenItFits(r: Reason, details: string, info: ErrorInfo, delay: Option<int>, now: int)
    requires Fits(r, info, delay, now)
    ensures var b := Rebuilt(r, details, info, delay, now);
      b.Ok? && IsAsNamed(b.error, r, details, info, delay, now)
  {
    KeysThatFit(info);
  }

  lemma NotRebuiltOtherwise(r: Reason, details: string, info: ErrorInfo, delay: Option<int>, now: int)
    requires !Fits(r, info, delay, now)
    ensures !Rebuilt(r, details, info, delay, now).Ok?
  {
    KeysThatFit(info);
  }

  lemma KeysThatFit(info: ErrorInfo)
    ensures AllowedKeys(ReadMetadata(info.metadata)) <==> forall k :: k in info.metadata ==> k in METADATA_KEYS
  {
    var read := ReadMetadata(info.metadata);
    forall k | k in info.metadata && k !in DERIVED_KEYS ensures k in read { }
  }

  /** So a reason that the transport stands for arises otherwise only where the peer itself named it. */
  lemma {:induction false} TransportReasonsAreItsOwn(rpc: RpcError, now: int)
    requires FromRpcError(rpc, now).Decoded?
    ensures var r := FromRpcError(rpc, now).error.reason;
      r in {PEER_UNAVAILABLE, DEADLINE, PEER_INTERNAL} ==> FromTransport(rpc) || NamesReason(rpc, r)
  {
    if !FromTransport(rpc) {
      if r :| NamesReason(rpc, r) {
        NamedReasonIsRead(rpc, r, now);
      } else {
        UnreadableIsProtocolError(rpc, now);
      }
    }
  }

  // ---- what is sent and logged

  /** A status carries the code of its reason's row, inside and out; its delay is never short, nor a whole second too long. */
  lemma StatusTells(e: TraderJoeError, minted: string, now: int)
    requires HasCode(e.reason)
    ensures var rpc := SendError(e, minted, now);
      && Some(rpc.code) == Reasons(e.reason).code && rpc.details == e.detail
      && rpc.rich.Some? && rpc.rich.value.code == rpc.code && rpc.rich.value.message == e.detail
      && NamesReason(rpc, e.reason)
      && (rpc.rich.value.retryDelay.Some? <==> e.resetAt.Some?)
      && (e.resetAt.Some? ==>
            var delay := rpc.rich.value.retryDelay.value;
            delay >= 0 && now + delay >= e.resetAt.value && (delay > 0 ==> now + delay - SECOND < e.resetAt.value))
  {
    if e.resetAt.Some? { RetryAfterIsNeverShort(e, now); }
  }

  /** A line is an error exactly when someone is to be paged: for what does not render, and for the reasons that say so. */
  lemma LevelTells(exc: Raised, minted: string)
    ensures var level := LineFor(exc, minted).level;
      && (level == ERROR_LEVEL <==> !IsTyped(exc) || Reasons(exc.error.reason).disposition == PAGE)
      && (level == WARNING_LEVEL <==> IsTyped(exc) && Reasons(exc.error.reason).disposition == RECORD)
      && (level == INFO_LEVEL <==> IsTyped(exc) && Reasons(exc.error.reason).disposition == CLIENT_FIX)
  {
  }
}
