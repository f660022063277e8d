/** The error vocabulary (server/common/errors/vocabulary.py): the reasons, their rows, and the errors built from them. */
module Vocabulary {
  import opened Options
  import opened Text

  datatype Reason =
    | INVALID_REQUEST | UNSUPPORTED_ASSET_TYPE | UNSUPPORTED_INSTRUMENT | FEED_NOT_AVAILABLE | VENDOR_INVALID_REQUEST
    | RANGE_IN_FUTURE | VENDOR_REJECTED | NOT_FOUND | OWNER_MISMATCH | OVERRIDE_REQUIRED | OWN_OVERLAP_CONFLICT
    | RANGE_COLLISION | RANGE_SHRINK | DUPLICATE_BAR_TIMESTAMP | DATABASE_INTEGRITY | RATE_BUDGET | VENDOR_RATE_LIMITED
    | VENDOR_UNAVAILABLE | VENDOR_AUTH | DEADLINE | PEER_UNAVAILABLE | PEER_INTERNAL | PEER_PROTOCOL_ERROR
    | DATABASE_UNAVAILABLE | DATABASE_CONFLICT

  datatype Branch = ExogenousError | InvalidRequestError

  datatype Outcome = REFUSED | NOT_READY

  datatype Disposition = PAGE | RECORD | CLIENT_FIX

  datatype Code =
    | INVALID_ARGUMENT | NOT_FOUND_CODE | PERMISSION_DENIED | FAILED_PRECONDITION | ALREADY_EXISTS
    | INTERNAL | UNAVAILABLE | DEADLINE_EXCEEDED | OtherCode(name: string)

  datatype Row = Row(branch: Branch, outcome: Outcome, disposition: Disposition, code: Option<Code>, http: int, needsReset: bool)

  /** The one table. */
  function Reasons(r: Reason): Row {
    match r
    case INVALID_REQUEST => Fix(Some(INVALID_ARGUMENT), 422)
    case UNSUPPORTED_ASSET_TYPE => Fix(Some(INVALID_ARGUMENT), 422)
    case UNSUPPORTED_INSTRUMENT => Fix(Some(INVALID_ARGUMENT), 422)
    case FEED_NOT_AVAILABLE => Fix(None, 422)
    case VENDOR_INVALID_REQUEST => Fix(Some(INVALID_ARGUMENT), 422)
    case RANGE_IN_FUTURE => Fix(Some(INVALID_ARGUMENT), 422)
    case VENDOR_REJECTED => Row(ExogenousError, REFUSED, PAGE, Some(INVALID_ARGUMENT), 422, false)
    case NOT_FOUND => Fix(Some(NOT_FOUND_CODE), 404)
    case OWNER_MISMATCH => Fix(Some(PERMISSION_DENIED), 403)
    case OVERRIDE_REQUIRED => Fix(Some(FAILED_PRECONDITION), 409)
    case OWN_OVERLAP_CONFLICT => Fix(Some(ALREADY_EXISTS), 409)
    case RANGE_COLLISION => Fix(Some(ALREADY_EXISTS), 409)
    case RANGE_SHRINK => Fix(Some(FAILED_PRECONDITION), 409)
    case DUPLICATE_BAR_TIMESTAMP => Fix(Some(INVALID_ARGUMENT), 422)
    case DATABASE_INTEGRITY => Row(ExogenousError, REFUSED, PAGE, None, 409, false)
    case RATE_BUDGET => Later(RECORD, Some(FAILED_PRECONDITION), 429).(needsReset := true)
    case VENDOR_RATE_LIMITED => Later(PAGE, Some(FAILED_PRECONDITION), 429).(needsReset := true)
    case VENDOR_UNAVAILABLE => Later(RECORD, Some(FAILED_PRECONDITION), 503)
    case VENDOR_AUTH => Later(PAGE, Some(FAILED_PRECONDITION), 503)
    case DEADLINE => Later(RECORD, Some(FAILED_PRECONDITION), 504)
    case PEER_UNAVAILABLE => Later(PAGE, None, 503)
    case PEER_INTERNAL => Later(PAGE, None, 502)
    case PEER_PROTOCOL_ERROR => Later(PAGE, None, 502)
    case DATABASE_UNAVAILABLE => Later(PAGE, None, 503)
    case DATABASE_CONFLICT => Later(RECORD, None, 503)
  }

  function Fix(code: Option<Code>, http: int): Row {
    Row(InvalidRequestError, REFUSED, CLIENT_FIX, code, http, false)
  }

  function Later(disposition: Disposition, code: Option<Code>, http: int): Row {
    Row(ExogenousError, NOT_READY, disposition, code, http, false)
  }

  /** No row renders as a code that a hop reads as the transport's or a bug's. */
  lemma CodesAreOurs(r: Reason)
    ensures Reasons(r).code.Some? ==> Reasons(r).code.value !in {UNAVAILABLE, DEADLINE_EXCEEDED, INTERNAL}
    ensures Reasons(r).needsReset ==> Reasons(r).outcome == NOT_READY
  {
  }

  const METADATA_KEYS := {
    "asset_symbol", "range_start", "range_end", "feed", "granularity", "vendor", "retry_after", "reset_at",
    "colliding_ids", "error_id"
  }
  const DERIVED_KEYS := {"reset_at", "retry_after"}
  const ERROR_ID := "error_id"
  const RESET_AT := "reset_at"

  /** A metadata value: a text, or a sequence of texts. */
  datatype Meta = Text(text: string) | Items(items: seq<string>)

  /** An error; instants are microseconds. A built error is immutable. */
  datatype TraderJoeError =
    TraderJoeError(branch: Branch, reason: Reason, detail: string, metadata: map<string, Meta>, resetAt: Option<int>)

  /** What a constructor gives; OverflowError is what the calendar raises past its ends, and is neither of the others. */
  datatype Built = Ok(error: TraderJoeError) | TypeError | ValueError | OverflowError

  const SECOND := 1_000_000
  const DAY := 86_400 * SECOND
  /** The first and the last instant of the calendar in UTC, from the start of 1970. */
  const LEAST := -62_135_596_800 * SECOND
  const GREATEST := 253_402_300_799 * SECOND + 999_999
  /** The longest delay that can be held, to either side. */
  const LONGEST := 999_999_999 * DAY

  predicate InCalendar(instant: int) {
    LEAST <= instant <= GREATEST
  }

  predicate AllowedKeys(metadata: map<string, Meta>) {
    forall k :: k in metadata ==> k in METADATA_KEYS && k !in DERIVED_KEYS
  }

  /** The constructor's checks, in its order. */
  function Build(branch: Branch, reason: Reason, detail: string, metadata: map<string, Meta>, resetAt: Option<int>): Built {
    var row := Reasons(reason);
    if branch != row.branch then TypeError
    else if !AllowedKeys(metadata) then ValueError
    else if resetAt.None? && row.needsReset then ValueError
    else if resetAt.Some? && row.outcome == REFUSED then ValueError
    else if resetAt.Some? && !InCalendar(resetAt.value) then OverflowError
    else Ok(TraderJoeError(branch, reason, detail, metadata, resetAt))
  }

  /** The errors that can exist. */
  predicate Valid(e: TraderJoeError) {
    Build(e.branch, e.reason, e.detail, e.metadata, e.resetAt) == Ok(e)
  }

  /** An error is built exactly on its reason's branch, with allowed keys, and with a reset where its row lets it have one. */
  lemma ValidExactly(e: TraderJoeError)
    ensures Valid(e) <==>
      && e.branch == Reasons(e.reason).branch
      && (forall k :: k in e.metadata ==> k in METADATA_KEYS && k != "reset_at" && k != "retry_after")
      && (Reasons(e.reason).needsReset ==> e.resetAt.Some?)
      && (e.resetAt.Some? ==> Reasons(e.reason).outcome == NOT_READY && LEAST <= e.resetAt.value <= GREATEST)
  {
  }

  /** The delay is added to the clock before anything else is checked. */
  function FromRetryAfter(
    branch: Branch, reason: Reason, detail: string, delay: int, metadata: map<string, Meta>, now: int): Built
  {
    if delay < 0 then ValueError
    else if !InCalendar(now + delay) then OverflowError
    else Build(branch, reason, detail, metadata, Some(now + delay))
  }

  /** Whole seconds until the reset, rounded up and never negative. */
  function RetryAfter(e: TraderJoeError, now: int): Option<nat> {
    match e.resetAt
    case None => None
    case Some(at) => Some(if at <= now then 0 else (at - now + SECOND - 1) / SECOND)
  }

  /** The delay is never short, and never a whole second too long. */
  lemma RetryAfterIsNeverShort(e: TraderJoeError, now: int)
    requires e.resetAt.Some?
    ensures var s := RetryAfter(e, now).value;
            now + s * SECOND >= e.resetAt.value && (s > 0 ==> now + (s - 1) * SECOND < e.resetAt.value)
  {
  }

  // ---- the correlation id

  function Join(items: seq<string>): string {
    if items == [] then "" else if |items| == 1 then items[0] else items[0] + "," + Join(items[1..])
  }

  lemma {:induction false} JoinIsRead(items: seq<string>)
    requires items != [] && forall i :: i in items ==> ',' !in i
    ensures SplitOn(Join(items), ',') == items
  {
    assert items[0] in items;
    if |items| == 1 {
      SplitOnCons(items[0], ',', "");
    } else {
      JoinIsRead(items[1..]);
      SplitOnCons(items[0], ',', Join(items[1..]));
      assert items[0] + "," + Join(items[1..]) == items[0] + [','] + Join(items[1..]);
    }
  }

  /** A metadata value as one text: a sequence joined by commas. */
  function WireValue(m: Meta): string {
    match m case Text(t) => t case Items(items) => Join(items)
  }

  /** The id an error carries, none when its value names nothing. */
  function OwnErrorId(e: TraderJoeError): (id: Option<string>)
    ensures id.Some? ==> ERROR_ID in e.metadata && id.value == WireValue(e.metadata[ERROR_ID])
  {
    if ERROR_ID !in e.metadata then None
    else match e.metadata[ERROR_ID]
      case Text(t) => if t == "" then None else Some(t)
      case Items(items) => if forall i :: i in items ==> i == "" then None else Some(Join(items))
  }

  lemma {:induction false} JoinNamesSomething(items: seq<string>)
    requires exists i :: i in items && i != ""
    ensures Join(items) != ""
  {
    if |items| > 1 { assert |Join(items)| > 0; }
  }

  /** A metadata value names something: a text that is not empty, or one such text among its items. */
  predicate NamesSomething(m: Meta) {
    match m case Text(t) => |t| > 0 case Items(items) => exists i :: 0 <= i < |items| && |items[i]| > 0
  }

  /** An error has an id of its own exactly when its value names something, and an id is never the empty text. */
  lemma {:induction false} OwnIdIsNotEmpty(e: TraderJoeError)
    ensures OwnErrorId(e).Some? <==> ERROR_ID in e.metadata && NamesSomething(e.metadata[ERROR_ID])
    ensures OwnErrorId(e).Some? ==> OwnErrorId(e).value != ""
  {
    if ERROR_ID in e.metadata && e.metadata[ERROR_ID].Items? {
      var items := e.metadata[ERROR_ID].items;
      if i :| 0 <= i < |items| && |items[i]| > 0 { assert items[i] in items; }
    }
    if OwnErrorId(e).Some? && e.metadata[ERROR_ID].Items? {
      JoinNamesSomething(e.metadata[ERROR_ID].items);
    }
  }
}
