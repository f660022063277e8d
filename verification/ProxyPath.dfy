/**
 The path rule of the dev proxy (web/vite.config.ts): percent escapes (section 2.1 of RFC 3986), dot segments and
 separators, and the requests that are forwarded. A character is a code point.
 */
module ProxyPath {
  import opened Options
  import opened Text

  const UI_V1_PREFIX := "/api/store/ui/v1/"
  const DATASETS := "/api/store/ui/v1/datasets/"
  const MAX_DECODE_PASSES := 3

  function PathOnly(url: string): string {
    url[..FirstOf(url, '?')]
  }

  // ---- decodeURIComponent

  predicate IsHex(c: char) {
    '0' <= c <= '9' || 'a' <= c <= 'f' || 'A' <= c <= 'F'
  }

  function HexValue(c: char): (v: nat)
    requires IsHex(c)
    ensures v < 16
  {
    if c <= '9' then c as int - '0' as int else if c <= 'F' then c as int - 'A' as int + 10 else c as int - 'a' as int + 10
  }

  /** The byte that an escape at k spells. */
  function EscapeAt(s: string, k: nat): (b: Option<nat>)
    ensures b.Some? ==> k + 3 <= |s| && s[k] == '%' && b.value < 256
  {
    if k + 3 <= |s| && s[k] == '%' && IsHex(s[k + 1]) && IsHex(s[k + 2])
    then Some(16 * HexValue(s[k + 1]) + HexValue(s[k + 2])) else None
  }

  /** How many bytes a leading byte opens, 0 for one that opens no sequence. */
  function SequenceLength(lead: nat): (n: nat)
    ensures n <= 4
  {
    if lead < 0x80 then 1
    else if 0xC0 <= lead < 0xE0 then 2
    else if 0xE0 <= lead < 0xF0 then 3
    else if 0xF0 <= lead < 0xF8 then 4
    else 0
  }

  /** The payload of n continuation escapes from k on. */
  function Continuation(s: string, k: nat, n: nat, sofar: nat): (v: Option<nat>)
    ensures v.Some? ==> k + 3 * n <= |s|
    decreases n
  {
    if n == 0 then if k <= |s| then Some(sofar) else None
    else match EscapeAt(s, k)
      case Some(b) => if 0x80 <= b < 0xC0 then Continuation(s, k + 3, n - 1, sofar * 64 + (b - 0x80)) else None
      case None => None
  }

  /** A code point in its shortest form, and no surrogate. */
  predicate IsScalar(v: nat, n: nat) {
    && (n == 1 ==> v < 0x80) && (n == 2 ==> 0x80 <= v < 0x800) && (n == 3 ==> 0x800 <= v < 0x10000)
    && (n == 4 ==> 0x10000 <= v < 0x110000) && !(0xD800 <= v < 0xE000)
  }

  /** The text with its escapes decoded, none when one of them is malformed. */
  function Decode(s: string): Option<string>
    decreases |s|
  {
    if s == "" then Some("")
    else if s[0] != '%' then
      match Decode(s[1..]) case Some(t) => Some([s[0]] + t) case None => None
    else match EscapeAt(s, 0)
      case None => None
      case Some(lead) =>
        var n := SequenceLength(lead);
        if n == 0 then None
        else
          var head := if n == 1 then lead else if n == 2 then lead - 0xC0 else if n == 3 then lead - 0xE0 else lead - 0xF0;
          match Continuation(s, 3, n - 1, head)
          case None => None
          case Some(v) =>
            if !IsScalar(v, n) then None
            else match Decode(s[3 * n..])
              case Some(t) => Some([v as char] + t)
              case None => None
  }

  /** Decoding shortens every text that holds an escape, and leaves every other as it is. */
  lemma {:induction false} DecodeShortens(s: string)
    ensures Decode(s).Some? ==> |Decode(s).value| <= |s|
    ensures Decode(s).Some? && '%' in s ==> |Decode(s).value| < |s|
    ensures '%' !in s ==> Decode(s) == Some(s)
    decreases |s|
  {
    if s != "" {
      if s[0] != '%' {
        DecodeShortens(s[1..]);
        assert s == [s[0]] + s[1..];
      } else if EscapeAt(s, 0).Some? {
        var n := SequenceLength(EscapeAt(s, 0).value);
        if 0 < n && 3 * n <= |s| { DecodeShortens(s[3 * n..]); }
      }
    }
  }

  // ---- decodePath

  /** An escaped slash or backslash: %2f or %5c in either case. */
  predicate HidesSeparator(s: string) {
    exists k :: 0 <= k < |s| - 2 && s[k] == '%' && (s[k + 1..k + 3] in {"2f", "2F"} || s[k + 1..k + 3] in {"5c", "5C"})
  }

  /** The decoded form after at most n passes, none when it cannot be trusted. */
  function Passes(current: string, n: nat): Option<string>
    decreases n
  {
    if n == 0 || HidesSeparator(current) || '\\' in current then None
    else match Decode(current)
      case None => None
      case Some(next) => if next == current then Some(current) else Passes(next, n - 1)
  }

  method DecodePath(path: string) returns (r: Option<string>)
    ensures r == Passes(PathOnly(path), MAX_DECODE_PASSES + 1)
  {
    var current := PathOnly(path);
    for pass := 0 to MAX_DECODE_PASSES + 1
      invariant Passes(current, MAX_DECODE_PASSES + 1 - pass) == Passes(PathOnly(path), MAX_DECODE_PASSES + 1)
    {
      if HidesSeparator(current) || '\\' in current { return None; }
      var next := Decode(current);
      if next.None? { return None; }
      if next.value == current { return Some(current); }
      current := next.value;
    }
    return None;
  }

  /** A decoded path is a fixed point without escapes and backslashes, and is shorter than what it came from if it differs. */
  lemma {:induction false} PassesShorten(s: string, n: nat)
    requires Passes(s, n).Some?
    decreases n
    ensures var t := Passes(s, n).value;
      && '%' !in t && '\\' !in t && |t| <= |s| && (t != s ==> |t| < |s|)
  {
    DecodeShortens(s);
    var next := Decode(s).value;
    if next != s {
      PassesShorten(next, n - 1);
    }
  }

  lemma PlainPathsPass(s: string, n: nat)
    requires '%' !in s && '\\' !in s && n > 0
    ensures Passes(s, n) == Some(s)
  {
    DecodeShortens(s);
  }

  predicate HasDots(s: string) {
    exists k :: 0 <= k < |s| - 1 && s[k] == '.' && s[k + 1] == '.'
  }

  predicate IsTraversal(decoded: Option<string>) {
    decoded.None? || HasDots(decoded.value)
  }

  // ---- posix.normalize

  function JoinSlash(segments: seq<string>): string {
    if segments == [] then "" else if |segments| == 1 then segments[0] else segments[0] + "/" + JoinSlash(segments[1..])
  }

  /** The segments that stay: empty ones and single dots go, a double dot takes the one before it. */
  function Resolve(segments: seq<string>, aboveRoot: bool): seq<string> {
    if segments == [] then []
    else
      var before, s := Resolve(segments[..|segments| - 1], aboveRoot), segments[|segments| - 1];
      if s == "" || s == "." then before
      else if s != ".." then before + [s]
      else if before != [] && before[|before| - 1] != ".." then before[..|before| - 1]
      else if aboveRoot then before + [".."]
      else before
  }

  function Normalize(path: string): string {
    if path == "" then "."
    else
      var absolute, trailing := path[0] == '/', path[|path| - 1] == '/';
      var body := JoinSlash(Resolve(SplitOn(path, '/'), !absolute));
      if body == "" then if absolute then "/" else if trailing then "./" else "."
      else (if absolute then "/" else "") + body + if trailing then "/" else ""
  }

  // ---- the rule

  predicate IsUuid(u: string) {
    && |u| == 36 && u[8] == '-' && u[13] == '-' && u[18] == '-' && u[23] == '-'
    && forall k :: 0 <= k < 36 && k !in {8, 13, 18, 23} ==> IsHex(u[k])
  }

  predicate IsDatasetPath(p: string, suffix: string) {
    |p| == |DATASETS| + 36 + |suffix| && DATASETS <= p && IsUuid(p[|DATASETS|..|DATASETS| + 36]) && p[|DATASETS| + 36..] == suffix
  }

  function Upper(c: char): char {
    if 'a' <= c <= 'z' then (c as int - 32) as char else c
  }

  function ToUpper(s: string): string {
    if s == "" then "" else [Upper(s[0])] + ToUpper(s[1..])
  }

  predicate IsAllowed(httpMethod: string, path: string) {
    var p, m := PathOnly(path), ToUpper(httpMethod);
    if m == "GET" || m == "HEAD" then UI_V1_PREFIX <= p
    else if m == "PATCH" then IsDatasetPath(p, "/expiry") || IsDatasetPath(p, "/collecting")
    else m == "DELETE" && IsDatasetPath(p, "")
  }

  class Response {
    var statusCode: int
    var body: string
    var ended: bool

    constructor ()
      ensures !ended
    {
      statusCode, body, ended := 200, "", false;
    }

    method Refuse(status: int, text: string)
      modifies this
      ensures statusCode == status && body == text && ended
    {
      statusCode, body, ended := status, text, true;
    }
  }

  /** What a bypass tells the proxy: forward, or leave it to the answer that was written (a url), or to a bare 404. */
  datatype Bypass = Forward | Answered(url: string) | NotForwarded

  /** Spelled without escapes, backslashes and double dots, and with no segment that cleaning would remove. */
  ghost predicate Plain(p: string) {
    && '%' !in p && '\\' !in p && !HasDots(p)
    && forall i :: 0 < i < |SplitOn(p, '/')| ==> !Removable(SplitOn(p, '/'), i)
  }

  /** A segment that cleaning removes: a single dot, or an empty one that is not the last. */
  predicate Removable(segments: seq<string>, i: nat)
    requires i < |segments|
  {
    segments[i] == "." || (segments[i] == "" && i != |segments| - 1)
  }

  method StoreBypass(httpMethod: string, url: string, res: Response?) returns (r: Bypass)
    modifies res
    ensures r == Forward <==> Plain(PathOnly(url)) && IsAllowed(httpMethod, url)
    ensures r == Forward ==> res != null ==> unchanged(res)
    ensures r != Forward ==> r == if res == null then NotForwarded else Answered(url)
    ensures r != Forward && res != null ==>
              res.ended && res.statusCode in {400, 404} && (res.statusCode == 404 ==> !IsAllowed(httpMethod, url))
    ensures r != Forward && res != null ==> res.body == if res.statusCode == 404 then "not found" else "bad request"
    ensures r != Forward && res != null && UI_V1_PREFIX <= PathOnly(url) ==> (res.statusCode == 404 <==> Plain(PathOnly(url)))
  {
    AllowedIsUnderPrefix(httpMethod, url);
    DecidesPlain(url);
    var decoded := DecodePath(url);
    if IsTraversal(decoded) {
      r := Answer(res, 400, "bad request", url);
      return;
    }
    var cleaned := Cleaned(decoded.value);
    if cleaned != PathOnly(url) {
      r := Answer(res, 400, "bad request", url);
      return;
    }
    if !IsAllowed(httpMethod, cleaned) {
      r := Answer(res, 404, "not found", url);
      return;
    }
    return Forward;
  }

  method Answer(res: Response?, status: int, text: string, url: string) returns (r: Bypass)
    modifies res
    ensures r == if res == null then NotForwarded else Answered(url)
    ensures res != null ==> res.ended && res.statusCode == status && res.body == text
  {
    if res == null { return NotForwarded; }
    res.Refuse(status, text);
    return Answered(url);
  }

  lemma PathOnlyTwice(url: string)
    ensures PathOnly(PathOnly(url)) == PathOnly(url)
  {
    var p := PathOnly(url);
    assert FirstOf(p, '?') == |p|;
  }

  /** What the two refusals leave of the paths under the prefix is what is plain. */
  lemma DecidesPlain(url: string)
    ensures UI_V1_PREFIX <= PathOnly(url) ==> (PassesBoth(url) <==> Plain(PathOnly(url)))
  {
    var raw := PathOnly(url);
    var decoded := Passes(raw, MAX_DECODE_PASSES + 1);
    if UI_V1_PREFIX <= raw {
      if '%' !in raw && '\\' !in raw {
        PlainPathsPass(raw, MAX_DECODE_PASSES + 1);
        if !HasDots(raw) { NormalKeepsPlain(raw); }
      } else if decoded.Some? {
        PassesShorten(raw, MAX_DECODE_PASSES + 1);
        if decoded.value != "" { NormalizeShortens(decoded.value); }
      }
    }
  }

  /** Neither refused as a traversal nor changed by cleaning. */
  predicate PassesBoth(url: string) {
    var decoded := Passes(PathOnly(url), MAX_DECODE_PASSES + 1);
    !IsTraversal(decoded) && Cleaned(decoded.value) == PathOnly(url)
  }

  function Cleaned(decoded: string): string {
    if decoded == "" then "" else Normalize(decoded)
  }

  lemma AllowedIsUnderPrefix(httpMethod: string, url: string)
    ensures IsAllowed(httpMethod, url) ==> UI_V1_PREFIX <= PathOnly(url)
    ensures IsAllowed(httpMethod, PathOnly(url)) <==> IsAllowed(httpMethod, url)
  {
    PathOnlyTwice(url);
    assert DATASETS == UI_V1_PREFIX + "datasets/";
  }

  // ---- lengths

  function Total(segments: seq<string>): nat {
    if segments == [] then 0 else Total(segments[..|segments| - 1]) + |segments[|segments| - 1]| + 1
  }

  lemma {:induction false} TotalFromFront(segments: seq<string>)
    requires segments != []
    ensures Total(segments) == |segments[0]| + 1 + Total(segments[1..])
  {
    if |segments| > 1 {
      TotalFromFront(segments[..|segments| - 1]);
      assert segments[..|segments| - 1][1..] == segments[1..][..|segments| - 2];
    }
  }

  lemma {:induction false} JoinedLength(segments: seq<string>)
    ensures |JoinSlash(segments)| == if segments == [] then 0 else Total(segments) - 1
  {
    if segments != [] {
      TotalFromFront(segments);
      if |segments| > 1 { JoinedLength(segments[1..]); }
    }
  }

  lemma JoinSlashCons(first: string, rest: seq<string>)
    requires rest != []
    ensures JoinSlash([first] + rest) == first + "/" + JoinSlash(rest)
  {
    assert ([first] + rest)[1..] == rest;
  }

  lemma {:induction false} SplitJoinsSlash(t: string)
    ensures JoinSlash(SplitOn(t, '/')) == t
    decreases |t|
  {
    var k := FirstOf(t, '/');
    if k < |t| {
      var rest := SplitOn(t[k + 1..], '/');
      SplitJoinsSlash(t[k + 1..]);
      assert t[k] == '/';
      JoinSlashCons(t[..k], rest);
      assert t == t[..k] + "/" + t[k + 1..];
    }
  }

  /** What cleaning takes away at least: empty segments and single dots, each with its separator. */
  function Loss(segments: seq<string>): nat {
    if segments == [] then 0
    else
      var s := segments[|segments| - 1];
      Loss(segments[..|segments| - 1]) + if s == "" then 1 else if s == "." then 2 else 0
  }

  lemma {:induction false} ResolveShortens(segments: seq<string>, aboveRoot: bool)
    ensures Total(Resolve(segments, aboveRoot)) + Loss(segments) <= Total(segments)
  {
    if segments != [] {
      var rest := segments[..|segments| - 1];
      ResolveShortens(rest, aboveRoot);
      var before, s := Resolve(rest, aboveRoot), segments[|segments| - 1];
      assert (before + [s])[..|before|] == before;
    }
  }

  /** An empty segment or a single dot costs, and so do the empty first segment and every other one. */
  lemma {:induction false} LossOfOne(segments: seq<string>, i: nat)
    requires i < |segments| && segments[i] in {"", "."}
    ensures Loss(segments) >= 1
    ensures i > 0 && segments[0] == "" ==> Loss(segments) >= 2
    ensures i > 0 && segments[i] == "." && segments[|segments| - 1] == "" && segments[0] == "" ==> Loss(segments) >= 3
    ensures 0 < i < |segments| - 1 && segments[|segments| - 1] == "" && segments[0] == "" ==> Loss(segments) >= 3
  {
    var rest := segments[..|segments| - 1];
    if i < |segments| - 1 {
      LossOfOne(rest, i);
    } else if i > 0 && segments[0] == "" {
      LossOfOne(rest, 0);
    }
  }

  lemma {:induction false} Ends(t: string)
    requires t != ""
    ensures var segments := SplitOn(t, '/');
      && segments != []
      && (t[0] == '/' <==> segments[0] == "")
      && (t[|t| - 1] == '/' <==> segments[|segments| - 1] == "")
      && (t[0] == '/' ==> |segments| > 1)
    decreases |t|
  {
    var k := FirstOf(t, '/');
    if k < |t| {
      var rest := t[k + 1..];
      assert SplitOn(t, '/')[1..] == SplitOn(rest, '/');
      if rest != "" { Ends(rest); }
    }
  }

  lemma PartHoldsNoDots(t: string, a: nat, b: nat)
    requires a <= b <= |t| && !HasDots(t)
    ensures !HasDots(t[a..b]) && t[a..b] != ".."
  {
    var part := t[a..b];
    forall k | 0 <= k < |part| - 1 ensures !(part[k] == '.' && part[k + 1] == '.') {
      assert part[k] == t[a + k] && part[k + 1] == t[a + k + 1];
    }
    assert ".."[0] == '.' && ".."[1] == '.' && HasDots("..");
  }

  lemma {:induction false} SegmentsHoldNoDots(t: string, i: nat)
    requires !HasDots(t) && i < |SplitOn(t, '/')|
    ensures SplitOn(t, '/')[i] != ".."
    decreases |t|
  {
    var k := FirstOf(t, '/');
    if i == 0 {
      PartHoldsNoDots(t, 0, k);
      assert t[0..k] == t[..k];
    } else {
      PartHoldsNoDots(t, k + 1, |t|);
      assert t[k + 1..|t|] == t[k + 1..];
      SegmentsHoldNoDots(t[k + 1..], i - 1);
    }
  }

  lemma {:induction false} ResolveKeeps(segments: seq<string>)
    requires segments != [] && segments[0] == ""
    requires forall i :: 0 < i < |segments| ==> segments[i] !in {"", ".", ".."}
    ensures Resolve(segments, false) == segments[1..]
  {
    if |segments| > 1 {
      ResolveKeeps(segments[..|segments| - 1]);
    }
  }

  lemma {:induction false} JoinEndsInSlash(segments: seq<string>)
    requires segments != []
    ensures JoinSlash(segments + [""]) == JoinSlash(segments) + "/"
  {
    if |segments| > 1 {
      JoinEndsInSlash(segments[1..]);
      assert (segments + [""])[1..] == segments[1..] + [""];
    }
  }

  /** Cleaning never makes a path longer. */
  lemma NormalizeShortens(p: string)
    requires p != ""
    ensures |Normalize(p)| <= |p|
  {
    var segments := SplitOn(p, '/');
    var kept := Resolve(segments, p[0] != '/');
    Ends(p);
    SplitJoinsSlash(p);
    JoinedLength(segments);
    JoinedLength(kept);
    ResolveShortens(segments, p[0] != '/');
    if p[0] == '/' { LossOfOne(segments, 0); }
    if p[|p| - 1] == '/' { LossOfOne(segments, |segments| - 1); }
  }

  /** Under the prefix and without double dots, the paths that cleaning leaves as they are, are the plain ones. */
  lemma NormalKeepsPlain(raw: string)
    requires UI_V1_PREFIX <= raw && '%' !in raw && '\\' !in raw && !HasDots(raw)
    ensures Normalize(raw) == raw <==> Plain(raw)
  {
    var segments := SplitOn(raw, '/');
    assert raw[0] == '/' && |raw| > 2;
    Ends(raw);
    SplitJoinsSlash(raw);
    if Plain(raw) {
      PlainIsNormal(raw, segments);
    } else {
      var i :| 0 < i < |segments| && Removable(segments, i);
      CleaningRemoves(raw, segments, i);
    }
  }

  /** The segments of a plain path: the empty first one, names, and perhaps an empty last one. */
  predicate PlainSegments(segments: seq<string>) {
    && |segments| > 1 && segments[0] == ""
    && forall i :: 0 < i < |segments| ==> segments[i] != ".." && !Removable(segments, i)
  }

  lemma PlainIsNormal(raw: string, segments: seq<string>)
    requires Plain(raw) && |raw| > 2 && raw[0] == '/' && segments == SplitOn(raw, '/')
    requires |segments| > 1 && segments[0] == "" && (raw[|raw| - 1] == '/' <==> segments[|segments| - 1] == "")
    requires JoinSlash(segments) == raw
    ensures Normalize(raw) == raw
  {
    forall i | 0 <= i < |segments| ensures segments[i] != ".." { SegmentsHoldNoDots(raw, i); }
    JoinedLength(segments);
    if segments[|segments| - 1] == "" {
      PlainWithSlash(segments);
    } else {
      PlainWithoutSlash(segments);
    }
  }

  lemma PlainWithSlash(segments: seq<string>)
    requires PlainSegments(segments) && segments[|segments| - 1] == "" && |segments| > 2
    ensures var kept := Resolve(segments, false);
      kept != [] && JoinSlash(kept) != "" && JoinSlash(segments) == "/" + JoinSlash(kept) + "/"
  {
    var front := segments[..|segments| - 1];
    assert segments == front + [""];
    ResolveKeeps(front);
    TrailingJoin(segments, front[1..]);
    assert front[1..][0] == segments[1];
    JoinIsNotEmpty(front[1..]);
  }

  lemma JoinIsNotEmpty(segments: seq<string>)
    requires segments != [] && segments[0] != ""
    ensures JoinSlash(segments) != ""
  {
    JoinedLength(segments);
    TotalFromFront(segments);
  }

  lemma PlainWithoutSlash(segments: seq<string>)
    requires PlainSegments(segments) && segments[|segments| - 1] != ""
    ensures var kept := Resolve(segments, false);
      kept != [] && JoinSlash(kept) != "" && JoinSlash(segments) == "/" + JoinSlash(kept)
  {
    ResolveKeeps(segments);
    JoinSlashCons("", segments[1..]);
    assert segments == [""] + segments[1..];
    JoinIsNotEmpty(segments[1..]);
  }

  lemma TrailingJoin(segments: seq<string>, core: seq<string>)
    requires core != [] && segments == [""] + core + [""]
    ensures JoinSlash(segments) == "/" + JoinSlash(core) + "/"
  {
    JoinEndsInSlash(core);
    JoinSlashCons("", core + [""]);
    assert segments == [""] + (core + [""]);
  }

  lemma CleaningRemoves(raw: string, segments: seq<string>, i: nat)
    requires |raw| > 2 && raw[0] == '/' && segments == SplitOn(raw, '/')
    requires |segments| > 1 && segments[0] == "" && (raw[|raw| - 1] == '/' <==> segments[|segments| - 1] == "")
    requires JoinSlash(segments) == raw
    requires 0 < i < |segments| && Removable(segments, i)
    ensures |Normalize(raw)| < |raw|
  {
    LossOfOne(segments, i);
    ResolveShortens(segments, false);
    JoinedLength(segments);
    JoinedLength(Resolve(segments, false));
  }
}
