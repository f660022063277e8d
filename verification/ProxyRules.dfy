/**
 The method rules of the dev proxy and its reading of escapes (web/vite.config.ts), told of the words of a request.
 */
module ProxyRules {
  import opened Options
  import opened Text
  import opened ProxyPath

  // ---- the rules

  /** A path ends at its first question mark. */
  lemma PathEndsAtTheQuestion(p: string, query: string)
    requires '?' !in p
    ensures PathOnly(p) == p && PathOnly(p + "?" + query) == p
  {
    var url := p + "?" + query;
    assert url[|p|] == '?';
    assert forall i :: 0 <= i < |p| ==> url[i] == p[i] && p[i] in p;
    assert url[..|p|] == p;
    assert FirstOf(p, '?') == |p| && p[..|p|] == p by { assert forall i :: 0 <= i < |p| ==> p[i] in p; }
  }

  /** The name in capitals, each of its letters in either case. */
  predicate IsMethod(httpMethod: string, name: string) {
    && |httpMethod| == |name|
    && forall i :: 0 <= i < |name| ==> httpMethod[i] == name[i] || httpMethod[i] as int == name[i] as int + 32
  }

  lemma {:induction false} MethodExactly(httpMethod: string, name: string)
    requires forall i :: 0 <= i < |name| ==> 'A' <= name[i] <= 'Z'
    ensures ToUpper(httpMethod) == name <==> IsMethod(httpMethod, name)
    decreases |httpMethod|
  {
    if httpMethod != "" && name != "" {
      var rest, last := httpMethod[1..], name[1..];
      assert forall i :: 0 <= i < |last| ==> last[i] == name[i + 1];
      assert forall i :: 0 <= i < |rest| ==> rest[i] == httpMethod[i + 1];
      MethodExactly(rest, last);
      if IsMethod(rest, last) && Upper(httpMethod[0]) == name[0] {
        assert name == [name[0]] + last;
        forall i | 0 <= i < |name| ensures httpMethod[i] == name[i] || httpMethod[i] as int == name[i] as int + 32 {
          if i > 0 { assert httpMethod[i] == rest[i - 1] && name[i] == last[i - 1]; }
        }
      }
      if ToUpper(httpMethod) == name { assert ToUpper(httpMethod)[1..] == ToUpper(rest); }
    }
  }

  predicate AreHex(t: string, n: nat) {
    |t| == n && forall i :: 0 <= i < n ==> IsHex(t[i])
  }

  /** Five groups of hex digits with a dash between neighbours. */
  predicate AreGroups(u: string, a: string, b: string, c: string, d: string, e: string) {
    && u == a + "-" + b + "-" + c + "-" + d + "-" + e
    && AreHex(a, 8) && AreHex(b, 4) && AreHex(c, 4) && AreHex(d, 4) && AreHex(e, 12)
  }

  ghost predicate HasGroups(u: string) {
    exists a, b, c, d, e :: AreGroups(u, a, b, c, d, e)
  }

  lemma UuidExactly(u: string)
    ensures IsUuid(u) <==> HasGroups(u)
  {
    if IsUuid(u) {
      var a, b, c, d, e := u[..8], u[9..13], u[14..18], u[19..23], u[24..];
      assert u == a + [u[8]] + b + [u[13]] + c + [u[18]] + d + [u[23]] + e;
      assert AreGroups(u, a, b, c, d, e);
    }
    if HasGroups(u) {
      var a, b, c, d, e :| AreGroups(u, a, b, c, d, e);
      GroupsAreUuid(u, a, b, c, d, e);
    }
  }

  lemma GroupsAreUuid(u: string, a: string, b: string, c: string, d: string, e: string)
    requires AreGroups(u, a, b, c, d, e)
    ensures IsUuid(u)
  {
    assert u[..8] == a && u[9..13] == b && u[14..18] == c && u[19..23] == d && u[24..] == e;
    forall k | 0 <= k < 36 && k !in {8, 13, 18, 23} ensures IsHex(u[k]) {
      if k < 8 { assert u[k] == a[k]; }
      else if k < 13 { assert u[k] == b[k - 9]; }
      else if k < 18 { assert u[k] == c[k - 14]; }
      else if k < 23 { assert u[k] == d[k - 19]; }
      else { assert u[k] == e[k - 24]; }
    }
  }

  /** A dataset's path: the prefix, its id, and what follows. */
  predicate IsPathOf(p: string, u: string, suffix: string) {
    p == "/api/store/ui/v1/datasets/" + u + suffix
  }

  lemma DatasetPathExactly(p: string, suffix: string)
    ensures IsDatasetPath(p, suffix) <==> exists u :: HasGroups(u) && IsPathOf(p, u, suffix)
  {
    if IsDatasetPath(p, suffix) {
      var u := p[|DATASETS|..|DATASETS| + 36];
      UuidExactly(u);
      assert p == p[..|DATASETS|] + u + p[|DATASETS| + 36..];
      assert IsPathOf(p, u, suffix);
    }
    if u :| HasGroups(u) && IsPathOf(p, u, suffix) {
      UuidExactly(u);
      assert p[|DATASETS|..|DATASETS| + 36] == u && p[|DATASETS| + 36..] == suffix;
    }
  }

  /** What is forwarded: a GET or HEAD under the prefix, a PATCH of a dataset's expiry or collecting, a DELETE of a dataset. */
  lemma AllowedExactly(httpMethod: string, url: string)
    ensures var p := PathOnly(url);
      IsAllowed(httpMethod, url) <==>
      || ((IsMethod(httpMethod, "GET") || IsMethod(httpMethod, "HEAD")) && "/api/store/ui/v1/" <= p)
      || (IsMethod(httpMethod, "PATCH") && exists u :: HasGroups(u) && (IsPathOf(p, u, "/expiry") || IsPathOf(p, u, "/collecting")))
      || (IsMethod(httpMethod, "DELETE") && exists u :: HasGroups(u) && IsPathOf(p, u, ""))
  {
    var p := PathOnly(url);
    MethodExactly(httpMethod, "GET");
    MethodExactly(httpMethod, "HEAD");
    MethodExactly(httpMethod, "PATCH");
    MethodExactly(httpMethod, "DELETE");
    DatasetPathExactly(p, "/expiry");
    DatasetPathExactly(p, "/collecting");
    DatasetPathExactly(p, "");
  }

  /** An escaped slash or backslash is refused as it stands, in whatever pass it is seen. */
  lemma HiddenSeparatorIsRefused(s: string, k: nat, n: nat)
    requires k + 3 <= |s| && (s[k..k + 3] == "%2f" || s[k..k + 3] == "%2F" || s[k..k + 3] == "%5c" || s[k..k + 3] == "%5C")
    ensures Passes(s, n).None?
  {
    assert s[k..k + 3][0] == s[k] && s[k..k + 3][1..] == s[k + 1..k + 3];
  }

  // ---- escapes

  function HexOf(v: nat): (c: char)
    requires v < 16
    ensures IsHex(c) && HexValue(c) == v
  {
    if v < 10 then ('0' as int + v) as char else ('A' as int + v - 10) as char
  }

  function EscapedByte(b: nat): string
    requires b < 256
  {
    ['%', HexOf(b / 16), HexOf(b % 16)]
  }

  /** A character in UTF-8, each of its bytes escaped. */
  function EscapedChar(c: char): string {
    var v := c as int;
    if v < 0x80 then EscapedByte(v)
    else if v < 0x800 then EscapedByte(0xC0 + v / 64) + EscapedByte(0x80 + v % 64)
    else if v < 0x10000 then EscapedByte(0xE0 + v / 4096) + EscapedByte(0x80 + v / 64 % 64) + EscapedByte(0x80 + v % 64)
    else
      EscapedByte(0xF0 + v / 262144) + EscapedByte(0x80 + v / 4096 % 64) + EscapedByte(0x80 + v / 64 % 64) +
      EscapedByte(0x80 + v % 64)
  }

  /** A text with some of its characters escaped, and always its percent signs. */
  function Escaped(s: string, which: seq<bool>): string
    requires |which| == |s|
  {
    if s == "" then ""
    else (if s[0] == '%' || which[0] then EscapedChar(s[0]) else [s[0]]) + Escaped(s[1..], which[1..])
  }

  lemma ByteIsRead(s: string, k: nat, b: nat)
    requires b < 256 && k + 3 <= |s| && s[k] == '%' && s[k + 1] == HexOf(b / 16) && s[k + 2] == HexOf(b % 16)
    ensures EscapeAt(s, k) == Some(b)
  {
  }

  lemma OneByte(c: char, rest: string)
    requires c as int < 0x80
    ensures Decode(EscapedChar(c) + rest) == match Decode(rest) case Some(t) => Some([c] + t) case None => None
  {
    var s := EscapedChar(c) + rest;
    ByteIsRead(s, 0, c as int);
    assert s[3..] == rest;
  }

  lemma TwoBytes(c: char, rest: string)
    requires 0x80 <= c as int < 0x800
    ensures Decode(EscapedChar(c) + rest) == match Decode(rest) case Some(t) => Some([c] + t) case None => None
  {
    var s, v := EscapedChar(c) + rest, c as int;
    ByteIsRead(s, 0, 0xC0 + v / 64);
    ByteIsRead(s, 3, 0x80 + v % 64);
    assert Continuation(s, 6, 0, v) == Some(v);
    assert Continuation(s, 3, 1, v / 64) == Some(v);
    assert s[6..] == rest;
  }

  lemma NextByte(s: string, k: nat, n: nat, sofar: nat, b: nat, v: nat)
    requires n > 0 && b < 64 && EscapeAt(s, k) == Some(0x80 + b) && Continuation(s, k + 3, n - 1, sofar * 64 + b) == Some(v)
    ensures Continuation(s, k, n, sofar) == Some(v)
  {
  }

  /** A number and its last six bits, again and again. */
  lemma Sextets(v: nat)
    ensures v / 64 * 64 + v % 64 == v && v / 4096 * 64 + v / 64 % 64 == v / 64
    ensures v / 262144 * 64 + v / 4096 % 64 == v / 4096
  {
  }

  /** A leading byte and what continues it is one character. */
  lemma LeadIsRead(s: string, n: nat, lead: nat, head: nat, c: char, rest: string)
    requires EscapeAt(s, 0) == Some(lead) && SequenceLength(lead) == n && n in {3, 4}
    requires head == (if n == 3 then lead - 0xE0 else lead - 0xF0) && Continuation(s, 3, n - 1, head) == Some(c as int)
    requires IsScalar(c as int, n) && 3 * n <= |s| && s[3 * n..] == rest
    ensures Decode(s) == match Decode(rest) case Some(t) => Some([c] + t) case None => None
  {
  }

  lemma TwoContinue(s: string, v: nat)
    requires EscapeAt(s, 3) == Some(0x80 + v / 64 % 64) && EscapeAt(s, 6) == Some(0x80 + v % 64) && |s| >= 9
    ensures Continuation(s, 3, 2, v / 4096) == Some(v)
  {
    Sextets(v);
    assert Continuation(s, 9, 0, v) == Some(v);
    NextByte(s, 6, 1, v / 64, v % 64, v);
    NextByte(s, 3, 2, v / 4096, v / 64 % 64, v);
  }

  lemma ThreeBytes(c: char, rest: string)
    requires 0x800 <= c as int < 0x10000
    ensures Decode(EscapedChar(c) + rest) == match Decode(rest) case Some(t) => Some([c] + t) case None => None
  {
    var s, v := EscapedChar(c) + rest, c as int;
    ByteIsRead(s, 0, 0xE0 + v / 4096);
    ByteIsRead(s, 3, 0x80 + v / 64 % 64);
    ByteIsRead(s, 6, 0x80 + v % 64);
    TwoContinue(s, v);
    LeadIsRead(s, 3, 0xE0 + v / 4096, v / 4096, c, rest);
  }

  lemma FourBytes(c: char, rest: string)
    requires 0x10000 <= c as int
    ensures Decode(EscapedChar(c) + rest) == match Decode(rest) case Some(t) => Some([c] + t) case None => None
  {
    var s, v := EscapedChar(c) + rest, c as int;
    FourAreRead(s, c, rest);
    ThreeContinue(s, v);
    LeadIsRead(s, 4, 0xF0 + v / 262144, v / 262144, c, rest);
  }

  lemma ThreeContinue(s: string, v: nat)
    requires EscapeAt(s, 3) == Some(0x80 + v / 4096 % 64) && EscapeAt(s, 6) == Some(0x80 + v / 64 % 64)
    requires EscapeAt(s, 9) == Some(0x80 + v % 64) && Continuation(s, 12, 0, v) == Some(v)
    ensures Continuation(s, 3, 3, v / 262144) == Some(v)
  {
    Sextets(v);
    NextByte(s, 9, 1, v / 64, v % 64, v);
    NextByte(s, 6, 2, v / 4096, v / 64 % 64, v);
    NextByte(s, 3, 3, v / 262144, v / 4096 % 64, v);
  }

  lemma FourAreRead(s: string, c: char, rest: string)
    requires 0x10000 <= c as int && s == EscapedChar(c) + rest
    ensures var v := c as int;
      && EscapeAt(s, 0) == Some(0xF0 + v / 262144) && EscapeAt(s, 3) == Some(0x80 + v / 4096 % 64)
      && EscapeAt(s, 6) == Some(0x80 + v / 64 % 64) && EscapeAt(s, 9) == Some(0x80 + v % 64)
      && |s| >= 12 && s[12..] == rest && Continuation(s, 12, 0, v) == Some(v)
  {
    var v := c as int;
    ByteIsRead(s, 0, 0xF0 + v / 262144);
    ByteIsRead(s, 3, 0x80 + v / 4096 % 64);
    ByteIsRead(s, 6, 0x80 + v / 64 % 64);
    ByteIsRead(s, 9, 0x80 + v % 64);
  }

  /** Decoding gives a text back, whichever of its characters were escaped. */
  lemma {:induction false} DecodesTheEscaped(s: string, which: seq<bool>)
    requires |which| == |s|
    ensures Decode(Escaped(s, which)) == Some(s)
  {
    if s != "" {
      var c, rest := s[0], Escaped(s[1..], which[1..]);
      DecodesTheEscaped(s[1..], which[1..]);
      assert s == [c] + s[1..];
      if c != '%' && !which[0] {
        assert ([c] + rest)[1..] == rest;
      } else if c as int < 0x80 {
        OneByte(c, rest);
      } else if c as int < 0x800 {
        TwoBytes(c, rest);
      } else if c as int < 0x10000 {
        ThreeBytes(c, rest);
      } else {
        FourBytes(c, rest);
      }
    }
  }
}
