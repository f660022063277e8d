/**
 The host:port a server binds (server/common/rpc/server.py) and the one a client reads from its environment
 (server/common/rpc/channel.py). Which IP literals are the unspecified address is a parameter.
 */
module HostPort {
  import opened Text
  import opened Decimal

  const MAX_PORT := 65535

  datatype Problem = NotSet | NoPort | UnbracketedHost | NoHost | BadPort | Wildcard | BlankHost
  datatype Result<T> = Ok(value: T) | Err(problem: Problem)

  datatype BindAddress = BindAddress(host: string, port: int) {
    /** Section 3.2.2 of RFC 3986: an IPv6 literal is written in brackets. */
    function Target(): string
      requires 0 <= port
    {
      Written(Strip(host)) + ":" + Digits(port)
    }
  }

  function Written(h: string): string {
    if ':' in h && !Bracketed(h) then "[" + h + "]" else h
  }

  predicate Bracketed(h: string) {
    h != "" && h[0] == '['
  }

  function Bind(host: string, port: int): (r: Result<BindAddress>) {
    if Strip(host) == "" then Err(BlankHost)
    else if !(0 <= port <= MAX_PORT) then Err(BadPort)
    else Ok(BindAddress(host, port))
  }

  /** The position of the last c, or the length of a text without one. */
  function LastOf(t: string, c: char): (k: nat)
    ensures k <= |t|
    ensures forall i :: k < i < |t| ==> t[i] != c
    ensures if c in t then k < |t| && t[k] == c else k == |t|
  {
    if t == "" then 0
    else if t[|t| - 1] == c then |t| - 1
    else var k := LastOf(t[..|t| - 1], c); if k == |t| - 1 then |t| else k
  }

  predicate PortInRange(port: string) {
    port != "" && AllDigits(port) && 1 <= Value(port) <= MAX_PORT
  }

  /** The checks on a host and a port once they are apart. */
  function Accept(target: string, host: string, port: string, unspecified: string -> bool): Result<string> {
    if host == "" then Err(NoHost)
    else if !PortInRange(port) then Err(BadPort)
    else if unspecified(host[..FirstOf(host, '%')]) then Err(Wildcard)
    else Ok(target)
  }

  /** A target whose text after the opening bracket is this. */
  function AfterBracket(target: string, inside: string, unspecified: string -> bool): Result<string> {
    var k := FirstOf(inside, ']');
    if k == |inside| || k + 1 == |inside| || inside[k + 1] != ':' then Err(NoPort)
    else Accept(target, inside[..k], inside[k + 2..], unspecified)
  }

  function WithoutBracket(target: string, unspecified: string -> bool): Result<string> {
    var k := LastOf(target, ':');
    if k == |target| then Err(NoPort)
    else if ':' in target[..k] then Err(UnbracketedHost)
    else Accept(target, target[..k], target[k + 1..], unspecified)
  }

  /** The target that an environment value names. */
  function TargetFromEnv(value: string, unspecified: string -> bool): Result<string> {
    var target := Strip(value);
    if target == "" then Err(NotSet)
    else if Bracketed(target) then AfterBracket(target, target[1..], unspecified)
    else WithoutBracket(target, unspecified)
  }

  // ---- the two ends agree

  /** A host that one pair of brackets, its own or the printed one, can hold. */
  predicate Bracketable(h: string) {
    if Bracketed(h) then |h| > 2 && h[|h| - 1] == ']' && ']' !in h[1..|h| - 1]
    else ':' in h ==> ']' !in h
  }

  /** The host inside its brackets. */
  function Inner(h: string): string {
    if Bracketed(h) && |h| > 2 then h[1..|h| - 1] else h
  }

  lemma StripKeeps(t: string)
    requires t != "" && !IsSpace(t[0]) && !IsSpace(t[|t| - 1])
    ensures Strip(t) == t
  {
  }

  lemma PortIsRead(port: int)
    requires 0 <= port <= MAX_PORT
    ensures PortInRange(Digits(port)) <==> port >= 1
    ensures !IsSpace(Digits(port)[|Digits(port)| - 1])
  {
    DigitsValue(port);
  }

  lemma FirstOfConcat(a: string, b: string, c: char)
    ensures FirstOf(a + b, c) == if c in a then FirstOf(a, c) else |a| + FirstOf(b, c)
  {
    var k := FirstOf(a + b, c);
    assert c in a ==> exists i :: 0 <= i < |a| && a[i] == c && (a + b)[i] == c;
    assert forall i :: 0 <= i < k && i < |a| ==> (a + b)[i] == a[i];
    assert forall i :: 0 <= i < |b| ==> (a + b)[|a| + i] == b[i];
  }

  /** Text without a closing bracket before the port's colon is refused, and so is text between the two. */
  lemma CloseIsNeeded(t: string, rest: string, digits: string, unspecified: string -> bool)
    requires AllDigits(digits)
    requires FirstOf(rest, ']') != |rest| - 1
    ensures AfterBracket(t, rest + (":" + digits), unspecified).Err?
  {
    if ']' in rest {
      FirstOfConcat(rest, ":" + digits, ']');
      ColonInPort(rest, digits, FirstOf(rest, ']'));
    } else {
      NoClose(rest, digits);
    }
  }

  lemma NoClose(rest: string, digits: string)
    requires AllDigits(digits) && ']' !in rest
    ensures FirstOf(rest + (":" + digits), ']') == |rest + (":" + digits)|
  {
    var inside := rest + (":" + digits);
    forall i | 0 <= i < |inside| ensures inside[i] != ']' {
      if i < |rest| {
        assert inside[i] == rest[i];
      } else if i > |rest| {
        assert inside[i] == digits[i - |rest| - 1];
      }
    }
  }

  lemma ColonInPort(rest: string, digits: string, k: nat)
    requires k < |rest| - 1
    ensures !AllDigits((rest + (":" + digits))[k + 2..])
  {
    var port := (rest + (":" + digits))[k + 2..];
    assert port[|rest| - 2 - k] == ':';
  }

  lemma CloseIsEnough(t: string, rest: string, digits: string, unspecified: string -> bool)
    requires rest != "" && FirstOf(rest, ']') == |rest| - 1
    ensures AfterBracket(t, rest + (":" + digits), unspecified) == Accept(t, rest[..|rest| - 1], digits, unspecified)
  {
    var inside := rest + (":" + digits);
    FirstOfConcat(rest, ":" + digits, ']');
    var k := |rest| - 1;
    assert rest[k] == ']';
    assert inside[..k] == rest[..k];
    assert inside[k + 2..] == digits;
  }

  lemma BracketableIsFirst(h: string)
    requires Bracketed(h)
    ensures var rest := h[1..];
      rest != "" && FirstOf(rest, ']') == |rest| - 1 && rest[..|rest| - 1] != "" <==> Bracketable(h)
    ensures |h| > 2 ==> h[1..|h| - 1] == h[1..][..|h| - 2]
  {
    var rest := h[1..];
    if rest != "" {
      var front := rest[..|rest| - 1];
      assert rest == front + [rest[|rest| - 1]];
      FirstOfConcat(front, [rest[|rest| - 1]], ']');
      if |h| > 2 { assert h[1..|h| - 1] == front; }
      assert rest[|rest| - 1] == h[|h| - 1];
    }
  }

  /** A bracketed text is read when the first closing bracket is followed by a colon and a port, and nothing else. */
  lemma BracketedIsRead(h: string, digits: string, unspecified: string -> bool)
    requires Bracketed(h) && digits != "" && AllDigits(digits)
    requires !IsSpace(digits[|digits| - 1])
    ensures var t := h + ":" + digits;
      TargetFromEnv(t, unspecified) == Ok(t) <==>
      Bracketable(h) && PortInRange(digits) && !unspecified(Inner(h)[..FirstOf(Inner(h), '%')])
  {
    var t := h + ":" + digits;
    var rest := h[1..];
    StripKeeps(t);
    assert t[1..] == rest + (":" + digits);
    BracketableIsFirst(h);
    if FirstOf(rest, ']') != |rest| - 1 {
      CloseIsNeeded(t, rest, digits, unspecified);
    } else {
      assert rest != "";
      CloseIsEnough(t, rest, digits, unspecified);
    }
  }

  /** A separator that does not occur after its place is the last one. */
  lemma {:induction false} LastOfConcat(a: string, c: char, b: string)
    requires c !in b
    ensures LastOf(a + [c] + b, c) == |a|
  {
    if b != "" {
      var front := b[..|b| - 1];
      assert (a + [c] + b)[..|a| + |b|] == a + [c] + front;
      assert c !in front;
      LastOfConcat(a, c, front);
    }
  }

  lemma UnbracketedIsRead(h: string, digits: string, unspecified: string -> bool)
    requires h != "" && !Bracketed(h) && ':' !in h && !IsSpace(h[0])
    requires digits != "" && AllDigits(digits) && !IsSpace(digits[|digits| - 1])
    ensures var t := h + ":" + digits;
      TargetFromEnv(t, unspecified) == Ok(t) <==> PortInRange(digits) && !unspecified(h[..FirstOf(h, '%')])
  {
    var t := h + ":" + digits;
    StripKeeps(t);
    NoColonInDigits(digits);
    LastOfConcat(h, ':', digits);
    PartsAtColon(h, digits);
  }

  lemma NoColonInDigits(digits: string)
    requires AllDigits(digits)
    ensures ':' !in digits
  {
  }

  lemma PartsAtColon(h: string, digits: string)
    ensures (h + ":" + digits)[..|h|] == h && (h + ":" + digits)[|h| + 1..] == digits
  {
  }

  lemma WrittenIsRead(h: string, digits: string, unspecified: string -> bool)
    requires h != "" && !IsSpace(h[0]) && digits != "" && AllDigits(digits) && !IsSpace(digits[|digits| - 1])
    ensures var t := Written(h) + ":" + digits;
      TargetFromEnv(t, unspecified) == Ok(t) <==>
      PortInRange(digits) && Bracketable(h) && !unspecified(Inner(h)[..FirstOf(Inner(h), '%')])
  {
    if Bracketed(h) {
      BracketedIsRead(h, digits, unspecified);
    } else if ':' !in h {
      UnbracketedIsRead(h, digits, unspecified);
    } else {
      BracketedIsRead("[" + h + "]", digits, unspecified);
      BracketsAdded(h);
    }
  }

  /** What a server prints is read back by its client, as it is, exactly for a port that is not 0 and a host that one
   *  pair of brackets can hold and that is no wildcard. */
  lemma {:induction false} PrintedTargetIsRead(host: string, port: int, unspecified: string -> bool)
    requires Bind(host, port).Ok?
    ensures var t := Bind(host, port).value.Target();
      var h := Strip(host);
      TargetFromEnv(t, unspecified) == Ok(t) <==>
      port != 0 && Bracketable(h) && !unspecified(Inner(h)[..FirstOf(Inner(h), '%')])
  {
    PortIsRead(port);
    WrittenIsRead(Strip(host), Digits(port), unspecified);
  }

  lemma BracketsAdded(h: string)
    requires h != "" && !Bracketed(h) && ':' in h
    ensures Inner("[" + h + "]") == h == Inner(h)
    ensures Bracketable("[" + h + "]") <==> Bracketable(h)
  {
    var b := "[" + h + "]";
    assert b[1..|b| - 1] == h;
  }

  /** A host, bracketed or without a colon, then a colon and a port in range. */
  predicate IsHostAndPort(t: string, h: string, port: string) {
    t == h + ":" + port && PortInRange(port) && h != "" && Bracketable(h) && (':' in h ==> Bracketed(h))
  }

  ghost predicate IsTarget(t: string) {
    exists h, port :: IsHostAndPort(t, h, port)
  }

  lemma InBrackets(t: string, inside: string, k: nat)
    requires t == "[" + inside && 0 < k < |inside| - 1 && inside[k] == ']' && inside[k + 1] == ':'
    requires ']' !in inside[..k] && PortInRange(inside[k + 2..])
    ensures IsTarget(t)
  {
    var h, port := "[" + inside[..k] + "]", inside[k + 2..];
    assert inside == inside[..k] + [inside[k]] + [inside[k + 1]] + port;
    assert h[1..|h| - 1] == inside[..k];
    assert IsHostAndPort(t, h, port);
  }

  lemma AtTheLastColon(t: string, k: nat)
    requires 0 < k < |t| && t[k] == ':' && ':' !in t[..k] && !Bracketed(t) && PortInRange(t[k + 1..])
    ensures IsTarget(t)
  {
    assert t == t[..k] + [t[k]] + t[k + 1..];
    assert t[..k][0] == t[0];
    assert IsHostAndPort(t, t[..k], t[k + 1..]);
  }

  lemma AcceptedInside(t: string, inside: string, unspecified: string -> bool)
    requires t == "[" + inside && AfterBracket(t, inside, unspecified).Ok?
    ensures IsTarget(t)
  {
    InBrackets(t, inside, FirstOf(inside, ']'));
  }

  lemma AcceptedOutside(t: string, unspecified: string -> bool)
    requires t != "" && !Bracketed(t) && WithoutBracket(t, unspecified).Ok?
    ensures IsTarget(t)
  {
    AtTheLastColon(t, LastOf(t, ':'));
  }

  /** What is accepted is the stripped value, and it is a host, a colon and a port in range. */
  lemma {:induction false} AcceptedIsTarget(value: string, unspecified: string -> bool)
    requires TargetFromEnv(value, unspecified).Ok?
    ensures TargetFromEnv(value, unspecified) == Ok(Strip(value)) && IsTarget(Strip(value))
  {
    var t := Strip(value);
    if Bracketed(t) {
      assert t == "[" + t[1..];
      AcceptedInside(t, t[1..], unspecified);
    } else {
      AcceptedOutside(t, unspecified);
    }
  }

  lemma {:induction false} StripTwice(value: string)
    ensures Strip(Strip(value)) == Strip(value)
  {
    if Strip(value) != "" { StripKeeps(Strip(value)); }
  }

  lemma DigitsAreNoSpace(port: string)
    requires AllDigits(port)
    ensures forall i :: 0 <= i < |port| ==> !IsSpace(port[i])
  {
  }

  /**
   The accepted language, both ways: a value is accepted, and returned stripped, exactly when between white space it is a
   host, bracketed if it has a colon, a colon and a port in range, and the host is no wildcard.
   */
  lemma {:induction false} AcceptedExactly(value: string, unspecified: string -> bool)
    ensures TargetFromEnv(value, unspecified) == Ok(Strip(value)) <==>
      exists h, port :: IsHostAndPort(Strip(value), h, port) && !unspecified(Inner(h)[..FirstOf(Inner(h), '%')])
  {
    var t := Strip(value);
    StripTwice(value);
    if TargetFromEnv(value, unspecified).Ok? { AcceptedIsTarget(value, unspecified); }
    forall h, port | IsHostAndPort(t, h, port)
      ensures TargetFromEnv(t, unspecified) == Ok(t) <==> !unspecified(Inner(h)[..FirstOf(Inner(h), '%')])
    {
      DigitsAreNoSpace(port);
      assert h[0] == t[0];
      WrittenIsRead(h, port, unspecified);
    }
  }

  /** An address can be bound exactly when its host is not all white space and its port is in range, 0 among them. */
  lemma BoundExactly(host: string, port: int)
    ensures Bind(host, port).Ok? <==> 0 <= port <= 65535 && !AllSpace(host)
  {
    StripExactly(host, "");
    if AllSpace(host) { assert Frames(host, "", "", host); }
    if Framed(host, "") {
      var before, after :| Frames(before, "", after, host);
      forall i | 0 <= i < |host| ensures IsSpace(host[i]) {
        if i < |before| { assert host[i] == before[i]; } else { assert host[i] == after[i - |before|]; }
      }
    }
  }
}
