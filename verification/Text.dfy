/** Lines and records of a text, as awk reads and rebuilds them. */
module Text {

  /** The lines with one newline between neighbours, and none at the end. */
  function JoinLines(lines: seq<string>): string {
    if |lines| == 0 then ""
    else if |lines| == 1 then lines[0]
    else lines[0] + "\n" + JoinLines(lines[1..])
  }

  lemma SliceOfSlice<T>(s: seq<T>, a: nat, b: nat, c: nat, d: nat)
    requires a <= b <= |s| && c <= d <= b - a
    ensures s[a..b][c..d] == s[a + c..a + d]
  {
    forall k | 0 <= k < d - c ensures s[a..b][c..d][k] == s[a + c..a + d][k] {
    }
  }

  /** The position of the first c, or the length of a text without one. */
  function FirstOf(t: string, c: char): (k: nat)
    ensures k <= |t|
    ensures forall i :: 0 <= i < k ==> t[i] != c
    ensures k < |t| ==> t[k] == c
  {
    if t == "" || t[0] == c then 0 else 1 + FirstOf(t[1..], c)
  }

  /** awk's records: a newline ends a record, so a final newline opens no further one. */
  function Records(t: string): (rs: seq<string>)
    ensures t == "" <==> rs == []
    ensures forall r :: r in rs ==> '\n' !in r
    decreases |t|
  {
    if t == "" then []
    else
      var k := FirstOf(t, '\n');
      if k == |t| then [t] else [t[..k]] + Records(t[k + 1..])
  }

  /** The parts between separators: every separator opens a further part, so the parts are never none. */
  function SplitOn(t: string, c: char): (ps: seq<string>)
    ensures |ps| >= 1
    ensures forall p :: p in ps ==> c !in p
    decreases |t|
  {
    var k := FirstOf(t, c);
    if k == |t| then [t] else [t[..k]] + SplitOn(t[k + 1..], c)
  }

  function Split(t: string): (ps: seq<string>) {
    SplitOn(t, '\n')
  }

  /** A first part and the separator in front of a text is a first part in front of its parts. */
  lemma SplitOnCons(head: string, c: char, rest: string)
    requires c !in head
    ensures SplitOn(head + [c] + rest, c) == [head] + SplitOn(rest, c)
    ensures SplitOn(head, c) == [head]
  {
    var t := head + [c] + rest;
    assert FirstOf(t, c) == |head| by {
      assert t[|head|] == c;
      assert forall i :: 0 <= i < |head| ==> t[i] == head[i] && head[i] in head;
    }
    assert t[..|head|] == head && t[|head| + 1..] == rest;
    assert FirstOf(head, c) == |head| by { assert forall i :: 0 <= i < |head| ==> head[i] in head; }
  }

  lemma {:induction false} SplitJoins(t: string)
    ensures JoinLines(Split(t)) == t
    decreases |t|
  {
    var k := FirstOf(t, '\n');
    if k < |t| {
      SplitJoins(t[k + 1..]);
      assert Split(t)[1..] == Split(t[k + 1..]);
      assert t == t[..k] + [t[k]] + t[k + 1..];
    }
  }

  /** A text with its last line ended. */
  function Completed(t: string): string {
    if t != "" && t[|t| - 1] == '\n' then t else t + "\n"
  }

  lemma CompletedCons(head: string, rest: string)
    requires rest != ""
    ensures Completed(head + "\n" + rest) == head + "\n" + Completed(rest)
  {
    var t := head + "\n" + rest;
    assert t[|t| - 1] == rest[|rest| - 1];
    Reassociate(head, rest, "\n");
  }

  lemma Reassociate(head: string, middle: string, tail: string)
    ensures (head + "\n" + middle) + tail == head + "\n" + (middle + tail)
  {
  }

  /** Reading a text as records and printing them joined, with a newline after, only completes its last line. */
  lemma {:induction false} RecordsJoin(t: string)
    requires t != ""
    ensures JoinLines(Records(t)) + "\n" == Completed(t)
    decreases |t|
  {
    var k := FirstOf(t, '\n');
    if k < |t| {
      var head, rest := t[..k], t[k + 1..];
      CutAt(t, k);
      if rest != "" {
        RecordsJoin(rest);
        JoinCons(head, Records(rest));
        CompletedCons(head, rest);
        Reassociate(head, JoinLines(Records(rest)), "\n");
      }
    }
  }

  lemma CutAt(t: string, k: nat)
    requires k < |t| && t[k] == '\n'
    ensures t == t[..k] + "\n" + t[k + 1..]
    ensures t[k + 1..] == "" ==> t == t[..k] + "\n"
  {
  }

  lemma JoinCons(head: string, lines: seq<string>)
    requires lines != []
    ensures JoinLines([head] + lines) == head + "\n" + JoinLines(lines)
  {
    assert ([head] + lines)[1..] == lines;
  }

  /** One round of the pairwise join: neighbours joined, an odd last line carried over. */
  function PairUp(lines: seq<string>): (r: seq<string>)
    ensures |r| == (|lines| + 1) / 2
    ensures forall i :: 0 <= i < |lines| / 2 ==> r[i] == lines[2 * i] + "\n" + lines[2 * i + 1]
    ensures |lines| % 2 == 1 ==> r[|lines| / 2] == lines[|lines| - 1]
  {
    seq((|lines| + 1) / 2, i requires 0 <= i < (|lines| + 1) / 2 =>
      if 2 * i + 1 < |lines| then lines[2 * i] + "\n" + lines[2 * i + 1] else lines[2 * i])
  }

  lemma PairUpLater(lines: seq<string>, i: nat)
    requires |lines| >= 2 && i < |PairUp(lines[2..])|
    ensures PairUp(lines)[i + 1] == PairUp(lines[2..])[i]
  {
    var rest := lines[2..];
    assert rest[2 * i] == lines[2 * i + 2];
    if 2 * i + 1 < |rest| {
      assert rest[2 * i + 1] == lines[2 * i + 3];
    }
  }

  lemma PairUpCons(lines: seq<string>)
    requires |lines| >= 2
    ensures PairUp(lines) == [lines[0] + "\n" + lines[1]] + PairUp(lines[2..])
  {
    var r, all := PairUp(lines), [lines[0] + "\n" + lines[1]] + PairUp(lines[2..]);
    assert |r| == |all| && r[0] == all[0];
    forall i | 0 < i < |r| ensures r[i] == all[i] {
      PairUpLater(lines, i - 1);
    }
  }

  lemma JoinTwo(a: string, b: string, rest: seq<string>)
    ensures JoinLines([a, b] + rest) == JoinLines([a + "\n" + b] + rest)
  {
    assert [a, b] + rest == [a] + ([b] + rest);
    JoinCons(a, [b] + rest);
    if rest != [] {
      JoinCons(b, rest);
      JoinCons(a + "\n" + b, rest);
      Reassociate(a, b, "\n" + JoinLines(rest));
      assert b + ("\n" + JoinLines(rest)) == b + "\n" + JoinLines(rest);
      assert (a + "\n" + b) + ("\n" + JoinLines(rest)) == (a + "\n" + b) + "\n" + JoinLines(rest);
    } else {
      assert [b] + rest == [b];
    }
  }

  lemma {:induction false} PairUpKeepsJoin(lines: seq<string>)
    ensures JoinLines(PairUp(lines)) == JoinLines(lines)
    decreases |lines|
  {
    if |lines| >= 2 {
      var rest, pair := lines[2..], lines[0] + "\n" + lines[1];
      PairUpKeepsJoin(rest);
      PairUpCons(lines);
      assert lines == [lines[0], lines[1]] + rest;
      JoinTwo(lines[0], lines[1], rest);
      if rest != [] {
        JoinCons(pair, PairUp(rest));
        JoinCons(pair, rest);
      }
    }
  }

  /** White space as Python's strip removes it. */
  predicate IsSpace(c: char) {
    || '\U{9}' <= c <= '\U{D}' || '\U{1C}' <= c <= '\U{20}' || c == '\U{85}' || c == '\U{A0}' || c == '\U{1680}'
    || '\U{2000}' <= c <= '\U{200A}' || c == '\U{2028}' || c == '\U{2029}' || c == '\U{202F}' || c == '\U{205F}'
    || c == '\U{3000}'
  }

  function Strip(t: string): (r: string)
    ensures |r| <= |t|
    ensures r != "" ==> !IsSpace(r[0]) && !IsSpace(r[|r| - 1])
    decreases |t|
  {
    if t == "" then t
    else if IsSpace(t[0]) then Strip(t[1..])
    else if IsSpace(t[|t| - 1]) then Strip(t[..|t| - 1])
    else t
  }

  predicate AllSpace(t: string) {
    forall i :: 0 <= i < |t| ==> IsSpace(t[i])
  }

  /** It neither begins nor ends with white space. */
  predicate Bare(s: string) {
    s != "" ==> !IsSpace(s[0]) && !IsSpace(s[|s| - 1])
  }

  predicate Frames(before: string, s: string, after: string, t: string) {
    t == before + s + after && AllSpace(before) && AllSpace(after) && Bare(s)
  }

  /** The text is s between white space. */
  ghost predicate Framed(t: string, s: string) {
    exists before, after :: Frames(before, s, after, t)
  }

  lemma SpaceBefore(t: string, s: string)
    requires t != "" && IsSpace(t[0]) && Framed(t[1..], s)
    ensures Framed(t, s)
  {
    var before, after :| Frames(before, s, after, t[1..]);
    assert t == [t[0]] + t[1..] == ([t[0]] + before) + s + after;
    assert Frames([t[0]] + before, s, after, t);
  }

  lemma SpaceAfter(t: string, s: string)
    requires t != "" && IsSpace(t[|t| - 1]) && Framed(t[..|t| - 1], s)
    ensures Framed(t, s)
  {
    var before, after :| Frames(before, s, after, t[..|t| - 1]);
    assert t == t[..|t| - 1] + [t[|t| - 1]] == before + s + (after + [t[|t| - 1]]);
    assert Frames(before, s, after + [t[|t| - 1]], t);
  }

  lemma {:induction false} StripIsFramed(t: string)
    ensures Framed(t, Strip(t))
    decreases |t|
  {
    var s := Strip(t);
    if t == "" {
      assert Frames("", s, "", t);
    } else if IsSpace(t[0]) {
      StripIsFramed(t[1..]);
      SpaceBefore(t, s);
    } else if IsSpace(t[|t| - 1]) {
      StripIsFramed(t[..|t| - 1]);
      SpaceAfter(t, s);
    } else {
      assert Frames("", s, "", t);
    }
  }

  lemma {:induction false} StripOfFrame(before: string, s: string, after: string)
    requires AllSpace(before) && AllSpace(after) && Bare(s)
    ensures Strip(before + s + after) == s
    decreases |before|
  {
    var t := before + s + after;
    if before != "" {
      assert t[1..] == before[1..] + s + after;
      StripOfFrame(before[1..], s, after);
    } else if after != "" {
      assert t == s + after;
      StripOfTail(s, after);
    } else {
      assert t == s;
    }
  }

  lemma {:induction false} StripOfTail(s: string, after: string)
    requires AllSpace(after) && Bare(s)
    ensures Strip(s + after) == s
    decreases |after|
  {
    var t := s + after;
    if after == "" {
      assert t == s;
    } else if s == "" {
      assert t[1..] == s + after[1..];
      StripOfTail(s, after[1..]);
    } else {
      assert t[..|t| - 1] == s + after[..|after| - 1];
      StripOfTail(s, after[..|after| - 1]);
    }
  }

  /** Stripping keeps all between the white space, and takes all of that. */
  lemma {:induction false} StripExactly(t: string, s: string)
    ensures Strip(t) == s <==> Framed(t, s)
  {
    StripIsFramed(t);
    if Framed(t, s) {
      var before, after :| Frames(before, s, after, t);
      StripOfFrame(before, s, after);
    }
  }

  /** Where Python's splitlines breaks a text. */
  predicate IsLineBreak(c: char) {
    '\n' <= c <= '\r' || '\U{1C}' <= c <= '\U{1E}' || c == '\U{85}' || c == '\U{2028}' || c == '\U{2029}'
  }

  function FirstBreak(t: string): (k: nat)
    ensures k <= |t|
  {
    if t == "" || IsLineBreak(t[0]) then 0 else 1 + FirstBreak(t[1..])
  }

  /** The lines of a text, each stripped, without the blank ones. */
  function NonBlankLines(t: string): (ls: seq<string>)
    ensures forall l :: l in ls ==> l != ""
    decreases |t|
  {
    if t == "" then []
    else
      var k := FirstBreak(t);
      var line := Strip(t[..k]);
      (if line != "" then [line] else []) + if k < |t| then NonBlankLines(t[k + 1..]) else []
  }
}
