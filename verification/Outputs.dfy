/**
 What the readings of a command's output mean, said of the bytes it printed (tools/agent_mcp/stack.py): a digest, a
 stamp, the ids of a lookup and a mount.
 */
module Outputs {
  import opened Options
  import opened Text
  import opened ModeGuard
  import opened Commands

  const HEX := "0123456789abcdef"

  // ---- digests and stamps

  ghost predicate Hex64(d: string) {
    |d| == 64 && AllHex(d)
  }

  lemma HexDigit(c: char)
    ensures c in HEX <==> '0' <= c <= '9' || 'a' <= c <= 'f'
  {
    if '0' <= c <= '9' { assert HEX[c as int - '0' as int] == c; }
    if 'a' <= c <= 'f' { assert HEX[c as int - 'a' as int + 10] == c; }
  }

  ghost predicate AllHex(d: string) {
    forall i :: 0 <= i < |d| ==> d[i] in HEX
  }

  lemma HexText(d: string)
    ensures AllHex(d) <==> forall c :: c in d ==> '0' <= c <= '9' || 'a' <= c <= 'f'
    ensures AllHex(d) ==> forall i :: 0 <= i < |d| ==> !IsSpace(d[i]) && !IsLineBreak(d[i])
  {
    forall i | 0 <= i < |d| ensures d[i] in HEX <==> '0' <= d[i] <= '9' || 'a' <= d[i] <= 'f' { HexDigit(d[i]); }
    if AllHex(d) {
      forall c | c in d ensures '0' <= c <= '9' || 'a' <= c <= 'f' {
        var i :| 0 <= i < |d| && d[i] == c;
      }
    } else {
      var i :| 0 <= i < |d| && d[i] !in HEX;
      assert d[i] in d;
    }
  }

  lemma HexIsBare(d: string)
    ensures IsHex64(d) <==> Hex64(d)
    ensures Hex64(d) ==> Bare(d)
  {
    HexText(d);
  }

  /** The text is one line. */
  predicate IsLine(t: string, line: string) {
    t == line + "\n"
  }

  /** A digest is read exactly when the step exits with zero and prints 64 lowercase hex digits and a newline, and nothing else. */
  lemma DigestExactly(x: Exit, d: string)
    ensures ParseDigest(x) == Some(d) <==> x.status == Some(0) && IsLine(x.stdout, d) && Hex64(d)
  {
    HexIsBare(d);
    LineIs(x.stdout, d);
  }

  lemma LineIs(t: string, line: string)
    ensures IsLine(t, line) <==> |t| == |line| + 1 && t[|line|] == '\n' && t[..|line|] == line
  {
    if |t| == |line| + 1 { assert t == t[..|line|] + [t[|line|]]; }
  }

  /** A stamp is the digest exactly when its read exits with zero and prints that digest between white space. */
  lemma StampExactly(x: Exit, d: string)
    ensures StampMatches(x, d) <==> x.status == Some(0) && Hex64(d) && Framed(x.stdout, d)
  {
    StripExactly(x.stdout, d);
    HexIsBare(d);
  }

  /** So a stamp printed with the newline that a digest has is accepted. */
  lemma OwnStampMatches(d: string, utf8: bool)
    requires Hex64(d)
    ensures StampMatches(Exit(Some(0), d + "\n", utf8), d) && ParseDigest(Exit(Some(0), d + "\n", utf8)) == Some(d)
  {
    var x := Exit(Some(0), d + "\n", utf8);
    HexIsBare(d);
    assert Frames("", d, "\n", x.stdout);
    StampExactly(x, d);
    DigestExactly(x, d);
  }

  /** The digest printed and the stamp printed are two texts. */
  ghost predicate Differ(digest: Exit, stamp: Exit) {
    exists d, s :: IsLine(digest.stdout, d) && Framed(stamp.stdout, s) && d != s
  }

  lemma DifferentIsNoMatch(digest: Exit, stamp: Exit)
    requires Differ(digest, stamp)
    ensures ParseDigest(digest).None? || !StampMatches(stamp, ParseDigest(digest).value)
  {
    var d, s :| IsLine(digest.stdout, d) && Framed(stamp.stdout, s) && d != s;
    StripExactly(stamp.stdout, s);
    if ParseDigest(digest).Some? { assert digest.stdout[..|d|] == d; }
  }

  // ---- lookups and mounts

  /** A line as it is read: not empty, without a break, and framed by no white space. */
  predicate IsWord(t: string) {
    t != "" && Bare(t) && forall i :: 0 <= i < |t| ==> !IsLineBreak(t[i])
  }

  lemma {:induction false} BreakAfterWord(word: string, rest: string)
    requires forall i :: 0 <= i < |word| ==> !IsLineBreak(word[i])
    ensures FirstBreak(word + "\n" + rest) == |word|
  {
    var t := word + "\n" + rest;
    if word != "" {
      assert t[1..] == word[1..] + "\n" + rest;
      BreakAfterWord(word[1..], rest);
    }
  }

  /** The ids of a lookup are the lines it printed. */
  lemma {:induction false} IdsArePrinted(x: Exit, ids: seq<string>)
    requires x.stdout == PrintLabels(ids) && forall id :: id in ids ==> IsWord(id)
    ensures Ids(x) == ids
    decreases |ids|
  {
    if ids != [] {
      var rest := PrintLabels(ids[1..]);
      assert ids[0] in ids;
      FirstLineIsFirst(ids[0], rest);
      IdsArePrinted(x.(stdout := rest), ids[1..]);
    }
  }

  lemma FirstLineIsFirst(word: string, rest: string)
    requires IsWord(word)
    ensures NonBlankLines(word + "\n" + rest) == [word] + NonBlankLines(rest)
  {
    var t := word + "\n" + rest;
    BreakAfterWord(word, rest);
    assert t[..|word|] == word && t[|word| + 1..] == rest;
    StripOfFrame("", word, "");
    assert "" + word + "" == word;
  }

  /** A container's id is 12 to 64 lowercase hex digits. */
  lemma ContainerIdExactly(id: string)
    ensures IsContainerId(id) <==> 12 <= |id| <= 64 && AllHex(id)
    ensures IsContainerId(id) ==> IsWord(id)
  {
    HexText(id);
  }

  /** A mount is the expected one exactly when it is printed as it is, with one newline after it or none. */
  lemma MountExactly(x: Exit, expected: string)
    requires expected != "" && expected[|expected| - 1] != '\n'
    ensures MountMatches(x, expected) <==> x.status == Some(0) && x.utf8 && (x.stdout == expected || IsLine(x.stdout, expected))
  {
    if x.stdout != "" && x.stdout[|x.stdout| - 1] == '\n' {
      assert x.stdout == x.stdout[..|x.stdout| - 1] + "\n";
    }
    if IsLine(x.stdout, expected) { assert x.stdout[..|x.stdout| - 1] == expected; }
  }
}
