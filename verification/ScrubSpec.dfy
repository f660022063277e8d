/**
 What the scrub promises, without windows, marks or an order of secrets: every position of every occurrence of
 every secret is covered, and each maximal covered run is printed as one marker.
 Positions count from 0 and spans are half-open.
 */
module ScrubSpec {
  import opened Text

  const MARK := "<redacted>"

  ghost predicate OccursAt(v: string, buf: string, s: nat) {
    s + |v| <= |buf| && buf[s..s + |v|] == v
  }

  /** The position lies inside some occurrence of some secret. */
  ghost predicate Covered(buf: string, secrets: set<string>, i: nat) {
    exists v, s: nat :: v in secrets && s <= i < s + |v| && OccursAt(v, buf, s)
  }

  ghost function Mask(buf: string, secrets: set<string>): (m: seq<bool>)
    ensures |m| == |buf|
    ensures forall i :: 0 <= i < |buf| ==> m[i] == Covered(buf, secrets, i)
  {
    seq(|buf|, i requires 0 <= i < |buf| => Covered(buf, secrets, i))
  }

  /** The end of the run of covered positions that holds i. */
  function RunEnd(mask: seq<bool>, i: nat): (r: nat)
    requires i < |mask| && mask[i]
    ensures i < r <= |mask|
    ensures forall j :: i <= j < r ==> mask[j]
    ensures r < |mask| ==> !mask[r]
    decreases |mask| - i
  {
    if i + 1 < |mask| && mask[i + 1] then RunEnd(mask, i + 1) else i + 1
  }

  /** The text from i on with each maximal covered run replaced by one marker and all else kept. */
  function Scrub(buf: string, mask: seq<bool>, i: nat): string
    requires i <= |mask| == |buf|
    decreases |buf| - i
  {
    if i == |buf| then ""
    else if mask[i] then MARK + Scrub(buf, mask, RunEnd(mask, i))
    else [buf[i]] + Scrub(buf, mask, i + 1)
  }

  // ---- the same text, built from the left

  /** The scrubbed form of the first n characters, the marker written where a run starts. */
  function Render(buf: string, mask: seq<bool>, n: nat): string
    requires n <= |mask| == |buf|
  {
    if n == 0 then ""
    else Render(buf, mask, n - 1) +
         if !mask[n - 1] then [buf[n - 1]]
         else if n >= 2 && mask[n - 2] then ""
         else MARK
  }

  lemma {:induction false} RenderCopies(buf: string, mask: seq<bool>, a: nat, b: nat)
    requires a <= b <= |mask| == |buf|
    requires forall j :: a <= j < b ==> !mask[j]
    ensures Render(buf, mask, b) == Render(buf, mask, a) + buf[a..b]
    decreases b
  {
    if a < b {
      RenderCopies(buf, mask, a, b - 1);
      assert buf[a..b] == buf[a..b - 1] + [buf[b - 1]];
    }
  }

  lemma {:induction false} RenderMarksRun(buf: string, mask: seq<bool>, a: nat, b: nat)
    requires a < b <= |mask| == |buf|
    requires forall j :: a <= j < b ==> mask[j]
    requires a == 0 || !mask[a - 1]
    ensures Render(buf, mask, b) == Render(buf, mask, a) + MARK
    decreases b
  {
    if a + 1 < b {
      RenderMarksRun(buf, mask, a, b - 1);
    }
  }

  lemma {:induction false} RenderAgrees(buf: string, mask: seq<bool>, mask': seq<bool>, n: nat)
    requires n <= |mask| == |mask'| == |buf|
    requires forall j :: 0 <= j < n ==> mask[j] == mask'[j]
    ensures Render(buf, mask, n) == Render(buf, mask', n)
  {
    if n > 0 { RenderAgrees(buf, mask, mask', n - 1); }
  }

  lemma {:induction false} RenderThenScrub(buf: string, mask: seq<bool>, i: nat)
    requires i <= |mask| == |buf|
    requires i == 0 || !mask[i - 1] || i == |buf| || !mask[i]
    ensures Render(buf, mask, i) + Scrub(buf, mask, i) == Render(buf, mask, |buf|)
    decreases |buf| - i
  {
    if i < |buf| {
      var next := if mask[i] then RunEnd(mask, i) else i + 1;
      var piece := if mask[i] then MARK else [buf[i]];
      if mask[i] {
        RenderMarksRun(buf, mask, i, next);
      }
      assert Render(buf, mask, next) == Render(buf, mask, i) + piece;
      RenderThenScrub(buf, mask, next);
      assert Render(buf, mask, i) + (piece + Scrub(buf, mask, next)) == Render(buf, mask, next) + Scrub(buf, mask, next);
    }
  }

  /** The left-to-right writing and the run-by-run reading are one text. */
  lemma RenderIsScrub(buf: string, mask: seq<bool>)
    requires |mask| == |buf|
    ensures Render(buf, mask, |buf|) == Scrub(buf, mask, 0)
  {
    RenderThenScrub(buf, mask, 0);
  }

  // ---- the truncated tail

  /** The buffer's last k characters begin v, and v is longer. */
  ghost predicate TailBegins(buf: string, v: string, k: nat) {
    k < |v| && k <= |buf| && buf[|buf| - k..] == v[..k]
  }

  /** k is the length of the longest buffer suffix that is a proper prefix of some secret, 0 when there is none. */
  ghost predicate LongestTail(buf: string, secrets: set<string>, k: nat) {
    && (k == 0 || exists v :: v in secrets && TailBegins(buf, v, k))
    && forall v, j: nat :: v in secrets && TailBegins(buf, v, j) ==> j <= k
  }

  /** Where the last covered run ends, 0 when nothing is covered. */
  function LastRunEnd(mask: seq<bool>): (e: nat)
    ensures e <= |mask|
    ensures e > 0 ==> mask[e - 1]
    ensures forall j :: e <= j < |mask| ==> !mask[j]
  {
    if mask == [] then 0
    else if mask[|mask| - 1] then |mask|
    else LastRunEnd(mask[..|mask| - 1])
  }

  /** Where the run that ends at e starts. */
  function RunStart(mask: seq<bool>, e: nat): (s: nat)
    requires e <= |mask|
    ensures s <= e
    ensures forall j :: s <= j < e ==> mask[j]
    ensures s == 0 || !mask[s - 1]
  {
    if e > 0 && mask[e - 1] then RunStart(mask, e - 1) else e
  }

  lemma {:induction false} RunStartUnique(mask: seq<bool>, s: nat, e: nat)
    requires s <= e <= |mask|
    requires forall j :: s <= j < e ==> mask[j]
    requires s == 0 || !mask[s - 1]
    ensures RunStart(mask, e) == s
  {
    if s < e { RunStartUnique(mask, s, e - 1); }
  }

  function LastRunStart(mask: seq<bool>): nat {
    RunStart(mask, LastRunEnd(mask))
  }

  /**
   Where the redaction of a tail that starts at i begins: at i itself, or at the start of the last covered run
   when that run reaches i and starts after it.
   */
  function TailFrom(mask: seq<bool>, i: nat): nat {
    if LastRunEnd(mask) > 0 && i <= LastRunEnd(mask) && i < LastRunStart(mask) then LastRunStart(mask) else i
  }

  /** The mask of a truncated input whose tail has length k. */
  function TailMask(mask: seq<bool>, k: nat): (m: seq<bool>)
    requires k <= |mask|
    ensures |m| == |mask|
    ensures k == 0 ==> m == mask
  {
    if k == 0 then mask
    else seq(|mask|, j requires 0 <= j < |mask| => mask[j] || j >= TailFrom(mask, |mask| - k))
  }

  /**
   Whether the whole tail is redacted: exactly when no covered run starts after the tail does. A later run stops the
   redaction at its own start, and the position before that start stays as it was.
   */
  lemma TailWhollyRedacted(mask: seq<bool>, k: nat)
    requires 0 < k <= |mask|
    ensures (forall j :: |mask| - k <= j < |mask| ==> TailMask(mask, k)[j])
            <==> !(LastRunEnd(mask) > 0 && |mask| - k < LastRunStart(mask))
  {
    var i := |mask| - k;
    var s := LastRunStart(mask);
    if LastRunEnd(mask) > 0 && i < s {
      assert !TailMask(mask, k)[s - 1];
    }
  }

  // ---- consequences

  /** A stretch of text with no covered position holds no secret. */
  lemma KeptTextHoldsNoSecret(buf: string, secrets: set<string>, a: nat, b: nat, v: string, s: nat)
    requires a <= b <= |buf| && v in secrets && v != ""
    requires forall j :: a <= j < b ==> !Mask(buf, secrets)[j]
    ensures !OccursAt(v, buf[a..b], s)
  {
    if OccursAt(v, buf[a..b], s) {
      assert !Covered(buf, secrets, a + s) by {
        assert !Mask(buf, secrets)[a + s];
      }
      SliceOfSlice(buf, a, b, s, s + |v|);
      assert OccursAt(v, buf, a + s);
      assert false;
    }
  }

  lemma {:induction false} ScrubKeeps(buf: string, mask: seq<bool>, i: nat)
    requires i <= |mask| == |buf|
    requires forall j :: i <= j < |buf| ==> !mask[j]
    ensures Scrub(buf, mask, i) == buf[i..]
    decreases |buf| - i
  {
    if i < |buf| { ScrubKeeps(buf, mask, i + 1); }
  }

  lemma NothingOccursNothingCovered(buf: string, secrets: set<string>)
    requires forall v, s: nat :: v in secrets ==> !OccursAt(v, buf, s)
    ensures forall j :: 0 <= j < |buf| ==> !Mask(buf, secrets)[j]
  {
  }

  /** A text that holds no secret comes out as it went in, with its last line completed. */
  lemma {:induction false} CleanTextIsUnchanged(text: string, secrets: set<string>)
    requires text != "" && "" !in secrets
    requires forall v, s: nat :: v in secrets ==> !OccursAt(v, JoinLines(Records(text)), s)
    ensures var buf := JoinLines(Records(text));
            Scrub(buf, TailMask(Mask(buf, secrets), 0), 0) + "\n" == if text[|text| - 1] == '\n' then text else text + "\n"
  {
    var buf := JoinLines(Records(text));
    RecordsJoin(text);
    NothingOccursNothingCovered(buf, secrets);
    ScrubKeeps(buf, Mask(buf, secrets), 0);
  }

  lemma {:induction false} RenderIsMonotone(buf: string, mask: seq<bool>, a: nat, b: nat)
    requires a <= b <= |mask| == |buf|
    ensures Render(buf, mask, a) <= Render(buf, mask, b)
  {
    if a < b { RenderIsMonotone(buf, mask, a, b - 1); }
  }

  /** Covering everything from i on leaves what is written before i, and one mark in place of all the rest. */
  lemma RenderToTheEnd(buf: string, mask: seq<bool>, final: seq<bool>, i: nat)
    requires i < |mask| == |final| == |buf|
    requires forall j :: 0 <= j < i ==> final[j] == mask[j]
    requires forall j :: i <= j < |final| ==> final[j]
    ensures Render(buf, final, |buf|) == Render(buf, mask, i) + if i > 0 && mask[i - 1] then "" else MARK
  {
    var s := if i > 0 && mask[i - 1] then RunStart(mask, i) else i;
    RenderAgrees(buf, final, mask, s);
    RenderMarksRun(buf, final, s, |buf|);
    if s < i { RenderMarksRun(buf, mask, s, i); }
  }

  /**
   What is printed of a truncated input: the print of the same input not truncated, up to where the redaction of the tail
   begins, and then one mark for all that is left.
   */
  lemma TruncatedPrint(buf: string, mask: seq<bool>, k: nat)
    requires 0 < k <= |mask| == |buf|
    ensures var from := TailFrom(mask, |mask| - k);
      && |mask| - k <= from <= |mask|
      && Render(buf, mask, from) <= Scrub(buf, mask, 0)
      && Scrub(buf, TailMask(mask, k), 0) ==
           Render(buf, mask, from) + if from > 0 && mask[from - 1] then "" else MARK
  {
    var from := TailFrom(mask, |mask| - k);
    RenderIsMonotone(buf, mask, from, |buf|);
    RenderIsScrub(buf, mask);
    RenderIsScrub(buf, TailMask(mask, k));
    RenderToTheEnd(buf, mask, TailMask(mask, k), from);
  }

  /** The redaction of a tail can leave part of it: all of "ab" begins a secret, and "b" is a secret by itself. */
  lemma TailLeftInPlain()
    ensures var buf, secrets := "ab", {"abX", "b"};
            && LongestTail(buf, secrets, 2)
            && Scrub(buf, TailMask(Mask(buf, secrets), 2), 0) == "a<redacted>"
  {
    ExampleMask();
    ExampleTail();
    var mask := [false, true];
    RunStartUnique(mask, 1, 2);
    assert TailMask(mask, 2) == mask;
    ExampleScrub();
  }

  lemma ExampleMask()
    ensures Mask("ab", {"abX", "b"}) == [false, true]
  {
    var buf, secrets := "ab", {"abX", "b"};
    assert OccursAt("b", buf, 1);
    assert Covered(buf, secrets, 1);
    forall v, s: nat | v in secrets && OccursAt(v, buf, s) ensures s == 1 {
      assert |v| <= 2;
      assert buf[s..s + 1][0] == buf[s];
    }
  }

  lemma ExampleTail()
    ensures LongestTail("ab", {"abX", "b"}, 2)
  {
    assert TailBegins("ab", "abX", 2) by { assert "ab"[0..] == "abX"[..2]; }
  }

  lemma ExampleScrub()
    ensures Scrub("ab", [false, true], 0) == "a<redacted>"
  {
    var buf, m := "ab", [false, true];
    assert Scrub(buf, m, 1) == MARK + Scrub(buf, m, 2) == MARK;
    assert Scrub(buf, m, 0) == "a" + Scrub(buf, m, 1);
  }

  // ---- the secrets

  /** A value is a secret, and so is each non-empty line of it; an empty value is none. */
  function SecretsOf(values: seq<string>): set<string> {
    (set v | v in values && v != "") + (set v, p | v in values && p in Split(v) && p != "" :: p)
  }
}
