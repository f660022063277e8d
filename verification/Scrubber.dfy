/**
 The awk program of `redact`: it gathers the secrets, joins the records of its input in place, searches the joined
 text window by window, merges the spans it finds and writes the result piece by piece.
 */
module Scrubber {
  import opened Text
  import opened ScrubSpec

  const WINDOW := 4096

  // ---- the secrets

  function SetOf(secrets: seq<string>): set<string> {
    set v | v in secrets
  }

  /** Puts each secret once, in the order first met. */
  method PutSecret(s: string, secrets: seq<string>) returns (r: seq<string>)
    ensures r == if s != "" && s !in secrets then secrets + [s] else secrets
  {
    r := secrets;
    if s != "" && s !in r {
      r := r + [s];
    }
  }

  ghost predicate NoRepeats(secrets: seq<string>) {
    forall i, j :: 0 <= i < j < |secrets| ==> secrets[i] != secrets[j]
  }

  method AddParts(parts: seq<string>, secrets: seq<string>) returns (r: seq<string>)
    requires NoRepeats(secrets)
    ensures NoRepeats(r) && SetOf(r) == SetOf(secrets) + (SetOf(parts) - {""})
  {
    r := secrets;
    for q := 0 to |parts|
      invariant SetOf(r) == SetOf(secrets) + (SetOf(parts[..q]) - {""}) && NoRepeats(r)
    {
      ghost var was := r;
      r := PutSecret(parts[q], r);
      PutAddsOne(parts[q], was, r);
      SetOfOneMore(parts, q);
    }
    assert parts[..|parts|] == parts;
  }

  /** A value and, when it has several lines, each of its lines. */
  method AddValue(value: string, secrets: seq<string>) returns (r: seq<string>)
    requires NoRepeats(secrets)
    ensures NoRepeats(r) && SetOf(r) == SetOf(secrets) + SecretsOf([value])
  {
    SecretsOfOne(value);
    r := secrets;
    if value == "" { return; }
    r := PutSecret(value, r);
    PutAddsOne(value, secrets, r);
    var parts := Split(value);
    if |parts| > 1 {
      r := AddParts(parts, r);
    }
  }

  lemma PutAddsOne(s: string, was: seq<string>, r: seq<string>)
    requires r == if s != "" && s !in was then was + [s] else was
    ensures SetOf(r) == SetOf(was) + ({s} - {""}) && (NoRepeats(was) ==> NoRepeats(r))
  {
  }

  lemma SetOfOneMore(parts: seq<string>, q: nat)
    requires q < |parts|
    ensures SetOf(parts[..q + 1]) == SetOf(parts[..q]) + {parts[q]}
  {
    assert parts[..q + 1] == parts[..q] + [parts[q]];
  }

  lemma SecretsOfOne(v: string)
    ensures SecretsOf([v]) == if v == "" then {} else {v} + (SetOf(Split(v)) - {""})
    ensures |Split(v)| == 1 ==> SetOf(Split(v)) == {v}
  {
    assert Split("") == [""];
  }

  method GatherSecrets(values: seq<string>) returns (secrets: seq<string>)
    ensures SetOf(secrets) == SecretsOf(values) && NoRepeats(secrets)
  {
    secrets := [];
    for n := 0 to |values|
      invariant SetOf(secrets) == SecretsOf(values[..n]) && NoRepeats(secrets)
    {
      AddsOneValue(values, n);
      secrets := AddValue(values[n], secrets);
    }
    assert values[..|values|] == values;
  }

  lemma AddsOneValue(values: seq<string>, n: nat)
    requires n < |values|
    ensures SecretsOf(values[..n + 1]) == SecretsOf(values[..n]) + SecretsOf([values[n]])
  {
    assert values[..n + 1] == values[..n] + [values[n]];
  }

  // ---- the records

  /** L[1] holds all the lines at the end: each round halves the count, rounding up. */
  method JoinInPlace(L: array<string>) returns (buf: string)
    requires L.Length > 0
    modifies L
    ensures buf == L[0] == JoinLines(old(L[..]))
  {
    var c := L.Length;
    assert L[..c] == L[..];
    while c > 1
      invariant 1 <= c <= L.Length
      invariant JoinLines(L[..c]) == JoinLines(old(L[..]))
      decreases c
    {
      ghost var was := L[..c];
      var h := c / 2;
      for i := 0 to h
        invariant forall k :: 0 <= k < i ==> L[k] == was[2 * k] + "\n" + was[2 * k + 1]
        invariant forall k :: 2 * i <= k < c ==> L[k] == was[k]
      {
        L[i] := L[2 * i] + "\n" + L[2 * i + 1];
      }
      if c % 2 == 1 {
        L[h] := L[c - 1];
      }
      c := (c + 1) / 2;
      assert L[..c] == PairUp(was);
      PairUpKeepsJoin(was);
    }
    buf := L[0];
    assert L[..1] == [L[0]];
  }

  // ---- the search

  /** awk's index: the position, from 1, of the first occurrence of v in t, or 0. */
  function Index(t: string, v: string): nat
    decreases |t|
  {
    if |t| < |v| || t == "" then 0
    else if t[..|v|] == v then 1
    else
      var r := Index(t[1..], v);
      if r == 0 then 0 else r + 1
  }

  /** Position p, from 1, is that of the first occurrence, 0 when there is none. */
  ghost predicate IsFirst(t: string, v: string, p: nat) {
    && (p > 0 ==> OccursAt(v, t, p - 1))
    && forall s: nat :: OccursAt(v, t, s) ==> 0 < p <= s + 1
  }

  lemma OccursInRest(v: string, t: string, s: nat)
    requires t != ""
    ensures OccursAt(v, t[1..], s) <==> OccursAt(v, t, s + 1)
  {
    if s + |v| < |t| { SliceOfSlice(t, 1, |t|, s, s + |v|); }
  }

  lemma FirstInRest(t: string, v: string, r: nat)
    requires v != "" && t != "" && !OccursAt(v, t, 0) && IsFirst(t[1..], v, r)
    ensures IsFirst(t, v, if r == 0 then 0 else r + 1)
  {
    if r > 0 { OccursInRest(v, t, r - 1); }
    forall s: nat | OccursAt(v, t, s) ensures 0 < r <= s {
      OccursInRest(v, t, s - 1);
    }
  }

  lemma {:induction false} IndexFindsFirst(t: string, v: string)
    requires v != ""
    ensures IsFirst(t, v, Index(t, v))
    decreases |t|
  {
    OccursInFront(t, v);
    if |t| >= |v| && t[..|v|] != v {
      IndexFindsFirst(t[1..], v);
      FirstInRest(t, v, Index(t[1..], v));
    }
  }

  /** An occurrence in front is the first one, and a text too short holds none. */
  lemma OccursInFront(t: string, v: string)
    requires v != ""
    ensures |t| < |v| ==> IsFirst(t, v, 0)
    ensures |t| >= |v| && t[..|v|] == v ==> IsFirst(t, v, 1)
    ensures |t| >= |v| && t[..|v|] != v ==> !OccursAt(v, t, 0)
  {
    if |t| >= |v| { assert t[0..|v|] == t[..|v|]; }
  }

  /** The furthest end of an occurrence that starts at s, 0 when none does. */
  function FurthestEnd(buf: string, secrets: seq<string>, s: nat): nat {
    if secrets == [] then 0
    else
      var v := secrets[|secrets| - 1];
      var e := FurthestEnd(buf, secrets[..|secrets| - 1], s);
      if s + |v| <= |buf| && buf[s..s + |v|] == v && e < s + |v| then s + |v| else e
  }

  lemma {:induction false} FurthestIsFurthest(buf: string, secrets: seq<string>, s: nat)
    ensures var e := FurthestEnd(buf, secrets, s);
            && (e == 0 || exists v :: v in secrets && OccursAt(v, buf, s) && e == s + |v|)
            && forall v :: v in secrets && OccursAt(v, buf, s) ==> s + |v| <= e
  {
    if secrets != [] {
      FurthestIsFurthest(buf, secrets[..|secrets| - 1], s);
    }
  }

  /** A position is covered exactly when some start at or before it reaches past it. */
  lemma CoveredByStarts(buf: string, secrets: seq<string>, i: nat)
    ensures Covered(buf, SetOf(secrets), i) <==> exists s: nat :: s <= i < FurthestEnd(buf, secrets, s)
  {
    if s: nat :| s <= i < FurthestEnd(buf, secrets, s) {
      FurthestIsFurthest(buf, secrets, s);
      var v :| v in secrets && OccursAt(v, buf, s) && FurthestEnd(buf, secrets, s) == s + |v|;
      assert v in SetOf(secrets);
    }
    if Covered(buf, SetOf(secrets), i) {
      var v, s: nat :| v in SetOf(secrets) && s <= i < s + |v| && OccursAt(v, buf, s);
      FurthestIsFurthest(buf, secrets, s);
      assert s <= i < FurthestEnd(buf, secrets, s);
    }
  }

  function EndAt(mark: map<nat, nat>, s: nat): nat {
    if s in mark then mark[s] else 0
  }

  /** The marks are the furthest ends of the starts in [lo, hi), and of no other start. */
  ghost predicate Marks(mark: map<nat, nat>, buf: string, secrets: seq<string>, lo: nat, hi: nat) {
    && (forall s :: s in mark ==> mark[s] > 0)
    && forall s: nat :: EndAt(mark, s) == if lo <= s < hi then FurthestEnd(buf, secrets, s) else 0
  }

  lemma OneMoreSecret(buf: string, secrets: seq<string>, v: string, s: nat)
    ensures var e := FurthestEnd(buf, secrets, s);
            FurthestEnd(buf, secrets + [v], s) == if OccursAt(v, buf, s) && e < s + |v| then s + |v| else e
  {
    assert (secrets + [v])[..|secrets|] == secrets;
  }

  /** The marks once v is searched up to mid: v counts for the starts before mid and not yet for the later ones. */
  ghost predicate Searched(mark: map<nat, nat>, buf: string, secrets: seq<string>, v: string, lo: nat, mid: nat, hi: nat) {
    && (forall s :: s in mark ==> mark[s] > 0)
    && forall s: nat :: EndAt(mark, s) ==
         if lo <= s < mid then FurthestEnd(buf, secrets + [v], s)
         else if lo <= s < hi then FurthestEnd(buf, secrets, s) else 0
  }

  lemma SkipsTo(mark: map<nat, nat>, buf: string, secrets: seq<string>, v: string, lo: nat, mid: nat, to: nat, hi: nat)
    requires lo <= mid <= to <= hi && Searched(mark, buf, secrets, v, lo, mid, hi)
    requires forall s: nat :: mid <= s < to ==> !OccursAt(v, buf, s)
    ensures Searched(mark, buf, secrets, v, lo, to, hi)
  {
    forall s: nat | mid <= s < to ensures FurthestEnd(buf, secrets + [v], s) == FurthestEnd(buf, secrets, s) {
      OneMoreSecret(buf, secrets, v, s);
    }
  }

  function Raised(mark: map<nat, nat>, s: nat, e: nat): map<nat, nat> {
    if s !in mark || mark[s] < e then mark[s := e] else mark
  }

  lemma TakesStart(mark: map<nat, nat>, buf: string, secrets: seq<string>, v: string, lo: nat, mid: nat, hi: nat)
    requires lo <= mid < hi && v != "" && OccursAt(v, buf, mid) && Searched(mark, buf, secrets, v, lo, mid, hi)
    ensures Searched(Raised(mark, mid, mid + |v|), buf, secrets, v, lo, mid + 1, hi)
  {
    OneMoreSecret(buf, secrets, v, mid);
    assert EndAt(mark, mid) == FurthestEnd(buf, secrets, mid);
    var r := Raised(mark, mid, mid + |v|);
    forall s: nat ensures s != mid ==> EndAt(r, s) == EndAt(mark, s) {
    }
  }

  function Window(buf: string, base: nat, width: nat, longest: nat): string
    requires base <= |buf| && width + longest > 0
  {
    var stop := base + width + longest - 1;
    buf[base..if stop < |buf| then stop else |buf|]
  }

  /** Marks every occurrence of v that starts in the window, self-overlapping ones too. */
  method MarkOccurrences(win: string, v: string, base: nat, width: nat, mark: map<nat, nat>,
                         ghost buf: string, ghost secrets: seq<string>, ghost longest: nat)
      returns (r: map<nat, nat>, found: nat)
    requires 0 < |v| <= longest && base <= |buf| && win == Window(buf, base, width, longest)
    requires Marks(mark, buf, secrets, base, base + width)
    ensures Marks(r, buf, secrets + [v], base, base + width)
    ensures found == 0 ==> r == mark
  {
    r, found := mark, 0;
    var rest, off := win, 0;
    var p := Index(rest, v);
    while p > 0
      invariant off <= |win| && off <= width && rest == win[off..] && p == Index(rest, v)
      invariant Searched(r, buf, secrets, v, base, base + off, base + width)
      invariant found == 0 ==> r == mark
      decreases |win| - off
    {
      IndexFindsFirst(rest, v);
      NextInWindow(win, v, base, width, off, buf, longest, rest, p);
      if off + p > width { break; }
      off := off + p;
      var s := base + off - 1;
      var e := s + |v|;
      SkipsTo(r, buf, secrets, v, base, base + off - p, s, base + width);
      TakesStart(r, buf, secrets, v, base, s, base + width);
      if s !in r || r[s] < e {
        r := r[s := e];
      }
      found := found + 1;
      SliceOfSlice(win, off - p, |win|, p, |rest|);
      rest := rest[p..];
      p := Index(rest, v);
    }
    IndexFindsFirst(rest, v);
    NextInWindow(win, v, base, width, off, buf, longest, rest, p);
    SkipsTo(r, buf, secrets, v, base, base + off, base + width, base + width);
  }

  /** Marks the occurrences of every secret that start in the window, and counts them. */
  method MarkWindow(win: string, base: nat, width: nat, longest: nat, ghost buf: string, secrets: seq<string>)
      returns (mark: map<nat, nat>, cnt: nat)
    requires "" !in secrets && forall v :: v in secrets ==> |v| <= longest
    requires width > 0 && base <= |buf| && win == Window(buf, base, width, longest)
    ensures Marks(mark, buf, secrets, base, base + width)
    ensures cnt == 0 ==> mark == map[]
  {
    mark, cnt := map[], 0;
    for j := 0 to |secrets|
      invariant Marks(mark, buf, secrets[..j], base, base + width)
      invariant cnt == 0 ==> mark == map[]
    {
      var found;
      mark, found := MarkOccurrences(win, secrets[j], base, width, mark, buf, secrets[..j], longest);
      cnt := cnt + found;
      assert secrets[..j] + [secrets[j]] == secrets[..j + 1];
    }
    assert secrets[..|secrets|] == secrets;
  }

  lemma MarksAreEnds(mark: map<nat, nat>, buf: string, secrets: seq<string>, base: nat, width: nat)
    requires Marks(mark, buf, secrets, base, base + width) && "" !in secrets
    ensures forall s :: s in mark ==> mark[s] > 0
    ensures forall s: nat :: base <= s < base + width ==>
              EndAt(mark, s) == if s < |buf| then Ends(buf, secrets, |buf|)[s] else 0
  {
    forall s: nat | base <= s < base + width
      ensures EndAt(mark, s) == if s < |buf| then Ends(buf, secrets, |buf|)[s] else 0
    {
      FurthestIsFurthest(buf, secrets, s);
      if s < |buf| { EndsAt(buf, secrets, |buf|, s); }
    }
  }

  /** An occurrence in the text that the window holds whole is an occurrence in the window, and the other way round. */
  lemma OccursInWindow(win: string, v: string, base: nat, width: nat, off: nat, buf: string, longest: nat, at: nat)
    requires 0 < |v| <= longest && base <= |buf| && win == Window(buf, base, width, longest) && off <= |win|
    ensures OccursAt(v, win[off..], at) ==> OccursAt(v, buf, base + off + at)
    ensures OccursAt(v, buf, base + off + at) && off + at < width ==> OccursAt(v, win[off..], at)
  {
    SliceOfSlice(buf, base, base + |win|, off, |win|);
    if at + |v| <= |win| - off {
      SliceOfSlice(buf, base + off, base + |win|, at, at + |v|);
    }
  }

  /** The first occurrence in what is left of the window is the next one in the text. */
  lemma NextInWindow(win: string, v: string, base: nat, width: nat, off: nat, buf: string, longest: nat, rest: string, p: nat)
    requires 0 < |v| <= longest && base <= |buf| && win == Window(buf, base, width, longest) && off <= |win|
    requires rest == win[off..] && IsFirst(rest, v, p)
    ensures p > 0 ==> off + p <= |win| && OccursAt(v, buf, base + off + p - 1)
    ensures forall s: nat :: base + off <= s < base + width && OccursAt(v, buf, s) ==> p > 0 && base + off + p - 1 <= s
  {
    if p > 0 {
      OccursInWindow(win, v, base, width, off, buf, longest, p - 1);
    }
    forall s: nat | base + off <= s < base + width && OccursAt(v, buf, s)
      ensures p > 0 && base + off + p - 1 <= s
    {
      OccursInWindow(win, v, base, width, off, buf, longest, s - base - off);
    }
  }

  // ---- the merge

  /** The furthest ends of the first n starts. */
  ghost function Ends(buf: string, secrets: seq<string>, n: nat): (ends: seq<nat>)
    ensures |ends| == n
  {
    if n == 0 then [] else Ends(buf, secrets, n - 1) + [FurthestEnd(buf, secrets, n - 1)]
  }

  lemma {:induction false} EndsAt(buf: string, secrets: seq<string>, n: nat, s: nat)
    requires s < n
    ensures Ends(buf, secrets, n)[s] == FurthestEnd(buf, secrets, s)
  {
    if s < n - 1 { EndsAt(buf, secrets, n - 1, s); }
  }

  /** The last start at or before j that reaches past j, j itself when there is none. */
  function Source(ends: seq<nat>, j: nat, s: nat): (r: nat)
    requires s <= j < |ends|
    ensures r <= j
  {
    if ends[s] > j then s else if s == 0 then j else Source(ends, j, s - 1)
  }

  /** The mask is the union of the spans that the ends describe. */
  ghost predicate Union(mask: seq<bool>, ends: seq<nat>) {
    && |mask| == |ends|
    && (forall s :: 0 <= s < |ends| ==> ends[s] == 0 || s < ends[s] <= |ends|)
    && (forall s, j :: 0 <= s < |ends| && s <= j < ends[s] ==> mask[j])
    && (forall j :: 0 <= j < |mask| && mask[j] ==> ends[Source(ends, j, j)] > j)
  }

  lemma {:induction false} SourceReaches(ends: seq<nat>, j: nat, s: nat, t: nat)
    requires t <= s <= j < |ends| && ends[t] > j
    ensures ends[Source(ends, j, s)] > j
  {
    if ends[s] <= j { SourceReaches(ends, j, s - 1, t); }
  }

  /** The ends of all starts, one by one. */
  ghost predicate AreEnds(ends: seq<nat>, buf: string, secrets: seq<string>) {
    |ends| == |buf| && forall s :: 0 <= s < |buf| ==> ends[s] == FurthestEnd(buf, secrets, s)
  }

  lemma MaskHoldsSpans(buf: string, secrets: seq<string>, ends: seq<nat>, s: nat, j: nat)
    requires AreEnds(ends, buf, secrets) && s < |buf| && s <= j < ends[s]
    ensures j < |buf| && Mask(buf, SetOf(secrets))[j]
  {
    FurthestIsFurthest(buf, secrets, s);
    CoveredByStarts(buf, secrets, j);
  }

  lemma MaskHasSource(buf: string, secrets: seq<string>, ends: seq<nat>, j: nat)
    requires AreEnds(ends, buf, secrets) && j < |buf| && Mask(buf, SetOf(secrets))[j]
    ensures ends[Source(ends, j, j)] > j
  {
    CoveredByStarts(buf, secrets, j);
    var s: nat :| s <= j < FurthestEnd(buf, secrets, s);
    SourceReaches(ends, j, j, s);
  }

  lemma MaskIsUnion(buf: string, secrets: seq<string>)
    requires "" !in secrets
    ensures Union(Mask(buf, SetOf(secrets)), Ends(buf, secrets, |buf|))
  {
    var mask, ends := Mask(buf, SetOf(secrets)), Ends(buf, secrets, |buf|);
    forall s | 0 <= s < |buf| ensures ends[s] == FurthestEnd(buf, secrets, s) {
      EndsAt(buf, secrets, |buf|, s);
    }
    forall s | 0 <= s < |buf| ensures ends[s] == 0 || s < ends[s] <= |buf| {
      FurthestIsFurthest(buf, secrets, s);
    }
    forall s, j | 0 <= s < |buf| && s <= j < ends[s] ensures mask[j] {
      MaskHoldsSpans(buf, secrets, ends, s, j);
    }
    forall j | 0 <= j < |buf| && mask[j] ensures ends[Source(ends, j, j)] > j {
      MaskHasSource(buf, secrets, ends, j);
    }
  }

  /** One run of the program: the text, the part written, and the open span. */
  class Merger {
    const buf: string
    const secrets: seq<string>
    ghost const mask: seq<bool>
    ghost const ends: seq<nat>
    var pos: nat
    var open: bool
    var cs: nat
    var ce: nat
    var out: string

    constructor (buf: string, secrets: seq<string>)
      requires "" !in secrets
      ensures this.buf == buf && this.secrets == secrets
      ensures mask == Mask(buf, SetOf(secrets)) && ends == Ends(buf, secrets, |buf|) && Union(mask, ends)
      ensures MergedTo(0)
    {
      this.buf, this.secrets := buf, secrets;
      mask, ends := Mask(buf, SetOf(secrets)), Ends(buf, secrets, |buf|);
      pos, open, cs, ce, out := 0, false, 0, 0, "";
      new;
      MaskIsUnion(buf, secrets);
    }

    /**
     Every start before p is merged: the written part renders the mask up to pos, the open span is covered and begins
     a run, what lies between is uncovered, and no merged start reaches past the span.
     */
    ghost predicate MergedTo(p: nat)
      reads this
    {
      && |buf| == |mask| == |ends| && pos <= |buf|
      && out == Render(buf, mask, pos)
      && (!open ==> pos == 0 && forall s :: 0 <= s < p && s < |ends| ==> ends[s] == 0)
      && (open ==>
            && pos <= cs < ce <= |buf| && cs < p
            && (forall j :: pos <= j < cs ==> !mask[j])
            && (forall j :: cs <= j < ce ==> mask[j])
            && (cs == 0 || !mask[cs - 1])
            && forall s :: 0 <= s < p && s < |ends| ==> ends[s] <= ce)
    }

    /** Past the open span, a position before the next start is uncovered. */
    lemma GapIsUncovered(p: nat)
      requires MergedTo(p) && Union(mask, ends)
      ensures forall j :: (if open then ce else 0) <= j < p && j < |buf| ==> !mask[j]
    {
    }

    /** Writes what precedes the open span, and one marker for it. */
    method Emit()
      requires pos <= cs <= |buf|
      modifies this
      ensures pos == ce == old(ce) && cs == old(cs) && open == old(open)
      ensures out == old(out) + buf[old(pos)..old(cs)] + MARK
    {
      out := out + buf[pos..cs] + MARK;
      pos := ce;
    }

    /** What an emission adds when the open span is a whole run of the mask. */
    lemma EmissionRenders(mask: seq<bool>)
      requires pos <= cs < ce <= |buf| == |mask|
      requires forall j :: pos <= j < cs ==> !mask[j]
      requires forall j :: cs <= j < ce ==> mask[j]
      requires cs == 0 || !mask[cs - 1]
      ensures Render(buf, mask, ce) == Render(buf, mask, pos) + buf[pos..cs] + MARK
    {
      RenderCopies(buf, mask, pos, cs);
      RenderMarksRun(buf, mask, cs, ce);
    }

    /** Takes the furthest end e of the start i, 0 when i starts nothing. */
    method MergeStart(i: nat, e: nat)
      requires MergedTo(i) && Union(mask, ends) && i < |buf| && e == ends[i] > 0
      modifies this
      ensures MergedTo(i + 1)
    {
      if open && i <= ce {
        if e > ce {
          ce := e;
        }
      } else {
        GapIsUncovered(i);
        if open {
          EmissionRenders(mask);
          Emit();
        }
        open, cs, ce := true, i, e;
      }
    }

    /** A start that marks nothing changes nothing. */
    lemma NothingAt(i: nat)
      requires MergedTo(i) && (i < |buf| ==> ends[i] == 0)
      ensures MergedTo(i + 1)
    {
    }

    lemma NothingFrom(i: nat, k: nat)
      requires MergedTo(i) && i <= k && forall s :: i <= s < k && s < |buf| ==> ends[s] == 0
      ensures MergedTo(k)
    {
    }

    /** Merges the marks of one window, in the order of the starts. */
    method MergeWindow(mark: map<nat, nat>, base: nat, width: nat)
      requires MergedTo(base) && Union(mask, ends)
      requires forall s: nat :: base <= s < base + width ==> EndAt(mark, s) == if s < |ends| then ends[s] else 0
      requires forall s :: s in mark ==> mark[s] > 0
      modifies this
      ensures MergedTo(base + width)
    {
      for i := base to base + width
        invariant MergedTo(i)
      {
        assert EndAt(mark, i) == if i < |ends| then ends[i] else 0;
        if i in mark {
          MergeStart(i, mark[i]);
        } else {
          NothingAt(i);
        }
      }
    }

    /** Searches the text in windows of the given width and merges what each window marks. */
    method Scan(width: nat, longest: nat)
      requires width > 0 && "" !in secrets && forall v :: v in secrets ==> |v| <= longest
      requires MergedTo(0) && Union(mask, ends) && ends == Ends(buf, secrets, |buf|)
      modifies this
      ensures MergedTo(|buf|)
    {
      var base := 0;
      if |secrets| == 0 {
        NoSecretsNoEnds();
        return;
      }
      while base < |buf|
        invariant base > |buf| ==> MergedTo(|buf|)
        invariant base <= |buf| ==> MergedTo(base)
        decreases |buf| - base
      {
        ScanWindow(base, width, longest);
        NothingPastTheEnd(base + width);
        base := base + width;
      }
    }

    /** One window of starts, marked and then merged. */
    method ScanWindow(base: nat, width: nat, longest: nat)
      requires width > 0 && base < |buf| && "" !in secrets && forall v :: v in secrets ==> |v| <= longest
      requires MergedTo(base) && Union(mask, ends) && ends == Ends(buf, secrets, |buf|)
      modifies this
      ensures MergedTo(base + width)
    {
      var win := Window(buf, base, width, longest);
      var mark, cnt := MarkWindow(win, base, width, longest, buf, secrets);
      MarksAreEnds(mark, buf, secrets, base, width);
      if cnt > 0 {
        MergeWindow(mark, base, width);
      } else {
        assert forall s: nat :: EndAt(mark, s) == 0;
        NothingFrom(base, base + width);
      }
    }

    lemma NoSecretsNoEnds()
      requires MergedTo(0) && Union(mask, ends) && ends == Ends(buf, secrets, |buf|) && secrets == []
      ensures MergedTo(|buf|)
    {
      forall s | 0 <= s < |buf| ensures ends[s] == 0 {
        EndsAt(buf, secrets, |buf|, s);
      }
      NothingFrom(0, |buf|);
    }

    lemma NothingPastTheEnd(p: nat)
      requires MergedTo(p)
      ensures p >= |buf| ==> MergedTo(|buf|)
    {
    }

    /** The length of the longest suffix that is a proper prefix of some secret. */
    method LongestSuffix() returns (kmax: nat)
      requires "" !in secrets
      ensures LongestTail(buf, SetOf(secrets), kmax) && kmax <= |buf|
    {
      kmax := 0;
      for j := 0 to |secrets|
        invariant kmax <= |buf|
        invariant kmax == 0 || exists v :: v in secrets && TailBegins(buf, v, kmax)
        invariant forall i, k: nat :: 0 <= i < j && TailBegins(buf, secrets[i], k) ==> k <= kmax
      {
        var v := secrets[j];
        var k := |v| - 1;
        if k > |buf| {
          k := |buf|;
        }
        while k > kmax
          invariant k <= |buf| && k < |v|
          invariant forall l: nat :: TailBegins(buf, v, l) ==> l <= k || l <= kmax
          invariant kmax == 0 || exists v :: v in secrets && TailBegins(buf, v, kmax)
          invariant forall i, k: nat :: 0 <= i < j && TailBegins(buf, secrets[i], k) ==> k <= kmax
        {
          if buf[|buf| - k..] == v[..k] {
            assert TailBegins(buf, v, k);
            kmax := k;
            break;
          }
          k := k - 1;
        }
      }
    }

    /** The open span, when there is one, is the last covered run. */
    lemma OpenSpanIsLastRun()
      requires MergedTo(|buf|) && Union(mask, ends)
      ensures open ==> LastRunEnd(mask) == ce && LastRunStart(mask) == cs
      ensures !open ==> LastRunEnd(mask) == 0
    {
      GapIsUncovered(|buf|);
      if open {
        RunStartUnique(mask, cs, ce);
      }
    }

    /** The written part and the open span, closed, are the scrubbed text under this mask. */
    ghost predicate ReadyFor(final: seq<bool>)
      reads this
    {
      && |final| == |buf| && pos <= |buf| && out == Render(buf, final, pos)
      && (open ==>
            && pos <= cs < ce <= |buf|
            && (forall j :: pos <= j < cs ==> !final[j])
            && (forall j :: cs <= j < ce ==> final[j])
            && (cs == 0 || !final[cs - 1]))
      && forall j :: (if open then ce else pos) <= j < |buf| ==> !final[j]
    }

    lemma ReadyUnlessTruncated()
      requires MergedTo(|buf|) && Union(mask, ends)
      ensures ReadyFor(mask)
    {
      GapIsUncovered(|buf|);
    }

    /** final is the mask with the tail from i added, less what lies before an open span that reaches the tail. */
    ghost predicate TailIsOver(final: seq<bool>, i: nat)
      reads this
    {
      var start := if open && i <= ce && i < cs then cs else i;
      && |final| == |mask| == |buf| && pos <= |buf| && out == Render(buf, final, pos)
      && (forall j :: 0 <= j < start && j < |buf| ==> final[j] == mask[j])
      && (forall j :: start <= j < |buf| ==> final[j])
    }

    lemma BeforeTheTail(final: seq<bool>, kmax: nat)
      requires MergedTo(|buf|) && Union(mask, ends) && 0 < kmax <= |buf| && final == TailMask(mask, kmax)
      ensures TailIsOver(final, |buf| - kmax)
    {
      OpenSpanIsLastRun();
      RenderAgrees(buf, mask, final, pos);
    }

    /** Gives the tail from i a span of its own, once the open span is written. */
    method OpenOwnSpan(i: nat, ghost final: seq<bool>)
      requires i < |buf| == |final| && pos <= |buf| && out == Render(buf, final, pos)
      requires if open then pos <= cs < ce < i && (cs == 0 || !final[cs - 1]) else pos == 0
      requires open ==> forall j :: cs <= j < ce ==> final[j]
      requires forall j :: (if open then ce else 0) <= j < i ==> !final[j]
      requires open ==> forall j :: pos <= j < cs ==> !final[j]
      requires forall j :: i <= j < |buf| ==> final[j]
      modifies this
      ensures ReadyFor(final)
    {
      if open {
        EmissionRenders(final);
        Emit();
      }
      open, cs, ce := true, i, |buf|;
    }

    /** Redacts the tail: by stretching the open span to the end when it reaches the tail, else by a span of its own. */
    method OpenTail(kmax: nat, ghost final: seq<bool>)
      requires MergedTo(|buf|) && Union(mask, ends) && 0 < kmax <= |buf| && TailIsOver(final, |buf| - kmax)
      modifies this
      ensures ReadyFor(final)
    {
      GapIsUncovered(|buf|);
      var i := |buf| - kmax;
      if open && i <= ce {
        ce := |buf|;
      } else {
        OpenOwnSpan(i, final);
      }
    }

    /** Closes the open span and writes the rest. */
    method Close(ghost final: seq<bool>)
      requires ReadyFor(final)
      modifies this
      ensures out == Scrub(buf, final, 0)
    {
      if open {
        EmissionRenders(final);
        Emit();
      }
      RenderCopies(buf, final, pos, |buf|);
      out := out + buf[pos..];
      RenderIsScrub(buf, final);
    }

    method Finish(kmax: nat)
      requires MergedTo(|buf|) && Union(mask, ends) && kmax <= |buf|
      modifies this
      ensures out == Scrub(buf, TailMask(mask, kmax), 0)
    {
      if kmax > 0 {
        BeforeTheTail(TailMask(mask, kmax), kmax);
        OpenTail(kmax, TailMask(mask, kmax));
      } else {
        ReadyUnlessTruncated();
      }
      Close(TailMask(mask, kmax));
    }
  }

  /** The whole program: nothing for no record, else the scrubbed text and a newline. */
  method Redact(L: array<string>, values: seq<string>, truncated: bool) returns (out: string)
    modifies L
    ensures L.Length == 0 ==> out == ""
    ensures L.Length > 0 ==>
              var buf, secrets := JoinLines(old(L[..])), SecretsOf(values);
              exists k: nat :: k <= |buf| && (if truncated then LongestTail(buf, secrets, k) else k == 0)
                && out == Scrub(buf, TailMask(Mask(buf, secrets), k), 0) + "\n"
  {
    var secrets := GatherSecrets(values);
    var maxl: nat := 0;
    for a := 0 to |secrets|
      invariant forall i :: 0 <= i < a ==> |secrets[i]| <= maxl
    {
      if |secrets[a]| > maxl {
        maxl := |secrets[a]|;
      }
    }
    if L.Length == 0 { return ""; }
    var buf := JoinInPlace(L);
    assert "" !in secrets by { assert forall v :: v in secrets <==> v in SecretsOf(values); }
    var m := new Merger(buf, secrets);
    m.Scan(if maxl > WINDOW then maxl else WINDOW, maxl);
    var kmax: nat := 0;
    if truncated {
      kmax := m.LongestSuffix();
    }
    m.Finish(kmax);
    out := m.out + "\n";
  }
}
