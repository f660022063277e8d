/**
 The two database modes of the dev-dataset tool (tools/dev_datasets/request.py): the reset and the degrade, each one
 transaction behind the check of the server's identity. Any statement may fail, and so may the answer to a commit.
 */
module Reset {
  import opened Options
  import opened Decimal

  const BARS := "stock_market_activity"
  const ENTRIES := "store_dataset_entry"
  const RUNS := "ingest_run"
  const READS := "dataset_read"
  const RESET_TABLES := [BARS, ENTRIES, RUNS, READS, "dataset_read_daily", "dataset_override_log", "dataset_deletion"]
  const DEGRADED_OWNER := "dev-degraded"
  const COMMAND_LINE := "command line"

  datatype Row =
    | Bar(dataset: int, at: int)
    | Entry(id: int, owner: string, symbol: string, granularity: string)
    | Run(state: string)
    | Other(key: int)

  type Content = map<string, seq<Row>>

  function RowsOf(c: Content, t: string): seq<Row> {
    if t in c then c[t] else []
  }

  function Emptied(c: Content): Content {
    map t | t in c :: if t in RESET_TABLES then [] else c[t]
  }

  function Counts(c: Content, tables: seq<string>): (n: seq<nat>)
    ensures |n| == |tables|
  {
    seq(|tables|, i requires 0 <= i < |tables| => |RowsOf(c, tables[i])|)
  }

  function Running(rows: seq<Row>): nat {
    if rows == [] then 0 else (if rows[0] == Run("RUNNING") then 1 else 0) + Running(rows[1..])
  }

  /** The runs in flight are the rows of that state, each one counted. */
  lemma {:induction false} RunningExactly(rows: seq<Row>)
    ensures Running(rows) == multiset(rows)[Run("RUNNING")]
  {
    if rows != [] {
      RunningExactly(rows[1..]);
      assert rows == [rows[0]] + rows[1..];
    }
  }

  /** A reset empties its seven tables, keeps every other one, and a second one changes nothing. */
  lemma {:induction false} EmptiedTables(c: Content)
    ensures Counts(Emptied(c), RESET_TABLES) == [0, 0, 0, 0, 0, 0, 0]
    ensures forall t :: t in RESET_TABLES ==> RowsOf(Emptied(c), t) == []
    ensures Emptied(c).Keys == c.Keys && forall t :: t in c && t !in RESET_TABLES ==> Emptied(c)[t] == c[t]
    ensures Emptied(Emptied(c)) == Emptied(c)
  {
    forall i | 0 <= i < |RESET_TABLES| ensures RowsOf(Emptied(c), RESET_TABLES[i]) == [] {
      assert RESET_TABLES[i] in RESET_TABLES;
    }
  }

  // ---- the degrade

  datatype Window = Window(first: int, last: int)

  datatype PlanRow = PlanRow(
    owner: string, symbol: string, granularity: string, drops: bool, failsFirst: bool, firstDay: string, lastDay: string)

  /** The calendar: an ISO date as a day number, and the instant at which a day begins in New York. */
  datatype Calendar = Calendar(iso: string -> Option<int>, midnight: int -> int)

  /** A plan date: D and an offset from today, or an ISO date. */
  function ResolveDay(value: string, today: int, cal: Calendar): Option<int> {
    if value == "D" then Some(today)
    else if |value| > 2 && value[0] == 'D' && value[1] in {'+', '-'} && AllDigits(value[2..]) then
      Some(if value[1] == '-' then today - Value(value[2..]) else today + Value(value[2..]))
    else cal.iso(value)
  }

  /** The instants between two New York midnights, none for an empty window or a day that cannot be read. */
  function DegradeWindow(row: PlanRow, today: int, cal: Calendar): Option<Window> {
    match (ResolveDay(row.firstDay, today, cal), ResolveDay(row.lastDay, today, cal))
    case (Some(first), Some(last)) =>
      if last <= first then None else Some(Window(cal.midnight(first), cal.midnight(last)))
    case _ => None
  }

  /** The window of a row holds whole days: those from its first up to its last. */
  lemma WindowHoldsWholeDays(row: PlanRow, today: int, cal: Calendar, day: int, at: int)
    requires forall a, b :: a < b ==> cal.midnight(a) < cal.midnight(b)
    requires cal.midnight(day) <= at < cal.midnight(day + 1)
    requires DegradeWindow(row, today, cal).Some?
    ensures var w := DegradeWindow(row, today, cal).value;
      w.first <= at < w.last <==>
      ResolveDay(row.firstDay, today, cal).value <= day < ResolveDay(row.lastDay, today, cal).value
  {
    var first, last := ResolveDay(row.firstDay, today, cal).value, ResolveDay(row.lastDay, today, cal).value;
    if day + 1 < first { assert cal.midnight(day + 1) < cal.midnight(first); }
    if last < day { assert cal.midnight(last) < cal.midnight(day); }
    if first < day { assert cal.midnight(first) < cal.midnight(day); }
    if day + 1 < last { assert cal.midnight(day + 1) < cal.midnight(last); }
  }

  /** A row has a window exactly when both its days can be read and the first comes before the last. */
  lemma WindowExactly(row: PlanRow, today: int, cal: Calendar, w: Window)
    ensures DegradeWindow(row, today, cal) == Some(w) <==>
      var first, last := ResolveDay(row.firstDay, today, cal), ResolveDay(row.lastDay, today, cal);
      && first.Some? && last.Some? && first.value < last.value
      && w.first == cal.midnight(first.value) && w.last == cal.midnight(last.value)
  {
  }

  lemma SignedDay(sign: char, digits: string, today: int, cal: Calendar)
    requires sign in {'+', '-'} && digits != "" && AllDigits(digits)
    ensures ResolveDay(['D', sign] + digits, today, cal) ==
      Some(if sign == '-' then today - Value(digits) else today + Value(digits))
  {
    assert (['D', sign] + digits)[2..] == digits;
  }

  /** A day written as an offset is that many days away, before today or after. */
  lemma {:induction false} OffsetIsRead(n: nat, today: int, cal: Calendar)
    ensures ResolveDay(['D', '-'] + Digits(n), today, cal) == Some(today - n)
    ensures ResolveDay(['D', '+'] + Digits(n), today, cal) == Some(today + n)
    ensures ResolveDay("D", today, cal) == Some(today)
    ensures forall iso: string :: iso != "" && iso[0] != 'D' ==> ResolveDay(iso, today, cal) == cal.iso(iso)
  {
    DigitsValue(n);
    SignedDay('-', Digits(n), today, cal);
    SignedDay('+', Digits(n), today, cal);
  }

  /** The ids of the entries that a row names. */
  function Found(entries: seq<Row>, row: PlanRow): seq<int> {
    if entries == [] then []
    else
      var e := entries[0];
      (if e.Entry? && e.owner == row.owner && e.symbol == row.symbol && e.granularity == row.granularity then [e.id] else [])
      + Found(entries[1..], row)
  }

  /** An entry of the row's owner, symbol and granularity, whatever its id. */
  predicate IsEntryOf(e: Row, row: PlanRow) {
    e.Entry? && e == Entry(e.id, row.owner, row.symbol, row.granularity)
  }

  /** The entry at i has that id and the row's owner, symbol and granularity, and no other entry has these three. */
  ghost predicate IsTheOne(entries: seq<Row>, i: nat, row: PlanRow, id: int) {
    && i < |entries| && entries[i] == Entry(id, row.owner, row.symbol, row.granularity)
    && forall j :: 0 <= j < |entries| && j != i ==> !IsEntryOf(entries[j], row)
  }

  lemma {:induction false} FoundNone(entries: seq<Row>, row: PlanRow)
    ensures Found(entries, row) == [] <==> forall j :: 0 <= j < |entries| ==> !IsEntryOf(entries[j], row)
  {
    if entries != [] {
      var rest := entries[1..];
      FoundNone(rest, row);
      assert forall j :: 0 <= j < |rest| ==> rest[j] == entries[j + 1];
      if !IsEntryOf(entries[0], row) && Found(rest, row) == [] {
        forall j | 0 <= j < |entries| ensures !IsEntryOf(entries[j], row) {
          if j > 0 { assert entries[j] == rest[j - 1]; }
        }
      }
    }
  }

  /** A row names one entry exactly when that one alone has its owner, its symbol and its granularity. */
  lemma {:induction false} FoundExactly(entries: seq<Row>, row: PlanRow, id: int)
    ensures Found(entries, row) == [id] <==> exists i :: IsTheOne(entries, i, row, id)
  {
    if entries != [] {
      var rest := entries[1..];
      FoundNone(rest, row);
      FoundExactly(rest, row, id);
      if Found(entries, row) == [id] {
        if IsEntryOf(entries[0], row) {
          assert Found(entries, row)[0] == entries[0].id && |Found(rest, row)| == 0;
          assert forall j :: 0 < j < |entries| ==> entries[j] == rest[j - 1];
          assert IsTheOne(entries, 0, row, id);
        } else {
          assert Found(entries, row) == Found(rest, row);
          var i: nat :| IsTheOne(rest, i, row, id);
          assert IsTheOne(entries, i + 1, row, id);
        }
      }
      if exists i :: IsTheOne(entries, i, row, id) {
        var i: nat :| IsTheOne(entries, i, row, id);
        if i > 0 {
          assert !IsEntryOf(entries[0], row);
          assert IsTheOne(rest, i - 1, row, id);
        } else {
          assert forall j :: 0 <= j < |rest| ==> rest[j] == entries[j + 1];
        }
      }
    }
  }

  predicate OwnedByDegraded(entries: seq<Row>, id: int) {
    exists e :: e in entries && e.Entry? && e.id == id && e.owner == DEGRADED_OWNER
  }

  datatype Cut = Cut(dataset: int, window: Window)

  predicate Hits(cut: Cut, r: Row, entries: seq<Row>) {
    r.Bar? && r.dataset == cut.dataset && cut.window.first <= r.at < cut.window.last && OwnedByDegraded(entries, cut.dataset)
  }

  /** The bars that one delete leaves. */
  function Left(bars: seq<Row>, cut: Cut, entries: seq<Row>): seq<Row> {
    if bars == [] then [] else (if Hits(cut, bars[0], entries) then [] else [bars[0]]) + Left(bars[1..], cut, entries)
  }

  function Deleted(c: Content, cut: Cut): Content {
    if BARS in c then c[BARS := Left(c[BARS], cut, RowsOf(c, ENTRIES))] else c
  }

  /** The cut of one target, none when its window cannot be read or it names other than one entry. */
  function CutOf(c: Content, row: PlanRow, today: int, cal: Calendar): Option<Cut> {
    var w, found := DegradeWindow(row, today, cal), Found(RowsOf(c, ENTRIES), row);
    if w.Some? && |found| == 1 then Some(Cut(found[0], w.value)) else None
  }

  function Targets(rows: seq<PlanRow>): seq<PlanRow> {
    if rows == [] then []
    else
      var r := rows[|rows| - 1];
      Targets(rows[..|rows| - 1]) + if r.drops && !r.failsFirst then [r] else []
  }

  /** No row of the plan deletes from a dataset that someone else owns. */
  predicate OwnersAllowed(rows: seq<PlanRow>) {
    forall r :: r in rows && r.drops ==> r.owner == DEGRADED_OWNER
  }

  function Cuts(c: Content, targets: seq<PlanRow>, today: int, cal: Calendar): Option<seq<Cut>> {
    if targets == [] then Some([])
    else match (Cuts(c, targets[..|targets| - 1], today, cal), CutOf(c, targets[|targets| - 1], today, cal))
      case (Some(before), Some(cut)) => Some(before + [cut])
      case _ => None
  }

  lemma {:induction false} CutsOfPrefix(c: Content, targets: seq<PlanRow>, k: nat, today: int, cal: Calendar)
    requires k <= |targets| && Cuts(c, targets, today, cal).Some?
    ensures Cuts(c, targets[..k], today, cal).Some?
  {
    if k == |targets| {
      assert targets[..k] == targets;
    } else {
      var rest := targets[..|targets| - 1];
      CutsOfPrefix(c, rest, k, today, cal);
      assert rest[..k] == targets[..k];
    }
  }

  predicate HitByAny(cuts: seq<Cut>, r: Row, entries: seq<Row>) {
    exists c :: c in cuts && Hits(c, r, entries)
  }

  /** The bars that no cut hits, in one pass. */
  function Spared(bars: seq<Row>, cuts: seq<Cut>, entries: seq<Row>): seq<Row> {
    if bars == [] then []
    else (if HitByAny(cuts, bars[0], entries) then [] else [bars[0]]) + Spared(bars[1..], cuts, entries)
  }

  lemma {:induction false} LeftOfSpared(bars: seq<Row>, cuts: seq<Cut>, cut: Cut, entries: seq<Row>)
    ensures Left(Spared(bars, cuts, entries), cut, entries) == Spared(bars, cuts + [cut], entries)
  {
    if bars != [] {
      LeftOfSpared(bars[1..], cuts, cut, entries);
      assert HitByAny(cuts + [cut], bars[0], entries) <==> HitByAny(cuts, bars[0], entries) || Hits(cut, bars[0], entries) by {
        assert cut in cuts + [cut];
        assert forall c :: c in cuts ==> c in cuts + [cut];
      }
      var rest := Spared(bars[1..], cuts, entries);
      LeftCons(bars[0], rest, cut, entries);
      assert [] + rest == rest;
    }
  }

  lemma LeftCons(r: Row, bars: seq<Row>, cut: Cut, entries: seq<Row>)
    ensures Left([r] + bars, cut, entries) == (if Hits(cut, r, entries) then [] else [r]) + Left(bars, cut, entries)
  {
    assert ([r] + bars)[1..] == bars;
  }

  lemma {:induction false} NoCutSparesAll(bars: seq<Row>, entries: seq<Row>)
    ensures Spared(bars, [], entries) == bars
  {
    if bars != [] { NoCutSparesAll(bars[1..], entries); }
  }

  function AfterCuts(c: Content, cuts: seq<Cut>): Content {
    if BARS in c then c[BARS := Spared(c[BARS], cuts, RowsOf(c, ENTRIES))] else c
  }

  /** A bar is spared exactly when no cut hits it. */
  lemma {:induction false} SparedIsUnhit(bars: seq<Row>, cuts: seq<Cut>, entries: seq<Row>, r: Row)
    ensures r in Spared(bars, cuts, entries) <==> r in bars && !HitByAny(cuts, r, entries)
  {
    if bars != [] {
      SparedIsUnhit(bars[1..], cuts, entries, r);
    }
  }

  /** The order of the plan does not matter: the cuts, in any order and any number, leave the same bars. */
  lemma {:induction false} OrderOfCuts(bars: seq<Row>, one: seq<Cut>, two: seq<Cut>, entries: seq<Row>)
    requires forall c :: c in one <==> c in two
    ensures Spared(bars, one, entries) == Spared(bars, two, entries)
  {
    if bars != [] { OrderOfCuts(bars[1..], one, two, entries); }
  }

  // ---- the transactions

  /** One row, set on the command line, and the stack that the store gave. */
  predicate Identified(identity: seq<(string, string)>, stack: string) {
    identity == [(stack, COMMAND_LINE)] && stack in {"dev", "test"}
  }

  datatype Reset =
    | Verified(before: seq<nat>, after: seq<nat>)
    | NotClean(runs: nat, readers: nat)
    | RunsInFlight(running: nat)
    | RecountFailed
    | RolledBack
    | NotOpened

  datatype Degrade = Done | NotAllowed | Failed | NoConnection

  class Database {
    var content: Content
    /** What the open transaction sees. */
    var pending: Content
    var connected: bool
    var calls: nat
    /** How many commits took effect. */
    ghost var commits: nat
    const identity: seq<(string, string)>
    const fault: nat -> bool
    /** Whether a commit takes effect but its answer does not arrive. */
    const lost: nat -> bool

    constructor (content: Content, identity: seq<(string, string)>, fault: nat -> bool, lost: nat -> bool)
      ensures this.content == content && this.identity == identity && this.fault == fault && this.lost == lost
      ensures !connected && commits == 0 && calls == 0
    {
      this.content, this.identity, this.fault, this.lost := content, identity, fault, lost;
      pending, connected, calls, commits := content, false, 0, 0;
    }

    /** None of the n statements after this one fails. */
    ghost predicate AllRun(from: nat, n: nat) {
      forall k :: from < k <= from + n ==> !fault(k)
    }

    method Statement() returns (ok: bool)
      modifies this`calls
      ensures calls == old(calls) + 1 && ok == !fault(calls)
    {
      calls := calls + 1;
      ok := !fault(calls);
    }

    /** A connection that has passed the check of the server's identity, its first and only statement. */
    method Open(stack: string) returns (ok: bool)
      requires !connected
      modifies this`calls, this`connected, this`pending
      ensures ok == connected
      ensures ok <==> AllRun(old(calls), 2) && Identified(identity, stack)
      ensures ok ==> identity == [(stack, "command line")] && (stack == "dev" || stack == "test")
      ensures ok ==> pending == content && calls == old(calls) + 2
    {
      ok := Statement();
      if !ok { return; }
      connected, pending := true, content;
      ok := Statement();
      if ok {
        ok := |identity| == 1 && identity[0].1 == COMMAND_LINE && identity[0].0 in {"dev", "test"} && identity[0].0 == stack;
      }
      if !ok { connected := false; }
    }

    method Commit() returns (ok: bool)
      requires connected
      modifies this`calls, this`content, this`commits
      ensures calls == old(calls) + 1
      ensures commits == old(commits) + if fault(calls) then 0 else 1
      ensures content == if fault(calls) then old(content) else pending
      ensures ok <==> !fault(calls) && !lost(calls)
    {
      calls := calls + 1;
      if fault(calls) { return false; }
      content, commits := pending, commits + 1;
      ok := !lost(calls);
    }

    /** The rows of the tables, in their order. */
    method Count(tables: seq<string>) returns (n: seq<nat>, ok: bool)
      modifies this`calls
      ensures ok <==> AllRun(old(calls), |tables|) && Present(pending, tables)
      ensures ok ==> n == Counts(pending, tables) && calls == old(calls) + |tables|
    {
      n := [];
      for i := 0 to |tables|
        invariant n == Counts(pending, tables[..i])
        invariant forall j :: 0 <= j < i ==> tables[j] in pending
        invariant calls == old(calls) + i && AllRun(old(calls), i)
      {
        ok := Statement();
        if !ok || tables[i] !in pending { return n, false; }
        n := n + [|pending[tables[i]]|];
      }
      assert tables[..|tables|] == tables;
      ok := true;
    }

    /** The statements of the reset, up to its commit. */
    method Empty() returns (running: nat, before: seq<nat>, after: seq<nat>, ok: bool)
      modifies this`calls, this`pending
      ensures ok ==> running == Running(RowsOf(old(pending), RUNS))
      ensures ok && running == 0 <==>
        AllRun(old(calls), 17) && Present(old(pending), RESET_TABLES) && Running(RowsOf(old(pending), RUNS)) == 0
      ensures ok && running == 0 ==> pending == Emptied(old(pending)) && calls == old(calls) + 17
      ensures ok && running == 0 ==> before == Counts(old(pending), RESET_TABLES) && after == Counts(pending, RESET_TABLES)
    {
      running, before, after := 0, [], [];
      ok := Statement();
      if !ok { return; }
      ok := Statement();
      if !ok { return; }
      assert RESET_TABLES[2] == RUNS;
      if RUNS !in pending { return running, before, after, false; }
      running := Running(pending[RUNS]);
      if running > 0 { return; }
      before, ok := Count(RESET_TABLES);
      if !ok { return; }
      ok := Statement();
      if !ok { return; }
      pending := Emptied(pending);
      after, ok := Count(RESET_TABLES);
    }

    /** What the reset needs to reach its commit, its twentieth statement, and for it to take effect. */
    ghost predicate Commits(stack: string, c: Content, from: nat) {
      Identified(identity, stack) && AllRun(from, 20) && Present(c, RESET_TABLES) && Running(RowsOf(c, RUNS)) == 0
    }

    /**
     The reset, with what other sessions write while it waits. The seven tables are emptied and nothing else, or
     nothing is changed, whichever statement fails. The report that it was rolled back is wrong exactly when everything
     went well up to the commit, the twentieth statement, and only the answer to that was lost.
     */
    method RunReset(stack: string, meanwhile: Content -> Content) returns (r: Reset)
      requires !connected
      modifies this
      ensures !connected
      ensures commits == old(commits) + if Commits(stack, old(content), old(calls)) then 1 else 0
      ensures commits > old(commits) ==> identity == [(stack, "command line")]
      ensures commits == old(commits) ==> content == old(content) && (r.RunsInFlight? || r.RolledBack? || r.NotOpened?)
      ensures r.RolledBack? && commits > old(commits) <==>
        Commits(stack, old(content), old(calls)) && lost(old(calls) + 20)
      ensures r.RolledBack? && commits > old(commits) ==> content == Emptied(old(content))
      ensures r.Verified? || r.NotClean? || r.RecountFailed? ==> commits > old(commits) && content == meanwhile(Emptied(old(content)))
      ensures r.Verified? ==> RowsOf(content, RUNS) == [] && RowsOf(content, READS) == []
      ensures r.Verified? ==> r.before == Counts(old(content), RESET_TABLES) && r.after == [0, 0, 0, 0, 0, 0, 0]
      ensures r.Verified? ==> forall i :: 0 <= i < 7 ==> r.before[i] == |RowsOf(old(content), RESET_TABLES[i])|
      ensures r.NotClean? ==> r.runs == |RowsOf(content, RUNS)| && r.readers == |RowsOf(content, READS)| && r.runs + r.readers > 0
      ensures r.RunsInFlight? ==> r.running == Running(RowsOf(old(content), RUNS)) > 0
    {
      var allowed := Open(stack);
      if !allowed { return NotOpened; }
      var running, before, after, ok := Empty();
      if ok && running == 0 { ok := Commit(); }
      connected := false;
      if !ok { return RolledBack; }
      if running > 0 { return RunsInFlight(running); }
      EmptiedTables(old(content));
      content := meanwhile(content);
      var runs, readers;
      runs, readers, ok := Recount(stack);
      if !ok { return RecountFailed; }
      return if runs > 0 || readers > 0 then NotClean(runs, readers) else Verified(before, after);
    }

    /** The runs and reads that are there now, on a fresh connection. */
    method Recount(stack: string) returns (runs: nat, readers: nat, ok: bool)
      requires !connected
      modifies this`calls, this`connected, this`pending
      ensures !connected
      ensures ok ==> runs == |RowsOf(content, RUNS)| && readers == |RowsOf(content, READS)|
    {
      runs, readers := 0, 0;
      ok := Open(stack);
      if !ok { return; }
      var n;
      n, ok := Count(RESET_TABLES);
      connected := false;
      if ok { runs, readers := n[2], n[3]; }
    }

    /** The rows to degrade, unless one of the plan's rows belongs to someone else. */
    method Collect(rows: seq<PlanRow>) returns (targets: seq<PlanRow>, ok: bool)
      ensures ok <==> OwnersAllowed(rows)
      ensures ok ==> targets == Targets(rows)
    {
      targets := [];
      for i := 0 to |rows|
        invariant OwnersAllowed(rows[..i])
        invariant targets == Targets(rows[..i])
      {
        assert rows[..i + 1][..i] == rows[..i];
        if rows[i].drops {
          if rows[i].owner != DEGRADED_OWNER { return targets, false; }
          if !rows[i].failsFirst { targets := targets + [rows[i]]; }
        }
      }
      assert rows[..|rows|] == rows;
      ok := true;
    }

    /** One target's lookup and delete: two statements. */
    method CutOne(row: PlanRow, today: int, cal: Calendar) returns (ok: bool)
      modifies this`calls, this`pending
      ensures ok <==> AllRun(old(calls), 2) && CutOf(old(pending), row, today, cal).Some? && Tabled(old(pending))
      ensures ok ==> calls == old(calls) + 2
      ensures ok ==> pending == Deleted(old(pending), CutOf(old(pending), row, today, cal).value)
    {
      var w := DegradeWindow(row, today, cal);
      if w.None? { return false; }
      ok := Statement();
      if !ok || ENTRIES !in pending { return false; }
      var found := Found(pending[ENTRIES], row);
      if |found| != 1 { return false; }
      ok := Statement();
      if !ok || BARS !in pending { return false; }
      pending := Deleted(pending, Cut(found[0], w.value));
    }

    /** The deletes of a plan, up to the commit. */
    method CutAll(targets: seq<PlanRow>, today: int, cal: Calendar) returns (ok: bool)
      requires targets != []
      modifies this`calls, this`pending
      ensures ok <==>
        AllRun(old(calls), 2 * |targets|) && Cuts(old(pending), targets, today, cal).Some? && Tabled(old(pending))
      ensures ok ==> calls == old(calls) + 2 * |targets|
      ensures ok ==> pending == AfterCuts(old(pending), Cuts(old(pending), targets, today, cal).value)
    {
      ghost var before, done := pending, [];
      NoCutSparesAll(RowsOf(pending, BARS), RowsOf(pending, ENTRIES));
      for i := 0 to |targets|
        invariant Cuts(before, targets[..i], today, cal) == Some(done)
        invariant pending == AfterCuts(before, done)
        invariant calls == old(calls) + 2 * i && AllRun(old(calls), 2 * i)
        invariant i > 0 ==> Tabled(before)
      {
        assert targets[..i + 1][..i] == targets[..i];
        if CutOf(before, targets[i], today, cal).None? { CutsFail(before, targets, i, today, cal); }
        ok := CutOne(targets[i], today, cal);
        if !ok { return; }
        ghost var cut := CutOf(before, targets[i], today, cal).value;
        LeftOfSpared(RowsOf(before, BARS), done, cut, RowsOf(before, ENTRIES));
        done := done + [cut];
      }
      assert targets[..|targets|] == targets;
      ok := true;
    }

    /** The number of a degrade's commit: a connection, a check, two statements for each target, and then it. */
    function CommitOf(targets: seq<PlanRow>): nat {
      2 + 2 * |targets| + 1
    }

    /** What the transaction over some targets needs to reach its commit, and for it to take effect. */
    ghost predicate Cutting(stack: string, c: Content, targets: seq<PlanRow>, today: int, cal: Calendar, from: nat) {
      && Identified(identity, stack) && Cuts(c, targets, today, cal).Some? && Tabled(c)
      && AllRun(from, CommitOf(targets))
    }

    method CutAndCommit(stack: string, targets: seq<PlanRow>, today: int, cal: Calendar) returns (r: Degrade)
      requires !connected && targets != []
      modifies this
      ensures !connected && r != NotAllowed
      ensures commits == old(commits) + if Cutting(stack, old(content), targets, today, cal, old(calls)) then 1 else 0
      ensures commits == old(commits) ==> content == old(content)
      ensures commits > old(commits) ==> content == AfterCuts(old(content), Cuts(old(content), targets, today, cal).value)
      ensures r == Done <==> commits > old(commits) && !lost(old(calls) + CommitOf(targets))
      ensures commits > old(commits) ==> r in {Done, Failed}
    {
      var ok := Open(stack);
      if !ok { return NoConnection; }
      ok := CutAll(targets, today, cal);
      if ok { ok := Commit(); }
      connected := false;
      return if ok then Done else Failed;
    }

    /** An allowed plan with something to cut, whose transaction reaches its commit. */
    ghost predicate Degrades(stack: string, c: Content, rows: seq<PlanRow>, today: int, cal: Calendar, from: nat) {
      OwnersAllowed(rows) && Targets(rows) != [] && Cutting(stack, c, Targets(rows), today, cal, from)
    }

    /**
     The degrade of a plan. It commits the cuts of all its targets or changes nothing, whichever statement fails. The
     report that it failed is wrong exactly when only the answer to its commit was lost.
     */
    method RunDegrade(stack: string, rows: seq<PlanRow>, today: int, cal: Calendar) returns (r: Degrade)
      requires !connected
      modifies this
      ensures !connected
      ensures r == NotAllowed <==> !OwnersAllowed(rows)
      ensures commits == old(commits) + if Degrades(stack, old(content), rows, today, cal, old(calls)) then 1 else 0
      ensures commits == old(commits) ==> content == old(content)
      ensures commits > old(commits) ==> content == AfterCuts(old(content), Cuts(old(content), Targets(rows), today, cal).value)
      ensures r == Done <==>
        OwnersAllowed(rows) && (Targets(rows) == [] || (commits > old(commits) && !lost(old(calls) + CommitOf(Targets(rows)))))
      ensures r == Failed && commits > old(commits) <==>
        Degrades(stack, old(content), rows, today, cal, old(calls)) && lost(old(calls) + CommitOf(Targets(rows)))
    {
      var targets, ok := Collect(rows);
      if !ok { return NotAllowed; }
      if targets == [] { return Done; }
      r := CutAndCommit(stack, targets, today, cal);
    }
  }

  predicate Present(c: Content, tables: seq<string>) {
    forall i :: 0 <= i < |tables| ==> tables[i] in c
  }

  /** A store with one read in each table, and a network that loses the answer to the reset's commit. */
  method EmptyUnderRolledBack() returns (db: Database, r: Reset)
    ensures r == RolledBack && db.content == Emptied(OneReadEach()) != OneReadEach()
  {
    db := new Database(OneReadEach(), [("dev", COMMAND_LINE)], n => false, n => n == 20);
    r := db.RunReset("dev", c => c);
    assert OneReadEach()[READS] != [] && Emptied(OneReadEach())[READS] == [] by {
      assert RESET_TABLES[3] == READS && READS in OneReadEach();
    }
  }

  function OneReadEach(): (c: Content)
    ensures Present(c, RESET_TABLES) && Running(RowsOf(c, RUNS)) == 0
  {
    assert RESET_TABLES[2] == RUNS;
    map t | t in RESET_TABLES :: [Other(0)]
  }

  /** A degrade touches no other table, and takes only bars that a dev-degraded entry holds inside a target's window. */
  lemma OnlyDegradedBarsGo(c: Content, cuts: seq<Cut>, r: Row)
    ensures forall t :: t != BARS ==> RowsOf(AfterCuts(c, cuts), t) == RowsOf(c, t)
    ensures r in RowsOf(c, BARS) && r !in RowsOf(AfterCuts(c, cuts), BARS) <==>
      r in RowsOf(c, BARS) && HitByAny(cuts, r, RowsOf(c, ENTRIES))
    ensures r in RowsOf(c, BARS) && r !in RowsOf(AfterCuts(c, cuts), BARS) ==>
      r.Bar? && exists e :: e in RowsOf(c, ENTRIES) && e.Entry? && e == Entry(r.dataset, "dev-degraded", e.symbol, e.granularity)
  {
    SparedIsUnhit(RowsOf(c, BARS), cuts, RowsOf(c, ENTRIES), r);
  }

  predicate Tabled(c: Content) {
    BARS in c && ENTRIES in c
  }

  /** A target that cannot be cut leaves the whole plan without cuts. */
  lemma CutsFail(c: Content, targets: seq<PlanRow>, i: nat, today: int, cal: Calendar)
    requires i < |targets| && CutOf(c, targets[i], today, cal).None?
    ensures Cuts(c, targets, today, cal).None?
  {
    if Cuts(c, targets, today, cal).Some? {
      CutsOfPrefix(c, targets, i + 1, today, cal);
    }
  }

  // ---- which bars a plan takes

  lemma {:induction false} TargetsExactly(rows: seq<PlanRow>, row: PlanRow)
    ensures row in Targets(rows) <==> row in rows && row.drops && !row.failsFirst
  {
    if rows != [] {
      TargetsExactly(rows[..|rows| - 1], row);
      assert rows == rows[..|rows| - 1] + [rows[|rows| - 1]];
    }
  }

  lemma {:induction false} CutsExactly(c: Content, targets: seq<PlanRow>, today: int, cal: Calendar, cut: Cut)
    requires Cuts(c, targets, today, cal).Some?
    ensures cut in Cuts(c, targets, today, cal).value <==> exists row :: row in targets && CutOf(c, row, today, cal) == Some(cut)
  {
    if targets != [] {
      var front, last := targets[..|targets| - 1], targets[|targets| - 1];
      CutsExactly(c, front, today, cal, cut);
      assert forall row :: row in targets <==> row in front || row == last;
    }
  }

  /** The row names the bar's dataset alone, by owner, symbol and granularity, and the bar lies in its window. */
  ghost predicate Takes(c: Content, row: PlanRow, today: int, cal: Calendar, bar: Row)
    requires bar.Bar?
  {
    && (exists i :: IsTheOne(RowsOf(c, ENTRIES), i, row, bar.dataset))
    && var first, last := ResolveDay(row.firstDay, today, cal), ResolveDay(row.lastDay, today, cal);
       && first.Some? && last.Some? && first.value < last.value
       && cal.midnight(first.value) <= bar.at < cal.midnight(last.value)
  }

  lemma CutTakes(c: Content, row: PlanRow, today: int, cal: Calendar, bar: Row)
    requires bar.Bar? && row.owner == DEGRADED_OWNER
    ensures Takes(c, row, today, cal, bar) <==>
      CutOf(c, row, today, cal).Some? && Hits(CutOf(c, row, today, cal).value, bar, RowsOf(c, ENTRIES))
  {
    var entries := RowsOf(c, ENTRIES);
    FoundExactly(entries, row, bar.dataset);
    if Found(entries, row) == [bar.dataset] {
      var i: nat :| IsTheOne(entries, i, row, bar.dataset);
      assert entries[i] in entries;
    }
  }

  /**
   A degrade that commits takes exactly the bars that one of its dropping rows, but for those that fail first, names by its
   dataset and its window.
   */
  lemma {:induction false} BarsGoExactly(c: Content, rows: seq<PlanRow>, today: int, cal: Calendar, bar: Row)
    requires OwnersAllowed(rows) && Cuts(c, Targets(rows), today, cal).Some? && bar.Bar? && bar in RowsOf(c, BARS)
    ensures bar !in RowsOf(AfterCuts(c, Cuts(c, Targets(rows), today, cal).value), BARS) <==>
      exists row :: row in rows && row.drops && !row.failsFirst && Takes(c, row, today, cal, bar)
  {
    var cuts := Cuts(c, Targets(rows), today, cal).value;
    OnlyDegradedBarsGo(c, cuts, bar);
    if cut :| cut in cuts && Hits(cut, bar, RowsOf(c, ENTRIES)) {
      CutsExactly(c, Targets(rows), today, cal, cut);
      var row :| row in Targets(rows) && CutOf(c, row, today, cal) == Some(cut);
      TargetsExactly(rows, row);
      CutTakes(c, row, today, cal, bar);
    }
    if row :| row in rows && row.drops && !row.failsFirst && Takes(c, row, today, cal, bar) {
      TargetsExactly(rows, row);
      CutTakes(c, row, today, cal, bar);
      var cut := CutOf(c, row, today, cal).value;
      CutsExactly(c, Targets(rows), today, cal, cut);
      assert cut in cuts && HitByAny(cuts, bar, RowsOf(c, ENTRIES));
    }
  }
}
