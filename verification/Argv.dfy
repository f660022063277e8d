/** The checks on the words that go to the daemon (tools/agent_mcp/stack.py): the languages they accept. */
module Argv {
  import opened Options
  import opened Text
  import opened Commands
  import VerbLaw
  import ProxyPath

  const DOCKER := "/usr/local/bin/docker"
  const LABEL_PREFIX := [DOCKER, "compose", "-p", "trader_joe_dev"]
  const PROJECT_DIRECTORY := "--project-directory"
  const TRUSTED := "/opt/agent_mcp/compose/"
  const BASE := "docker-compose.yaml"
  const OVERRIDE := "docker-compose.override.yaml"
  const WEB := "docker-compose.web.yaml"
  const WEB_DEV := "docker-compose.web.dev.yaml"
  const TOOLS := "docker-compose.tools.yaml"
  const AGENT_DEV := "docker-compose.agent-dev.yaml"
  const FAKE := "docker-compose.fake.yaml"
  const AGENT_TEST := "docker-compose.agent-test.yaml"
  const TEST_CLIENT := "docker-compose.test-client.yaml"
  const AGENT_CLIENT := "docker-compose.agent-client.yaml"

  function FileNames(files: Files): seq<string> {
    match files
    case LabelOnly => []
    case DevFiles => [BASE, OVERRIDE, WEB, WEB_DEV, AGENT_DEV]
    case ToolsFiles => [BASE, OVERRIDE, WEB, WEB_DEV, TOOLS, AGENT_DEV]
    case TestFiles => [BASE, FAKE]
    case TestBuildFiles => [BASE, FAKE, AGENT_TEST]
    case ClientFiles => [BASE, TEST_CLIENT, AGENT_CLIENT]
  }

  function Flags(names: seq<string>): (words: seq<string>)
    ensures |words| == 2 * |names|
    ensures forall i :: 0 <= i < |names| ==> words[2 * i] == "-f" && words[2 * i + 1] == TRUSTED + names[i]
  {
    if names == [] then [] else Flags(names[..|names| - 1]) + ["-f", TRUSTED + names[|names| - 1]]
  }

  /** The words before a command's own: the project, and for a file-based one the host path and the trusted files. */
  function Prefix(files: Files, host: string): seq<string> {
    if files.LabelOnly? then LABEL_PREFIX else LABEL_PREFIX + [PROJECT_DIRECTORY, host] + Flags(FileNames(files))
  }

  // ---- the forbidden words

  const FORBIDDEN := {
    "-f", "--file", "-p", "--project-name", PROJECT_DIRECTORY, "--env-file", "--profile",
    "-v", "-V", "--volumes", "--renew-anon-volumes", "--rmi", "--remove-orphans", "prune"
  }

  /** A forbidden option in one of its spellings: alone, with a value attached, or inside a short cluster. */
  predicate IsForbidden(w: string) {
    || w[..FirstOf(w, '=')] in FORBIDDEN
    || "-f" <= w || "-p" <= w
    || ("-" <= w && !("--" <= w) && ('v' in w || 'V' in w))
  }

  predicate Clean(tail: seq<string>) {
    forall i :: 0 <= i < |tail| ==> !IsForbidden(tail[i])
  }

  // ---- the lifecycle commands

  /** The table: a whole tail and the prefix it runs under. */
  function Table(tail: seq<string>): Option<Files> {
    if tail == DOWN_TAIL then Some(LabelOnly)
    else if |tail| == 2 && tail[0] == "restart" && tail[1] in RESTART_SERVICES then Some(LabelOnly)
    else if tail == DEV_BUILD_TAIL || tail == DEV_UP_TAIL || tail == MIGRATE_TAIL then Some(DevFiles)
    else if tail == DEV_TOOLS_TAIL then Some(ToolsFiles)
    else if tail == TEST_BUILD_TAIL then Some(TestBuildFiles)
    else if tail == TEST_UP_TAIL then Some(TestFiles)
    else None
  }

  /** The second table: the migration over the test files. */
  function OneOff(tail: seq<string>): Option<Files> {
    if tail == MIGRATE_TAIL then Some(TestFiles) else None
  }

  predicate IsRow(files: Files, tail: seq<string>) {
    Table(tail) == Some(files) || OneOff(tail) == Some(files)
  }

  /** The first of the file-based prefixes, the longest before what it extends, that the words begin with. */
  function Chosen(words: seq<string>, host: string): (f: Option<Files>)
    ensures f.Some? ==> Prefix(f.value, host) <= words
  {
    if Prefix(ToolsFiles, host) <= words then Some(ToolsFiles)
    else if Prefix(TestBuildFiles, host) <= words then Some(TestBuildFiles)
    else if Prefix(TestFiles, host) <= words then Some(TestFiles)
    else if Prefix(DevFiles, host) <= words then Some(DevFiles)
    else None
  }

  predicate TailAllowed(files: Files, tail: seq<string>, scan: bool) {
    (scan ==> Clean(tail)) && IsRow(files, tail)
  }

  /** The check, with its scan for forbidden words or without. */
  predicate Checked(words: seq<string>, host: Option<string>, scan: bool) {
    && LABEL_PREFIX <= words
    && if |words| > 4 && words[4] == PROJECT_DIRECTORY then
         && host.Some?
         && var files := Chosen(words, host.value);
            files.Some? && TailAllowed(files.value, words[|Prefix(files.value, host.value)|..], scan)
       else TailAllowed(LabelOnly, words[4..], scan)
  }

  predicate CheckLifecycle(words: seq<string>, host: Option<string>) {
    Checked(words, host, true)
  }

  /** A row of the tables under its own prefix, whole. */
  predicate IsCommand(words: seq<string>, host: Option<string>, files: Files, tail: seq<string>) {
    && IsRow(files, tail)
    && if host.Some? then words == Prefix(files, host.value) + tail else files.LabelOnly? && words == LABEL_PREFIX + tail
  }

  lemma PlainWordsAreAllowed(w: string)
    requires w != "" && w[0] != '-' && w[0] != 'p'
    ensures !IsForbidden(w)
  {
    var head := w[..FirstOf(w, '=')];
    assert head == "" || head[0] == w[0];
    assert forall o :: o in FORBIDDEN ==> o != "" && (o[0] == '-' || o[0] == 'p');
  }

  /** Told apart from every forbidden option by its length or by one letter. */
  predicate Distinct(w: string) {
    if |w| == 2 then w[1] !in {'f', 'p', 'v', 'V'}
    else |w| in {4, 12} || (|w| > 2 && w[2] !in {'f', 'p', 'e', 'v', 'r', 'u'})
  }

  lemma DistinctIsNotForbidden(w: string)
    requires Distinct(w)
    ensures w !in FORBIDDEN
  {
  }

  lemma LongOptionIsAllowed(w: string)
    requires Distinct(w) && '=' !in w && |w| > 2 && (w[..2] == "--" || w[0] == 'p')
    ensures !IsForbidden(w)
  {
    assert FirstOf(w, '=') == |w|;
    DistinctIsNotForbidden(w);
  }

  lemma ShortOptionIsAllowed(w: string)
    requires Distinct(w) && |w| == 2 && w[0] == '-' && w[1] != '='
    ensures !IsForbidden(w)
  {
    assert w == [w[0], w[1]];
    assert FirstOf(w, '=') == |w|;
    DistinctIsNotForbidden(w);
  }

  const OPTIONS := {"--wait", "--wait-timeout", "--rm", "--no-deps", "--build", "--entrypoint", "--date", "postgres", "pgadmin"}

  lemma OptionsAreAllowed(w: string)
    requires w in OPTIONS
    ensures !IsForbidden(w)
  {
    LongOptionIsAllowed(w);
  }

  /** A word that no scan can mistake: it begins like no option, or it is one of the options in use. */
  predicate Simple(w: string) {
    (w != "" && w[0] != '-' && w[0] != 'p') || w in {"-d", "-T", "-m"} || w in OPTIONS
  }

  lemma SimpleIsAllowed(w: string)
    requires Simple(w)
    ensures !IsForbidden(w)
  {
    if w != "" && w[0] != '-' && w[0] != 'p' {
      PlainWordsAreAllowed(w);
    } else if w in OPTIONS {
      OptionsAreAllowed(w);
    } else {
      ShortOptionIsAllowed(w);
    }
  }

  predicate AllSimple(tail: seq<string>) {
    forall i :: 0 <= i < |tail| ==> Simple(tail[i])
  }

  /** No row of the tables holds a forbidden word. */
  lemma RowsAreClean(files: Files, tail: seq<string>)
    requires IsRow(files, tail)
    ensures Clean(tail)
  {
    RowsAreSimple(files, tail);
    forall i | 0 <= i < |tail| ensures !IsForbidden(tail[i]) {
      SimpleIsAllowed(tail[i]);
    }
  }

  lemma RowsAreSimple(files: Files, tail: seq<string>)
    requires IsRow(files, tail)
    ensures AllSimple(tail)
  {
  }

  /** What the words of a row do not begin with. */
  lemma RowsBeginWithACommand(files: Files, tail: seq<string>)
    requires IsRow(files, tail)
    ensures tail != [] && tail[0] != "-f" && tail[0] != PROJECT_DIRECTORY
  {
  }

  lemma FileWord(files: Files, host: string, i: nat)
    requires !files.LabelOnly? && i < |FileNames(files)|
    ensures |Prefix(files, host)| == 6 + 2 * |FileNames(files)|
    ensures Prefix(files, host)[6 + 2 * i] == "-f" && Prefix(files, host)[7 + 2 * i] == TRUSTED + FileNames(files)[i]
  {
    var flags := Flags(FileNames(files));
    assert flags[2 * i] == "-f" && flags[2 * i + 1] == TRUSTED + FileNames(files)[i];
  }

  /** Where two sets name different files, the prefix of one is not before the words of the other. */
  lemma OtherFile(files: Files, other: Files, host: string, tail: seq<string>, i: nat)
    requires !files.LabelOnly? && !other.LabelOnly? && i < |FileNames(files)| && i < |FileNames(other)|
    requires |FileNames(files)[i]| != |FileNames(other)[i]|
    ensures !(Prefix(other, host) <= Prefix(files, host) + tail)
  {
    FileWord(files, host, i);
    FileWord(other, host, i);
    assert (Prefix(files, host) + tail)[7 + 2 * i] == Prefix(files, host)[7 + 2 * i];
    assert |Prefix(files, host)[7 + 2 * i]| != |Prefix(other, host)[7 + 2 * i]|;
  }

  /** The longer test prefix is not before words whose own command begins after the shorter one. */
  lemma BuildFilesAreLonger(host: string, tail: seq<string>)
    requires tail != [] && tail[0] != "-f"
    ensures !(Prefix(TestBuildFiles, host) <= Prefix(TestFiles, host) + tail)
  {
    FileWord(TestFiles, host, 0);
    FileWord(TestBuildFiles, host, 2);
    assert (Prefix(TestFiles, host) + tail)[10] == tail[0];
  }

  lemma NotTheTools(files: Files, host: string, tail: seq<string>)
    requires files in {TestBuildFiles, TestFiles, DevFiles}
    ensures !(Prefix(ToolsFiles, host) <= Prefix(files, host) + tail)
  {
    OtherFile(files, ToolsFiles, host, tail, if files.DevFiles? then 4 else 1);
  }

  lemma NotTheTestBuild(files: Files, host: string, tail: seq<string>)
    requires files in {TestFiles, DevFiles} && IsRow(files, tail)
    ensures !(Prefix(TestBuildFiles, host) <= Prefix(files, host) + tail)
  {
    if files.DevFiles? {
      OtherFile(files, TestBuildFiles, host, tail, 1);
    } else {
      RowsBeginWithACommand(files, tail);
      BuildFilesAreLonger(host, tail);
    }
  }

  lemma NotTheTest(host: string, tail: seq<string>)
    ensures !(Prefix(TestFiles, host) <= Prefix(DevFiles, host) + tail)
  {
    OtherFile(DevFiles, TestFiles, host, tail, 1);
  }

  /** Longest first finds the prefix that a row was put under. */
  lemma ChosenIsItsOwn(files: Files, host: string, tail: seq<string>)
    requires IsRow(files, tail) && !files.LabelOnly?
    ensures Chosen(Prefix(files, host) + tail, host) == Some(files)
  {
    assert Prefix(files, host) <= Prefix(files, host) + tail;
    if !files.ToolsFiles? { NotTheTools(files, host, tail); }
    if files.TestFiles? || files.DevFiles? { NotTheTestBuild(files, host, tail); }
    if files.DevFiles? { NotTheTest(host, tail); }
  }

  lemma FilePrefixBegins(files: Files, host: string, tail: seq<string>)
    requires !files.LabelOnly?
    ensures var words := Prefix(files, host) + tail;
      LABEL_PREFIX <= words && |words| > 4 && words[4] == PROJECT_DIRECTORY
  {
    var words := Prefix(files, host) + tail;
    assert words == LABEL_PREFIX + ([PROJECT_DIRECTORY, host] + Flags(FileNames(files)) + tail);
  }

  /** Every row under its own prefix is accepted, so every builder's words are, with the scan or without. */
  lemma RowsAreAccepted(words: seq<string>, host: Option<string>, files: Files, tail: seq<string>, scan: bool)
    requires IsCommand(words, host, files, tail)
    ensures Checked(words, host, scan)
  {
    RowsAreClean(files, tail);
    RowsBeginWithACommand(files, tail);
    if files.LabelOnly? {
      assert words[4..] == tail;
    } else {
      FilePrefixBegins(files, host.value, tail);
      ChosenIsItsOwn(files, host.value, tail);
      assert words[|Prefix(files, host.value)|..] == tail;
    }
  }

  ghost predicate IsSomeCommand(words: seq<string>, host: Option<string>) {
    exists files, tail :: IsCommand(words, host, files, tail)
  }

  lemma AcceptedFilesAreARow(words: seq<string>, host: string, files: Files)
    requires Prefix(files, host) <= words
    requires TailAllowed(files, words[|Prefix(files, host)|..], false)
    ensures IsSomeCommand(words, Some(host))
  {
    var p := Prefix(files, host);
    assert words == p + words[|p|..];
    assert IsCommand(words, Some(host), files, words[|p|..]);
  }

  lemma AcceptedLabelIsARow(words: seq<string>, host: Option<string>)
    requires LABEL_PREFIX <= words && TailAllowed(LabelOnly, words[4..], false)
    ensures IsSomeCommand(words, host)
  {
    var tail := words[4..];
    assert words == LABEL_PREFIX + tail;
    assert IsCommand(words, host, LabelOnly, tail);
  }

  lemma AcceptedIsARow(words: seq<string>, host: Option<string>)
    requires Checked(words, host, false)
    ensures IsSomeCommand(words, host)
  {
    if |words| > 4 && words[4] == PROJECT_DIRECTORY {
      AcceptedFilesAreARow(words, host.value, Chosen(words, host.value).value);
    } else {
      AcceptedLabelIsARow(words, host);
    }
  }

  /** The check accepts exactly the rows of its tables under their own prefixes, and its scan changes no answer. */
  lemma LifecycleIsItsTable(words: seq<string>, host: Option<string>)
    ensures CheckLifecycle(words, host) <==> IsSomeCommand(words, host)
    ensures CheckLifecycle(words, host) <==> Checked(words, host, false)
  {
    if Checked(words, host, false) { AcceptedIsARow(words, host); }
    if IsSomeCommand(words, host) {
      var files, tail :| IsCommand(words, host, files, tail);
      RowsAreAccepted(words, host, files, tail, true);
      RowsAreAccepted(words, host, files, tail, false);
    }
  }

  /** No words are two commands. */
  lemma CommandIsUnique(words: seq<string>, host: Option<string>, f: Files, t: seq<string>, g: Files, u: seq<string>)
    requires IsCommand(words, host, f, t) && IsCommand(words, host, g, u)
    ensures f == g && t == u
  {
    RowsBeginWithACommand(f, t);
    RowsBeginWithACommand(g, u);
    if !f.LabelOnly? { FilePrefixBegins(f, host.value, t); ChosenIsItsOwn(f, host.value, t); }
    if !g.LabelOnly? { FilePrefixBegins(g, host.value, u); ChosenIsItsOwn(g, host.value, u); }
    var p := if f.LabelOnly? then LABEL_PREFIX else Prefix(f, host.value);
    assert words[|p|..] == t;
    assert words[|p|..] == u;
  }

  // ---- the wrapped commands and the builders

  const SECRET_NAME := "INSTANCE_WRITE_SECRET"
  /** The script of the shell wrapper, which no client command carries. */
  const WRAPPER := SECRET_NAME + "=\"$(sh \"$1\" \"$2\")\" || exit 1\nexport INSTANCE_WRITE_SECRET\nshift 2\nexec \"$@\""
  const SECRET_SCRIPT := TRUSTED + "tools/dev_instance_secret.sh"

  /** The six words before a command whose child derives the secret. */
  function WrapperHead(host: string): seq<string> {
    ["sh", "-c", WRAPPER, "sh", SECRET_SCRIPT, host + "/.env"]
  }

  /** The check of one wrapped command: its head, a lifecycle command, and that command the given one. */
  predicate CheckWrapped(words: seq<string>, host: string, files: Files, tail: seq<string>) {
    && WrapperHead(host) <= words
    && CheckLifecycle(words[6..], Some(host))
    && words[6..] == Prefix(files, host) + tail
  }

  /** It accepts the head and then the one command, and nothing else. */
  lemma WrappedIsExactly(words: seq<string>, host: string, files: Files, tail: seq<string>)
    requires IsRow(files, tail)
    ensures CheckWrapped(words, host, files, tail) <==> words == WrapperHead(host) + (Prefix(files, host) + tail)
  {
    var head, command := WrapperHead(host), Prefix(files, host) + tail;
    CommandIsAccepted(files, tail, host);
    assert |head| == 6;
    HeadThenCommand(words, head, command);
  }

  lemma CommandIsAccepted(files: Files, tail: seq<string>, host: string)
    requires IsRow(files, tail)
    ensures CheckLifecycle(Prefix(files, host) + tail, Some(host))
  {
    RowsAreAccepted(Prefix(files, host) + tail, Some(host), files, tail, true);
  }

  lemma HeadThenCommand(words: seq<string>, head: seq<string>, command: seq<string>)
    ensures head <= words && words[|head|..] == command <==> words == head + command
  {
  }

  /** The wrapped words are no lifecycle command: each check accepts its own form alone. */
  lemma WrappedIsNoLifecycle(host: string, command: seq<string>, other: Option<string>)
    ensures !CheckLifecycle(WrapperHead(host) + command, other)
  {
    assert (WrapperHead(host) + command)[0] == "sh" != DOCKER;
  }

  /** The commands that are built wrapped: up, tools and the dev migration. */
  predicate IsWrapped(files: Files, tail: seq<string>) {
    (files.DevFiles? && (tail == DEV_UP_TAIL || tail == MIGRATE_TAIL)) || files.ToolsFiles?
  }

  /** The words that a builder makes of a command. */
  function Built(files: Files, tail: seq<string>, host: string): seq<string> {
    (if IsWrapped(files, tail) then WrapperHead(host) else []) + (Prefix(files, host) + tail)
  }

  /** The check that the builder makes of them. */
  predicate BuilderChecks(files: Files, tail: seq<string>, host: string) {
    var words := Built(files, tail, host);
    if IsWrapped(files, tail) then CheckWrapped(words, host, files, tail)
    else CheckLifecycle(words, if files.LabelOnly? then None else Some(host))
  }

  lemma RowsPassTheirBuilder(files: Files, tail: seq<string>, host: string)
    requires IsRow(files, tail)
    ensures BuilderChecks(files, tail, host)
  {
    var words := Built(files, tail, host);
    if IsWrapped(files, tail) {
      WrappedIsExactly(words, host, files, tail);
    } else {
      assert words == Prefix(files, host) + tail;
      RowsAreAccepted(words, if files.LabelOnly? then None else Some(host), files, tail, true);
    }
  }

  /**
   Every lifecycle command that the law lets a call issue passes its builder's check, so no builder refuses after the
   charge.
   */
  lemma LawfulCommandsPass(verb: VerbLaw.Verb, expected: string, t: VerbLaw.Trace, files: Files, tail: seq<string>, host: string)
    requires VerbLaw.MayCompose(verb, expected, t, files, tail) && !files.ClientFiles?
    ensures BuilderChecks(files, tail, host)
  {
    LawfulCommandsAreRows(verb, expected, t, files, tail);
    RowsPassTheirBuilder(files, tail, host);
  }

  lemma LawfulCommandsAreRows(verb: VerbLaw.Verb, expected: string, t: VerbLaw.Trace, files: Files, tail: seq<string>)
    requires VerbLaw.MayCompose(verb, expected, t, files, tail) && !files.ClientFiles?
    ensures IsRow(files, tail)
  {
  }

  // ---- the client commands

  const SYSTEM := "tests/system"
  const MAX_TEST_PATHS := 50

  /** The snapshot of the stack directory, the root env file, and the trusted client files. */
  function ClientPrefix(stackDir: string, host: string): seq<string> {
    LABEL_PREFIX + [PROJECT_DIRECTORY, stackDir + "/source", "--env-file", host + "/.env"] + Flags(FileNames(ClientFiles))
  }

  lemma ClientPrefixIsWrapperFree(stackDir: string, host: string)
    ensures WrapperFree(ClientPrefix(stackDir, host))
  {
    var prefix := ClientPrefix(stackDir, host);
    FlagsAreNoWrapper(FileNames(ClientFiles));
    EndsInALetter(stackDir, "/source");
    EndsInALetter(host, "/.env");
    LabelWordsAreNoWrapper();
    forall i | 0 <= i < |prefix| ensures NoWrapperWord(prefix[i]) {
      if i >= 8 { assert prefix[i] == Flags(FileNames(ClientFiles))[i - 8]; }
    }
  }

  lemma LabelWordsAreNoWrapper()
    ensures forall i :: 0 <= i < |LABEL_PREFIX| ==> NoWrapperWord(LABEL_PREFIX[i])
    ensures NoWrapperWord(PROJECT_DIRECTORY) && NoWrapperWord("--env-file")
  {
    assert |WRAPPER| > |SECRET_NAME| == 21;
  }

  lemma EndsInALetter(a: string, b: string)
    requires |b| > 2 && b[|b| - 1] != '"'
    ensures NoWrapperWord(a + b)
  {
    assert (a + b)[|a + b| - 1] == b[|b| - 1];
    assert WRAPPER[|WRAPPER| - 1] == '"';
  }

  /** Trusted paths are no word of the wrapper. */
  lemma TrustedPath(name: string)
    ensures NoWrapperWord(TRUSTED + name)
  {
    assert |TRUSTED| > 2 && (TRUSTED + name)[0] == TRUSTED[0] == '/';
    assert WRAPPER[0] == SECRET_NAME[0] == 'I';
  }

  predicate NoWrapperWord(w: string) {
    w != "sh" && w != "-c" && w != WRAPPER
  }

  lemma DashFIsNoWrapperWord()
    ensures NoWrapperWord("-f")
  {
    assert |WRAPPER| > |SECRET_NAME| == 21;
  }

  lemma {:induction false} FlagsAreNoWrapper(names: seq<string>)
    ensures forall i :: 0 <= i < |Flags(names)| ==> NoWrapperWord(Flags(names)[i])
  {
    if names != [] {
      FlagsAreNoWrapper(names[..|names| - 1]);
      TrustedPath(names[|names| - 1]);
      DashFIsNoWrapperWord();
    }
  }

  /** posix normpath of a relative path. */
  function NormPath(path: string): string {
    var kept := ProxyPath.Resolve(SplitOn(path, '/'), true);
    if kept == [] then "." else ProxyPath.JoinSlash(kept)
  }

  predicate SuitePath(path: string) {
    && path != "" && '\0' !in path && path[0] != '-' && path[0] != '/'
    && NormPath(path) == path
    && (path == SYSTEM || SYSTEM + "/" <= path)
  }

  predicate WrapperFree(words: seq<string>) {
    "sh" !in words && "-c" !in words && WRAPPER !in words
  }

  predicate SeedDate(d: string, isDate: string -> bool) {
    && |d| == 10 && d[4] == '-' && d[7] == '-' && (forall i :: 0 <= i < 10 && i != 4 && i != 7 ==> '0' <= d[i] <= '9')
    && isDate(d)
  }

  predicate AreDigits(t: string, n: nat) {
    |t| == n && forall i :: 0 <= i < n ==> '0' <= t[i] <= '9'
  }

  predicate IsDay(d: string, year: string, month: string, day: string) {
    d == year + "-" + month + "-" + day && AreDigits(year, 4) && AreDigits(month, 2) && AreDigits(day, 2)
  }

  /** A producer's date is four digits, two and two with dashes between them, and a date. */
  lemma SeedDateExactly(d: string, isDate: string -> bool)
    ensures SeedDate(d, isDate) <==> isDate(d) && exists year, month, day :: IsDay(d, year, month, day)
  {
    if SeedDate(d, isDate) {
      assert d == d[..4] + [d[4]] + d[5..7] + [d[7]] + d[8..];
      assert IsDay(d, d[..4], d[5..7], d[8..]);
    }
    if exists year, month, day :: IsDay(d, year, month, day) {
      var year, month, day :| IsDay(d, year, month, day);
      assert d[..4] == year && d[5..7] == month && d[8..] == day;
      forall i | 0 <= i < 10 && i != 4 && i != 7 ensures '0' <= d[i] <= '9' {
        if i < 4 { assert d[i] == year[i]; } else if i < 7 { assert d[i] == month[i - 5]; } else { assert d[i] == day[i - 8]; }
      }
    }
  }

  /** A tail of the client: its build, the system tests at some paths, the producer with a date or without. */
  predicate ClientTail(tail: seq<string>, isDate: string -> bool) {
    if tail == CLIENT_BUILD_TAIL || tail == SEED_RUN then true
    else if SYSTEM_TESTS_HEAD <= tail then
      var paths := tail[|SYSTEM_TESTS_HEAD|..];
      0 < |paths| <= MAX_TEST_PATHS && forall i :: 0 <= i < |paths| ==> SuitePath(paths[i])
    else SEED_RUN <= tail && |tail| == |SEED_RUN| + 2 && tail[|SEED_RUN|] == "--date" && SeedDate(tail[|SEED_RUN| + 1], isDate)
  }

  /** The check, with its two scans or without. */
  predicate ClientChecked(words: seq<string>, stackDir: string, host: string, isDate: string -> bool, scan: bool) {
    var prefix := ClientPrefix(stackDir, host);
    && (scan ==> WrapperFree(words))
    && prefix <= words
    && (scan ==> Clean(words[|prefix|..]))
    && ClientTail(words[|prefix|..], isDate)
  }

  /** Nothing that cleaning would take, and double dots only in front. */
  predicate Settled(kept: seq<string>) {
    && (forall i :: 0 <= i < |kept| ==> kept[i] != "" && kept[i] != "." && '/' !in kept[i])
    && (forall i :: 0 <= i < |kept| && kept[i] == ".." ==> kept[0] == "..")
  }

  lemma {:induction false} ResolvedIsSettled(segments: seq<string>)
    requires forall i :: 0 <= i < |segments| ==> '/' !in segments[i]
    ensures Settled(ProxyPath.Resolve(segments, true))
  {
    if segments != [] {
      ResolvedIsSettled(segments[..|segments| - 1]);
    }
  }

  lemma {:induction false} SplitOfJoin(segments: seq<string>)
    requires segments != [] && forall i :: 0 <= i < |segments| ==> '/' !in segments[i]
    ensures SplitOn(ProxyPath.JoinSlash(segments), '/') == segments
  {
    if |segments| > 1 {
      SplitOfJoin(segments[1..]);
      SplitOnCons(segments[0], '/', ProxyPath.JoinSlash(segments[1..]));
    } else {
      SplitOnCons(segments[0], '/', "");
    }
  }

  lemma {:induction false} ResolveKeepsPlain(segments: seq<string>)
    requires forall i :: 0 <= i < |segments| ==> segments[i] !in {"", ".", ".."}
    ensures ProxyPath.Resolve(segments, true) == segments
  {
    if segments != [] { ResolveKeepsPlain(segments[..|segments| - 1]); }
  }

  predicate PlainNames(segments: seq<string>) {
    forall i :: 0 <= i < |segments| ==> segments[i] !in {"", ".", ".."}
  }

  /** Plain names under tests/system. */
  predicate UnderSystem(segments: seq<string>) {
    PlainNames(segments) && |segments| >= 2 && segments[0] == "tests" && segments[1] == "system"
  }

  lemma Rest(path: string, head: string)
    requires head <= path
    ensures path == head + path[|head|..]
  {
  }

  lemma SystemSpelled(rest: string)
    ensures SYSTEM + "/" + rest == "tests" + "/" + ("system" + "/" + rest)
  {
    assert SYSTEM == "tests" + "/" + "system";
  }

  lemma SystemSplits(path: string)
    requires path == SYSTEM || SYSTEM + "/" <= path
    ensures var segments := SplitOn(path, '/');
      |segments| >= 2 && segments[0] == "tests" && segments[1] == "system"
  {
    if path == SYSTEM {
      assert path == "tests" + "/" + "system";
      SplitOnCons("tests", '/', "system");
      SplitOnCons("system", '/', "");
    } else {
      var rest := path[|SYSTEM + "/"|..];
      Rest(path, SYSTEM + "/");
      SystemSpelled(rest);
      SplitOnCons("tests", '/', "system" + "/" + rest);
      SplitOnCons("system", '/', rest);
    }
  }

  lemma SystemJoins(segments: seq<string>)
    requires |segments| >= 2 && segments[0] == "tests" && segments[1] == "system"
    ensures var path := ProxyPath.JoinSlash(segments);
      path == SYSTEM || SYSTEM + "/" <= path
  {
    var rest := segments[1..];
    assert segments == ["tests"] + rest;
    ProxyPath.JoinSlashCons("tests", rest);
    if |segments| > 2 {
      DeeperJoins(rest);
    } else {
      assert SYSTEM == "tests" + "/" + "system";
    }
  }

  lemma DeeperJoins(rest: seq<string>)
    requires |rest| > 1 && rest[0] == "system"
    ensures SYSTEM + "/" <= "tests" + "/" + ProxyPath.JoinSlash(rest)
  {
    assert rest == ["system"] + rest[1..];
    ProxyPath.JoinSlashCons("system", rest[1..]);
    SystemSpelled(ProxyPath.JoinSlash(rest[1..]));
  }

  lemma BeginsUnderSystem(path: string)
    ensures var segments := SplitOn(path, '/');
      path == SYSTEM || SYSTEM + "/" <= path <==> |segments| >= 2 && segments[0] == "tests" && segments[1] == "system"
  {
    var segments := SplitOn(path, '/');
    if path == SYSTEM || SYSTEM + "/" <= path { SystemSplits(path); }
    if |segments| >= 2 && segments[0] == "tests" && segments[1] == "system" {
      ProxyPath.SplitJoinsSlash(path);
      SystemJoins(segments);
    }
  }

  lemma SettledIsPlain(kept: seq<string>)
    requires Settled(kept) && kept != [] && |kept[0]| != 2
    ensures PlainNames(kept)
  {
    forall i | 0 <= i < |kept| ensures kept[i] !in {"", ".", ".."} {
      assert |".."| == 2;
    }
  }

  lemma SettledSplits(kept: seq<string>)
    requires Settled(kept) && kept != []
    ensures SplitOn(ProxyPath.JoinSlash(kept), '/') == kept
  {
    SplitOfJoin(kept);
  }

  /** A path that normalises to itself and begins with a name that no double dot is, holds plain names only. */
  lemma NormalIsPlain(path: string)
    requires NormPath(path) == path && |path| > 1 && |SplitOn(path, '/')[0]| != 2
    ensures PlainNames(SplitOn(path, '/'))
  {
    var kept := ProxyPath.Resolve(SplitOn(path, '/'), true);
    ResolvedIsSettled(SplitOn(path, '/'));
    SettledSplits(kept);
    SettledIsPlain(kept);
  }

  lemma PlainIsNormal(path: string)
    requires PlainNames(SplitOn(path, '/'))
    ensures NormPath(path) == path
  {
    ResolveKeepsPlain(SplitOn(path, '/'));
    ProxyPath.SplitJoinsSlash(path);
  }

  lemma SuiteNormal(path: string)
    requires path == SYSTEM || SYSTEM + "/" <= path
    ensures NormPath(path) == path <==> UnderSystem(SplitOn(path, '/'))
  {
    BeginsUnderSystem(path);
    BeginsWithT(path);
    var segments := SplitOn(path, '/');
    assert |segments[0]| == 5;
    if NormPath(path) == path { NormalIsPlain(path); }
    if PlainNames(segments) { PlainIsNormal(path); }
  }

  /** The paths that are accepted: plain names all the way, the first two tests and system. */
  lemma SuitePathIsUnderSystem(path: string)
    ensures SuitePath(path) <==> '\0' !in path && UnderSystem(SplitOn(path, '/'))
  {
    BeginsUnderSystem(path);
    if path == SYSTEM || SYSTEM + "/" <= path {
      BeginsWithT(path);
      SuiteNormal(path);
    }
  }

  /** Words of a client's tail: in no option's place, and none of a shell wrapper's. */
  predicate ClientWord(w: string) {
    Simple(w) && w != "sh" && w != "-c" && w != WRAPPER
  }

  lemma BeginsWithT(path: string)
    requires path == SYSTEM || SYSTEM + "/" <= path
    ensures |path| >= 12 && path[0] == 't'
  {
    assert (SYSTEM + "/")[0] == 't';
  }

  lemma LongWordWithT(w: string)
    requires |w| >= 12 && w[0] == 't'
    ensures ClientWord(w)
  {
    assert WRAPPER[0] == SECRET_NAME[0] == 'I';
  }

  lemma SuiteWord(path: string)
    requires path == SYSTEM || SYSTEM + "/" <= path
    ensures ClientWord(path)
  {
    BeginsWithT(path);
    LongWordWithT(path);
  }

  lemma FixedWords(tail: seq<string>)
    requires tail == CLIENT_BUILD_TAIL || tail == SEED_RUN || tail == SYSTEM_TESTS_HEAD
    ensures forall i :: 0 <= i < |tail| ==> ClientWord(tail[i])
  {
  }

  lemma WordsAppended(head: seq<string>, rest: seq<string>)
    requires forall i :: 0 <= i < |head| ==> ClientWord(head[i])
    requires forall i :: 0 <= i < |rest| ==> ClientWord(rest[i])
    ensures forall i :: 0 <= i < |head + rest| ==> ClientWord((head + rest)[i])
  {
  }

  lemma SuiteWords(paths: seq<string>)
    requires forall i :: 0 <= i < |paths| ==> SuitePath(paths[i])
    ensures forall i :: 0 <= i < |paths| ==> ClientWord(paths[i])
  {
    forall i | 0 <= i < |paths| ensures ClientWord(paths[i]) { SuiteWord(paths[i]); }
  }

  lemma ClientWords(tail: seq<string>, isDate: string -> bool)
    requires ClientTail(tail, isDate)
    ensures forall i :: 0 <= i < |tail| ==> ClientWord(tail[i])
  {
    if tail == CLIENT_BUILD_TAIL || tail == SEED_RUN {
      FixedWords(tail);
    } else if SYSTEM_TESTS_HEAD <= tail {
      TestsTail(tail, |SYSTEM_TESTS_HEAD|);
    } else {
      DatedTail(tail, |SEED_RUN|, isDate);
    }
  }

  lemma TestsTail(tail: seq<string>, h: nat)
    requires h <= |tail| && tail[..h] == SYSTEM_TESTS_HEAD && forall i :: 0 <= i < |tail| - h ==> SuitePath(tail[h..][i])
    ensures forall i :: 0 <= i < |tail| ==> ClientWord(tail[i])
  {
    FixedWords(tail[..h]);
    SuiteWords(tail[h..]);
    WordsAppended(tail[..h], tail[h..]);
    assert tail == tail[..h] + tail[h..];
  }

  lemma DatedTail(tail: seq<string>, h: nat, isDate: string -> bool)
    requires |tail| == h + 2 && tail[..h] == SEED_RUN && tail[h] == "--date" && SeedDate(tail[h + 1], isDate)
    ensures forall i :: 0 <= i < |tail| ==> ClientWord(tail[i])
  {
    FixedWords(tail[..h]);
    DateWord(tail[h + 1], isDate);
    DateOption();
    WordsAppended(tail[..h], [tail[h], tail[h + 1]]);
    assert tail == tail[..h] + [tail[h], tail[h + 1]];
  }

  lemma DateOption()
    ensures ClientWord("--date")
  {
    assert |SECRET_NAME| == 21;
  }

  lemma DateWord(d: string, isDate: string -> bool)
    requires SeedDate(d, isDate)
    ensures ClientWord(d)
  {
    assert |SECRET_NAME| == 21;
  }

  lemma ClientWordsPassScans(tail: seq<string>)
    requires forall i :: 0 <= i < |tail| ==> ClientWord(tail[i])
    ensures Clean(tail) && WrapperFree(tail)
  {
    forall i | 0 <= i < |tail| ensures !IsForbidden(tail[i]) { SimpleIsAllowed(tail[i]); }
  }

  lemma WrapperFreeParts(prefix: seq<string>, tail: seq<string>)
    ensures WrapperFree(prefix + tail) <==> WrapperFree(prefix) && WrapperFree(tail)
  {
  }

  /** Neither scan of the client's check changes an answer. */
  lemma ClientScansAreIdle(words: seq<string>, stackDir: string, host: string, isDate: string -> bool)
    ensures ClientChecked(words, stackDir, host, isDate, true) <==> ClientChecked(words, stackDir, host, isDate, false)
  {
    var prefix := ClientPrefix(stackDir, host);
    ClientPrefixIsWrapperFree(stackDir, host);
    if prefix <= words {
      var tail := words[|prefix|..];
      assert words == prefix + tail;
      WrapperFreeParts(prefix, tail);
      if ClientTail(tail, isDate) {
        ClientWords(tail, isDate);
        ClientWordsPassScans(tail);
      }
    }
  }

  /** The check accepts exactly its prefix and then a tail of the client. */
  lemma ClientIsItsTails(words: seq<string>, stackDir: string, host: string, isDate: string -> bool)
    ensures ClientChecked(words, stackDir, host, isDate, true) <==>
      exists tail :: ClientTail(tail, isDate) && words == ClientPrefix(stackDir, host) + tail
  {
    var prefix := ClientPrefix(stackDir, host);
    ClientScansAreIdle(words, stackDir, host, isDate);
    if prefix <= words {
      assert words == prefix + words[|prefix|..];
    }
    forall tail | ClientTail(tail, isDate) && words == prefix + tail ensures words[|prefix|..] == tail {
    }
  }

  /** The builders of the client: its build, the tests at one to fifty accepted paths, the producer with a date or none. */
  lemma ClientBuildersPass(stackDir: string, host: string, isDate: string -> bool, paths: seq<string>, date: string)
    ensures ClientAccepts(stackDir, host, isDate, CLIENT_BUILD_TAIL) && ClientAccepts(stackDir, host, isDate, SEED_RUN)
    ensures 0 < |paths| <= MAX_TEST_PATHS && (forall i :: 0 <= i < |paths| ==> SuitePath(paths[i])) ==>
      ClientAccepts(stackDir, host, isDate, SYSTEM_TESTS_HEAD + paths)
    ensures SeedDate(date, isDate) ==> ClientAccepts(stackDir, host, isDate, SEED_RUN + ["--date", date])
  {
    ClientTailPasses(stackDir, host, isDate, CLIENT_BUILD_TAIL);
    ClientTailPasses(stackDir, host, isDate, SEED_RUN);
    if 0 < |paths| <= MAX_TEST_PATHS && forall i :: 0 <= i < |paths| ==> SuitePath(paths[i]) {
      TestsAreATail(paths, isDate);
      ClientTailPasses(stackDir, host, isDate, SYSTEM_TESTS_HEAD + paths);
    }
    if SeedDate(date, isDate) {
      DatedRunIsATail(date, isDate);
      ClientTailPasses(stackDir, host, isDate, SEED_RUN + ["--date", date]);
    }
  }

  predicate ClientAccepts(stackDir: string, host: string, isDate: string -> bool, tail: seq<string>) {
    ClientChecked(ClientPrefix(stackDir, host) + tail, stackDir, host, isDate, true)
  }

  lemma ClientTailPasses(stackDir: string, host: string, isDate: string -> bool, tail: seq<string>)
    requires ClientTail(tail, isDate)
    ensures ClientAccepts(stackDir, host, isDate, tail)
  {
    ClientIsItsTails(ClientPrefix(stackDir, host) + tail, stackDir, host, isDate);
  }

  lemma TestsAreATail(paths: seq<string>, isDate: string -> bool)
    requires 0 < |paths| <= MAX_TEST_PATHS && forall i :: 0 <= i < |paths| ==> SuitePath(paths[i])
    ensures ClientTail(SYSTEM_TESTS_HEAD + paths, isDate)
  {
    assert (SYSTEM_TESTS_HEAD + paths)[|SYSTEM_TESTS_HEAD|..] == paths;
  }

  lemma DatedRunIsATail(date: string, isDate: string -> bool)
    requires SeedDate(date, isDate)
    ensures ClientTail(SEED_RUN + ["--date", date], isDate)
  {
    var tail := SEED_RUN + ["--date", date];
    assert tail[2] == "-T" && SYSTEM_TESTS_HEAD[2] == "--no-deps";
    assert tail[|SEED_RUN|] == "--date" && tail[|SEED_RUN| + 1] == date;
  }

  // ---- the exec commands

  /** A row of the exec table: a script under sh -c, and the options it runs with. */
  datatype ExecRow = ExecRow(script: string, options: seq<string>)

  function ExecTail(row: ExecRow): seq<string> { ["sh", "-c", row.script] }

  function ExecHead(row: ExecRow): seq<string> { [DOCKER, "exec"] + row.options }

  predicate ExecMatches(row: ExecRow, words: seq<string>) {
    var head := ExecHead(row);
    head <= words && |words| == |head| + 4 && words[|head| + 1..] == ExecTail(row)
  }

  /** The scan of the table: the first row that matches decides, by the id alone. */
  predicate CheckExec(rows: seq<ExecRow>, words: seq<string>) {
    rows != [] &&
    if ExecMatches(rows[0], words) then IsContainerId(words[|ExecHead(rows[0])|]) else CheckExec(rows[1..], words)
  }

  ghost predicate IsExec(rows: seq<ExecRow>, words: seq<string>) {
    exists row, id :: row in rows && IsContainerId(id) && words == ExecHead(row) + [id] + ExecTail(row)
  }

  /** The table is keyed by its tails. */
  predicate Keyed(rows: seq<ExecRow>) {
    forall r, s :: r in rows && s in rows && r.script == s.script ==> r == s
  }

  lemma MatchedWords(row: ExecRow, words: seq<string>)
    ensures ExecMatches(row, words) ==> words == ExecHead(row) + [words[|ExecHead(row)|]] + ExecTail(row)
    ensures ExecMatches(row, words) ==> words[|words| - 1] == row.script
  {
    if ExecMatches(row, words) {
      var h := |ExecHead(row)|;
      assert words == words[..h] + [words[h]] + words[h + 1..];
      assert words[h + 1..][2] == row.script;
    }
  }

  /** The scan accepts exactly the table's commands on a container id, so the order of its rows does not matter. */
  lemma {:induction false} ExecIsItsTable(rows: seq<ExecRow>, words: seq<string>)
    requires Keyed(rows)
    ensures CheckExec(rows, words) <==> IsExec(rows, words)
  {
    if rows != [] {
      ExecIsItsTable(rows[1..], words);
      MatchedWords(rows[0], words);
      if ExecMatches(rows[0], words) {
        ExecDecided(rows, words);
      } else if IsExec(rows, words) {
        var row, id :| row in rows && IsContainerId(id) && words == ExecHead(row) + [id] + ExecTail(row);
        BuiltMatches(row, id);
        assert row in rows[1..];
      }
    }
  }

  lemma BuiltMatches(row: ExecRow, id: string)
    ensures var words := ExecHead(row) + [id] + ExecTail(row);
      ExecMatches(row, words) && words[|ExecHead(row)|] == id
  {
  }

  lemma ExecDecided(rows: seq<ExecRow>, words: seq<string>)
    requires Keyed(rows) && rows != [] && ExecMatches(rows[0], words)
    ensures IsExec(rows, words) <==> IsContainerId(words[|ExecHead(rows[0])|])
  {
    MatchedWords(rows[0], words);
    if IsExec(rows, words) {
      var row, id :| row in rows && IsContainerId(id) && words == ExecHead(row) + [id] + ExecTail(row);
      BuiltMatches(row, id);
      MatchedWords(row, words);
      assert row == rows[0];
    }
  }

  /** The builder of an exec command: every row of the table on every container id. */
  lemma ExecBuilderPasses(rows: seq<ExecRow>, row: ExecRow, id: string)
    requires Keyed(rows) && row in rows && IsContainerId(id)
    ensures CheckExec(rows, ExecHead(row) + [id] + ExecTail(row))
  {
    ExecIsItsTable(rows, ExecHead(row) + [id] + ExecTail(row));
  }
}
