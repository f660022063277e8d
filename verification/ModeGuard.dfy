/** Which mode a compose project is in, told from the labels of its containers (tools/agent_mcp/stack.py). */
module ModeGuard {
  import opened Options
  import opened Text

  const OVERRIDE_FILE := "docker-compose.override.yaml"
  const FAKE_FILE := "docker-compose.fake.yaml"

  datatype Mode = DEV | TEST | PROD

  datatype Verdict = Known(mode: Mode) | UNKNOWN

  /** A command's exit status (None when it was killed), its output, and whether the output is UTF-8. */
  datatype Exit = Exit(status: Option<int>, stdout: string, utf8: bool)

  datatype Guard = Accepted(mode: Option<Mode>) | Refused

  /** The name after the last slash. */
  function BaseName(path: string): string
    decreases |path|
  {
    var k := FirstOf(path, '/');
    if k == |path| then path else BaseName(path[k + 1..])
  }

  function BaseNames(entries: seq<string>): set<string> {
    set e | e in entries :: BaseName(e)
  }

  function ClassifyConfigFiles(files: string): Verdict {
    if files == "" || '\n' in files then UNKNOWN
    else
      var entries := SplitOn(files, ',');
      if exists e :: e in entries && (e == "" || e[0] != '/') then UNKNOWN
      else
        var names := BaseNames(entries);
        var dev, test := OVERRIDE_FILE in names, FAKE_FILE in names;
        if dev && test then UNKNOWN
        else if dev then Known(DEV)
        else if test then Known(TEST)
        else Known(PROD)
  }

  function ClassifyMode(files: string): Mode {
    match ClassifyConfigFiles(files)
    case Known(m) => m
    case UNKNOWN => PROD
  }

  function ModesOf(lines: seq<string>): set<Mode> {
    set l | l in lines :: ClassifyMode(l)
  }

  function CheckModeGuard(exit: Exit, accepted: set<Option<Mode>>): Guard {
    if exit.status != Some(0) then Refused
    else if exit.stdout == "" then
      if None in accepted then Accepted(None) else Refused
    else if !exit.utf8 || exit.stdout[|exit.stdout| - 1] != '\n' then Refused
    else
      var lines := SplitOn(exit.stdout[..|exit.stdout| - 1], '\n');
      var modes := ModesOf(lines);
      if PROD in modes || |modes| > 1 then Refused
      else
        var mode := Some(ClassifyMode(lines[0]));
        if mode in accepted then Accepted(mode) else Refused
  }

  // ---- what the classification means

  predicate EndsWith(t: string, suffix: string) {
    |suffix| <= |t| && t[|t| - |suffix|..] == suffix
  }

  /** An absolute path names a file exactly when it ends with a slash and that name. */
  lemma {:induction false} BaseNameIsTheEnd(path: string, name: string)
    requires '/' !in name
    ensures (path == name || EndsWith(path, "/" + name)) <==> BaseName(path) == name
    decreases |path|
  {
    var k := FirstOf(path, '/');
    if k < |path| {
      BaseNameIsTheEnd(path[k + 1..], name);
      EndsAfterSlash(path, name, k);
    } else if EndsWith(path, "/" + name) {
      EndsInSlashName(path, name);
    }
  }

  /** What follows a first slash ends as the whole does. */
  lemma EndsAfterSlash(path: string, name: string, k: nat)
    requires '/' !in name && k < |path| && path[k] == '/' && '/' !in path[..k]
    ensures path != name
    ensures EndsWith(path, "/" + name) <==> path[k + 1..] == name || EndsWith(path[k + 1..], "/" + name)
  {
    var rest, n := path[k + 1..], "/" + name;
    assert path[k] in path;
    if |n| <= |path| {
      var at := |path| - |n|;
      assert path[at..][0] == path[at];
      if at < k {
        assert path[at] == path[..k][at];
      } else if at == k {
        assert path[at..] == "/" + rest;
        assert n[1..] == name;
      } else {
        assert rest[|rest| - |n|..] == path[at..];
      }
    }
  }

  lemma EndsInSlashName(path: string, name: string)
    requires EndsWith(path, "/" + name)
    ensures '/' in path
  {
    assert path[|path| - |name| - 1..][0] == '/';
  }

  /** The label lists absolute paths only, and none that holds a newline. */
  ghost predicate WellFormed(files: string) {
    files != "" && '\n' !in files && forall e :: e in SplitOn(files, ',') ==> e != "" && e[0] == '/'
  }

  ghost predicate Lists(files: string, file: string) {
    exists e :: e in SplitOn(files, ',') && EndsWith(e, "/" + file)
  }

  /** DEV lists the override and not the fake file, TEST the reverse; every other label is PROD. */
  lemma ModeOfLabel(files: string)
    ensures ClassifyMode(files) == DEV <==> WellFormed(files) && Lists(files, OVERRIDE_FILE) && !Lists(files, FAKE_FILE)
    ensures ClassifyMode(files) == TEST <==> WellFormed(files) && Lists(files, FAKE_FILE) && !Lists(files, OVERRIDE_FILE)
  {
    if WellFormed(files) {
      var entries := SplitOn(files, ',');
      NamesAreEnds(entries, OVERRIDE_FILE);
      NamesAreEnds(entries, FAKE_FILE);
    }
  }

  lemma NamesAreEnds(entries: seq<string>, name: string)
    requires '/' !in name && forall e :: e in entries ==> e != "" && e[0] == '/'
    ensures name in BaseNames(entries) <==> exists e :: e in entries && EndsWith(e, "/" + name)
  {
    forall e | e in entries ensures EndsWith(e, "/" + name) <==> BaseName(e) == name {
      BaseNameIsTheEnd(e, name);
    }
  }

  // ---- the guard over a whole project

  /** What `docker ps` prints: one label a line. */
  function PrintLabels(labels: seq<string>): string {
    if labels == [] then "" else labels[0] + "\n" + PrintLabels(labels[1..])
  }

  lemma {:induction false} PrintedLabelsSplit(labels: seq<string>)
    requires labels != [] && forall l :: l in labels ==> '\n' !in l
    ensures var out := PrintLabels(labels);
            out != "" && out[|out| - 1] == '\n' && SplitOn(out[..|out| - 1], '\n') == labels
  {
    var out, rest := PrintLabels(labels), PrintLabels(labels[1..]);
    var head := labels[0];
    assert head in labels;
    if |labels| == 1 {
      assert out[..|out| - 1] == head;
      SplitOnCons(head, '\n', "");
    } else {
      PrintedLabelsSplit(labels[1..]);
      assert out[..|out| - 1] == head + ['\n'] + rest[..|rest| - 1];
      SplitOnCons(head, '\n', rest[..|rest| - 1]);
    }
  }

  /**
   The guard lets a project through exactly when every one of its containers is in the same DEV or TEST mode that the
   verb acts on, or when it holds none and the verb acts on an empty project.
   */
  lemma GuardSeesEveryContainer(labels: seq<string>, accepted: set<Option<Mode>>, m: Option<Mode>)
    requires forall l :: l in labels ==> '\n' !in l
    ensures CheckModeGuard(Exit(Some(0), PrintLabels(labels), true), accepted) == Accepted(m) <==>
            && m in accepted
            && (m == None <==> labels == [])
            && (m.Some? ==> m.value != PROD && forall l :: l in labels ==> ClassifyMode(l) == m.value)
  {
    if labels != [] {
      PrintedLabelsSplit(labels);
      OneModeMeansSame(labels);
    }
  }

  lemma OneModeMeansSame(lines: seq<string>)
    requires lines != []
    ensures |ModesOf(lines)| <= 1 <==> forall l :: l in lines ==> ClassifyMode(l) == ClassifyMode(lines[0])
  {
    var modes, first := ModesOf(lines), ClassifyMode(lines[0]);
    assert lines[0] in lines && first in modes;
    if |modes| <= 1 {
      forall l | l in lines ensures ClassifyMode(l) == first {
        OnlyOne(modes, ClassifyMode(l), first);
      }
    } else {
      assert |modes - {first}| == |modes| - 1;
      var other :| other in modes - {first};
    }
  }

  lemma OnlyOne<T>(s: set<T>, a: T, b: T)
    requires a in s && b in s
    ensures a == b || |s| >= 2
  {
    if a != b {
      assert b in s - {a};
      assert |s - {a}| == |s| - 1;
    }
  }

  /** One container of a prod launch refuses every verb, whatever the others are. */
  lemma {:induction false} OneProdContainerRefuses(labels: seq<string>, accepted: set<Option<Mode>>, l: string)
    requires l in labels && ClassifyMode(l) == PROD && forall x :: x in labels ==> '\n' !in x
    ensures CheckModeGuard(Exit(Some(0), PrintLabels(labels), true), accepted) == Refused
  {
    var g := CheckModeGuard(Exit(Some(0), PrintLabels(labels), true), accepted);
    if g.Accepted? {
      GuardSeesEveryContainer(labels, accepted, g.mode);
      assert false;
    }
  }

  /** Anything but a clean answer refuses. */
  lemma UnreadableRefuses(exit: Exit, accepted: set<Option<Mode>>)
    requires exit.status != Some(0) || (exit.stdout != "" && (!exit.utf8 || exit.stdout[|exit.stdout| - 1] != '\n'))
    ensures CheckModeGuard(exit, accepted) == Refused
  {
  }
}
