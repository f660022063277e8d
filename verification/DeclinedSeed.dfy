/** A seed dump whose producer refuses: the reply is a refusal, and the call has been charged. */
module DeclinedSeed {
  import opened Options
  import opened Text
  import opened ModeGuard
  import opened Commands
  import opened VerbLaw
  import opened Runner
  import opened Verbs
  import Budget

  const LABEL := "/" + FAKE_FILE
  const ID := Letters(12)
  const DIGEST := Letters(64)
  const MOUNT := "/volume_data/test"

  function Letters(n: nat): (t: string)
    ensures |t| == n && forall i :: 0 <= i < n ==> t[i] == 'a'
  {
    if n == 0 then "" else ['a'] + Letters(n - 1)
  }

  function Zero(stdout: string): Exit { Exit(Some(0), stdout, true) }

  /** One test container of each service, current stamps, and a producer that exits with 3. */
  function Answered(a: Action): Exit {
    match a
    case GuardList => Zero(LABEL + "\n")
    case Lookup(_) => Zero(ID)
    case Digest(_) => Zero(DIGEST + "\n")
    case ContainerStamp(_) => Zero(DIGEST)
    case MountRead(_) => Zero(MOUNT)
    case Compose(_, tail) => Exit(Some(if SEED_RUN <= tail then 3 else 0), "", true)
    case _ => Zero("")
  }

  function AnswerOf(t: Trace, step: Step): Answer { Exited(Answered(step.action)) }

  function VerdictOf(t: Trace, c: Check): Runner.Verdict { Pass }

  function ClockOf(t: Trace): int { 0 }

  const TEST_WORLD := World(AnswerOf, VerdictOf, ClockOf, MOUNT)

  lemma {:induction false} NoBreakInside(t: string)
    requires forall i :: 0 <= i < |t| ==> !IsLineBreak(t[i])
    ensures FirstBreak(t) == |t|
  {
    if t != "" { NoBreakInside(t[1..]); }
  }

  /** A text of letters is one line, already stripped. */
  lemma LettersAreOneLine(n: nat, t: string)
    requires n > 0 && t == Letters(n)
    ensures NonBlankLines(t) == [t] && Strip(t) == t
  {
    NoBreakInside(t);
    assert t[..|t|] == t;
  }

  lemma FakeLabelIsTest()
    ensures CheckModeGuard(Zero(LABEL + "\n"), MODES_TEST) == Accepted(Some(TEST))
  {
    LabelIsTest();
    assert PrintLabels([LABEL]) == LABEL + "\n" by {
      assert [LABEL][1..] == [];
    }
    GuardSeesEveryContainer([LABEL], MODES_TEST, Some(TEST));
  }

  lemma LabelIsTest()
    ensures ClassifyMode(LABEL) == TEST && '\n' !in LABEL
  {
    SplitOnCons(LABEL, ',', "");
    assert EndsWith(LABEL, "/" + FAKE_FILE);
    assert LABEL in SplitOn(LABEL, ',');
    assert |"/" + OVERRIDE_FILE| > |LABEL|;
    ModeOfLabel(LABEL);
  }

  lemma SaysWhatIsAnswered(step: Step)
    ensures Says(TEST_WORLD, step) == Answered(step.action)
  {
  }

  lemma WorldIsSteady()
    ensures Steady(TEST_WORLD)
  {
    forall t, s ensures TEST_WORLD.answer(t, s) == Exited(Says(TEST_WORLD, s)) { SaysWhatIsAnswered(s); }
    forall ref ensures Says(TEST_WORLD, Look(ImageInspect(ref))).status == Some(0) {
      SaysWhatIsAnswered(Look(ImageInspect(ref)));
    }
  }

  lemma WorldFindsOne(service: string)
    ensures OneFound(Says(TEST_WORLD, Look(Lookup(service))))
  {
    SaysWhatIsAnswered(Look(Lookup(service)));
    LettersAreOneLine(12, ID);
  }

  lemma WorldStamps(id: string)
    ensures StampMatches(Says(TEST_WORLD, Look(ContainerStamp(id))), DIGEST)
  {
    SaysWhatIsAnswered(Look(ContainerStamp(id)));
    LettersAreOneLine(64, DIGEST);
  }

  lemma WorldMounts(id: string)
    ensures MountMatches(Says(TEST_WORLD, Look(MountRead(id))), MOUNT)
  {
    SaysWhatIsAnswered(Look(MountRead(id)));
    assert MOUNT[|MOUNT| - 1] == 't';
  }

  lemma WorldDigests(which: nat)
    ensures ParseDigest(Says(TEST_WORLD, Look(Digest(which)))) == Some(DIGEST) && DigestOf(TEST_WORLD, which) == DIGEST
  {
    SaysWhatIsAnswered(Look(Digest(which)));
    DigestIsRead();
  }

  lemma WorldAnswers()
    ensures TestStackAnswers(TEST_WORLD)
  {
    WorldIsSteady();
    SaysWhatIsAnswered(Look(GuardList));
    FakeLabelIsTest();
    forall s ensures OneFound(Says(TEST_WORLD, Look(Lookup(s)))) { WorldFindsOne(s); }
    forall id ensures MountMatches(Says(TEST_WORLD, Look(MountRead(id))), TEST_WORLD.testMount) { WorldMounts(id); }
    WorldDigests(0);
    WorldDigests(1);
    assert StampIs(TEST_WORLD, DIGEST) by {
      forall id ensures StampMatches(Says(TEST_WORLD, Look(ContainerStamp(id))), DIGEST) { WorldStamps(id); }
    }
  }

  lemma DigestIsRead()
    ensures ParseDigest(Zero(DIGEST + "\n")) == Some(DIGEST)
  {
    assert (DIGEST + "\n")[..64] == DIGEST;
  }

  lemma ProducerExitsWithThree()
    ensures ProducerDeclines(TEST_WORLD, [])
  {
    assert SEED_RUN + [] == SEED_RUN;
    assert CLIENT_BUILD_TAIL[0] != SEED_RUN[0];
  }

  /** On a server that has just started: the answer is a refusal, and one call is in the budget. */
  method DeclinedButCharged() returns (out: Outcome, stack: AgentStack)
    ensures out == Replied(Declined) && |stack.budget.calls| == 1
  {
    stack := new AgentStack();
    WorldAnswers();
    ProducerExitsWithThree();
    var call;
    out, call := stack.CallVerb(SeedDump, TEST_WORLD, "", []);
    OneIsBooked(stack.budget.calls, stack.budget.asked);
  }

  lemma OneIsBooked(calls: seq<int>, asked: seq<int>)
    requires Budget.Booked([], [], calls, asked, true)
    ensures |calls| == 1
  {
  }
}
