# Verification of the trader's tools and services

This project models the hard parts of the repository and proves what they promise, over all inputs and all runs:

- the **scrubber** that takes secrets out of a container's output (`Text`, `ScrubSpec`, `Scrubber`);
- the **verb machine** of the agent's stack server, with its budget and its mode guard (`Budget`, `ModeGuard`, `Commands`, `Outputs`, `VerbLaw`, `Runner`, `Verbs`, `WorldLaw`, `CallHistory`, `DeclinedSeed`);
- the **snapshot** of a worktree: the refusing tree copy and the swap by renames (`Tree`, `SnapshotCopy`, `Snapshot`, `SnapshotLaw`);
- the **error hop** from service to service and its ids and log lines (`Decimal`, `Vocabulary`, `ErrorHop`, `ErrorReading`, `ErrorChain`);
- the **schedules** and the loop that runs a periodic job (`Schedules`, `Periodic`);
- the **fetch stream** of bars, from the vendor's iterator to the client's generator (`FetchEvents`, `FetchHandler`, `FetchHop`);
- five smaller protocols: the argv checks (`Argv`), the proxy's path rule (`ProxyPath`, `ProxyRules`), `host:port` printed and read (`HostPort`), the seed pair's writer (`Seeds`) and the two database modes of the dev-dataset tool (`Reset`).

Code that changes state is a class or a method here, proved against a specification function; whatever lies outside
(commands, clocks, system calls, vendors, databases) answers as an arbitrary oracle or an arbitrary argument, so a
theorem over a method is one over every such world. A system call, a statement or an answer may fail at any point.

`dafny verify dfyconfig.toml` checks the whole.

Seven places where the code and its own words differ, and what is proved instead:

- The scrubber promises that a truncated input's trailing part of a secret is redacted whole. When the last covered run reaches that tail and starts after it, the code stretches the run and leaves what lies before its start. `ScrubSpec.TailWhollyRedacted` says exactly when the tail goes whole, `ScrubSpec.TailLeftInPlain` gives an input.
- A snapshot is said to be a copy of its sources. The copy does not look at how much a write took, and no later check looks at a file's bytes: after a short write a refresh succeeds with a shorter file. `Snapshot.BuildGeneration` and `Snapshot.Stack.Refresh` say that the copy is the wanted one if and only if every write takes its whole chunk (`WholeSources`, a condition on the system's answers, operation by operation); `Snapshot.NeverShortSources` says that writes which are never short meet it, and `Snapshot.ShortCopyGoesLive` is an instance that does not.
- `from_rpc_error` is said to raise nothing. A delay or a written reset past the calendar's ends raises OverflowError, which is neither of the two errors it catches, and so it leaves the fetch client too. `ErrorHop.DecodesExactly` gives the exact condition, `ErrorHop.LongDelayEscapes` and `ErrorHop.EarlyResetEscapes` the inputs.
- An error's id is said to name one failure along a chain of services. A failure that renders as no status gets a new id from each gRPC edge it crosses; `ErrorChain.OneIdAlongTheChain` gives the exact condition.
- `AfterTradingEvent` promises the earliest session after both instants. A session that closes after its own UTC date, asked for before anything has closed, is passed over; `Schedules.PromiseKeptExactly` gives the exact condition and `Schedules.NightSessionIsMissed` an instance. Over the calendars whose sessions close on their date the promise holds.
- `run_reset` and `run_degrade` report every failure as rolled back. When a commit takes effect but its answer is lost, the tables are changed under that report; nothing is ever half-removed. `Reset.Database.RunReset` and `Reset.Database.RunDegrade` give the exact condition, `Reset.EmptyUnderRolledBack` an instance.
- "Refused" means "not charged" for raised refusals only: `seed_dump` answers a refusal of its producer after the charge, exactly when its last command is the producer, exited with 3 (`Verbs.AgentStack.SeedDumpVerb`; `DeclinedSeed.DeclinedButCharged` is an instance).

## Model

| member | source | states |
|---|---|---|
| ScrubSpec.RenderIsScrub | tools/agent_mcp/stack.py:2129-2134 | Writing left to right, one mark at the start of each covered run, gives the same text as replacing each maximal covered run by one mark. |
| ScrubSpec.KeptTextHoldsNoSecret | tools/agent_mcp/stack.py:2129-2132 | No secret occurs inside any stretch of text that the scrub keeps. |
| ScrubSpec.CleanTextIsUnchanged | tools/agent_mcp/stack.py:2145-2165 | A text that holds no secret comes out as it went in, its last line completed. |
| ScrubSpec.TailWhollyRedacted | tools/agent_mcp/stack.py:2135-2136 | The tail of a truncated input is redacted whole if and only if no covered run reaching it starts after it. |
| ScrubSpec.TruncatedPrint | tools/agent_mcp/stack.py:2159-2165 | What is printed of a truncated input is the print of the same input not truncated, up to where the tail's redaction begins and never before the tail, and then one mark for all the rest. |
| ScrubSpec.TailLeftInPlain | tools/agent_mcp/stack.py:2162-2163 | An input whose tail begins a secret and is not redacted whole. |
| Scrubber.GatherSecrets | tools/agent_mcp/stack.py:2137-2142 | The gathered secrets are the non-empty values and the non-empty lines of values of several lines, each once. |
| Scrubber.JoinInPlace | tools/agent_mcp/stack.py:2147-2150 | The pairwise join in the array itself yields the newline-join of all lines, for every line count. |
| Text.PairUpKeepsJoin | tools/agent_mcp/stack.py:2147-2149 | One round of pairing, an odd last line carried over, keeps the join. |
| Scrubber.IndexFindsFirst | tools/agent_mcp/stack.py:2154 | A string search finds the first occurrence, and none only when there is none. |
| Scrubber.MarkOccurrences | tools/agent_mcp/stack.py:2153-2156 | Stepping one past each match start finds every occurrence, self-overlapping ones included, that starts in the window, and marks hold the furthest end. |
| Scrubber.CoveredByStarts | tools/agent_mcp/stack.py:2150-2156 | A position is covered exactly when some start at or before it has a furthest end past it. |
| Scrubber.MaskIsUnion | tools/agent_mcp/stack.py:2129-2131 | The covered positions are the union of the spans from each start to its furthest end. |
| Scrubber.OccursInWindow | tools/agent_mcp/stack.py:2152-2155 | A window longer than its starts by the longest secret less one holds every occurrence that starts in it, and no other. |
| Scrubber.Merger.Scan | tools/agent_mcp/stack.py:2151-2158 | Window by window, the incremental merge leaves the written text and the open span as the covered set prescribes, for every window width. |
| Scrubber.Merger.LongestSuffix | tools/agent_mcp/stack.py:2159-2161 | In spite of its pruning the search returns the longest suffix that is a proper prefix of any secret. |
| Scrubber.Merger.Finish | tools/agent_mcp/stack.py:2162-2165 | The last span and the rest, with a tail or without, complete the scrub of the whole text. |
| Scrubber.Redact | tools/agent_mcp/stack.py:2137-2165 | The whole program is the scrub of the joined lines under the covered set of the secrets, with the longest tail when the input was cut; order and repetition of secrets do not matter. |
| Budget.DevBudget.Charge | tools/agent_mcp/stack.py:1447-1457 | A call is admitted exactly when the window holds fewer than twelve; a refused one is not counted. |
| Budget.BookedIsAdmitted | tools/agent_mcp/stack.py:1447-1457 | What one booking adds to the instants ever admitted is its own instant exactly if it was charged, though the limiter keeps only the recent ones. |
| Budget.PruningChangesNothing | tools/agent_mcp/stack.py:1451 | For every monotone history, forgetting old calls never changes a later decision. |
| Budget.AtMostTwelveInAnyWindow | tools/agent_mcp/stack.py:1440-1457 | No window of an hour holds more than twelve admitted calls. |
| Budget.RefusedWhenTwelveRecent | tools/agent_mcp/stack.py:1452-1456 | A refusal means that twelve admitted calls lie in the last window. |
| ModeGuard.BaseNameIsTheEnd | tools/agent_mcp/stack.py:1321-1341 | A compose file's base name is the given one exactly when the path is that name or ends with a slash and it. |
| ModeGuard.ModeOfLabel | tools/agent_mcp/stack.py:1321-1347 | A label is DEV exactly with the override and without the fake file, TEST exactly the other way round, PROD otherwise. |
| ModeGuard.GuardSeesEveryContainer | tools/agent_mcp/stack.py:1350-1384 | Over any printed project, the guard accepts mode m exactly when every container is in m and m is accepted; it never accepts a PROD container. |
| ModeGuard.OneProdContainerRefuses | tools/agent_mcp/stack.py:1350-1384 | One PROD container among any others refuses the call. |
| ModeGuard.UnreadableRefuses | tools/agent_mcp/stack.py:1350-1384 | A failed, undecodable or unterminated listing refuses the call. |
| Commands.FileStepsBuild | tools/agent_mcp/stack.py:718-733 | Every file-based command of the lifecycle and the client is one that can build, whatever its arguments; down and restart are none. |
| Commands.BuildsExactly | tools/agent_mcp/stack.py:718-733 | A tail can build exactly when it begins with build or up, holds --build anywhere, or is a run that names a built service. |
| Outputs.StripExactly | tools/agent_mcp/stack.py:2026 | Stripping gives a text exactly when the output is that text between white space: nothing inside is lost or kept beside it. |
| Outputs.DigestExactly | tools/agent_mcp/stack.py:1631-1635 | A digest is read exactly when its step exits with zero and prints 64 lowercase hex digits and a newline. |
| Outputs.StampExactly | tools/agent_mcp/stack.py:2015-2050 | A stamp is accepted for a digest exactly when its read exits with zero and prints that very digest between white space. |
| Outputs.IdsArePrinted | tools/agent_mcp/stack.py:2360-2384 | The ids of a lookup are the lines that it printed, in order. |
| Outputs.MountExactly | tools/agent_mcp/stack.py:1857-1880 | A mount is the expected one exactly when it is printed as it is, with one newline or none. |
| VerbLaw.BuildsAfterEveryBase | tools/agent_mcp/runner.py:299-324 | In every lawful call a step marked as building runs only after each base was confirmed by a zero-exit inspect or pull of that call. |
| VerbLaw.FailedPullIsLast | tools/agent_mcp/runner.py:299-311 | No command follows a pull that failed. |
| VerbLaw.ChargedOnceAndFirst | tools/agent_mcp/runner.py:645-657 | A call's trace holds at most one charge, before every command that creates, removes, restarts or fetches; CallVerb ties that charge to the budget's calls. |
| VerbLaw.NothingActsUncharged | tools/agent_mcp/runner.py:645-657 | A call that was not charged only looked. |
| VerbLaw.UpOnlyAfterDown | tools/agent_mcp/runner.py:709-753 | In up and test_up nothing touches the project before all that must be known is known (guard, checks, images, digests or stamps, bases), and only down before a zero-exit down. |
| VerbLaw.NoDownNoTouch | tools/agent_mcp/runner.py:939-971 | A call of up or test_up that issued no down left the project untouched, whatever its commands printed. |
| VerbLaw.RefusedGuardProtects | tools/agent_mcp/stack.py:1350-1384 | Once the guard's listing shows PROD or a mix, no command of the call touches the project. |
| VerbLaw.TestDatabaseOnlyInTestMode | tools/agent_mcp/runner.py:494-530 | run_system_tests and seed_dump run nothing against the database unless the guard saw TEST alone, its data lies in the test directory and every running stamp is current. |
| Runner.Call.EnsureBases | tools/agent_mcp/runner.py:299-311 | Every base is confirmed by what the world answered then, or the call halts on the pull that failed, a timeout or an error; in a world whose bases are there it goes on. |
| Runner.Call.Do | tools/agent_mcp/runner.py:313-324 | A step extends the trace lawfully with the answer of the world at that point, building only over confirmed bases, and answers its own exit. |
| Runner.Call.StepsUntilFailure | tools/agent_mcp/runner.py:326-330 | Success is reported exactly when the world answered with a zero exit; the trace is the world's. |
| Verbs.AgentStack.UpVerb | tools/agent_mcp/runner.py:709-753 | For every world the trace of up is that world's and keeps the law; it answers ok only after its up exited zero, every other end has its cause in the world or in a full budget, a raised refusal is uncharged, and in a world whose stack answers, with room in the budget, it answers ok. |
| Verbs.AgentStack.TestUpAdmit | tools/agent_mcp/runner.py:939-957 | test_up is admitted only when both image stamps that the world answered equal the digests of their sources, and until then it has only looked; in a world whose images are current it is admitted. |
| Verbs.AgentStack.TestUpVerb | tools/agent_mcp/runner.py:939-971 | The same for test_up, whose world must answer with current images. |
| Verbs.AgentStack.RunningStampsCurrent | tools/agent_mcp/runner.py:836-855 | It goes on only when the world answered, for each running service, the digest of its sources. |
| Verbs.AgentStack.MigrateVerb | tools/agent_mcp/runner.py:795-877 | migrate runs the files of the one mode that the guard saw in the world, after all that mode demands; every other end has its cause. |
| Verbs.AgentStack.TestModeRails | tools/agent_mcp/runner.py:494-511 | The rails pass only with the test stack seen and current in the answers of the world, and do pass when the world shows it so. |
| Verbs.AgentStack.SeedDumpVerb | tools/agent_mcp/runner.py:532-575 | seed_dump answers ok only with a bundle accepted after a zero-exit producer, and declines if and only if its last command is the producer, which the world let exit with 3; a current test stack, room in the budget and such a producer make it decline. |
| DeclinedSeed.DeclinedButCharged | tools/agent_mcp/runner.py:543-549 | On a server that has just started, a refusal that is in the budget. |
| Verbs.AgentStack.Charge | tools/agent_mcp/runner.py:652-657 | The budget is asked once, at what the clock reads then; a refused call leaves the trace as it was, and a budget of fewer than twelve calls admits. |
| Verbs.AgentStack.CallVerb | tools/agent_mcp/runner.py:395-439 | For every world and every verb the trace holds the answers of that world and is lawful; the budget is asked at most once, at what the clock read at that point of the trace, and that instant is added to its pruned calls exactly if the trace holds a charge; a second call meanwhile is turned away without a step and without asking; the lock is free after every way out, every end that is no success has its cause, and a raised refusal was not charged. |
| CallHistory.CallAll | tools/agent_mcp/runner.py:395-439 | Over any sequence of calls in any worlds every trace is its world's and lawful; by a clock whose readings never go back, no hour holds more than twelve of the instants that it read at a charge, and every call that did not succeed ended for a cause in its world, for its own argument, or because twelve such instants lay within the last hour. |
| CallHistory.OneMore | tools/agent_mcp/stack.py:1447-1457 | One call more keeps the limiter in step with the clock readings at the charges of the traces, and one that asked in vain met a full hour. |
| WorldLaw.ProtectedIsNotTouched | tools/agent_mcp/stack.py:1350-1384 | A world that shows a PROD container or a mix of modes whenever the project is listed is touched by no call of any verb. |
| WorldLaw.MissingBaseStops | tools/agent_mcp/runner.py:299-324 | In a world where a base is not there and cannot be pulled nothing is built, and up and test_up do not touch the project. |
| WorldLaw.StaleImageStops | tools/agent_mcp/runner.py:939-957 | In a world where the stamp printed of an image, stripped, is another text than the digest printed, test_up does not touch the project. |
| WorldLaw.StaleMigrationStops | tools/agent_mcp/runner.py:836-855 | Then migrate runs nothing by the test files either. |
| WorldLaw.StaleServiceStops | tools/agent_mcp/runner.py:836-855 | In a world where the one container of a service prints another stamp than its digest, run_system_tests, seed_dump and the test migration run nothing. |
| WorldLaw.OtherMountStops | tools/agent_mcp/runner.py:494-511 | In a world whose postgres prints another mount than the test directory, run_system_tests and seed_dump run nothing. |
| WorldLaw.NotRunningStops | tools/agent_mcp/runner.py:494-511 | Without exactly one container of postgres nothing is migrated, and without one of it and of data_store nothing is tested or dumped. |
| WorldLaw.OtherModeStops | tools/agent_mcp/runner.py:494-511 | In a project wholly in DEV mode nothing is tested, dumped or migrated by the test files; wholly in TEST mode no tools are started and nothing is migrated by the dev files. |
| WorldLaw.FailedCheckStops | tools/agent_mcp/runner.py:709-971 | A check that a verb demands and that never passes keeps it from every compose command. |
| WorldLaw.MissingImageStops | tools/agent_mcp/runner.py:709-971 | An image that is never there keeps up and test_up from the project. |
| WorldLaw.MissingImageStopsMigration | tools/agent_mcp/runner.py:795-877 | An image that is never there keeps migrate from the files of its mode. |
| WorldLaw.UnreadDigestStops | tools/agent_mcp/runner.py:709-971 | Sources whose digest is never printed are neither built nor put up. |
| WorldLaw.NoNetworkStops | tools/agent_mcp/runner.py:709-753 | Without its network neither the dev stack nor the tools are put up. |
| WorldLaw.LawfulTouches | tools/agent_mcp/stack.py:718-733 | Of the compose commands of the law the three builds leave the project alone, and every other one touches it. |
| WorldLaw.NothingAfterAFailedDown | tools/agent_mcp/runner.py:709-753 | In a world whose down never exits with zero, up and test_up issue no other command on the project. |
| SnapshotCopy.Copy.CopyFile | tools/agent_mcp/stack.py:484-520 | The file placed holds the bytes that its writes took, chunk by chunk, with its executable bit, never over an existing path; all its bytes are counted. |
| SnapshotCopy.WholeExactly | tools/agent_mcp/stack.py:514-516 | A file holds its source's bytes if and only if every write took its whole chunk; else it is shorter. |
| Snapshot.ShortWriteIsUnseen | tools/agent_mcp/stack.py:514-516 | A ten-byte file and a write that takes four: the copy succeeds and holds four. |
| Snapshot.ShortCopyGoesLive | tools/agent_mcp/stack.py:642-684 | A whole refresh of that file without any fault: it succeeds, and what is live is not what is wanted. |
| Snapshot.NeverShortSources | tools/agent_mcp/stack.py:514-516 | Where the system takes every chunk whole, every write of every source is whole, whatever the worktree. |
| SnapshotCopy.Copy.CopyTree | tools/agent_mcp/stack.py:522-553 | A tree copy that succeeds meant exactly the pruned listing, counts its entries and bytes within the caps, and the tree held no link or special node; it takes the number of operations that the tree prescribes, and what is on disk mirrors the listing, being it exactly if the system takes whole each chunk of its files at those operations. It fails only over a fault, a cap or such a node. |
| SnapshotCopy.PartsAreWhole | tools/agent_mcp/stack.py:522-553 | Folders, files and subtrees, counted one kind at a time, are the whole directory. |
| Snapshot.ListingIsWhatIsKept | tools/agent_mcp/stack.py:470-473 | A path is listed exactly when a walk down it meets no cache directory, no link and ends at a directory or at a file that is no live env file, and with that node's own content. |
| SnapshotLaw.ListedExactly | tools/agent_mcp/stack.py:470-553 | A pruned directory holds each directory on a walk through no cache directory, each regular file at the end of one that is not named .env, nor .env. and anything but default, as it is there, and nothing else. |
| SnapshotLaw.CleanExactly | tools/agent_mcp/stack.py:522-553 | A directory is refused exactly when a walk through no cache directory meets a link or a special node; a cache directory, and a link to a directory by that name, is passed over. |
| SnapshotLaw.WantedExactly | tools/agent_mcp/stack.py:592-639 | Path by path, the wanted generation is the directories above the sources, the sources themselves, and what is kept below them. |
| SnapshotLaw.LiveHoldsNoEnv | tools/agent_mcp/stack.py:470-473 | After a refresh no file under the live name is a live env file, unless it is itself a source; each is a regular file of the worktree, executable exactly if that is, and lies in no cache directory. |
| SnapshotLaw.LiveHoldsTheRest | tools/agent_mcp/stack.py:470-473 | Every other regular file below a source is there, .env.default among them, with its own content where the writes were whole. |
| SnapshotLaw.SourcesAreNoEnv | tools/agent_mcp/stack.py:202-218 | No source is named as a live env file, so none goes live. |
| SnapshotLaw.EntriesAreListed | tools/agent_mcp/stack.py:485-495 | The cap on files counts each thing placed below the directory, once. |
| SnapshotLaw.BytesAreListed | tools/agent_mcp/stack.py:485-495 | The cap on bytes counts every byte of every file placed, and no other. |
| Snapshot.SourcesAreApart | tools/agent_mcp/stack.py:202-218 | No source of the snapshot lies at or below another. |
| Snapshot.BuildGeneration | tools/agent_mcp/stack.py:592-639 | A generation that is built and verified lies at all the wanted paths of an acceptable worktree, and is the wanted one if and only if the system takes every chunk of its files whole; it fails only over a fault or a worktree that is not acceptable. |
| Snapshot.Stack.Refresh | tools/agent_mcp/stack.py:642-684 | After a refresh live is the new copy, which is the wanted one if and only if the system takes every chunk whole, and neither other name remains; refused before the swap live is unchanged; stopped between the renames the earlier copy is under the previous name and the new one under the next. |
| Snapshot.Stack.Refreshes | tools/agent_mcp/stack.py:642-684 | Over any sequence of refreshes live holds the generation built from the worktree of the last one that was not refused, or nothing after a stop between the renames, when the next name holds the new one and the previous name the earlier; a refusal right after such a stop leaves none under any name. |
| Vocabulary.CodesAreOurs | server/common/errors/vocabulary.py:509-745 | No reason's status is UNAVAILABLE, DEADLINE_EXCEEDED or INTERNAL. |
| Vocabulary.RetryAfterIsNeverShort | server/common/errors/vocabulary.py:264-326 | The whole seconds given are never less than the wait, and less than a second more. |
| Vocabulary.OwnIdIsNotEmpty | server/common/errors/vocabulary.py:355-382 | An error has an id of its own exactly when its value names something, and then it is not empty on the wire. |
| Vocabulary.JoinIsRead | server/common/rpc/errors.py:154-155 | A sequence of texts without a comma is read back from its joined form. |
| ErrorHop.HopKeepsTheError | server/common/rpc/errors.py:158-213 | Every error that renders as a status arrives with its reason, branch, detail, reset and metadata, each value one text, and an id, whenever it is sent and read. |
| ErrorHop.ArrivedIsNormal | server/common/rpc/errors.py:385-458 | What arrives is an error that names its id, and arriving again changes nothing. |
| ErrorHop.SecondHopChangesNothing | server/common/rpc/errors.py:402-458 | Two hops in a row give what one gives, whatever id the second would mint. |
| ErrorHop.SecondStatusIsTheFirst | server/common/rpc/errors.py:158-213 | The second status differs from the first in its retry delay alone. |
| ErrorHop.FromRpcError | server/common/rpc/errors.py:402-458 | What a decoding gives, when it gives an error, is one that the vocabulary admits. |
| ErrorReading.TransportIsRead | server/common/rpc/errors.py:431-443 | UNAVAILABLE is PEER_UNAVAILABLE, DEADLINE_EXCEEDED is DEADLINE and INTERNAL is PEER_INTERNAL, each in the peer's words when it said any. |
| ErrorReading.BugIsReadExactly | server/common/rpc/errors.py:370-375 | An INTERNAL status carries an id exactly when its details are the fixed message and that id. |
| ErrorReading.UnreadableIsProtocolError | server/common/rpc/errors.py:445-455 | Every other status that names no reason of ours decodes to PEER_PROTOCOL_ERROR with the peer's words in it. |
| ErrorReading.NamedReasonIsRead | server/common/rpc/errors.py:385-458 | A named reason arrives, with its detail, reset or delay from now, and metadata, exactly when the vocabulary lets an error of it have that payload; else it is a protocol error, or leads past the calendar. |
| ErrorReading.TransportReasonsAreItsOwn | server/common/rpc/errors.py:402-458 | The three reasons of the transport arise otherwise only where our own ErrorInfo names them. |
| ErrorReading.StatusTells | server/common/rpc/errors.py:158-213 | A status carries the code of its reason's row and the detail, and a delay exactly for a known reset, never short and less than a second too long. |
| ErrorHop.DecodesExactly | server/common/rpc/errors.py:385-458 | Whatever a peer sent, decoding it gives an error if and only if no written reset and no delay from now leads past the calendar; else an OverflowError escapes. |
| ErrorHop.LongDelayEscapes | server/common/errors/vocabulary.py:291-294 | A delay of ten thousand years escapes. |
| ErrorHop.EarlyResetEscapes | server/common/errors/vocabulary.py:490-501 | A reset in the calendar's first minute, written with an offset of 23:59, escapes. |
| ErrorHop.BugIdIsRead | server/common/rpc/errors.py:370-375 | The id in the fixed message of a bug is read back as the minted one. |
| ErrorHop.BoundaryIsTotal | server/common/rpc/errors.py:253-299 | Every exception is answered with one status, never UNAVAILABLE; INTERNAL exactly for what is no vocabulary error or has no code, and the caller reads the logged id out of every answer. |
| ErrorHop.ServerCall.AbortWithError | server/common/rpc/errors.py:216-250 | The id sent is the id logged, and the cause is logged exactly when the id was minted here. |
| ErrorHop.ServerCall.AbortFor | server/common/rpc/errors.py:261-267 | Every exception ends the call with the one answer and the one line it stands for. |
| ErrorHop.ServerCall.Stream | server/common/rpc/errors.py:270-299 | After any number of messages the stream ends one way; a deliberate abort and a cancellation pass unlogged. |
| ErrorChain.HttpEdge.Answer | server/routers/common/errors.py:241-254 | The HTTP edge answers under the id it logs, the cause only when it minted it. |
| ErrorChain.BodyNamesTheLoggedId | server/routers/common/errors.py:190-254 | The id in the problem body is the logged one. |
| ErrorChain.BodyTellsTheError | server/routers/common/errors.py:190-210 | The body names the reason and the detail of the error it answers, the status of its row, its reset and wait, and every metadata value as it was. |
| ErrorChain.LastBodyTellsTheError | server/routers/common/errors.py:190-254 | At the end of every chain the body of an error that renders tells of it as it was raised at the start. |
| ErrorChain.BugIsToldAsThePeers | server/common/rpc/errors.py:438-443 | What does not render is answered with 502 and PEER_INTERNAL after any number of edges. |
| ErrorChain.NoReasonExactly | server/routers/common/errors.py:241-254 | A body of status 500, without a reason and a detail, answers exactly what is no vocabulary error and was raised at the HTTP edge. |
| ErrorChain.IdentifiedStaysNamed | server/common/rpc/errors.py:216-250 | After an edge that identified it, every line of every longer chain and the last body name that id, and no line repeats the cause. |
| ErrorChain.OneIdAlongTheChain | server/common/errors/vocabulary.py:355-398 | All lines of a chain name one id if and only if the failure renders as a status or crosses at most one gRPC edge. |
| ErrorChain.TracebackAtTheMintingEdge | server/common/rpc/errors.py:216-250 | The cause of an error that renders is logged at the first edge and nowhere else, exactly when that edge minted the id and there is a cause. |
| ErrorChain.BugIsLoggedByEveryEdge | server/common/rpc/errors.py:253-258 | What does not render is logged in full by every gRPC edge, each under its own id. |
| Schedules.EveryKeepsItsInterval | server/common/scheduling.py:181-191 | A fire is the later of now and what is due, and the draw: never nearer to the last start than the interval, and at once after an overrun. |
| Schedules.NextFire | server/common/scheduling.py:139-156 | Over any ordered calendar the scan answers the first fire from its start after at most two sessions; its bound is never reached. |
| Schedules.EarliestIsEarliest | server/common/scheduling.py:122-124 | The specification's answer is a session's event after the floor, and none fires between. |
| Schedules.NextFireIsTheEarliest | server/common/scheduling.py:119-156 | For either event and any signed offset the answer is the first opening, or closing, plus the offset that is after both instants, over calendars whose sessions close on their date. |
| Schedules.EarliestIsPromised | server/common/scheduling.py:119-137 | The specification's answer is what is promised of openings, closings and the two instants, and nothing else is. |
| Schedules.PromiseKeptExactly | server/common/scheduling.py:143-150 | Over any proper calendar the answer is the earliest if and only if the scan's start does not pass over a session that still fires. |
| Schedules.NightSessionIsMissed | server/common/scheduling.py:147-148 | A calendar and an instant where the earliest close is missed. |
| Periodic.Loop.Turn | server/common/scheduling.py:267-293 | For any schedule, clock and wakes, one turn leaves exactly the state that one round of the specification gives: when it starts the job, whether for a wake set in this round or waiting before it, when it sleeps, retries or ends. |
| Periodic.StartIsPunctual | server/common/scheduling.py:267-287 | Over every run a start without a wake is at the later of its fire and the asking, plus the lateness; one for a wake that waits or comes during the sleep is at the asking, plus the lateness; no other round starts the job. |
| Periodic.AsksAgain | server/common/scheduling.py:267-293 | The next asking comes a pause after a start, and after a failing schedule the retry delay, or none with a wake, the lateness and the pause later. |
| Periodic.AskedWith | server/common/scheduling.py:264-268 | The schedule is always asked with the instant of asking and the last start. |
| Periodic.EveryIsOnTheBeat | server/common/scheduling.py:159-293 | Under Every without jitter, undisturbed and with jobs no longer than the interval, the n-th job starts at the first fire and n whole intervals. |
| Periodic.EveryRunKeeps | server/common/scheduling.py:267-293 | Over every run each job starts at or after the fire computed for it or takes up a wake, and the starts take up no more wakes than were set, none without a wake event. |
| Periodic.EndsOnNeverOnly | server/common/scheduling.py:267-293 | The loop ends exactly when in some round the schedule names no fire; until then each round is one turn. |
| Periodic.OnceRunsOnce | server/common/scheduling.py:93-115 | Under Once the first round starts the job, without a wake at the later of its instant and the asking, plus the lateness, and the second ends the loop. |
| Periodic.Loop.Run | server/common/scheduling.py:256-293 | Any number of turns leave the state that the rounds prescribe one after another. |
| Periodic.EveryRunIsSpaced | server/common/scheduling.py:256-293 | Over every run with a schedule that keeps its interval, a start that takes up no wake is an interval after the one before it. |
| Periodic.RunsNeverBurst | server/common/scheduling.py:159-191 | In any window of any run with such a schedule, the starts number at most its whole intervals, one more, and the wakes that were set. |
| Periodic.EveryIsSuchASchedule | server/common/scheduling.py:159-191 | Every, with any jitter, is such a schedule. |
| Periodic.StartsInAWindow | server/common/scheduling.py:159-191 | Starts in a window number at most its whole intervals, one more, and the wakes they took up: overruns never burst. |
| FetchEvents.PagesHoldTheBars | server/routers/data_ingest/fetch_dataset_handler.py:158-198 | The pages together are the bars, every one full but the last, none empty. |
| FetchHandler.RefusedUnlessStockBars | server/routers/data_ingest/fetch_dataset_handler.py:114-150 | A request passes the validation exactly when it asks for stock bars alone; an empty one is INVALID_REQUEST and every other UNSUPPORTED_ASSET_TYPE. |
| FetchHandler.ScriptConserves | server/routers/data_ingest/fetch_dataset_handler.py:158-198 | A whole fetch is ack, pages, done; its pages concatenate to the bars, each of them the vendor's value by value on the fetch's feed, and its count is theirs. |
| FetchHandler.FailedScriptIsAPrefix | server/routers/data_ingest/fetch_dataset_handler.py:158-198 | A fetch whose source fails is a prefix of the whole one, short by less than a page. |
| FetchHandler.Fetching.Fetch | server/routers/data_ingest/fetch_dataset_handler.py:85-198 | On every exit what was yielded is a prefix of the script, all of it when the source ends, raises anything or is cancelled, and bars once opened are closed exactly once. |
| FetchHop.Servicer.Serve | server/common/rpc/ingest.py:132-163 | For every handler the wire is empty, one refused ack, or one accepted ack and then pages and dones only, each page within the bound and on the feed of the ack. |
| FetchHop.RefusedInBandExactly | server/common/rpc/ingest.py:136-163 | The refused form is sent if and only if FEED_NOT_AVAILABLE is raised before any event. |
| FetchHop.FetchFrom | server/common/rpc/clients/ingest_fetch.py:132-275 | Whoever sent it, the client yields a grammatical prefix, completes exactly on a complete stream with a good status, and otherwise fails with a vocabulary error, but for a status whose decoding escapes. |
| FetchHop.WholeFetch | server/common/rpc/clients/ingest_fetch.py:241-275 | Handler, servicer, wire and client together deliver the handler's events; a source's failure arrives as one hop carries it, anything else it raises as PEER_INTERNAL under the server's id, a cancellation as an error of the peer. |
| FetchHop.WholeRefusal | server/common/rpc/ingest.py:136-163 | The refusal in band arrives as the very error that was raised, with an id. |
| FetchHop.RefusalArrives | server/common/rpc/clients/ingest_fetch.py:113-130 | The refused ack decodes to what a status of the same error would. |
| FetchHop.RefusalIsReadExactly | server/common/rpc/clients/ingest_fetch.py:113-130 | A refusal in band is the error it names exactly when that reason can have its payload, and else a protocol error. |
| ProxyPath.DecodePath | web/vite.config.ts:76-90 | The loop is the decoding to a fixed point in at most four passes, refused on a hidden separator at any of them. |
| ProxyPath.DecodeShortens | web/vite.config.ts:65-75 | Decoding shortens every text with an escape and leaves every other one as it is. |
| ProxyPath.PassesShorten | web/vite.config.ts:65-90 | A decoded path holds no escape and no backslash, and is shorter than the raw one unless it is the raw one. |
| ProxyPath.NormalizeShortens | web/vite.config.ts:152-155 | Cleaning never makes a path longer. |
| ProxyPath.NormalKeepsPlain | web/vite.config.ts:152-155 | Without a double dot, cleaning leaves a path under the prefix as it is if and only if it has no single dot and no inner empty segment. |
| ProxyPath.StoreBypass | web/vite.config.ts:136-158 | A request is forwarded if and only if its path is plain (no percent sign, backslash, double dot, single-dot or inner empty segment) and a method rule allows it; under the prefix the refusal is 404 exactly for a plain path, and nothing is written when forwarding. |
| ProxyRules.AllowedExactly | web/vite.config.ts:52-114 | What the rules allow: a GET or HEAD under the prefix, a PATCH of a dataset's expiry or collecting, a DELETE of a dataset, the method in any case and the id five groups of hex digits. |
| ProxyRules.DecodesTheEscaped | web/vite.config.ts:76-90 | Decoding gives every text back, whichever of its characters were escaped byte by byte in UTF-8. |
| ProxyRules.HiddenSeparatorIsRefused | web/vite.config.ts:76-90 | An escaped slash or backslash is refused in whatever pass it is seen. |
| HostPort.PrintedTargetIsRead | server/common/rpc/channel.py:79-106 | What a bind address prints is accepted and returned as it is, if and only if its port is not 0, one pair of brackets can hold its host, and the host is no wildcard. |
| HostPort.AcceptedIsTarget | server/common/rpc/channel.py:60-78 | Whatever is accepted is the stripped value: a host, bracketed if it has a colon, a colon and a port from 1 to 65535. |
| HostPort.AcceptedExactly | server/common/rpc/channel.py:79-106 | A value is accepted, and returned stripped, exactly when it is such a target and its host is no wildcard. |
| HostPort.BoundExactly | server/common/rpc/server.py:89-99 | An address can be bound exactly when its host is not blank and its port is from 0 to 65535. |
| HostPort.BracketedIsRead | server/common/rpc/channel.py:83-87 | A bracketed text is accepted exactly when its first closing bracket is its last character before the port. |
| Seeds.Share.Walk | tools/agent_mcp/seeds.py:174-210 | It passes plain directories only, makes only what was missing, and leaves one descriptor open, or none unless a close fails. |
| Seeds.Share.WriteNew | tools/agent_mcp/seeds.py:213-227 | In however many writes, the fresh name holds all bytes; after a failure nothing is there unless its removal or a close failed too, and what was there before is never touched. |
| Seeds.Share.Commit | tools/agent_mcp/seeds.py:279-283 | The renames happen in order, none when a target could not be replaced. |
| Seeds.Share.WriteSeed | tools/agent_mcp/seeds.py:251-297 | On every exit each target is what it was or the whole new file, the manifest new only if the SQL is; a failure before the first rename changes neither target and, unless a removal or a close fails, adds nothing but missing directories; success means both, and where no call to the system fails and no link, obstacle or clash of names is in the way it succeeds; no link is followed, and no descriptor stays open unless a close fails. |
| Seeds.NamesAreApart | tools/agent_mcp/seeds.py:213-216 | The targets have different names, and so have their temporaries, whatever tokens are drawn. |
| Seeds.ReportIsTrue | tools/agent_mcp/seeds.py:290-297 | The report of a pair gives each file's own path and size. |
| Seeds.ComponentExactly | tools/agent_mcp/seeds.py:245-249 | The worktree names let through are those that stay one directory beneath the share when their path is walked. |
| Seeds.ObstacleExactly | tools/agent_mcp/seeds.py:230-242 | A pair is refused exactly for a directory or a special node under one of its two names. |
| Reset.EmptiedTables | tools/dev_datasets/request.py:143-170 | A reset empties exactly its seven tables, keeps every other, and a second one changes nothing. |
| Reset.RunningExactly | tools/dev_datasets/request.py:874-919 | The runs in flight are the rows of state RUNNING, each counted once. |
| Reset.Database.RunReset | tools/dev_datasets/request.py:874-919 | The tables are all emptied exactly if the server is the right one, no run is in flight and none of the twenty statements up to the commit fails, else nothing is changed; the report of a rollback is wrong exactly when then only the commit's answer is lost; clean is reported exactly on a recount of zero, and the counts shown are those before and after. |
| Reset.EmptyUnderRolledBack | tools/dev_datasets/request.py:905-907 | A store that is emptied under the report that it was rolled back. |
| Reset.Database.Open | tools/dev_datasets/request.py:734-772 | A connection is used only when the server names this stack, dev or test, in one row that was set on its command line. |
| Reset.Database.RunDegrade | tools/dev_datasets/request.py:775-817 | The deletes of all targets are committed exactly for an allowed plan whose every target names one entry and a window, on the right server, when no statement up to the commit fails, else nothing is changed; it succeeds exactly then or without targets, but for a commit whose answer is lost. |
| Reset.OnlyDegradedBarsGo | tools/dev_datasets/request.py:135-141 | No other table changes, and a bar goes exactly when a dev-degraded entry holds it inside a target's window. |
| Reset.FoundExactly | tools/dev_datasets/request.py:137-137 | A row finds one entry exactly when that one alone has its owner, its symbol and its granularity. |
| Reset.BarsGoExactly | tools/dev_datasets/request.py:775-817 | A degrade that commits takes exactly the bars that a dropping row of the plan, one that does not fail first, names by its dataset and its window. |
| Reset.LeftOfSpared | tools/dev_datasets/request.py:798-808 | One delete after others leaves what one pass over all their windows leaves. |
| Reset.OrderOfCuts | tools/dev_datasets/request.py:798-808 | The order and the repetition of the plan's rows do not matter. |
| Reset.WindowHoldsWholeDays | tools/dev_datasets/request.py:487-499 | An instant lies in a window exactly when its day lies from the first day up to the last. |
| Reset.WindowExactly | tools/dev_datasets/request.py:487-499 | A row has a window exactly when both its days can be read and the first comes before the last. |
| Reset.OffsetIsRead | tools/dev_datasets/request.py:306-323 | A day written as D and an offset is that many days away, D alone is today, and what begins otherwise is an ISO date. |
| Argv.LifecycleIsItsTable | tools/agent_mcp/stack.py:1066-1111 | The check accepts exactly the rows of its tables under their own prefixes, and the forbidden-word scan changes no answer. |
| Argv.ChosenIsItsOwn | tools/agent_mcp/stack.py:1086-1099 | Trying the longest prefix first always finds the prefix a row was put under. |
| Argv.CommandIsUnique | tools/agent_mcp/stack.py:1028-1041 | No words are two commands. |
| Argv.WrappedIsExactly | tools/agent_mcp/stack.py:1673-1708 | The check of a wrapped command accepts its six fixed words and then its one lifecycle command, and nothing else. |
| Argv.WrappedIsNoLifecycle | tools/agent_mcp/stack.py:1066-1080 | The wrapped words are no lifecycle command. |
| Argv.LawfulCommandsPass | tools/agent_mcp/stack.py:1509-1948 | Every lifecycle command that the law lets any verb issue, wrapped for up, tools and the dev migration, passes its builder's check. |
| Argv.SuitePathIsUnderSystem | tools/agent_mcp/stack.py:790-800 | A test path is accepted exactly when it is plain names all the way, the first two tests and system. |
| Argv.ClientScansAreIdle | tools/agent_mcp/stack.py:803-837 | Neither scan of the client's check changes an answer. |
| Argv.ClientIsItsTails | tools/agent_mcp/stack.py:803-837 | The check accepts exactly its prefix and then a tail of the client. |
| Argv.SeedDateExactly | tools/agent_mcp/stack.py:391-403 | A producer's date is four digits, two and two with dashes between them, and a date. |
| Argv.ClientBuildersPass | tools/agent_mcp/stack.py:840-880 | The client's builders pass: its build, the tests at every list of one to fifty accepted paths, the producer with every accepted date or none. |
| Argv.ExecIsItsTable | tools/agent_mcp/stack.py:2387-2403 | The exec check accepts exactly a row's options and tail around a container id; the order of the rows does not matter. |
| Argv.ExecBuilderPasses | tools/agent_mcp/stack.py:2406-2417 | The exec builder passes for every row and every container id. |

## Left out

- Snapshot.Stack.Refresh: does not cover the file modes of the snapshot's directories, nor what bytes a half-written file of a refused copy holds; a generation that is refused is removed or left aside under the next name.
- SnapshotCopy.Copy.CopyFile: a read gives a whole chunk, and a worktree does not change while it is copied.
- Verbs.AgentStack.CallVerb: does not cover the audit line, the worded messages and the recorded outputs of a call; a timeout is one more way a step can end.
- Commands.FileStepsBuild: the tools step is an `up` and would count as building by its words, but its builder leaves the mark off, and the model does the same.
- Scrubber.Redact: takes the values as an argument; the regular expression that picks database URLs out of the environment, and awk's bytes as against characters, are outside.
- ErrorHop.HopKeepsTheError: an instant is a number of microseconds written in decimal, not the text of RFC 3339.
- ProxyPath.StoreBypass: a character is one code point, and a method's upper case is that of ASCII letters.
- HostPort.PrintedTargetIsRead: which literals are the unspecified address is a parameter; the reading of the server's own variables is not modelled.
- Seeds.Share.WriteSeed: no other process changes the directory between two calls; what one could do to the second rename is covered as its failure. A close that fails gives its descriptor back, as on Linux. Parsing the bundle's JSON is outside.
- Reset.Database.RunReset: other sessions write only while it waits, not inside the transaction; the counts' printing and the driver's own exceptions are outside.
- Reset.Database.RunDegrade: ISO dates and New York midnights are parameters; a date string with a trailing newline or digits outside ASCII is outside.
- FetchHandler.Fetching.Fetch: the one close of the bars does not itself fail.
- FetchHop.WholeFetch: a cancelled call ends with the status that the gRPC runtime gives it, CANCELLED without details.
- Periodic.Loop.Turn: cancellation and the asyncio tasks behind a sleep; a job is the time it takes, however it ends.
- Schedules.NextFire: the calendar adapters themselves; a calendar is its ordered sessions.
- Argv.ExecIsItsTable: the texts of the scripts; a row is keyed by its script as the table is.
- The read-only verbs (ps, logs, db_tables, http_get, migrate_status): they run one looking command each.
- The order of the modes in the dev-dataset tool's entry point, its plan parsing and its HTTP requests.
- Parsing of compose files, git, docker, psql, protobuf, FastAPI, SQLAlchemy and settings: they are answered by oracles or by plain datatypes.
- Prices and volumes of a bar are carried and not looked at.
