# VTerminal verification model

VTerminal types commands into a live terminal and reads the results back from the same
byte stream. This project models the parts of it whose comments state whole-run
invariants, and proves those invariants, in Dafny 4.11. `dafny verify dfyconfig.toml`
checks everything.

| files | what they model |
|---|---|
| `Regex`, `EchoText`, `EchoShape`, `EchoModel`, `EchoLaws`, `EchoRuns`, `EchoHolding`, `EchoChunks`, `EchoMatch`, `EchoSteps`, `EchoFilter` | the PTY echo filter: control-sequence recognisers and the patterns they recognise, the filter as a function from state to state, conservation over every run, how long a byte is held, independence of chunking, what an echo is replaced by, what arming, retiring and protocol strings do, and the filter as mutable objects |
| `ExecModel`, `ExecHistory`, `ExecSafety`, `ExecTime`, `ExecReports`, `ExecEndings`, `ExecTyping`, `ExecJob` | running a command in the live terminal: reservation, preflight, dispatch, interrupt and settlement as atomic steps; what the events before a state prove about it, safety, timing, where a reported exit code and an error come from, when a line or a probe is typed, and the Job closure as an object |
| `ShellScan`, `ShellScanner`, `ShellPieces`, `ShellGrammar`, `ShellTail`, `ShellSentinel`, `ShellSafe`, `ShellTokens`, `ShellQuoting`, `ShellWords` | the shell text layer: context-stack scanner and the pieces of text it accepts, control grammar, completion suffix and the commands that may have one, completion tokens, quoting printer and parser |
| `TextLines`, `FitText`, `Attach`, `AttachLabels`, `AttachParts`, `AttachFold`, `AttachTrips`, `AttachCites` | folding attachments and retrieved passages into a prompt, and taking them out again; what labels, blocks and citations look like |
| `Glob`, `SshConfig`, `SshFields`, `SshGraph` | the ssh config importer, what each field of a host comes from, and which files a scan reads told from the include graph |
| `Highlight`, `HighlightShape`, `HighlightSink`, `Protection`, `ProtectionShape`, `ProtectionSpans` | the Markdown scanners, and the patterns of text that they colour and protect |
| `Walk` | the directory walk with an explicit stack |
| `BlockModel`, `BlockMarks`, `BlockTracker` | the scoped prompt tracker, and what each mark does |
| `SingleFlight` | the shared WSL preparation |

Loops of the source are methods with invariants, and its mutable objects are classes;
each is proved equal to a function of its inputs or of its old state, and the theorems
are about those functions.

## Findings

Where the code and what its comments promise differ, the model follows the code.

- `src/lib/ptyExec.ts:1711-1720`: the note of `closedOutcome` says that nothing was
  executed, but `:1119-1122` and `:1233-1235` report it after the line was handed to the
  PTY (`ExecSafety.ClosedAfterTyping`); whether the shell then got it, the program cannot
  know. `ExecSafety.NoteExactly` says when a run that settles with such a note has handed
  no line to the PTY: exactly if the session had no live job of that run.
- `src/lib/attachments.ts:226-241`: `fitUtf8` keeping the end returns the whole text when
  not even its last unit fits, because `slice(-0)` is the whole text;
  `FitText.FitEndExactly` is the exact condition.
- `src-tauri/src/ssh_config.rs:257-263`: `glob_matches` tests a literal match before a
  star, so a star in the file name is taken as itself; `Glob.AgreesExactly` gives the texts
  for which it agrees with every pattern.
- `src-tauri/src/ssh_config.rs:162-203`: the scan takes the file queued last first and
  never looks at a file twice, so a file met at depth three first is not followed even if
  the entry includes it directly (`SshGraph.DeepFirst`). `SshGraph.ReadInFull` gives a
  condition on the include graph under which everything within three includes is read: no
  file that includes something is within two includes and also at the end of a chain of
  three includes through different files. Over a whole graph that goes one way, because
  what one such file includes may be included elsewhere too; `SshGraph.FollowedExactly` is
  exact for a file that only one other includes.
- `src/lib/ptyEcho.ts:158-174`: how the PTY cuts its output into chunks is invisible up to
  65,537 bytes and not beyond, because the protocol budget is tested only when a scan runs
  out of bytes (`EchoChunks.InvisibleExactly`).
- `src/lib/attachInput.ts:371-428`: the two folding round trips hold for exactly the
  prompts named in `AttachTrips.FoldSplitExactly` and `AttachTrips.FoldStripExactly`.

## Reading the models

- Echo filter: one terminal; bytes and decoded text are both sequences of codes; decoding
  and encoding are parameters of every theorem. The clock is an integer of milliseconds.
  Each log entry carries evidence that the program does not have: the PTY input it stands
  for, and the expectation that justified a replacement.
- Execution: one session. A run is one call; the terminal as the program sees it is a
  record that may change arbitrarily between steps. A settled run keeps its last job, and
  a job its gesture time and the completions it has seen, as evidence. What the command's
  text admits is three facts: it is sane, a suffix may be appended, the guarded line fits.
- Base64, URL and number parsing, the screen contents and Unicode categories are
  parameters.

## Model

| member | source | states |
|---|---|---|
| EchoRuns.EveryRun | src/lib/ptyEcho.ts:52-211 | after any run of chunks, expectations, cleanups, timers, cancels and ticks, the log with every replacement put back, followed by the head's held bytes, is the PTY input in order; callbacks of non-empty chunks are passed on once, in order, never before their last byte; every replaced span is one whole line ended by a line feed that normalises to the armed line; expectations are used at most once, oldest first; held bytes and queue stay bounded and only the head holds anything |
| EchoRuns.RunConserves | src/lib/ptyEcho.ts:52-211 | the same from any sound state: byte trace and callback trace grow by exactly the input and its callbacks |
| EchoRuns.StepLaw | src/lib/ptyEcho.ts:37-211 | one step of any kind conserves bytes and callbacks, and the oldest live expectation never gets younger |
| EchoRuns.NothingDropped | src/lib/ptyEcho.ts:95-107 | the log only grows, and without a discarding cancel no input is dropped |
| EchoHolding.NoByteIsHeldLong | src/lib/ptyEcho.ts:126-151 | in every run in which no timer is late, a byte of the PTY's output that is held after some events and still held after more has waited at most two seconds in between, whichever expectations came and went |
| EchoHolding.FeedRests | src/lib/ptyEcho.ts:129-211 | after a chunk either the same expectation is at the head or only bytes of that chunk are held; what is held is no whole line and no finished protocol string |
| EchoRuns.HeldBriefly | src/lib/ptyEcho.ts:126-151 | an expectation that holds something without a break is gone, or has let go, within two seconds |
| EchoLaws.FeedLaw | src/lib/ptyEcho.ts:129-211 | feeding one chunk keeps the queue and log in order and extends both traces by exactly that chunk |
| EchoLaws.ContinueLaw | src/lib/ptyEcho.ts:109-124 | acknowledgments stay with the last bytes of the chunk they answer |
| EchoLaws.EvictKeeps | src/lib/ptyEcho.ts:28-50 | removing expired or superseded expectations writes what they held, in order, and nothing else |
| EchoRuns.RetireLaw | src/lib/ptyEcho.ts:37-47 | a cleanup or timer either marks an empty owned probe retired or flushes and removes it, conserving both traces |
| EchoRuns.ExpectLaw | src/lib/ptyEcho.ts:52-91 | arming conserves both traces, keeps at most four expectations and keeps only owned probes ahead of the new one |
| EchoRuns.CancelLaw | src/lib/ptyEcho.ts:95-107 | cancelling conserves both traces, discarding or not |
| EchoChunks.FeedSame | src/lib/ptyEcho.ts:111-211 | acknowledgments never change what the terminal receives |
| EchoChunks.FeedChunks | src/lib/ptyEcho.ts:129-211 | feeding a chunk in two parts leaves the same terminal and queue as feeding it whole |
| EchoChunks.ChunkingIsInvisible | src/lib/ptyEcho.ts:129-211 | any two ways of cutting the same output within the budget leave the same terminal and queue |
| EchoChunks.LongReplySplits | src/lib/ptyEcho.ts:158-174 | after arming a probe and a command, a probe reply of 65,538 bytes is treated differently in one chunk and in two |
| EchoChunks.InvisibleExactly | src/lib/ptyEcho.ts:158-174 | chunking is invisible for all inputs up to a bound if and only if the bound is at most 65,537 |
| EchoChunks.LeadingGrows | src/lib/ptyEcho.ts:217-258 | scanning a longer input gives the same verdict or resumes where the shorter scan stopped |
| EchoMatch.EchoIsReplaced | src/lib/ptyEcho.ts:183-211 | a whole literal echo at the front of the output is replaced by what the expectation it matches shows, which CommandIsShown spells out, and feeding goes on behind it |
| EchoMatch.CommandIsShown | src/lib/ptyEcho.ts:202-209 | however the output is cut, the terminal gets the visible command, CR and LF, or for a hidden line CR and the sequence that erases it, and then exactly what followed the echo |
| EchoMatch.AnyChunkingShowsTheCommand | src/lib/ptyEcho.ts:183-211 | the cutting of the output makes no difference to the replacement |
| EchoMatch.LiteralEcho | src/lib/ptyEcho.ts:297-329 | a line echoed literally normalises to itself |
| EchoMatch.ExpansionIsBounded | src/lib/ptyEcho.ts:300-316 | cursor advances never expand a line beyond 65,536 units or its own length |
| EchoSteps.ArmedExactly | src/lib/ptyEcho.ts:52-91 | arming keeps, in order, the expectations that own a nonce, and of those only live ones, puts the new one with its two seconds and its minute last, and drops all but the newest four |
| EchoSteps.RetiredExactly | src/lib/ptyEcho.ts:37-47 | a cleanup turns an untouched owned probe into a late one until its minute is over, and otherwise writes out what was held and drops the expectation |
| EchoSteps.LateEchoIsHidden | src/lib/ptyEcho.ts:139-150 | the echo of a cleaned-up probe is still hidden within a minute of arming |
| EchoSteps.LaterEchoIsShown | src/lib/ptyEcho.ts:130-137 | after that minute it is shown as it came |
| EchoSteps.PartIsHeld | src/lib/ptyEcho.ts:139-156 | the beginning of a line is held with its callbacks and nothing is written; a cleaned-up head then waits two seconds or what is left of its minute |
| EchoSteps.ReplyEnds | src/lib/ptyEcho.ts:158-168 | a probe reply ends the expectations up to the one that owns its nonce and is passed on |
| EchoSteps.LifecycleEnds | src/lib/ptyEcho.ts:158-168 | a lifecycle signal ends an ordinary expectation and leaves an owned probe alone |
| EchoSteps.UnknownIsShown | src/lib/ptyEcho.ts:183-201 | a whole line that no expectation matches ends all of them and is shown as it came |
| EchoSteps.StringStops | src/lib/ptyEcho.ts:224-239 | a protocol string ends at its first BEL, CAN, SUB or ESC backslash, and its first 256 bytes decide whether the scan stops there |
| EchoSteps.StringGoesOn | src/lib/ptyEcho.ts:224-239 | bytes none of which ends it leave the string open |
| EchoShape.CsiKindExactly | src/lib/ptyEcho.ts:267-275 | which control sequences are modes, decoration or neither, as regular expressions |
| EchoShape.QueryExactly | src/lib/ptyEcho.ts:253-254 | which control sequences are queries, as a regular expression |
| EchoShape.LeadExactly | src/lib/ptyEcho.ts:241-256 | how long the control sequence at the front is that may pass before an echo |
| EchoShape.ReplyExactly | src/lib/ptyEcho.ts:230-231 | which strings are probe replies, and of which nonce |
| EchoShape.LifecycleExactly | src/lib/ptyEcho.ts:232-233 | which strings are lifecycle signals |
| EchoShape.NoisyExactly | src/lib/ptyEcho.ts:277-292 | a control occurs that no echo contains if and only if the bytes cannot be cut into admissible characters and sequences |
| EchoShape.StripExactly | src/lib/ptyEcho.ts:302-316 | the text divides into sequences and characters in the source's way; its visible text, its modes, each once and in order, and whether a sequence erases to the end are those of the parts |
| EchoShape.NormalizeExactly | src/lib/ptyEcho.ts:297-329 | a line has a normal form exactly when what is left of it is printable, and its text, modes and erasure are those of its parts |
| EchoFilter.EchoFilter.WritePtyOutput | src/lib/ptyEcho.ts:129-211 | feeding the mutable filter is the model's Feed |
| EchoFilter.EchoFilter.WriteAndContinue | src/lib/ptyEcho.ts:111-124 | writing a replacement and going on is the model's Continue; the mutual recursion ends because the queue shrinks |
| EchoFilter.EchoFilter.ForwardProtocol | src/lib/ptyEcho.ts:158-181 | passing leading protocol strings on is the model's Forward |
| EchoFilter.EchoFilter.MatchLine | src/lib/ptyEcho.ts:183-210 | matching one held line is the model's Match |
| EchoFilter.EchoFilter.ExpectPtyEcho | src/lib/ptyEcho.ts:52-91 | arming is the model's Expect |
| EchoFilter.EchoFilter.Sweep | src/lib/ptyEcho.ts:58-65 | removing candidates from a snapshot one by one leaves what the model's Evict leaves |
| EchoFilter.EchoFilter.RetireEcho | src/lib/ptyEcho.ts:37-47 | retiring is the model's Retire |
| EchoFilter.EchoFilter.CancelPtyEcho | src/lib/ptyEcho.ts:95-107 | cancelling is the model's Cancel |
| EchoFilter.LeadingProtocol | src/lib/ptyEcho.ts:217-258 | the byte loop is the model's Leading |
| EchoFilter.ScanNonEchoControl | src/lib/ptyEcho.ts:277-292 | the byte loop answers whether a control occurs that no echo contains |
| EchoFilter.StripSequences | src/lib/ptyEcho.ts:302-316 | the replacement pass with its shared padding budget |
| EchoFilter.NormalizeEcho | src/lib/ptyEcho.ts:297-329 | the normaliser as loops |
| ExecSafety.ExecutionSafety | src/lib/ptyExec.ts:421-457 | under every interleaving at most one run is unsettled, no run types more than one line or one probe, every line went in while remote identity, terminal object, buffer, row, cursor and stamps were those of a prompt that this run had seen, waited for and accepted in a named earlier event, every probe went in where it was permitted, and outcomes tell truly whether a line was typed |
| ExecHistory.PromptsAreTraced | src/lib/ptyExec.ts:650-762 | at every point of every run, each typed line and each prompt carried across the final claim goes back to the event in which that run accepted it, and that to the poll that saw it |
| ExecHistory.PreflightTouches | src/lib/ptyExec.ts:595-762 | a step before dispatch writes at most one thing: a line with the prompt just accepted or the one carried, or a probe with the remote identity, the attestation and the shell proof checked in that very step |
| ExecHistory.ProbeTouches | src/lib/ptyExec.ts:1526-1564 | the probe goes in only with the approved prompt unchanged, or without one only with a usable proof when attestation is required |
| ExecHistory.StartStarts | src/lib/ptyExec.ts:394-511 | a call adds one run, writes nothing, uses up the token it names once it holds the reservation, and gets an approved prompt only from a binding of this session that is at most thirty seconds old and still holds |
| ExecHistory.ApprovalIsFresh | src/lib/ptyExec.ts:215-225 | in every run of the system an approved prompt was visible at a capture of the token its call presents, at most thirty seconds before the start, untouched in between |
| ExecHistory.ApprovalIsOneShot | src/lib/ptyExec.ts:276-289 | no two calls are ever granted the same capture |
| ExecSafety.ControlBytes | src/lib/ptyExec.ts:991-1063 | at most one SIGINT from the user or three ladder keys, never both, none before the line |
| ExecSafety.ControlOnlyWhenAsked | src/lib/ptyExec.ts:991-1063 | a control byte follows only from the user's gesture on this command or the alternate screen |
| ExecSafety.FirstCompletion | src/lib/ptyExec.ts:1079-1089 | a reported completion is the first one observed, and after a user's interrupt only with the SIGINT write confirmed |
| ExecReports.ExitIsTheCommands | src/lib/ptyExec.ts:1119-1175 | over every run from the start: a reported exit code was carried by an event, the end of the block that was the first to start as the command's own, or the run's own token, and that was the first such event |
| ExecReports.CompletionIsReported | src/lib/ptyExec.ts:1079-1175 | and conversely such an event settles a live run on its exit code at once, unless a user's SIGINT is not yet confirmed, which keeps the first one back |
| ExecReports.ForeignStarts | src/lib/ptyExec.ts:1123-1146 | a block that is not the command's own is never bound; the first is counted and the second ends the wait with no exit code |
| ExecReports.JobEvolves | src/lib/ptyExec.ts:1091-1338 | a step binds a block, counts a foreign one or records a completion only by the event that says so |
| ExecEndings.EveryErrorHasItsReason | src/lib/ptyExec.ts:394-1338 | over every run from the start: whatever error is reported, the event that ended the run and the terminal at that moment are the reason that this error stands for |
| ExecEndings.LiveEnds | src/lib/ptyExec.ts:954-1338 | a live job ends with an error if and only if the table of reasons says so |
| ExecEndings.PreflightEnds | src/lib/ptyExec.ts:475-769 | before the line is typed a run ends only when an await is answered, with the error of its reason |
| ExecEndings.CallEnds | src/lib/ptyExec.ts:394-593 | a call is refused only with the error of its reason |
| ExecEndings.AbortEnds | src/lib/ptyExec.ts:346-368 | an abort ends a run if and only if it is the live one and the one named |
| ExecEndings.BeatCharges | src/lib/ptyExec.ts:1252-1280 | a due beat charges the time at a password prompt and says what the terminal is waiting for |
| ExecTyping.LineTypedExactly | src/lib/ptyExec.ts:650-805 | a step types the run's line if and only if the accepted or claimed prompt, the approval, the remote identity, the time left and the line itself allow it, and the job it starts has just those timers |
| ExecTyping.ProbeTypedExactly | src/lib/ptyExec.ts:1526-1564 | a step types the probe if and only if its prompt was waited for and the approval or the shell proof allows it, and it gets ten seconds or what is left |
| ExecTyping.ClaimsExactly | src/lib/ptyExec.ts:650-700 | the dispatch is claimed exactly when its prompt is accepted, the claim is still to be made and there is time |
| ExecTyping.CallExactly | src/lib/ptyExec.ts:394-593 | a call is turned down if and only if there is a reason; otherwise its run owns the session and claims the probe or waits |
| ExecTyping.ClaimedWaits | src/lib/ptyExec.ts:560-593 | a granted claim for the probe starts the wait for its prompt, unless something has changed |
| ExecTyping.AnsweredWaits | src/lib/ptyExec.ts:1566-1588 | an answered probe starts the wait for the command's prompt, unless somebody has typed |
| ExecTyping.PollExactly | src/lib/ptyExec.ts:1634-1676 | how each look at the terminal ends or continues a wait |
| ExecTyping.GestureSends | src/lib/ptyExec.ts:991-1012 | the gesture sends one SIGINT with a second to be delivered, and nothing when an interrupt is under way |
| ExecTyping.DeliveryArms | src/lib/ptyExec.ts:1014-1032 | a delivered SIGINT reports the completion kept back, or leaves a second of grace |
| ExecTyping.LadderClimbs | src/lib/ptyExec.ts:1041-1063 | the ladder's keys follow each other after four tenths of a second while the alternate screen is there, three at most |
| ExecTyping.AbortStops | src/lib/ptyExec.ts:346-368 | while no job is live an abort that names the reservation, or names nothing, stops the run that owns it: its claims are refused, its probe is lost, and nothing else changes |
| ExecTyping.PromptProves | src/lib/ptyExec.ts:1448-1466 | a prompt that follows an answered probe proves the shell as of now, for this keyboard and this remote |
| ExecTyping.Bindings | src/lib/ptyExec.ts:215-256 | what can be attested is captured exactly as it is now, and lasts until released |
| ExecSafety.OneOutcome | src/lib/ptyExec.ts:807-840 | a settled run never changes its outcome |
| ExecSafety.StepSafe | src/lib/ptyExec.ts:394-1338 | every step keeps exclusion, evidence, counts and the interrupt protocol |
| ExecSafety.DispatchMoves | src/lib/ptyExec.ts:718-769 | the step that types the line rechecks everything and types it at most once |
| ExecSafety.StartSafe | src/lib/ptyExec.ts:394-457 | starting reserves the session for one run or refuses, and keeps it safe |
| ExecSafety.AbortSafe | src/lib/ptyExec.ts:346-368 | aborting a live or a preflight run keeps the session safe |
| ExecSafety.ClosedAfterTyping | src/lib/ptyExec.ts:1711-1720 | a run whose line was typed and whose outcome says nothing was executed |
| ExecSafety.NoteExactly | src/lib/ptyExec.ts:1711-1720 | when a run settles with a note that nothing was executed, no line was handed to the PTY if and only if the session had no live job of this run just before |
| ExecTime.BoundedSettlement | src/lib/ptyExec.ts:1316-1338 | an unsettled run is within its timeout plus fifteen seconds of its start, and within two seconds of a user's interrupt |
| ExecTime.TimersSettle | src/lib/ptyExec.ts:954-989 | the reporting cap, the delivery timer and the grace timer settle the run when they fire |
| ExecTime.TimersArePassive | src/lib/ptyExec.ts:1282-1314 | no timer writes or interrupts, and a timeout is reported only when the unpaused time or the cap has passed |
| ExecTime.TimeGoesOn | src/lib/ptyExec.ts:1238-1338 | from every reachable state finitely many due timers and answered awaits let the clock move on, so the bound on settlement is never met by a stuck clock |
| ExecTime.StepTimed | src/lib/ptyExec.ts:495-1338 | every step keeps the timing invariant, password pauses and re-armed deadlines included |
| ExecJob.LiveJob.Finish | src/lib/ptyExec.ts:807-840 | only the first call settles |
| ExecJob.LiveJob.InterruptByUser | src/lib/ptyExec.ts:991-1034 | the user's interrupt is the step system's |
| ExecJob.LiveJob.InterruptByScreen | src/lib/ptyExec.ts:1037-1040 | the alternate screen's interrupt is the step system's |
| ExecJob.LiveJob.SigintAnswered | src/lib/ptyExec.ts:1014-1032 | the answer to the SIGINT write is the step system's |
| ExecJob.LiveJob.ClimbLadder | src/lib/ptyExec.ts:1041-1061 | one rung of the ladder is the step system's |
| ExecJob.LiveJob.SettleAuthoritativeCompletion | src/lib/ptyExec.ts:1079-1089 | a completion is buffered or reported as the step system says |
| ExecJob.LiveJob.OnBlockStart | src/lib/ptyExec.ts:1123-1142 | binding by command text, or two foreign blocks |
| ExecJob.LiveJob.OnToken | src/lib/ptyExec.ts:1156-1175 | a completion token renews the proof and completes |
| ExecJob.LiveJob.OnRefresh | src/lib/ptyExec.ts:1252-1280 | the refresh charges password time and reclassifies |
| ExecJob.LiveJob.OnTimer | src/lib/ptyExec.ts:1238-1338 | the five timers are the step system's |
| ShellSentinel.TopLevelSuffix | src/lib/ptyExecShell.ts:64-68 | for every accepted command and nonce the scan of command and suffix succeeds and the suffix is read in the outermost scope |
| ShellSentinel.SuffixKeepsSafe | src/lib/ptyExecShell.ts:263-273 | the line that is typed is itself accepted by the check |
| ShellScan.ScanThrough | src/lib/ptyExecShell.ts:290-471 | text after a complete command changes nothing in how the command is read, and is read outside every context |
| ShellScan.State.OpenArithmetic | src/lib/ptyExecShell.ts:354-367 | the double push keeps the rule that outside all contexts the scope is the outermost |
| ShellScanner.ScanShellStructure | src/lib/ptyExecShell.ts:290-471 | the scanner with mutable scopes and contexts is the step function |
| ShellScanner.Scanner.Plain | src/lib/ptyExecShell.ts:379-467 | one character outside quotes, every branch |
| ShellScanner.Scanner.Unquoted | src/lib/ptyExecShell.ts:417-467 | comments, background operators, groups and braces, every branch |
| ShellScanner.Scanner.Quoted | src/lib/ptyExecShell.ts:335-377 | one character inside double quotes |
| ShellPieces.ScanExactly | src/lib/ptyExecShell.ts:290-476 | the scanner accepts a text with these scopes if and only if the text is made of pieces of shell text with these scopes: no comment, no background job, no stray or missing closing |
| ShellGrammar.CompleteExactly | src/lib/ptyExecShell.ts:519-619 | accepted word lists are exactly those without empty parentheses or an open test whose keywords derive from the control grammar |
| ShellGrammar.AcceptsExactly | src/lib/ptyExecShell.ts:537-617 | the frame automaton accepts exactly the derivable keyword lists |
| ShellGrammar.NothingRefused | src/lib/ptyExecShell.ts:567-574 | no derivation contains a refused word |
| ShellGrammar.HasCompleteControlGrammar | src/lib/ptyExecShell.ts:524-619 | the loop over words decides it |
| ShellGrammar.ReadKeywords | src/lib/ptyExecShell.ts:531-619 | the loop over command positions and open frames |
| ShellSentinel.HasCompleteTail | src/lib/ptyExecShell.ts:479-517 | the trailing-operator gate as a loop |
| ShellTail.TailExactly | src/lib/ptyExecShell.ts:479-517 | a scope passes if and only if no lone ampersand backgrounds a command and its last deciding character is no operator, nor a semicolon unless nested or closed |
| ShellTail.WordsExactly | src/lib/ptyExecShell.ts:524-530 | the words are the matches of the word pattern |
| ShellTail.PlaceExactly | src/lib/ptyExecShell.ts:531-619 | which words stand where a command begins, and which within a test |
| ShellTail.KeywordExactly | src/lib/ptyExecShell.ts:537-617 | the reserved words and the refused ones |
| ShellSafe.SentinelExactly | src/lib/ptyExecShell.ts:263-273 | a command may have a suffix appended if and only if it has no control character, no heredoc and no final backslash, and is made of pieces each of whose scopes ends with a command and whose reserved words are the yield of a script |
| ShellTokens.SuffixIs | src/lib/ptyExecShell.ts:64-68 | the suffix, literally, for both dialects |
| ShellTokens.SuffixAnswers | src/lib/ptyExecShell.ts:64-68 | what printf makes of the suffix's format is a private sequence that is parsed as the completion of this nonce with that exit code |
| ShellTokens.DoneExactly | src/lib/ptyExecShell.ts:622-652 | a payload is parsed as a completion if and only if it is the canonical text of that exit code, at most 255, and nonce |
| ShellTokens.AnswerExactly | src/lib/ptyExecShell.ts:622-656 | a payload is parsed as a probe's reply if and only if it is that nonce with the three values behind their letters |
| ShellQuoting.PrefixRoundTrip | src/lib/ptyExecShell.ts:121-142 | tokenizing the prefixed line gives env, the assignments, the child shell and the command, complete and not compound |
| ShellQuoting.QuotingRoundTrip | src/lib/ptyExecShell.ts:136-136 | decoding a quoted string gives it back |
| ShellQuoting.SplitCommand | src/lib/nesting.ts:275-314 | the splitter's loop |
| ShellQuoting.PrefixExactly | src/lib/ptyExecShell.ts:121-142 | which assignments are refused, the first refused one deciding the error, and when the line is too long |
| ShellWords.SplitExactly | src/lib/nesting.ts:275-314 | the words of a command, whether its quotes are closed and whether it is compound, read off the atoms that spell it |
| AttachTrips.FoldSplit | src/lib/attachInput.ts:548-563 | splitting undoes folding: the trimmed prompt and exactly the attachments, none truncated |
| AttachTrips.FoldSplitExactly | src/lib/attachInput.ts:371-388 | it does so for every attachment list if and only if no label line of the prompt is followed by a fence |
| AttachTrips.FoldStrip | src/lib/attachInput.ts:404-479 | stripping undoes folding of retrieved passages and counts them |
| AttachTrips.FoldStripExactly | src/lib/attachInput.ts:404-428 | it does so for every list of hits if and only if the prompt has no doc block and no unterminated block |
| AttachTrips.PassagesFit | src/lib/attachInput.ts:440-479 | the passages total at most the budget and each is a beginning of its hit that is not blank |
| AttachTrips.SanitizedIsHarmless | src/lib/attachInput.ts:278-290 | a label field cannot end its label, start a fence or a line, and stays within 160 bytes |
| AttachTrips.BuildOutgoing | src/lib/attachInput.ts:548-563 | the loop builds the folded prompt and the images |
| AttachTrips.FoldRetrievedPassages | src/lib/attachInput.ts:440-479 | the loop folds the passages that fit |
| AttachFold.ScanPart | src/lib/attachInput.ts:317-359 | scanning where a part stands finds exactly that part |
| AttachFold.FenceHolds | src/lib/attachInput.ts:235-238 | no line of a text is as long a fence as the one around it |
| AttachParts.ContentExactly | src/lib/attachInput.ts:371-428 | for any content: its lines divide into prose and folded blocks in the one way the labels and fences allow; splitting gives the prose and the blocks, stripping what is left without the documents and their number |
| AttachParts.BlocksExactly | src/lib/attachInput.ts:317-359 | a block is found exactly where a label is followed by a fence, and it ends at the next fence of the same length or, truncated, at the end |
| AttachLabels.LabelExactly | src/lib/attachInput.ts:292-295 | the three label patterns: names as long or as short as the expressions match them |
| AttachCites.FieldExactly | src/lib/attachInput.ts:278-290 | what becomes of each character of a label field, and that only the end is cut off |
| AttachCites.CitationExactly | src/lib/attachInput.ts:456-476 | what a passage's label says of its page, heading, file and collection, and when it is read back so |
| AttachCites.PassagesExactly | src/lib/attachInput.ts:440-479 | which passages are folded and how much of each, until one is blank or the budget is used up |
| AttachCites.ImagesExactly | src/lib/attachInput.ts:548-563 | the images sent are those with data, in order |
| AttachCites.TranscriptSplit | src/lib/attachInput.ts:504-536 | splitting undoes the folding of image transcripts |
| Attach.ScanFoldedBlock | src/lib/attachInput.ts:317-359 | the scan for the closing fence as a loop |
| Attach.SplitFoldedBlocks | src/lib/attachInput.ts:371-388 | the splitting loop |
| Attach.StripDocBlocks | src/lib/attachInput.ts:404-428 | the stripping loop |
| FitText.FitUtf8 | src/lib/attachments.ts:226-241 | the shrinking loop |
| FitText.FitStart | src/lib/attachments.ts:226-241 | keeping the beginning fits, is a prefix, and cuts only what is too long |
| FitText.FitKeeps | src/lib/attachments.ts:226-241 | what fits is kept whole, and what is cut is cut to the limit's units or to nine tenths of a length that was still too long |
| FitText.EncodedLength | src/lib/attachments.ts:226-232 | what the fitting measures is the number of bytes of the UTF-8 encoding |
| FitText.FitEndExactly | src/lib/attachments.ts:226-241 | keeping the end fits if and only if the last unit alone does |
| FitText.FitEndTooSmall | src/lib/attachments.ts:234-239 | a text that comes back whole although it is too long |
| Glob.TrueIsMatch | src-tauri/src/ssh_config.rs:251-276 | a true answer is a real match |
| Glob.NoStarsFound | src-tauri/src/ssh_config.rs:251-276 | every match is found in texts without a star |
| Glob.AgreesExactly | src-tauri/src/ssh_config.rs:257-263 | the matcher agrees with every pattern if and only if the text has no star |
| Glob.GlobMatches | src-tauri/src/ssh_config.rs:251-276 | the loop with one remembered star, ending by a lexicographic measure |
| SshConfig.BlockIsolation | src-tauri/src/ssh_config.rs:30-105 | parsing lines before and after a block boundary separately gives the same hosts and includes |
| SshConfig.FirstValueWins | src-tauri/src/ssh_config.rs:76-96 | later lines never change a field that is set, an alias, or drop a host |
| SshFields.MeansExactly | src-tauri/src/ssh_config.rs:107-116 | which keyword and value a line has |
| SshFields.WordsExactly | src-tauri/src/ssh_config.rs:118-147 | the words of a value are what its quoted and unquoted pieces spell |
| SshFields.HostBlock | src-tauri/src/ssh_config.rs:48-100 | a Host line and the lines of its block add one host for each concrete alias, in order; each of its fields is the first word of the first line that gives it one, the port the first that is a number up to 65,535 |
| SshFields.SkippedBlock | src-tauri/src/ssh_config.rs:49-78 | after a Match or a Host of patterns alone no host changes |
| SshFields.PortExactly | src-tauri/src/ssh_config.rs:89-94 | which words are ports |
| SshFields.IncludesListed | src-tauri/src/ssh_config.rs:74-77 | the includes are the words of the Include lines, in order |
| SshFields.HostsListed | src-tauri/src/ssh_config.rs:162-203 | the hosts of several files are listed one file after the other |
| SshConfig.ParseLines | src-tauri/src/ssh_config.rs:30-105 | the parsing loop |
| SshConfig.Tokenize | src-tauri/src/ssh_config.rs:118-147 | the word loop |
| SshConfig.ScanFiles | src-tauri/src/ssh_config.rs:150-203 | the files read are those of the specification, the entry first; each lies inside the ssh directory and is read once, at most 64, and the hosts are theirs in order |
| SshGraph.ScanReads | src-tauri/src/ssh_config.rs:162-200 | every file read is reached from the entry over as many includes as its depth, at most three, and below 64 files every include of a file at a lesser depth is read |
| SshGraph.ReadInFull | src-tauri/src/ssh_config.rs:162-200 | with fewer than 64 files within three includes of the entry, all of them are read when no file that includes something is both within two includes and at the end of a chain of three through different files |
| SshGraph.ReadInFullByClearWays | src-tauri/src/ssh_config.rs:162-200 | more finely, all of them are read when each has one way to it through files that are not at the end of such a chain |
| SshGraph.FollowedExactly | src-tauri/src/ssh_config.rs:185-200 | a file that only one other includes, itself surely read within two includes, is read in every order of the include lines and directory listings if and only if no chain of three includes through different files ends at that other file |
| SshGraph.MissedInSomeOrder | src-tauri/src/ssh_config.rs:185-200 | otherwise some reordering of the same includes misses it |
| SshGraph.DeepIsLongWay | src-tauri/src/ssh_config.rs:162-200 | a file is read at depth three only at the end of a chain of three includes through different files |
| SshGraph.DeepFirst | src-tauri/src/ssh_config.rs:185-200 | five files of which one, two includes from the entry, is not read; they fail the condition of ReadInFull |
| SshConfig.QuotedRoundTrip | src-tauri/src/ssh_config.rs:117-147 | splitting words that were put in double quotes gives them back, whatever blanks they hold |
| Highlight.Lossless | src/lib/markdownHighlight.ts:240-279 | the tokens join to the source, none is empty, neighbours differ in kind, and merging recolours nothing |
| Highlight.InlineLossless | src/lib/markdownHighlight.ts:121-192 | the pieces of an inline text join to it |
| Highlight.PushAllKeeps | src/lib/markdownHighlight.ts:72-83 | the sink keeps every character with its kind |
| HighlightShape.TokensExactly | src/lib/markdownHighlight.ts:121-279 | every character gets the kind that the patterns give it: fences, headings, rules, quotes, lists, tasks, code, links and emphasis, with equal neighbours merged |
| HighlightSink.TokenizeMarkdown | src/lib/markdownHighlight.ts:240-279 | the tokenizer over a mutable sink is the specified one, and lossless |
| HighlightSink.ScanInline | src/lib/markdownHighlight.ts:121-192 | the index loop that recurses through the same sink, on shorter text |
| HighlightSink.FindClosingTicks | src/lib/markdownHighlight.ts:95-104 | the search for a run of exactly as many ticks |
| HighlightSink.FindClosingDelimiter | src/lib/markdownHighlight.ts:107-119 | the search for a closing delimiter |
| HighlightSink.Sink.Push | src/lib/markdownHighlight.ts:76-81 | empty texts are dropped and equal neighbours merged in place |
| Protection.MarkdownProtection | src/lib/markdownProtection.ts:188-265 | the index answers for exactly the recorded ranges |
| Protection.Index.IsProtected | src/lib/markdownProtection.ts:252-262 | the binary search is true exactly when some recorded range contains the offset |
| Protection.MergedRanges | src/lib/markdownProtection.ts:168-182 | sorted ranges with strict gaps covering the same offsets |
| Protection.LinesTile | src/lib/markdownProtection.ts:139-158 | the lines tile the content and leave out only line endings |
| Protection.RecordedWithin | src/lib/markdownProtection.ts:188-246 | every recorded range goes forward and lies within the content |
| ProtectionSpans.RecordedExactly | src/lib/markdownProtection.ts:188-247 | what is recorded as code: the lines of each fenced block, from an opening line up to the first line that closes it, and the inline spans outside |
| ProtectionSpans.FencedExactly | src/lib/markdownProtection.ts:193-216 | which lines are fenced |
| ProtectionSpans.InlineExactly | src/lib/markdownProtection.ts:218-246 | a span runs from an unescaped run of ticks to the end of the next run of exactly as many, or to the next fence or the end of the text |
| ProtectionShape.OpeningExactly | src/lib/markdownProtection.ts:28-103 | which lines open a fence, behind which list and quote prefixes |
| ProtectionShape.ClosesExactly | src/lib/markdownProtection.ts:105-137 | which lines close it: the same character, at least as many, nothing but blanks behind |
| Protection.SourceLines | src/lib/markdownProtection.ts:139-158 | the line loop |
| Protection.FlagFences | src/lib/markdownProtection.ts:193-216 | the fence pass |
| Protection.CollectInline | src/lib/markdownProtection.ts:218-246 | the inline pass |
| Walk.CollectTree | src-tauri/src/windows_fs.rs:1035-1115 | the explicit stack succeeds exactly when there are at most max descendants, with the recursive enumeration sorted |
| Walk.WalkIsEnumeration | src-tauri/src/windows_fs.rs:1107-1114 | the result has every descendant once, ordered by depth and path, each directory before its contents |
| Walk.EnumerateExactly | src-tauri/src/windows_fs.rs:1035-1115 | an entry is enumerated if and only if the tree has it at that path |
| Walk.OrderExactly | src-tauri/src/windows_fs.rs:1107-1114 | of two paths of the same depth the one with the smaller name where they part goes first |
| BlockModel.ScopeNonInterference | src/lib/osc133.ts:112-182 | once a scope is bound, any stream has the effect of that scope's accepted events alone |
| BlockModel.BlocksEndOnce | src/lib/osc133.ts:210-265 | each block number is ended at most once, while it is the latest opened |
| BlockModel.EndsTheLatest | src/lib/osc133.ts:210-265 | every block end ends the block opened last, which nothing has ended since |
| BlockMarks.EndsReport | src/lib/osc133.ts:218-258 | every reported block end comes from a mark: a D with its exit code, 0 when it has none, or an A while the command runs, with 0 |
| BlockMarks.StartsReport | src/lib/osc133.ts:233-247 | every reported block start comes from a C, with the next number and the command sent for it or else the one on the screen |
| BlockMarks.MarkActs | src/lib/osc133.ts:210-265 | what each of the four marks does, and that no other does anything |
| BlockMarks.OthersAct | src/lib/osc133.ts:112-182 | what every other event tells and remembers |
| BlockMarks.ParsesExactly | src/lib/osc133.ts:162-164 | which payloads are shell events, and what they say |
| BlockMarks.PristineExactly | src/lib/osc133.ts:152-154 | the input is pristine since the last B until something that is no reply is typed |
| BlockModel.ScopeBinds | src/lib/osc133.ts:73-83 | with an expected scope no other can bind, and nothing public happens before it does |
| BlockModel.FreshWaits | src/lib/osc133.ts:73-83 | setting a scope on a fresh tracker starts the wait that ScopeBinds is about |
| BlockTracker.Tracking.HandleMark | src/lib/osc133.ts:210-265 | the semantic marks update the tracker in place |
| BlockTracker.Tracking.HandleShellEvent | src/lib/osc133.ts:162-182 | scoped events update the tracker in place |
| BlockTracker.Tracking.OnOsc6973 | src/lib/osc133.ts:132-147 | the private channel's handler |
| BlockTracker.Tracking.MatchesShellScope | src/lib/osc133.ts:30-37 | the comparison that looks at every position is equality |
| SingleFlight.OnePreparation | src-tauri/src/windows_terminal.rs:43-87 | at most one preparation is unfinished, every caller gets a result for its own flag, and a ready result is not recomputed until the other flag replaces it |
| SingleFlight.ResultsStay | src-tauri/src/windows_terminal.rs:61-69 | a finished attempt keeps its result |
| SingleFlight.LockDecides | src-tauri/src/windows_terminal.rs:52-84 | when a caller starts a preparation, shares the last one, or waits for it and tries again |
| SingleFlight.Cache.Locked | src-tauri/src/windows_terminal.rs:52-84 | the locked section is the step system's |

## Left out

- The rest of the repository: IPC, React, stores, xterm internals, model providers, update and relay plumbing.
- Two terminals sharing an echo filter's module state: the filter keeps one queue per terminal and they do not interact.
- Invalid UTF-8 and surrogate handling of TextDecoder, which the echo theorems leave to an arbitrary decoder.
- `runInTerminal` before dispatch in mutable form: preflight is modelled as steps over values, because it is a chain of awaits; the Job closure is also a class.
- What a run captures of the terminal's output, its markers and trimming: harvest, start anchors, private output and card texts.
- Several sessions at once: the module's maps are keyed by session and the steps of two sessions do not touch.
- The order in which the operating system sorts environment names before they are printed: entries come in any order.
- The text of hardenCommand, suppressPrivateOutput and probeFor.
- assemblePdfBody, which bounds its pages by the same fitting function.
- Format characters outside the first plane in label fields: the set of format units is a parameter.
- Expansion of include patterns against directories, beyond the glob itself: the files a pattern names are a parameter of the scan.
- Native calls, access control and reparse checks of the directory walk, the entry-offset loop and absolute_lexical: every entry opens, and names are numbers in the system's order.
- The library sorts of the walk and of the protected ranges: both are modelled by insertion, which is also stable.
- Clipboard isolation, trimmed blocks and markers of the prompt tracker.
- WSL preparation itself: an attempt is something that starts once and finishes with a result.
