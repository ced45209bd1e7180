# Archangel: admission protocol, guards, audit chain and text algorithms

A Dafny model of the parts of Archangel that decide whether an action proposed by a
language model may run, and that keep the evidence of it. `dafny verify dfyconfig.toml`
checks everything.

## What is modelled

* **Daemon and executor together** (`Wire`, `Execd`, `ExecdRuns`, `ExecutorLaws`, `CeilingLaws`, `Authenticity`,
  `SafeNames`, `Digest`, `Daemon`, `Protocol`, `ApprovalTable`, `AuditOrder`, `Agreement`, `Overtaking`, `Supplied`, `Binding`,
  `Authority`, `Record`). The session signs
  frames with a growing number; the orchestrator sends a signed frame at once or keeps it
  in a bounded, expiring, single-use table until it is approved; the executor runs its
  gates in order over two stateful guards. Both sides are classes whose methods are proved
  equal to step functions on values; a run is any sequence of steps (an operator
  task with whatever the model answers, an approval, a rejection, the redelivery of any frame), and the theorems are about all runs.
  An audit append may fail at any point of a step, a frame or its reply may be lost, and
  all ids, nonces, clock readings, snapshot and cgroup results are inputs of the step.
* **Guards with fast forms** (`Replay`, `RateLimit`, `Cooldown`): bounded or pruned state,
  each proved to answer like a guard that remembers its whole history.
* **Audit chain** (`Hex`, `Utf8`, `LineSplit`, `Audit`, `AuditEvidence`, `AuditWriter`, `AuditFailures`,
  `AuditedRuns`): the
  verifier on the bytes of a log, the writer with a sink that may tear or repeat a line,
  and what equal heads prove. Freedom from collisions is never assumed: a theorem that
  needs it ends in "or here are two different inputs with one hash".
* **Text and paths** (`Tailer`, `Prompt`, `PathNorm`, `Denylist`, `WildcardRules`, `Policy`,
  `Text`, `Limits`, `Mounts`): the incremental log tailer, prompt fencing, lexical path
  normalization and the rules of the denylist, limit parsing, and the search of
  the mount table.

Ed25519, SHA-256, CBOR, JSON, regular expressions, bundle verification and argument
schemas are parameters. The laws a theorem needs of them (decoding undoes encoding, a
signature of one's own verifies, JSON of distinct maps is distinct, beginnings of JSON
objects put together are no object unless a single whole one) are preconditions of that
theorem, written as the predicates `Sound`, `SoundCodec`, `SelfDelimiting`,
`SoundSignatures`, `InjectiveCanonical` and `SoundJson`.

## What the proofs found

* A frame that waits for approval while the executor admits a later number of the session
  can never run any more, whichever step brought the later number: every approval of it is
  refused at the Replay stage for good (`Overtaking.OutOfOrderNeverRuns`). So when of two
  actions of an interactive session the one signed second is approved first, the first is
  lost although it is in time and otherwise allowed (`Overtaking.SecondApprovedFirst`,
  `Overtaking.FirstIsRefusedAtOnce`). An approval that goes through is refused there if and
  only if its frame is overtaken or its nonce remembered
  (`Overtaking.ApprovalRefusedIffOvertaken`).
* The comment at `crates/archangel-execd/src/handler.rs:186-188` says that only actions that
  would run consume rate budget. The code also consumes it when an otherwise admissible
  request then lacks its recovery point, its sandbox plan or its cgroup, and in no other
  case without a run (`ExecdRuns.BudgetSpentInVain`; by `ExecdRuns.BudgetCanBeWasted` every
  site has such a step as soon as one of its bundles cannot run).
* Writer and verifier agree after a run of appends if and only if no failed commit left a
  byte behind (`AuditFailures.AgreementIffClean`). The comment at
  `crates/archangel-audit/src/verify.rs:46-48` says that a truncated final line is reported;
  a line that lost only its newline is accepted as an entry the writer does not count
  (`AuditFailures.VerdictAfterOneFailure`). Once an append succeeds after such a failure,
  the log is rejected for good (`AuditFailures.RejectedForGood`).
* Every nonempty prefix of an accepted log is accepted, so truncation shows only against a
  known head (`AuditEvidence.PrefixIsAccepted`); the head then determines every record
  (`AuditEvidence.SameHeadSameChain`).
* Two kinds of alert share a cooldown key when a trigger's name holds a comma
  (`Cooldown.FingerprintsCanCollide`); without commas in names and bars in paths they do not
  (`Cooldown.FingerprintMeaning`).
* A critical bundle never runs at all: policy always asks for two persons, and the daemon
  refuses such approvals (`Authority.NothingRunsUnapproved`).

## Model

| member | source | states |
|---|---|---|
| Replay.ReplayGuard.Admit | crates/archangel-execd/src/replay.rs:54-79 | The bounded guard decides as the specification over the full history does, extends that history exactly on admission, leaves all state untouched on refusal, and never remembers more than 4096 nonces |
| Replay.RunKeepsOrder | crates/archangel-execd/src/replay.rs:54-79 | In every run the admitted numbers of a session strictly increase and no nonce repeats within 4096 consecutive admissions |
| Replay.AdmittedNeverAgain | crates/archangel-execd/src/replay.rs:58-63 | Once a number is admitted, the same or a lower number of that session is stale after any continuation |
| Replay.DecideMeaning | crates/archangel-execd/src/replay.rs:54-79 | Refused are exactly the numbers not above every admitted one of the session, and the nonces among the last 4096 admitted, the number named first |
| Replay.SlidingSet | crates/archangel-execd/src/replay.rs:69-77 | The nonce set stays equal to the elements of the queue through append and eviction |
| Replay.CommitShiftsWindow | crates/archangel-execd/src/replay.rs:69-77 | The queue is always exactly the nonces of the most recent admissions |
| RateLimit.RateLimiter.TryAdmit | crates/archangel-execd/src/ratelimit.rs:143-161 | With lazily pruned deques the verdict, down to the ceiling named, is that of counting the whole admission history |
| RateLimit.Window.Prune | crates/archangel-execd/src/ratelimit.rs:96-105 | Exactly aged-out hits are dropped, from the front, and only live ones remain |
| RateLimit.Window.IsFull | crates/archangel-execd/src/ratelimit.rs:108-111 | After pruning, the length of the deque is the number of live admissions in the full history |
| RateLimit.RunWithinCeilings | crates/archangel-execd/src/ratelimit.rs:86-161 | On a monotone clock every half-open interval of one horizon holds at most the configured number of total, mutating and critical admissions |
| RateLimit.BurstAfterAdmission | crates/archangel-execd/src/ratelimit.rs:143-161 | One more admission below a ceiling keeps every interval within it, wherever the interval starts |
| RateLimit.RefusalsLeaveNoTrace | crates/archangel-execd/src/ratelimit.rs:143-161 | Erasing every refused call from a trace leaves the same admissions |
| RateLimit.LaterVerdictsUnchanged | crates/archangel-execd/src/ratelimit.rs:143-161 | Erasing refused calls changes no later verdict, after any continuation |
| RateLimit.PrunedLengthIsLive | crates/archangel-execd/src/ratelimit.rs:96-111 | A pruned suffix of the history has the length of the live count over all of it |
| CeilingLaws.RunKeepsCeilings | crates/archangel-execd/src/ratelimit.rs:34-35 | Over every run on a monotone clock any 60,000,000,000 ns hold at most the configured number of admissions and of mutating ones, and any 3,600,000,000,000 ns of critical ones |
| CeilingLaws.DecideByCounting | crates/archangel-execd/src/ratelimit.rs:143-161 | A call is shed, and the ceiling named, exactly when the trailing minute or hour of the whole history holds that many admissions of its kind |
| CeilingLaws.RunnerKeepsCeilings | crates/archangel-execd/src/handler.rs:385-403 | The same bounds on runner calls, by the bundle's read-only flag and critical risk, whatever the daemon sends |
| CeilingLaws.ShedByCounting | crates/archangel-execd/src/handler.rs:385-403 | A request is over its rate exactly when that many admissions of its kind are that recent |
| Cooldown.CooldownGate.Admit | crates/archangeld/src/monitor.rs:371-380 | The pruning gate answers as one that never forgets, and holds exactly the keys live before the call plus the one it admits |
| Cooldown.CooldownGate.Prune | crates/archangeld/src/monitor.rs:383-387 | Exactly the keys whose cooldown has elapsed are dropped |
| Cooldown.RunIsSpaced | crates/archangeld/src/monitor.rs:371-387 | Over every run on a monotone clock, firings of one key are at least a window apart |
| Cooldown.PollActionable | crates/archangeld/src/autoloop.rs:76-84 | A poll hands on exactly the alerts that the never-forgetting gate lets through, in order |
| Cooldown.ActionableAreTheFirings | crates/archangeld/src/autoloop.rs:76-84 | The alerts handed on are exactly the firings added to the history |
| Cooldown.ActionablePicks | crates/archangeld/src/autoloop.rs:76-84 | What is handed on are the alerts seen, each as it was, in order: exactly those not held back at their turn |
| Cooldown.PollsAreSpaced | crates/archangeld/src/autoloop.rs:39-85 | Over any run of polls two actionable alerts with one fingerprint are at least a window apart |
| Cooldown.SuppressedMeaning | crates/archangeld/src/monitor.rs:371-380 | An alert is held back exactly while one of its key fired less than a window before |
| Cooldown.FingerprintMeaning | crates/archangeld/src/autoloop.rs:39-45 | Alerts share a key exactly if they come from one source and fired the same triggers in order, for sources without a bar and trigger names without a comma |
| Cooldown.FingerprintsCanCollide | crates/archangeld/src/autoloop.rs:39-45 | Two alerts of one source with different triggers and one key |
| LineSplit.LinesThenRest | crates/archangeld/src/monitor.rs:152-166 | Splitting loses nothing: lines with their newlines and the unterminated rest make up the file |
| LineSplit.LinesUnique | crates/archangeld/src/monitor.rs:152-166 | It is the only way to cut a file into newline-free lines and a newline-free rest |
| LineSplit.LinesAfter | crates/archangeld/src/monitor.rs:149-182 | Reading on at the byte length of the first n lines yields exactly the other lines |
| LineSplit.StripIsBare | crates/archangeld/src/monitor.rs:164-169 | What is left of a line is the line without its last byte if that is 13, and otherwise the line |
| LineSplit.CrlfLines | crates/archangeld/src/monitor.rs:152-169 | The copy of a file with a carriage return before every newline has the same lines with one each, and the same rest |
| Tailer.LogTailer.constructor | crates/archangeld/src/monitor.rs:98-105 | Watching starts at the current length, or at 0 for a missing file |
| Tailer.LogTailer.Poll | crates/archangeld/src/monitor.rs:134-182 | A poll emits one event for each of the next complete lines up to the cap, each the line without a last byte 13, cut to the length cap and marked exactly if cut; it moves the offset by exactly their bytes, and never past the length seen, also after the file has shrunk |
| Tailer.RunStaysInStep | crates/archangeld/src/monitor.rs:134-182 | In every interleaving of appends and polls what was emitted is a prefix of the plain split of the file, and the offset is the byte length of that prefix |
| Tailer.RunEmitsTheLines | crates/archangeld/src/monitor.rs:134-182 | Over every run of appends and polls the i-th event is that of the i-th line, byte by byte |
| Tailer.CrlfCopyEmitsTheSame | crates/archangeld/src/monitor.rs:164-169 | Read whole, a file and its copy with carriage returns give the same events |
| Tailer.PollsProgress | crates/archangeld/src/monitor.rs:134-182 | After k polls the count of emitted lines has grown by k caps, or has reached all complete lines |
| Tailer.EnoughPollsEmitEverything | crates/archangeld/src/monitor.rs:134-182 | With a positive cap, as many polls as there are lines emit every complete line once, in order |
| Tailer.RunStaysInEpoch | crates/archangeld/src/monitor.rs:141-182 | Over every run of appends, replacements and polls, emission since the first poll after the last replacement is in step with the new file, from 0 if that poll found it shorter than the offset, and otherwise from the offset |
| Tailer.ShorterFileIsReadWhole | crates/archangeld/src/monitor.rs:141-182 | After a truncation the poll notices, enough polls emit every complete line of the new file, once, in order |
| Hex.Encode | crates/archangel-audit/src/hex.rs:16-24 | The loop prints two lowercase digits a byte |
| Hex.Decode | crates/archangel-audit/src/hex.rs:27-51 | The loop with its early exits computes the pairwise decoding: odd length and any bad digit fail |
| Hex.DecodeEncode | crates/archangel-audit/src/hex.rs:16-62 | Decoding undoes encoding |
| Hex.EncodeDecode | crates/archangel-audit/src/hex.rs:16-62 | Encoding a decoded text gives it back in lower case, so text is determined up to case only |
| Hex.NibbleMeaning | crates/archangel-audit/src/hex.rs:53-62 | A digit is read by its place in the alphabet, in either case, and nothing else is one |
| Hex.EncodedPointwise | crates/archangel-audit/src/hex.rs:16-24 | Two lowercase digits a byte, the high half first |
| Utf8.Utf8Meaning | crates/archangel-audit/src/verify.rs:59-60 | The lines the reader takes are exactly the encodings of code points |
| Utf8.BlankMeaning | crates/archangel-audit/src/verify.rs:61-63 | Blank are exactly the texts of white space code points |
| Audit.GenesisIsZeros | crates/archangel-audit/src/entry.rs:31 | The first entry is chained onto 64 zeros |
| Audit.ReadLinesAreBare | crates/archangel-audit/src/verify.rs:59-60 | What the reader takes is each line without a last byte 13, and the unterminated rest as it is |
| Audit.CrlfCopyReadsTheSame | crates/archangel-audit/src/verify.rs:59-60 | A log and its copy with carriage returns read the same |
| Audit.DecodeSignature | crates/archangel-audit/src/verify.rs:172-178 | Succeeds exactly on hex of 64 bytes; the two failures are told apart |
| Audit.VerifyEntry | crates/archangel-audit/src/verify.rs:105-170 | Reports the first failing check in the order of the code, and otherwise the recomputed link |
| Audit.VerifyChain | crates/archangel-audit/src/verify.rs:49-91 | The loop over lines computes the verdict of the line-by-line specification, with the failing number; a line that is no UTF-8 ends it, a line of Unicode white space is skipped |
| Audit.VerdictMeaning | crates/archangel-audit/src/verify.rs:49-170 | A log is accepted if and only if every line is UTF-8 and, unless blank, parses, there is an entry, and each entry is numbered, linked, signed and hashed as its place demands; the head is that of the last entry |
| AuditEvidence.SameHeadSameChain | crates/archangel-audit/src/entry.rs:211-216 | Two chains with one head hash hold the same records and signature bytes in the same order, whatever the keys, or a hash collision is exhibited |
| AuditEvidence.TamperEvidence | crates/archangel-audit/src/verify.rs:49-170 | The same for two logs given as bytes and accepted by the verifier |
| AuditEvidence.SealsDetermineEntries | crates/archangel-audit/src/verify.rs:146-166 | Same seals leave nothing of an accepted entry open but the letter case of its signature text |
| AuditEvidence.RearrangedIsPrefix | crates/archangel-audit/src/verify.rs:49-170 | An accepted chain of which only the last entry is known to come from another chain holds, record by record and signature by signature, a prefix of it, or a collision is exhibited |
| AuditEvidence.NoRecordTwice | crates/archangel-audit/src/verify.rs:111-126 | In one accepted chain equal records stand in one place, or a collision is exhibited |
| AuditEvidence.ReusedEntriesArePrefix | crates/archangel-audit/src/verify.rs:49-170 | An accepted chain built only from entries of another is a prefix of it, entry by entry, or a collision is exhibited |
| AuditEvidence.PrefixIsAccepted | crates/archangel-audit/src/verify.rs:49-91 | Every prefix of an accepted log with an entry in it is accepted |
| AuditWriter.AuditLog.Open | crates/archangel-audit/src/log.rs:94-111 | A log exists only once its genesis entry is persisted |
| AuditWriter.AuditLog.Append | crates/archangel-audit/src/log.rs:114-130 | On success one sealed line is added and number and head advance; on failure only the sink may have changed |
| AuditWriter.WriterAgreesWithVerifier | crates/archangel-audit/src/log.rs:94-130 | After any run of appends, some of them failing without a trace, the verifier accepts the sink with the writer's own count and head |
| AuditWriter.IntactVerifies | crates/archangel-audit/src/verify.rs:49-91 | Any sink that holds an intact chain is accepted with the writer's number and head |
| AuditWriter.TornLineIsReported | crates/archangel-audit/src/verify.rs:59-71 | A last line without newline that does not decode is reported under the number it would have had, or as unreadable if it is no UTF-8 |
| AuditWriter.WrongNumberIsReported | crates/archangel-audit/src/verify.rs:111-119 | An entry out of number after an intact log is reported at the expected number |
| AuditWriter.FailureAfterPersistingBreaks | crates/archangel-audit/src/log.rs:114-130 | A commit that fails after its whole line, followed at once by a success, is reported as a wrong number right after the persisted line |
| AuditFailures.AgreementIffClean | crates/archangel-audit/src/log.rs:114-130 | After any run of fewer than 2^64 - 3 appends the verifier confirms the writer's own count and head if and only if no failed commit left a single byte behind |
| AuditFailures.RejectedForGood | crates/archangel-audit/src/verify.rs:49-91 | A failed commit that left bytes behind, followed at any distance by a successful append, makes the log rejected after every continuation |
| AuditFailures.VerdictAfterOneFailure | crates/archangel-audit/src/verify.rs:42-91 | The verdict after one failed append for every number of bytes it left: agreement for none, a break at the next number for part of the object (an unreadable line if it ends inside a character), acceptance of an uncounted entry for the whole object with or without its newline |
| AuditFailures.AheadVerdict | crates/archangel-audit/src/verify.rs:49-91 | A sink that ran ahead of its writer is rejected or accepted with more entries than the writer counts |
| AuditFailures.LineOnTopBreaks | crates/archangel-audit/src/verify.rs:59-71 | A complete line on top of a torn or an uncounted one makes the complete lines alone rejected |
| AuditedRuns.FileCarriesEventsIffClean | crates/archangel-audit/src/log.rs:94-130 | After any run of fewer than 2^64 - 3 appends the verifier accepts the file and reads from it genesis and the recorded events, in order, if and only if no failed commit left a byte behind |
| AuditedRuns.CleanFileEntries | crates/archangel-audit/src/log.rs:114-124 | After clean failures the verifier accepts the file and reads back genesis and the recorded events with their own times, in order |
| AuditedRuns.VerifiedFileIsInOrder | crates/archangeld/src/orchestrator.rs:339-608 | The file written for any run of daemon and executor with clean failures is accepted, each action's entries in it follow the grammar, and every frame sent has its request entry there |
| Prompt.ReplaceCreatesNone | crates/archangeld/src/prompt.rs:141-151 | Replacing one token creates no occurrence of any token that was not there |
| Prompt.ReplaceRemovesAll | crates/archangeld/src/prompt.rs:141-151 | One greedy leftmost pass leaves no occurrence of the token it replaces |
| Prompt.SanitizeIsClean | crates/archangeld/src/prompt.rs:141-151 | For every content neither tag nor canary occurs in the fenced body, and content is unchanged exactly when it held neither |
| Prompt.WrapCounts | crates/archangeld/src/prompt.rs:121-151 | The wrapped text holds the tag exactly twice if and only if the label is free of it, and the canary only as often as the label does |
| Prompt.Build | crates/archangeld/src/prompt.rs:232-253 | The loop assembles the message from task, header and one fence a context |
| Prompt.MessageCount | crates/archangeld/src/prompt.rs:232-253 | In the whole message each secret occurs as often as in instruction and labels, plus two tags a context |
| Prompt.MessageHasOnlyTheMarkers | crates/archangeld/src/prompt.rs:232-253 | The tag occurs exactly 2n times for n contexts if and only if instruction and labels are free of it |
| Prompt.ReplaceMeaning | crates/archangeld/src/prompt.rs:141-144 | Replacing cuts the text at leftmost occurrences and puts the substitute between the parts, which stay as they are |
| Prompt.SanitizeMeaning | crates/archangeld/src/prompt.rs:141-144 | The fenced body is the content cut at the tag first, then at the canary, each time with the neutral text put in |
| Prompt.MessageHoldsInstruction | crates/archangeld/src/prompt.rs:232-253 | The operator's instruction is in the message as given |
| Prompt.MessageHoldsContexts | crates/archangeld/src/prompt.rs:121-151 | Each context is in the message, its clean content between markers with its own label and the tag |
| PathNorm.NormalizeAbsolute | crates/archangel-policy/src/pathnorm.rs:37-70 | The two loops refuse relative paths and NUL and otherwise print the names a path resolves to |
| PathNorm.CanonicalIffFixed | crates/archangel-policy/src/pathnorm.rs:37-70 | The fixed points of normalization are exactly the canonical paths: absolute, no empty, dot or dot-dot component, no trailing slash but the root |
| PathNorm.NormalizeIsIdempotent | crates/archangel-policy/src/pathnorm.rs:37-70 | Normalizing twice is normalizing once |
| PathNorm.NormalizeKeepsTarget | crates/archangel-policy/src/pathnorm.rs:26-36 | In every symlink-free tree a path and its normal form lead to the same node |
| PathNorm.NormalizeEqualIffSameTarget | crates/archangel-policy/src/pathnorm.rs:26-70 | Two accepted paths normalize alike if and only if they lead to the same node of every symlink-free tree |
| Denylist.Build | crates/archangel-policy/src/denylist.rs:272-333 | The loops compile every pattern, expanded, into the list of its rule's scope, in table order |
| Denylist.CheckPathIn | crates/archangel-policy/src/denylist.rs:388-420 | The compiled table answers like the rules: Any rules first, Modify rules for writes only |
| Denylist.CompiledMatches | crates/archangel-policy/src/denylist.rs:272-342 | Compilation loses no rule, invents none, and keeps each in its scope |
| Denylist.CheckPathMeaning | crates/archangel-policy/src/denylist.rs:388-428 | A path is denied if and only if it cannot be normalized, or an Any rule covers its normal form, or it is written and a Modify rule does; the rule named is one that covers it |
| Denylist.DirectoryPatternCovers | crates/archangel-policy/src/denylist.rs:337-342 | A literal directory pattern covers exactly the directory node and everything below it |
| Denylist.DirectoryRuleDenies | crates/archangel-policy/src/denylist.rs:388-420 | Every spelling of a path at or below a literal directory rule is denied for writing, and for reading under an Any rule |
| Denylist.ProtectedDirectories | crates/archangel-policy/src/denylist.rs:108-243 | The shipped table: no spelling reaches into any of its ten literal directories |
| Denylist.ExactPatternCovers | crates/archangel-policy/src/denylist.rs:337-342 | A pattern without wildcard covers exactly the one node |
| Denylist.ExactRuleDenies | crates/archangel-policy/src/denylist.rs:388-420 | Every spelling of a path with an exact rule is denied for writing, and for reading under an Any rule |
| Denylist.ProtectedFiles | crates/archangel-policy/src/denylist.rs:108-243 | The shipped table: no spelling reaches any of the five files it names, such as /etc/shadow |
| WildcardRules.StarMatch | crates/archangel-policy/src/denylist.rs:302-305 | A star stands for any text without a slash |
| WildcardRules.StarRuleDenies | crates/archangel-policy/src/denylist.rs:388-420 | Every spelling of a path that fills a rule's star is denied |
| WildcardRules.StarBelowCovers | crates/archangel-policy/src/denylist.rs:337-342 | A directory rule with a star covers each directory it fills in to and all below |
| WildcardRules.ProtectedByStar | crates/archangel-policy/src/denylist.rs:108-160 | The shipped table: no spelling reaches the program, its service units, or any home's login keys |
| WildcardRules.ProtectedDropIns | crates/archangel-policy/src/denylist.rs:108-126 | The same for the drop-in directories of its service units |
| Policy.EvaluateMeaning | crates/archangel-policy/src/lib.rs:141-202 | Denied exactly when some command or path is denied; otherwise refused exactly when not allowlisted; outright allowed only outside interactive mode and below critical risk |
| Policy.AllowedMeaning | crates/archangel-policy/src/lib.rs:170-181 | Allowlisted means listed by the first profile of that name, for this mode |
| Wire.Session.SignExecRequest | crates/archangeld/src/session.rs:82-113 | The number is advanced before it is used, saturating at 2^64-1, and the envelope seals that request |
| Wire.OpenUndoesSeal | crates/archangel-ipc/src/envelope.rs:55-121 | A sealed request that fits a frame opens to itself under the matching key |
| Wire.FrameDeterminesRequest | crates/archangel-ipc/src/envelope.rs:68-86 | One frame never opens to two different requests, whatever the keys |
| Wire.OpensIffSigned | crates/archangel-ipc/src/envelope.rs:68-86 | A frame opens to a request exactly if it is an envelope of version 1 whose 64-byte signature verifies over bytes that decode to it |
| Wire.FrameIsTheEncoding | crates/archangel-ipc/src/envelope.rs:88-101 | An envelope is sent as encoded, up to 1,048,576 bytes |
| Authenticity.UnsignedChangesNothing | crates/archangel-execd/src/handler.rs:300-316 | A frame is answered SignatureInvalid, and changes nothing, exactly if it carries no verifying signature over a request |
| Authenticity.EveryRunIsSigned | crates/archangel-execd/src/handler.rs:179-210 | Over every run, with the key changing in between, each runner call is of bytes signed under the key then in force |
| Authenticity.EveryCallIsSigned | crates/archangel-ipc/src/envelope.rs:68-86 | The same over every run of daemon and executor, under the session's key |
| Execd.Executor.Handle | crates/archangel-execd/src/handler.rs:171-210 | Response and new guard state are those of the first refusing gate, or of a run |
| Execd.Executor.RunBundle | crates/archangel-execd/src/handler.rs:183-209 | The gates after bundle resolution, with the limiter asked only when arguments, mutation and policy passed |
| Execd.Executor.SetModeCeiling | crates/archangel-execd/src/handler.rs:154-156 | Only the ceiling changes |
| Execd.Executor.SetSessionKey | crates/archangel-execd/src/handler.rs:165-167 | Only the key changes; replay state survives |
| Execd.Executor.SetRateLimits | crates/archangel-execd/src/handler.rs:144-146 | New limits start from an empty history; nothing else changes |
| Execd.RefusalIsFirst | crates/archangel-execd/src/handler.rs:179-210 | A refusal names the first gate that does not pass, and there is none exactly when all pass |
| Execd.RefusalByBranch | crates/archangel-execd/src/handler.rs:179-357 | The first-refusal specification agrees with the branches of authentication, replay, bundle and the rest |
| Execd.BundleRefusalByBranch | crates/archangel-execd/src/handler.rs:217-462 | The same for the argument, mutation, policy, rate, snapshot, sandbox and cgroup gates |
| ExecutorLaws.PolicyByBundle | crates/archangel-execd/src/handler.rs:406-462 | The policy's four answers about a bundle, by its script as a command, its read-write paths written, its read-only paths read, the allowlist, mode and risk |
| ExecutorLaws.AnswerByGates | crates/archangel-execd/src/handler.rs:179-462 | The answer to any frame, gate by gate, each rejection with its own stage, in terms of the frame, the manifest and the two histories |
| ExecutorLaws.StateByGates | crates/archangel-execd/src/handler.rs:179-404 | What a frame leaves in the two histories, gate by gate |
| ExecutorLaws.CallIsMade | crates/archangel-execd/src/handler.rs:467-500 | A runner call has the request's session, number, executable and arguments, the verified manifest, and the id of the snapshot taken |
| ExecutorLaws.EveryCallIsPermitted | crates/archangel-execd/src/handler.rs:406-462 | Over every run, no bundle runs whose script is a denied command, or with a path denied for the access it declares, or that is on no allowlist |
| ExecutorLaws.NoCallReachesProtected | crates/archangel-policy/src/denylist.rs:108-243 | With the shipped rules, no bundle that ever runs declares a path, in any spelling, in a protected directory or at a protected file |
| SafeNames.SafeNameMeaning | crates/archangel-execd/src/handler.rs:104-113 | Safe are the names of 1 to 128 letters, digits, dots, underscores and dashes with no two dots in a row, but the dot alone |
| SafeNames.BundleStaysInside | crates/archangel-execd/src/handler.rs:331-343 | The bundle file of a safe name is a direct child of the bundle directory |
| ExecdRuns.RunIffAllGates | crates/archangel-execd/src/handler.rs:179-210 | The runner is called in a step if and only if every gate passed in that step |
| ExecdRuns.RejectionNamesFirstGate | crates/archangel-execd/src/handler.rs:179-210 | A rejection carries the stage of the first gate that refuses, all earlier ones having passed |
| ExecdRuns.GuardsMove | crates/archangel-execd/src/handler.rs:318-404 | Each guard changes only by an admission of its own specification |
| ExecdRuns.BudgetSpentInVain | crates/archangel-execd/src/handler.rs:185-203 | Budget is spent exactly on requests that are authentic, fresh, from a verified bundle, with fitting arguments, permitted and within the ceilings; without a run exactly when such a request lacks its recovery point, sandbox plan or cgroup |
| ExecdRuns.BudgetCanBeWasted | crates/archangel-execd/src/handler.rs:185-203 | On every site with a sound codec, a fresh executor that gets a properly sealed request passing all gates up to the limiter, for a bundle that cannot run, spends budget and runs nothing |
| ExecdRuns.EachFrameRunsAtMostOnce | crates/archangel-execd/src/handler.rs:318-329 | Whatever frames arrive, in any order and under any change of key, executed numbers of a session strictly increase and no frame runs twice |
| ExecdRuns.RunnerCallsWithinCeilings | crates/archangel-execd/src/handler.rs:385-403 | Every interval of one horizon holds at most the configured number of runner calls of each kind |
| ExecdRuns.EveryRunIsRespectful | crates/archangel-execd/src/handler.rs:269-380 | Under a read-only ceiling no mutating bundle ever runs; a bundle runs with a snapshot id if and only if it mutates persistent state |
| ExecdRuns.ClaimsDoNotMatter | crates/archangel-execd/src/handler.rs:359-403 | Two runs whose requests, under the keys in force, differ only in declared risk, declared read-only and issue time give equal replies and guard states |
| Digest.ActionDigest | crates/archangeld/src/orchestrator.rs:168-176 | The buffer hashed is executable, arguments and payload hash with NUL between |
| Digest.DigestDeterminesAction | crates/archangeld/src/orchestrator.rs:168-176 | Equal digests of actions with safe names mean equal executable, arguments and payload hash, or a hash collision |
| Daemon.Orchestrator.Invoke | crates/archangeld/src/orchestrator.rs:306-411 | Both sides' whole new state and the outcome, for every bundle, policy, append and transport result |
| Daemon.Orchestrator.Decide | crates/archangeld/src/orchestrator.rs:325-411 | The decision is on record before anything is signed, every signing spends a number, and only an allowed action is sent |
| Daemon.Orchestrator.Sign | crates/archangeld/src/orchestrator.rs:349-356 | Signing always spends a number, and the frame seals the request under that number |
| Supplied.RunKeepsSupplied | crates/archangeld/src/session.rs:82-113 | In every run each frame sent or waiting opens to a request with exactly the nonce, issue time, executable, arguments and claims supplied for its action |
| Supplied.AtOnceRefusedIff | crates/archangel-execd/src/replay.rs:54-79 | An action sent at once, below saturation, is refused at Replay exactly if its supplied nonce is among the last 4096 admitted or its number is overtaken |
| Supplied.AtOnceRefusedIffFromStart | crates/archangeld/src/orchestrator.rs:349-363 | The same after every run from the start, with any redelivery |
| Supplied.FreshNonceIsNoReplay | crates/archangeld/src/session.rs:90-103 | Without redelivery, an action sent at once under a nonce no earlier proposal had is never refused as a replay |
| Daemon.Orchestrator.Dispatch | crates/archangeld/src/orchestrator.rs:415-431 | Nothing is sent unless its request event was appended first |
| Daemon.Orchestrator.RecordOutcome | crates/archangeld/src/orchestrator.rs:538-587 | Snapshot before completion; a failed append ends the record there |
| Daemon.Orchestrator.Deny | crates/archangeld/src/orchestrator.rs:589-608 | A denial before policy is on record, or the call fails |
| Daemon.Orchestrator.Stash | crates/archangeld/src/orchestrator.rs:367-403 | The entry is kept verbatim unless 64 unexpired ones are waiting |
| Daemon.Orchestrator.PrunePending | crates/archangeld/src/orchestrator.rs:435-438 | Exactly the expired entries go |
| Daemon.Orchestrator.Approve | crates/archangeld/src/orchestrator.rs:446-490 | The entry is consumed first; the stored frame is sent only under its own digest, for one person, with the grant on record |
| Daemon.Orchestrator.Grant | crates/archangeld/src/orchestrator.rs:483-490 | Nothing is sent unless the grant is on record; what is sent is the stored frame |
| Daemon.Orchestrator.Reject | crates/archangeld/src/orchestrator.rs:493-504 | The entry is consumed and nothing is sent |
| Daemon.Orchestrator.RunTask | crates/archangeld/src/orchestrator.rs:248-304 | The exchange goes on record before and after the model answers; only an answer without the canary that keeps the contract with a safe tool name becomes a proposal; every other one ends the task in its own way |
| Daemon.Orchestrator.Consult | crates/archangeld/src/orchestrator.rs:253-302 | Both model events, the leak event and the violation note, in order and as far as appends succeed, and the tool call or the ending that follows |
| Daemon.LeakStopsTheTask | crates/archangeld/src/orchestrator.rs:271-283 | An answer with the canary proposes, signs, stashes, sends and runs nothing; with the appends working the session end is on record last |
| Record.EverySendIsOnRecord | crates/archangeld/src/orchestrator.rs:415-431 | In every run each send directly follows a request event naming the executable, the hash of the arguments and the action of the request its frame opens to |
| Record.ExecutedIsOnRecord | crates/archangeld/src/orchestrator.rs:538-576 | A reported execution reports the runner's result, and the record ends with its request, its snapshot if one was taken, and its own exit code and output hashes |
| Record.DecisionIsOnRecord | crates/archangeld/src/orchestrator.rs:315-345 | The first event of a proposal is its decision: denied, for approval or allowed, as bundle, arguments, denylist, allowlist, mode and risk say |
| Record.ProposalOutcome | crates/archangeld/src/orchestrator.rs:315-411 | A proposal refused by the daemon is answered by what refused it and leaves table, sends and executor alone |
| Record.AskedMeansKept | crates/archangeld/src/orchestrator.rs:367-403 | When the operator is asked, the action is kept as presented: id, digest of executable, arguments and payload, frame, time and two-person flag; unexpired others stay, 64 in all at most |
| Record.ApprovalKeepsOthers | crates/archangeld/src/orchestrator.rs:435-456 | An approval leaves exactly the other entries of the last 300,000 ms |
| Record.ApprovalAnswers | crates/archangeld/src/orchestrator.rs:446-482 | An unknown or expired id, a foreign digest and a two-person action are answered as such and send nothing |
| Record.ApprovalSends | crates/archangeld/src/orchestrator.rs:483-490 | An approval that goes through puts grant and request on record, then sends the stored frame |
| Record.RejectionAnswers | crates/archangeld/src/orchestrator.rs:493-504 | A rejection takes exactly its entry out and is answered by whether there was one |
| Record.TaskIsOnRecord | crates/archangeld/src/orchestrator.rs:256-277 | With the appends working, request and response of the model go on record first, by their hashes and with the leak flag |
| Record.AnswerLeadsTo | crates/archangeld/src/orchestrator.rs:285-302 | What each reply of the model leads to, a breach of its contract being noted |
| Protocol.EachFrameRunsAtMostOnce | crates/archangeld/src/session.rs:90-113 | In every interleaving of proposals, approvals, rejections and redeliveries no frame reaches the runner twice and executed numbers strictly increase |
| Protocol.StepHandsAtMostOne | crates/archangeld/src/orchestrator.rs:415-431 | No step gives the executor more than one frame |
| ApprovalTable.RunKeepsTable | crates/archangeld/src/orchestrator.rs:367-504 | Over every run the table holds at most 64 entries, and every frame sent on approval is byte for byte the one last stashed under that id, under its own digest, not expired, not two-person, and untouched in between |
| ApprovalTable.RunFromStartIsSound | crates/archangeld/src/orchestrator.rs:367-504 | The same, spelled out for every run from the start of a session |
| ApprovalTable.ApprovalsAreSingleUse | crates/archangeld/src/orchestrator.rs:446-456 | Between two approvals of one id lies a new stash |
| ApprovalTable.HandledIdIsGone | crates/archangeld/src/orchestrator.rs:446-504 | Approving or rejecting an id, whatever comes of it, leaves no entry under it |
| ApprovalTable.UnknownIdSendsNothing | crates/archangeld/src/orchestrator.rs:451-456 | Approving an id without an entry sends nothing and changes neither log nor executor |
| AuditOrder.RunKeepsOrder | crates/archangeld/src/orchestrator.rs:339-608 | In every reachable log, with appends failing anywhere, each action's events follow decision, grant only after approval was required, request, snapshot, completion, each at most once; every send directly follows its own request event |
| AuditOrder.RunFromStartIsInOrder | crates/archangeld/src/orchestrator.rs:339-608 | The same, spelled out for every run from the start of a session |
| AuditOrder.DeniedIsFinal | crates/archangeld/src/orchestrator.rs:339-345 | In a log of that grammar an action decided against is never granted, requested or run |
| Agreement.ExecutorRefusesOnlyLate | crates/archangel-execd/src/handler.rs:300-462 | After any run, with shared keys, bundles and policy, the executor refuses what the daemon sends only at Replay, NotReadOnly, RateLimited, SnapshotUnavailable or SandboxRejected |
| Overtaking.ApprovalRefusedIffOvertaken | crates/archangel-execd/src/replay.rs:54-79 | An approval that goes through is refused at Replay if and only if its number or a later one of the session was admitted since, or its nonce is remembered; then it does not run |
| Overtaking.OvertakenForGood | crates/archangel-execd/src/replay.rs:54-79 | An overtaken frame stays overtaken under every continuation |
| Overtaking.LaterAdmissionOvertakes | crates/archangel-execd/src/replay.rs:58-79 | Whatever step makes the executor admit it, a task, another approval or a redelivery, a number not below that of a waiting frame overtakes the frame |
| Overtaking.OvertakenNeverRuns | crates/archangel-execd/src/handler.rs:179-210 | Neither approval nor redelivery makes the runner run an overtaken frame, after any continuation |
| Overtaking.OutOfOrderNeverRuns | crates/archangeld/src/orchestrator.rs:446-490 | From the start of a session: after a step that admits a later number, and any continuation, every approval of the earlier frame that goes through is refused at Replay and runs nothing, and the frame never runs |
| Overtaking.ApprovedInReverse | crates/archangeld/src/orchestrator.rs:446-490 | If of two waiting actions the one signed later is approved first and executes, the other never runs |
| Overtaking.SecondApprovedFirst | crates/archangeld/src/orchestrator.rs:349-490 | Two tool calls of a fresh interactive session whose frames fit, approved in reverse: the second executes, and the first is refused and never runs after any continuation |
| Overtaking.FirstIsRefusedAtOnce | crates/archangeld/src/orchestrator.rs:446-490 | The first one's own timely approval under its own digest goes through the daemon and is refused at Replay |
| Binding.RunKeepsBound | crates/archangeld/src/orchestrator.rs:349-403 | In every run each pending or approved digest is that of the very request its frame opens to, and each runner call runs what its frame says |
| Binding.ApprovedIsWhatRuns | crates/archangeld/src/orchestrator.rs:165-176 | If the operator approved the digest of an action and the approved frame reaches the runner, it was called with exactly that executable, arguments and payload hash, or a hash collision is exhibited |
| Authority.RunKeepsAuthority | crates/archangeld/src/orchestrator.rs:358-403 | In every run frames sent at once are allowed outright, frames sent on approval need one approval, and each runner call is of a request that was sent |
| Authority.NothingRunsUnapproved | crates/archangeld/src/orchestrator.rs:358-490 | If nobody forges a frame, every runner call is allowed outright or was approved, in interactive mode every call was approved, and no critical bundle ever runs |
| Text.TrimUndoesPadding | crates/archangel-sandbox/src/cgroup.rs:53-54 | Trimming a text padded with white space gives it back |
| Text.ValueOfDecimal | crates/archangel-sandbox/src/cgroup.rs:152-154 | Reading a printed number gives it back |
| Limits.CpuAcceptsExactly | crates/archangel-sandbox/src/cgroup.rs:53-77 | Accepted are exactly the padded numerals with a percent sign that denote 1 to 100, with that value |
| Limits.QuotaIsExact | crates/archangel-sandbox/src/cgroup.rs:81-87 | For an accepted percentage, quota times 100 is percent times period: nothing saturates or is rounded away |
| Limits.CpuFileReadsBack | crates/archangel-sandbox/src/cgroup.rs:81-87 | The printed file splits into two numerals, quota then period, in that exact proportion |
| Limits.WellFormedMemory | crates/archangel-sandbox/src/cgroup.rs:103-147 | A well-formed amount is accepted, refused as zero or refused as too large according to its true product, with no wrap-around |
| Limits.MalformedIffUnreadable | crates/archangel-sandbox/src/cgroup.rs:103-131 | Refused as malformed are exactly the texts that have no reading as numeral and optional unit |
| Limits.MemoryAcceptsExactly | crates/archangel-sandbox/src/cgroup.rs:103-147 | Accepted are exactly the padded numerals with optional K, M or G in either case whose true product is 1 to 2^40; the result is the product |
| Limits.PrintedMemoryParsesBack | crates/archangel-sandbox/src/cgroup.rs:152-154 | Parsing the printed limit gives the same limit |
| Mounts.FsTypeFor | crates/archangel-snapshot/src/lib.rs:58-74 | The loop finds the first listed of the longest matching mount points, none exactly when none matches; for a normalized path that is the lookup of the nearest ancestor |
| Mounts.BestIsNearest | crates/archangel-snapshot/src/lib.rs:58-83 | The first of the longest prefixes is the nearest ancestor in the mount table, first listed winning ties |
| Mounts.PrefixIffAtOrBelow | crates/archangel-snapshot/src/lib.rs:78-84 | On normalized paths a mount point matches if and only if it is the path or one of its ancestors |
| Mounts.LineReadsBack | crates/archangel-snapshot/src/lib.rs:60-63 | A line of device, mount point and type is read back as written |

## Left out

- Daemon.Orchestrator.RunTask: the system prompt and the JSON parser of the answer are parameters, so of the parser only the canary check and the check of the tool name are modelled.
- Tailer.LogTailer.Poll: one poll sees one content of the file; I/O errors other than a missing file, the lossy UTF-8 decoding and saturation of the 64-bit offset are left out.
- AuditOrder.RunKeepsOrder: assumes that fresh random action ids of two proposals differ.
- Authority.NothingRunsUnapproved: that nobody else holds the session key, and that waiting frames do not leave the daemon, is the assumption `NoForgeries`, stated on the messages that verify under the key.
- Agreement.ExecutorRefusesOnlyLate: both sides load the same bundles throughout; a bundle replaced between approval and delivery is left out.
- Cooldown.FingerprintMeaning: for names with a comma or sources with a bar only the collision is stated.
- Denylist.CheckPathIn: the glob engine is reduced to `*` within a component and a final `/**`, all that the path patterns of the table use; descriptions and categories of rules are left out.
- Policy.EvaluateMeaning: command patterns are an arbitrary predicate in place of the regular-expression engine.
- Mounts.FsTypeFor: takes the table as a list of lines, as the library's line iterator yields them.
- Wire.OpenUndoesSeal: the four-byte length prefix of a frame is left out.
- Prompt.Build: the model name and the token limit are left out.
- Audit.VerifyChain: I/O errors of the reader other than a line that is not UTF-8 are left out.
- AuditFailures.AgreementIffClean: like `AuditedRuns.FileCarriesEventsIffClean`, assumes that the numbers stay below 2^64 - 1, where the counters of writer and verifier saturate.
- Human-readable reasons, previews and durations: they decide nothing.
- Text is sequences of characters; where the code counts bytes the two agree on the ASCII names, digits and prefixes of one path that occur there, and a non-ASCII hex text is refused in both, possibly with another error kind.
- Process restarts: guards live in memory, so runs are those of one executor process and one session key unless a theorem says otherwise.
- Bundle files, argument schemas, sandbox plans, seccomp, namespaces, snapshot commands and process spawning: parameters or inputs of a step.
- Sockets, peer credentials, the control plane, configuration, setup and the model back ends: plumbing without a hard property.
