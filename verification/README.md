# The IBus frontend, verified

A Dafny model of the protocols and state machines of the Linux input-method frontend, with proofs about all their runs.
`dafny verify dfyconfig.toml` checks everything.

**Native dictionary publication.** Engines, the replay tool, the dictionary window and restore reviews share two `flock`
locks. `DictionaryLease` is the transition system of any number of leases with one `flock` call per step and non-atomic
conversions; `LeaseCalls` is the code of `acquire` and `exclusively` whose calls are shown to be its steps. `ActiveMarker`
is the marker's text, `NativePublication` the world of all participants with their reads, stagings, discards and renames.
`EnginePublication` is what one engine process does to its lease, the marker and its input contexts; `PublicationCalls`
makes every run of it a path of a participant's actions in that world, whatever the others do in between.
`NativeRestoreReview` is the life of one staged generation.

**Dictionary snapshots.** Engine records are printed as JSON lines (`SnapshotExport`), frozen and read back through short
reads (`PreparedSnapshot`), checked for framing (`SnapshotEnvelope`) and for relational consistency (`SnapshotContents`)
and parsed again. `SnapshotRecords` says what an accepted file looks like, member by member and range by range, and that
such a file is staged as the records it stands for. `SnapshotRoundTrip` proves that what was printed comes back;
`SnapshotConsistency` and `SnapshotPortability` say exactly when an export succeeds.

**Typing.** `TextTransform`, `PairedPunctuation` and `InputController` are the punctuation formatter, the pairing of marks
and the key handler; `EngineKeys` applies every answer to the client's text; `NestedTyping` compares typing with and
without automatic pairing; `ModeToggle` is the modifier-tap tracker. `OnlineProtocol` interleaves keys, debounced workers
and queued deliveries of online candidates.

**Stores.** `CredentialSave` is the keyring transaction behind saving settings, `AccountSession` the signed-in session and
its keyring record, `AiSuggestionCache` the response cache under concurrent requests, `ClipboardHistory` the
most-recent-first list.

Objects the source updates in place are classes with methods; protocols in which threads or processes interleave are
transition systems; pure code is functions. Libraries the frontend calls appear as parameters or as arbitrary choices: JSON
text, SHA-256 and the timestamp check are the fields of `SnapshotFormat.Wire`, with a printed value assumed to parse back
or not at all, and the digest assumed injective only where entry identifiers must be distinct, and printed as clean text. The engine session is a class
that answers as it likes, except that an input it does not handle leaves its snapshot alone and an online candidate changes
nothing but the candidate list.

What the code does not promise, with the input that shows it and the exact condition under which it holds:

- With pairing on a quote key always opens a new pair: `NestedTyping.TwoQuotes` leaves four marks instead of two. Text is
  the same with and without pairing if and only if no quote is typed (`NestedTyping.SameTextIffNoQuotes`).
- `ClipboardHistory::remove` reads before it takes the lock: `ClipboardHistory.RemoveLosesAnAdd` loses an add, and
  `ClipboardHistory.RemoveKeepsAddIff` says exactly which adds survive.
- One token can be published twice (`NativePublication.TokenPublishedTwice`) if a superseded installation is activated
  again, and only then (`NativePublication.OnePublicationPerToken`); fresh generation names exclude it
  (`NativePublication.FreshNamesGiveDistinctTokens`).
- A removal of a credential is dropped when the keyring cannot say whether it is there, and the save still succeeds
  (`CredentialSave.SilentKeyringKeepsCredential`). Everything to be forgotten is gone if and only if the keyring could be
  asked about every such slot that holds something (`CredentialSave.ForgetsAllIff`).

## Model

| member | source | states |
|---|---|---|
| DictionaryLease.EveryStateKeepsInv | src/DictionaryLease.cpp:57-119 | In every run of any number of leases, one `flock` call at a time, holders of each lock are compatible, every lease holds what its program point says, and while one lease upgrades nobody else holds the session lock exclusively |
| DictionaryLease.KernelAnswers | src/DictionaryLease.cpp:21-42 | A lock that would not wait is granted exactly while no other holder stands in its way, mode by mode, and refused otherwise; it may fail at any time |
| DictionaryLease.UpgradeGrantedIff | src/DictionaryLease.cpp:80-85 | The conversion that opens an upgrade is granted exactly while nobody else holds the gate |
| DictionaryLease.SessionExclusiveNeedsGate | src/DictionaryLease.cpp:57-88 | The session lock is held exclusively only together with the exclusive gate, or by a description that is already being closed |
| DictionaryLease.OperationRunsAlone | src/DictionaryLease.cpp:94-103 | While `operation()` runs no other lease holds either lock, is in service or is upgrading |
| DictionaryLease.RestoreNeverWaits | src/DictionaryLease.cpp:87-93 | The blocking `LOCK_SH` of `restore` is always compatible with all other holders when it is issued |
| DictionaryLease.UpgradeAlwaysFinishes | src/DictionaryLease.cpp:80-111 | From every reachable state of an upgrade, whatever the others do, a next call that is not a failure is possible and strictly nearer to the end |
| DictionaryLease.ExitRestoresTheLease | src/DictionaryLease.cpp:80-111 | A shared lease back in service after any busy, normal or throwing exit holds the shared session lock, no gate, and may publish again |
| DictionaryLease.BrokenLeaseStillBlocksPublication | src/DictionaryLease.cpp:89-107 | A lease whose `restore` failed keeps the gate, so nobody else joins or publishes |
| LeaseCalls.PermittedIsStep | src/DictionaryLease.cpp:21-42 | Every call the lease's program makes, with any reply the kernel can give, is a step of the system that changes this lease alone |
| LeaseCalls.LeaseObject.Acquire | src/DictionaryLease.cpp:68-78 | Gate, session lock, and the gate released again for a shared lease; the calls are a path of the automaton whatever the kernel answers |
| LeaseCalls.LeaseObject.Restore | src/DictionaryLease.cpp:89-93 | Either the lease is shared and the gate free, or the gate is kept and `publishing_` stays set |
| LeaseCalls.LeaseObject.Enter | src/DictionaryLease.cpp:82-101 | The operation is entered only under both exclusive locks; it is refused exactly when a lock was held elsewhere and the lease could be put back, which then is as it was; it faults only when a lock call failed or the lease was already broken |
| LeaseCalls.LeaseObject.Leave | src/DictionaryLease.cpp:104-110 | Once the operation has ended, returning or throwing, the lease is back as it went in unless a lock call failed, and then it is broken with the gate kept |
| LeaseCalls.LeaseObject.Exclusively | src/DictionaryLease.cpp:80-111 | The structured code follows the automaton; it returns true exactly when the operation ran to its end, false exactly when a lock was held elsewhere and no call failed, and throws only for a failed call, a throwing operation or a broken lease; whenever it returns the lease is the one that went in |
| ActiveMarker.DecodeIsInverse | src/account/NativeInstallation.cpp:85-95 | A marker is accepted exactly when it is the encoding of two valid identifiers, and it decodes to those two |
| ActiveMarker.IdentifierIff | src/account/NativeInstallation.cpp:31-37 | An identifier is 1 to 128 ASCII letters, digits, underscores and hyphens, so it names no path but its own |
| ActiveMarker.MarkerFits | src/account/NativeInstallation.cpp:60-93 | The marker of two identifiers is prefix, generation and content line, at most 285 bytes, so the 512-byte reader takes it |
| ActiveMarker.DecodeEncode | src/account/NativeInstallation.cpp:85-95 | What `publish` writes decodes to what it was given |
| ActiveMarker.DecodeInjective | src/account/NativeInstallation.cpp:150-160 | Comparing tokens as bytes compares installations |
| ActiveMarker.OneLineIsRefused | src/account/NativeInstallation.cpp:88-93 | A marker with one line after the prefix is refused although the length of its second name wraps around |
| NativePublication.HistoryKeepsInv | src/IBusEngine.cpp:1477-1490 | The invariant of all participants, the marker, the prepared generations and the publication log, over every interleaving of lock calls, reads, stagings, discards, comparisons and renames |
| NativePublication.ParticipantsFollowTheMarker | src/IBusEngine.cpp:1599-1614 | Every participant that took a shared lease and resolved the installation uses exactly the paths the marker names, unless it is itself between its rename and its switch |
| NativePublication.ParticipantsAgree | src/DictionaryReplay.cpp:53-81 | Outside every critical section any two participants use the same paths, the marker's |
| NativePublication.MarkerAlwaysReady | src/account/NativeRestoreReview.cpp:52-72 | The marker is absent or names a generation that is still complete: no discard worker removes it |
| NativePublication.CanAlwaysResolve | src/account/NativeInstallation.cpp:141-149 | In every run a participant in service can resolve the installation, and gets the paths the marker names |
| NativePublication.DiscardsOnlyInactive | src/account/NativeRestoreReview.cpp:52-72 | A discard worker may take a generation if and only if it is not the active one, and removes that one only |
| NativePublication.PublicationReplacesWhatWasReviewed | src/account/NativeInstallation.cpp:150-188 | At the moment of the rename the marker and the journal revision are still the reviewed ones, the target is complete, and the new marker decodes to it |
| NativePublication.OnePublicationPerToken | src/account/NativeInstallation.cpp:155-159 | Of any reviews holding the same token at most one publishes, if and only if no superseded installation is activated again |
| NativePublication.DistinctTokensIff | src/account/NativeInstallation.cpp:155-160 | The same equivalence for any publication log in which each marker replaced its predecessor |
| NativePublication.FreshNamesGiveDistinctTokens | src/account/NativeRestoreReview.cpp:161-163 | Random generation names that never repeat guarantee one publication per token |
| NativePublication.TokenPublishedTwice | src/account/NativeInstallation.cpp:155-160 | A marker that goes from A to B and back lets two reviews holding A's token both publish |
| PublicationCalls.DoesIsAct | src/IBusEngine.cpp:1475-1508 | Whatever a participant does at its own seat is an action in the world of all participants |
| PublicationCalls.LockCallIsDone | src/DictionaryLease.cpp:80-111 | Every lock call the world allows a participant is one its own program makes |
| PublicationCalls.OthersStayElsewhere | src/DictionaryLease.cpp:87-103 | In every run, what others do leaves a participant's lease and work alone, the marker too while it is in service, and everything while it is in its operation |
| EnginePublication.Build | src/IBusEngine.cpp:1429-1438 | On success every context gets a live controller and provider on the given paths, with rising generations nobody had before |
| EnginePublication.Install | src/IBusEngine.cpp:1439-1447 | Every context serves the new paths with its own replacement and no old glosses |
| EnginePublication.Operation | src/IBusEngine.cpp:1477-1491 | Publishes only for the reviewed token and revision, and then marker, runtime and all contexts move together; otherwise marker and paths are untouched, and without an error only because token or revision differ; a rename is among its actions exactly when it published |
| EnginePublication.Commit | src/account/NativeInstallation.cpp:150-188 | Check, rename and switch happen in this order under the exclusive lease, and all contexts and the runtime follow the marker |
| EnginePublication.ReopenPrevious | src/IBusEngine.cpp:1460-1474 | Either every context serves the previous paths again or the process ends |
| EnginePublication.PublishNativeDictionary | src/IBusEngine.cpp:1398-1508 | However it comes back to the main loop every context has a controller and a translation service, and all of them and the runtime share one path set: the target exactly when the marker was replaced. The answer is determined: error for a malformed request, busy while something is composed or when a lock was held elsewhere, published when the operation ended and marker and journal are the reviewed ones, conflict when they are not; an error or exit needs a failed call, a fault or a target that is not prepared. Everything it did, down to its lock calls, is a path of a participant's actions |
| NativeRestoreReview.Installation.Discard | src/account/NativeRestoreReview.cpp:52-72 | The worker removes exactly the named generation, only under a lease and only if it is not active |
| NativeRestoreReview.Review.Publish | src/account/NativeRestoreReview.cpp:184-212 | A review publishes only for the reviewed account, uncancelled and not yet attempted, and then the engine's reply decides the answer, case by case; it may be tried again only after busy or conflict, when nothing was published |
| NativeRestoreReview.Review.Destroy | src/account/NativeRestoreReview.cpp:173-183 | The staged files are removed if and only if the generation was never attempted and a lease is held, so never after a publication |
| NativeRestoreReview.Lifetime | src/account/NativeRestoreReview.cpp:94-212 | Over any number of attempts with account operations and other publishers in between, the generation is published at most once, and if it was its files survive the review |
| SnapshotFormat.LinesOfJoin | src/account/NativeSnapshotExport.cpp:143-165 | Splitting joined lines at newlines gives the lines back |
| PreparedSnapshot.Frozen.Sink | src/account/PreparedSnapshot.cpp:146-172 | A chunk is appended completely whatever short writes occur, or failure is reported; chunks beyond the size limit are refused |
| PreparedSnapshot.Frozen.Read | src/account/PreparedSnapshot.cpp:69-88 | Short reads return the bytes at the offset, and nothing only at the end |
| PreparedSnapshot.Collect | src/account/PreparedSnapshot.cpp:145-187 | The frozen file is the concatenation of all chunks; on a device that does not fail it succeeds exactly within the size limit |
| PreparedSnapshot.LineReader.NextByte | src/account/NativeSnapshot.cpp:89-99 | Refilling never loses, repeats or reorders a byte |
| PreparedSnapshot.LineReader.ReadLine | src/account/NativeSnapshot.cpp:84-106 | For every schedule of short reads the next line of the newline split: same text, same limit, an unterminated last line included; it terminates |
| PreparedSnapshot.ReadAllLines | src/account/NativeSnapshot.cpp:84-106 | Reading on to the end yields exactly the newline split of the frozen bytes, and without device errors fails only for a line that is too long |
| SnapshotEnvelope.AcceptedIffWellFramed | src/account/SnapshotEnvelope.cpp:132-215 | The one-pass automaton accepts exactly files made of a header, records in category order and a footer with their count and hash; its counts are the records of each category |
| SnapshotContents.ValidateContents | src/account/SnapshotContents.cpp:97-176 | The row-by-row check accepts exactly the snapshots whose rows are readable, within the limits, unique by key and indexes, and on which the query finds nothing; which rows those are is `SnapshotRecords.LineAcceptedIff` |
| SnapshotContents.QueryIsCorrespondence | src/account/SnapshotContents.cpp:161-176 | On a table its indexes accepted, the anti-join is empty if and only if entries and live owned overlays are the same words with the same weights, one to one |
| SnapshotContents.AcceptedContentsCorrespond | src/account/SnapshotContents.cpp:86-93 | Only snapshots whose entries correspond one to one, with equal weight, to live user-owned overlays are accepted |
| SnapshotRecords.LineAcceptedIff | src/account/SnapshotContents.cpp:97-160 | A record line is accepted exactly when its object has exactly the members of its category, with text of the right size, a weight of 0 to 100000000 for a deleted word and 1 to 100000000 for a live one, a revision from 1 to the header's, a position of 1 to 5, a count of 0 to 10, and for an entry an identifier of at most 128 bytes and the user as owner; the table row holds those values |
| SnapshotRecords.HeaderIff | src/account/SnapshotEnvelope.cpp:170-178 | The four members of a header and their values |
| SnapshotRecords.FooterIff | src/account/SnapshotEnvelope.cpp:158-168 | The three members of a footer, with the count and the hash of what precedes it |
| SnapshotRecords.DistinctIff | src/account/SnapshotContents.cpp:86-93 | The key and both partial indexes of the table together accept exactly distinct words, identifiers and slots |
| SnapshotRecords.ContentsIff | src/account/SnapshotContents.cpp:97-176 | Of readable lines exactly those are accepted that are at most 500000, with at most 100000 entries, distinct, and with entries and live owned overlays the same words and weights |
| SnapshotRecords.FileAcceptedIff | src/account/SnapshotContents.cpp:80-176 | Both checks together accept exactly the files of at most 512 MiB that have a header, distinct records with members in their ranges in category order, matching entries and overlays, and a footer with their count and hash |
| SnapshotRecords.ValidFileStages | src/account/NativeSnapshot.cpp:19-122 | Every accepted file can be staged, and the engine is fed exactly the records its lines stand for, an owner left out meaning the user |
| SnapshotRecords.RefusedFileFeedsNothing | src/account/NativeSnapshot.cpp:114-122 | A file is staged if and only if it is such a file |
| SnapshotExport.SpoolState | src/account/NativeSnapshotExport.cpp:77-135 | The spool holds the state's lines in order, and spooling fails exactly for state version 1 cannot carry or for the size limits |
| SnapshotExport.Emit | src/account/NativeSnapshotExport.cpp:139-165 | The file is header, spool by category and a footer with the count and the hash of what was written |
| SnapshotExport.InspectFile | src/account/SnapshotEnvelope.cpp:143-214 | Reading the frozen file through short reads gives the automaton's verdict on its newline split, and hands the visitor exactly those lines |
| SnapshotExport.Receive | src/account/PreparedSnapshot.cpp:121-193 | The envelope returned, or the refusal, is that of the concatenated chunks however they were cut and read back |
| SnapshotExport.ValidateFile | src/account/SnapshotContents.cpp:97-176 | Accepts a frozen file exactly when both checks do, whatever the reads return |
| SnapshotExport.ExportNative | src/account/NativeSnapshotExport.cpp:49-168 | An export that succeeds is the printed state and passed both checks; when no device or database call fails and nobody cancels it succeeds exactly then |
| SnapshotExport.NextRecord | src/account/NativeSnapshot.cpp:19-76 | One pulled record is the next one of the staged sequence; the end needs a footer that is the last line |
| SnapshotExport.PullRecords | src/account/NativeSnapshot.cpp:19-112 | Pulling through short reads yields the records of the whole split, and fails without device errors only where they are refused |
| SnapshotExport.StageNative | src/account/NativeSnapshot.cpp:114-122 | Staging validates the frozen file and feeds exactly its records; on a device that does not fail the outcome is a function of the bytes |
| SnapshotRoundTrip.PickIsPartition | src/account/NativeSnapshotExport.cpp:93-154 | Ordering the spool by category is a stable partition of the state |
| SnapshotRoundTrip.BodyReadsBack | src/account/NativeSnapshot.cpp:26-74 | Every printed line is read back as the record it was printed from, with `display`, `deleted` and `user_inserted`, and entry lines are skipped |
| SnapshotRoundTrip.RoundTrip | src/account/NativeSnapshotExport.cpp:93-166 | For every engine state whose export succeeds, staging the exported file yields exactly that state's records: overlays, then positions, then selections |
| SnapshotConsistency.ExportIsFramed | src/account/NativeSnapshotExport.cpp:139-163 | Whatever the state, the printed lines have the envelope's order, count and checksum; only a single line can be refused |
| SnapshotConsistency.TableUnique | src/account/NativeSnapshotExport.cpp:98-131 | The table's key and indexes accept an export exactly when no two records describe the same word, position or selection |
| SnapshotConsistency.ExportCorresponds | src/account/NativeSnapshotExport.cpp:106-116 | For a state of distinct records, the entries and live overlays of its export always correspond |
| SnapshotConsistency.ExportContents | src/account/NativeSnapshotExport.cpp:93-131 | The contents check refuses an export only for an unreadable line, for too many records or entries, or for clashing records |
| SnapshotConsistency.ExportSucceedsByLine | src/account/NativeSnapshotExport.cpp:49-168 | Exactly when an export succeeds, line by line: representable, within the limits, every printed line acceptable to the readers, no clash |
| SnapshotPortability.PrintedRowIff | src/account/NativeSnapshotExport.cpp:93-131 | The readers accept the line printed for a record exactly when the record's own values are in range |
| SnapshotPortability.BodyRowsIff | src/account/NativeSnapshotExport.cpp:93-131 | The same for the whole body: every line is accepted exactly when every record is in range |
| SnapshotPortability.SpoolFitsIff | src/account/NativeSnapshotExport.cpp:77-92 | The spool's own limits are met exactly when there are at most 500000 lines, each short enough to be read |
| SnapshotPortability.ExportSucceedsIff | src/account/NativeSnapshotExport.cpp:49-168 | Exactly when an export succeeds, by the state's own fields: every record in range and displayed as it is spelt, no two describing the same thing, at most 500000 lines and 100000 words of the user's, and a text the JSON library reads back within the size limits |
| SnapshotPortability.TombstonesWeighNothing | src/account/SnapshotContents.cpp:134 | A deleted word of weight 0 can be carried; a live one never |
| OnlineProtocol.GenerationNamesOneComposition | src/InputController.cpp:17-28 | Two states of a run that show the same generation show the same context, composition and query, across rebuilt controllers and other contexts |
| OnlineProtocol.EveryRequestWasSubmitted | src/online/OnlineCandidateService.cpp:52-77 | Every request that waits, is fetched or is queued was submitted earlier by its own context for the controller it had then |
| OnlineProtocol.AppliedCandidateIsCurrent | src/IBusEngine.cpp:352-369 | A candidate that is applied was fetched for a request made since the last change of the live controller's composition and query |
| OnlineProtocol.FetchesOncePerToken | src/online/OnlineCandidateService.cpp:135-192 | Of any two provider calls of a worker the later one serves a later token |
| OnlineProtocol.FetchIsDebounced | src/online/OnlineCandidateService.cpp:141-167 | A call starts only for the request that is the latest and has stood for the whole debounce, by the cloud worker only if its cloud flag is set, by the AI worker only if its AI flag is set and AI was enabled |
| OnlineProtocol.FetchWasSwitchedOn | src/IBusEngine.cpp:309-342 | A provider is called only for the last thing the frontend submitted, with no clear in between, and at that moment the user's settings had the source switched on, for AI with a readable credential, and the session had asked for it with this text |
| OnlineProtocol.LatestIsLastWord | src/online/OnlineCandidateService.cpp:52-77 | What a running service holds as its latest request is the last thing its frontend said to it: submitted then, and neither cleared nor replaced since |
| OnlineProtocol.RequestCanBeServed | src/online/OnlineCandidateService.cpp:119-204 | Liveness: at any moment of any run, wherever its worker is, a standing request can still be answered by moves of the worker and the clock alone, and its answer then reaches the session |
| OnlineProtocol.DueTimeoutFetches | src/online/OnlineCandidateService.cpp:141-167 | When the debounce of the latest request is over, the worker of each source it wants calls its provider, and no other does |
| OnlineProtocol.SubmitIsLatest | src/online/OnlineCandidateService.cpp:52-77 | A submitted request with text and one usable flag becomes the latest under a new token; any other clears; a stopped service ignores it |
| OnlineProtocol.WaitingHasServed | src/online/OnlineCandidateService.cpp:129-167 | A worker that waits with nothing new to look at has called its provider for the latest request, or is not wanted by it |
| OnlineProtocol.DeliveredIffCurrent | src/IBusEngine.cpp:352-369 | A delivery changes the candidates exactly when its generation is the live controller's and the session accepts it |
| OnlineProtocol.AnswerPassesOnlyIfLatest | src/online/OnlineCandidateService.cpp:169-195 | An answer passes the cancellation check only while its request is still the latest |
| TextTransform.PunctuationFormatter.Chinese | src/TextTransform.cpp:38-117 | The mark of every key and the formatter afterwards: alternating quotes, nested book titles, a surplus closing title mark |
| TextTransform.FixedMarks | src/TextTransform.cpp:38-117 | The twenty-three keys with one mark each, which leave the formatter alone |
| TextTransform.QuotesAlternate | src/TextTransform.cpp:38-117 | Each quote key opens and closes in turn, independently of the other |
| TextTransform.TitleMarks | src/TextTransform.cpp:38-117 | The outermost title is double, inner ones single; a surplus closing title stays double and changes nothing |
| TextTransform.PairsAreTypedPairs | src/TextTransform.cpp:174-205 | What closes a pair automatically is the mark the user would have typed to close it |
| TextTransform.OnlyOpeningsArePaired | src/TextTransform.cpp:174-205 | A key opens a pair exactly if it is an opening bracket or title, or a quote about to open |
| TextTransform.PunctuationIffMark | src/TextTransform.cpp:126-161 | Exactly the keys with a Chinese mark are punctuation |
| TextTransform.KeepsAsciiIff | src/TextTransform.cpp:163-172 | A mark stays ASCII exactly for comma, period and colon after an ASCII letter or digit |
| TextTransform.FullWidthIsShifted | src/TextTransform.cpp:207-220 | Full-width forms lie at a fixed distance, the space apart, and no two keys share one |
| PairedPunctuation.Editor.Apply | src/IBusEngine.cpp:611-643 | Deleting, inserting and moving one request at a time gives the answer's effect on the text |
| PairedPunctuation.PunctuateRespectsStack | src/InputController.cpp:721-834 | Every answer pushes the mark it leaves right of the caret, pops the mark it steps over, or moves no caret; it steps over only the plain mark of the key and deletes only the character the same key just kept |
| PairedPunctuation.ClosingIsTyped | src/InputController.cpp:748-795 | A key answered with a closing mark produced it as its plain Chinese mark, never by widening, keeping ASCII or turning a quote round |
| PairedPunctuation.KeptAsTyped | src/InputController.cpp:748-754 | At half width smart punctuation keeps a comma, period or colon after an ASCII letter or digit exactly as typed and remembers when |
| PairedPunctuation.RepeatedMark | src/InputController.cpp:732-746 | The same key within two seconds takes the kept character back and commits the Chinese mark; later it deletes nothing |
| PairedPunctuation.RightEffect | src/InputController.cpp:796-812 | Applying an answer removes exactly the innermost pending mark, adds exactly the one that was pushed, or leaves the text right of the caret alone |
| NestedTyping.OpenStroke | src/InputController.cpp:786-802 | What an opening bracket or title does to text, stack and formatter, with and without pairing |
| NestedTyping.CloseStroke | src/InputController.cpp:803-834 | What the matching closing key does in both modes |
| NestedTyping.TypingKeepsRelated | src/InputController.cpp:786-834 | From any open brackets, a well-nested rest of the keys brings both ways of typing together |
| NestedTyping.PairingChangesNoText | src/TextTransform.cpp:174-205 | For every well-nested sequence of bracket and book-title keys of any depth, at either width, with commits in between, automatic pairing leaves the same text before and after the caret, the same stack and the same formatter as typing without it |
| NestedTyping.SameTextIffNoQuotes | src/InputController.cpp:786-802 | When the brackets nest, both ways of typing give the same text if and only if no quote key is among the strokes |
| NestedTyping.TwoQuotes | src/InputController.cpp:788-795 | Two presses of the quote key: four marks with pairing, two without |
| NestedTyping.HandlerTypesAStroke | src/InputController.cpp:721-834 | The key handler's answer outside a composition is the stroke these results are about |
| InputController.Controller.HandleKey | src/InputController.cpp:123-316 | A new generation is drawn whenever the composition may have changed, the stack follows the answer, unhandled keys move no caret; every punctuation key, in every mode, turns the page, asks the session or is answered by the punctuation function as its route says, every other key asks the session exactly what it should or moves the highlight, and host shortcuts finish and clear the stack |
| InputController.Controller.EmitPunctuation | src/InputController.cpp:721-834 | The imperative code computes the punctuation function: repetition, smart ASCII, width, pairing and history |
| InputController.Controller.CommitPunctuation | src/InputController.cpp:721-834 | The same including the composition it finishes first |
| InputController.Controller.ImePunctuation | src/InputController.cpp:166-239 | In local modes and while composing, a punctuation key goes exactly where its route says: shifted digits select, paging keys page, the session sees the rest, and what it refuses is committed as a mark |
| InputController.Controller.ImeDigit | src/InputController.cpp:255-277 | A digit selects from the page of the highlight, or is composed in Unicode mode |
| InputController.Controller.MoveBy | src/InputController.cpp:850-884 | The highlight moves by a step and always stays on a candidate |
| InputController.Controller.SetMode | src/InputController.cpp:332-355 | A change of mode draws a new generation and takes punctuation to what the lock or the new mode demands; leaving input-method mode asks the session to finish and hands on what it commits; pending marks, width and lock stay |
| InputController.Controller.SetPunctuationMode | src/InputController.cpp:387-397 | The mode is the one asked for; the answer is handled, and the generation new, exactly when it changed; pending marks and formatter stay |
| InputController.Controller.SetCharacterWidth | src/InputController.cpp:405-415 | The same for the width |
| InputController.Controller.CommitFullWidth | src/InputController.cpp:836-848 | The full-width form of a key is committed exactly when the width is full and the key has one |
| InputController.Controller.ApplyLock | src/InputController.cpp:366-380 | Punctuation is what the lock demands, or follows the mode |
| InputController.Controller.InvalidateContext | src/InputController.cpp:470-478 | Stack and formatter are forgotten under a new generation |
| InputController.Controller.ApplyOnlineCandidate | src/InputController.cpp:490-509 | A candidate of another generation is not even offered; an applied one changes only the candidate list, and the highlight stays where it was or on the last candidate |
| InputController.Sequence.Next | src/InputController.cpp:17-28 | Every number is larger than all before |
| InputController.ShiftedDigitIsExact | src/InputController.cpp:167-176 | Exactly the nine symbols of the digit row select, each its own place |
| EngineKeys.Engine.DispatchKey | src/IBusEngine.cpp:763-782 | Exactly this key is given to the controller with what the client reports in front of the caret; it is consumed if and only if the controller handled it, and then the answer's commit, deletion and caret movement are exactly what happens to the text on both sides of the caret; otherwise nothing is written except what the session commits before the key goes to the host |
| EngineKeys.Engine.ProcessKey | src/IBusEngine.cpp:728-782 | Which keys toggle the mode, which go to the controller and which to the application; each changes the text exactly as its answer says, and the application sees a key only after the composition has been committed and the stack emptied |
| EngineKeys.Engine.ToggleMode | src/IBusEngine.cpp:733-738 | The other mode is entered; leaving input-method mode asks the session to finish, and exactly what it commits goes in front of the caret |
| EngineKeys.Engine.CommitForPassthrough | src/IBusEngine.cpp:717-726 | The session is asked to finish, exactly what it commits is inserted in front of the caret, and the stack is empty |
| EngineKeys.Engine.Rebuild | src/IBusEngine.cpp:1258-1264 | A rebuilt controller starts with an empty stack, a generation later than any before, and the saved mode, lock, punctuation and width; the toggle bindings and the default mode are adopted |
| EngineKeys.Engine.CreateController | src/IBusEngine.cpp:1063-1078 | Mode, then lock, and without a lock the saved punctuation rather than the mode's |
| EngineKeys.Engine.Enabling | src/IBusEngine.cpp:820-834 | Coming back to this input method starts in the default mode with an empty stack, whatever happened to the text meanwhile |
| EngineKeys.Engine.Handle | src/IBusEngine.cpp:784-932 | What every event does to the text and the controller: focus changes, resets and disabling write nothing, a click selects its page place, navigation keys go to the controller, a property sets exactly its own mode, width or scheme; each answer is applied to the text as it is |
| EngineKeys.MainLoop | src/IBusEngine.cpp:611-782 | Over every run of events, while this input method is the selected one, the text right of the caret begins with the pending closing marks, innermost first |
| ModeToggle.Tracker.Observe | src/IBusKeyMapper.cpp:98-142 | The imperative tracker computes the transition the trace lemmas are about |
| ModeToggle.Tracker.Configure | src/IBusKeyMapper.cpp:78-96 | A binding switched off disarms what it had armed |
| ModeToggle.AloneIff | src/IBusKeyMapper.cpp:8-12 | No other host modifier is reported: the masks, with a tracked Ctrl not counting itself |
| ModeToggle.ChordIff | src/IBusKeyMapper.cpp:102-103 | The chord is a press of Space with Ctrl and Alt and neither Shift nor another host modifier |
| ModeToggle.TapIff | src/IBusKeyMapper.cpp:115-128 | Each key is tracked for its own binding |
| ModeToggle.ArmedIff | src/IBusKeyMapper.cpp:115-137 | Over every trace, with changing bindings, a tap is armed exactly when its last press was unmodified and everything since was harmless |
| ModeToggle.ReleaseTogglesIff | src/IBusKeyMapper.cpp:139-141 | A release toggles if and only if its binding is on, no other host modifier is reported and the tap is armed in that sense |
| ModeToggle.HeldIff | src/IBusKeyMapper.cpp:92-113 | The chord is held exactly when the last event was a bound chord press and the chord has stayed on |
| ModeToggle.ChordTogglesIff | src/IBusKeyMapper.cpp:102-112 | Each maximal run of chord presses toggles exactly once, at its first press |
| ModeToggle.OnlyTapsAndChordsToggle | src/IBusKeyMapper.cpp:98-142 | Nothing else ever toggles |
| CredentialSave.PlanIsExact | src/SettingsStore.cpp:1402-1565 | Every slot is planned at most once; stored to exactly when a typed token belongs there, removed exactly when its feature was switched off or the user asked |
| CredentialSave.PlanCredential | src/SettingsStore.cpp:1422-1455 | A token is filed unless it was read back for another provider; the save is refused if and only if the provider has no name, a credential that is needed is missing and the keyring said so, or a lookup it cannot do without failed |
| CredentialSave.MakePlan | src/SettingsStore.cpp:1413-1565 | The lookups and branches compute the plan, and refuse exactly for those reasons |
| CredentialSave.LookUp | src/SettingsStore.cpp:1567-1585 | Every planned store is kept with its true previous value, or one of them could not be looked up, and only then it refuses; a removal is kept if and only if the slot holds something and the keyring said so |
| CredentialSave.Apply | src/SettingsStore.cpp:1610-1630 | All changes are done, or a write was refused and what could be undone was |
| CredentialSave.Rollback | src/SettingsStore.cpp:1587-1608 | If it reports success every slot holds what it held, even where a refused write had taken effect; nothing else is touched |
| CredentialSave.SaveWithSecrets | src/SettingsStore.cpp:1379-1642 | Saved: the typed tokens are filed, of the credentials to forget exactly those that were there and that the keyring could not be asked about remain as they were, all else unchanged. Otherwise the stored settings are the old ones, and after a successful rollback so is every slot. Refused exactly for a reason of the plan, so a silent keyring alone refuses nothing that does not need its answer; one failed write is rolled back, and only a second one needs repair |
| CredentialSave.SavedAi | src/SettingsStore.cpp:1473-1556 | After a save the AI token typed is filed under its provider unless it was read back for another, the credential of a feature switched off or cleared is forgotten, every other AI credential is as it was |
| CredentialSave.SavedVoice | src/SettingsStore.cpp:1473-1565 | The same for voice |
| CredentialSave.SavedTranslation | src/SettingsStore.cpp:1500-1560 | The same for DeepLX, the one translation provider with a credential; account tokens are never touched |
| CredentialSave.ConfigFile.Write | src/SettingsStore.cpp:1198-1359 | Only success replaces the file; a broken file may have been moved aside by then, which changes no loaded setting |
| CredentialSave.SaveIfUnchanged | src/SettingsStore.cpp:1662-1683 | Nothing is even looked up unless the file is still the reviewed version, by its digest or its absence; if it is, the outcome is that of the save |
| CredentialSave.ForgetsAllIff | src/SettingsStore.cpp:1571-1585 | A save forgets all it was asked to if and only if the keyring could be asked about every slot that holds something |
| CredentialSave.SilentKeyringKeepsCredential | src/SettingsStore.cpp:1581-1585 | A feature switched off while the keyring is silent: the removal is dropped and the credential remains |
| AccountSession.CredentialStore.Save | src/account/AccountCredentialStore.cpp:49-68 | One item holds the whole session, written or refused |
| AccountSession.AccountSession.Restore | src/account/AccountSession.cpp:36-48 | A failed lookup leaves the session unrestored; a successful one adopts exactly the keyring's record under a new generation, once |
| AccountSession.AccountSession.Login | src/account/AccountSession.cpp:66-76 | A stale generation makes no request; success stores and adopts exactly the session of the tokens the server granted under a new generation, failure changes neither and has a reason |
| AccountSession.AccountSession.Authorized | src/account/AccountSession.cpp:104-144 | The token is the current session's; one about to expire is refreshed to what the server granted, for the same account, and stored first; a failure ends the session exactly when the server revoked it, never comes without a reason, and its status says which |
| AccountSession.AccountSession.Discard | src/account/AccountSession.cpp:96-103 | Memory forgets the session even if the keyring cannot be cleared |
| AccountSession.AccountSession.Link | src/account/AccountSession.cpp:83-95 | Linking comes back as the same account with the tokens granted under a new generation, or leaves the account alone for a reason |
| AccountSession.AccountSession.BeginLink | src/account/AccountSession.cpp:77-82 | A refused challenge does not end the session |
| AccountSession.AccountSession.Profile | src/account/AccountSession.cpp:150-175 | The profile stored is the one the server answered, for the same account |
| AccountSession.AccountSession.ReadProfileWith | src/account/AccountSession.cpp:150-175 | A profile naming another account is refused; otherwise exactly it is stored and adopted |
| AccountSession.AccountSession.ChangeName | src/account/AccountSession.cpp:176-183 | The change and the profile it produced, under one token; a refused change does not end the session |
| AccountSession.AccountSession.Operate | src/account/AccountSession.cpp:298-450 | An operation sends the current access token; its failure ends the session exactly when it was answered 401, and reports the server's status unless the keyring could not forget the revoked session |
| AccountSession.AccountSession.OperateTwice | src/account/AccountSession.cpp:251-297 | A clipboard change and the list it produced both go under one token; a 401 to either ends the session |
| AccountSession.AccountSession.AccessToken | src/account/AccountSession.cpp:145-149 | The token handed out is the current session's, refreshed when needed |
| AccountSession.AccountSession.ReviewPreferences | src/account/AccountSession.cpp:191-208 | The review carries the generation and the account it was read for |
| AccountSession.AccountSession.ReviewedToken | src/account/AccountSession.cpp:184-190 | A stale review gets no token and makes no request |
| AccountSession.AccountSession.Upload | src/account/AccountSession.cpp:209-228 | A review is uploaded only for the account and the generation it was made for |
| AccountSession.AccountSession.ApplyReview | src/account/AccountSession.cpp:229-250 | The local change runs if and only if the server answered and still holds exactly what was reviewed, uncancelled, for the same account and generation; another answer gives 409 |
| AccountSession.AccountSession.End | src/account/AccountSession.cpp:451-464 | The session ends once the server agreed, and is reported ended only if the keyring was cleared |
| AccountSession.AccountSession.WithCurrentUser | src/account/AccountSession.cpp:27-35 | The operation runs exactly for the account the caller saw |
| AccountSession.Run | src/account/AccountSession.cpp:27-464 | Over every sequence of operations a generation names one account, each change of account is a new generation, every token sent belongs to the account of its caller's generation, and with a keyring whose failed writes change nothing record and memory agree except after a discard that could not clear it |
| AiSuggestionCache.BoundedUtf8 | src/online/AiSuggestionProvider.cpp:41-53 | The longest prefix within the limit that cuts no character |
| AiSuggestionCache.RequestIs | src/online/AiSuggestionProvider.cpp:76-191 | What is sent: configured address and model or the provider's own, prompt up to 8192 bytes, context up to 2048, at most 32 segments of 64 bytes, 1 to 10 candidates, thinking switched off for DeepSeek alone |
| AiSuggestionCache.DefaultsDiffer | src/online/AiSuggestionProvider.cpp:225-260 | Every provider but the custom one has an HTTPS address of its own, and the default model names the provider |
| AiSuggestionCache.EqualKeysSameRequest | src/online/AiSuggestionProvider.cpp:331-353 | Equal cache keys are keys of byte-for-byte the same request |
| AiSuggestionCache.Cache.Open | src/online/AiSuggestionProvider.cpp:127-144 | A changed credential empties the cache; a hit is an earlier answer to the request that would be sent now, under the same credential |
| AiSuggestionCache.Cache.Evict | src/online/AiSuggestionProvider.cpp:213-217 | Exactly the oldest keys go |
| AiSuggestionCache.Cache.Close | src/online/AiSuggestionProvider.cpp:205-221 | An answer of the current credential is stored, first in first out; one of a replaced credential is not |
| AiSuggestionCache.Schedule | src/online/AiSuggestionProvider.cpp:110-223 | Over every schedule of concurrent fetches at most 128 entries, a queue without repetitions equal to the key set, and every entry answered under the current credential epoch |
| ClipboardHistory.Store.Add | src/ClipboardHistory.cpp:192-216 | Exactly when a text is added, and the new list |
| ClipboardHistory.Store.RemoveRead | src/ClipboardHistory.cpp:218-233 | What a removal writes, from the list it read before taking the lock |
| ClipboardHistory.AddAll | src/ClipboardHistory.cpp:192-216 | Adding one by one leaves the specified list |
| ClipboardHistory.TruncationCommutes | src/ClipboardHistory.cpp:209-214 | Truncating before an add does not change what is visible after it |
| ClipboardHistory.StoredIsRecentPrefix | src/ClipboardHistory.cpp:192-216 | For every sequence of adds the stored list has no duplicates and is the first fifty items of the unlimited most-recent-first list |
| ClipboardHistory.UnlimitedKeepsEverything | src/ClipboardHistory.cpp:192-216 | The unlimited list holds exactly the texts whose add reached the disk |
| ClipboardHistory.StoredByAdd | src/ClipboardHistory.cpp:205-215 | Most recent first: of two stored texts the one in front was added after the other was added last |
| ClipboardHistory.RemoveKeepsAddIff | src/ClipboardHistory.cpp:224-232 | An add between the read and the write of a removal survives if and only if it adds the removed text or the text that is newest anyway |
| ClipboardHistory.RemoveLosesAnAdd | src/ClipboardHistory.cpp:224-232 | Removing one text while another is added loses the other |

## Left out

- The engine session, `stream_dictionary_state`, `stage_dictionary_state` and the helpcode schemas are not part of this model; the session is an object with the contract above.
- JSON text, SHA-256, SQLite and the timestamp grammar: parameters and a list of rows; `StrictKeys` is one predicate on lines.
- Which call of a snapshot's work is cancelled or fails: on a device not marked reliable any of them may.
- Wrap-around of 64-bit request tokens, account generations and credential epochs. The nesting depth of book titles does not overflow.
- InputController.Sequence.Next: does not model the error raised when all 64-bit numbers have been drawn; `OnlineProtocol` keeps the bound.
- `translate_ibus_key`, the INI file key by key, enum names and validators: one branch per field.
- The translation service and its worker: only whether a context has one and on which paths.
- Applications that move the caret or change text without reporting a key, a reset or a focus change; in particular the modifier presses and releases that are handed back without emptying the stack are assumed not to act on the text. Keys reach the engine only while its input method is the selected one.
- Other writers of the keyring during a save, and the configuration lock file.
- File ownership and permission checks, `fsync` and durability beyond the reported flag, leftover temporary files.
- HTTP, endpoint and token validation, and parsing of provider answers.
- Account operations of the same shape are not listed one by one: each is `Operate` or `OperateTwice`.
- `ClipboardHistory::normalize`, the UTF-8 filter on reading and `clear`.
- Text is one `char` per Unicode character in the typing modules and one per byte in the snapshot and cache modules.
- NativeRestoreReview.Lifetime: the bus, the download and the resource preparation before staging are not modelled; a lost reply may or may not have published.
- OnlineProtocol.AppliedCandidateIsCurrent: the worker threads are steps of a transition system, not methods, since threads interleave between lock regions.
- Windows and panels, voice and handwriting input, process launching, bootstrap copying and the build scripts.
