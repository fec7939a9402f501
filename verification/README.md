# VISA: verification models

Models in Dafny of the parts of VISA that are hardest to get right, with proofs of what they promise.
`dafny verify dfyconfig.toml` checks all of it.

**Action queues.** Commands on an instance (start, reboot, delete and so on) wait in a queue for that instance; only the
head is given to the thread pool, a command of a type that already waits is coalesced, waiting commands can be cancelled,
and each finish brings the next one on.
`ActionQueue` is the transition system, one step for each synchronized section; `ActionSafety` its invariant; `ActionRuns`
what holds over whole runs; `ActionStates` which state of a command is stored; `ActionManager` the classes of the program, each method proved against a step.

**Expirations.** Sweeps create, remove and carry out the expiration of idle and of old instances.
`Expiration` says what each sweep does to the stored records, `ExpirationRuns` what whole runs keep, with requests served while a
sweep waits; `ExpirationRows` when rows come and go; `ExpirationCounterexamples` has runs that go wrong, and `ExpirationService` the services as methods.

**Cloud clients.** An index of clients in memory follows a table of provider configurations.
`CloudGateway` has the index, the table and the requests; `CloudService` the classes; `CloudInstances` the grouping of
instances by cloud.

**Codecs and parsers of the bundled Swagger UI.** `BinaryExpression` is esprima's operator-precedence parser, `YamlScalar`
js-yaml's printer and scanner for double-quoted scalars (`YamlItems` says what the scanner reads), and `Utf8` (with
`Utf8Forms`), `FixedWidth`, `Base64` (with `Base64Laws`) and `Buffer` are the node-style Buffer with base64-js. `Basics` holds what the modules share.

Standards: ECMA-262 (7th edition) sections 12.6 to 12.13, YAML 1.2 sections 5.7 and 7.3.1, RFC 3629 sections 3 and 4,
RFC 4648 section 4.

What the models show the code not to do:

- Cancelling the head of a queue breaks the queue, and exactly that does (`CancelSafeIffNotHead`); if the head has been
  submitted, its finish loses the action that is then first in the queue (`CancelStartedHeadLosesNext`, `FinishLosesIff`); if its
  future has not been run yet, no action of the instance ever starts again (`LaunchingHeadCancelled`, `BlockedForever`).
- Cancelling through a second object of a command does not reach the queue: unless it is running, the command starts all the same
  (`CancelIsForGoodIff`, `CopyCancelIsOverwritten`).
- A delete sweep fixes its list once and then waits for each deletion. Activity in the millisecond in which an expiration is
  created, activity after the remove sweep, and an extension, an activation or activity during the waits are not noticed. It takes an
  instance that may stay exactly when the row has lost its reason in one of these ways and neither limit has come
  (`RoundIsWrongIff`, `SameInstantIsReached`, `ActivityBetweenSweepsIsReached`, `ExtensionDuringSweepIsReached`).
- `copy` between two Buffers over one memory may overwrite its source before it has read it (`CopyBringsSourceIff`,
  `SliceIsOvertaken`).
- Saving a configuration of an unknown type keeps the old client in the gateway (`SaveAgreesIff`); the requests never do it.
- The UTF-8 encoder forgets a last lead surrogate that follows a lead (`EncodesAllIff`).
- `copy` returns a negative count for a source range that ends at 0 before it starts (`CountIsNaturalIff`).

The modelled files are minified on a few lines in the case of the JavaScript bundle, so its rows cite whole lines.

## Model

| member | source | states |
|---|---|---|
| `ActionSafety.StepKeepsInv` | visa-business/src/main/java/eu/ill/visa/business/concurrent/InstanceActionManager.java:42-168 | every step of a run in which cancel hits no head keeps the invariant: each mapped instance has a non-empty queue with distinct action types, its head is the only action of the instance with a worker, accepted minus cancelled is finished ++ queue, started is finished ++ running head |
| `ActionSafety.RunKeepsInv` | visa-business/src/main/java/eu/ill/visa/business/concurrent/InstanceActionManager.java:42-168 | the invariant holds at every point of every such run, whatever the interleaving |
| `ActionSafety.CancelSafeIffNotHead` | visa-business/src/main/java/eu/ill/visa/business/concurrent/InstanceActionManager.java:92-114 | a cancel keeps the invariant exactly when the command does not head its queue |
| `ActionRuns.MutualExclusion` | visa-business/src/main/java/eu/ill/visa/business/concurrent/InstanceActionManager.java:42-168 | in no run, cancels of heads included, do two actions of one instance run at the same time |
| `ActionRuns.StepKeepsExclusive` | visa-business/src/main/java/eu/ill/visa/business/concurrent/InstanceActionManager.java:42-168 | every step keeps at most one launched, submitted or running action an instance, and only of instances that have a queue |
| `ActionRuns.StartOrder` | visa-business/src/main/java/eu/ill/visa/business/concurrent/InstanceActionManager.java:59-134 | per instance the actions start in acceptance order with the cancelled ones left out, none twice; when the instance has no queue all of them have finished |
| `ActionRuns.RunSafety` | visa-business/src/main/java/eu/ill/visa/business/concurrent/InstanceActionManager.java:42-168 | the same at every point of a run from the start, and coalesced or dropped commands are never started |
| `ActionRuns.StaysCancelled` | visa-business/src/main/java/eu/ill/visa/business/concurrent/InstanceActionManager.java:92-168 | no step, not even a cancel of a head, takes a command out of CANCELLED once a start can no longer overwrite it |
| `ActionRuns.CancelledForever` | visa-business/src/main/java/eu/ill/visa/business/concurrent/InstanceActionManager.java:92-168 | the same over whole runs, guarded or not |
| `ActionRuns.CancelIsForGoodIff` | visa-business/src/main/java/eu/ill/visa/business/concurrent/InstanceActionManager.java:92-155 | a queued command is cancelled for good exactly when it is running, or when the queued object itself is cancelled before its runner has reached the pool; in the second case it was not started and its future is dead |
| `ActionRuns.PooledIsStarted` | visa-business/src/main/java/eu/ill/visa/business/concurrent/InstanceActionManager.java:92-142 | a runner in the pool stays there until it starts, and the start stores RUNNING whatever was cancelled |
| `ActionRuns.CopyCancelIsOverwritten` | visa-business/src/main/java/eu/ill/visa/business/concurrent/InstanceActionManager.java:92-142 | a queued command, waiting or submitted, that is cancelled through a second object, for instance one loaded from the database: on every way on without new commands in which its queue empties it starts, and the start overwrites the stored CANCELLED with RUNNING |
| `ActionRuns.CopyCancelledStarts` | visa-business/src/main/java/eu/ill/visa/business/concurrent/InstanceActionManager.java:92-142 | there always is such a way |
| `ActionRuns.CancelStartedHeadLosesNext` | visa-business/src/main/java/eu/ill/visa/business/concurrent/InstanceActionManager.java:92-134 | after a started head is cancelled, its finish pops the next action, which is then in no queue and with no worker although accepted, not cancelled and not started |
| `ActionRuns.SubmittedHeadCancelled` | visa-business/src/main/java/eu/ill/visa/business/concurrent/InstanceActionManager.java:92-114 | a head cancelled once it is submitted or running leaves the queue to the others and keeps its worker |
| `ActionRuns.FinishLosesIff` | visa-business/src/main/java/eu/ill/visa/business/concurrent/InstanceActionManager.java:116-134 | in every run the finish of a command that was cancelled out of its queue loses another action exactly when one is in the queue by then, the one at its head |
| `ActionRuns.LaunchingHeadCancelled` | visa-business/src/main/java/eu/ill/visa/business/concurrent/InstanceActionManager.java:84-114 | a head cancelled before its future was run leaves its instance mapped with nothing on the way to a worker |
| `ActionRuns.StepKeepsBlocked` | visa-business/src/main/java/eu/ill/visa/business/concurrent/InstanceActionManager.java:42-168 | whatever step is taken, such an instance stays so, and none of its commands starts |
| `ActionRuns.BlockedForever` | visa-business/src/main/java/eu/ill/visa/business/concurrent/InstanceActionManager.java:42-168 | in every run, no command of it is ever started again |
| `ActionRuns.StartedHeadIsReached` | visa-business/src/main/java/eu/ill/visa/business/concurrent/InstanceActionManager.java:42-142 | such states are reached: two queued commands, of which the first has started |
| `ActionRuns.FinishTakesOneOff` | visa-business/src/main/java/eu/ill/visa/business/concurrent/InstanceActionManager.java:116-168 | every finish, success or failure, takes exactly one action off the outstanding ones and submits the next waiting one if there is one |
| `ActionRuns.InternalStepProgress` | visa-business/src/main/java/eu/ill/visa/business/concurrent/InstanceActionManager.java:116-168 | every launch, begin and finish brings the steps left down |
| `ActionRuns.NotStuck` | visa-business/src/main/java/eu/ill/visa/business/concurrent/InstanceActionManager.java:42-134 | while an instance has a queue, a launch, a begin or a finish can happen |
| `ActionRuns.Drain` | visa-business/src/main/java/eu/ill/visa/business/concurrent/InstanceActionManager.java:116-134 | from every state that satisfies the invariant a run without new commands empties the map, and everything accepted and not cancelled has finished in order |
| `ActionRuns.InternalRunsAreShort` | visa-business/src/main/java/eu/ill/visa/business/concurrent/InstanceActionManager.java:116-134 | no run without new commands is longer than the steps left |
| `ActionRuns.MaximalRunDrains` | visa-business/src/main/java/eu/ill/visa/business/concurrent/InstanceActionManager.java:116-134 | a run without new commands that cannot go on has emptied the map, with everything accepted and not cancelled finished in order |
| `ActionStates.EnqueueStores` | visa-business/src/main/java/eu/ill/visa/business/concurrent/InstanceActionManager.java:66-80 | queueing stores QUEUED and gives the command a future if no action of its type is in the queue of the instance, and TERMINATED and no future if one is; no other command changes its state |
| `ActionStates.FinishStores` | visa-business/src/main/java/eu/ill/visa/business/concurrent/InstanceActionManager.java:144-168 | a finish leaves object and row TERMINATED if the action ran through and FAILED if not, but CANCELLED if the stored state was CANCELLED; no other command changes its state |
| `ActionStates.StoredIsTold` | visa-business/src/main/java/eu/ill/visa/business/concurrent/InstanceActionManager.java:42-168 | in every run the stored state of each command is the one its own steps tell: QUEUED or TERMINATED by its queueing, CANCELLED by a cancel, RUNNING by its start, TERMINATED or FAILED by its finish unless it was cancelled |
| `ActionStates.OnlyUsersHaveRows` | visa-business/src/main/java/eu/ill/visa/business/services/InstanceCommandService.java:81-86 | in every run a command has a row, as soon as the manager has set its state, exactly when it has a user |
| `ActionStates.StateTellsPlace` | visa-business/src/main/java/eu/ill/visa/business/concurrent/InstanceActionManager.java:42-168 | in every run the stored state of a command that was not cancelled is QUEUED exactly when it was accepted and has not started, RUNNING exactly while it runs, TERMINATED or FAILED exactly when it has finished or was coalesced, and TERMINATED if coalesced |
| `ActionStates.EndState` | visa-business/src/main/java/eu/ill/visa/business/concurrent/InstanceActionManager.java:144-168 | in every run, from the finish of a command until a later cancel, object and row are TERMINATED if the action ran through, FAILED if not, and CANCELLED if that was stored before |
| `ActionStates.EndOfUncancelled` | visa-business/src/main/java/eu/ill/visa/business/concurrent/InstanceActionManager.java:144-168 | a finished command that is never cancelled is TERMINATED exactly when its action ran through and FAILED exactly when it did not |
| `ActionStates.CoalescedState` | visa-business/src/main/java/eu/ill/visa/business/concurrent/InstanceActionManager.java:66-71 | in every run a command whose type was in the queue already is TERMINATED from then on until somebody cancels it |
| `ActionManager.InstanceActionFuture.Run` | visa-business/src/main/java/eu/ill/visa/business/concurrent/InstanceActionFuture.java:13-16 | a fresh future submits its runner and becomes done; any other is left alone |
| `ActionManager.InstanceActionFuture.Cancel` | visa-business/src/main/java/eu/ill/visa/business/concurrent/InstanceActionFuture.java:9-16 | a fresh future is dead and never submits; a done one is left alone |
| `ActionManager.InstanceActionDispatcher.Execute` | visa-business/src/main/java/eu/ill/visa/business/concurrent/InstanceActionDispatcher.java:30-32 | the runner joins the end of the work queue |
| `ActionManager.InstanceActionDispatcher.Take` | visa-business/src/main/java/eu/ill/visa/business/concurrent/InstanceActionDispatcher.java:24-28 | a free thread takes the runner that has waited longest |
| `ActionManager.InstanceActionManager.Accept` | visa-business/src/main/java/eu/ill/visa/business/concurrent/InstanceActionManager.java:46-82 | the synchronized block of `queue` on the map of deques does what the step DoQueue says, and keeps map, futures and pool in line with the state of the transition system; object and row are QUEUED if there is a new future, else TERMINATED |
| `ActionManager.InstanceActionManager.Launch` | visa-business/src/main/java/eu/ill/visa/business/concurrent/InstanceActionManager.java:84-87 | the `run()` after the lock is released is the step DoLaunch |
| `ActionManager.InstanceActionManager.Execute` | visa-business/src/main/java/eu/ill/visa/business/concurrent/InstanceActionManager.java:34-40 | queueing a command under one lock is the step DoExecute |
| `ActionManager.InstanceActionManager.Cancel` | visa-business/src/main/java/eu/ill/visa/business/concurrent/InstanceActionManager.java:92-114 | state first, then the search by `equals`, `removeIf` and `cancel(false)`: the step DoCancel, for the queued object and for a copy; the object given and the row are CANCELLED |
| `ActionManager.InstanceActionManager.EqualsIsMatch` | visa-core/src/main/java/eu/ill/visa/core/domain/InstanceCommand.java:76-89 | the equality over user, instance, type and state that `cancel` searches with is the match of the transition system |
| `ActionManager.InstanceActionManager.HandleNext` | visa-business/src/main/java/eu/ill/visa/business/concurrent/InstanceActionManager.java:116-134 | popping the head and running the next future, or removing the instance, is HandleNext of the transition system |
| `ActionManager.InstanceActionManager.Begin` | visa-business/src/main/java/eu/ill/visa/business/concurrent/InstanceActionManager.java:137-142 | taking a runner and `onActionStart` are the step DoBegin; object and row are RUNNING |
| `ActionManager.InstanceActionManager.Finish` | visa-business/src/main/java/eu/ill/visa/business/concurrent/InstanceActionRunner.java:31-50 | the end of `call`, by `onActionTerminated` or by `onActionFailed`, is the step DoFinish; object and row are CANCELLED if the row was, else TERMINATED after the one and FAILED after the other |
| `BinaryExpression.RightTreeIsReference` | visa-web/src/main/resources/swagger-static/swagger-ui-standalone-preset.js:15 | a tree that reads as the input and whose left operands bind at least as tightly, right operands more tightly than their operator is the tree of the recursive account, which splits at the last of the weakest operators |
| `BinaryExpression.OneRightTree` | visa-web/src/main/resources/swagger-static/swagger-ui-standalone-preset.js:15 | there is only one such tree |
| `BinaryExpression.ReferenceIsRight` | visa-web/src/main/resources/swagger-static/swagger-ui-standalone-preset.js:15 | and there always is one: the recursive account |
| `BinaryExpression.Parser.ReduceWhile` | visa-web/src/main/resources/swagger-static/swagger-ui-standalone-preset.js:15 | the inner loop keeps stack and markers the weave of right trees with one marker for each node, the start of its leftmost operand, and stops where the next operator may go on top |
| `BinaryExpression.Parser.Fold` | visa-web/src/main/resources/swagger-static/swagger-ui-standalone-preset.js:15 | the last loop joins the stack into one right tree |
| `BinaryExpression.Parser.ParseBinaryExpression` | visa-web/src/main/resources/swagger-static/swagger-ui-standalone-preset.js:15 | for every token sequence the parser ends; it takes operands and operators in turn, the token it stops before is no operator of the grammar, and the tree is the one right tree over what it took, equal to the recursive account; it fails exactly when an operand is missing at the start or behind an operator |
| `BinaryExpression.PrecedenceFollowsGrammar` | visa-web/src/main/resources/swagger-static/swagger-ui-standalone-preset.js:14-15 | the numbers of the table order the operators as the productions of ECMA-262 do, and `in` is an operator only where it is allowed |
| `BinaryExpression.PrecedenceIffOperator` | visa-web/src/main/resources/swagger-static/swagger-ui-standalone-preset.js:14-15 | a token has a precedence exactly when it is one of the operators of these productions, `in` only where it is allowed |
| `YamlScalar.EscapeString` | visa-web/src/main/resources/swagger-static/swagger-ui-standalone-preset.js:18-19 | the printer's loop writes the concatenation of the pieces of its characters |
| `YamlScalar.DumpScans` | visa-web/src/main/resources/swagger-static/swagger-ui-standalone-preset.js:7 | scanning the printed form from its first character gives the string and stops right behind the closing quote |
| `YamlScalar.RoundTrip` | visa-web/src/main/resources/swagger-static/swagger-ui-standalone-preset.js:7-19 | the same wherever the quoted form stands in a text: every string of code units comes back, over plain characters, named escapes, \x and \u |
| `YamlScalar.DumpIsPrintable` | visa-web/src/main/resources/swagger-static/swagger-ui-standalone-preset.js:18-19 | the printed form holds only characters that YAML lets stand in a double-quoted scalar on one line |
| `YamlScalar.DumpIsInjective` | visa-web/src/main/resources/swagger-static/swagger-ui-standalone-preset.js:18-19 | different strings have different printed forms |
| `YamlScalar.State.ReadEscape` | visa-web/src/main/resources/swagger-static/swagger-ui-standalone-preset.js:7 | the branch for a backslash: a folded line break, a named escape or a hexadecimal one of 2, 4 or 8 digits, in step with the scanner function |
| `YamlScalar.State.ReadFold` | visa-web/src/main/resources/swagger-static/swagger-ui-standalone-preset.js:7 | a stretch of line breaks (LF, CR or CR LF) and the blanks behind each is passed as a whole; one break gives a space, and of several each but the first a line feed; blanks before it stay in the text |
| `YamlScalar.State.ReadDoubleQuotedScalar` | visa-web/src/main/resources/swagger-static/swagger-ui-standalone-preset.js:7 | the scanner with its captured segments gives on every input what the character-by-character function gives: scalar and position, error, or no double-quoted scalar; `YamlItems.ScanIff` says what that is |
| `YamlItems.ScanIff` | visa-web/src/main/resources/swagger-static/swagger-ui-standalone-preset.js:7 | a scan succeeds exactly on a text made up, to a closing quote, of plain characters that begin no document separator on a line, the eighteen escapes by letter, \x, \u and \U with their digits in either case, line breaks, and line breaks behind a backslash; it gives what these mean, and the place behind the quote |
| `YamlItems.BreaksFold` | visa-web/src/main/resources/swagger-static/swagger-ui-standalone-preset.js:7 | between plain characters one line break with its blanks is a space, and n > 1 of them are n - 1 line feeds |
| `YamlItems.EscapedBreaksVanish` | visa-web/src/main/resources/swagger-static/swagger-ui-standalone-preset.js:7 | behind a backslash they give nothing |
| `YamlItems.Utf16IsPair` | visa-web/src/main/resources/swagger-static/swagger-ui-standalone-preset.js:7 | an escape above the first plane gives the surrogate pair of its code point |
| `YamlItems.PrintedForms` | visa-web/src/main/resources/swagger-static/swagger-ui-standalone-preset.js:18-19 | the printer escapes by letter exactly the fifteen characters that have one there, leaves other printable ones alone and writes the rest as two or four upper-case digits |
| `Utf8.Encode` | visa-web/src/main/resources/swagger-static/swagger-ui-standalone-preset.js:14 | the encoder with its remembered lead surrogate writes the characters of the string, as many as fit the limit, but not a last lead that follows a lead |
| `Utf8.LimitedIsLongest` | visa-web/src/main/resources/swagger-static/swagger-ui-standalone-preset.js:14 | under a limit it writes the longest run of whole characters that fits |
| `Utf8.EncodesAllIff` | visa-web/src/main/resources/swagger-static/swagger-ui-standalone-preset.js:14 | every character, and U+FFFD for each stray surrogate, is written exactly when the string does not end in two leads; then the last U+FFFD is missing |
| `Utf8.Decode` | visa-web/src/main/resources/swagger-static/swagger-ui-standalone-preset.js:14 | the decoder ends on every byte array and range and yields what the recursive decoding yields |
| `Utf8.JoinUnits` | visa-web/src/main/resources/swagger-static/swagger-ui-standalone-preset.js:14 | joining slices of 4096 units gives the units |
| `Utf8.DecodedIsWellFormed` | visa-web/src/main/resources/swagger-static/swagger-ui-standalone-preset.js:14 | whatever the bytes, the decoder yields well-formed UTF-16 |
| `Utf8.DecodeEncodedIff` | visa-web/src/main/resources/swagger-static/swagger-ui-standalone-preset.js:14 | decoding what was encoded gives the string back exactly when it is well-formed |
| `Utf8.PointIffSequence` | visa-web/src/main/resources/swagger-static/swagger-ui-standalone-preset.js:14 | the decoder finds a code point exactly where the table of RFC 3629, section 4, allows a sequence, and takes as many bytes |
| `Utf8.EncodedIsValid` | visa-web/src/main/resources/swagger-static/swagger-ui-standalone-preset.js:14 | whatever the string, the encoder writes valid UTF-8 |
| `Utf8.EncodeDecodedIff` | visa-web/src/main/resources/swagger-static/swagger-ui-standalone-preset.js:14 | encoding what was decoded gives the bytes back exactly when they are valid UTF-8 |
| `Utf8Forms.PointBytesForm` | visa-web/src/main/resources/swagger-static/swagger-ui-standalone-preset.js:14 | the bytes of a code point are one to four by its range, with the marks and the bits of RFC 3629, section 3; ASCII is one byte, itself |
| `Utf8Forms.UnitsForm` | visa-web/src/main/resources/swagger-static/swagger-ui-standalone-preset.js:14 | a decoded code point gives itself, or the surrogate pair that stands for it |
| `Utf8Forms.CharacterForm` | visa-web/src/main/resources/swagger-static/swagger-ui-standalone-preset.js:14 | the encoder makes of a pair the bytes of its code point, of any other surrogate EF BF BD, of any other unit its bytes |
| `Utf8Forms.SequenceForm` | visa-web/src/main/resources/swagger-static/swagger-ui-standalone-preset.js:14 | the decoder makes of a sequence that the table allows the units of its code point, and of one byte elsewhere U+FFFD |
| `Utf8Forms.WholeEncoding` | visa-web/src/main/resources/swagger-static/swagger-ui-standalone-preset.js:14 | the encoding is that of all characters, but EF BF BD is missing at the end when the string ends in two leads |
| `Utf8Forms.AsciiIsItself` | visa-web/src/main/resources/swagger-static/swagger-ui-standalone-preset.js:14 | ASCII is its own encoding and its own decoding |
| `FixedWidth.MaskedByteIsTwosByte` | visa-web/src/main/resources/swagger-static/swagger-ui-standalone-preset.js:14 | truncating division minus the borrow, kept to 8 bits, is the byte of the two's complement |
| `FixedWidth.BorrowStep` | visa-web/src/main/resources/swagger-static/swagger-ui-standalone-preset.js:14 | the borrow flag is raised for good by the first byte that is not zero |
| `FixedWidth.WriteIntLE` | visa-web/src/main/resources/swagger-static/swagger-ui-standalone-preset.js:14 | checks in order, then exactly the two's complement bytes, lowest first, and no other byte |
| `FixedWidth.WriteIntBE` | visa-web/src/main/resources/swagger-static/swagger-ui-standalone-preset.js:14 | the same, highest first |
| `FixedWidth.ReadIntLE` | visa-web/src/main/resources/swagger-static/swagger-ui-standalone-preset.js:14 | the signed value of the bytes |
| `FixedWidth.ReadIntBE` | visa-web/src/main/resources/swagger-static/swagger-ui-standalone-preset.js:14 | the signed value of the bytes in reverse |
| `FixedWidth.SignedOfBytes` | visa-web/src/main/resources/swagger-static/swagger-ui-standalone-preset.js:14 | the signed value of the bytes of a value that fits is the value |
| `FixedWidth.BytesOfSigned` | visa-web/src/main/resources/swagger-static/swagger-ui-standalone-preset.js:14 | the bytes of the signed value of any bytes are these bytes |
| `FixedWidth.WrittenReadsBack` | visa-web/src/main/resources/swagger-static/swagger-ui-standalone-preset.js:14 | a value that fits is read back from where it was written, in both byte orders and every width |
| `FixedWidth.WidthsAre` | visa-web/src/main/resources/swagger-static/swagger-ui-standalone-preset.js:14 | the values that fit 1, 2, 3, 4 and 6 bytes are the signed ranges of 8, 16, 24, 32 and 48 bits, and a value read is negative exactly when the top bit is set |
| `Base64.FromByteArray` | visa-web/src/main/resources/swagger-static/swagger-ui-standalone-preset.js:14 | encoding in chunks of 16383 bytes, with shifts and masks on a word, gives the unchunked encoding by the bit layout of RFC 4648 |
| `Base64.ToByteArray` | visa-web/src/main/resources/swagger-static/swagger-ui-standalone-preset.js:14 | a length that is no multiple of 4 is refused; otherwise the decoder fills its array with the decoded groups and rest |
| `Base64Laws.EncodedLength` | visa-web/src/main/resources/swagger-static/swagger-ui-standalone-preset.js:14 | n bytes give 4 * ceil(n / 3) characters |
| `Base64Laws.DecodedOfEncoded` | visa-web/src/main/resources/swagger-static/swagger-ui-standalone-preset.js:14 | decoding inverts encoding for every byte array |
| `Base64Laws.EncodedIsCanonical` | visa-web/src/main/resources/swagger-static/swagger-ui-standalone-preset.js:14 | every encoding is canonical: the alphabet only, padding only at the end, and no bits left over |
| `Base64Laws.EncodedOfDecodedIff` | visa-web/src/main/resources/swagger-static/swagger-ui-standalone-preset.js:14 | a text is decoded, and encoding its bytes restores it, exactly when it is canonical |
| `Base64Laws.EncodedGroupIs` | visa-web/src/main/resources/swagger-static/swagger-ui-standalone-preset.js:14 | each three bytes are four characters of the table of RFC 4648, six bits each, the highest first, with `=` in the places for which there is no byte |
| `Base64Laws.DecodedGroupIs` | visa-web/src/main/resources/swagger-static/swagger-ui-standalone-preset.js:14 | each four characters without padding give the three bytes of their 24 bits |
| `Base64Laws.DecodedEndIs` | visa-web/src/main/resources/swagger-static/swagger-ui-standalone-preset.js:14 | a last group with padding gives the one or two bytes that its digits hold in full, left-over bits being dropped |
| `Base64Laws.DigitsAreRead` | visa-web/src/main/resources/swagger-static/swagger-ui-standalone-preset.js:14 | the digits of the table are read as their values, `-` and `_` as the last two, and anything else as 0 |
| `Buffer.SearchForward` | visa-web/src/main/resources/swagger-static/swagger-ui-standalone-preset.js:14 | although its index jumps back, the forward search ends, with the least match at or after the start, or -1 exactly when there is none |
| `Buffer.SearchBackward` | visa-web/src/main/resources/swagger-static/swagger-ui-standalone-preset.js:14 | the greatest match at or before the start, or -1 exactly when there is none |
| `Buffer.IndexOf` | visa-web/src/main/resources/swagger-static/swagger-ui-standalone-preset.js:14 | without an offset the search starts at the first byte forwards and at the last backwards; an offset is kept to 32 bits and counted from the end if negative; a start before the Buffer is the first byte forwards and finds nothing backwards; the least (forwards) or greatest (backwards) match from there, or -1 exactly without one; an empty pattern is not found |
| `Buffer.View.Slice` | visa-web/src/main/resources/swagger-static/swagger-ui-standalone-preset.js:14 | start and end are taken as they are inside the Buffer, counted from the back if negative, and cut to its ends otherwise; an end before the start gives nothing; the slice shares the memory of the Buffer |
| `Buffer.Copy` | visa-web/src/main/resources/swagger-static/swagger-ui-standalone-preset.js:14 | for two Buffers that are one, share memory or do not: the errors in order; otherwise the count is the clamped length, no other byte of the memory changes, and what arrives is the old source range, or, where the copy overtakes its source, that range read as it is written |
| `Buffer.CopyBringsSourceIff` | visa-web/src/main/resources/swagger-static/swagger-ui-standalone-preset.js:14 | the target range is the old source range exactly when the Buffers are one object, or do not share memory, or at least 1000 bytes move, or the target does not begin strictly inside the source range, or the source range repeats with the distance of the two starts |
| `Buffer.SliceIsOvertaken` | visa-web/src/main/resources/swagger-static/swagger-ui-standalone-preset.js:14 | making a Buffer of 1, 2, 3, 4, slicing it from 1 on and copying it to the slice leaves 1, 1, 1, 1 |
| `Buffer.CountIsNaturalIff` | visa-web/src/main/resources/swagger-static/swagger-ui-standalone-preset.js:14 | the count is not negative exactly when the source range does not end at 0 before it starts; then it is minus the source start |
| `Expiration.DeleteOutcomes` | visa-business/src/main/java/eu/ill/visa/business/services/InstanceExpirationService.java:78-120 | in a sweep during which nothing else is recorded each expired row has one outcome (row gone, row kept with the instance left DELETING, or row kept with the state restored), other rows and instances are untouched, and deletion mails go out exactly for the instances deleted by this call |
| `Expiration.QuietSweep` | visa-business/src/main/java/eu/ill/visa/business/services/InstanceExpirationService.java:78-120 | the sweep that serves other requests during its waits is that sweep when there are none |
| `ExpirationRuns.EventKeepsSound` | visa-business/src/main/java/eu/ill/visa/business/services/InstanceExpirationService.java:78-215 | creation, activity, extension, activation, deletion in another way and every sweep, in any order and at any time, also while a delete sweep waits, keep one row an instance, each with a reason: lifetime, idleness, or activity since the row was created |
| `ExpirationRuns.EventKeepsSweep` | visa-business/src/main/java/eu/ill/visa/business/services/InstanceExpirationService.java:78-120 | whatever is recorded meanwhile, the list of a delete sweep has each row once and only due ones; as long as nothing touches the records its rows are stored |
| `ExpirationRuns.SweepTakesEach` | visa-business/src/main/java/eu/ill/visa/business/services/InstanceExpirationService.java:80-81 | whatever comes between, the rounds of a sweep take the rows of the list that it fixed at its begin one after the other, each once |
| `ExpirationRuns.RunKeepsOneEach` | visa-business/src/main/java/eu/ill/visa/business/services/InstanceExpirationService.java:122-215 | in every run no instance has two expirations, and every expiration belongs to an instance with a termination date |
| `ExpirationRuns.OnlyRoundsChange` | visa-business/src/main/java/eu/ill/visa/business/services/InstanceExpirationService.java:81-119 | only the begin of a round puts an instance into DELETING, the one of its row and not a deleted one, and only a failed end may bring DELETING back; in the service only the end of a round deletes |
| `ExpirationRuns.OnlyDeletionsAreMailed` | visa-business/src/main/java/eu/ill/visa/business/services/InstanceExpirationService.java:95-104 | a deletion mail goes out exactly at the end of a round that deleted the instance |
| `ExpirationRuns.DueRowIsWrongIff` | visa-business/src/main/java/eu/ill/visa/business/services/InstanceExpirationService.java:78-120 | a row of the list takes an instance that may not go exactly when neither limit has come and the row is outdated: it is not stored any more, or there was activity since it was created; with the records untouched since a remove sweep, only activity with the very stamp of the row |
| `ExpirationRuns.RoundIsWrongIff` | visa-scheduler/src/main/java/eu/ill/visa/scheduler/jobs/InstanceLifecycleJob.java:24-38 | the same for each round of every run, whatever is recorded before the sweep or while it waits |
| `ExpirationRuns.RunIsSafe` | visa-scheduler/src/main/java/eu/ill/visa/scheduler/jobs/InstanceLifecycleJob.java:24-38 | a run whose rounds begin with the records untouched since a remove sweep, and with no activity in the millisecond of a row, takes an instance only when its termination date has come or it has been idle for its owner's maximum, never without a termination date |
| `ExpirationRows.RowsGoIff` | visa-business/src/main/java/eu/ill/visa/business/services/InstanceExpirationService.java:78-215 | event by event, a row goes exactly with an extension of its instance, with an activation of its instance that has no termination date or one after the row, with a remove sweep in that case (and after activity, if there is a termination date), and with the deletion of its instance |
| `ExpirationRows.RowsComeIff` | visa-business/src/main/java/eu/ill/visa/business/services/InstanceExpirationService.java:147-181 | a row comes exactly with an inactivity or termination sweep, one for each instance that is not deleted, has a termination date and no row yet, and reaches the inactivity limit of the class of its owner in less than 24 hours or its termination date in less than 48; it carries that date and the time of the sweep |
| `ExpirationRows.ActivationHolds` | visa-business/src/main/java/eu/ill/visa/business/services/InstanceExpirationService.java:204-215 | in every run, from an activation until an inactivity sweep finds the instance again, it has no row dated before its termination date |
| `ExpirationRows.ActivatedIsNotDue` | visa-business/src/main/java/eu/ill/visa/business/services/InstanceExpirationService.java:78-215 | and a delete sweep that begins meanwhile has it on its list only when its termination date has come |
| `ExpirationCounterexamples.SameInstantIsReached` | visa-business/src/main/java/eu/ill/visa/business/services/InstanceExpirationService.java:183-202 | a run in which activity stamped in the same millisecond as the expiration is not noticed by the remove sweep right before the delete sweep, and a busy instance is put into DELETING |
| `ExpirationCounterexamples.ActivityBetweenSweepsIsReached` | visa-scheduler/src/main/java/eu/ill/visa/scheduler/jobs/InstanceLifecycleJob.java:24-38 | a run in which later activity falls between the two sweeps, and a busy instance is put into DELETING |
| `ExpirationCounterexamples.ExtensionDuringSweepIsReached` | visa-business/src/main/java/eu/ill/visa/business/services/InstanceExpirationService.java:80-95 | a run in which an extension is granted while the deletion of another instance is waited for: the row is gone but still on the list, and the instance is put into DELETING |
| `Expiration.InactiveSweepIsExact` | visa-business/src/main/java/eu/ill/visa/business/services/InstanceExpirationService.java:147-168 | the sweep adds one row and one mail for each instance found, in order, dated last activity plus the limit of the owner's class |
| `Expiration.InactiveDateIsNear` | visa-business/src/main/java/eu/ill/visa/business/services/InstanceExpirationService.java:147-168 | an inactivity expiration lies less than 24 hours ahead |
| `ExpirationService.InstanceExpirationService.GetByInstance` | visa-business/src/main/java/eu/ill/visa/business/services/InstanceExpirationService.java:58-61 | the row of an instance, or none exactly when it has none |
| `ExpirationService.InstanceExpirationService.Create` | visa-business/src/main/java/eu/ill/visa/business/services/InstanceExpirationService.java:122-137 | a second expiration of an instance is not stored |
| `ExpirationService.InstanceExpirationService.CreateInstance` | visa-business/src/main/java/eu/ill/visa/business/services/InstanceService.java:81-102 | the termination date is the creation plus the lifetime of the owner's class |
| `ExpirationService.InstanceExpirationService.FindInactive` | visa-business/src/main/java/eu/ill/visa/business/services/InstanceExpirationService.java:147-155 | the two queries, each kept to its owners, find each due instance once |
| `ExpirationService.InstanceExpirationService.CreateExpirationForAllInactiveInstances` | visa-business/src/main/java/eu/ill/visa/business/services/InstanceExpirationService.java:147-168 | the loop stores and mails what the sweep function says |
| `ExpirationService.InstanceExpirationService.CreateExpirationForAllTerminatingInstances` | visa-business/src/main/java/eu/ill/visa/business/services/InstanceExpirationService.java:170-181 | the same for termination dates |
| `ExpirationService.InstanceExpirationService.RemoveExpirationForAllActiveInstances` | visa-business/src/main/java/eu/ill/visa/business/services/InstanceExpirationService.java:183-202 | deleting row by row leaves, in order, exactly the rows that are still due: the instance has a termination date, and it is no later than the row, or there was no activity after the row was created |
| `ExpirationService.InstanceExpirationService.OnInstanceActivated` | visa-business/src/main/java/eu/ill/visa/business/services/InstanceExpirationService.java:204-215 | the row of the activated instance stays exactly when the instance has a termination date no later than the row; all other rows stay, none is added, and instances and mails are left alone |
| `ExpirationService.InstanceExpirationService.GrantExtension` | visa-business/src/main/java/eu/ill/visa/business/services/InstanceExtensionRequestService.java:65-81 | new termination date, exactly the rows of other instances left, a mail if asked for |
| `ExpirationService.InstanceExpirationService.BeginRound` | visa-business/src/main/java/eu/ill/visa/business/services/InstanceExpirationService.java:82-92 | a deleted instance loses its row; another one is stored as DELETING before its deletion is waited for, and its state is remembered |
| `ExpirationService.InstanceExpirationService.EndRound` | visa-business/src/main/java/eu/ill/visa/business/services/InstanceExpirationService.java:95-113 | the three ends of the wait: row and mail, nothing, or the remembered state |
| `ExpirationService.InstanceExpirationService.DeleteAllExpired` | visa-business/src/main/java/eu/ill/visa/business/services/InstanceExpirationService.java:78-120 | the loop over the list fixed at its begin, with any other requests served during each wait, does what the sweep function with these requests says |
| `CloudGateway.SetParametersConvert` | visa-core/src/main/java/eu/ill/visa/core/domain/CloudProviderConfiguration.java:85-92 | setting parameters one after the other and converting is updating the converted map |
| `CloudGateway.FieldsGiveWanted` | visa-cloud/src/main/java/eu/ill/visa/cloud/services/CloudClientFactory.java:41-89 | the parameters set from an input make exactly the client it asks for, and none when a value is missing |
| `CloudGateway.CompleteIff` | visa-web/src/main/java/eu/ill/visa/web/bundles/graphql/queries/resolvers/MutationResolver.java:678-707 | an input is complete exactly when it is for OpenStack with all eight values or for a web provider with both; the client it asks for carries each value in its own place |
| `CloudGateway.SaveAgreesIff` | visa-business/src/main/java/eu/ill/visa/business/services/CloudProviderService.java:53-57 | saving keeps index and table in agreement exactly when the row is refused, a client is made for a live row, or none is made and there was none: an unknown type leaves the old client in place |
| `CloudGateway.DeleteAgrees` | visa-business/src/main/java/eu/ill/visa/business/services/CloudProviderService.java:46-51 | deleting keeps agreement, and the client is gone |
| `CloudGateway.InitAgrees` | visa-business/src/main/java/eu/ill/visa/business/services/CloudProviderService.java:31-36 | a start gives the index that belongs to the table, whatever the order of the rows |
| `CloudGateway.UpdatedRowIsInput` | visa-web/src/main/java/eu/ill/visa/web/bundles/graphql/queries/resolvers/MutationResolver.java:654-676 | an updated row holds the values of the new input and none of the old, also when the type changes |
| `CloudGateway.HandleIsFaithful` | visa-web/src/main/java/eu/ill/visa/web/bundles/graphql/queries/resolvers/MutationResolver.java:631-739 | every request keeps table and gateway faithful to what has been asked for |
| `CloudGateway.GatewayFollowsRequests` | visa-cloud/src/main/java/eu/ill/visa/cloud/services/CloudClientGateway.java:20-77 | after any run of requests and restarts the gateway holds the default client under -1 and under each id not deleted the client of its last complete input, each under its own id |
| `CloudGateway.RestartChangesNothing` | visa-business/src/main/java/eu/ill/visa/business/services/CloudProviderService.java:23-36 | a restart after any run gives the same gateway |
| `CloudGateway.LookupFollowsRequests` | visa-cloud/src/main/java/eu/ill/visa/cloud/services/CloudClientGateway.java:38-50 | after any run a caller gets, for an id or for none, the client that the last complete input asks for, or the default client; what it gets carries the id |
| `CloudService.CloudClientGateway.AddCloudClient` | visa-cloud/src/main/java/eu/ill/visa/cloud/services/CloudClientGateway.java:56-67 | a client that is made replaces the entry; otherwise the map is left alone |
| `CloudService.CloudClientGateway.UpdateCloudClient` | visa-cloud/src/main/java/eu/ill/visa/cloud/services/CloudClientGateway.java:69-73 | unlike adding, leaves no entry when no client is made; other entries stay |
| `CloudService.CloudProviderService.Init` | visa-business/src/main/java/eu/ill/visa/business/services/CloudProviderService.java:31-36 | adds the live rows in turn; stops exactly at a row with a missing parameter |
| `CloudService.CloudProviderService.Save` | visa-business/src/main/java/eu/ill/visa/business/services/CloudProviderService.java:53-57 | stores the row and adds its client, with the transaction undone when a parameter is missing |
| `CloudService.CloudProviderService.Convert` | visa-business/src/main/java/eu/ill/visa/business/services/CloudProviderService.java:64-75 | the loop makes the map in which a later parameter replaces an earlier one |
| `CloudService.MutationResolver.CreateCloudClient` | visa-web/src/main/java/eu/ill/visa/web/bundles/graphql/queries/resolvers/MutationResolver.java:631-643 | refuses exactly unknown types and absent configurations, otherwise gives the client asked for |
| `CloudService.MutationResolver.UpdateCloudClient` | visa-web/src/main/java/eu/ill/visa/web/bundles/graphql/queries/resolvers/MutationResolver.java:654-676 | the three refusals in order, otherwise the update of the table and the gateway |
| `CloudService.MutationResolver.DeleteCloudClient` | visa-web/src/main/java/eu/ill/visa/web/bundles/graphql/queries/resolvers/MutationResolver.java:716-739 | deletes exactly a live row that is not the default and not in use |
| `CloudInstances.GetAllByCloud` | visa-business/src/main/java/eu/ill/visa/business/services/InstanceService.java:116-138 | every bucket holds the instances of its client, in order; the null failure comes exactly when the client of an instance has no bucket |
| `CloudInstances.MissingIff` | visa-business/src/main/java/eu/ill/visa/business/services/InstanceService.java:126-135 | which is exactly when an instance names no cloud and the default client has no bucket |
| `CloudInstances.OwnKey` | visa-cloud/src/main/java/eu/ill/visa/cloud/services/CloudClient.java:150-158 | clients as keys are told apart by their ids, so an instance belongs in the bucket of its own client only |
| `CloudInstances.BucketsAddUp` | visa-business/src/main/java/eu/ill/visa/business/services/InstanceService.java:116-138 | bucket sizes plus unresolved instances are all instances |
| `CloudInstances.GroupsArePartition` | visa-business/src/main/java/eu/ill/visa/business/services/InstanceService.java:116-138 | after any run of requests no lookup fails, every bucket holds the instances that name its client, and the sizes add up |

## Left out

- ActionManager.InstanceActionManager.Finish: the action itself, the message of a failed command and the future's result are not modelled; an action is a step that ends well or not.
- ActionManager.InstanceActionManager.Cancel: the listener calls, `save` and `getInstance` are taken not to throw, and commands are queued as fresh objects.
- ActionManager.InstanceActionManager.Accept: the future that `queue` returns to its caller is not modelled.
- ActionManager.InstanceActionDispatcher.Take: the pool is a FIFO of runners with at most N running; thread scheduling beyond that is not modelled.
- ActionRuns.Drain: says that a draining run exists; that the scheduler takes steps at all is assumed there and in MaximalRunDrains.
- BinaryExpression.Parser.ParseBinaryExpression: an operand is one opaque token, so the unary parser below, the cover grammar flags and locations other than starts are not modelled; the syntax error is None.
- YamlScalar.State.ReadDoubleQuotedScalar: indentation, line numbers, warnings and the texts of errors are not modelled; an error is None.
- YamlScalar.EscapeString: other scalar styles, and the choice of a style, are not modelled.
- Utf8.Encode: the limit is a number of bytes; the way an argument is turned into one is not modelled.
- FixedWidth.WriteIntLE: the value is an integer, the offset not negative, and the flag that skips the checks is off; fractional values are not modelled.
- FixedWidth.WriteIntBE: as WriteIntLE.
- FixedWidth.ReadIntLE: as WriteIntLE.
- FixedWidth.ReadIntBE: as WriteIntLE.
- Base64.FromByteArray: characters are their codes, and the two lookup tables are arguments, proved inverse to each other where it matters.
- Base64.ToByteArray: as FromByteArray; cleaning of the text before it is decoded is not modelled.
- Buffer.IndexOf: the pattern is bytes; patterns given as strings or numbers, an offset that is not a number, and the two-byte search are not modelled.
- Buffer.Copy: the start and end arguments are integers, and typed arrays are there; without them slices share no memory.
- Buffer.View.Slice: the ends are 32-bit integers already.
- ExpirationService.InstanceExpirationService.DeleteAllExpired: how each deletion ends is a parameter, and so is what other requests make of the records during each wait; these create no instance (the events of `ExpirationRuns` may). Records are shared: copies that a persistence context keeps of instances and rows are not modelled.
- ExpirationService.InstanceExpirationService.NewInactive: the database queries are loops over the instance table with the condition of the query.
- CloudService.CloudClientGateway.constructor: the null check that fails on a missing parameter of the default provider, and with it the start of the program, is a precondition.
- CloudService.CloudProviderService.Save: an exception undoes the transaction; what the persistence context keeps in memory of a refused row is not modelled.
- CloudService.MutationResolver.UpdateCloudClient: a row that was read is a copy until it is saved, each service call being a transaction of its own; what setters on it do to a persistence context that outlives the call is not modelled.
- CloudInstances.GetAllByCloud: works on the state of the gateway; the hash map's own order is any list of its keys.
- Shifts, masks and 32-bit arithmetic are written as divisions, remainders and explicit wrap-around.
- Persistence, mails (only a log of what is sent), clocks (a parameter), notifications, logging and dependency injection.
- The concrete actions, the cloud providers' HTTP calls, authentication and the remote desktop.
- Floating-point reads and writes of the Buffer, the rest of esprima, js-yaml and Swagger UI.
