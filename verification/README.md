# Models and proofs for OpenClaw's stateful cores

A Dafny model of the parts of the OpenClaw repository that hold real algorithms with state, and
proofs of what they keep. `dafny verify dfyconfig.toml` checks everything.

What is modelled, and the main results:

- **Translation sync** (`scripts/control-ui-i18n.ts`). `TranslationTree` has the nested translation
  objects, updated in place, and the round trip through dotted keys with its exact condition.
  `TranslationBatches` has the greedy batcher; its contract admits one grouping only.
  `BatchTranslator` has retry and splitting after timeouts, faithful results, and the tight bound of
  4n-2 prompts. `RpcClient` is the one-request-at-a-time client as a labelled step system and as a
  class whose methods are those steps; the results hold over every interleaving. `TextHash` says when
  two texts are the same to the memory. `LocaleSync` puts the pieces together: what a run shows,
  remembers, reports and writes, and that one completed, written run is a fixpoint.
- **Pairing notifier** (`extensions/device-pair/notify.ts`). `PairNotify` has the subscriber and seen
  tables under commands and poll ticks, with results about whole traces.
- **Bedrock discovery** (`extensions/amazon-bedrock/`). `DiscoveryCache` is the cache that joins
  calls to a fetch under way; under every interleaving it answers by the last fetch for a key. `JsonMerge` and `BedrockMigration` have the
  fill-missing merge and the settings migration on trees; `ConfigObjects` and `BedrockConfigObjects`
  run the same on objects with references, through shallow copies, and show that the caller's
  objects are never written to. Which settings keep their effective value is given exactly.
- **Import-graph copier** (`scripts/load-channel-config-surface.ts`). `ImportGraph` has the worklist,
  `CommonAncestor` the climb to a common directory with the exact case in which it goes wrong,
  `ModuleCopy` the copy and its targets, and `CopiedImports` the exact condition under which an
  import means the same in the copy.
- **Argument normalisers** (`extensions/anthropic/cli-shared.ts`). `ClaudeArgs` has the two loops,
  `ClaudeArgsMeaning` what both do to a command line read as tokens, and their fixed points.
- **UTF-16 slicing** (`src/utils.ts`): `Utf16`, with decoding after section 2.2 of RFC 2781.
- **Usage report** (`scripts/cron_usage_report.ts`): `UsageReport`, with conservation of the sums and
  independence of order.

`JsStrings` holds the few string functions of JavaScript that the code leans on, `Options` an option
type.

Code that changes things step by step is written as methods and classes, each proved against a
function; the laws are lemmas about those functions. Files, clocks, child processes and the network
enter as arguments, as events, or as an arbitrary function from attempts to answers.

## Where the code differs from what it says

The model follows the code.

- `notify.ts:443` promises a one-shot notice for the next request. A poll may deliver several
  (`PairNotify.OneShotGetsTwo`); it delivers at most one, whatever sends succeed, if and only if all
  requests due for the subscriber have one id (`PairNotify.OneSentExactlyWhenOneIdIsDue`).
- A chat whose account or thread id has surrounding blanks is written as given and read trimmed. Turned
  on twice it is subscribed twice, and turned off it stays subscribed. Both happen for exactly the
  targets whose key does not survive reading (`PairNotify.DuplicatesExactlyWhenPadded`,
  `PairNotify.OffRemovesTarget`, `PairNotify.OnThenOff`, at an input `PairNotify.PaddedTargetMisbehaves`).
- A pending request can be sent again within a day if and only if its id is empty or has white space
  around it (`PairNotify.RepeatedExactlyWhenUnreadable`, at inputs `PairNotify.BlankIdsAreRepeated`): the
  reader drops the one from the seen table and enters the other under its trimmed name. Ids are random
  UUIDs (`src/infra/device-pairing.ts:314`), so this takes a pairing file edited by hand.
- The migration says "already set" although nested fields were filled in, because the shallow copy
  shares the nested record with the text it is compared to. `BedrockMigration.AlreadySetHidesNestedChange`
  says exactly when, `BedrockMigration.NestedChangeGoesUnreported` gives a configuration.
- The refresh interval limits cached values, not the age of a fetch that is joined: a call is answered by a
  fetch begun an interval ago or earlier if and only if such a fetch is still under way for its key
  (`DiscoveryCache.OldAnswersComeFromOpenFetches`, at an input `DiscoveryCache.JoiningIgnoresAge`).
- Edited English keeps its old translation, unless the memory knows the edited text
  (`LocaleSync.EditedTextKeepsOldString`, in two runs `LocaleSync.EditedTextIsNotTranslated`), and `--force`
  has no effect on what a run computes: the branch that looks at it is unreachable (`LocaleSync.FillIn`).
- Two flattened keys one of which runs through the other, as a dotted property name next to the object it
  names can give, do not both survive the round trip (`TranslationTree.DottedNameLosesAKey`; the exact
  condition is in `TranslationTree.RoundTrip`).
- An import of the copied directory itself (`"."` in a file at its top) resolves by the name of the
  temporary directory, which is made from the package's name. It is lost if and only if the copy starts
  above the package and the package's name has an extension
  (`CopiedImports.LostExactlyWhenPackageHasExtension`, in a copy `CopiedImports.CopyOfSampleLosesImport`).

## Model

| member | source | states |
|---|---|---|
| TranslationTree.StepDown | scripts/control-ui-i18n.ts:296-306 | one step down a dotted key on objects updated in place: the cursor ends at the object for the next name, a missing object or a string in its place is replaced by a new one, and the call says whether a string was lost |
| TranslationTree.SetAt | scripts/control-ui-i18n.ts:293-308 | the whole walk and the final assignment write exactly one leaf of the tree, and lose exactly the leaves above and below it |
| TranslationTree.SetNestedValue | scripts/control-ui-i18n.ts:293-308 | on any tree and any dotted key: the tree afterwards holds the old leaves with that one put in, and a string was overwritten if and only if one sat on a proper prefix of the path |
| TranslationTree.FlattenTranslations | scripts/control-ui-i18n.ts:281-291 | for any order of properties: every string of the tree is entered under its dotted key, entries already there stay unless a string has their key, and nothing else is entered |
| TranslationTree.RebuildTranslations | scripts/control-ui-i18n.ts:1135-1138 | the loop that builds the next object: the tree holds what putting each key in turn leaves, and the overwritten strings are counted |
| TranslationTree.NothingOverwritten | scripts/control-ui-i18n.ts:298-304 | for rebuildable keys in any order, the branch that replaces a string is never taken |
| TranslationTree.FlatKeyOfSplit | scripts/control-ui-i18n.ts:283-284 | splitting a key at its dots and flattening the path gives the key back if and only if no dot leads |
| TranslationTree.RebuildableComesBack | scripts/control-ui-i18n.ts:281-308 | keys none of which leads with a dot or runs through another come back from rebuild and flatten with exactly their values |
| TranslationTree.RebuildableFlattens | scripts/control-ui-i18n.ts:281-308 | rebuildable keys and their values are themselves the flattening of what is rebuilt from them |
| TranslationTree.ComingBackIsRebuildable | scripts/control-ui-i18n.ts:281-308 | conversely, keys that all come back have no leading dot and do not run through one another |
| TranslationTree.RoundTrip | scripts/control-ui-i18n.ts:281-308 | rebuild and flatten return exactly the key-to-value map if and only if the keys are rebuildable, whatever the values and the order |
| TranslationTree.RebuildAndFlatten | scripts/control-ui-i18n.ts:1135-1138 | the heap version of the round trip: building the objects and flattening them is the flattening of the rebuilt leaves |
| TranslationTree.SourceKeysRebuildable | scripts/control-ui-i18n.ts:281-308 | the flattened keys of a tree whose names are non-empty and dot-free are rebuildable, in any order |
| TranslationTree.SourceRoundTrip | scripts/control-ui-i18n.ts:1135-1138 | such a tree survives translation: any new values for its keys come back exactly |
| TranslationTree.DottedNameLosesAKey | scripts/control-ui-i18n.ts:281-308 | a concrete pair of keys, one running through the other, of which one is lost |
| TranslationBatches.BuildTranslationBatches | scripts/control-ui-i18n.ts:659-683 | the batches make up the input in order, none is empty, and each is as long as the budget and the item limit allow |
| TranslationBatches.RunningOverestimates | scripts/control-ui-i18n.ts:499-501 | the running count the loop keeps exceeds the estimate of the batch by two per item, so it never underestimates |
| TranslationBatches.EstimateAdds | scripts/control-ui-i18n.ts:499-501 | every item counts once, with its key, its text and 8 more, and a list with 2 |
| TranslationBatches.NextDidNotFit | scripts/control-ui-i18n.ts:668-675 | of two batches in a row, the first has 20 items, or the first item of the second would have overrun the budget |
| TranslationBatches.FittingBatchIsSmall | scripts/control-ui-i18n.ts:663-675 | a batch has at most 20 items, and one with several items is estimated within the budget |
| TranslationBatches.FirstBatchIsLongest | scripts/control-ui-i18n.ts:663-675 | of two greedy groupings of the same items neither starts with a shorter batch |
| TranslationBatches.GreedyIsUnique | scripts/control-ui-i18n.ts:659-683 | there is only one greedy grouping, so the contract of the loop determines its result |
| BatchTranslator.ReadReply | scripts/control-ui-i18n.ts:944-952 | reading a reply takes every item's non-blank string or complains about the first item without one |
| BatchTranslator.TranslateBatch | scripts/control-ui-i18n.ts:925-987 | retry, and splitting in half after a timeout: outcome, attempts used and prompts sent are those of the recursive specification, and a client is left exactly after success |
| BatchTranslator.TakenWhenAnswered | scripts/control-ui-i18n.ts:944-952 | a reply is taken if and only if it has a string that is not blank for every item; otherwise the message names the first item without one |
| BatchTranslator.TimeoutSplits | scripts/control-ui-i18n.ts:959-974 | a timeout on either attempt splits a batch of several items, the left half no shorter and by one at most; a failed left half sends nothing for the right one |
| BatchTranslator.SplitOnceIsEnough | scripts/control-ui-i18n.ts:959-974 | one timeout and two answered halves translate a batch with three prompts |
| BatchTranslator.SingleTimeoutFails | scripts/control-ui-i18n.ts:975-977 | a single item is given up on its first timeout, with its message |
| BatchTranslator.OtherFailureIsRetriedOnce | scripts/control-ui-i18n.ts:934-985 | any other failure is followed by one more attempt, which decides |
| BatchTranslator.TimeoutsSaySo | scripts/control-ui-i18n.ts:473-475 | a failure counts as a timeout if and only if its message says "timed out" somewhere, in small letters or capitals |
| BatchTranslator.SuccessIsFaithful | scripts/control-ui-i18n.ts:925-987 | a successful translation has exactly the keys of its items, each with a non-blank value some reply gave for it |
| BatchTranslator.FaithfulHalves | scripts/control-ui-i18n.ts:960-974 | the two halves of a split batch together are faithful to the whole batch |
| BatchTranslator.PromptsAreBounded | scripts/control-ui-i18n.ts:934-985 | n items cost at most 4n-2 prompts, whatever the answers |
| BatchTranslator.WorstCase | scripts/control-ui-i18n.ts:934-985 | the bound is met: some course of answers costs exactly 4n-2 prompts |
| RpcClient.PiRpcClient.constructor | scripts/control-ui-i18n.ts:685-697 | a new client has nothing pending |
| RpcClient.PiRpcClient.HandleStdoutLine | scripts/control-ui-i18n.ts:766-812 | a line settles the pending prompt, marks it answered, or does nothing, as the step relation says |
| RpcClient.PiRpcClient.RunNextPrompt | scripts/control-ui-i18n.ts:814-877 | the next link of the promise chain: skipped after a rejection, refused after close, else written with its timer |
| RpcClient.PiRpcClient.OnTimer | scripts/control-ui-i18n.ts:838-851 | the timeout closes the client and rejects the prompt if it is still pending |
| RpcClient.PiRpcClient.OnWriteError | scripts/control-ui-i18n.ts:867-875 | a failed write rejects its own prompt and clears it if pending |
| RpcClient.PiRpcClient.Prompt | scripts/control-ui-i18n.ts:814-815 | a call is appended to the promise chain |
| RpcClient.PiRpcClient.RejectPending | scripts/control-ui-i18n.ts:758-764 | the pending prompt, if any, is dropped and rejected |
| RpcClient.PiRpcClient.Finish | scripts/control-ui-i18n.ts:853-864 | settling drops the pending prompt, disarms its timer and settles its promise once |
| RpcClient.PiRpcClient.Close | scripts/control-ui-i18n.ts:880-884 | the client is closed, the pending prompt is left alone |
| RpcClient.PiRpcClient.OnProcessError | scripts/control-ui-i18n.ts:738-740 | a process error rejects the pending prompt |
| RpcClient.PiRpcClient.OnProcessClose | scripts/control-ui-i18n.ts:742-747 | the end of the process closes the client and rejects the pending prompt |
| RpcClient.EveryRunKeepsInvariant | scripts/control-ui-i18n.ts:758-892 | over every interleaving of calls, lines, timers, write errors and process events: all earlier prompts resolved, at most the last is open, its timer alone is armed, nothing resolves behind a rejection |
| RpcClient.PendingStandsAfter | scripts/control-ui-i18n.ts:766-877 | what one event makes of the pending prompt: an answer with text resolves it, an answer without text, a refusal of its id, its timer, its failed write, an error or the end of the process reject it, and nothing else touches it; all other calls stay |
| RpcClient.NothingPending | scripts/control-ui-i18n.ts:778-781 | without a pending prompt, lines and timers settle nothing |
| RpcClient.FirstSettles | scripts/control-ui-i18n.ts:838-875 | in every run a written prompt is settled by the first event that settles it, and pending until then |
| RpcClient.ClosedExactlyWhen | scripts/control-ui-i18n.ts:742-884 | over every run, a client is closed if and only if it was closed, its process ended, or a pending prompt timed out |
| RpcClient.TurnWritesOrRefuses | scripts/control-ui-i18n.ts:815-836 | the next call is refused behind a rejection or on a closed client, and otherwise written and pending |
| RpcClient.TurnWaits | scripts/control-ui-i18n.ts:814-815 | nothing begins while a prompt is pending or no call waits |
| RpcClient.ResolvedHasText | scripts/control-ui-i18n.ts:801-924 | over every run, a prompt resolves only by an answer that was read and had a translation in it |
| RpcClient.OnePromptAtATime | scripts/control-ui-i18n.ts:814-877 | a call awaits its answer exactly while it is the pending one with its timer armed |
| RpcClient.SettledOnce | scripts/control-ui-i18n.ts:853-864 | a settled prompt keeps its outcome in every continuation |
| RpcClient.RejectionPoisons | scripts/control-ui-i18n.ts:814-821 | after any rejection no further prompt is ever written on that client |
| RpcClient.AnswersMatchPrompts | scripts/control-ui-i18n.ts:799-810 | if the child answers prompts at most once and in order, every prompt resolves with its own answer, although no id is checked |
| RpcClient.SecondAnswerIsMistaken | scripts/control-ui-i18n.ts:799-810 | without that assumption it fails: a second answer to one prompt resolves the next prompt |
| RpcClient.TimeoutEndsEverything | scripts/control-ui-i18n.ts:838-851 | when the pending prompt times out, it and every call behind it end rejected |
| RpcClient.RejectionSpreads | scripts/control-ui-i18n.ts:814-821 | a rejection runs through the whole chain of waiting calls |
| LocaleSync.Classify | scripts/control-ui-i18n.ts:1021-1050 | the first loop: what is carried over, what stays a fallback, and the work list |
| LocaleSync.WorkInOrder | scripts/control-ui-i18n.ts:1021-1050 | the work list is in the order of the source file |
| LocaleSync.KeysTellApart | scripts/control-ui-i18n.ts:234-249 | a translation is known again exactly for the same provider, model, locale and key and a text of the same words |
| TextHash.NormalizedWords | scripts/control-ui-i18n.ts:226-228 | normalising a text puts single spaces between its words |
| TextHash.SameWordsSameHash | scripts/control-ui-i18n.ts:226-236 | two texts normalise alike if and only if they have the same words |
| LocaleSync.TranslatePending | scripts/control-ui-i18n.ts:1052-1105 | the batches in turn: failure, attempts, prompts and translations are those of the course of all batches, the translations are entered, and the client is closed either way; at most 4 prompts per item minus 2 per batch |
| LocaleSync.FirstFailureCounts | scripts/control-ui-i18n.ts:1075-1101 | the batches fail if and only if one of them does where those before it leave off |
| LocaleSync.FailureIsFinal | scripts/control-ui-i18n.ts:1075-1101 | that batch ends the run, at its point and with its message |
| LocaleSync.AllAnsweredAtOnce | scripts/control-ui-i18n.ts:1075-1101 | batches that are all answered at once are all translated, with a prompt each |
| LocaleSync.FillIn | scripts/control-ui-i18n.ts:1114-1128 | the last loop: English and a fallback mark for exactly the items without a string; the arm for existing strings is unreachable |
| LocaleSync.Gather | scripts/control-ui-i18n.ts:1021-1112 | classification, batching and translation together |
| LocaleSync.Assemble | scripts/control-ui-i18n.ts:1114-1169 | strings, metadata and memory of the next state are those of a completed run |
| LocaleSync.SyncLocale | scripts/control-ui-i18n.ts:996-1232 | a whole run: its batches are the greedy grouping of the work list, it is aborted exactly if their course fails, with that message, and otherwise its result is completed; changed if and only if the result differs from the files, written if and only if it differs and writing was asked for outside a check, and what is on disk afterwards |
| LocaleSync.WriteBack | scripts/control-ui-i18n.ts:1186-1231 | whether the files differ is reported in every mode; they are written only when they do and writing was asked for |
| LocaleSync.CheckThenWrite | scripts/control-ui-i18n.ts:1186-1303 | a check and a writing run on the same files with the same answers: the check writes nothing and reports a change if and only if the other run writes, and fails if it fails |
| LocaleSync.FallbackIsSound | scripts/control-ui-i18n.ts:1140-1169 | fallback keys are source keys, translated plus fallback is the total, and with a provider there are no fallback keys |
| LocaleSync.StringShown | scripts/control-ui-i18n.ts:1021-1128 | for every key: which string is shown, whether it was translated and whether it counts as a fallback |
| LocaleSync.MetadataLeft | scripts/control-ui-i18n.ts:1140-1169 | the metadata of a run, with a new time stamp unless everything else is as it was |
| LocaleSync.MemoryLeft | scripts/control-ui-i18n.ts:1083-1098 | the memory of a run: an entry for each translation it got, and otherwise the entries there were |
| LocaleSync.CompletedIsUnique | scripts/control-ui-i18n.ts:1017-1169 | for source keys that can be rebuilt, the files a run makes are determined by its translations and the time |
| LocaleSync.StringsComeBack | scripts/control-ui-i18n.ts:1135-1138 | the next run reads back exactly the string this run chose for every source key if and only if the keys can be rebuilt |
| LocaleSync.NothingLeft | scripts/control-ui-i18n.ts:1021-1050 | for source keys that can be rebuilt: after a completed run every one is reused with the same value |
| LocaleSync.SyncIsAFixpoint | scripts/control-ui-i18n.ts:1017-1169 | for source keys that can be rebuilt, a second run with the same source and environment has nothing pending and leaves strings, memory, fallback keys and even the time stamp as they are |
| LocaleSync.SyncTwice | scripts/control-ui-i18n.ts:996-1232 | the two runs in code, for source keys that can be rebuilt: the second sends no prompt, reports no change and writes nothing, and with a provider there are no fallbacks left |
| LocaleSync.EditedTextKeepsOldString | scripts/control-ui-i18n.ts:1035-1041 | what a locale shows for a key whose English was edited: what the memory has for the edited text, if it has any, and otherwise the old string, with or without a provider |
| LocaleSync.EditedTextIsNotTranslated | scripts/control-ui-i18n.ts:1021-1050 | two runs with a provider in which edited English is not sent and the old translation stays |
| LocaleSync.RunEndsIn | scripts/control-ui-i18n.ts:1135-1169 | for source keys that can be rebuilt, every run with the translations it needs ends in a state that is written down |
| PairNotify.PairNotifier.constructor | extensions/device-pair/notify.ts:136-143 | no file reads as the empty state |
| PairNotify.PairNotifier.UpsertNotifySubscriber | extensions/device-pair/notify.ts:187-209 | a subscriber with a new key is appended, one with another mode is replaced in its place, else nothing changes |
| PairNotify.UpsertAdds | extensions/device-pair/notify.ts:187-202 | a target whose key nobody has is added at the end, with the time of the command |
| PairNotify.UpsertReplaces | extensions/device-pair/notify.ts:203-208 | the first subscriber with the key is replaced, with the time of the command, if its mode is the other one, and the list is unchanged otherwise |
| PairNotify.SubscribedInRun | extensions/device-pair/notify.ts:353-423 | in every run of targets whose key survives reading: after on the subscriber is persistent, after once it is armed, from the time of the command unless it was so before, and all others stay |
| PairNotify.PairNotifier.TurnOn | extensions/device-pair/notify.ts:414-423 | the on command, on what the file reads as |
| PairNotify.PairNotifier.ArmOnce | extensions/device-pair/notify.ts:353-385 | arming a one-shot, on what the file reads as |
| PairNotify.PairNotifier.TurnOff | extensions/device-pair/notify.ts:425-434 | the off command removes the subscriber with the target's key |
| PairNotify.PairNotifier.Serve | extensions/device-pair/notify.ts:315-335 | one request is offered to every subscriber; the sends that succeed decide what is recorded |
| PairNotify.PairNotifier.ServeAll | extensions/device-pair/notify.ts:308-336 | all pending requests that were not seen are served in order |
| PairNotify.PairNotifier.NotifyPending | extensions/device-pair/notify.ts:290-351 | a poll: pruning, serving and dropping one-shots are the poll of the specification, written when something changed |
| PairNotify.NoRepeats | extensions/device-pair/notify.ts:290-351 | over whole traces with a clock that does not run backwards, for ids that survive reading: if two ticks both get the same request through, it was absent from the list at some tick between them or more than 24 hours passed |
| PairNotify.RepeatedExactlyWhenUnreadable | extensions/device-pair/notify.ts:121-131 | some run repeats a pending request within a day if and only if its id is empty or has white space around it |
| PairNotify.BlankIdsAreRepeated | extensions/device-pair/notify.ts:121-131 | two polls in a row that both send a request with an empty id, and two for an id with a blank in front |
| PairNotify.ReadIsClean | extensions/device-pair/notify.ts:121-131 | what is read holds trimmed ids, each once, with positive times |
| PairNotify.ReadBackStamp | extensions/device-pair/notify.ts:121-131 | an id that survives reading is read back with the time of one of its spellings |
| PairNotify.LastSpellingCounts | extensions/device-pair/notify.ts:121-131 | of several spellings of an id the last one counts, and entries without an id or a positive time count for nothing |
| PairNotify.ReadHas | extensions/device-pair/notify.ts:90-119 | the subscribers read are those written that have a recipient, each as it is read, with mode and time |
| PairNotify.PolledIsReadBack | extensions/device-pair/notify.ts:290-351 | what the next reader finds of an id after a poll: a time no earlier than before, and that of the poll if it was not seen before |
| PairNotify.SeenStays | extensions/device-pair/notify.ts:301-313 | a request seen at one tick stays seen while it is pending and recent, with a time that only another spelling of its id can renew |
| PairNotify.NotifiedIsSeen | extensions/device-pair/notify.ts:332-335 | a tick that gets a request through records it with its time, if its id survives reading |
| PairNotify.SeenIs | extensions/device-pair/notify.ts:308-336 | what a poll has seen: what was seen before and what it got through |
| PairNotify.PolledStamps | extensions/device-pair/notify.ts:301-336 | the table a poll writes holds just what it has seen |
| PairNotify.SeenTableIsCurrent | extensions/device-pair/notify.ts:301-306 | after a tick the table holds only pending ids no older than 24 hours |
| PairNotify.OneShotFiresOnce | extensions/device-pair/notify.ts:240-253 | a one-shot is only sent requests stamped at or after its arming, and is gone after a tick in which one was sent |
| PairNotify.SentExactlyWhen | extensions/device-pair/notify.ts:240-253 | an unseen request is sent to every persistent subscriber, and to a one-shot if and only if it carries a positive time no earlier than the arming |
| PairNotify.SeenIsNotSent | extensions/device-pair/notify.ts:309-312 | a seen request is sent to nobody |
| PairNotify.OneSentExactlyWhenOneIdIsDue | extensions/device-pair/notify.ts:240-253 | a poll sends a subscriber one request at most, whatever sends succeed, if and only if all unseen requests it should be told about have one id |
| PairNotify.OneShotGetsTwo | extensions/device-pair/notify.ts:308-345 | a poll that sends two requests to one one-shot subscriber before dropping it |
| PairNotify.PollDropsServedOneShots | extensions/device-pair/notify.ts:337-345 | with distinct keys a poll drops exactly the one-shots that got something |
| PairNotify.WithoutKeysConcat | extensions/device-pair/notify.ts:337-345 | dropping subscribers keeps the order of the others |
| PairNotify.PollsTakeServedKeys | extensions/device-pair/notify.ts:290-351 | in every run, padded targets included: a tick takes away exactly the subscribers with the key of a one-shot that was sent something |
| PairNotify.PollsKeepSubscribers | extensions/device-pair/notify.ts:290-351 | in every run with targets whose key survives reading: a tick removes a subscriber if and only if it is a one-shot with a successful send |
| PairNotify.OneSubscriberPerKey | extensions/device-pair/notify.ts:151-209 | in every state reachable from an empty file keys are pairwise distinct, for targets whose key survives reading |
| PairNotify.CanonicalMeansTrimmed | extensions/device-pair/notify.ts:82-157 | a target's key survives reading if and only if it has a recipient and no white space around recipient, account or thread id |
| PairNotify.SameKeyMeansSameTarget | extensions/device-pair/notify.ts:151-157 | without bars in recipient or account, two targets share a key if and only if recipient, account and thread are spelled the same |
| PairNotify.ThreadsShownApart | extensions/device-pair/notify.ts:151-157 | thread numbers are told apart, and a text thread id counts as the number it spells |
| PairNotify.DuplicatesExactlyWhenPadded | extensions/device-pair/notify.ts:82-134 | that condition is exact: turning a target on twice leaves one subscriber if and only if reading leaves its key alone |
| PairNotify.PaddedTargetMisbehaves | extensions/device-pair/notify.ts:165-185 | an account id with a blank in front: subscribed twice under one key when turned on twice, still subscribed when turned off |
| PairNotify.OffRemovesTarget | extensions/device-pair/notify.ts:425-434 | for every run and target: after off nobody with the key as read is left if and only if nobody had it, or the target's own key survives reading and one subscriber at most had it; subscribers with other keys stay |
| PairNotify.OffWorksExactlyWhenCanonical | extensions/device-pair/notify.ts:425-434 | where everybody turned on has a key that survives reading: off leaves no trace of a target, if there was one, exactly when its own key survives reading |
| PairNotify.OnThenOff | extensions/device-pair/notify.ts:414-434 | turning a target on and off leaves nobody if and only if its key survives reading, and otherwise the subscriber as read |
| PairNotify.RemoveKeyLeaves | extensions/device-pair/notify.ts:426-430 | removing the first subscriber with a key removes the key exactly if it was there once at most, and no other key |
| PairNotify.ServedKeysAre | extensions/device-pair/notify.ts:317-330 | the set collected during a poll is the keys of the one-shots that were sent something |
| PairNotify.ReadTwice | extensions/device-pair/notify.ts:82-134 | reading what was read changes nothing |
| DiscoveryCache.BedrockDiscovery.Discover | extensions/amazon-bedrock/discovery.ts:331-406 | the synchronous part: a fresh value, another call's promise, or a new fetch and its entry |
| DiscoveryCache.BedrockDiscovery.Settle | extensions/amazon-bedrock/discovery.ts:344-399 | the fetch ends, once |
| DiscoveryCache.BedrockDiscovery.Resume | extensions/amazon-bedrock/discovery.ts:408-428 | the rest of the initiating call: the value with its expiry, or no entry |
| DiscoveryCache.EveryRunKeepsInvariant | extensions/amazon-bedrock/discovery.ts:309-429 | over every interleaving an entry holds a value or a promise, never both, and belongs to a fetch for its own key |
| DiscoveryCache.CacheShowsLastFetch | extensions/amazon-bedrock/discovery.ts:309-429 | over every interleaving, the entry for a key is that of the last fetch for it: its promise while open, its value with its expiry after success, none after failure |
| DiscoveryCache.LastFetchAnswers | extensions/amazon-bedrock/discovery.ts:331-429 | how every call is answered: by the last fetch for its key, joined while open, served for less than an interval after it began, and fetched anew otherwise |
| DiscoveryCache.FetchedIsServed | extensions/amazon-bedrock/discovery.ts:410-414 | the models of a fetch are served after it as long as they are fresh |
| DiscoveryCache.FetchEnds | extensions/amazon-bedrock/discovery.ts:340-428 | a call that fetches has its fetch under way until the first answer, and goes on then |
| DiscoveryCache.FetchThenAsk | extensions/amazon-bedrock/discovery.ts:331-428 | a whole fetch at any point of a run: calls within the interval afterwards get its models, and after a failure they fetch anew |
| DiscoveryCache.UncachedIsFetched | extensions/amazon-bedrock/discovery.ts:331-340 | a key without a refresh interval is always fetched |
| DiscoveryCache.FetchesComeFromCalls | extensions/amazon-bedrock/discovery.ts:340-414 | each fetch was begun by a call at the time it says, and ended as an event says |
| DiscoveryCache.OneFetchInFlight | extensions/amazon-bedrock/discovery.ts:335-338 | each key with a refresh interval has at most one fetch under way |
| DiscoveryCache.CachedValuesAreFresh | extensions/amazon-bedrock/discovery.ts:333-335 | a cached value comes from a fetch for the same key begun less than the refresh interval ago |
| DiscoveryCache.CallsJoinTheOpenFetch | extensions/amazon-bedrock/discovery.ts:331-339 | a call joins only the open fetch of its own key, and begins one only if there is none |
| DiscoveryCache.OutcomeStays | extensions/amazon-bedrock/discovery.ts:408-428 | what a call ends with is final |
| DiscoveryCache.JoinersSeeTheSameValue | extensions/amazon-bedrock/discovery.ts:336-338 | joiners see the initiator's models on success; on failure it returns an empty list and they throw |
| DiscoveryCache.FailureLeavesNoEntry | extensions/amazon-bedrock/discovery.ts:417-420 | a failed fetch leaves no entry and the next call begins anew |
| DiscoveryCache.OldAnswersComeFromOpenFetches | extensions/amazon-bedrock/discovery.ts:331-339 | the answer comes from a fetch begun an interval ago or earlier if and only if such a fetch is under way for the key |
| DiscoveryCache.JoiningIgnoresAge | extensions/amazon-bedrock/discovery.ts:333-338 | such a call: it joins an open fetch however old that is |
| JsonMerge.FillingOnlyFills | extensions/amazon-bedrock/config-compat.ts:27-41 | at every path a defined value of the target survives, unless both sides are records there |
| JsonMerge.FillingFills | extensions/amazon-bedrock/config-compat.ts:27-41 | at every path where the target has nothing in the way, the source's value stands afterwards |
| JsonMerge.BlockedNamesStayOut | extensions/amazon-bedrock/config-compat.ts:7-31 | what is missing is filled in unless it is called `__proto__`, `prototype` or `constructor` |
| JsonMerge.FillingChangesNothing | extensions/amazon-bedrock/config-compat.ts:27-41 | merging changes nothing if and only if the target already covers the source |
| JsonMerge.FillingTwice | extensions/amazon-bedrock/config-compat.ts:27-41 | merging the same source twice is merging it once |
| JsonMerge.PutThenGet | extensions/amazon-bedrock/config-compat.ts:17-25 | a value put at a path is found there |
| JsonMerge.PutElsewhere | extensions/amazon-bedrock/config-compat.ts:17-25 | every path that does not go through it is as it was |
| JsonMerge.EnsuredShowsTheSame | extensions/amazon-bedrock/config-compat.ts:17-25 | making the records on a path exist does not change what any other path shows |
| JsonMerge.EnsureThenAssign | extensions/amazon-bedrock/config-compat.ts:83-97 | ensuring the records and assigning the last field is putting the value at the path |
| ConfigObjects.MergeMissing | extensions/amazon-bedrock/config-compat.ts:27-41 | the recursive merge on objects updated in place: the target comes to denote the filled tree, only its own graph is written, and every defined slot keeps its object |
| ConfigObjects.MergeField | extensions/amazon-bedrock/config-compat.ts:28-39 | one turn of its loop, whichever branch is taken |
| ConfigObjects.EnsureRecord | extensions/amazon-bedrock/config-compat.ts:17-25 | the record is there afterwards, as an object of the tree, and nothing else changed |
| ConfigObjects.EnsureRecords | extensions/amazon-bedrock/config-compat.ts:83-86 | the nested calls lead to the object at the end of the path, and the tree shows the records that were missing on it |
| ConfigObjects.StructuredClone | extensions/amazon-bedrock/config-compat.ts:72-72 | a deep copy: new objects only, no sharing, the same tree |
| ConfigObjects.GrownChild | extensions/amazon-bedrock/config-compat.ts:83-97 | a change within the graph of one child is a change of that one field of the parent |
| BedrockConfigObjects.RemoveLegacy | extensions/amazon-bedrock/config-compat.ts:73-75 | the legacy entry is deleted and an empty models record with it |
| BedrockConfigObjects.MergeDiscovery | extensions/amazon-bedrock/config-compat.ts:95-105 | an existing plugin record is copied and filled, with the message merged or already set as the code gives it |
| BedrockConfigObjects.InstallDiscovery | extensions/amazon-bedrock/config-compat.ts:87-106 | the three ends: moved, merged or already set; the settings below the plugin's record and the message are those on trees |
| BedrockConfigObjects.MigrateAmazonBedrockLegacyConfig | extensions/amazon-bedrock/config-compat.ts:62-107 | on objects: no object of the caller's graph is written to, and result and message are those of the migration on trees |
| BedrockMigration.LegacyIsGone | extensions/amazon-bedrock/config-compat.ts:72-75 | removing the legacy entry removes it and leaves the plugin's own settings alone |
| BedrockMigration.MigrationSettles | extensions/amazon-bedrock/config-compat.ts:62-107 | no legacy record is left, and a second migration changes nothing |
| BedrockMigration.ReportedAs | extensions/amazon-bedrock/config-compat.ts:62-107 | the message for every configuration, and what the plugin's settings are with it |
| BedrockMigration.ModelsLeft | extensions/amazon-bedrock/config-compat.ts:55-75 | the models record goes as a whole if it held the legacy entry alone, and otherwise loses just that |
| BedrockMigration.MigratedSetting | extensions/amazon-bedrock/discovery.ts:438-441 | what the running plugin sees for each key after migration, for all configurations |
| BedrockMigration.SettingsPreserved | extensions/amazon-bedrock/discovery.ts:438-441 | a setting is the same before and after migration if and only if the plugin's own value, where there is one and the legacy entry offers another, is defined and covers the legacy one if both are records, and where there is none no value under a blocked name is left behind |
| BedrockMigration.FlatSettingsPreserved | extensions/amazon-bedrock/discovery.ts:438-441 | for discovery settings without nested records, undefined values and blocked keys, every effective setting is preserved |
| BedrockMigration.TheRestIsUntouched | extensions/amazon-bedrock/config-compat.ts:72-104 | outside the legacy entry, an emptied models record and the plugin's discovery settings, every path shows what it did |
| BedrockMigration.MergedMeansTopLevel | extensions/amazon-bedrock/config-compat.ts:98-105 | the message says merged if and only if a top-level field was missing: what was filled deeper down has changed both printed records |
| BedrockMigration.AlreadySetHidesNestedChange | extensions/amazon-bedrock/config-compat.ts:95-106 | already set is reported for settings that changed if and only if something is missing further down and nothing at the top level |
| BedrockMigration.NestedChangeGoesUnreported | extensions/amazon-bedrock/config-compat.ts:95-106 | a configuration whose nested settings are filled and reported as already set |
| ImportGraph.ResolveRelativeImportPath | scripts/load-channel-config-surface.ts:89-115 | the first candidate that is a file, or none |
| ImportGraph.CandidatesInOrder | scripts/load-channel-config-surface.ts:87-104 | what is tried for an import, in which order, and nothing else |
| ImportGraph.ExtensionStartsAtLastDot | scripts/load-channel-config-surface.ts:90-92 | what counts as the extension of a name |
| ImportGraph.FirstFileIsFirst | scripts/load-channel-config-surface.ts:106-114 | the file found is the first candidate that is one, and none is found only if none is |
| ImportGraph.ScriptNameFindsSource | scripts/load-channel-config-surface.ts:91-95 | an import of "./x.js" finds x.ts where there is no x.js |
| ImportGraph.QueueImports | scripts/load-channel-config-surface.ts:131-140 | exactly the files one file imports are queued |
| ImportGraph.CollectRelativeImportGraph | scripts/load-channel-config-surface.ts:117-144 | terminates with exactly the files reachable from the entry, each read once, and fails exactly when the entry is missing |
| ImportGraph.ClosedHasAll | scripts/load-channel-config-surface.ts:117-144 | a set closed under imports contains everything reachable from its members |
| CommonAncestor.SharedByAllIsDeepest | scripts/load-channel-config-surface.ts:146-163 | the shared path contains exactly the common prefixes of all paths |
| CommonAncestor.ResolveCommonAncestor | scripts/load-channel-config-surface.ts:146-163 | the climbing loop computes what climbing candidate by candidate computes, and fails only on an empty list |
| CommonAncestor.Verdict | scripts/load-channel-config-surface.ts:151-161 | what one more path does to the deepest directory and to being stuck below it |
| CommonAncestor.AncestorIsDeepest | scripts/load-channel-config-surface.ts:146-163 | the result is the deepest directory containing every path if and only if that directory is not itself listed with all other paths, the first among them, below one of its entries; otherwise the result is one name too deep |
| ModuleCopy.ResolvePackageRoot | scripts/load-channel-config-surface.ts:57-69 | the innermost directory around the module with a package.json |
| ModuleCopy.RelativeLeadsThere | scripts/load-channel-config-surface.ts:181-182 | resolving the relative path from a to b at a gives b |
| ModuleCopy.TargetIsBelow | scripts/load-channel-config-surface.ts:181-182 | joining the relative path to the new directory gives a path below it, without steps up |
| ModuleCopy.PackageInFront | scripts/load-channel-config-surface.ts:172-174 | with the package directory listed first the ancestor search always finds the deepest directory, strictly above every file |
| ModuleCopy.CopyFiles | scripts/load-channel-config-surface.ts:180-185 | every listed file is copied to its own target and nothing else is written; distinct sources have distinct targets |
| ModuleCopy.CopyModuleImportGraph | scripts/load-channel-config-surface.ts:165-192 | the whole copy: exactly the reachable files, in their shape below the deepest common directory |
| CopiedImports.NormalResolves | scripts/load-channel-config-surface.ts:106-109 | a relative specifier comes to so many steps up and then names down, from any directory |
| CopiedImports.CopiedImportLeadsToTheCopy | scripts/load-channel-config-surface.ts:106-192 | an import of a copied file leads to the copy of what it led to if and only if it does not step out of the copied tree and does not come to its top while the new directory's name has an extension |
| CopiedImports.TopHasNoExtension | scripts/load-channel-config-surface.ts:89-109 | a directory whose import by name leads into it has no extension in its name |
| CopiedImports.LostExactlyWhenPackageHasExtension | scripts/load-channel-config-surface.ts:106-192 | with the new directory named as the code names it: an import within the copied tree is lost if and only if it comes to the top, the tree starts above the package, and the package's name has an extension |
| CopiedImports.CopyOfSampleLosesImport | scripts/load-channel-config-surface.ts:165-192 | the copy of a module whose package is called `a.b`: a file beside the package that imports its directory's index as "." finds it in the original and not in the copy |
| CopiedImports.CopyReachesCopies | scripts/load-channel-config-surface.ts:165-192 | if all imports keep their meaning, the copied module reaches the copy of everything the module reached |
| ClaudeArgs.NormalizeClaudePermissionArgs | extensions/anthropic/cli-shared.ts:99-133 | the loop is the permission pass of the specification, and an absent list stays absent |
| ClaudeArgs.NormalizeClaudeSettingSourcesArgs | extensions/anthropic/cli-shared.ts:135-167 | the loop is the setting sources pass of the specification, and an absent list stays absent |
| ClaudeArgs.NormalizeClaudeBackendConfig | extensions/anthropic/cli-shared.ts:169-175 | both lists go through the setting sources pass and then the permission pass |
| ClaudeArgs.ValuesAre | extensions/anthropic/cli-shared.ts:111-115 | what can be the value of a flag: not blank, and no dash in front |
| ClaudeArgs.DefaultsAdded | extensions/anthropic/cli-shared.ts:99-175 | what an empty list becomes, and that the legacy flag is dropped |
| ClaudeArgs.ValueBehindFlag | extensions/anthropic/cli-shared.ts:109-121 | a mode with a value is kept, setting sources with a value become the user's |
| ClaudeArgs.NoValueBehindFlag | extensions/anthropic/cli-shared.ts:109-121 | a flag without a value is dropped, what is behind it is kept, and the default is added |
| ClaudeArgs.AssignedValue | extensions/anthropic/cli-shared.ts:123-157 | the same for a flag and its value in one argument |
| ClaudeArgsMeaning.RenderTokens | extensions/anthropic/cli-shared.ts:99-167 | reading arguments as tokens loses nothing |
| ClaudeArgsMeaning.TokensOfRender | extensions/anthropic/cli-shared.ts:99-167 | a token list in which no bare flag precedes a value is read back as itself |
| ClaudeArgsMeaning.NormalizedIsCleaned | extensions/anthropic/cli-shared.ts:169-175 | the two passes over strings are one cleaning of the tokens: the second breaks no pair of the first and makes no new one |
| ClaudeArgsMeaning.NormalizedMeans | extensions/anthropic/cli-shared.ts:99-175 | for every list: permission modes as asked for or bypassing, as many setting sources as before and at least one, all of them the user's, and all unrelated arguments in order |
| ClaudeArgsMeaning.CleanListsAreTheFixedPoints | extensions/anthropic/cli-shared.ts:99-175 | the result never skips permissions by the legacy flag, every mode flag has a value, every setting source is the user's, both are present; and the lists of that kind are exactly the fixed points |
| ClaudeArgsMeaning.NormalizedTwice | extensions/anthropic/cli-shared.ts:169-175 | normalising twice is normalising once |
| Utf16.SliceUtf16Safe | src/utils.ts:88-115 | for every start and end, negative, swapped or out of range: the result is the clamped range without halves of pairs at its ends |
| Utf16.ClampedIndex | src/utils.ts:91-92 | an index within the string is meant as it is, a negative one counts from the end, and one beyond an end means that end |
| Utf16.RangeFromTheEnd | src/utils.ts:91-92 | a start of -k selects the last k units |
| Utf16.SwappedIndexes | src/utils.ts:94-98 | the order of the two indexes plays no part |
| Utf16.TruncateUtf16Safe | src/utils.ts:117-123 | the result is the prefix up to the last boundary within the limit |
| Utf16.EncodeDecode | src/utils.ts:80-86 | decoding UTF-16 (RFC 2781, section 2.2) loses nothing, lone surrogates included |
| Utf16.DecodeEncode | src/utils.ts:80-86 | every text of Unicode scalar values is decoded to itself, so the whole surrogate range is paired up |
| Utf16.CutCounts | src/utils.ts:99-112 | cutting a string keeps its characters if and only if the cut is not inside a surrogate pair |
| Utf16.WholeIsWidest | src/utils.ts:99-114 | the slice is a run of whole characters in the range, every other such run lies inside it, and it is empty only if there is no other |
| Utf16.SliceDecodes | src/utils.ts:88-115 | the characters of a slice are consecutive characters of the string |
| Utf16.SliceStaysWellFormed | src/utils.ts:88-115 | slices of well-formed strings are well-formed |
| Utf16.TwoSlices | src/utils.ts:88-115 | the slices on both sides of an index are the string, or all of it but the pair there |
| Utf16.TruncatedIsPrefix | src/utils.ts:117-123 | truncation keeps a prefix of the length limit, or one less exactly inside a pair, and is a slice from the start |
| Utf16.TruncatedTwice | src/utils.ts:117-123 | truncating to a and then to b is truncating to the smaller of them |
| UsageReport.Aggregate | scripts/cron_usage_report.ts:148-215 | the nested loops compute the report of exactly the accepted runs of all files |
| UsageReport.AddFile | scripts/cron_usage_report.ts:153-214 | the loop over one file's lines, with its filters |
| UsageReport.CountRun | scripts/cron_usage_report.ts:185-213 | one run is counted once, with its tokens or as missing usage |
| UsageReport.CountedExactlyWhen | scripts/cron_usage_report.ts:155-168 | a line counts if and only if it parses, lies in the period with both ends, and is of the job and model asked for |
| UsageReport.RunComesTo | scripts/cron_usage_report.ts:171-205 | when a run lacks usage, and otherwise which of its numbers count and how they are cut |
| UsageReport.RunIsEntered | scripts/cron_usage_report.ts:176-213 | one run more adds to its own job and model and to nothing else |
| UsageReport.PeriodsAddUp | scripts/cron_usage_report.ts:159-161 | two periods that meet count what the whole one counts, lines on the border twice |
| UsageReport.TotalsAreConserved | scripts/cron_usage_report.ts:148-215 | each job's totals are the sums over its models, and the jobs together have what the runs together have |
| UsageReport.EveryLineCounts | scripts/cron_usage_report.ts:154-185 | runs over all jobs are as many as the accepted lines |
| UsageReport.OrderPlaysNoPart | scripts/cron_usage_report.ts:148-215 | the report does not depend on the order of files or lines |

## Left out

- Translation sync: rendering to TypeScript and JSON, formatting, and property order in files; the locale is compared by its strings, its metadata and its memory.
- TranslationTree: property names an object inherits (`constructor`), which `setNestedValue` takes for values that are there.
- Translation sync: the order `localeCompare` gives the fallback keys; they are a set here.
- Translation sync: SHA-256; a cache key is the tuple it is hashed from, so collisions do not exist.
- Translation sync: the glossary, the prompt texts, progress messages, and the delay between attempts.
- TranslationBatches.BuildTranslationBatches: the budget is a natural number, the floor of the positive number the environment gives, which bounds the same integers.
- BatchTranslator: lower-casing in the timeout test covers ASCII letters only, because "timed out" is ASCII.
- RpcClient: starting the process, its boot delay, the heartbeat and kill signals; the reply text is reduced to whether `extractTranslationResult` finds one, and lines are parsed already.
- LocaleSync.SyncIsAFixpoint: the glossary file is written as it was read and plays no part.
- PairNotify: overlapping ticks and commands; the file is read, changed and written without a lock, so each is one step here.
- PairNotify: time stamps that are not finite or not whole, stored subscribers of the wrong shape, and a stored entry without a time, which is read as armed now.
- PairNotify: JavaScript lists ids that are array indexes first; that changes no time that is read.
- PairNotify: request ids that are inherited property names (`constructor`), which the code's lookup takes for seen.
- PairNotify: the Telegram adapter and message texts; whether a send succeeds is an arbitrary function of request and subscriber. The check for the channel comes before the steps modelled.
- PairNotify.OneSubscriberPerKey: is stated for targets whose key survives reading; PairNotify.DuplicatesExactlyWhenPadded shows that the condition is exact.
- PairNotify.NoRepeats: is stated for request ids that are neither empty nor in need of trimming; PairNotify.RepeatedExactlyWhenUnreadable shows that the condition is exact. PairNotify.NotifiedIsSeen and PairNotify.SeenStays need it for the same reason.
- DiscoveryCache: the AWS calls and the building, filtering and sorting of models; a fetch brings some list or fails. The key is the tuple it is built from, and `resetBedrockDiscoveryCacheForTest` and the one-time log are not modelled.
- JsonMerge, BedrockMigration: arrays, strings and numbers are leaves; property order and prototype keys other than the blocked ones do not exist.
- BedrockConfigObjects.MigrateAmazonBedrockLegacyConfig: requires the configuration to be a tree, no object in it twice or within itself. What the migration is given is parsed from JSON5 (`src/config/io.ts:933`), each included file anew (`src/config/includes.ts:261-263`), and the steps before it copy what they move (`src/commands/doctor/shared/legacy-config-core-normalizers.ts:152`). Objects built otherwise are outside the model.
- BedrockConfigObjects.RemoveLegacy: requires a tree, because it works on the deep copy of one.
- BedrockConfigObjects.MergeDiscovery: requires the plugin's record to be a tree and to have no object in common with the legacy settings, because it belongs to the deep copy and they to the original.
- BedrockConfigObjects.InstallDiscovery: requires the same of the configuration and the legacy settings.
- ConfigObjects.MergeMissing: requires a target that is a tree and has no object in common with the source, for the same reason. The source may share objects.
- ConfigObjects.MergeField: requires the same.
- ConfigObjects.EnsureRecord: requires a tree, because it works on the deep copy.
- ConfigObjects.EnsureRecords: requires the same.
- ConfigObjects.StructuredClone: requires a tree; copies of shared or cyclic objects, which keep their shape, are not modelled.
- Migration of ElevenLabs talk settings (`extensions/elevenlabs/config-compat.ts`): its `mergeMissing` is the one modelled here, and the rest of it works on a deep copy.
- ImportGraph: Windows paths, symbolic links, and the regular expression that finds imports; a file comes with its specifiers in order. An import that resolves to the file system root finds nothing.
- CopiedImports.CopiedImportLeadsToTheCopy: the temporary directory is new and its name does not occur in the specifier, as random names do not.
- ModuleCopy: creating directories, cleaning up, and the retry around the copy.
- ClaudeArgs: the other fields of the backend configuration, which are passed on as they are.
- Utf16: limits that are not numbers and indexes that are not integers.
- UsageReport.TotalsAreConserved: sums are exact naturals; JavaScript adds doubles, which agree with them up to 2^53.
- UsageReport.OrderPlaysNoPart: for the same reason holds of the program only as long as the sums stay below 2^53.
- UsageReport: job and model names that are inherited property names (`constructor`), which `??=` takes for totals that are there.
- UsageReport: parsing of lines and options, values that are not finite numbers, sorting of the rows (the built-in sort), and printing. The records the loop increments in place are written back as values.
- Release build numbers (`scripts/sparkle-build.ts`, `scripts/release-check.ts`), paginated batching (`scripts/label-open-issues.ts`) and marker blocks (`scripts/sync-moonshot-docs.ts`): not modelled.
