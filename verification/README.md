# Verified model of the architecture harness core

This Dafny project models the parts of the harness whose behaviour is hardest to keep in one's head, and proves what
their comments, documentation and callers rely on. `dafny verify dfyconfig.toml` checks all of it. Every induction is
written out; automatic induction is switched off wherever Dafny would try it.

| Component | Files | Main results |
|---|---|---|
| Agent session (`src/agent.rs`, sanitizer in `src/llm.rs`, redaction in `src/secrets.rs`) | `Chat`, `ToolPairs`, `ToolPairsTalk`, `History`, `Compaction`, `CompactionPass`, `Session`, `SessionSafety`, `SessionFolds`, `SessionTidy`, `SessionBounds`, `SessionJournal`, `SessionTurns`, `SessionTails`, `SessionTranscript`, `SessionDialogue`, `SessionSends`, `Redaction`, `RedactionText`, `AgentSession` | over every run of sends, injections, restores, clears, resets and compactions no tool call dangles; exactly when the sanitizer has nothing to do, when a fold tears a batch and when the journal pairs every call; the journal holds the conversation of the run and the history its tail; what a send asks first and leaves behind; bounds on requests and summaries |
| SHA-256, ArchUnit bridge (`src/archunit.rs`) | `Sha256`, `Sha256Functions`, `Sha256Constants`, `Sha256Abc`, `Hex`, `ArchUnit`, `Paths` | the array code refines FIPS 180-4; its functions bit by bit; padding exact and injective; the digest of the standard's example; longest common package; Java literals and the runner protocol round trip |
| Judge bench (`src/bench.rs`) | `Totals`, `Ranks`, `Correlation`, `SpearmanValue`, `Agreement`, `AgreementValue`, `Replay` | closed forms of tie-averaged ranks and of Spearman; when it is defined, bounded, 1 or -1; the agreement report from the questionnaires; the median is the best centre, so human medians are the best references; F1 against recall |
| AGENTS.md compiler (`src/agentsmd.rs`) | `Strings`, `Fnv`, `AgentsMd`, `AgentsMdContent`, `AgentsMdQuotes`, `AgentsMdRefreshes`, `AgentsMdFreshness`, `AgentsMdReruns` | exactly when splicing is idempotent, when refreshes lose handwritten text, and when a file is fresh after one or more generations; one substituted byte is always noticed |
| ADR registry (`src/adr_registry.rs`) | `Registry`, `RegistryFindings`, `RegistryReport` | merging conserves entries and is idempotent; every finding, in its place, if and only if its declarative condition holds; exactly when a second bearer of a number goes unreported; what the strict gate asks for |
| Dependency gate (`scripts/deps-check.py`) | `DepsCheck`, `DepsRules` | the glob matcher against alignments of pattern and path; prefixes by segments; exactly the forbidden imports, in order |
| JSON Pointers (`src/asyncapi.rs`) | `JsonPointer` | round trip by section 4 of RFC 6901; exactly which lists collide |

`Wrappers`, `Text`, `Sequences` and `Wording` hold shared helpers.

## How to read the session model

`Session` is a pure state machine. A state is the message history, the flag that stops the summariser, the dialogue
records of the journal and two observers: how often the summariser was asked, and every history a request was built
from. The model, the tools, the cancel key, the hooks and the loop detectors are a script of answers given in advance,
so every statement is for all behaviours of these partners. A script that has run out reads as a cancellation, one
that has run out of network retries as an exhausted retry budget. `AgentSession` is the object of the source: each
method updates its fields in place, with the source's loops, and is proved equal to the state function of the same
step. The theorems about whole runs are then proved on the functions, and `SessionTurns`, `CompactionPass` and
`SessionSends` tell what each function does from messages, script and thresholds alone.

`NoDangling` says that the tool results between an assistant message and the next one are exactly its calls, once each
and in call order. It holds in every reachable state as long as no limit reply carries calls. `Contiguous` (results
directly behind their request) and distinct call ids are what the sanitizer needs besides, and both are shown to be
necessary.

## Where the code and its own words differ

- `src/llm.rs:283` promises an idempotent sanitizer. It is idempotent if and only if no request repeats a call id
  (`IdempotentIffDistinct`); a repeated id gains another stub on the second pass.
- `src/agent.rs:1613-1615` says a fold never tears a call from its result. A batch in which a call before the last
  returns an image puts a user message between its results; a fold at that message leaves an orphan
  (`EarlyImageOrphansAfterFold`), unless the last call returned an image as well or a reminder followed: the exact
  condition is `FoldTearsIff`, and without such batches no fold of a run tears a pair (`GentleRunsStayWhole`). The
  same batch makes the next request lose a real result and carry an invented one (`EarlyImageLosesResult`).
- `src/agent.rs:762-786` stores the final reply after the turn limit unfiltered. If that reply carries calls although
  the request offered no tools, and only then, the send ends with dangling calls (`SendLeavesNoDangling`).
- `src/agentsmd.rs:500-504` promises that a refresh keeps handwritten text. With a lone BEGIN the second refresh
  swallows text, with a lone or leading END every refresh appends another zone and none is lost (`StrayBeginSwallows`,
  `StrayEndGrows`); over two or more refreshes text is lost if and only if the file holds a BEGIN and no END
  (`RefreshesLoseIff`).
- `src/agent.rs:481-487` journals the calls of a batch as redacted text read back, while the tool records carry the
  ids as they came. A long hexadecimal id is cut and an address can swallow the next call (`HexIdExample`,
  `AddressExample`), so the journal pairs every call if and only if redaction keeps the ids (`EveryRunLogsEveryCall`).
- `src/agentsmd.rs:631` offers a refresh as the way to a fresh file. With a stray BEGIN the first one may leave it
  stale (`FreshAfterGenerate`, `CutHeaderIsStale`). From the second on it is fresh (`CutHeaderHeals`), except that a
  file with an END before its first BEGIN, or with an END alone, is stuck with what its first generation left
  (`FreshAfterAll`, `EndFirstNeverHeals`).
- `src/agentsmd.rs:399-405` prints rules of the spine into the zone unescaped. A body that quotes an END never
  settles: each refresh leaves a remainder behind the zone (`QuoteGrows`).
- `src/agentsmd.rs:352-361` hashes its inputs without a separator, so text moved across the boundary of two files goes
  unnoticed (`MovedTextIsFresh`).
- `src/archunit.rs:726-737` cleans the details the runner prints but not the rule identifiers; the parser gets them
  back if and only if they hold neither a bar nor a line feed (`RoundTripIffCleanIds`).
- `src/adr_registry.rs:690` speaks of one title under different numbers; the code compares project and number, so one
  number in two projects counts as well, and the exception for equal titles at 653 shows for blank titles only
  (`SharedNumberReportedIff`).

## Model

| member | source | states |
|---|---|---|
| `ToolPairs.SanitizeToolPairs` | src/llm.rs:288-346 | The repair pass computes the repaired copy and both counters: each request followed by the answers it owns and one stub for every unanswered call; strangers dropped |
| `ToolPairs.KeepAnswers` | src/llm.rs:307-321 | The marking loop: which results survive, how many are strangers, and that a call counts as answered exactly when it is the first with its id and the id has a result |
| `ToolPairs.StubMissing` | src/llm.rs:325-333 | The stub loop: one synthetic result for each call left unmarked, in call order |
| `ToolPairs.SanitizeMeetsContract` | src/llm.rs:277-283 | For every history the result closes every requested id and holds no stray result |
| `ToolPairs.NothingToRepair` | src/llm.rs:283-346 | The repair reports nothing if and only if the history keeps the contract with distinct ids, and then it changes nothing |
| `ToolPairs.IdempotentIffDistinct` | src/llm.rs:283 | The documented idempotence holds if and only if no request repeats a call id |
| `ToolPairs.RepeatedIdIsNotIdempotent` | src/llm.rs:325-333 | The failing input: one request with the same id twice gains two stubs on the first pass and another on the second |
| `ToolPairs.SanitizeConserves` | src/llm.rs:288-346 | Messages out plus dropped equals messages in plus synthesised |
| `ToolPairsTalk.SanitizeKeepsTalk` | src/llm.rs:288-346 | The repair touches tool results only: all other messages stay as they were, in order; what it puts in is the fixed text under an id that was asked for |
| `ToolPairsTalk.DroppedAreStrangers` | src/llm.rs:307-343 | The counter of dropped messages is the number of results that answer no id of the request right before them |
| `History.WellPairedHistory` | src/agent.rs:1271-1280 | A history that answers every call satisfies the provider contract if and only if results follow their request directly, ids are distinct and no result comes first |
| `History.RequestAssembly` | src/agent.rs:1281-1304 | For such a history a built request has nothing synthesised and loses exactly the leading results if and only if results are contiguous and ids distinct |
| `History.RequestShape` | src/agent.rs:1281-1304 | Every request is the system prompt and behind it the repaired history |
| `History.FoldKeeps` | src/agent.rs:1613-1616 | Replacing everything before a user message by a plain assistant note keeps every answered call answered; whether it strands a result is decided by what stands before the next assistant message |
| `Compaction.MaskAt` | src/agent.rs:1474-1497 | Masking shortens exactly the tool results with four or more results after them |
| `Compaction.MaskLeavesYoung` | src/agent.rs:1474-1476 | The last four tool results are left alone |
| `Compaction.MaskKeepsShape` | src/agent.rs:1477-1497 | Masking keeps length, roles, ids and calls, hence every pairing invariant |
| `Compaction.MaskIdempotent` | src/agent.rs:1477-1497 | A second masking changes no text although its counter reports the same number again |
| `CompactionPass.MaskCutsOld` | src/agent.rs:1477-1497 | Told without the pass: a tool result with four or more tool results behind it and more than 500 characters is cut to 500 and the mark, and nothing else is touched |
| `CompactionPass.MaskCountIs` | src/agent.rs:1488-1496 | The counter of a masking pass is the number of such results |
| `Compaction.ShortenShrinks` | src/agent.rs:1489-1494 | Shortening saves bytes if and only if the cut tail is longer than the 32 bytes of the mark |
| `Compaction.PruneIsLeast` | src/agent.rs:1558-1568 | Pruning keeps a suffix, ends within the budget or at six messages, and every shorter cut would have left too much |
| `CompactionPass.RemovableIs` | src/agent.rs:1560-1564 | The message a prune takes is the first that is no system message, and there is none exactly when all are |
| `Compaction.TotalWithout` | src/agent.rs:1565-1566 | Removing a message lowers the weight by exactly its own: the running total stays the true sum |
| `Compaction.PruneOrphansLead` | src/agent.rs:1558-1568 | After pruning a tidy history results without a request stand before the first remaining assistant message only; when it is contiguous with distinct ids a request loses just the results at the very front |
| `Compaction.FoldKeepsPairs` | src/agent.rs:1613-1671 | A fold keeps answered calls answered, contiguous results contiguous and ids distinct; which batches it tears is the next row |
| `SessionFolds.FoldTearsIff` | src/agent.rs:1613-1671 | The exact condition on any history, at once or after later turns: folding after a batch strands a result if and only if no reminder followed and either an executed call before the last returned images and the last call did not, or no call did and a fold of the history before strands one |
| `SessionTidy.BatchTearsIff` | src/agent.rs:724-744 | That condition is exact, batch by batch: a fold right after the turn strands a result if and only if the batch was not gentle |
| `SessionTidy.GentleRunsStayWhole` | src/agent.rs:1613-1616 | Over every run whose batches are gentle (no early image, an image from the last call too, or a reminder behind) no fold tears a pair: in every history and every request a result behind an assistant message answers one of its calls |
| `Compaction.FoldKeepsTail` | src/agent.rs:1620-1677 | A fold leaves one plain note, then the last user message and all that followed it |
| `Compaction.EffectiveBudget` | src/agent.rs:1464-1473 | The budget is the smaller of the configured one (at least 1) and a known positive window |
| `CompactionPass.ThresholdsAre` | src/agent.rs:1546-1548 | The first threshold is its percentage of the budget, capped at the budget, the third one its percentage uncapped, both rounded down |
| `CompactionPass.WeightIs` | src/llm.rs:177-187 | A message weighs a quarter of the UTF-8 bytes of its text, reasoning and arguments, rounded down, and 1024 for each image |
| `CompactionPass.WeightsAdd` | src/agent.rs:1549 | The weight of a history is the sum over its messages |
| `CompactionPass.WidthIsLeast` | src/llm.rs:177-187 | A character counts the fewest bytes of UTF-8 that hold its code point |
| `CompactionPass.AutoCompactIs` | src/agent.rs:1545-1611 | The whole pass told level by level from the messages and thresholds: untouched up to the first threshold; above it aged results are cut, the shortest prefix goes that brings the rest within the budget or to six messages, and the third level decides on what is left |
| `CompactionPass.FoldIs` | src/agent.rs:1620-1677 | A fold happens if and only if something stands before the last user message and the summariser answers; it puts one note with the number and the summary, or the fixed text for a blank one, in its place |
| `CompactionPass.AgedAreShort` | src/agent.rs:1555-1556 | Above the first threshold no result with four or more results behind it has more than 500 characters and the mark; whatever else is kept is as it was, a suffix behind at most one plain note |
| `CompactionPass.CuttingSuffices` | src/agent.rs:1558-1583 | Where cutting old results suffices nothing else happens: a message is removed only if the cut history exceeds the budget, and the summariser is asked only if what is left exceeds the third threshold |
| `Compaction.AutoCompactKeepsPairs` | src/agent.rs:1545-1611 | All three levels together keep every pairing invariant |
| `Compaction.AutoCompactFutile` | src/agent.rs:1583-1605 | At most one summary a pass, none once the flag is set; the flag is set only over the threshold, and an unset flag after a full pass means the history is light enough |
| `Compaction.AutoCompactBounds` | src/agent.rs:1545-1611 | A pass never lengthens the history; unless a summary was asked for it ends within the budget or at six messages |
| `AgentSessions.AgentSession.SendInput` | src/agent.rs:303-792 | The send as a method on the object: its exit and the whole new state are those of the session function, on every path |
| `AgentSessions.AgentSession.RunTurn` | src/agent.rs:331-745 | One iteration: cancellation, compaction, request, retry, final answer, batch with its redacted record, reminder |
| `AgentSessions.AgentSession.RequestReply` | src/agent.rs:337-439 | One attempt, the wait for the network if it fails, and exactly one more attempt after an overflow (with a fold) or after a broken tool-pair contract |
| `AgentSessions.AgentSession.NetworkPatience` | src/agent/network.rs:42-106 | Each retry after a network error builds a request anew; the wait ends with a reply, another error, a cancellation, or the budget run out |
| `AgentSessions.AgentSession.RunCalls` | src/agent.rs:503-741 | The batch loop appends the specified messages and journal records and says whether it was cancelled |
| `AgentSessions.AgentSession.CancelPendingTools` | src/agent.rs:836-872 | Every call from the given one on gets the cancelled result, in history and journal |
| `AgentSessions.AgentSession.ContinueOnLength` | src/agent.rs:1092-1177 | A truncated answer is joined with at most two continuations; errors and cancellation end it softly |
| `AgentSessions.AgentSession.MaskOldToolResults` | src/agent.rs:1477-1497 | The in-place masking loop yields the masked history and its counter |
| `AgentSessions.AgentSession.PruneToBudget` | src/agent.rs:1558-1568 | The in-place removal loop, tracking the total, yields the pruned history |
| `AgentSessions.AgentSession.L3Summarize` | src/agent.rs:1620-1677 | The fold in place, nothing when there is nothing to fold or the summariser fails |
| `AgentSessions.AgentSession.CompactHistory` | src/agent.rs:1545-1611 | The automatic pass over the three levels with the flag |
| `AgentSessions.AgentSession.CompactOnCommand` | src/agent.rs:1506-1531 | The forced compaction with its four counters; a failed summary keeps the masking |
| `AgentSessions.AgentSession.BuildRequest` | src/agent.rs:1281-1304 | A request carries the system prompt and the repaired copy, which meets the contract; the history itself is untouched |
| `AgentSessions.AgentSession.FinishAtLimit` | src/agent.rs:746-792 | The final reply after the turn limit is stored as it came |
| `AgentSessions.AgentSession.InjectContext` | src/agent.rs:1211-1218 | The injected text joins history and journal as one user message and one record, spelled out |
| `AgentSessions.AgentSession.RestoreFromLog` | src/agent.rs:1229-1269 | Lines are restored in order up to the first that is not JSON; the count is right |
| `AgentSessions.AgentSession.Clear` | src/agent.rs:940-945 | History and flag are reset, the journal goes on |
| `AgentSessions.AgentSession.Reset` | src/agent.rs:952-979 | History, flag and journal start anew |
| `SessionSends.InputIsAsked` | src/agent.rs:326-361 | For every history without a system message, as every reachable one is, and however heavy: the first request of a send is built from a tail of the history with the input behind it and ends in the input; a send builds no request if and only if it is refused or cancelled before the first turn |
| `SessionSends.SendLeaves` | src/agent.rs:303-792 | What a send returns is what it leaves: after a final answer the history is what the model was asked last and one assistant message with that text and no calls; at the limit, the final reply as it came; the journal ends in the same text |
| `SessionSends.InjectionIs` | src/agent.rs:1211-1218 | An injection adds one user message that ends in the injected text, and one record of it |
| `SessionSends.RestoreIs` | src/agent.rs:1229-1269 | Restoring line by line: a user or assistant line with a text gives one message with it, any other line none, and a line that is not JSON ends it |
| `SessionTurns.TurnIs` | src/agent.rs:331-745 | One turn message by message: which answer ends it how, what it appends to the history the answer was given to, and what it records |
| `SessionTurns.CompactedIs` | src/agent.rs:1545-1611 | The pass on a session: history and flag are those of the third level on the cut and pruned history, its question is counted, journal and requests stay |
| `SessionTurns.BatchIs` | src/agent.rs:503-741 | A batch appends the piece of each call in call order and nothing else: its result, cut at 8192 characters or the fixed text from the first call on that is interrupted, and behind it the images it returned |
| `SessionTurns.StoppedIff` | src/agent.rs:503-741 | A batch is cut short if and only if some call of it is not carried out |
| `SessionTurns.ContinueIs` | src/agent.rs:1092-1177 | A final answer is the first reply and the texts of its continuations in order, at most two, each asked for because what came before was cut at the token limit and not blank |
| `SessionTurns.PatienceIs` | src/agent/network.rs:42-106 | The wait sends one request for each retry, each after a network error, and ends at the first attempt that is none, at a cancelled pause or with the retries used up |
| `SessionTurns.AskIs` | src/agent.rs:337-439 | What asking leads to, case by case: the attempts, and after an overflow (unless folding is useless) the fold, after a broken contract one more request |
| `SessionTails.CommandIs` | src/agent.rs:1506-1531 | The command cuts the old results and folds what is left whenever it can and the summariser answers, whatever thresholds and flag say |
| `SessionSafety.BatchAnswers` | src/agent.rs:836-872 | Cancelled or not, a batch answers every call once, in call order |
| `SessionSafety.BatchContiguous` | src/agent.rs:724-741 | The results of a batch stand together if and only if images come from its last call only |
| `SessionSafety.SendLeavesNoDangling` | src/agent.rs:303-792 | A send leaves a dangling call if and only if it gets under way, its turns run into the limit, and the final reply, to a request without tools, carries calls |
| `SessionSafety.LimitExitIff` | src/agent.rs:746-792 | A send ends with the limit reply if and only if every turn hands over to the next and the final request is answered; the reply is the one that was given |
| `SessionSafety.LimitKeeps` | src/agent.rs:762-792 | The unfiltered final reply is the one way to a dangling call, and a certain one |
| `SessionSafety.EveryRunAnswersEveryCall` | src/agent.rs:331-792 | Over all runs of all steps, with plain limit replies, neither the history nor any history a request was built from has a dangling call |
| `SessionSafety.OrderlyRunsNeedNoRepair` | src/agent.rs:1281-1304 | If besides ids are distinct and images come last, no request of any run ever needs a synthetic result or loses one behind the leading orphans |
| `SessionSafety.BatchNeedsNoRepairIff` | src/agent.rs:724-744 | That condition is exact, batch by batch |
| `SessionSafety.EarlyImageLosesResult` | src/agent.rs:730-742 | The failing input: an image from the first of two calls makes the sanitizer drop the real second result and invent one |
| `SessionSafety.EarlyImageOrphansAfterFold` | src/agent.rs:1613-1615 | The same batch folded at its image message leaves an orphan result behind the note |
| `SessionBounds.BatchTellsEveryCall` | src/agent.rs:503-741 | Call by call, history and journal carry the same id and text: the truncated output, or the cancellation from the first interrupted call on |
| `SessionBounds.SendCost` | src/agent.rs:330-439 | However the model and the network behave, a send of n turns builds at most 2n+2 requests and one for each retry after a network error, and asks for at most 2n summaries |
| `SessionBounds.AskCost` | src/agent/network.rs:76-88 | Asking for one reply costs two requests at most besides the retries, and one summary |
| `SessionJournal.EveryRunLogsEveryCall` | src/agent.rs:481-725 | Over every run the calls named in the journal and the tool records behind them agree, in call order, if and only if redaction leaves every batch logged since the last reset its list of ids |
| `SessionJournal.EveryRunLogsEveryResult` | src/agent.rs:715-866 | Whatever redaction does, the tool records since the last reset are those of the calls of every batch, once each and in order |
| `Redaction.CleanBatchKeepsIds` | src/agent.rs:483-487 | A batch in whose text no rule finds anything is logged as it is |
| `RedactionText.ListReads` | src/agent.rs:481-487 | The text that is redacted is the JSON list of the calls in order |
| `RedactionText.EscapedDecodes` | src/agent.rs:481-487 | Every text inside it decodes to what it was by section 7 of RFC 8259 |
| `RedactionText.RulesInOrder` | src/secrets.rs:226-243 | The rules work one after the other, each on what the one before left |
| `Redaction.HexIdIsLost` | src/secrets.rs:113 | A failing family: an id that ends in a word of 32 or more hexadecimal digits is cut in the record of its batch |
| `Redaction.HexIdExample` | src/secrets.rs:113 | Its failing input: `chatcmpl-tool-` and 32 hexadecimal digits are logged as `chatcmpl-tool-01234567***` |
| `Redaction.AddressSwallowsCall` | src/secrets.rs:101 | The other failing family: an address in one call and an at sign in the next read as a password, the text between is masked, and what is left is a shorter list without the second call |
| `Redaction.AddressExample` | src/secrets.rs:101 | Its failing input: `https://example.com` in one call and `ops@example.com` in the next leave a record of one call |
| `SessionJournal.RestoreGivesConversation` | src/agent.rs:1220-1269 | Restoring the lines of a journal gives its non-empty user and assistant texts in order, with no tool message and no call |
| `SessionJournal.TurnConversation` | src/agent.rs:453-499 | A turn adds exactly its one (joined) assistant text to the journalled conversation |
| `SessionJournal.RunConversation` | src/agent.rs:303-792 | Over any run the journal holds the inputs, the injected texts and the joined replies of its steps since the last reset, in order; compactions, retries and restored messages leave no trace |
| `SessionJournal.RestoredRun` | src/agent.rs:1220-1269 | Restoring the journal of any run into a new session gives that conversation as its history |
| `SessionTranscript.HistoryIsTail` | src/agent.rs:303-1677 | Over every run the history holds no system message and is the tail of all that was said since the last clear or reset, with one plain note in the place of the rest or none; only texts of tool results are cut; without a prune or a fold it is all of it |
| `SessionDialogue.JournalTellsTranscript` | src/agent.rs:1229-1269 | Over every run the texts of users and model in all that was said are what the journal gained and what was restored since the last clear or reset, in order, with the reminders put in between and nothing else |
| `SessionDialogue.QuietHistoryTells` | src/agent.rs:303-1677 | So without a prune or a fold the history tells what journal and restored lines tell, in order; without reminders exactly that |
| `SessionJournal.FutileIsFinal` | src/agent.rs:1583-1605 | Once folding proved useless no send asks the summariser again until clear, reset or an explicit command |
| `Sha256.Sha256Hex` | src/archunit.rs:1225-1289 | The whole function prints the digest of the left fold of the FIPS 180-4 compression over the padded blocks |
| `Sha256.PadMessage` | src/archunit.rs:1230-1238 | The padding loop terminates and appends 0x80, the zeros and the 64-bit length |
| `Sha256.PadIsFips` | src/archunit.rs:1230-1238 | Below 2^61 bytes that is the padding of section 5.1.1 of FIPS 180-4: the least number of zeros, a multiple of 64 bytes |
| `Sha256.PaddingUnique` | src/archunit.rs:1230-1238 | Section 5.1.1 leaves one padding for a message |
| `Sha256.DigestIsFips` | src/archunit.rs:1225-1289 | Whatever satisfies section 5.1.1 for a message is what the loop appends, so the digest is that of the standard |
| `Sha256.PadInjective` | src/archunit.rs:1230-1238 | Equal padded messages come from equal messages |
| `Sha256.Schedule` | src/archunit.rs:1241-1254 | The in-place table w is the message schedule |
| `Sha256.ScheduleRecurrence` | src/archunit.rs:1247-1254 | Every schedule word satisfies the recurrence of section 6.2.2 |
| `Sha256.OneRound` | src/archunit.rs:1256-1274 | The eight working variables after one iteration are those of one round |
| `Sha256.CompressBlock` | src/archunit.rs:1240-1283 | One block updates the state array by the compression function |
| `Sha256.HashMessage` | src/archunit.rs:1240-1283 | The block loop is a left fold of the compression |
| `Sha256.HashBlocksConcat` | src/archunit.rs:1240-1283 | Hashing whole blocks in two goes equals hashing them in one |
| `Sha256.Mix` | src/archunit.rs:1248-1267 | The built-in rotations give the four sigma functions of section 4.1.2 |
| `Sha256Functions.ChBits` | src/archunit.rs:1257 | Bit by bit: Ch takes the bit of the second word where the first has a 1 and of the third elsewhere |
| `Sha256Functions.MajBits` | src/archunit.rs:1264 | Bit by bit: Maj takes what at least two of the words have |
| `Sha256Functions.BigSigma0Bits` | src/archunit.rs:1263 | Bit i is the exclusive or of the bits i + 2, i + 13 and i + 22, around the end |
| `Sha256Functions.BigSigma1Bits` | src/archunit.rs:1256 | Bit i is the exclusive or of the bits i + 6, i + 11 and i + 25, around the end |
| `Sha256Functions.SmallSigma0Bits` | src/archunit.rs:1247 | Bit i is the exclusive or of the bits i + 7 and i + 18, around the end, and of bit i + 3 where there is one |
| `Sha256Functions.SmallSigma1Bits` | src/archunit.rs:1248 | Bit i is the exclusive or of the bits i + 17 and i + 19, around the end, and of bit i + 10 where there is one |
| `Sha256Abc.AbcDigest` | src/archunit.rs:1303-1311 | The printed digest of "abc" is the value of the standard, through the schedule and all 64 rounds |
| `Sha256.HexWordsInjective` | src/archunit.rs:1284-1288 | Different digests print differently |
| `Sha256Constants.RoundConstants` | src/archunit.rs:1209-1218 | The 64 round constants are the first 32 bits of the fractional parts of the cube roots of the primes from 2 to 311, in order |
| `Sha256Constants.InitialValue` | src/archunit.rs:1226-1229 | The initial value is the fractional parts of the square roots of the first eight primes |
| `ArchUnit.DeriveBasePackage` | src/archunit.rs:533-576 | No anchor gives none, one gives its parent, several give the longest package prefix they share |
| `ArchUnit.CommonLength` | src/archunit.rs:567-572 | How far two segment lists agree, and that they differ right after |
| `ArchUnit.AnchoredIff` | src/archunit.rs:534-539 | A pattern is anchored at a package if and only if it is the package with pairs of dots behind, the package is not empty and has no such pair at either end, and the pattern is not on the allow list |
| `ArchUnit.EscapeRoundTrip` | src/archunit.rs:582-595 | The escaped text is a well-formed Java literal that denotes the text |
| `ArchUnit.RunReadsBack` | src/archunit.rs:726-737 | With clean rule identifiers the parser reads back every printed violation, in order, and nothing else |
| `ArchUnit.SanitizeAt` | src/archunit.rs:734-736 | The clean-up of a detail changes line breaks to spaces and bars to slashes and keeps every other character |
| `ArchUnit.RoundTripIffCleanIds` | src/archunit.rs:789-801 | The protocol round trip holds if and only if no rule identifier holds a bar or a line feed |
| `ArchUnit.LineEnds` | src/archunit.rs:791-792 | A line ends at a line feed, with or without a carriage return before it, or at the end of the text |
| `Fnv.Fnv1aLoop` | src/agentsmd.rs:342-349 | The loop computes the FNV-1a hash |
| `Fnv.KnownAnswers` | src/agentsmd.rs:341-349 | The hashes of nothing, of "a" and of "foobar" are the published ones |
| `Fnv.ScrambleInvertible` | src/agentsmd.rs:346 | The wrapping product by the odd prime is undone by its inverse: every step is a bijection |
| `Fnv.StatesStayApart` | src/agentsmd.rs:342-349 | Different states stay different whatever bytes follow |
| `Fnv.SubstitutionChangesHash` | src/agentsmd.rs:341-349 | Two inputs that differ in one byte have different hashes |
| `AgentsMd.SpliceIdempotentIffSettled` | src/agentsmd.rs:535-555 | For a zone whose only END closes it: splicing twice equals splicing once if and only if the file holds no marker or a BEGIN before an END |
| `AgentsMdQuotes.SpliceIdempotentIff` | src/agentsmd.rs:535-555 | For every zone: splicing twice equals splicing once if and only if the file is settled and the body quotes no END |
| `AgentsMdQuotes.QuoteGrows` | src/agentsmd.rs:539-548 | A zone whose body quotes an END: every refresh takes the quote for the close, and the file grows by what stood behind it |
| `AgentsMd.StrayEndGrows` | src/agentsmd.rs:549-553 | A lone or leading END: every run appends one more zone |
| `AgentsMd.StrayBeginSwallows` | src/agentsmd.rs:539-548 | A lone BEGIN: the second run swallows all text up to the appended zone |
| `AgentsMd.SpliceKeepsHandwritten` | src/agentsmd.rs:500-504 | One refresh of a settled file keeps the text outside the zone up to the line breaks (or, on an append, the trailing blanks) next to it |
| `AgentsMdRefreshes.RefreshesLoseIff` | src/agentsmd.rs:500-504 | For every file and any zones that quote no END: two or more refreshes lose handwritten text if and only if the file holds a BEGIN and no END |
| `AgentsMdRefreshes.LoneBeginLeaves` | src/agentsmd.rs:539-553 | With a BEGIN and no END, all that two or more refreshes leave is what stood before the BEGIN, and the last zone |
| `AgentsMd.SpliceLeavesOneZone` | src/agentsmd.rs:535-555 | The result holds each marker exactly once when no marker stood behind the old zone and the new one quotes none |
| `AgentsMdContent.GeneratedIs` | src/agentsmd.rs:508-555 | Every generation writes the header line with hash and time stamp, the body and the END, and around it what was there: the text before and behind the old zone, the old text without trailing blanks, or the header of a new file |
| `AgentsMdContent.LintIs` | src/agentsmd.rs:600-642 | No zone is reported if and only if there is no BEGIN, otherwise fresh, stale or no hash by the hash that can be read |
| `AgentsMdContent.HashRunsOver` | src/agentsmd.rs:352-367 | The hash runs over the spine, then the constraints, then the facts |
| `AgentsMdFreshness.EmbeddedIsPrinted` | src/agentsmd.rs:558-567 | For every 64-bit hash and any time stamp the linter reads back exactly the hash printed in the header of a file's first zone |
| `AgentsMdFreshness.ParsePrinted` | src/agentsmd.rs:377 | Parsing the sixteen printed hexadecimal digits gives the number back |
| `AgentsMdContent.ParseIs` | src/agentsmd.rs:566 | Read as a hash is a non-empty text of hexadecimal digits of either case, with or without a plus before it, up to 64 bits |
| `AgentsMdFreshness.RenderedIsWellFormed` | src/agentsmd.rs:373-378 | A rendered zone opens and closes with its markers; its END is the only one when what it prints between holds none, and so is its BEGIN |
| `AgentsMdFreshness.EmbeddedAfterGenerate` | src/agentsmd.rs:535-567 | What the linter reads in a generated file, whatever was there: the printed hash, unless a stray BEGIN comment closes earlier or names a hash of its own |
| `AgentsMdFreshness.LintAfterGenerate` | src/agentsmd.rs:558-642 | For every file before and any inputs then and now: the verdict on the generated file, told from the file before |
| `AgentsMdFreshness.RegularFollowsInputs` | src/agentsmd.rs:620-642 | When the first BEGIN, if any, opens a zone, the verdict is fresh or stale by the hash of the inputs alone |
| `AgentsMdFreshness.FreshAfterGenerate` | src/agentsmd.rs:620-642 | Linting right after one generation says fresh if and only if the first BEGIN opens a zone, or its stray comment closes and names the current hash, or stays open and names no hash or the current one |
| `AgentsMdFreshness.SubstitutionIsStale` | src/agentsmd.rs:352-367 | After one substituted input byte the linter reports stale |
| `AgentsMdFreshness.FileSubstitution` | src/agentsmd.rs:352-361 | A byte substituted in the spine or in the constraints is such a change |
| `AgentsMdFreshness.StrayBeginHidesZone` | src/agentsmd.rs:535-567 | A stray BEGIN whose comment closes, or names a hash before it would, hides the zone of the next generation: the verdict right after it does not depend on the hash printed there |
| `AgentsMdFreshness.CutHeaderIsStale` | src/agentsmd.rs:558-567 | A file cut off inside a zone header is still stale right after the next generation on changed inputs |
| `AgentsMdReruns.EmbeddedAfterAll` | src/agentsmd.rs:535-567 | What the linter reads after two or more generations, on any inputs: the last hash, or for ever what the first generation left when an END came before every BEGIN |
| `AgentsMdReruns.FreshAfterAll` | src/agentsmd.rs:620-642 | Linting after two or more generations on unchanged inputs says fresh if and only if the file, or the header of a new one, held no END before its first BEGIN, or no BEGIN, or its stray comment names no hash or the current one |
| `AgentsMdReruns.EndFirstNeverHeals` | src/agentsmd.rs:549-567 | A file with an END before its first BEGIN, or an END alone, keeps the verdict of its first generation through any number of later ones |
| `AgentsMdReruns.CutHeaderHeals` | src/agentsmd.rs:535-567 | That file is fresh from the second generation on |
| `AgentsMdFreshness.MovedTextIsFresh` | src/agentsmd.rs:352-361 | A blind spot: text moved from the end of the spine to the start of the constraints keeps the hash |
| `Ranks.AverageRanks` | src/bench.rs:693-710 | Every observation gets #{smaller} + (#{equal} + 1) / 2 |
| `Ranks.RanksAlong` | src/bench.rs:696-709 | The nested loops give the same ranks for any order that sorts the observations, ties in whatever order |
| `Ranks.RanksOfAddUp` | src/bench.rs:692-710 | The ranks add up to n(n+1)/2, ties or not |
| `Ranks.RankMonotone` | src/bench.rs:692-710 | Equal observations share a rank, a smaller one has a strictly smaller rank |
| `Ranks.RanksAreTheOrder` | src/bench.rs:692-710 | Two vectors have the same ranks if and only if they order the observations alike |
| `Correlation.Pearson` | src/bench.rs:714-730 | The accumulator loop computes the quotient of the moments, or nothing without variance |
| `Correlation.Spearman` | src/bench.rs:685-690 | Pearson of the ranks, nothing for different lengths or fewer than two observations |
| `SpearmanValue.SpearmanIs` | src/bench.rs:685-730 | The value, ties or not: r * r * sxx * syy = sxy * sxy with the sign of sxy, the sums taken over the distances of the ranks from (n + 1) / 2, ranks told by counting smaller and equal observations |
| `SpearmanValue.SpearmanWithoutTies` | src/bench.rs:685-730 | The closed form: for two vectors of n observations without ties, at least two, the value is 1 - 6 * (sum of squared rank differences) / (n * (n * n - 1)) |
| `Correlation.CauchySchwarz` | src/bench.rs:718-729 | The squared comoment is at most the product of the variances; equality means proportional deviations |
| `Correlation.SpearmanDefined` | src/bench.rs:681-683 | Defined if and only if the lengths agree, there are two observations and neither vector is constant |
| `Correlation.SpearmanBounded` | src/bench.rs:681-690 | The result lies between -1 and 1 |
| `Correlation.SpearmanSymmetric` | src/bench.rs:681-690 | Swapping the vectors keeps the result |
| `Correlation.SpearmanSeesOrder` | src/bench.rs:681-690 | Any order-preserving change of either vector keeps the result |
| `Correlation.SpearmanNegates` | src/bench.rs:681-690 | Reversing the order of one vector negates the result |
| `Correlation.SpearmanOne` | src/bench.rs:681-690 | The result is 1 if and only if both vectors order the observations alike and tell some apart |
| `Correlation.SpearmanMinusOne` | src/bench.rs:681-690 | It is -1 if and only if they order them in opposite ways |
| `Agreement.MedianMinimises` | src/bench.rs:1112-1124 | No centre has a smaller total distance to the sample than the median |
| `AgreementValue.MedianIs` | src/bench.rs:1112-1124 | The median is the mean of the two middle values of the sorted sample, which are one for an odd sample |
| `Agreement.CollectRows` | src/bench.rs:1063-1108 | Questionnaires are reduced to the golden criteria; the first with a zero or a missing score is reported |
| `Agreement.HumanAgreement` | src/bench.rs:943-1043 | The loops over documents and criteria compute the report, or the first error |
| `Agreement.ReportIff` | src/bench.rs:939-942 | There is a report if and only if every questionnaire is acceptable and some document can be compared |
| `AgreementValue.ReportIs` | src/bench.rs:1006-1043 | From the questionnaires: the golden error times the number of compared criteria is the sum of the distances of golden scores from human medians, the human error times the number of human scores is the sum of their distances from the medians; skipped are the documents without questionnaires |
| `AgreementValue.DocsReduced` | src/bench.rs:952-1005 | The documents of a report are those with questionnaires, in order, each with its golden scores, the human scores by criterion and their medians |
| `AgreementValue.FullAgreementIff` | src/bench.rs:1010-1021 | The golden error is 0 if and only if every golden score is the median of the human ones |
| `AgreementValue.RejectionIs` | src/bench.rs:1063-1108 | A rejection names the first document with a bad questionnaire, the first such questionnaire, and a zero score before a missing one |
| `Agreement.InterHumanIsLeast` | src/bench.rs:1019-1035 | The error among the humans never exceeds the error of the same scores against any references |
| `Agreement.GoldenFitsNoBetter` | src/bench.rs:1006-1035 | In particular the golden scores never fit the humans better than their own medians |
| `Replay.F1IsDice` | src/bench.rs:1564-1582 | F1 is twice the common tokens over the tokens of both sets |
| `Replay.F1Range` | src/bench.rs:1564-1621 | F1 lies in [0, 1], is 1 for equal non-empty sets only, and is positive exactly when there is a hit |
| `Replay.F1Symmetric` | src/bench.rs:1564-1582 | F1 does not depend on which set is expected |
| `Replay.CompositionBelowRecall` | src/bench.rs:1382-1425 | The composition F1 never exceeds the recall; they agree if and only if every hit is perfect |
| `Replay.RecallThresholdRedundant` | src/bench.rs:1428-1432 | A recall threshold not above the F1 threshold never decides the gate |
| `Replay.ReportIs` | src/bench.rs:1382-1425 | Each number of the report times the commits it is averaged over: the hits, the sum of the F1 values, the noisy windows; zero without commits |
| `Replay.GateIff` | src/bench.rs:1428-1432 | The gate passes if and only if there are enough hits, enough F1 in total and no more noisy windows than allowed |
| `Registry.GroupBy` | src/adr_registry.rs:514-520 | The grouping loop puts every entry under its key, in order |
| `Registry.MergeFaces` | src/adr_registry.rs:513-545 | The merged index is the merge of every group, each key once |
| `Registry.MergeOne` | src/adr_registry.rs:522-542 | A group with one prose and one model face becomes its other entries and the pair; any other stays |
| `Registry.PairBecomes` | src/adr_registry.rs:487-542 | What a pair becomes, field by field: the prose face leads, the model face fills in a blank title, a missing status or date; both faces are kept as they were; the other entries stay in front |
| `Registry.NoPairStays` | src/adr_registry.rs:527-530 | A group without exactly one prose and one model face stays as it is |
| `Registry.GroupsAfterMerge` | src/adr_registry.rs:509-545 | Group by group the merged index is the merge of the original group: nothing crosses groups, the order inside is kept |
| `Registry.MergeConserves` | src/adr_registry.rs:513-545 | Merging loses one entry for each pair and no other |
| `Registry.MergeIdempotent` | src/adr_registry.rs:513-545 | Merging a merged index changes nothing |
| `RegistryFindings.FindIssues` | src/adr_registry.rs:548-747 | A finding is reported if and only if the declarative condition for it holds, for all six kinds; header and face findings in entry order, then each collision and duplicate title once, then missing fields in entry order |
| `RegistryFindings.InsideCollisionIff` | src/adr_registry.rs:613-651 | After merging, a number collides inside a project if and only if the project has two prose files or two model files for it |
| `RegistryFindings.DivergenceIff` | src/adr_registry.rs:551-611 | A divergence is reported if and only if a prose and a model entry are all there is under the key and title, date or a readable status differ, and it names exactly the differing fields and the two files; an unreadable header likewise |
| `RegistryFindings.ConflictIff` | src/adr_registry.rs:653-688 | The cross-project collision (several projects, several titles) fires if and only if two entries differ in both |
| `RegistryFindings.TitleIff` | src/adr_registry.rs:690-716 | A duplicate title fires if and only if two decisions with different project or number bear it |
| `RegistryFindings.RemarkKeepsStatus` | src/adr_registry.rs:455-465 | A remark in parentheses behind a status is no other status |
| `RegistryFindings.StatusSays` | src/adr_registry.rs:459-464 | A status is its words in lower case: blanks around them and marks behind them say nothing |
| `RegistryFindings.TitleAndDateSay` | src/adr_registry.rs:467-470 | Titles are compared in lower case, dates as they are, both without the blanks around them; a blank date is none |
| `RegistryReport.BuildFindings` | src/adr_registry.rs:788-820 | Nothing collected is an error; otherwise the declared issues of the merged index, arranged like that, and behind them the exceptions without a reason, project by project and file by file |
| `RegistryReport.ExceptionFindings` | src/adr_registry.rs:844-880 | The files of a project that declare an exception without a passing report, in order |
| `RegistryReport.UnjustifiedIff` | src/adr_registry.rs:844-880 | Listed are exactly the declared exceptions without a passing report, each with its project, number and file |
| `RegistryReport.GateIsClean` | src/adr_registry.rs:134-140 | The strict gate passes if and only if the index is clean and every declared exception has its report; without strict it always passes |
| `RegistryFindings.SharedNumberReportedIff` | src/adr_registry.rs:613-716 | For all entries with one number: no collision and no duplicate title tells of a second one if and only if there is none, or every project bears the number once and all bear one and the same blank title |
| `RegistryFindings.ReportedInAll` | src/adr_registry.rs:613-716 | What is reported about the entries of a number on their own is reported in every index that holds them |
| `RegistryFindings.SharedNumberAlwaysReported` | src/adr_registry.rs:653-716 | So a number used in two projects is always reported, as a collision or as a duplicate title, unless the title is blank |
| `DepsCheck.Rec` | scripts/deps-check.py:79-90 | The loop with recursion terminates and decides the segment-wise match |
| `DepsCheck.GlobMatch` | scripts/deps-check.py:74-92 | A pattern matches a path by its slash-separated segments |
| `DepsCheck.MatchesIffAligned` | scripts/deps-check.py:75 | Matching means the path can be cut into consecutive pieces, one for each pattern segment, all but those for ** a single matching segment |
| `DepsCheck.PrefixHitIffSegments` | scripts/deps-check.py:109-111 | A module falls under an entry if and only if the entry's segments begin the module's |
| `DepsCheck.CheckFile` | scripts/deps-check.py:131-147 | The violations of one file under one rule: its forbidden imports, line after line, each as often as it stands there |
| `DepsCheck.Check` | scripts/deps-check.py:123-147 | The first malformed rule stops the gate; otherwise it lists the violations rule by rule, file by file and line by line |
| `DepsCheck.ListedIff` | scripts/deps-check.py:123-147 | The gate lists exactly the forbidden imports of the files that a rule covers |
| `DepsRules.ViolationIff` | scripts/deps-check.py:123-147 | In terms of paths and modules alone: listed is exactly each import of a file that can be cut along a covered and no exempt pattern, of a module outside the root, that lies inside no allowed entry or inside a forbidden one |
| `DepsRules.ListedInOrder` | scripts/deps-check.py:123-147 | Rule by rule, file by file, line by line: the list for two parts is the list of the first and then of the second, and one more import adds one violation at the end or none |
| `JsonPointer.EscapeIsPerCharacter` | src/asyncapi.rs:344-347 | The two replacements in a row equal one pass, character by character |
| `JsonPointer.RoundTrip` | src/asyncapi.rs:349-353 | Resolving a printed pointer by section 4 of RFC 6901 gives the segments back, for every non-empty list |
| `JsonPointer.LocationInjectiveIff` | src/asyncapi.rs:349-353 | Two lists print alike if and only if they are equal, or one is empty and the other is one empty segment |
| `JsonPointer.WrongOrderLosesText` | src/asyncapi.rs:344-347 | Decoding in the other order turns an escaped ~1 into a slash |

## Left out

Agent session:

- The wording of fixed texts (stub, cancellation, notes, truncation marks, image message): unspecified constants, so
  the results hold for any wording; the masking mark is given literally because its length matters.
- Redaction of outputs, the injection scan, hook output, verdicts of detectors and broken arguments, time-outs: all
  are one output of a call in the script. Of the rules on logged calls two are modelled, `hex-token` and
  `url-password`; the others are any functions on text. The JSON of arguments and the reading back of a redacted text
  are given. Lazy tool loading, the lesson block, failure memory and skills only change prompts and events.
- Streaming, UI events, the concurrency of `race_cancel`. The pauses between network retries and their wall-clock
  budget: the script says how many retries fit, and a script without one left is a budget run out.
- Journal records other than user, assistant and tool lines; a journal that cannot be opened or written. Restoring
  reads parsed lines: JSON parsing and the file are outside.
- The provider's reply always has the assistant role, as the adapters construct it. The model's window and the
  thresholds are fixed for a session; changing the provider in between is not a step.
- SessionJournal.RestoreGivesConversation: is about the parsed lines; that the written JSON lines parse back is not
  part of this model.
- The 48k dump handed to the summariser; only its answer or failure matters.
- Machine-width overflow of token sums and of percentages: numbers are unbounded.
- SessionSafety.EveryRunAnswersEveryCall: assumes of each send that a limit reply carries no calls, because a later
  compaction may remove such a reply again; per send the condition is exact (`SendLeavesNoDangling`).
- SessionSafety.OrderlyRunsNeedNoRepair: sufficient for whole runs; batch by batch the condition is exact
  (`BatchNeedsNoRepairIff`).

Other components:

- Bench arithmetic is over the reals: rounding, NaN and signed zero of floating point are not modelled. The square
  root is a parameter with the property of a root. Sorting by the standard library is any sorted permutation; the rank
  loops are proved for all of them.
- Questionnaire files: names, YAML and the rounding of range midpoints; criteria are numbered in key order. LLM
  judging, golden runs and the replay's walk over JSON differences; the replay starts from the two token sets.
- Generation of the AGENTS.md body and the scan of the repository; the printed facts enter as bytes. Other lint rules.
- AgentsMdRefreshes.RefreshesLoseIff: is about zones that quote no END; with a quote every refresh also leaves a
  remainder of the zone in the text outside (`QuoteGrows`).
- ADR header parsing, directory walking, the final sort of the index, whether a text declares an exception and has its
  report (both are given for each file), and the wording of findings. Maps are walked in any order instead of key
  order. `to_lowercase` is a parameter.
- Mapping of constraint rules to ArchUnit rules, the text of the generated Java apart from its literals, the sort and
  the duplicate removal of details, launching `javac`, downloads. Anchors are kept in first-seen instead of sorted
  order, which the longest common prefix does not depend on.
- `fnmatch` is a parameter of the glob matcher; reading files and extracting `crate::` paths from lines.
- The AsyncAPI lint rules around the pointers.
