# HyperiOS core: a verified model

This project models the parts of HyperiOS that carry state, branching or arithmetic, in Dafny, and proves what they
promise. `dafny verify dfyconfig.toml` checks all of it. Paths below are relative to the HyperiOS repository.

## What is modelled

**Long-term memory** (`Text`, `Order`, `Corpus`, `Index`, `Storage`, `LongTerm`, `Runs`, `Memory`). The specification
is a *catalog*: what a rescan of the storage directory would find, each entry as it will be read back (key, value,
tags and time, all but the last access) with its words, counted with multiplicity. `InvertedIndex` keeps five fields
up to date; its `Valid` says they are exactly the tables a rescan of the indexed documents would build.
`LongTermMemory` adds the cache of parsed entries and the directory; its `Valid` says that index, cache and directory
agree. Search answers are specified without any index: the entries sharing a distinct query token, by BM25 score
descending, then key ascending, then cut. `Directory` records every state a crash could leave behind, including torn
files, and every operation says that in each of them all entry files are as before it or as after it. `Runs.Run` puts
this together: any run of Store, Recall, Forget and both searches leaves what a dictionary of entries would hold and
is answered as the dictionary answers, refusing nothing while the operating system works, and a crash leaves the
dictionary as it was before or after the very operation it interrupted.

**Goals** (`Goals`, `Prioritizing`, `GoalSystem`, `GoalCommands`, `Lifecycle`, `GoalWitnesses`). Goals are objects
shared by pointer between tracker, queue, runner and HTTP handlers. `Lifecycle.Processor` works on them as the program
does; `Lifecycle.Drive` proves that any script of commands takes exactly the steps of the state machine in
`GoalSystem`; `GoalCommands` says field by field what each command does. A handler that waits for the model, or stands
between the two halves of QueueGoal, is a task of that machine, begun by one command and ended by a later one, with
anything in between. Four fields that no operation reads count what happens to a goal: how often it entered Active,
how often an agent was started on it, how many of those starts fall into its current stay in Active, and whether one
is at work now.

**Tool loop and wire format** (`Decimal`, `Conversation`, `ToolLoop`, `Wire`). What the model replies to a history and
what a tool gives for an input are arguments (`World`), and a history is a prompt and the rounds this world makes of
it; flattening for Ollama is related to it by what it carries, what it keeps apart and where rounds land.

**Retrying** (`Retry`). A client's run is specified by counts over the answers it met; the loops with their counters
are proved to stop at the first call those counts name.

**Self-modification** (`SelfModify`). A binary, the file staged beside it, a backup directory whose listing order
comes from numbers in file names, and a gated Apply. `Step` says how each command ends and what it leaves, whatever
fails; `Drive` proves that every run consists of such steps and that a crash leaves a state within the step that was
under way, and the lemmas are about all runs of steps.

**Breakdown, JSON extraction, context sizing** (`Breakdown`, `ExtractJson`, `ContextWindow`).

## Modelling choices

- Go library functions are parameters. `Text.Platform` holds rune classes, `math.Log` and the JSON round trip of a
  value; `Platform.Lawful` is all that is assumed of them: lower-casing is idempotent, a space is no letter, a second
  JSON round trip changes nothing, `log(1) = 0` and `log` rises. That a value's words survive a round trip is not
  assumed; it is the condition `Text.Survives` where it matters. A directive's JSON is a `Codec` of which only one
  thing is assumed: decoding undoes encoding. That a value stands for the same directive once it has been read back is
  the condition `Codec.Keeps`. Strings are sequences of runes.
- Floating-point scores are reals. `math.Log` is any function with those two laws. Go's random map order is a choice
  `:|` from a set, so every result about a loop over a map holds for every order.
- Files are a map from names to contents. Reading the directory, creating it, writing, renaming and removing may each
  fail; which of them fail is left open (`*`), but while `Directory.works` holds none does. A write passes through a
  torn state, a rename does not.
- Models, tools and the go command are arguments (`World`, `Tree`, `Checks`).
- Helper methods split some of the program's functions at their natural seams (`Enter`/`Strike` for the writes of
  `add`/`remove`, `Persist` for the file writes of `Store`, `PlayRound` for one pass of the tool loop).

## Where the program falls short of what one might expect

For each of these a lemma or a clause shows the failure, and the exact condition under which the expected property
holds is proved beside it.

- Two keys can share a file (`Storage.SharedFile` says exactly when). Store, Recall and Forget leave index, cache and
  directory in agreement if and only if the file they touch does not hold another key's entry (`Clash`); Recall of
  such a key even re-caches the other key's entry under the wrong key. `Runs.CollidingKeys` is a witness.
- A value that JSON reads back with other words, such as an integer beyond 2^53, is indexed as it was stored and not
  as a restarted process will index it. `LongTerm.CachedAsStoredIff` and the contract of Store make `Survives` the
  exact condition; `Text.RoundedNumberChanges` shows numbers that break it. A directive with such a priority turns
  into another one: a restart lists the same directives exactly when all cached values keep
  (`Memory.RestartListsAlikeIff`, `Memory.SomeDirectiveChanges`).
- Loading skips a file that cannot be read at the moment, and never comes back to it. Cache and directory then agree
  exactly when no skipped file holds an entry (`LongTerm.SkippedAgreesIff`).
- A goal can be executed twice within one stay in Active, and more often than it entered Active. One runner keeps the
  bound if and only if each command obeys `GoalSystem.Guard`: an Active goal is taken out of the tracker - deleted, or
  replaced by a refinement - only if at most one execution of it is under way or to come (`StepKeepsIff`, for one
  step; `GuardedRunIsSafe`, for runs). After a command that breaks the guard the overrun needs no further request,
  only that the work under way ends (`GuardIsNeeded`). `DeletedGoalRunsTwice` is such a run; `TwoRunnersOverrun` is a
  run under the guard after which a second caller of RunNext would break the bound.
- A finished goal can come to life again, under the guard too: because the refiner writes the state itself, past the
  transition table. That is the only way (`FinishedKeptIff`, `FinishedForever`). `AnsweredGoalRunsAfterDone` answers a
  question left open from before the goal was run; `LateRefinementRunsAgain` runs a goal while its first refinement is
  still under way.
- The runner does not always take the earliest created Active goal: a goal that is made Active while it stands in the
  queue can stand in the wrong place until the next goal is enqueued (`AcceptedOutOfOrder`). `OrderKeptIff` says
  exactly when a command keeps the order, and `OrderOverRun` carries it over runs.
- A tool loop that runs out of rounds still reports success. An Ollama reply without text and calls has no role,
  neither user nor assistant. Tool names are empty on the wire and call ids repeat from reply to reply, so that calls
  and results are paired by position only; `Wire.RoundOnWire` and `Wire.ProtocolOnWire` prove that this pairing is
  right.
- A backup write that breaks off leaves a torn newest backup, which the next Rollback installs
  (`TornBackupIsRolledBackTo`); `ApplyThenRollback` says what a Rollback restores after each outcome of an Apply.
- Breakdown drops a descendant that repeats the id of the sub-goal it was found under; the list is the pre-order of
  descendants exactly when there is none (`Breakdown.Clean`); `RepeatedIDIsDropped` is a witness. Validation accepts
  goals that wait for each other (`CyclesAreAcceptable`); an accepted list has no cycle exactly when its goals can be
  reordered so that each depends on earlier ones only (`AcyclicIff`).
- A model whose cache is recorded as costing nothing gets the smallest context window; that is the only way a cheaper
  cache can shrink it. The comment on `PickModel` promises a fall-back to system memory when no model fits the
  graphics card; since the smallest model asks for no video memory, this never happens, and a tiny card lowers the
  pick (`TinyCardGetsTheSmallest`).
- `SearchByTag` compares lower-cased tags while context search filters by Unicode case folding, so that an entry can
  be a listed directive that context search does not hide (`Memory.TagTestsDiffer`). What is listed is what is hidden,
  whatever is stored, exactly when both ways of comparing tell the same runes from those of the tag
  (`Memory.ListedIsHiddenIff`).
- A provider's RetryAfter is never set by the error classification, so the 44-second bound, proved for a RetryAfter of
  zero, is the one that applies. Waits that the context interrupts are counted in full.

## Model

| member | source | states |
|---|---|---|
| Text.Tokenize | internal/memory/index.go:37-61 | the scanning loop computes the tokens of the text, which `LawsDetermineTokens` characterises |
| Text.TokensSplit | internal/memory/index.go:52-59 | tokenising distributes over any separator rune |
| Text.TokensOfWord | internal/memory/index.go:41-59 | a text without separators is one lower-case token, or none if it is empty or a stopword |
| Text.TokensOfLowered | internal/memory/index.go:52-59 | upper and lower case make no difference |
| Text.LawsDetermineTokens | internal/memory/index.go:33-61 | the two laws above determine tokenising: any function obeying both is it |
| Text.TokensClean | internal/memory/index.go:33-61 | every token is non-empty, lower-case, of letters and digits, and no stopword |
| Text.TokensFixedPoint | internal/memory/index.go:37-61 | tokenising a token list rejoined with spaces gives that list |
| Text.DocumentText | internal/memory/index.go:67-80 | key, value and tags, each followed by a space |
| Text.DocumentTokens | internal/memory/index.go:67-80 | a document's tokens are those of its key, its value and its tags, in order |
| Text.WordsAre | internal/memory/index.go:67-80 | the words of an entry are those of its key, of its value and of each of its tags, with multiplicity |
| Text.ReadBackKeepsWordsIff | internal/memory/long_term.go:121-136 | an entry written to disk and read back has the same words exactly when its value has |
| Text.RoundedNumberChanges | internal/memory/long_term.go:121-136 | a number read back with other digits does not keep its words |
| Corpus.RelevanceWithout | internal/memory/index.go:223-236 | a score is a sum over distinct query terms from which any one can be split off: order of summation does not show |
| Corpus.NoSharedTermNoRelevance | internal/memory/index.go:224-236 | a document without any query term scores zero |
| Corpus.RankingUnique | internal/memory/long_term.go:226-236 | a query has one ranking, independent of any iteration order |
| Corpus.RankingOrders | internal/memory/long_term.go:226-236 | the better of two documents stands first, and of equally good ones the one with the smaller key |
| Corpus.RankingFinds | internal/memory/index.go:210-243 | a ranking lists exactly the documents with a word of the query |
| Corpus.CutIs | internal/memory/long_term.go:236-239 | a positive limit keeps the front of a listing up to that length, any other limit all of it |
| Order.StrLessIs | internal/memory/long_term.go:226-236 | keys are compared by the first rune in which they differ, a prefix being smaller |
| Bm25.IdfPositive | internal/memory/index.go:204-209 | with 0 < df <= N every IDF is strictly positive |
| Bm25.IdfFalls | internal/memory/index.go:229-230 | IDF strictly falls as more documents hold the term |
| Bm25.AverageAtLeastOne | internal/memory/index.go:178-191 | a non-empty corpus without empty documents has average length at least 1, so that neither default is needed |
| Bm25.AverageOfEqual | internal/memory/index.go:182-191 | documents of one length have that average length |
| Bm25.AverageMoves | internal/memory/index.go:182-191 | one more document adds its length to the average times the number of documents; this and the row above fix the average |
| Bm25.IdfIs | internal/memory/index.go:229-230 | the IDF is the logarithm of (N + 1) / (df + 0.5) |
| Bm25.SaturationIs | internal/memory/index.go:232-234 | the equation that fixes the term-frequency factor: times tf + 0.3 + 0.9 ratio it is 2.2 tf |
| Bm25.WeightIs | internal/memory/index.go:224-236 | the equation that fixes what a term contributes to a document |
| Bm25.SaturationBounds | internal/memory/index.go:232-234 | the term-frequency factor is positive and below 2.2 |
| Bm25.SaturationRises | internal/memory/index.go:232-234 | it strictly rises with the term frequency |
| Bm25.SaturationFallsWithLength | internal/memory/index.go:232-234 | it strictly falls with document length |
| Bm25.WeightBounds | internal/memory/index.go:224-236 | an indexed term has 0 < df <= N and contributes more than nothing and less than 2.2 times its IDF |
| Bm25.WeightOrder | internal/memory/index.go:231-234 | of two documents, more occurrences at equal length, or equal occurrences at smaller length, contribute strictly more |
| Bm25.RarerTermWeighsMore | internal/memory/index.go:229-234 | at equal frequency in one document, the term held by fewer documents contributes strictly more |
| Bm25.MatchingScoresPositive | internal/memory/index.go:210-243 | every hit's score is strictly positive, and only hits score |
| Index.InvertedIndex.constructor | internal/memory/index.go:116-122 | the empty index is the index of no documents |
| Index.InvertedIndex.Enter | internal/memory/index.go:135-146 | the writes of `add` produce the five new tables, in whatever order the terms are visited |
| Index.InvertedIndex.Strike | internal/memory/index.go:156-167 | the writes of `remove` produce the five new tables and drop posting lists that become empty |
| Index.InvertedIndex.Add | internal/memory/index.go:127-147 | indexing a new key leads to exactly the index of the corpus with that document; a document without tokens is none |
| Index.InvertedIndex.Remove | internal/memory/index.go:151-168 | un-indexing leads to exactly the index of the corpus without that key, also when it was not there |
| Index.InvertedIndex.Update | internal/memory/index.go:173-176 | re-indexing leads to exactly the index of the corpus with the new document, whatever was there |
| Index.InvertedIndex.AvgDocLen | internal/memory/index.go:182-191 | the mean document length of the corpus, never below 1 |
| Index.InvertedIndex.ScoreTerm | internal/memory/index.go:225-235 | one query term adds its BM25 weight to every document holding it and to no other |
| Index.InvertedIndex.Score | internal/memory/index.go:210-243 | exactly the documents sharing a query token, each once, with the relevance a naive computation gives |
| Index.AddDescribes | internal/memory/index.go:124-147 | the incremental change of `add` on all five fields equals rebuilding from scratch |
| Index.RemoveDescribes | internal/memory/index.go:149-168 | the incremental change of `remove` on all five fields equals rebuilding from scratch |
| Index.Transposed | internal/memory/index.go:100-107 | postings and docTermFreq are transposes with positive counts, and no posting list is empty |
| Index.Totals | internal/memory/index.go:107-113 | docLen is the sum of the frequencies, totalLen the sum of docLen, docCount the number of documents with a token |
| Storage.SharedFile | internal/memory/long_term.go:76-96 | two keys share a file exactly when they differ only where both hold an unsafe character or an underscore |
| Storage.TempIsNoEntryFile | internal/memory/long_term.go:129-136 | a temporary file is never read as an entry and is no key's file |
| Storage.OnlyEntryFilesMatter | internal/memory/long_term.go:313-322 | directories that agree on all entry files have the same catalog |
| Storage.MeaningIs | internal/memory/long_term.go:121-136 | of a stored entry nothing is lost but the spelling of its value: key, tags, time, and the value and its words as read back |
| Storage.CatalogAfterWrite | internal/memory/long_term.go:129-136 | replacing a key's file replaces whatever entry it held, and nothing else, by the new one |
| Storage.CatalogAfterRemove | internal/memory/long_term.go:288-294 | removing a key's file removes whatever entry it held and nothing else |
| Storage.WriteKeepsOthersIff | internal/memory/long_term.go:82-96 | writing a key's file updates the catalog as a dictionary would exactly when the file holds no other key's entry |
| Storage.RemoveKeepsOthersIff | internal/memory/long_term.go:82-96 | removing it deletes as a dictionary would under exactly the same condition |
| Storage.RewriteKeepsCatalog | internal/memory/long_term.go:165-173 | rewriting the entry a file holds, with its content, changes nothing |
| Storage.TempStateReadsBack | internal/memory/long_term.go:129-136 | any state that differs only at a temporary file, torn or not, agrees on all entry files |
| Storage.CrashReadsBack | internal/memory/long_term.go:58-72 | a crash state of an operation is read back, entry by entry, as the catalog before or after it |
| Storage.Directory.ReplaceEntry | internal/memory/long_term.go:129-136 | write-temp-then-rename is all or nothing, and in every state on the way all entry files are those before it, or those after it once it has taken effect |
| LongTerm.LongTermMemory.constructor | internal/memory/long_term.go:45-51 | a process starting on an existing directory is consistent before it has read anything |
| LongTerm.LongTermMemory.LoadAll | internal/memory/long_term.go:304-334 | every readable entry file is read once, others are skipped, in whatever order the directory lists them |
| LongTerm.ReadOneMore | internal/memory/long_term.go:313-332 | loading never meets one key twice |
| LongTerm.LoadedAgrees | internal/memory/long_term.go:58-72 | entries read from all files are exactly what the directory holds |
| LongTerm.SkippedAgreesIff | internal/memory/long_term.go:313-332 | what loading cached agrees with the directory exactly when no file that was skipped holds an entry |
| LongTerm.LongTermMemory.EnsureLoaded | internal/memory/long_term.go:58-72 | loading makes index and cache agree with the directory; a failed listing changes nothing |
| LongTerm.LongTermMemory.CacheNew | internal/memory/long_term.go:66-69 | the bare `add` of the loading loop keeps index and cache in sync because the key is new |
| LongTerm.LongTermMemory.Persist | internal/memory/long_term.go:129-136 | the file writes of Store, with the clean-up after a failed rename, take effect entirely or not at all |
| LongTerm.LongTermMemory.Store | internal/memory/long_term.go:100-144 | success puts exactly this entry into its file and the cache, in place of whatever the file held, and touches no other file; failure changes nothing and happens only if the value has no JSON or the operating system fails; agreement is kept exactly when there was no clash and the value survives JSON; in a crash state every entry file is as before or as after |
| LongTerm.LongTermMemory.Recall | internal/memory/long_term.go:148-183 | the entry as stored with a new access time, or nothing; it replaces the cached one, and its file holds it, or is as before if the operating system failed; no stored content changes even when the rewrite fails or a crash interrupts it; agreement is kept exactly when nothing is cached or there was no clash |
| LongTerm.LongTermMemory.Forget | internal/memory/long_term.go:280-300 | success removes exactly the key's file and what it held, failure changes nothing, agreement is kept exactly when there was no clash |
| LongTerm.LongTermMemory.SearchTopN | internal/memory/long_term.go:203-247 | exactly the answer of a naive scan of the directory: matching entries by score, then key, cut to the limit; all entries by key for a blank query; nothing for stopwords only |
| LongTerm.LongTermMemory.SearchByTag | internal/memory/long_term.go:255-276 | exactly the stored entries carrying the tag, compared in lower case, by key |
| LongTerm.LongTermMemory.Resolve | internal/memory/long_term.go:240-246 | no hit is dropped when hits are resolved through the cache, and their order is kept |
| LongTerm.AnswerUnique | internal/memory/long_term.go:203-247 | a directory has one answer to a query and limit |
| LongTerm.AnswerIs | internal/memory/long_term.go:203-247 | a blank query finds every entry, by key, any other exactly the entries sharing a token with it; a positive limit bounds the answer and is used up before anything is left out |
| LongTerm.TagAnswerIs | internal/memory/long_term.go:255-276 | a tag search finds exactly the entries with a tag that is equal but for case, by key |
| LongTerm.StoreAgreement | internal/memory/long_term.go:138-141 | caching the stored entry matches the directory exactly when there was no clash and the value survives JSON |
| LongTerm.CachedAsStoredIff | internal/memory/long_term.go:121-141 | an entry is cached as a rescan would find it exactly when its value survives JSON |
| LongTerm.ForgetAgreement | internal/memory/long_term.go:288-297 | dropping the forgotten entry from cache and index matches the directory exactly when there was no clash |
| LongTerm.RecallAgreement | internal/memory/long_term.go:164-180 | re-caching the recalled entry keeps agreement exactly when the cache is not loaded or there was no clash |
| Runs.NoClash | internal/memory/long_term.go:76-96 | keys with files of their own never clash in a directory that holds only such keys |
| Runs.Step | internal/memory/long_term.go:100-300 | one operation does to the directory what it does to a dictionary of entries and is answered as the dictionary answers; a crash in it leaves the entry files before or after |
| Runs.Run | internal/memory/long_term.go:23-41 | after any run over keys with files of their own and values that survive JSON, index, cache and directory agree and hold what a dictionary would, entry by entry; every operation was answered as the dictionary answers; every crash state is the dictionary before or after the operation under way |
| Runs.CrashLeavesNeighbour | internal/memory/long_term.go:129-136 | a crash at any time of a run loses nothing but, perhaps, the operation it interrupted |
| Runs.StoreThenRecall | internal/memory/long_term.go:100-300 | what was stored is recalled with its key, tags and time and the value as JSON reads it back, and once forgotten it is not found; nothing is refused while the operating system works |
| Runs.RestartAnswersAlike | internal/memory/long_term.go:53-72 | a fresh process on the same directory answers every search with the same entries, as JSON reads them, in the same order |
| Runs.CollidingKeys | internal/memory/long_term.go:82-96 | two keys that differ only in a blank clash |
| Memory.Memory.SearchContextTopN | internal/memory/memory.go:107-123 | the full ranking without its directives, cut only then, with the content stored |
| Memory.NoDirectiveDisplaces | internal/memory/memory.go:107-123 | no directive appears, and another hit appears exactly when fewer than the limit of non-directives rank before it |
| Memory.UndirectedElements | internal/memory/memory.go:113-118 | filtering keeps exactly the hits that are no directives |
| Memory.UndirectedPrefix | internal/memory/memory.go:113-118 | filtering keeps the order of the hits |
| Memory.HasDirectiveTag | internal/memory/memory.go:126-133 | a directive is an entry with some tag equal to the directive tag under case folding |
| Memory.Memory.AddDirective | internal/memory/memory.go:161-169 | an empty id is refused; success stores the directive under its own key and leaves the rest alone, exactly when that key's file is its own and the value survives JSON |
| Memory.Memory.ListDirectives | internal/memory/memory.go:175-190 | the decoded cached values of exactly the entries tagged as directives, by key; values that do not decode are skipped |
| Memory.RestartListsAlikeIff | internal/memory/memory.go:171-219 | a restarted process lists the same directives exactly when each cached value stands for the same directive once read back |
| Memory.SomeDirectiveChanges | internal/memory/memory.go:200-219 | of two directives spelled alike once read back, a restart changes one |
| Memory.Memory.RemoveDirective | internal/memory/memory.go:193-198 | exactly the entry of that id is forgotten, and removing a stored directive leaves everything in agreement |
| Memory.DirectiveLifecycle | internal/memory/memory.go:154-198 | a directive that was added is listed; once it is removed, memory holds and lists what it would without it |
| Memory.TwoDirectives | internal/memory/memory.go:161-198 | two directives of different ids are both listed when both were added, and removing one leaves the other listed |
| Memory.DirectiveKeysDiffer | internal/memory/memory.go:154-156 | different ids have different keys |
| Memory.AddedIsDirective | internal/memory/memory.go:107-169 | a stored directive is hidden from context search and listed by its tag, and removing it undoes adding it |
| Memory.TagTestsDiffer | internal/memory/memory.go:126-133 | a tag that only lower-casing makes the directive tag is listed but not filtered |
| Memory.TagTestsAgreeIff | internal/memory/memory.go:126-133 | lower-casing and case folding agree on all tags exactly when they tell the same runes from those of the tag |
| Memory.ListedIsHiddenIff | internal/memory/memory.go:93-190 | under that condition, and only under it, the entries listed as directives are those context search hides, whatever is stored |
| Goals.TerminalStates | internal/goal_fulfillment/tracker.go:115-134 | Done and Cancelled are exactly the states without a way out, only Refining and Blocked lead to Active, and only Active to Done or Blocked |
| Prioritizing.Prioritizer.Sort | internal/processor/prioritizer.go:73-87 | the queue becomes `SortedBy` of what it was |
| Prioritizing.SortedByIsStable | internal/processor/prioritizer.go:73-87 | that is a permutation, Active goals first, earlier created first, goals tied in that order keep their order |
| Prioritizing.SortedByActiveFirst | internal/processor/prioritizer.go:73-87 | no goal stands before an Active one but Active ones, and goals of either kind stand in order of creation |
| Prioritizing.SortedStays | internal/processor/prioritizer.go:73-87 | a queue in that order is left as it is, equals included |
| Prioritizing.StableSortUnique | internal/processor/prioritizer.go:73-87 | a queue has one stable sort, so that any stable sorting algorithm gives it |
| Prioritizing.InsertionIsStable | internal/processor/prioritizer.go:73-87 | inserting the next goal where sorting puts it extends the stable sort |
| Prioritizing.SortedBySame | internal/processor/prioritizer.go:73-87 | sorting looks at no state but those of the queued goals |
| Prioritizing.Prioritizer.Enqueue | internal/processor/prioritizer.go:24-32 | the queue gains exactly this goal and is stably sorted; a nil goal is ignored |
| Prioritizing.Prioritizer.Next | internal/processor/prioritizer.go:37-48 | exactly the first Active goal leaves the queue and the others stay as they are; none means none is Active |
| Prioritizing.FirstIsEarliest | internal/processor/prioritizer.go:37-48 | while the Active goals are in order the first of them is the earliest created |
| Prioritizing.Prioritizer.Remove | internal/processor/prioritizer.go:52-62 | exactly the first goal of that id leaves the queue, or nothing does, and the order is kept |
| Prioritizing.SortedIsAscending | internal/processor/prioritizer.go:73-87 | a sorted queue has its Active goals in order of creation |
| Prioritizing.AscendingUntilActivation | internal/processor/prioritizer.go:24-48 | that order survives any change of states through shared pointers as long as no queued goal turns Active |
| Lifecycle.Tracker.TrackGoal | internal/goal_fulfillment/tracker.go:41-58 | a goal is tracked under its id; an empty id is refused |
| Lifecycle.Tracker.UpdateGoalState | internal/goal_fulfillment/tracker.go:84-101 | a tracked goal moves exactly along the table; otherwise nothing changes and an error is reported |
| Lifecycle.Tracker.DeleteGoal | internal/goal_fulfillment/tracker.go:103-113 | exactly this id is no longer tracked; the queue is not touched |
| GoalSystem.StepKeepsIff | internal/apiserver/server.go:363-526 | a command keeps the invariant that bounds executions by stays in and entries into Active exactly when it obeys the guard |
| GoalSystem.DeleteKeepsIff | internal/goal_fulfillment/tracker.go:103-113 | deleting a goal is safe exactly when it is not Active or at most one execution of it is under way or to come |
| GoalSystem.RefineKeepsIff | internal/goal_fulfillment/goal_fulfillment.go:52-77 | a refinement is safe exactly when the Active goal it displaces from the tracker, if any, has at most one execution under way or to come |
| GoalSystem.GuardedRunIsSafe | internal/processor/processor.go:102-189 | in any interleaving of handlers and one runner that obeys the guard, executions never outnumber entries into Active, and no stay in Active holds two |
| GoalSystem.GuardIsNeeded | internal/processor/processor.go:102-189 | after a command that breaks the guard, a run without any further request executes the goal twice within one stay |
| GoalSystem.ExposedIsOverrun | internal/processor/processor.go:137-189 | an Active goal that is not tracked, with two executions under way or to come, is executed twice once the work under way ends |
| GoalSystem.FinishedKeptIff | internal/goal_fulfillment/refiner.go:107-136 | one step leaves a Done or Cancelled goal's state and executions alone exactly when it does not write the refiner's answer into it |
| GoalSystem.FinishedForever | internal/goal_fulfillment/refiner.go:107-136 | over any run a finished goal stays as it is as long as no such answer is written into it |
| GoalSystem.FinishedIDKeptIff | internal/goal_fulfillment/goal_fulfillment.go:52-77 | the goal tracked under an id stays finished in one step exactly when the id is not deleted and no answer for it is written |
| GoalSystem.OrderKeptIff | internal/processor/prioritizer.go:24-48 | a command keeps the queue's Active goals in order of creation exactly when the goal it makes Active, if any, stands where it should |
| GoalSystem.OrderOverRun | internal/processor/prioritizer.go:24-87 | over any run the queue is in order from the last time a goal was enqueued on, as long as no command makes a goal Active in the wrong place |
| GoalSystem.AcceptedOutOfOrder | internal/goal_fulfillment/refiner.go:132-136 | accepting a queued goal behind an Active one created later breaks the order |
| GoalSystem.QueueSorts | internal/processor/prioritizer.go:24-32 | enqueueing puts the queue in order, whatever it was before |
| GoalSystem.EarliestRuns | internal/processor/processor.go:140-160 | while they are in order, the runner takes the earliest created of the Active goals in the queue |
| GoalCommands.SubmitTakes | internal/apiserver/server.go:363-410 | a new id is tracked under a new goal in Refining, to be refined unless it is a draft, and nothing else changes |
| GoalCommands.AnswerTakes | internal/goal_fulfillment/goal_fulfillment.go:86-107 | exactly a tracked goal with a pending question can be answered; the question goes, and refining follows if the tracker saved it |
| GoalCommands.RunTakes | internal/apiserver/server.go:439-454 | exactly a tracked goal can be run, in any state |
| GoalCommands.DeleteTakes | internal/goal_fulfillment/tracker.go:103-113 | one id is forgotten, everything else stays |
| GoalCommands.EndRefineTakes | internal/goal_fulfillment/refiner.go:96-137 | the four ends of a refinement, field by field: what the goal becomes, what is tracked, what is queued next |
| GoalCommands.ActivateTakes | internal/processor/processor.go:115-122 | the goal tracked under the id turns Active exactly when the goal to be queued is not and that one is in Refining or Blocked |
| GoalCommands.EndQueueTakes | internal/processor/processor.go:124 | the queue gains exactly one copy of the goal and is in order |
| GoalCommands.BeginTakes | internal/processor/processor.go:140-160 | the idle runner takes exactly the first Active goal of the queue, if there is one |
| GoalCommands.FinishTakes | internal/processor/processor.go:176-189 | the goal tracked under the executed id, if Active, turns Done on success and Blocked otherwise |
| GoalWitnesses.DeletedGoalRunsTwice | internal/apiserver/server.go:439-476 | run twice and deleted, a goal is executed twice on one entry into Active |
| GoalWitnesses.AnsweredGoalRunsAfterDone | internal/apiserver/server.go:488-526 | a question asked before the goal was run and answered after it is Done makes it Active and executed again, under the guard |
| GoalWitnesses.LateRefinementRunsAgain | internal/apiserver/server.go:388-406 | a goal run to Done while its refinement is under way becomes Active and is executed again, under the guard |
| GoalWitnesses.TwoRunnersOverrun | internal/processor/processor.go:140-189 | a run under the guard after which one more call of RunNext, while the first is at work, executes the goal a second time on one entry into Active |
| Lifecycle.Processor.Submit | internal/apiserver/server.go:363-410 | a new goal is tracked in Refining, and unless it is a draft a handler goes on to refine it; this is one step of the machine |
| Lifecycle.Processor.Answer | internal/goal_fulfillment/goal_fulfillment.go:86-107 | a pending question is cleared and refining begins anew, whatever state the goal is in; without a question nothing happens |
| Lifecycle.Processor.Run | internal/apiserver/server.go:439-454 | a handler has looked up a tracked goal and goes on to queue it |
| Lifecycle.Processor.EndRefine | internal/goal_fulfillment/refiner.go:69-137 | the four ends of a refinement, whatever happened to the goal meanwhile, and what the handler does with each |
| Lifecycle.Processor.Delete | internal/goal_fulfillment/tracker.go:103-113 | the id is no longer tracked; queue, runner and handlers keep the goal |
| Lifecycle.Processor.QueueGoal | internal/processor/processor.go:102-122 | its first half: a goal that is not Active activates the one tracked under its id if the table allows |
| Lifecycle.Processor.Activate | internal/apiserver/server.go:439-446 | a handler begins to queue the goal it holds, tracked or not |
| Lifecycle.Processor.EndQueue | internal/processor/processor.go:124-135 | the second half: the goal joins the sorted queue once more in any case |
| Lifecycle.Processor.Begin | internal/processor/processor.go:140-160 | the first Active goal leaves the queue once and is executed; no other goal changes |
| Lifecycle.Processor.Finish | internal/processor/processor.go:160-189 | the goal tracked under the executed goal's id ends Done or Blocked if the table allows |
| Lifecycle.Drive | internal/apiserver/server.go:363-526 | any script of commands takes exactly the steps of the state machine, one for one, whatever the script |
| Decimal.ValueOfFormat | internal/selfmodify/manager.go:318-319 | a printed number consists of digits and is read back as itself |
| Decimal.FormatInjective | internal/llm/ollama.go:256-260 | different numbers print differently |
| Conversation.AssembleAnthropic | internal/llm/tools.go:163-192 | the message keeps text and call blocks in order and skips others, and its calls and text are exactly those reported; there is none exactly when the reply was cut off without asking for a call |
| Conversation.PartsOfStep | internal/llm/tools.go:166-184 | each block adds its own text, or its own id, name and input, to message, text and calls |
| Conversation.FailsIff | internal/llm/tools.go:154-192 | a model call fails exactly without a reply, or with one cut off without asking for a call |
| Conversation.AssembleOllama | internal/llm/ollama.go:245-278 | text and calls are kept, in order, under ids that tell the calls of one reply apart, and the message says the same as the fields; a reply without text and calls has no role |
| Conversation.OllamaPartsAre | internal/llm/ollama.go:245-278 | the calls, the text and the kinds of parts that a reply's message carries are exactly those of the reply |
| Conversation.OllamaIDInjective | internal/llm/ollama.go:256-260 | synthesized ids differ within a reply |
| Conversation.OllamaIDIs | internal/llm/ollama.go:256-260 | an id reads call_ and the number of the call |
| ToolLoop.ExecuteCalls | internal/processor/agent.go:209-232 | every call is answered once, in order, under its id and without the tool's name, with exactly the output or error its tool gave for the call's input, and recorded as one step |
| ToolLoop.StepsAre | internal/processor/agent.go:225-230 | each step tells the tool, its input, what it gave, and whether that was an error |
| ToolLoop.RunWithTools | internal/processor/agent.go:178-242 | at most `limit` model calls; the history is the prompt and answered rounds, every turn in it being the model's reply to the history before it or what the tools gave; the steps are those of all rounds; the run fails exactly when the model does, concludes with a reply that asks for no call, and else succeeds with a note |
| ToolLoop.LastTextIs | internal/processor/agent.go:201-211 | the output is the text of the last model turn that has any |
| ToolLoop.StoppedNoteIs | internal/processor/agent.go:239 | the note tells the number of rounds |
| ToolLoop.PlayedOneMore | internal/processor/agent.go:202-233 | a reply and the tools' answers to it extend a history that was played by one round |
| ToolLoop.PlayRound | internal/processor/agent.go:186-234 | one pass fails, concludes with a message without calls, or adds one answered round and its steps |
| ToolLoop.RoundAdded | internal/processor/agent.go:202-233 | an assistant turn with calls and the answers to them extend a well-formed history by a round |
| ToolLoop.ProtocolFront | internal/processor/agent.go:178-242 | the history before a round is itself well-formed, one round shorter |
| Wire.ToOllamaMessages | internal/llm/ollama.go:290-340 | the loop with its two buffers computes the flattening that the lemmas below are about |
| Wire.WireKeepsMeaning | internal/llm/ollama.go:281-340 | all calls, results and texts reach the wire once, in order and whole, texts that share a message joined by line breaks, in at least one message and at most one a part, under the message's role or as tool output |
| Wire.JoinLinesIs | internal/llm/ollama.go:302-311 | joined texts are whole, with one line break between two of them |
| Wire.PartsAre | internal/llm/ollama.go:313-332 | texts, calls and results are read off the parts one by one, each with its own fields |
| Wire.TextOnWire | internal/llm/ollama.go:290-340 | a message of one text goes out as one message with exactly that text |
| Wire.ResultsAreBoundaries | internal/llm/ollama.go:312-320 | nothing crosses a tool result: what is before it and what is after it are flattened apart |
| Wire.SegmentsShareOneMessage | internal/llm/ollama.go:295-311 | between two results, all text and all calls share one message, each in order |
| Wire.RequestMessages | internal/llm/ollama.go:209-219 | a request is the system prompt and the flattened history |
| Wire.PromptComesFirst | internal/llm/ollama.go:209-219 | in every request of a tool loop the prompt follows the system prompt, whole and as a user message |
| Wire.RoundOnWire | internal/llm/ollama.go:281-340 | a round is one assistant message with its n calls, followed by exactly n tool messages, the j-th holding the j-th call's output, with an empty tool name |
| Wire.HistorySize | internal/llm/ollama.go:215-219 | a history takes one message for the prompt, and one and one a call for every round |
| Wire.ProtocolOnWire | internal/llm/ollama.go:209-219 | in the whole request every round stands where the rounds before it end, so that pairing by position is right throughout |
| Retry.AnthropicCompleteWithRetry | internal/llm/client.go:235-295 | three counters stop at exactly the first call at which some class of errors exceeds its budget, with the waits those counts say |
| Retry.WithinBudgets | internal/llm/client.go:236-244 | as long as the client goes on, all calls failed and every class is within its own budget |
| Retry.GoesOnIff | internal/llm/client.go:250-292 | another call is made exactly after a rate limit or network failure within the budget whose wait was not interrupted, or a malformed reply within the budget |
| Retry.InterruptedIff | internal/llm/client.go:259-284 | no call follows an interrupted wait, and exactly then the run ends as interrupted; otherwise it ends with what its last call met |
| Retry.WaitIs | internal/llm/client.go:252-284 | a RetryAfter is kept, otherwise the k-th rate limit waits 2k and the k-th network failure 2^k seconds |
| Retry.WaitsAddUp | internal/llm/client.go:252-284 | the waits sum to r(r+1) + 2 * 2^f - 2 seconds after r rate limits and f network failures |
| Retry.AnthropicBounds | internal/llm/client.go:235-295 | at most 11 calls, and at most 44 seconds when no RetryAfter is given |
| Retry.BoundsAreMet | internal/llm/client.go:235-295 | both bounds are reached by one sequence of errors |
| Retry.ErrorMeansNoSuccess | internal/llm/client.go:245-294 | an error is returned exactly when no call succeeded, otherwise the text of the one that did |
| Retry.OllamaCompleteWithRetry | internal/llm/ollama.go:180-203 | stops at the first call that is no network failure, the fourth, or the one the context interrupts; at most 4 calls and 6 seconds, with the k-th wait of k seconds; an error exactly when no call succeeded |
| Retry.OllamaInterruptedIff | internal/llm/ollama.go:180-203 | all calls but the last were network failures with uninterrupted waits, and what the last one met decides the result |
| Retry.OllamaBoundIsMet | internal/llm/ollama.go:180-203 | four calls are reached |
| Retry.HybridCompleter.CompleteWithRetry | internal/llm/hybrid.go:84-98 | at most 15 calls and 50 seconds together, the remote client called exactly when there is one and no local reply, each client's own result is what comes back, an error exactly when no call succeeded, and `lastUsedLocal` says who replied |
| SelfModify.TimestampOfName | internal/selfmodify/manager.go:370-377 | the time a backup was named after is read back from its name |
| SelfModify.ParseInt64Is | internal/selfmodify/manager.go:370-377 | a number is read with its sign exactly if it fits into 64 bits |
| SelfModify.NoNumber | internal/selfmodify/manager.go:370-377 | a name with anything else in it carries no number |
| SelfModify.NoTimestamp | internal/selfmodify/manager.go:370-377 | a backup without a number in its name counts as the oldest |
| SelfModify.Manager.Verify | internal/selfmodify/manager.go:145-179 | passes exactly when build, vet and test all pass; the checks run are recorded up to the first failure |
| SelfModify.Manager.ListBackups | internal/selfmodify/manager.go:347-366 | exactly the backup names, oldest first, or an error if the directory cannot be listed |
| SelfModify.Manager.BackupCurrentBinary | internal/selfmodify/manager.go:311-329 | the binary is copied and old backups pruned, or the directory is left alone but for a torn file; in every state on the way the binary is there and no other backup is lost but those that are pruned |
| SelfModify.Manager.PruneBackups | internal/selfmodify/manager.go:335-343 | all but the last `keep` names of the listing are removed, except those that cannot be, or nothing if there is no listing |
| SelfModify.Manager.InstallBinary | internal/selfmodify/manager.go:286-307 | the binary is replaced entirely or not at all, what is left of the staged file in each case, and in every state a crash could leave, torn staged files included, the binary is the old or the new one |
| SelfModify.Manager.Apply | internal/selfmodify/manager.go:235-282 | which gate decides each of the five outcomes, what it leaves of binary, staged file and backups, and that a crash leaves the old binary, or the new one with the backup complete, and no other backup gone before the new one is complete |
| SelfModify.ApplyInstallsIff | internal/selfmodify/manager.go:235-282 | the final build is installed exactly when all checks pass, the binary is read and backed up, the build succeeds again and is read, staged and renamed; otherwise the binary stays |
| SelfModify.ApplyFailsIff | internal/selfmodify/manager.go:235-282 | which of the four failures it is, and what is left of the staged file |
| SelfModify.VerifyPassesIff | internal/selfmodify/manager.go:145-179 | a Verify passes exactly when all three checks do, and leaves the disk alone |
| SelfModify.Manager.Rollback | internal/selfmodify/manager.go:406-432 | success installs the newest backup, failure leaves binary and backups alone, and it succeeds exactly when backups can be listed, there is one, and installing works |
| SelfModify.ListingOfWindow | internal/selfmodify/manager.go:345-366 | backups made under an increasing clock have one listing: the order of their making |
| SelfModify.PruningKeepsLast | internal/selfmodify/manager.go:331-343 | pruning never removes one of the newest backups, whatever fails, and removes all others if nothing fails |
| SelfModify.StepKeeps | internal/selfmodify/manager.go:235-343 | one command keeps the last five backups made, the one it makes included, and a pruning that works leaves nothing else |
| SelfModify.LastFiveKept | internal/selfmodify/manager.go:235-343 | over any run under an increasing clock, whatever fails, the directory holds the last five backups made, each the binary its Apply found or a torn part of it; after a pruning that worked, exactly these |
| SelfModify.CrashedRunKeeps | internal/selfmodify/manager.go:235-343 | so it does after a crash at any point of such a run, counting the backup being made if it is there, whole or torn |
| SelfModify.ApplyThenRollback | internal/selfmodify/manager.go:235-282 | a Rollback restores the exact binary before the Apply if that got past its backup, the torn copy if the backup broke off half-way, else the last backup made before |
| SelfModify.RollbackRestores | internal/selfmodify/manager.go:406-432 | a Rollback that works restores the last backup made of all that ever were |
| SelfModify.RollbackWorksIff | internal/selfmodify/manager.go:406-432 | it works exactly when a backup was ever made and listing and installing work |
| SelfModify.CrashedApplyRollsBack | internal/selfmodify/manager.go:235-282 | after a crash that caught an Apply once the binary was replaced, a Rollback restores what was replaced |
| SelfModify.RollbackTwice | internal/selfmodify/manager.go:406-432 | rolling back again changes nothing |
| SelfModify.Drive | internal/selfmodify/manager.go:226-432 | any script takes one step a command, with the outcome its circumstances fix, and every state a crash could leave lies within the step that was under way |
| SelfModify.Provenance | internal/selfmodify/manager.go:226-432 | in any run all binaries and backups on disk were there at the start, were built by an Apply whose checks all passed, or are what a broken-off backup write left |
| SelfModify.OnlyTheseInstall | internal/selfmodify/manager.go:226-432 | the binary changes only to the build of an Apply whose checks all passed, or to the newest backup by a Rollback |
| SelfModify.TornBackupIsRolledBackTo | internal/selfmodify/manager.go:320-325 | a backup write that breaks off is what the next Rollback installs |
| Breakdown.BreakdownRecursive | internal/goal_fulfillment/breakdown.go:93-122 | the loops compute the expansion that the lemmas below are about |
| Breakdown.ExpandIs | internal/goal_fulfillment/breakdown.go:93-122 | a goal without sub-goals, or with itself as the only one, is listed alone, whatever the model would say about the latter; so is one at the depth limit; any other is replaced by what comes of its sub-goals |
| Breakdown.ExpandFailsIff | internal/goal_fulfillment/breakdown.go:98-113 | the breakdown fails exactly when the model fails on a goal it is asked about |
| Breakdown.ExpandIsPreOrderIff | internal/goal_fulfillment/breakdown.go:93-122 | the result is the pre-order of proper descendants down to the depth (or an atomic root) exactly when no listed goal has a descendant of its own id, and is shorter otherwise |
| Breakdown.ListIsBounded | internal/goal_fulfillment/breakdown.go:93-122 | at most b + b^2 + ... + b^depth goals for branching b |
| Breakdown.RepeatedIDIsDropped | internal/goal_fulfillment/breakdown.go:93-122 | the witness: a goal that repeats its parent's id is missing from the list |
| Breakdown.ValidateSubGoals | internal/goal_fulfillment/breakdown.go:124-153 | accepts exactly the lists with non-empty distinct ids, non-empty descriptions and dependencies inside the list, and reports the first goal that breaks a rule |
| Breakdown.AcceptedIs | internal/goal_fulfillment/breakdown.go:124-153 | the rules as one statement about the list: ids and descriptions are not empty, ids differ, every dependency is a goal of the list |
| Breakdown.CyclesAreAcceptable | internal/goal_fulfillment/breakdown.go:124-153 | any two goals that depend on each other are accepted |
| Breakdown.AcyclicIff | internal/goal_fulfillment/breakdown.go:124-153 | an accepted list is free of cycles exactly when its goals can be reordered so that each depends on earlier ones only |
| ExtractJson.ExtractIsFenceFree | internal/goal_fulfillment/refiner.go:198-217 | whatever the model answered, no fence is left in the result |
| ExtractJson.ExtractIdempotent | internal/goal_fulfillment/refiner.go:198-217 | extracting from the result changes nothing |
| ExtractJson.ExtractFromProse | internal/goal_fulfillment/refiner.go:211-216 | an object in prose without a fence, no opening brace before it and no closing brace after it, is recovered exactly |
| ExtractJson.ExtractFromJsonBlock | internal/goal_fulfillment/refiner.go:200-205 | an object in the first json block is recovered exactly, whatever stands around the block and whatever padding without braces and backquotes is inside |
| ExtractJson.ExtractFromOpenBlock | internal/goal_fulfillment/refiner.go:200-205 | the same in a json block that is never closed |
| ExtractJson.ExtractFromPlainBlock | internal/goal_fulfillment/refiner.go:206-210 | the same in a first block of no named language, when there is no json block |
| ExtractJson.ExtractWithoutObject | internal/goal_fulfillment/refiner.go:198-217 | a text without a fence and without an object is only trimmed |
| ContextWindow.RecommendNumCtx | internal/localmodel/catalog.go:112-132 | the listed sizes above the floor that fit are exactly those up to the result |
| ContextWindow.UsableVRAMIs | internal/localmodel/catalog.go:113-117 | a tenth of the memory is held back, rounded up |
| ContextWindow.FitsIs | internal/localmodel/catalog.go:117-131 | what fits, in whole numbers: ten times weights and cache within nine times the memory |
| ContextWindow.CatalogWindows | internal/localmodel/catalog.go:46-132 | the windows of the four models on cards of 8, 8, 16 and 24 GB |
| ContextWindow.WindowIsLargestFit | internal/localmodel/catalog.go:87-132 | never below 4096; above it, weights and cache fit into nine tenths of the memory, and no larger listed size does |
| ContextWindow.WindowGrowsIff | internal/localmodel/catalog.go:112-132 | more memory, lighter weights and a cheaper cache never shrink the window, except exactly when the cheaper cache costs nothing and 8192 tokens fitted before |
| ContextWindow.FreeCacheGetsTheFloor | internal/localmodel/catalog.go:119-121 | the witness: cost one gets the largest window where cost zero gets the floor |
| ContextWindow.PickBestFit | internal/localmodel/catalog.go:158-169 | the last entry of the catalog whose requirement the budget meets, or none |
| ContextWindow.ColumnsAscend | internal/localmodel/catalog.go:46-83 | both requirement columns rise along the catalog |
| ContextWindow.BestFitIsMaximal | internal/localmodel/catalog.go:156-169 | where the requirement rises, the models that fit are exactly those up to the pick: it is the most demanding one that fits |
| ContextWindow.PickModel | internal/localmodel/catalog.go:144-154 | by video memory whenever there is any, else by system memory; nothing is picked exactly when there is no card and less than 6000 MB usable |
| ContextWindow.PickIs | internal/localmodel/catalog.go:46-169 | the thresholds, in megabytes of video memory or of usable system memory, at which each model is picked |
| ContextWindow.PickGrows | internal/localmodel/catalog.go:144-154 | more memory on a machine of the same kind never picks a smaller model |
| ContextWindow.CardLowersIff | internal/localmodel/catalog.go:136-154 | adding a card lowers the pick exactly when system memory carried a model the card cannot |
| ContextWindow.TinyCardGetsTheSmallest | internal/localmodel/catalog.go:136-154 | one megabyte of video memory takes a 64 GB machine from the largest model to the smallest |

## Left out

- Lifecycle.Drive: one runner, as the server starts one. RunLoop is its Begin and Finish commands; polling, timeouts and the mode without a goal updater are not modelled, the first half of QueueGoal is one step, and a submitted goal's id is taken to be new.
- Runs.Run: needs keys with files of their own and values that survive JSON, the exact conditions for one operation, and no other program writing into the directory.
- SelfModify.LastFiveKept: needs that the clock moves on from one Apply to the next, since a backup's name is its time, and that no other file in the directory has a backup's prefix.
- Retry.AnthropicBounds: the 44 seconds need a RetryAfter of zero, which is all the error classification ever produces.
- Lifecycle.Tracker.TrackGoal: does not default the creation time and does not model the tracker's file, which is a plain overwrite without crash safety.
- LongTerm.LongTermMemory.LoadAll: a file that cannot be read while loading is one that cannot be read at all (`SkippedAgreesIff` says what follows otherwise); permissions and directory entries that are no files are not told apart from it.
- SelfModify.Manager.InstallBinary: file modes and the re-execution after an install.
- Memory.Memory.ListDirectives: which JSON texts decode to a directive is left open, except that encoded directives do.
- SelfModify.Manager.Verify: a go command that cannot be started at all counts as a failed check.
- Breakdown.BreakdownRecursive: the writes of sub-goals and times into the goal objects; the model's answers are a tree given in advance.
- ContextWindow.PickModel: the share of system memory is any function, because seven tenths in floating point can fall one short; nine tenths cannot.
- Commands, the web interface, wiring, and HTTP handlers other than those of goals, which are modelled by their steps.
- JSON encoding, the string matching that classifies errors, prompts, usage totals, cost estimates and health reports: easy or foreign.
- Session memory, context recall, the world model, the tool and scheduler registries, audit log, notifications and configuration: one-line map facts.
- goals.json and agent_results.json: written without a temporary file, so that nothing atomic holds of them.
- The documents under docs/ describe a governor and plan executor that are not in the code.
