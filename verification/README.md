# Verification model of the mock server's core

The repository is a mock server for Kafka, JMS and HTTP. These modules model the parts
of it that are hard to get right by reading: connections that threads share and pool,
matching and dispatch of requests, template rendering, and caches that must agree with
what they speed up. `dafny verify dfyconfig.toml` checks everything.

## What is modelled

**Shared IBM MQ connections** (`MqProtocol`, `MqSteps`, `MqLocks`, `MqHandles`,
`MqCache`, `MqLive`, `MqAlone`, `MqWitness`, `MqRecovery`, and `MqTorn` with `MqTornInv`,
`MqTornSteps` and `MqTornRuns`). Any number of threads run `connect`, `put_message`, `get_message` and
`disconnect` on any number of providers, one small step at a time. All four kinds of
lock, the process-level cache and the dictionary of operation locks are part of the
state; the driver answers as it likes. A handle is one `QueueManager` object. What every
call comes to when its thread moves alone is stated for every sequence of the driver's
answers, which leave only one run (`MqAlone.AnswersDecide`). Two modelling decisions matter:

- `connect` publishes a handle by assigning `qm`, `_connected` and `_shared_connection`
  one after the other and not under `_lock`; a fresh handle then goes into the cache by
  reading `qm` once more (lines 169-171, 205-210 and 222-226 of
  `src/jms/providers/ibm_mq.py`). In `MqProtocol` that is one step. In `MqTorn` each
  assignment, and the cache write, is a step of its own, for all three publications;
  every run of the first model is a run of the second. There the disconnects stay right,
  each the only one of its handle and in its creator's name, exactly as long as nobody
  takes `qm` away from a provider after the first of the assignments with which it comes
  to share a handle and before `_shared_connection` is true. The blocks of
  `_invalidate_connection` and `disconnect` under `_lock` are one step in both models.
- An invalidation without a snapshot (`stale_qm` is `None`) skips the guard and takes
  whatever handle is current, as in the source; results about "the stale handle" speak
  of invalidations that have one.

**Pools** (`DbPool`, `JmsPool`). The DB pool is a class for what happens under its lock
and a step system around it, because permits are taken outside the lock; factories may
return one client many times, so connections are counted as multisets. The JMS pool is
a monitor: a class whose methods are its critical sections, with a `World` object that
stands for factory, validity test, sleep and clock and logs what they did.

**HTTP** (`PathPattern`, `PathTokens`, `Conditions`, `StubCache`, `StubErasure`, `StubSignal`,
`Dispatch`). Path patterns are compiled to tokens and matched greedily with backtracking;
the stub cache is two indexes changed in place; dispatch is a layered first match.

**Rules and configuration** (`Ordering`, `Rules`, `ConfigLoader`, `RuleSelection`).
Loading, stable sorting, the topic index, hot reload by hashes, and first-match
selection by the Kafka and JMS listeners.

**Templates** (`Text`, `Templater`, `RenderTwice`, `ContextLookup`, `FlattenedKeys`,
`ListenerContext`). The scanner for `{{ ... }}`, fallbacks, rendering what has been
rendered, path lookup with brackets, flattening of messages with lists, and the context
that the JMS listener renders with.

**Listening and discovery** (`JmsListener`, `JmsCycle`, `TopicDiscovery`). The poll loop as
a state machine with any number of polling threads, because `start` after a `stop` whose
`join` timed out adds one; what one cycle polls; and two stacked caches of topic existence with clock readings.

## Where the code does not do what one might expect

- `disconnect()` does not evict the cache. A step brings a dead handle into the cache
  exactly if it is `disconnect()` on the owner of the handle cached under its key
  (`MqLive.StepKeepsLiveCacheExactly`, `MqLive.CacheStaysLiveExactly`); a provider that
  connects next is given that handle (`MqWitness.DisconnectLeavesDeadHandle`).
- A provider that is just coming to share a handle can disconnect it although another
  provider owns it (`MqTornRuns.SharedHandleIsDisconnected`), exactly by the steps that
  `MqTornRuns.RunStaysSoundExactly` excludes.
- A stub that expects zero calls is not signalled before its first call
  (`StubSignal.SignalsAtExpectedExactly`).
- A matching rule that is marked skip hides later rules from the Kafka and the JMS
  listener, but not from HTTP dispatch (`RuleSelection.SkipEndsSearch`,
  `Dispatch.SkippedRulesHideNothing`).
- `_check_files_changed` remembers the first changed hash it meets. Called again without
  a reload it is silent exactly if there is no new file, every file is readable and at
  most one hash was outdated (`ConfigLoader.SecondCheckSilentExactly`). Its one caller,
  `check_and_reload`, always reloads.
- Cleaning up a test leaves what there would be without it, at every moment of a history,
  exactly if no test registers an id that is listed for another test
  (`StubErasure.ErasesExactly`).
- Rendering twice can differ from rendering once even without any context
  (`RenderTwice.RenderTwiceCanDiffer`); it never differs exactly if every value renders
  to itself and leaves no opening brace behind (`RenderTwice.RendersStablyExactly`).
- The documentation of `_get_context_value` promises an element for `items[0]`. It yields
  the element exactly if the context has that path as a key of its own, and otherwise the
  whole list (`ContextLookup.ElementExactly`). Flattening a message enters such keys, so the
  JMS listener renders the element exactly if some condition of the rule is a jsonpath
  condition (`ListenerContext.EntryIsRenderedExactly`).
- Traversing ignores brackets and what is in them, and a bracketed part whose key is absent
  altogether (`ContextLookup.OneBracketPath`): `missing[0]` gives the whole context
  (`ContextLookup.MissingKeyYieldsContext`), and behind an index nothing is found
  (`FlattenedKeys.FlattenAgreesWithLookup`). A part with two pairs of brackets never yields
  a value (`ContextLookup.NoSecondBracket`).
- `start` before the old thread has finished lets messages overtake each other: it keeps
  the order of every later run exactly if all threads have finished
  (`JmsListener.StartKeepsOrderExactly`).

## Model

| member | source | states |
|---|---|---|
| `MqLocks.StepLockInv` | src/jms/providers/ibm_mq.py:126-560 | every step keeps the lock table equal to what the program points of all threads say |
| `MqLocks.StepDictInv` | src/jms/providers/ibm_mq.py:54-63 | every step keeps one operation lock per cache key, never replaced once entered |
| `MqLocks.Reachable` | src/jms/providers/ibm_mq.py:126-560 | both lock invariants hold after every schedule of every set of threads |
| `MqLocks.OneQueueOpenPerKey` | src/jms/providers/ibm_mq.py:45-53 | in every run at most one thread per cache key is between opening and closing a queue |
| `MqLocks.ReconnectsOutsideOperationLock` | src/jms/providers/ibm_mq.py:51-53 | no thread waits to reconnect, dials or shares while it holds an operation lock |
| `MqLocks.NoDeadlock` | src/jms/providers/ibm_mq.py:134-138 | while a call is unfinished, some thread in the middle of a call can step |
| `MqHandles.StepOwnInv` | src/jms/providers/ibm_mq.py:126-433 | every step keeps: a published handle is owned by its creator, condemned by one invalidation, or logged as disconnected once |
| `MqCache.ReachableOwnership` | src/jms/providers/ibm_mq.py:126-560 | lock, ownership and invalidation invariants hold in every run, however connects race |
| `MqCache.DisconnectedOnceByCreator` | src/jms/providers/ibm_mq.py:361-407 | in every run a handle is disconnected at most once, and only in the name of the provider whose connect published it |
| `MqCache.EveryHandleAccountedFor` | src/jms/providers/ibm_mq.py:165-212 | each published handle is in exactly one of three situations: owned by its creator, condemned by one thread, gone |
| `MqCache.InvalidationTouchesOnlyItsHandle` | src/jms/providers/ibm_mq.py:378-433 | a step of an invalidation for a stale handle clears, disconnects and evicts no other handle |
| `MqCache.EvictedNeverReturns` | src/jms/providers/ibm_mq.py:419-433 | after the owner's invalidation has finished the handle is out of the cache for the rest of every run |
| `MqLive.StepKeepsLiveCacheExactly` | src/jms/providers/ibm_mq.py:252-273 | from a reachable state in which every cached handle is still its creator's or being invalidated by it, a step keeps it so exactly if it is not disconnect() on a provider that owns the handle cached under its key |
| `MqLive.CacheStaysLiveExactly` | src/jms/providers/ibm_mq.py:252-273 | the cache is so all along a run exactly if no step of the run is such a disconnect() |
| `MqLive.CachedHandleIsAlive` | src/jms/providers/ibm_mq.py:165-212 | in particular in every run without disconnect() calls |
| `MqWitness.ConnectsFresh` | src/jms/providers/ibm_mq.py:182-212 | undisturbed, connect to an uncached queue manager ends with the handle of the first dial that succeeds, owned and cached, if that is one of five |
| `MqWitness.ConnectsInVain` | src/jms/providers/ibm_mq.py:134-250 | undisturbed, connect changes nothing if there is a connection, or after five failed dials |
| `MqWitness.ConnectsShared` | src/jms/providers/ibm_mq.py:165-180 | undisturbed, connect to a cached queue manager shares the handle without dialling and changes nothing else |
| `MqWitness.Disconnects` | src/jms/providers/ibm_mq.py:252-273 | undisturbed, disconnect() gives the handle up, disconnects it only if it is not shared, and leaves the cache as it is |
| `MqWitness.DisconnectLeavesDeadHandle` | src/jms/providers/ibm_mq.py:252-273 | a run in which a provider is connected through a handle that has been disconnected |
| `MqAlone.AnswersDecide` | src/jms/providers/ibm_mq.py:126-560 | a call of a thread that moves alone has only one run once the driver's answers are given |
| `MqRecovery.NotConnected` | src/jms/providers/ibm_mq.py:287-288 | without a connection put_message and get_message end at once and change nothing |
| `MqRecovery.TransferEnds` | src/jms/providers/ibm_mq.py:307-349 | a transfer that succeeds, or fails for another reason than a lost connection, ends the call; providers, cache and log stay as they were |
| `MqRecovery.GetRecovers` | src/jms/providers/ibm_mq.py:508-545 | get_message that loses its connection, opening the queue or later, invalidates it, reconnects outside the operation lock and ends, whatever dials fail before the one that succeeds |
| `MqRecovery.PutTriesAgain` | src/jms/providers/ibm_mq.py:319-357 | put_message does the same, and the same thread opens the queue again as attempt 1, with the handle its provider has now |
| `MqRecovery.PutRecovers` | src/jms/providers/ibm_mq.py:299-357 | however the second attempt goes, even if it loses the connection again, put_message then ends and nothing more changes |
| `MqRecovery.RecoveryFails` | src/jms/providers/ibm_mq.py:351-357 | after five failed dials the call ends and the provider has no connection |
| `MqRecovery.OwnerRecovers` | src/jms/providers/ibm_mq.py:378-433 | recovering from the loss of a connection of one's own that is cached: one more disconnect of it in the log, a new handle owned and cached in its place |
| `MqRecovery.SharerRecovers` | src/jms/providers/ibm_mq.py:403-433 | recovering from the loss of a shared connection: the cached handle is shared again, nothing is disconnected or evicted |
| `MqRecovery.Invalidates` | src/jms/providers/ibm_mq.py:378-433 | an invalidation gives up the handle of its snapshot, and without a snapshot whatever handle there is |
| `MqRecovery.NewHandleSurvives` | src/jms/providers/ibm_mq.py:382-388 | if the handle has been replaced in the meantime nothing is given up: get_message ends, put_message opens the queue again with the handle that is there |
| `MqTornSteps.TornStepKeeps` | src/jms/providers/ibm_mq.py:169-210 | every step keeps the ownership invariant with publications under way, unless it takes a half-shared handle away from its provider |
| `MqTornRuns.StepStaysSoundExactly` | src/jms/providers/ibm_mq.py:168-171 | from a state with that invariant, no wrong disconnect has been made or decided on after a step exactly if the step is not an unguarded invalidation or disconnect() of a half-shared handle |
| `MqTornRuns.RunStaysSoundExactly` | src/jms/providers/ibm_mq.py:168-171 | with every assignment of all three publications a step of its own, disconnects stay sound all along a run exactly if no step of it is such a step |
| `MqTornRuns.DisconnectedOnceUnlessExposed` | src/jms/providers/ibm_mq.py:361-407 | in such a run each handle is disconnected at most once, and by its creator |
| `MqTornRuns.ExposedStepEndsBadly` | src/jms/providers/ibm_mq.py:378-407 | after the first such step of a run at most two more steps lead to a handle disconnected twice or by a provider that did not create it |
| `MqTornRuns.AtomicRunsAreTorn` | src/jms/providers/ibm_mq.py:205-226 | every run with publications in one step is a run with torn ones |
| `MqTornRuns.SharedHandleIsDisconnected` | src/jms/providers/ibm_mq.py:168-171 | such a step is reached: disconnect() on a provider that is just coming to share a handle disconnects it while its creator goes on using it |
| `DbPool.DBConnectionPool.constructor` | src/db/pool.py:48-66 | warm-up keeps exactly the connections whose creation succeeded, in order |
| `DbPool.DBConnectionPool.Borrow` | src/db/pool.py:90-123 | the last idle connection that is usable is lent, unusable ones are discarded, else a new one is tried |
| `DbPool.TakesLastUsable` | src/db/pool.py:94-110 | the connection taken is the last usable one; those behind it are discarded, those in front of it stay idle |
| `DbPool.DBConnectionPool.GiveBack` | src/db/pool.py:125-131 | one occurrence leaves the lent list and the connection becomes idle |
| `DbPool.StepInv` | src/db/pool.py:72-131 | every step of every thread keeps the accounting of permits and connections |
| `DbPool.PermitsConserved` | src/db/pool.py:72-131 | free permits, lent connections, permits not yet used and permits not yet returned sum to max_size; idle plus lent stay below max(min_size, max_size) |
| `DbPool.AllPermitsBack` | src/db/executor.py:72-76 | when all calls have ended, normally or by exception, every permit is back and nothing is lent |
| `DbPool.NeverStuck` | src/db/pool.py:82-123 | an unfinished call never leaves all threads blocked, even before any timeout |
| `DbPool.ExecutesAlone` | src/db/executor.py:72-76 | an undisturbed call leaves the last usable connection idle again and those behind it gone, or the one just made; permits and lent connections are as before, whether the operation fails or not |
| `DbPool.TimesOut` | src/db/pool.py:82-88 | a call that gets no permit in time changes nothing |
| `JmsPool.JMSConnectionPool.constructor` | src/jms/pool.py:88-113 | one factory call for each idle connection wanted; the wrappers are those of the calls that succeeded, in order, and the monitor invariant holds |
| `JmsPool.RemoveStale` | src/jms/pool.py:200-217 | removing stale wrappers one by one leaves exactly the others, in order |
| `JmsPool.JMSConnectionPool.CleanupConnections` | src/jms/pool.py:52-60 | the idle list becomes its part that is neither too old nor idle for too long, in order; the clients of the others are closed in order, and the invariant is kept |
| `JmsPool.JMSConnectionPool.Attempt` | src/jms/pool.py:261-267 | one try sleeps its share of the backoff and then calls the factory |
| `JmsPool.JMSConnectionPool.Reconnect` | src/jms/pool.py:238-279 | the old client is closed, and then there are as many tries as configured, or up to the first that succeeds; failure invalidates the wrapper, success leaves it valid with the client just made |
| `JmsPool.BackoffTime` | src/jms/pool.py:258-264 | n tries in vain sleep delay * (2^(n-1) - 1) in total |
| `JmsPool.JMSConnectionPool.PopIdle` | src/jms/pool.py:133-138 | exactly the stale wrappers are dropped, and the first of the others is taken out |
| `JmsPool.JMSConnectionPool.Admit` | src/jms/pool.py:140-157 | with test-on-borrow a wrapper that passes its test is admitted at once, and one that fails it only after a reconnection; a refused one could not be reconnected; without it all are admitted untested |
| `JmsPool.JMSConnectionPool.FirstAdmitted` | src/jms/pool.py:131-157 | of the idle wrappers the stale ones go, of the others those in front are refused one by one until the first that is admitted; the rest stays in order |
| `JmsPool.JMSConnectionPool.TryGet` | src/jms/pool.py:131-171 | one pass accounts for every idle wrapper: stale, refused, lent or still idle in order; a new one is made only if none is left; nothing is found only if none is left and there is no room or the factory failed; what is lent is stamped with the time of lending |
| `JmsPool.JMSConnectionPool.Create` | src/jms/pool.py:159-171 | a new wrapper is made only below max_size and is lent at once; there is none only if the factory fails |
| `JmsPool.JMSConnectionPool.ReturnConnection` | src/jms/pool.py:180-198 | returning a lent wrapper keeps the invariant; returning another one keeps it exactly if it is invalid, or not idle already and there is room |
| `JmsPool.JMSConnectionPool.GetConnection` | src/jms/pool.py:115-178 | what the first pass finds is the result, and it finds nothing only if every idle wrapper was stale or refused and no new one could be made; otherwise there is a pass after every notification, and a time-out only if the last pass found nothing for the same reasons; whatever the other threads do meanwhile, the wrapper handed out is lent, not idle, valid and vouched for |
| `PathPattern.MatchIsGreediest` | src/http/stub_cache.py:30-38 | a path matches exactly if non-empty slash-free pieces rebuild it, and the binding found is the greediest of all |
| `PathPattern.SubstituteBack` | src/http/stub_cache.py:89-97 | the extracted parameters are those of the pattern, with non-empty slash-free values; substituting them into the pattern rebuilds the path, up to the trailing newline that `$` tolerates |
| `PathPattern.TokensSpellPattern` | src/http/mock_dispatch.py:47-51 | compiling loses no character of the pattern |
| `PathPattern.BindingUnique` | src/http/stub_cache.py:30-38 | if no two parameters share a segment, a path has at most one binding |
| `PathPattern.RoundTripExactly` | src/http/stub_cache.py:30-38 | filling in and matching is the identity on all values exactly when no two parameters share a segment |
| `PathPattern.BuildThenExtract` | src/http/mock_dispatch.py:497-507 | if no name is used twice or starts with a digit, values filled into such a pattern are extracted again, by name, and nothing else |
| `PathPattern.MatchesNothingExactly` | src/http/mock_dispatch.py:497-507 | a pattern matches no path at all exactly if it uses a name twice or has one that starts with a digit |
| `PathTokens.TokensAround` | src/http/mock_dispatch.py:47-51 | every word in braces is a parameter, wherever it stands, and what is in front of and behind it is compiled by itself |
| `PathTokens.TokensLiteral` | src/http/mock_dispatch.py:47-51 | without a word in braces every character stands for itself |
| `PathTokens.OneParameter` | src/http/stub_cache.py:30-38 | a pattern with one parameter matches exactly the paths with a non-empty slash-free text in its place, and yields that text under its name |
| `PathTokens.LiteralPattern` | src/http/stub_cache.py:30-38 | a pattern without parameters matches exactly itself, up to a trailing newline |
| `Conditions.Evaluate` | src/http/mock_dispatch.py:272-303 | true exactly if every condition matches; an exception is a mismatch, no conditions a match |
| `StubCache.FirstMatchIsFirst` | src/http/stub_cache.py:164-243 | the stub found answers and none registered before it does; none is found only if none answers |
| `StubCache.AnswersExactly` | src/http/stub_cache.py:99-100 | a stub answers exactly if server, verb (in upper or lower case, or any), path and all conditions match |
| `StubCache.DictionaryAt` | src/http/stub_cache.py:150-154 | registering, dropping and finding an id that is there: it keeps its position, it alone goes, its stub is found |
| `StubCache.HttpStub.RecordCall` | src/http/stub_cache.py:106-115 | the call is appended and the event set once the expected number is reached |
| `StubCache.HttpStubCache.Register` | src/http/stub_cache.py:150-154 | both indexes are updated, a known id keeps its position |
| `StubCache.HttpStubCache.Match` | src/http/stub_cache.py:164-243 | the first answering stub records exactly one call with its parameters, all other stubs are untouched |
| `StubCache.HttpStubCache.CleanupTest` | src/http/stub_cache.py:264-269 | the test's ids are dropped from both indexes |
| `StubCache.HttpStubCache.GetStubsForTest` | src/http/stub_cache.py:273-277 | the registered stubs among the test's ids, in their order |
| `StubCache.AgreesExactlyWhenFresh` | src/http/stub_cache.py:141-154 | all along a history both indexes describe the live stubs of each test in order, exactly if no registration reuses a live id |
| `StubErasure.ErasesExactly` | src/http/stub_cache.py:264-269 | cleaning up any test at any moment of a history leaves the registry of the history without that test, exactly if no registration takes an id listed for another test |
| `StubErasure.CleanupErases` | src/http/stub_cache.py:264-269 | then the registry and every match are those of the history without that test for the rest of every history |
| `StubErasure.FreshIsNoTheft` | src/http/stub_cache.py:150-154 | registering only ids that no live stub has takes no id from another test |
| `StubCache.StubsForTestAreItsOwn` | src/http/stub_cache.py:273-277 | with fresh ids the stubs of a test are those it registered since its last cleanup |
| `StubSignal.NeverTooEarly` | src/http/stub_cache.py:106-115 | however recorders interleave, the event implies that enough calls were recorded |
| `StubSignal.NoSignalLost` | src/http/stub_cache.py:106-123 | when no recorder is mid-call the event is set exactly if enough calls came in |
| `StubSignal.SignalsAtExpectedExactly` | src/http/stub_cache.py:121-123 | "set once expected_times calls are recorded" holds of all settled runs exactly if expected_times is at least 1 |
| `Dispatch.TryRuleMatch` | src/http/mock_dispatch.py:222-266 | the first rule of the sorted list that is for this server, not skipped, and matches method, path and conditions |
| `Dispatch.TryEndpointDefault` | src/http/mock_dispatch.py:460-491 | the first endpoint whose method and path match |
| `Dispatch.RuleAnswersExactly` | src/http/mock_dispatch.py:235-256 | a rule answers exactly if it is a live HTTP rule of the server, named or the only one, and verb, path and all conditions match |
| `Dispatch.EndpointAnswersExactly` | src/http/mock_dispatch.py:470-475 | an endpoint answers exactly if verb, in upper or lower case, and path match |
| `Dispatch.MockDispatchHandler.Dispatch` | src/http/mock_dispatch.py:115-180 | an answer comes from a layer only if no layer above has one; exactly the answering stub gets exactly one more call |
| `Dispatch.SkippedRulesHideNothing` | src/http/mock_dispatch.py:235-244 | taking skipped rules away changes no HTTP answer |
| `Dispatch.ExecuteRule` | src/http/mock_dispatch.py:309-369 | the outputs are split at the first http_response without loss, repetition or reordering; the body is the rendered payload |
| `Ordering.SortStable` | src/config/loader.py:47 | sorting keeps the order of elements with equal keys |
| `Ordering.FilterSort` | src/config/loader.py:43-47 | filtering a sorted list is sorting the filtered list, ties included |
| `Ordering.StringsCompared` | src/config/loader.py:47 | the recursive comparison means: smaller at the first difference, or a proper prefix |
| `ConfigLoader.ConfigLoader.RebuildTopicIndex` | src/config/loader.py:151-157 | the index is the rule list filtered by destination, for every destination |
| `ConfigLoader.ConfigLoader.Reload` | src/config/loader.py:115-149 | rules, index and hashes are those of a fresh load, files that fail left out; the rules are in order by priority and then by name |
| `ConfigLoader.LoadedFilesAre` | src/config/loader.py:121-128 | the files that are loaded: .yaml and .yml, and none in the five directories of other loaders |
| `ConfigLoader.LoadOrderIs` | src/config/loader.py:124 | they are loaded .yaml before .yml, and each kind in the order of their paths, part by part |
| `ConfigLoader.ConfigLoader.CheckFilesChanged` | src/config/loader.py:67-104 | removed files, then new files, then the first differing hash are reported, and how the hashes change |
| `ConfigLoader.ConfigLoader.CheckAndReload` | src/config/loader.py:54-65 | a check that is due leaves a fresh load of the directory in memory, and reloads exactly if the loadable files changed |
| `ConfigLoader.ConfigLoader.Poll` | src/config/loader.py:54-65 | after any sequence of polls and edits memory is a fresh load of what the last due poll saw |
| `ConfigLoader.ConfigLoader.GetRulesForTopic` | src/config/loader.py:43-47 | the rules for a destination are the loaded ones with that destination, smaller priorities first and then earlier names |
| `ConfigLoader.ConfigLoader.GetAllRules` | src/config/loader.py:49-52 | sorting the rules again changes nothing: smaller priorities first and then earlier names |
| `ConfigLoader.NoChangeMeansSameFiles` | src/config/loader.py:67-104 | with collision-free hashes a check reports no change exactly if the rule files are those that were loaded, with the same content |
| `ConfigLoader.SameFilesSameLoad` | src/config/loader.py:115-149 | then a fresh load gives the same rules and hashes, in whatever order the walk finds the files |
| `ConfigLoader.MemoryIsRecent` | src/config/loader.py:56-58 | at every poll, what is in memory was read less than one interval ago |
| `ConfigLoader.SecondCheckSilentExactly` | src/config/loader.py:67-104 | a second check without a reload reports no change exactly if there is no new file, every file is readable, and at most one hash was outdated (none, if files were removed) |
| `RuleSelection.ProcessKafkaMessage` | src/kafka/listener.py:385-399 | the first rule of the sorted list with this topic that matches is selected, and executed unless skipped |
| `RuleSelection.ProcessJmsMessage` | src/jms/listener.py:298-316 | the first jms rule of the sorted list with this queue that matches is selected, and executed unless skipped (line 396) |
| `RuleSelection.SelectsLeast` | src/config/loader.py:43-52 | of the rules as loaded, the selected one matches, and every other matching rule has a larger priority, or the same one and a later name, or both the same and was loaded later |
| `RuleSelection.SkipEndsSearch` | src/kafka/listener.py:535-539 | removing skipped rules changes what is executed exactly if a skipped rule is selected while another matches |
| `Templater.SplitLosesNothing` | src/rules/templater.py:28 | splitting into literals and placeholders loses no character |
| `Templater.RenderAtHole` | src/rules/templater.py:28-71 | behind text without opening braces the next placeholder becomes its value, or stays as it is, and the rest is rendered by itself |
| `Templater.RenderWithoutHole` | src/rules/templater.py:28-71 | text in which no opening pair of braces is closed renders to itself |
| `Templater.StripExactly` | src/rules/templater.py:95 | stripping takes away the white space at both ends, all of it and nothing else |
| `Templater.RenderIdentity` | src/rules/templater.py:52-71 | a template renders to itself if none of its own expressions can be resolved |
| `Templater.IdentityExactly` | src/rules/templater.py:52-71 | all templates over a set of expressions render to themselves exactly if none of the expressions can be resolved |
| `RenderTwice.RendersStablyExactly` | src/rules/templater.py:52-114 | with the renderer's own fallbacks and quoted literals, for all numbers and lookups: every template over a set of expressions renders twice as once exactly if every value of these expressions renders to itself and has no opening pair, and no brace at its end, behind its last placeholder |
| `RenderTwice.SafeIsStable` | src/rules/templater.py:52-71 | for one template it is enough that the values of its own expressions are such |
| `RenderTwice.RenderIdempotent` | src/rules/templater.py:52-71 | in particular if they have no opening pair and no brace at their end |
| `RenderTwice.RenderTwiceCanDiffer` | src/rules/templater.py:52-100 | a template with a quoted brace renders differently the second time, whatever the context |
| `Templater.ResolveWithFallbacks` | src/rules/templater.py:74-114 | the loop computes the resolver that the results on rendering speak of |
| `Templater.FirstValueDecides` | src/rules/templater.py:74-114 | the first alternative that has a value decides, and there is none only if none has |
| `Templater.AlternativeDecides` | src/rules/templater.py:95-114 | the deciding alternative means the text between its quotes, single or double, otherwise a number if it is one, otherwise what it leads to |
| `Text.SplitJoin` | src/rules/templater.py:263 | joining parts without the separator can be undone by splitting |
| `ContextLookup.FlattenDict` | src/rules/matcher.py:324-341 | the loop computes the flattened dictionary, later entries override |
| `ContextLookup.DigitsAreDecimal` | src/rules/matcher.py:334-338 | indices are written in decimal without leading zeros |
| `ContextLookup.TraversePath` | src/rules/templater.py:249-293 | the loop walks down any path, with brackets too, and stops at null, a non-object or a bad index |
| `ContextLookup.TraverseBrackets` | src/rules/templater.py:268-283 | the loop over the indices of one part |
| `ContextLookup.PrefixesAreDropped` | src/rules/templater.py:232-236 | `key`, `$key` and `$.key` mean the same |
| `ContextLookup.NoSecondBracket` | src/rules/templater.py:274-283 | behind the first opening bracket a second one leads to no value or to an exception: to an exception without a closing bracket, to nothing if it stands in the index |
| `ContextLookup.OneBracketPath` | src/rules/templater.py:262-293 | a path with one opening bracket in a part means the path without the brackets and what is in them, and without the whole part if its key is empty, absent or null |
| `ContextLookup.MissingKeyYieldsContext` | src/rules/templater.py:268-283 | `missing[i]` gives the whole context |
| `ContextLookup.ElementKeyYieldsList` | src/rules/templater.py:268-283 | traversing `key[i]`, at any depth, gives the whole list |
| `ContextLookup.ElementExactly` | src/rules/templater.py:220-246 | for a non-null element of a list at any depth, its path gives the element exactly if the context has the path as a key with that value; if it has no such key, the list |
| `FlattenedKeys.FlattenAgreesWithLookup` | src/rules/matcher.py:324-341 | for messages with plain keys, lists included: flattened keys are the keys of the entries, each entry has its own key with its value, and traversing the message along a key finds that value exactly if the key has no index, or finds nothing behind an index where the value is null |
| `FlattenedKeys.ContextValueAgrees` | src/rules/templater.py:220-246 | a key of the flattened message, with or without `$.`, gives the entry against the flattened message; against the message itself it gives the same exactly in those cases |
| `ListenerContext.BuildContext` | src/jms/listener.py:400-436 | the loops collect the contexts of the conditions, the message, its fields with and without `$.`, and the headers, later entries overriding |
| `ListenerContext.HeadersWin` | src/jms/listener.py:432-436 | headers override everything else |
| `ListenerContext.MessageIsWhole` | src/jms/listener.py:424-426 | `message` is the whole message, unless a field or header has that name |
| `ListenerContext.EntryIsRenderedExactly` | src/jms/listener.py:400-436 | if no header and no other condition binds the key and its first field is not `$`: an output that asks for an entry of the message gets it exactly if its key has no index, or some condition is a jsonpath condition, or there is nothing to get; otherwise the list, or nothing |
| `TopicDiscovery.KafkaClientWrapper.VerifyTopicExists` | src/kafka/client.py:149-197 | the client's cache, rate limit and stamp, step by step |
| `TopicDiscovery.TopicMetadataManager.CheckTopicExists` | src/kafka/topic_metadata.py:247-283 | the manager's cache on top of it; no client means no topic |
| `TopicDiscovery.TopicMetadataManager.GetExistingTopics` | src/kafka/topic_metadata.py:285-291 | the topics whose checks succeed |
| `TopicDiscovery.BoundedDiscovery` | src/kafka/topic_metadata.py:256-280 | a topic that every query finds from time T on is reported by every check from T + 5 s + interval on, for every interval (one below zero counts as zero) |
| `TopicDiscovery.DiscoveryDelayIsExact` | src/kafka/client.py:159-173 | for every interval, that bound holds for a delay exactly if it is at least 5 s + interval |
| `TopicDiscovery.KnownAreConfirmed` | src/kafka/client.py:159-192 | the client knows exactly the topics the broker has confirmed |
| `TopicDiscovery.PositiveNeedsConfirmation` | src/kafka/client.py:183-192 | no positive answer without a confirmation by the broker, now or earlier |
| `TopicDiscovery.NeverWithdrawn` | src/kafka/topic_metadata.py:258-261 | a positive answer is repeated by every later check of the same kind |
| `TopicDiscovery.ScanFindsOldTopics` | src/kafka/topic_metadata.py:285-291 | a scan lists only confirmed topics, and every topic it checks late enough |
| `JmsListener.GetMessage` | src/jms/providers/ibm_mq.py:484-547 | what was taken before an error is returned, in order; a reconnect is asked for exactly at a lost connection; the batch ends early only at an error or an empty queue |
| `JmsListener.NoMessageLost` | src/jms/listener.py:81-229 | per queue, messages handed on, in flight and on the broker are all messages ever put, each as often, in every run, however often the listener is stopped and started |
| `JmsListener.HandedInOrder` | src/jms/listener.py:184-229 | and in the order in which they were put, if the listener is never started before its last thread has finished |
| `JmsListener.StartKeepsOrderExactly` | src/jms/listener.py:81-104 | starting it keeps the order of every later such run exactly if all its threads have finished |
| `JmsListener.PauseStopsTaking` | src/jms/listener.py:114-128 | after a pause and until a resume only batches already under way take messages, as many as they have room for, and a single thread at most five |
| `JmsListener.PauseBoundIsReached` | src/jms/listener.py:197-217 | from every reachable state some run takes exactly that many messages after the pause |
| `JmsCycle.CyclePollsExactly` | src/jms/listener.py:184-217 | whatever other threads and senders do, a cycle polls exactly the queues of its subscriptions that are not paused, each in its turn |
| `JmsCycle.MessageGetsThrough` | src/jms/listener.py:190-217 | a message at the front of a subscribed queue that is not paused is taken and handed on within a cycle, whatever queues come before it, paused or not |
| `JmsCycle.ResumedGetsThrough` | src/jms/listener.py:130-137 | and so is one of a queue that has just been resumed |
| `JmsCycle.StartedGetsThrough` | src/jms/listener.py:81-91 | and by the thread of a listener that has just been started |
| `JmsCycle.FillsBatch` | src/jms/listener.py:214-216 | a batch takes messages one by one from the front of the queue, up to five |
| `JmsCycle.NoSixthMessage` | src/jms/listener.py:214-216 | and never a sixth, in any run |
| `JmsCycle.StopEndsPolling` | src/jms/listener.py:190-192 | after a stop and until a start no thread begins to poll another queue |
| `JmsCycle.Finishes` | src/jms/listener.py:93-104 | and every thread can finish by its own steps |

## Left out

- Network clients, drivers and brokers: they are nondeterministic choices that succeed or fail; a message whose delivery is lost inside the driver is not modelled.
- FastAPI routers, `src/main.py`, the user interface and `src/test`: plumbing and presentation.
- That recovery from a lost connection ends in a live one when other threads interfere: only safety is claimed then, because neither disconnect() nor the invalidation of a shared handle evicts the cache.
- The sleeps between dials, `consume`, statistics and the constructor's automatic connect of the IBM MQ provider: they add no state.
- The underlying hConn: two `QueueManager` objects that share one hConn after MQRC_ALREADY_CONNECTED are two handles here.
- Pool `close()` and statistics; lent wrappers and their clients are otherwise left to the borrower.
- The JMS pool reads the clock once per cleanup instead of once per wrapper.
- `\w`, `\s`, `str.strip` and `str.upper` cover ASCII only.
- Full regular expressions, JSONPath, JSON Schema and YAML: matchers and the parser are given functions.
- How `int` reads an index, and indexing itself: a given function of the value and the text in brackets.
- Time, uuid, random and custom placeholders and the parsing of numbers: given functions of a token.
- Correlation ids and custom placeholders in the listener's context, and the two-level keys that the Kafka listener and HTTP dispatch add: they bind further keys.
- Tearing the blocks of `_invalidate_connection` and `disconnect` that hold `_lock`, against the assignments of `connect` that do not: each block is one step.
- External payload files: their changes are not tracked by the hashes, so they are taken as fixed.
- Directories are read in one piece: a file that changes during a reload is not modelled.
- Other consumers of a queue the JMS listener polls: their messages would count as taken.
- Concurrent checks of one topic: checks run one after the other.
- Dispatch of concurrent requests while a test is cleaned up: a request that has its candidates already may still record a call on a removed stub.
- Correlation ids, fault injection, topic configuration and Avro: they would only add easy members or are not round trips in the code.
- Response headers and content types.
