# Proofs about the acquisition runtime

A Dafny model of the concurrent core of the crawler's acquisition layer (`backend/app/acquisition`) and of
its offline scorer (`backend/eval/score.py`), with proofs of what they keep. `dafny verify dfyconfig.toml`
checks everything.

## What is modelled

Code that changes shared objects is written twice: once as pure steps on values, over which the theorems
about all runs are proved, and once as a class whose methods change fields and are proved to do those steps.

* **Browser context slots** (`SlotProtocol`, `SlotSafety`, `SlotTheorems`, `SlotRuns`, `SlotRecycling`,
  `SlotEnding`, `SlotProgress`, `SlotDue`, `SharedBrowserRuntime`, `RuntimeEventLoop`).
  Sessions, warm-ups and closes of one `SharedBrowserRuntime` as a machine over the steps of the event loop: what
  runs between two suspensions is one step, and an event says which task resumes and how its awaited operation
  ended. The machine also lets other tasks run where an uncontended lock or semaphore would not suspend, so every
  theorem covers more interleavings than the event loop has. Each task keeps a record of the permits and counts it
  took and gave back, which ties the shared counters to the tasks.
* **Network capture** (`CaptureLedger`, `CaptureOutcomes`, `NetworkCapture`): workers over a bounded queue that reserve, read, and
  release or commit. The capture lock is never held across a suspension, so its sections are parts of single steps.
* **Truncated JSON** (`JsonRepair`, `JsonGrammar`, `JsonPrefix`): the string-aware scanner, the bracket stack and the
  shrinking loop over arbitrary characters, with an independent grammar of balanced texts and an arbitrary parser.
* **Runtime pools** (`PoolEviction`, `RuntimePool`): TTL and least-recently-used eviction over both pools, and lookups
  that reuse, evict and insert, over any interleaving of lookups, sessions, clock and shutdown.
* **Background tasks** (`BackgroundTasks`, `TaskEventLoop`): the cleanup registries and any number of interleaved drains, each of which may
  be cancelled at any wait.
* **SOCKS5** (`Socks5`, `Socks5Bridge`): the message formats of RFC 1928 (sections 3 to 6) and RFC 1929 (section 2), the
  stream readers, hosts as text under any spelling of IP addresses and names, and the order of steps of one served client. A stream that ends and a wait that times out are the
  same thing here.
* **Cookies** (`CookieSelection`, `LastWins`, `CookieNormalization`, `CookieStore`, `CookieHistory`): which cookies a
  request carries, what is remembered of a storage state, and what a load gives back after any history of saves. The
  clock may advance between and within calls.
* **Scorer** (`Sums`, `Scoring`, `ScoringLaws`, `ScoringCounts`): the nested matching and grounding loops, with rates over the reals.

`Wrappers` and `Text` hold small shared helpers.

## Where the code does less than it seems to

* A session cancelled while it re-acquires its permit inside `yield_slot_until_recycle_window` releases a permit it has
  already given back. Nothing else breaks conservation (`SlotTheorems.OnlyYieldCancelOverdraws`), and it does happen:
  `SlotRuns.CancelledYieldExceedsCapacity` reaches two live pages with one slot.
* `docs/INVARIANTS.md` line 96 asks to recycle a failed shared browser at most once. The recycle after a driver disconnect
  closes whatever browser is current. That is another browser than the one the session failed on exactly when there is one and
  another launch has completed since the attempt began (`SlotRecycling.RetryClosesOtherIff`, `RetryClosesOtherSince`); a run in
  which it is connected and in use: `SlotRuns.RetryClosesHealthyBrowser`. The model follows the code.
* Eviction takes a runtime to be idle when nothing is active or queued, but a session between its permit and its activation is
  neither: such a runtime has a session exactly when some permit is out (`SlotRecycling.IdleLookingHasSessionIff`; a run:
  `LaunchingSessionLooksIdle`).
* While a retry or an explicit close awaits the browser's close, a session still goes live on that browser if a permit reaches it
  in the queue and the browser is not due for recycling; never under a recycle (`SlotRecycling.LiveUnderCloseIff`; a run:
  `PageGoesLiveUnderClose`).
* A cancellation while a page is being opened passes the handler that closes a half-opened context: the session leaves with its
  permit back and the context open (`SlotEnding.CancelledOpenLeavesContext`). The bound on unclosed pages starts once the page is
  open.
* A target sent as a domain that spells an IP literal is encoded as that address, and a name may not decode at all
  (`Socks5.ReadAddressDecodesIff`; instances: `DomainThatIsAnAddress`, `NameThatDoesNotDecode`).
* The domain match of cookies leaves out the address clause of section 5.1.3 of RFC 6265: a cookie of the domain 4 reaches the
  address 1.2.3.4 (`CookieSelection.DomainMatchIsRfc6265`; an instance: `DomainMatchInstances`).
* A load that names no engine takes the row written last. A save that repeats what its row was written from is skipped and does
  not bring the row to the front (`CookieHistory.SkippedIff`, `LastSaveIsNewestIff`).
* The sleep loop in `yield_slot_until_recycle_window` and the check for a missing browser after `ensure` cannot fire: no task
  is ever in the former (part of the invariant, `SlotSafety.Settled`), and `SlotTheorems.ActivationSucceeds` rules out the latter.
* Capture budget leaks exactly when a body read is cancelled or decoding raises (`CaptureLedger.LeaksCounted`; a run:
  `CancelledReadLeaks`).
* A drain that is cancelled while it waits for runtime closes drops what it holds: those tasks are then tracked by nothing, and
  only those (`BackgroundTasks.NothingIsLostIff`; a run: `CancelledDrainLosesTask`).
* Two drains at once: the second can return while the first still holds unfinished tasks (`BackgroundTasks.DrainLeavesIff`;
  a run: `SecondDrainReturnsEarly`).
* Normalising cookies twice differs from once exactly when a row that is the last of its key has a field made only of NULs
  (`CookieNormalization.IdempotentIff`; an instance: `NulFieldGoesLater`).
* Saves and loads normalise a domain a different number of times, and every time one leading `www.` label goes. They meet exactly
  when the load names the default engine and comes with its session, or the host has at most two such labels
  (`CookieHistory.LookupMeetsSaveIff`; instances on both ways to miss: `RepeatedWwwIsNotFound`).
* A save that names no engine but carries a state tagged with one is filed under the default engine's key and is then
  hidden from it (`CookieHistory.LoadReturnsLastSave` says when; an instance: `TaggedSaveHidesDefault`).
* Precision and recall of one do not mean equal records: it also takes the same shape (`ScoringLaws.ExactIsPerfectInShape`; an
  instance: `PerfectIsNotExact`). And a missing record counts as equal to an empty one in the exact-match rate
  (`ScoringLaws.FullExactRateIff`; an instance: `MissingRecordIsExact`).

## Model

| member | source | states |
|---|---|---|
| SlotTheorems.PermitsConserved | backend/app/acquisition/browser_context_lifecycle.py:74-147 | in every run, free permits plus permits held by sessions equal max_contexts plus the tasks cancelled while re-acquiring, and equal max_contexts if and only if there is no such task; the active and queued counters equal the numbers of live and waiting tasks, so the clamps never bite |
| SlotTheorems.OnlyYieldCancelOverdraws | backend/app/acquisition/browser_runtime_lifecycle.py:56-81 | from any reachable state, a step changes free plus held permits only by cancelling a task that waits to re-acquire, and then by exactly one |
| SlotRuns.CancelledYieldExceedsCapacity | backend/app/acquisition/browser_context_lifecycle.py:108-113 | a run with one slot that ends with two live pages |
| SlotTheorems.ActiveSettlesOnce | backend/app/acquisition/browser_pool_page.py:45-119 | a session that counted itself active stays so until it is done, and by then has lowered the count once and released one permit, whether it ended normally, failed, was cancelled or left its close to a pending task |
| SlotEnding.UnclosedPagesAreBounded | backend/app/acquisition/browser_pool_page.py:64-119 | in every run, the opened pages whose close has not ended hold their permits and are counted active, so they are at most max_contexts plus the overdrawn ones |
| SlotEnding.PageEndsWithItsClose | backend/app/acquisition/browser_pool_page.py:104-119 | an opened page is done if and only if its close ends, and only then do the active count and the permit move |
| SlotEnding.PendingCloseIsDeferred | backend/app/acquisition/browser_pool_page.py:64-67 | a close that times out or is cancelled while pending changes nothing but that the page is left to its close task |
| SlotEnding.CancelledOpenLeavesContext | backend/app/acquisition/browser_context_lifecycle.py:45-68 | a session cancelled while opening its page is done with its permit back and no close of its context |
| SlotEnding.BodyLeadsToClose | backend/app/acquisition/browser_pool_page.py:151-190 | however the body or the saving of state ends, the close of the context follows |
| SlotProgress.TurnsAreBounded | backend/app/acquisition/browser_pool_page.py:25-119 | every turn of a task that changes anything brings it nearer to done, so there are at most as many as its rank |
| SlotProgress.NoDeadlock | backend/app/acquisition/browser_context_lifecycle.py:74-113 | with at least one slot, in every reachable state with a task under way some task can go on |
| SlotProgress.EverythingCanFinish | backend/app/acquisition/browser_pool_page.py:25-119 | from every reachable state all tasks can be brought to an end, with counters, lock and permits back |
| SlotProgress.TwoAttemptsAtMost | backend/app/acquisition/browser_context_lifecycle.py:33-71 | in every run a session begins at most two attempts to open its page |
| SlotProgress.RetriesIff | backend/app/acquisition/browser_context_lifecycle.py:56-68 | a failed attempt is retried if and only if it was the first and failed for a closed driver or page |
| SlotDue.DueIff | backend/app/acquisition/browser_runtime_lifecycle.py:33-53 | in every run a browser is due if and only if it is disconnected, or no page is active and since its launch the number of contexts or the lifetime has been reached |
| SlotDue.RunRemembers | backend/app/acquisition/browser_runtime_lifecycle.py:112-115 | the runtime's context count and launch time are those since its last launch |
| SlotDue.LockGrantOutcome | backend/app/acquisition/browser_runtime_lifecycle.py:87-99 | under the lock the browser is recycled if and only if it is due, launched if there is none, and else used |
| SlotDue.CloseClears | backend/app/acquisition/browser_runtime_lifecycle.py:218-222 | every close leaves the browser field empty |
| SlotDue.YieldsIff | backend/app/acquisition/browser_runtime_lifecycle.py:56-81 | a permit is given back for the re-acquire if and only if the number of contexts is reached with nobody active, and past the deadline the session then times out |
| SlotTheorems.QuietRuntimeIsRestored | backend/app/acquisition/browser_context_lifecycle.py:135-147 | once all tasks are done, both counters are zero, the lock is free, and every permit is back (plus the overdrawn ones) |
| SlotTheorems.RecycleIsExclusive | backend/app/acquisition/browser_runtime_lifecycle.py:84-118 | one task at a time has the runtime lock; a launch starts from a cleared browser; a planned recycle meets no active page; a connected browser in use is closed only by a retry or an explicit close |
| SlotTheorems.RetiredBrowserStaysIdle | backend/app/acquisition/browser_runtime_lifecycle.py:33-53 | once a planned recycle of the current browser has begun, no page becomes live and recycling stays due until the browser field is cleared |
| SlotTheorems.BrowserChangesUnderLock | backend/app/acquisition/browser_runtime_lifecycle.py:194-222 | a step replaces or clears the browser only if it is taken by the holder of the runtime lock |
| SlotRuns.RetryClosesHealthyBrowser | backend/app/acquisition/browser_runtime_lifecycle.py:121-126 | a run in which a retry closes a connected browser another session is using |
| SlotRecycling.RetryClosesOtherIff | backend/app/acquisition/browser_runtime_lifecycle.py:121-126 | in every run, a retry that is granted the lock closes a browser other than the one it failed on if and only if a browser is present and more launches have completed than that browser's |
| SlotRecycling.RetryClosesOtherSince | backend/app/acquisition/browser_context_lifecycle.py:33-71 | counted from the start of the attempt: if and only if a browser is present and a launch completed in between |
| SlotRecycling.AttemptStartsOnLatest | backend/app/acquisition/browser_context_lifecycle.py:38-49 | an attempt to open a page starts on the browser launched last |
| SlotRecycling.LaunchesCounted | backend/app/acquisition/browser_runtime_lifecycle.py:101-115 | browser identities count the launches that completed |
| SlotRecycling.LiveUnderCloseIff | backend/app/acquisition/browser_runtime_lifecycle.py:84-88 | from any reachable state with a close under way, a step makes a session live on that browser if and only if it hands a permit to a queued session and the browser is not due for recycling; the closer is then a retry or an explicit close, and the browser connected |
| SlotRecycling.PageGoesLiveUnderClose | backend/app/acquisition/browser_pool.py:272-274 | a run in which a page goes live on a browser that an explicit close is closing |
| SlotRecycling.IdleLookingHasSessionIff | backend/app/acquisition/browser_pool.py:224-229 | a runtime with nothing active or queued has a session if and only if some permit is out, and then the session is between its permit and its activation |
| SlotRecycling.LaunchingSessionLooksIdle | backend/app/acquisition/browser_pool_page.py:45-52 | a run in which a launching session is in neither counter |
| SlotTheorems.ActivationSucceeds | backend/app/acquisition/browser_pool_page.py:45-57 | a turn that counts a session active always goes on to prepare its page with a browser present |
| SlotTheorems.StepKeepsInv | backend/app/acquisition/browser_pool_page.py:25-119 | every event keeps the invariant that ties each task's record, the lock, the browser and the counters together |
| SlotSafety.ResumeLands | backend/app/acquisition/browser_context_lifecycle.py:33-113 | one resumption of any task moves the shared counters by exactly what that task no longer has, or newly has, in hand |
| SharedBrowserRuntimes.SharedBrowserRuntime.Wake | backend/app/acquisition/browser_pool.py:142-297 | the object's methods, dispatched by what a task was waiting for, do exactly the step of the machine |
| RuntimeEventLoop.EventLoop.Drive | backend/app/acquisition/browser_pool.py:142-297 | any sequence of events handled by calls of the object leaves object and tasks as the machine's run does, and keeps the invariant |
| SharedBrowserRuntimes.SharedBrowserRuntime.AcquireContextSlot | backend/app/acquisition/browser_context_lifecycle.py:74-86 | a session enters the queue counted once and waits for a permit |
| SharedBrowserRuntimes.SharedBrowserRuntime.SlotCancelled | backend/app/acquisition/browser_context_lifecycle.py:108-113 | the `except BaseException` arm as written: it releases whenever the acquired flag is set |
| SharedBrowserRuntimes.SharedBrowserRuntime.ReleaseContextCapacity | backend/app/acquisition/browser_context_lifecycle.py:135-137 | lowers the active count and releases one permit, nothing else |
| CaptureLedger.LedgerIsExact | backend/app/acquisition/browser_capture.py:234-377 | in every run pending and reserved bytes are those of reads in flight and of leaked ones; every delivered response is accounted for once; stored plus pending payloads and captured bytes are within their limits, captured bytes are the sum of stored lengths, and each stored body is within its endpoint's budget |
| CaptureLedger.SummaryIsComplete | backend/app/acquisition/browser_capture.py:213-224 | the slice drops nothing and the reported count is the number of payloads returned |
| CaptureOutcomes.StoresIff | backend/app/acquisition/browser_capture.py:304-345 | the payloads grow if and only if a body decodes, is within its endpoint's budget, still passes the capture test and fits the total; then by exactly that payload and its length |
| CaptureOutcomes.CaptureTestIs | backend/app/acquisition/browser_capture.py:406-450 | the capture test and the byte budget in terms of the settings and the response |
| CaptureOutcomes.AdmittedIff | backend/app/acquisition/browser_capture.py:347-372 | a worker reads a response if and only if it passes the test on stored plus pending amounts, and holds its declared length |
| CaptureOutcomes.QueuedIff | backend/app/acquisition/browser_capture.py:226-232 | a delivered response is queued if and only if the capture is open and the queue has room, and counted as dropped if and only if it is full |
| CaptureOutcomes.EndedReadIsCounted | backend/app/acquisition/browser_capture.py:262-303 | every read that ends frees its worker and moves exactly the counter it belongs to |
| CaptureOutcomes.OnePayloadIsReturned | backend/app/acquisition/browser_capture.py:320-345 | a run whose summary holds the payload that was captured |
| CaptureLedger.LeaksCounted | backend/app/acquisition/browser_capture.py:249-303 | the steps that leak a reservation are exactly cancelled reads and raising decodes |
| CaptureLedger.CancelledReadLeaks | backend/app/acquisition/browser_capture.py:249-268 | a run in which a cancelled read leaves a reservation behind |
| CaptureLedger.PendingIsInFlightIffNoLeak | backend/app/acquisition/browser_capture.py:347-377 | pending equals the reads in flight if and only if none of those steps happened |
| CaptureLedger.JoinedCloseLosesNothing | backend/app/acquisition/browser_capture.py:176-203 | once the queue is joined, cancelling the workers changes nothing but the workers |
| NetworkCapture.BrowserNetworkCapture.CaptureWorker | backend/app/acquisition/browser_capture.py:234-247 | taking an item from the queue is the machine's step |
| NetworkCapture.BrowserNetworkCapture.FinishCapture | backend/app/acquisition/browser_capture.py:249-345 | the end of a body read is the machine's step |
| NetworkCapture.BrowserNetworkCapture.ReserveCaptureBudget | backend/app/acquisition/browser_capture.py:347-372 | reserves if and only if the capture test passes on stored plus pending amounts |
| NetworkCapture.BrowserNetworkCapture.DrainCaptureQueue | backend/app/acquisition/browser_capture.py:205-211 | leaves the queue empty and marks every item it held done |
| CaptureLedger.DrainEmptiesQueue | backend/app/acquisition/browser_capture.py:205-211 | the same of the machine's step, which changes nothing else of the object |
| JsonRepair.CompletionIsTheOnlyOne | backend/app/acquisition/browser_capture.py:534-559 | closers balance a text if and only if they are the ones completion appends |
| JsonRepair.CompletionIsBalanced | backend/app/acquisition/browser_capture.py:534-559 | the result is balanced, extends the text by closers only, and completing it again changes nothing |
| JsonRepair.CompletionFails | backend/app/acquisition/browser_capture.py:534-559 | nothing is returned if and only if the text ends inside a string or has a closer that answers no bracket |
| JsonRepair.TruncationCompletes | backend/app/acquisition/browser_capture.py:513-531 | after cutting the open string, completion succeeds if and only if the brackets never mismatch |
| JsonRepair.PrefixOfBalancedCompletes | backend/app/acquisition/browser_capture.py:492-531 | on every prefix of a balanced text, cutting and completing succeeds |
| JsonRepair.BalancedJsonCandidate | backend/app/acquisition/browser_capture.py:534-559 | the loop returns the completion |
| JsonRepair.TruncateOpenJsonString | backend/app/acquisition/browser_capture.py:513-531 | the loop cuts exactly at the quote that opens the unfinished string |
| JsonGrammar.BalancedIsTree | backend/app/acquisition/browser_capture.py:534-559 | the scanner's balanced texts are exactly those a tree of strings and bracket groups writes |
| JsonGrammar.CompletionWritesATree | backend/app/acquisition/browser_capture.py:534-559 | completion returns t if and only if t is the text plus closers and some tree writes t |
| JsonPrefix.RepairTruncatedJsonPrefix | backend/app/acquisition/browser_capture.py:492-510 | for any parser, a returned value is the parse of a prefix of the stripped text followed only by closers; and the loop returns the first parse among the chain of at most 24 candidates of the cut text, or nothing |
| JsonPrefix.TrimIs | backend/app/acquisition/browser_capture.py:498-498 | trimming removes white space from the end, then separators, and nothing else |
| JsonPrefix.CandidatesAre | backend/app/acquisition/browser_capture.py:497-510 | the first candidate is the trimmed text, each next one the trimmed text before the last comma, and they end only after the attempts, without a comma, or with nothing left |
| JsonPrefix.FirstCandidateWins | backend/app/acquisition/browser_capture.py:497-506 | if completing the trimmed text parses, that parse is returned; nothing is returned if and only if no candidate parses |
| JsonPrefix.BrokenListKeepsItems | backend/app/acquisition/browser_capture.py:492-510 | a list broken off after its second item keeps both |
| Text.StripIs | backend/app/acquisition/browser_capture.py:493-493 | stripping removes white space at both ends and nothing else |
| JsonPrefix.CandidatesShrink | backend/app/acquisition/browser_capture.py:497-510 | candidates are non-empty prefixes, each strictly shorter than the one before, at most as many as attempts |
| JsonPrefix.FirstParseIsLongest | backend/app/acquisition/browser_capture.py:497-510 | a parse is returned if and only if some candidate parses, and every candidate tried before it does not |
| JsonPrefix.RepairedValueIsAPrefix | backend/app/acquisition/browser_capture.py:492-510 | for any parser, a returned value is the parse of a prefix of the stripped text followed only by closers, and that text is balanced |
| PoolEviction.EvictionIsExact | backend/app/acquisition/browser_pool_eviction.py:9-38 | survivors and evicted are the original entries without duplicates; only idle ones go; all expired ones go; the number is max(expired, min(idle, size - max_entries + 1)) |
| PoolEviction.EvictionIsLru | backend/app/acquisition/browser_pool_eviction.py:73-94 | with an evicted runtime every idle one used strictly earlier goes too; beyond the expired ones the order is by last use |
| PoolEviction.SecondLoopIsIdle | backend/app/acquisition/browser_pool_eviction.py:26-38 | afterwards one more entry fits or all survivors are busy, and the second capacity loop takes nothing |
| RuntimePool.OneRuntimePerKey | backend/app/acquisition/browser_pool.py:313-388 | in every run each key has at most one runtime, in its own pool, and each runtime one key |
| RuntimePool.HitReturnsStored | backend/app/acquisition/browser_pool.py:313-347 | a lookup of a present key returns the stored runtime, touched, by either test, and adds or removes nothing |
| RuntimePool.MissInsertsNew | backend/app/acquisition/browser_pool.py:313-347 | a miss returns and stores a new idle runtime; other entries are survivors; the pools fit max_entries or all others are busy |
| RuntimePool.EvictionInNumbers | backend/app/acquisition/browser_pool.py:300-310 | a miss evicts every runtime past the configured idle time, and max(those, min(idle, size - max_entries + 1)) in all, in the settings' own numbers |
| RuntimePool.SameRuntimeWhileKept | backend/app/acquisition/browser_pool.py:313-347 | over any run in which a key keeps its entry, every lookup of it returns the same runtime |
| RuntimePool.RacingLookupsShareOne | backend/app/acquisition/browser_pool.py:326-341 | of two lookups that both miss the unlocked test, the second finds under the lock what the first inserted |
| RuntimePool.BrowserRuntimePool.GetBrowserRuntime | backend/app/acquisition/browser_pool.py:313-347 | the method returns the runtime that is then stored for the key, changes the pools as the machine's lookup does, and closes exactly the evicted runtimes in order |
| RuntimePool.BrowserRuntimePool.FindUnlocked | backend/app/acquisition/browser_pool.py:320-329 | the unlocked test returns and touches the stored runtime, or changes nothing |
| RuntimePool.BrowserRuntimePool.FindUnderLock | backend/app/acquisition/browser_pool.py:330-341 | the test under the lock returns the stored runtime even if it was inserted in between, or a new one |
| RuntimePool.BrowserRuntimePool.EvictIdleBrowserRuntimesLocked | backend/app/acquisition/browser_pool_eviction.py:9-38 | the loops over the two pools remove and return exactly the chosen entries |
| RuntimePool.BrowserRuntimePool.PopIfStillIdle | backend/app/acquisition/browser_pool_eviction.py:97-125 | pops and returns the candidate if and only if its key still maps to it, idle |
| BackgroundTasks.NothingIsLostIff | backend/app/acquisition/browser_background_tasks.py:18-84 | in every run an unfinished task is in its registry or in the hands of a drain, and in one such place only, if and only if no drain was cancelled in a wait for runtime closes while it held the task |
| BackgroundTasks.DropsIff | backend/app/acquisition/browser_background_tasks.py:60-80 | a step drops a task if and only if it cancels a drain in such a wait with the task in its hands |
| BackgroundTasks.CancelledDrainLosesTask | backend/app/acquisition/browser_background_tasks.py:60-70 | a run in which a cancelled drain leaves a runtime close tracked by nothing |
| BackgroundTasks.DrainLeavesIff | backend/app/acquisition/browser_background_tasks.py:36-84 | after a drain returns, a task registered before it, or any runtime close, is finished or tracked if and only if it is not unfinished and held or dropped by another drain |
| BackgroundTasks.LoneDrainFinishesOrTracks | backend/app/acquisition/browser_background_tasks.py:36-84 | with every drain returned: finished or tracked, including closes registered during the drain |
| BackgroundTasks.ResumesIff | backend/app/acquisition/browser_background_tasks.py:36-84 | a drain goes on from a gather if and only if all it holds has finished, and from a wait for runtime closes always, each time nearer to its end |
| BackgroundTasks.DrainEnds | backend/app/acquisition/browser_background_tasks.py:36-84 | once every task has finished, a drain can be resumed to its end |
| BackgroundTasks.SecondDrainReturnsEarly | backend/app/acquisition/browser_background_tasks.py:36-84 | a run in which a second drain returns while a task is unfinished and in no registry |
| BackgroundTasks.BackgroundTaskRegistry.AwaitWithoutCancelling | backend/app/acquisition/browser_background_tasks.py:99-129 | a task left pending is in exactly one registry, chosen by preserve_pending, and its callback ran once; otherwise it is in none and the callback did not run |
| TaskEventLoop.TaskLoop.Drive | backend/app/acquisition/browser_background_tasks.py:18-129 | any sequence of registrations, completions, drains and cancellations handled by calls of the registry object ends as the machine's run does, and an unfinished task is tracked or held if and only if no drain holding it was cancelled in a wait for runtime closes |
| BackgroundTasks.BackgroundTaskRegistry.CancelDrain | backend/app/acquisition/browser_background_tasks.py:36-84 | cancelling a drain in a wait for runtime closes ends it with what it held dropped; any other gather keeps its tasks and goes on |
| BackgroundTasks.BackgroundTaskRegistry.ContinueDrain | backend/app/acquisition/browser_background_tasks.py:36-84 | each stretch of a drain is the machine's step |
| Socks5.ClientRequestIsSelfDelimiting | backend/app/acquisition/browser_proxy_bridge.py:243-274 | unless the stream ends first, bytes that follow change neither the request, nor the bytes used, nor the answers written |
| Socks5.FormatIsRead | backend/app/acquisition/browser_proxy_bridge.py:243-274 | every greeting that offers no authentication followed by a connect request of RFC 1928 is read, as exactly its fields |
| Socks5.ReadIsFormat | backend/app/acquisition/browser_proxy_bridge.py:243-274 | only such texts are read |
| Socks5.PortOfRequest | backend/app/acquisition/browser_proxy_bridge.py:225-227 | the port is that of the last two bytes read, in network byte order |
| Socks5.DigitsReadBack | backend/app/acquisition/browser_proxy_bridge.py:229-233 | the port's digits in the validation URL read as its number |
| Socks5.ResponseIsSelfDelimiting | backend/app/acquisition/browser_proxy_bridge.py:311-318 | the same for an upstream's reply |
| Socks5.EmitReproducesRequest | backend/app/acquisition/browser_proxy_bridge.py:235-240 | writing a request without a host gives exactly the bytes it was read from |
| Socks5.AddressRoundTrip | backend/app/acquisition/browser_proxy_bridge.py:321-343 | packed addresses of both types go through text and back unchanged |
| Socks5.HostRoundTripIff | backend/app/acquisition/browser_proxy_bridge.py:321-343 | a host that encodes decodes back to itself if and only if it is spelled canonically, and an IP literal keeps its address however it is spelled |
| Socks5.ReadAddressDecodesIff | backend/app/acquisition/browser_proxy_bridge.py:321-382 | types 1 and 4 always decode and encode back to the same bytes; type 3 decodes if and only if its name does, and then encodes back to the same bytes if and only if the text is no IP literal and the name encodes to the same bytes |
| Socks5.DomainThatIsAnAddress | backend/app/acquisition/browser_proxy_bridge.py:333-343 | the name 127.0.0.1 is encoded as four packed bytes of type 1 |
| Socks5.NameThatDoesNotDecode | backend/app/acquisition/browser_proxy_bridge.py:326-329 | a one-byte name outside ASCII is read and does not decode |
| Socks5.RewriteReadsBack | backend/app/acquisition/browser_proxy_bridge.py:235-240 | a request rewritten to a host that encodes reads back in full to that host's address with the same version, command, reserved byte and port, and an IP literal to the same IP address |
| Socks5Bridge.HandleClient | backend/app/acquisition/browser_proxy_bridge.py:128-216 | relays if and only if every earlier step succeeded, decoding the target's host and validating its URL included; then the actions are exactly selection, validation, connection, (authentication, request with the first validated address, zero reply,) success to the client, byte for byte the upstream's; the direct path connects to the port of the request's last two bytes; otherwise the client is told a refusal; only the first resolved address is connected |
| Socks5Bridge.ReadRequestFromClient | backend/app/acquisition/browser_proxy_bridge.py:243-274 | the reader decides and answers as the byte-level description does |
| Socks5Bridge.AuthenticateUpstream | backend/app/acquisition/browser_proxy_bridge.py:277-308 | succeeds if and only if the upstream's bytes accept, having written exactly the offer and the credentials asked for |
| Socks5Bridge.AuthenticationCases | backend/app/acquisition/browser_proxy_bridge.py:277-308 | which answers of the upstream accept the bridge, case by case |
| Socks5Bridge.CredentialsReadBack | backend/app/acquisition/browser_proxy_bridge.py:293-308 | the credentials message determines user name and password |
| CookieSelection.SelectHttpCookiePairs | backend/app/acquisition/cookie_http_export.py:110-125 | every candidate name exactly once, in order of first candidate, with the value of the candidate with the greatest (domain length, path length), the latest among ties |
| CookieSelection.SelectionIsUnique | backend/app/acquisition/cookie_http_export.py:110-125 | that description admits one answer only |
| CookieSelection.HttpCookiePairsForUrl | backend/app/acquisition/cookie_http_export.py:72-87 | the selection over the jar's eligible cookies, in jar order |
| CookieSelection.ScoreIsSpecificity | backend/app/acquisition/cookie_http_export.py:90-107 | for one request the winner's domain lies inside the loser's, then its path does; a tie means the same domain and path |
| CookieSelection.EligibleIff | backend/app/acquisition/cookie_http_export.py:90-107 | who is eligible, in the terms of section 5.1.4 of RFC 6265 for paths, and with which trimmed name and value |
| CookieSelection.PathMatchIsRfc6265 | backend/app/acquisition/cookie_http_export.py:145-155 | path match coincides with section 5.1.4 of RFC 6265 on the trimmed paths |
| CookieSelection.DomainMatchIsRfc6265 | backend/app/acquisition/cookie_http_export.py:140-142 | domain match coincides with section 5.1.3 of RFC 6265 but for IP addresses that end in the domain after a dot |
| CookieSelection.DomainMatchInstances | backend/app/acquisition/cookie_http_export.py:140-142 | a domain reaches its subdomains, with and without a leading dot; and an address that differs from RFC 6265 |
| CookieSelection.PathMatchIsAnOrder | backend/app/acquisition/cookie_http_export.py:145-155 | path match is reflexive, transitive and, up to trimming, antisymmetric |
| CookieSelection.MatchingDomainsAreNested | backend/app/acquisition/cookie_http_export.py:140-142 | domains that match one host are nested, equal when equally long |
| LastWins.DedupKeepsTheLast | backend/app/acquisition/cookie_store.py:553-572 | one element per key, the last one stored; no other element and no missing key |
| LastWins.PlacesStay | backend/app/acquisition/cookie_store.py:553-572 | storing more never moves a key that is already there |
| CookieNormalization.NormalizeCookies | backend/app/acquisition/cookie_store.py:553-572 | the dictionary loop computes the last-wins list |
| CookieNormalization.NormalizedIff | backend/app/acquisition/cookie_store.py:553-572 | a cookie is in the list if and only if some row is kept as it and no later kept row has the same trimmed lower-case name, the same trimmed lower-case domain (or address), and the same trimmed path |
| CookieNormalization.KeptIff | backend/app/acquisition/cookie_store.py:575-590 | which rows are kept, and with which fields, in the row's own fields |
| CookieNormalization.DropNulsIs | backend/app/acquisition/cookie_store.py:651-654 | cleaning a text removes its NULs and nothing else |
| CookieNormalization.IdempotentIff | backend/app/acquisition/cookie_store.py:553-590 | at a fixed time, normalising is idempotent if and only if no row that is the last of its key has a field made only of NULs, and always from the second time on |
| CookieNormalization.NulFieldGoesLater | backend/app/acquisition/cookie_store.py:575-580 | a cookie whose path is one NUL is normalised differently the second time |
| CookieNormalization.EmptyFieldIff | backend/app/acquisition/cookie_store.py:575-580 | cleaning leaves an empty field if and only if the raw cookie has a field made only of NULs |
| CookieNormalization.NormalizeAfterNormalize | backend/app/acquisition/cookie_store.py:553-590 | normalising a normalised list now and again later equals doing so later only |
| CookieStores.KeyDecodes | backend/app/acquisition/cookie_store.py:625-641 | a storage key decodes to the domain and engine it was made of |
| CookieStores.KeysAreDistinct | backend/app/acquisition/cookie_store.py:472-484 | storage keys are equal only for equal engines and domains |
| CookieStores.DomainCookieMemory.UpsertDomainStorageState | backend/app/acquisition/cookie_store.py:347-379 | leaves the row alone if and only if the fingerprint is unchanged, otherwise writes it, and touches no other row |
| CookieStores.DomainCookieMemory.PersistStorageStateForDomain | backend/app/acquisition/cookie_store.py:292-344 | the new table for every input, refused ones included |
| CookieStores.DomainCookieMemory.LoadStorageStateForDomain | backend/app/acquisition/cookie_store.py:167-216 | gives back the first usable row's cookies, nothing if and only if no row is usable or the user is invalid |
| CookieHistory.TableMirrorsLastSaves | backend/app/acquisition/cookie_store.py:292-379 | after any history every key holds what the last accepted save under it left, whether that save wrote or was skipped |
| CookieHistory.LoadReturnsLookedUp | backend/app/acquisition/cookie_store.py:167-216 | a load for a user, engine and domain gives back exactly what is left of the cookies last saved for that user, that engine and the domain it looks under, and never those of another |
| CookieHistory.LoadReturnsLastSave | backend/app/acquisition/cookie_store.py:167-216 | so it gives back the last save for the same domain: always for the default engine with the caller's session, and otherwise when the host has at most two leading www labels |
| CookieHistory.SavedComesBack | backend/app/acquisition/cookie_store.py:167-344 | a save that names its engine comes back to it, where loads and saves meet, as long as one of its cookies is still kept |
| CookieHistory.RecalledIff | backend/app/acquisition/cookie_store.py:511-590 | what comes back are the rows kept then, not replaced by a later one, and still kept now |
| CookieHistory.UnscopedLoadReturnsLastWritten | backend/app/acquisition/cookie_store.py:187-216 | a load that names no engine gives back what is left of one engine's last save, that of the engine whose row was written last among those with something left, and nothing if and only if nothing is left for any |
| CookieHistory.StampIsLastWrite | backend/app/acquisition/cookie_store.py:347-379 | each row is as the save that last wrote it left it, stamp included |
| CookieHistory.SkippedIff | backend/app/acquisition/cookie_store.py:347-379 | an accepted save changes nothing if and only if the save that last wrote its row was fingerprinted from the same cookies and tag |
| CookieHistory.LastSaveIsNewestIff | backend/app/acquisition/cookie_store.py:355-379 | the last accepted save has the newest row if and only if it was not skipped or its row was the newest already |
| CookieHistory.RecalledAtOnceIff | backend/app/acquisition/cookie_store.py:511-572 | at the time of the save that is exactly the normalised list if and only if no row that is the last of its key has a field made only of NULs |
| CookieHistory.LastForNamesItsEngine | backend/app/acquisition/cookie_store.py:608-622 | for an engine other than the default one the last save always matches |
| CookieHistory.TaggedSaveHidesDefault | backend/app/acquisition/cookie_store.py:608-622 | two saves after which the default engine gets nothing |
| CookieHistory.LookupMeetsSaveIff | backend/app/acquisition/cookie_store.py:472-508 | for every engine, and with or without the caller's session, loads look where saves go if and only if the engine is the default one and the session the caller's, or the host has at most two leading www labels (and the filed domain is not empty) |
| CookieHistory.RepeatedWwwIsNotFound | backend/app/core/domain_utils.py:24-60 | a host with three labels, for which they do not meet in either of the two ways |
| Scoring.ScoreSurface | backend/eval/score.py:98-221 | lists of different lengths are refused; otherwise the report holds, per field, the sizes of largest common bags of all aligned pairs as TP and what either side has beyond them as FP and FN, their totals, the grounding counts and the record counts |
| Scoring.FieldMetrics.CountFieldMatches | backend/eval/score.py:84-95 | TP grows by the size of a largest bag of values that both lists hold, FP and FN by what each list has beyond it |
| Scoring.CountRecord | backend/eval/score.py:152-164 | one aligned pair adds its comparison to every field of either record, in any order of names |
| Scoring.GroundRecord | backend/eval/score.py:166-173 | counts the values of a record and those absent from the page, in any order of names |
| Scoring.ContainsIff | backend/eval/score.py:170-173 | a value counts as grounded if and only if it occurs somewhere in the page |
| Scoring.SharedIsLargest | backend/eval/score.py:90-95 | the matches of two lists are a largest common bag: none is larger |
| ScoringCounts.ExactCounts | backend/eval/score.py:140-150 | the exact matches are the number of equal aligned pairs |
| ScoringCounts.UngroundedCounts | backend/eval/score.py:169-173 | the misses of a list are the number of its values that occur nowhere in the page |
| ScoringCounts.NoneMissedIff | backend/eval/score.py:166-173 | there are no hallucinations if and only if every emitted value occurs in its page |
| ScoringCounts.TallyCounts | backend/eval/score.py:130-138 | the boundary count is the number of fixtures with equal record counts, and the record counts are those of all records |
| ScoringLaws.CountsAreConserved | backend/eval/score.py:141-177 | the two loops agree: TP plus FP is the emitted value count, TP plus FN the number of expected values |
| ScoringLaws.RatesAreInUnit | backend/eval/score.py:175-197 | all rates lie between zero and one |
| ScoringLaws.SwapExchangesPrecisionAndRecall | backend/eval/score.py:98-221 | exchanging produced and expected exchanges precision and recall, and FP and FN of every field, and keeps TP, exact matches and the boundary rate |
| ScoringLaws.FullExactRateIff | backend/eval/score.py:140-150 | the exact-match rate is one if and only if all aligned records are equal, and then precision and recall are one |
| ScoringLaws.PerfectIff | backend/eval/score.py:175-182 | precision and recall are both one if and only if in every field the aligned records hold the same values in any order |
| ScoringLaws.ExactIsPerfectInShape | backend/eval/score.py:140-164 | the exact-match rate is one if and only if precision and recall are one and every aligned pair has the same names, kinds of value and order |
| ScoringLaws.MissingRecordIsExact | backend/eval/score.py:140-150 | one expected record without fields and none produced: an exact-match rate of one |
| ScoringLaws.PerfectIsNotExact | backend/eval/score.py:33-37 | a value and a list of that one value match perfectly without being equal |

## Left out

- CookieHistory.LoadReturnsLastSave: assumes that no two saves of the history collide in their digest, that the clock does not go back, that filed domains do not themselves read as keys with an engine, and, where the session or the engine makes a load normalise more often, that reading the host out of a bare host gives it back.
- CookieHistory.TableMirrorsLastSaves: rows are values in a map from user and key; sessions, transactions and the unique index of the table are not modelled, and encryption and JSON are taken as exact inverses.
- CookieSelection.HttpCookiePairsForUrl: the URL is given as scheme, host and path; parsing it is not part of this model, and lower-casing covers ASCII letters only.
- CookieStores.DomainCookieMemory.LoadStorageStateForDomain: the query is a given list of the matching rows, latest update first.
- RuntimePool.BrowserRuntimePool.EvictIdleBrowserRuntimesLocked: a pool holds entries as values, so two names for one runtime object are not modelled; a runtime's busy count and last use change through the machine's events.
- Socks5Bridge.HandleClient: the answers of the validator, of connecting and of the upstream are given beforehand; the bytes relayed afterwards are not modelled.
- Socks5.HostRoundTripIff: reading and writing IP literals and IDNA names are arbitrary functions, assumed only to read every packed address back from its own text.
- Cookie fields that hold lists or objects, and origin state, which the settings switch off.
- The runtime's driver and bridge handles and the launch arguments: the model has the browser only. A launch cancelled after the driver started leaves the driver's handle set without a browser, and the next launch overwrites it.
- The real clock, and how long a wait lasts: a timeout or a cancellation may end any wait that allows one.
- Listener attachment, endpoint classification, header filtering and streamed component payloads in the capture.
- Page navigation, screenshots, challenge recovery, browser identity and readiness scoring: foreign calls and heuristics.
- Run-scoped storage state, exports of the cookie list, and run-to-user lookups: the same normalisation without the keys.
- Floating-point rounding of the scorer's rates, and the loader of its corpus.
- Rate limiters, middleware, task queue, schema and frontend.
