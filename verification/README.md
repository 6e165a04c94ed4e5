# A verified model of the webcrawl fetch server

webcrawl is a C++ fetch server (`base/`, `Fetcher/`) with a Java driver (`Spider/`). Clients post download tasks; the
server resolves each task's host through a caching resolver, hands the task to an event loop, lets curl do the transfer,
and reports finished tasks when polled. This project models the server's own logic in Dafny and proves what it keeps over
all runs. The outside world (DNS answers, curl completions, client requests, time, random numbers) appears as
nondeterministic steps and parameters.

| file | what it models |
|---|---|
| `Names.dfy` | shared types, the log of callback invocations, first and last parts of a run |
| `Resolver.dfy` | the caching, coalescing resolver, and the uncached reference it agrees with |
| `Ares.dfy` | its c-ares variant, which may launch several queries for one name |
| `EventServer.dfy` | the asynchronous queue of the libevent loop wrapper |
| `CrawlContext.dfy` | a task and the accumulation of its response body |
| `Pipeline.dfy` | the whole life of a task as one state machine; where a task is |
| `PipelineProgress.dfy` | the termination measure with polls going on, and why no task is stuck |
| `PipelineDns.dfy` | which addresses transfers use, which tasks are dropped; the resolver inside the server |
| `PipelineOrder.dfy` | in which order tasks are resolved, listed and reported; which address each draws |
| `Fetcher.dfy` | the fetcher object: methods on real task objects that refine the pipeline's steps |
| `Sockets.dfy` | the loop's handles and curl's socket and timer callbacks |
| `UvEventServer.dfy` | handle ownership in the libuv loop wrapper |
| `Uri.dfy` | the regular expression of the URI parser under backtracking, and the round trip |
| `Base64.dfy` | base 64 as regrouping of a bit stream, with padding |
| `Permgen.dfy` | the in-place recursive permutation generator |
| `Scheduler.dfy` | the scheduler's alternating scans and its retrying fetch |

Each component that updates state in place has a class (or a method on an array) whose contracts tie the new state to a
step function of the old one; the theorems are lemmas about runs of those step functions. `Legal` says which runs the
environment can produce, `After` gives the state after a run.

`dafny verify dfyconfig.toml` checks everything.

What the proofs brought to light, each stated as a lemma:

- A task whose DNS lookup fails is finished but never reported (`Pipeline.ReportedOnceWhenDone`;
  `PipelineDns.DroppedIffLookupFailed` says which tasks these are), although `Fetcher/Fetcher.h:54` shows an error
  "Cannot resolve host" in a poll's answer.
- `http://medium.com/@user` puts `user` into the host and `medium.com/` into the user name, because a user name may contain
  anything but `:` (`Uri.AtInPathIsStolen`); `http://h?q` puts `h?q` into the host, because the host class contains `?`
  and `#` (`Uri.QueryWithoutPathIsSwallowed`). `Uri.RoundTripExactly` says exactly when groups do not come back, by
  conditions on the characters of the text.
- A request of curl to delete its timer is ignored (`Sockets.TimerFollowsRequestsIff` gives the exact cases in
  which the timer is not armed as curl wants it).
- Calls to the c-ares resolver before the worker's first drain each launch a query, and each successful answer
  appends its addresses once more (`Ares.DuplicateQueriesDuplicateAddresses`).
- In the libuv wrapper a second poll for a live descriptor loses the first (`UvEventServer.SecondPollLosesTheFirst`),
  `stop` aborts the process while any handle is closing (`UvEventServer.AbortsIff`), and work queued
  while `stop` waits in the batch is stranded (`UvEventServer.WorkBehindStopIsStranded`).
- Text that base 64 cannot have produced may make the decoder read past its input or pop an empty buffer
  (`Base64.DecodeOutcome` gives the exact conditions).
- A table row whose key is not a valid URI stops the scheduler: it is requested for ever, and no row after it is fetched
  (`Scheduler.RoomsAndInvalidUrisDecide`).

## Model

| member | source | states |
|---|---|---|
| Resolver.AgreesWithReference | base/Resolver.cpp:71-140 | over every legal run the resolver makes exactly the invocations, in the same order with the same arguments, of a resolver without phases, queues or stored entries, defined from the history alone |
| Resolver.CacheServesExactlyFreshSuccesses | base/Resolver.cpp:77-97 | a call is answered at once if and only if the latest reply for its name succeeded and has not expired, and then with that reply's addresses; a failure is never served from the cache |
| Resolver.SingleFlightAlways | base/Resolver.cpp:82-98 | a name has exactly one query queued or launched while it is being resolved and none otherwise, and callers wait exactly then |
| Resolver.EntryReflectsHistory | base/Resolver.cpp:111-139 | a stored entry holds the waiting callers, the addresses of the latest success, and, when finished, the latest reply; a failed entry is always past its expiry |
| Resolver.ExactlyOnceInOrder | base/Resolver.cpp:71-139 | per name, the calls made are the callbacks invoked followed by those still waiting, in call order: none lost, none run twice |
| Resolver.WaitersHaveAQuery | base/Resolver.cpp:89-98 | whoever waits has a query queued or launched for its name |
| Resolver.Resolver.Resolve | base/Resolver.cpp:71-99 | the method's new state and invocations are those of the call step |
| Resolver.Resolver.EvCb | base/Resolver.cpp:133-139 | the wake-up loop launches one query for each queued name and empties the queue |
| Resolver.Resolver.OnReply | base/Resolver.cpp:104-131 | the reply handler stores the answer, invokes every waiting callback in order and marks the entry done |
| Ares.AgreesWithReference | base/Ares.cpp:63-128 | for any order of replies the invocations are those prescribed by the history of each name |
| Ares.EntryReflectsHistory | base/Ares.cpp:63-128 | one queued query per call before the drain, all launched by that drain, nobody waiting after the first reply |
| Ares.ExactlyOnceInOrder | base/Ares.cpp:63-118 | every call's callback is delivered once or still waiting, in call order, however many queries its name has |
| Ares.OneBatchOfQueries | base/Ares.cpp:120-128 | after its first drain a name is never queued again, its queries are as many as its calls before that drain, and it is done from the first reply on |
| Ares.SingleQueryServesItsReply | base/Ares.cpp:92-117 | with one early call, later calls get exactly the reply's addresses and status |
| Ares.CachedAnswer | base/Ares.cpp:78-80 | a call is answered at once if and only if a reply came, with the addresses of all successful replies and the latest status |
| Ares.DuplicateQueriesDuplicateAddresses | base/Ares.cpp:94-100 | two early calls and two equal successful replies: the address is served twice |
| Ares.Ares.Resolve | base/Ares.cpp:63-82 | the method's new state and invocations are those of the call step |
| Ares.Ares.LaunchNewTasks | base/Ares.cpp:121-128 | one round of the worker launches a query for every queued task, duplicates included |
| Ares.Ares.OnReply | base/Ares.cpp:85-118 | the reply handler appends the addresses, invokes every waiting callback and empties the list |
| EventServer.RunInOrder | base/EventServer.cpp:23-31 | the callbacks added are, in order, those run, the rest of the current batch and the queue, also when running callbacks add more; a swap only finds an empty batch |
| EventServer.NoLostWakeup | base/EventServer.cpp:58-62 | while anything added has not run, the loop has a step to take |
| EventServer.StepSound | base/EventServer.cpp:23-31 | queued work has the event active or a drain begun and not yet swapped; kept by every step |
| EventServer.EventServer.AddAsync | base/EventServer.cpp:58-62 | the callback goes to the end of the queue and the event becomes active |
| EventServer.EventServer.Swap | base/EventServer.cpp:24-28 | the whole queue becomes the batch |
| EventServer.EventServer.TakeNext | base/EventServer.cpp:29 | the callback run next is the first of the batch |
| CrawlContext.BodyIsAPrefixOfTheStream | Fetcher/Fetcher.cpp:36-44 | the body is the concatenation of a prefix of the chunks, the shortest one above the limit if any is; it is marked truncated exactly when chunks were dropped |
| CrawlContext.UntruncatedBodyIsComplete | Fetcher/Fetcher.cpp:36-44 | an unmarked body is the whole stream, and a body exceeds the limit by at most its last chunk |
| CrawlContext.TruncatedBodyIsFinal | Fetcher/Fetcher.cpp:38-39 | once marked, the body never changes |
| CrawlContext.SmallBodyIsComplete | Fetcher/Fetcher.cpp:36-44 | a body of up to 4194304 bytes is stored whole and unmarked, however it is cut into chunks |
| CrawlContext.LargeBodyIsCut | Fetcher/Fetcher.cpp:38-39 | once the body is larger than that, the next chunk is dropped and the body marked |
| CrawlContext.CrawlContext.WriteBody | Fetcher/Fetcher.cpp:36-44 | the callback claims the whole chunk and updates the body as the stream semantics says |
| Pipeline.ExactlyOnePlace | Fetcher/Fetcher.cpp:72-194 | in every reachable state a created task is in exactly one place: not yet added, in the resolver, in the loop, in the task list, reported, or dropped |
| Pipeline.ReportedOnceWhenDone | Fetcher/Fetcher.cpp:176-191 | no task is reported twice, or before it is done, or when its lookup failed, and a reported task has left the list |
| Pipeline.HandlesMatchUnfinishedTasks | Fetcher/Fetcher.cpp:274-303 | curl has one handle for a task exactly while the list owns it unfinished: the context a completion reads is always still owned, whatever polls rebuilt the list |
| Pipeline.TwoPollsRestoreOrder | Fetcher/Fetcher.cpp:179-189 | a second poll with nothing newly done reports nothing and puts the unfinished tasks back into their order |
| Pipeline.ReportTracked | Fetcher/Fetcher.cpp:179-189 | a poll moves the finished tasks, as often as they occur and no others, from the list to the report |
| Pipeline.StepTracked | Fetcher/Fetcher.cpp:72-194 | every step of any thread keeps a task in one place, and curl's handles and the done flag in agreement with that place |
| Pipeline.StepWellFormed | base/Resolver.cpp:71-140 | every step of the server keeps single flight for all names and no wake-up of the loop lost |
| Pipeline.DispatchSuccess | Fetcher/Fetcher.cpp:86-88 | all tasks that wait for one successful reply are queued for the loop, in order |
| Pipeline.DispatchFailure | Fetcher/Fetcher.cpp:79-85 | all tasks that wait for one failed reply are done and dropped |
| PipelineProgress.StepDecreases | Fetcher/Fetcher.cpp:72-194 | every step that is not a client's request strictly decreases the measure: the distance of all tasks from their end plus the pending wake-ups and queries |
| PipelineProgress.RunsWithPollsEnd | Fetcher/Fetcher.cpp:72-194 | once task creation has stopped, the server takes at most as many steps as the measure says, and four more for each poll, wherever polls come in between |
| PipelineProgress.PollMeasure | Fetcher/Fetcher.cpp:172-194 | a poll moves no task and raises the measure by at most four |
| PipelineProgress.StepMovesOrKeeps | Fetcher/Fetcher.cpp:72-194 | every step that moves a task, a report that finds a finished one included, strictly decreases the tasks' part of the measure; every other step but creation leaves it as it is |
| PipelineProgress.MinimumMeansAllEnded | Fetcher/Fetcher.cpp:72-194 | the tasks' part of the measure is zero if and only if every created task is reported or was dropped |
| PipelineProgress.DistanceZeroIff | Fetcher/Fetcher.cpp:72-194 | the same for a single task |
| PipelineProgress.UnfinishedTaskIsServed | Fetcher/Fetcher.cpp:72-194 | no task is ever stuck: until it is reported or dropped, the step that it waits for at its place can be taken |
| PipelineProgress.NextReportEndsTheDone | Fetcher/Fetcher.cpp:172-194 | whatever other steps, polls and creations come in between, the next answer to a poll leaves every task that was done before reported once, or dropped, and never both |
| PipelineProgress.QuiescentIffNothingEnabled | Fetcher/Fetcher.cpp:72-194 | the server stops only when no thread has anything to do |
| PipelineProgress.QuiescentMeansSettled | Fetcher/Fetcher.cpp:72-194 | when it stops, every task is reported, dropped, or done and waiting for a poll; nothing is left in the queue |
| PipelineDns.TransfersUseTheirHostsAddress | Fetcher/Fetcher.cpp:86-127 | every transfer uses an address that a successful DNS reply gave for the task's own host |
| PipelineDns.ResolverRunsLegally | Fetcher/Fetcher.cpp:138-140 | the server drives the resolver through legal runs only, so that all its guarantees hold in the server |
| PipelineDns.CachedTasksStart | Fetcher/Fetcher.cpp:75-88 | adding a task never drops it; it is queued at once, with an address of the latest reply, exactly when that reply is a fresh success |
| PipelineDns.DroppedIffLookupFailed | Fetcher/Fetcher.cpp:79-85 | a task is dropped if and only if a failed reply for its host came while it waited in the resolver |
| PipelineOrder.ResolvedInCreationOrder | Fetcher/Fetcher.cpp:138-164 | the resolver is called once for each created task, in the order of creation; the rest are still arriving, in that order |
| PipelineOrder.DrawsSelectAddresses | Fetcher/Fetcher.cpp:86 | on a successful reply the i-th waiting task gets the address at the i-th random draw, modulo the number of addresses |
| PipelineOrder.ListedInStartOrder | Fetcher/Fetcher.cpp:134 | until a poll is answered, the task list grows by the started tasks, in the order of their starts |
| PipelineOrder.AnsweredNewestFirst | Fetcher/Fetcher.cpp:179-189 | the answer to a poll holds the finished tasks started since the last one, the latest first, and then the older ones |
| PipelineOrder.PollRunsBackwards | Fetcher/Fetcher.cpp:179-189 | whatever part of the list comes later is dealt with first, in the answer and in the list that remains |
| Fetcher.Fetcher.CreateTasks | Fetcher/Fetcher.cpp:142-170 | a request is admitted if and only if there is room for all its tasks, up to 32768 pending ones, and all its URIs are valid; then each gets its own context, for the host of its URI, and is added in order, and the created tasks grow by exactly those; else the server is unchanged and the answer says which of the two failed |
| Fetcher.Fetcher.MakeContexts | Fetcher/Fetcher.cpp:150-157 | distinct fresh contexts, one for each task, with the hosts of their URIs, or nothing if one URI is invalid |
| Fetcher.HostOfText | Fetcher/Fetcher.cpp:138-140 | the host a task is resolved for is that of the greatest decomposition of its URI; a nonempty URI without one, or with a port beyond int, has none |
| Fetcher.HostOfPlain | base/Uri.cpp:7-34 | for a URI written from its parts it is the host part |
| Fetcher.HostOfEverydayUri | base/Uri.cpp:7-34 | for http and https URIs made of a host and a path of everyday characters it is what stands between the slashes |
| Fetcher.Fetcher.Add | Fetcher/Fetcher.cpp:72-140 | resolving a task, with its callback run at once if the answer is cached, is the pipeline's add step |
| Fetcher.Fetcher.OnResolved | Fetcher/Fetcher.cpp:75-88 | the callback fails the task with the lookup's error text or picks one of the addresses and queues the transfer; nothing of other tasks changes |
| Fetcher.Fetcher.OnDnsReply | base/Resolver.cpp:104-131 | the reply handler with all its callbacks is the pipeline's reply step; a failed reply gives its text to exactly the tasks that wait for the name, and no other text changes |
| Fetcher.Fetcher.OnDnsWakeup | base/Resolver.cpp:133-139 | the wake-up handler is the pipeline's drain step |
| Fetcher.Fetcher.StartTransfer | Fetcher/Fetcher.cpp:88-135 | the loop callback registers one handle and appends the task |
| Fetcher.Fetcher.TakeDone | Fetcher/Fetcher.cpp:180-189 | the loop reports the finished tasks in reverse order and leaves the unfinished ones in reverse order |
| Fetcher.Fetcher.GetDoneTasks | Fetcher/Fetcher.cpp:172-194 | the poll's answer is what the report step adds to the report |
| Fetcher.Fetcher.RunNext | base/EventServer.cpp:29 | running the batch's next callback is the pipeline's step for it |
| Fetcher.Fetcher.Complete | Fetcher/Fetcher.cpp:288-302 | a finished transfer marks its task done, keeps curl's error text if there is one, and gives its handle up |
| Fetcher.Fetcher.CheckMultiInfo | Fetcher/Fetcher.cpp:274-304 | all finished transfers are completed, in the order curl reports them; every task then has the error text of its last message that has one, and its old text otherwise; addresses and bodies stay |
| Sockets.SocketsAreWatchedAsRequested | Fetcher/Fetcher.cpp:196-255 | after any callbacks a socket is attached exactly while curl wants it watched; it then has a read and a write handle of its own in the map, armed as curl last asked |
| Sockets.TimerFollowsRequestsIff | Fetcher/Fetcher.cpp:218-272 | the timer is armed exactly when curl's last request wants it, if and only if neither a request to delete it was ignored nor it was stopped without one since |
| Sockets.StepTimerArmed | Fetcher/Fetcher.cpp:218-272 | a timeout arms the timer, stopping it and its firing disarm it, and nothing else touches it |
| Sockets.StatisticsTimerStaysArmed | Fetcher/Fetcher.cpp:55-56 | the persistent one-second timer is armed in every reachable state; the handle of the async queue never is |
| Sockets.EveryHandleIsOwned | Fetcher/Fetcher.cpp:204-249 | no handle leaks: each is a timer still referred to or one of the two of an attached socket, and their number is exactly that |
| Sockets.RunningHandleOutlivesItsRemoval | base/EventServer.cpp:74-106 | a handle removed from inside its own handler lives until that handler returns; every handle given up is deleted exactly once |
| Sockets.StepValid | Fetcher/Fetcher.cpp:196-272 | every callback keeps handles and owners in one-to-one correspondence |
| Sockets.Watcher.SocketCb | Fetcher/Fetcher.cpp:196-255 | the socket callback's effect on handles and attachments is that of the socket step |
| Sockets.Watcher.TimerCb | Fetcher/Fetcher.cpp:257-272 | curl's timer handle is made once and armed when curl asks |
| Sockets.Watcher.Drop | base/EventServer.cpp:74-79 | the map gives the handle up, and the object goes unless its handler runs |
| Sockets.Watcher.Enter | base/EventServer.cpp:94-106 | the handler's own handle is pinned while it runs |
| Sockets.Watcher.Leave | base/EventServer.cpp:94-106 | a handle that was removed meanwhile is deleted when its handler returns |
| UvEventServer.OpenHandlesAreTheMaps | libuves/EventServer.cpp:27-138 | with distinct live descriptors the loop's open handles are exactly the timers, the polls and the async handle, each being one of them and only one |
| UvEventServer.StepAllOwnedIff | libuves/EventServer.cpp:97-107 | a step keeps every open handle in its map unless, and only unless, it adds a poll for a descriptor that has one |
| UvEventServer.SecondPollLosesTheFirst | libuves/EventServer.cpp:97-107 | after such a step the old handle is open and in no map |
| UvEventServer.EmptyLoopMeansAllDeleted | libuves/EventServer.cpp:170-172 | every handle object is deleted at most once, and all have been when the loop is empty |
| UvEventServer.AbortsIff | libuves/EventServer.cpp:27-36 | libuv aborts if and only if the callback of stop runs while some handle is closing |
| UvEventServer.StopInABusyBatchAborts | libuves/EventServer.cpp:27-36 | a stop in the batch in which another one has run, or a handle was removed, aborts |
| UvEventServer.StopEndsTheLoop | libuves/EventServer.cpp:27-36 | after a stop that passes, the rest of the batch and one close callback for each handle remain, and the maps stay empty |
| UvEventServer.WindingGoesOn | libuves/EventServer.cpp:170-176 | until the loop is empty one of those steps can be taken |
| UvEventServer.WakesAlwaysCome | libuves/EventServer.cpp:38-51 | queued work has a wake-up coming, unless a stop ran with work queued behind it |
| UvEventServer.StepKeepsWakeIff | libuves/EventServer.cpp:38-51 | a step loses a wake-up if and only if it runs stop while work is queued |
| UvEventServer.WorkBehindStopIsStranded | libuves/EventServer.cpp:27-51 | a run that loses a wake-up |
| UvEventServer.NextAddRunsTheStranded | libuves/EventServer.cpp:38-51 | after the next add_async the rest of the batch runs, the loop wakes up, and the stranded work runs before the new, in the order in which it was queued, as far as no stop intervenes |
| UvEventServer.EventServer.AddAsync | libuves/EventServer.cpp:38-51 | the work goes to the end of the queue, with a new handle if there is none |
| UvEventServer.EventServer.CloseAll | libuves/EventServer.cpp:30 | walking the loop closes every handle if none is closing, in any order, and aborts otherwise |
| UvEventServer.EventServer.RunNext | libuves/EventServer.cpp:150 | running the batch's next callback is the model's step, or aborts exactly when that does |
| UvEventServer.EventServer.RemoveTimer | libuves/EventServer.cpp:85-95 | a known timer is closed and forgotten, and every map still refers to open handles |
| UvEventServer.EventServer.RemovePoll | libuves/EventServer.cpp:118-138 | stop_poll and remove_poll both close the handle and forget the descriptor |
| UvEventServer.EventServer.AddPoll | libuves/EventServer.cpp:97-107 | a new handle takes the descriptor's place in the map |
| UvEventServer.RemovedTimerCloses | libuves/EventServer.cpp:85-95 | removing a known timer takes it out of the map and closes its handle; every other handle is as before |
| UvEventServer.RemovedPollCloses | libuves/EventServer.cpp:118-138 | both ways of removing a poll do the same for its descriptor |
| UvEventServer.AddedHandleIsOpen | libuves/EventServer.cpp:53-107 | an added timer or poll has a new open handle, which its map refers to |
| Uri.MatchIsGreatestDecomposition | base/Uri.cpp:10-17 | the backtracking match rejects exactly the strings without a decomposition into groups and delimiters, and otherwise gives the one that beats all others: a user part if possible, then the longest user name, then the longest host |
| Uri.RoundTripIffUnbeaten | base/Uri.cpp:10-17 | rendered groups match back to themselves exactly when no other decomposition of the text beats them |
| Uri.RoundTripExactly | base/Uri.cpp:10-17 | this is so exactly when no '@' of the text ends a longer user name with a host after it, and the host cannot take a piece of the text after it |
| Uri.AtInPathIsStolen | base/Uri.cpp:10-24 | an '@' in the path moves the host: what stood before it becomes the user name |
| Uri.DelimitedHostRoundTrips | base/Uri.cpp:10-17 | a host followed by a port, a path or nothing is never extended |
| Uri.QueryWithoutPathIsSwallowed | base/Uri.cpp:10-24 | a query directly after the host becomes part of the host |
| Uri.RoundTripUnlessStolen | base/Uri.cpp:7-34 | a URI record whose parts fit their character classes, rendered with its port and parsed, comes back field by field if and only if no '@' in it ends a longer user name with a host after it |
| Uri.RoundTrip | base/Uri.cpp:7-34 | without '@' in its parts it always comes back |
| Uri.MakeRejects | base/Uri.cpp:15-28 | construction fails on exactly the nonempty strings without a decomposition, and on ports that do not fit an int |
| Uri.MissingPartsAreFilledIn | base/Uri.cpp:18-33 | every accepted text gives the record of its groups: a missing port is 80 for http, 443 for https and 0 otherwise, a missing path is "/", any other missing part is empty |
| Uri.EverydayUri | base/Uri.cpp:7-34 | http and https URIs made of a host and a path of everyday characters are accepted, with that host, that path and the default port |
| Uri.PlainInCharacters | base/Uri.cpp:10 | the records that come back are given by explicit conditions on the characters of their parts |
| Uri.GreedyFindsLongest | base/Uri.cpp:8-10 | a greedy quantifier settles on the longest run of characters whose rest matches |
| Base64.DecodeEncode | base/Base64.cpp:12-25 | decoding what was encoded gives the bytes back, for every byte string |
| Base64.EncodeDecodeIff | base/Base64.cpp:12-25 | encoding what was decoded gives the text back if and only if the text is canonical in the sense of section 3.5 of RFC 4648 |
| Base64.DecodeWithoutPadding | base/Base64.cpp:18-25 | the padding is not needed for decoding |
| Base64.SextetsAreGroups | base/Base64.cpp:13-14 | the regrouped bit stream is, sextet by sextet, what section 4 of RFC 4648 prescribes for each group of three bytes |
| Base64.RegroupKeepsStream | base/Base64.cpp:13-14 | regrouping neither loses nor changes a bit, and leaves less than a unit over |
| Base64.EncodedLength | base/Base64.cpp:15 | four characters for every three bytes begun |
| Base64.EncodedIsCanonical | base/Base64.cpp:12-16 | encoded texts have whole groups, padding at the end only and no bit set that the padding cuts off |
| Base64.AlphabetIsTable1 | base/Base64.cpp:13 | the 64 characters are those of table 1 of RFC 4648, in its order |
| Base64.TestVectors | base/Base64.cpp:12-16 | the vectors of section 10 of RFC 4648 up to one group, and one with the last two characters |
| Base64.DecodeOutcome | base/Base64.cpp:18-25 | when decoding throws, reads past its input or pops an empty buffer, each if and only if, and the length of the result otherwise |
| Base64.Decode | base/Base64.cpp:18-25 | the loop takes off one byte for each trailing padding character |
| Permgen.Permgen | Spider/x.lua:1-18 | the table is restored, and what it held at the yields is what the specification generates |
| Permgen.YieldsExactlyTheRearrangements | Spider/x.lua:1-18 | the yields are exactly the rearrangements of the first n elements with the others untouched, n! in number |
| Permgen.YieldsDistinctIffElementsDistinct | Spider/x.lua:1-18 | no rearrangement is yielded twice if and only if the first n elements are pairwise distinct |
| Permgen.ElementsComeLastInTurn | Spider/x.lua:5-16 | the yields fall into n equal runs, one for each element in order, which comes last in all yields of its run |
| Permgen.YieldsOfThree | Spider/x.lua:40-42 | the six lines that the script prints for three elements, in order |
| Scheduler.GroupIsLastByteParity | Spider/src/main/java/webcrawl/Scheduler.java:34-45 | the group of a row is 0 or 1, the parity of its digest's last byte, also when the long is the smallest one |
| Scheduler.TwoScansFetchEachNewRowOnce | Spider/src/main/java/webcrawl/Scheduler.java:88-109 | a row without download time that two consecutive scans find is fetched by exactly one of them, a downloaded one by neither |
| Scheduler.ScanFetchesItsParity | Spider/src/main/java/webcrawl/Scheduler.java:88-109 | the n-th scan, counted from 0, fetches exactly the rows without download time whose hash has the parity of n, after all earlier scans |
| Scheduler.ScanKeepsOrder | Spider/src/main/java/webcrawl/Scheduler.java:90-105 | a scan fetches its rows in table order |
| Scheduler.Run | Spider/src/main/java/webcrawl/Scheduler.java:79-121 | the rows given a task are the first ones, in scan order, of those the scans want, as many as the server's answers allow |
| Scheduler.FetchFrom | Spider/src/main/java/webcrawl/Scheduler.java:47-76 | against the fetch server itself: the request is repeated until the first one that the server accepts, and no longer; a fetch that returns has created exactly one task, for the host of the row's URI, and the rejected requests none |
| Scheduler.Submit | Fetcher/Fetcher.cpp:142-170 | one such request gains exactly the row's task if there is room and its URI is valid, and else leaves the server unchanged |
| Scheduler.RoomsAndInvalidUrisDecide | Spider/src/main/java/webcrawl/Scheduler.java:60-75 | every request that finds room gives exactly one more wanted row its task, until a row without a valid URI is reached, which blocks all after it |

## Left out

- Callbacks of the resolvers are tokens in a delivery log; callbacks that call `resolve` again would deadlock on the mutex and are not modelled.
- The resolvers' pointers to entries are modelled by the entries' names; entries are never removed, so that these agree.
- The environment: evdns and c-ares answer each launched query once and not from within the launch, with at least one address on success; the clock is monotone and starts positive; curl completes only registered handles and calls the socket callback only with the four requests it documents.
- Steps are atomic: each critical section, loop callback and request of the HTTP thread. The unsynchronised read of the task list's size on the HTTP thread is one such read, so that the list may still exceed its limit by tasks that are being resolved.
- One create request at a time is between admission and its last add; the HTTP server has one thread.
- libevent, evdns, c-ares, curl and libuv themselves; easy-handle options, request headers and the resolve list; logging, statistics and timeouts.
- HTTP, JSON and HBase: requests arrive parsed, tables are sequences of rows, and the memory address used as a task's id is the object itself.
- Redirect URIs, response headers and status codes are stored and not looked at.
- Destruction and shutdown of the fetcher, the resolvers and the libevent wrapper.
- Starting and stopping of libuv timers and polls, which does not change who owns them, and the checks of thread identity.
- Uri: characters are single code units, and '.' excludes line feed and carriage return; the standard library's limit on recursion depth is not modelled.
- Base64: the bit order and end-of-input behaviour of Boost's iterators are modelled as documented for current Boost versions; what C++ leaves undefined is a failure value.
- Permgen: the coroutine's consumer sees the table itself; the model records its content at each yield.
- Scheduler: between two requests of `FetchFrom` the server's loop runs at most one callback; `Run` takes the server's answers from the number of pending tasks at each request. MD5 is the digest each row carries; exceptions other than a rejected request end the Java thread and are not modelled; the load the server is observed under is finite, so that results are about every finite part of a run.
- `Fetcher/libuves/` repeats `libuves/`; `base/HttpServer.cpp`, `Experiment.cpp`, the parser and the character-set detector hold input and output only.
