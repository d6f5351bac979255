# Roast-Bob, modelled in Dafny

Roast-Bob is a Bluesky bot. It reads its mentions and answers them with a generated reply or a
templated roast. It also reads its timeline, asks OpenAI to analyse the posts and keeps the
analyses in a Redis-backed memory. From the feed it ranks trends, and from those trends or from
its memory it writes new posts under its "personality" settings.

This project models the bookkeeping and the selection rules of that bot:

- the sliding-window rate limiter;
- the two mention-answering loops and their processed-uri sets;
- the scheduler's tables;
- the projections and the cursor of the two Bluesky clients;
- the OpenAI retry loop and prompt builder;
- the Redis memory index;
- the trend analyser and the trend researcher;
- the weighted trend choice of the posting service;
- the JSON mention merge;
- the roast templates;
- the configuration checks.

Every external service is an in-memory value or an input. This covers Redis, ChromaDB,
atproto, OpenAI and the file system. The current time, random draws, the outcome of each
collaborator call and the output of each regular expression are explicit parameters.

There is one module per source file, plus three shared ones:

- `Common`: Option/Result and Python's string and slice built-ins;
- `Atproto`: the shapes of the atproto records both clients read;
- `Ranking`: `collections.Counter` and the stable `sorted(..., reverse=True)`.

Where the source updates an object in place, the model uses a class with `modifies` clauses:
the rate limiter, the scheduler, the mention service's `SERVICE_STATE`, the cursor of the
atproto client, the memory store, the trend analyser and researcher, and the mention handler.
Each loop of the source is a method whose `ensures` equates its result with a specification
function, and lemmas prove what the source promises about that function.

Times are whole seconds. Weights and draws are `real`. Whitespace is the set of characters
Python's `str.isspace()` accepts; case folding covers ASCII letters only.

## Model

| member | source | states |
|---|---|---|
| RateLimiting.RateLimiter.constructor | blusky_api/rate_limiter.py:8-11 | starts with the given limit and window and an empty timestamp table |
| RateLimiting.RateLimiter.Default | blusky_api/rate_limiter.py:8 | the default limiter allows 50 requests per 15 minutes |
| RateLimiting.Recent | blusky_api/rate_limiter.py:41-44 | keeps exactly the timestamps strictly after the window start, in their order |
| RateLimiting.RecentSorted | blusky_api/rate_limiter.py:41-44 | pruning a sorted list leaves it sorted |
| RateLimiting.RecentAppend | blusky_api/rate_limiter.py:58-86 | a request recorded inside the window adds exactly one to the recent count |
| RateLimiting.AppendSorted | blusky_api/rate_limiter.py:63 | appending a time no earlier than every entry keeps a list sorted |
| RateLimiting.RateLimiter.Pruned | blusky_api/rate_limiter.py:33-44 | an unseen endpoint gets an empty list; a known one keeps only the timestamps after `now - window`; other endpoints are untouched |
| RateLimiting.RateLimiter.WaitOf | blusky_api/rate_limiter.py:31-56 | no wait for an unseen endpoint or below the limit; at the limit the wait is `oldest + window - now`, skipped when it is not positive; an empty list at a limit ≤ 0 raises IndexError |
| RateLimiting.RateLimiter.WaitIfNeeded | blusky_api/rate_limiter.py:31-56 | the new table is the pruned table and the sleep is `WaitOf` of the old table |
| RateLimiting.RateLimiter.RecordRequest | blusky_api/rate_limiter.py:58-63 | appends exactly one timestamp to the endpoint's list, creating it when missing; nothing else changes |
| RateLimiting.RateLimiter.LimitRequest | blusky_api/rate_limiter.py:14-29 | wait, then the call, then record: a failing wait or call records nothing, and a successful call appends exactly the clock reading taken after it |
| RateLimiting.RateLimiter.RemainingRequests | blusky_api/rate_limiter.py:65-86 | `max_requests` for an unseen endpoint, otherwise `max(0, max - recent)`; it only reads the table |
| RateLimiting.RateLimiter.ResetLimits | blusky_api/rate_limiter.py:88-98 | a truthy endpoint is removed and every other endpoint is kept; no endpoint clears the table |
| RateLimiting.RateLimiter.LimitRequestOrdered | blusky_api/rate_limiter.py:31-63 | with clock readings that never go back, every list stays sorted and holds no future time, so index 0 is the oldest |
| RateLimiting.RateLimiter.PrunedOrdered | blusky_api/rate_limiter.py:41-44 | pruning keeps every list of an ordered table sorted |
| RateLimiting.RateLimiter.FullMeansWait | blusky_api/rate_limiter.py:47-56 | at the limit with a kept request, the wait is strictly positive |
| RateLimiting.RateLimiter.WaitFreesASlot | blusky_api/rate_limiter.py:47-56 | after sleeping the returned time, strictly fewer requests fall in the window |
| RateLimiting.RateLimiter.RecordUsesUpOne | blusky_api/rate_limiter.py:58-86 | while requests remain, recording one lowers the remaining count by exactly one |
| MentionsService.GetParentPost | mentions_service.py:124-136 | the text of the fetched parent, None when none was found; it never fails |
| MentionsService.ProcessMention | mentions_service.py:95-122 | the parent is looked up only for a truthy `reply_to`; the context is the mention's text, parent and author; the reply goes to `reply_to`; the result is True iff generation and posting both succeed |
| MentionsService.RunCycleFacts | mentions_service.py:74-85 | after a cycle the set only grew, by exactly the uris whose processing succeeded; no uri already in the set was attempted; no uri was answered twice; the count equals the number of uris added |
| MentionsService.RunCycleStep | mentions_service.py:74-85 | one more mention extends the cycle: skipped when its uri is in the set, otherwise attempted, and added only on success |
| MentionsService.CycleFactsAttempt | mentions_service.py:78-83 | one attempt on a uri outside the set keeps the cycle facts |
| MentionsService.ProcessBatch | mentions_service.py:73-85 | the loop equals `Batch`: with no Redis fault, or a fault it never reaches, the whole cycle; a fault in `sismember` stops before the mention; a fault in `sadd` comes after the reply is posted and leaves the uri out of the set; a fault in `expire` comes after the uri is added but before it is counted; failure is reported iff the fault is reached |
| MentionsService.BatchFacts | mentions_service.py:73-85 | whatever the fault: the set only grows, gains only uris of successful attempts, no attempted uri was in the set and none is attempted twice; without a lost or uncounted record the cycle facts hold in full; a lost record (`sadd`) is the last attempt, it succeeded and its uri is not in the set; an uncounted record (`expire`) is in the set, and the count is one short of the uris added |
| MentionsService.LostRecordAnswersAgain | mentions_service.py:78-82 | after a `sadd` fault the mention already replied to is attempted again by the next cycle |
| MentionsService.CheckEffect | mentions_service.py:62-93 | the set only grows; a failed fetch only records the error; an empty batch changes nothing; a completed batch sets `last_check` to now and raises the counter by the uris added; a batch ended by a Redis fault records that error and keeps the counter and `last_check` |
| MentionsService.MentionService.constructor | mentions_service.py:31-38 | the initial SERVICE_STATE: not running, no check, no error, nothing processed, no task |
| MentionsService.MentionService.CheckAndProcessMentions | mentions_service.py:62-93 | the new set, counter, `last_check` and error are `CheckEffect` of the old ones; the flag and the task fields are untouched; the attempts are those of `Batch` |
| MentionsService.MentionService.GetStatus | mentions_service.py:174-190 | reports the state; `next_check` is `last_check` + 5 minutes, None without a check |
| MentionsService.MentionService.StartService | mentions_service.py:192-203 | a task is created iff the flag is down, and the flag itself is not raised |
| MentionsService.MentionService.StopService | mentions_service.py:205-216 | when running, lowers the flag and cancels the stored task; otherwise only answers "not running" |
| MentionsService.MentionService.BeginContinuousCheck | mentions_service.py:138-141 | the task raises the flag when it starts to run |
| MentionsService.MentionService.ContinuousCheckTurn | mentions_service.py:143-149 | while the flag is up, one turn has the effect of `CheckEffect` on the state and then sleeps 20 seconds; with the flag down nothing changes and nothing sleeps |
| MentionsService.DoubleStart | mentions_service.py:192-203 | two `/start` requests before the first task runs both create a task |
| BluskyMentions.ShouldProcess | services/blusky_mention_service.py:56-77 | false for an answered uri; for a naive time, true iff the mention is at most 3600 s old; an unparsable time raises ValueError and a time with an offset raises TypeError |
| BluskyMentions.AgeBoundary | services/blusky_mention_service.py:74-77 | a mention exactly 3600 s old is answered; one a second older is not |
| BluskyMentions.ParseDocument | services/blusky_mention_service.py:156 | the unpacking succeeds iff the document splits on the separator into exactly two pieces |
| BluskyMentions.DocumentRoundTrip | services/blusky_mention_service.py:126-156 | a stored document reads back as the text and the response when the text holds no `'|'` character and the response holds no separator |
| BluskyMentions.DocumentMisread | services/blusky_mention_service.py:126-156 | a mention text ending in a space and two bars is read back split at the wrong place |
| BluskyMentions.DocumentWithSeparatorFails | services/blusky_mention_service.py:126-156 | a mention text holding the separator makes the unpacking fail |
| BluskyMentions.Store | services/blusky_mention_service.py:114-136 | adds one document under a fresh id; an id already in the collection is rejected and nothing is added |
| BluskyMentions.StepFacts | services/blusky_mention_service.py:40-106 | one turn keeps the run facts: answered uris were not in the starting set, are in the set now, and are answered once |
| BluskyMentions.RunKeepsFacts | services/blusky_mention_service.py:40-48 | the whole loop keeps the run facts |
| BluskyMentions.RunAfterFailure | services/blusky_mention_service.py:52-54 | once an exception ends the loop, nothing further changes |
| BluskyMentions.RunExtends | services/blusky_mention_service.py:40-48 | the loop keeps the answers it has, first, and the set only grows |
| BluskyMentions.RunComplete | services/blusky_mention_service.py:40-48 | a loop without an exception answers every mention that is the first with its uri, was not answered before, is recent, and gets a non-empty roast and a successful post |
| BluskyMentions.RunInOrder | services/blusky_mention_service.py:40-48 | the answers follow the order of their mentions in the batch |
| BluskyMentions.NoRoastNoAnswer | services/blusky_mention_service.py:89-112 | when every generation raises, nothing is answered, stored or marked processed |
| BluskyMentions.AwareTimestampAbortsRun | services/blusky_mention_service.py:71-72 | an unanswered first mention with a 'Z' or offset timestamp ends the loop with an exception and no answers |
| BluskyMentions.HandleMentionsFacts | services/blusky_mention_service.py:28-54 | a batch answers only fresh uris of the batch, each at most once, in batch order, and the set gains only uris of the batch; without an exception every answerable mention with a fresh uri is answered |
| BluskyMentions.MentionHandler.constructor | services/blusky_mention_service.py:26 | starts with no processed uris and an empty collection |
| BluskyMentions.MentionHandler.HandleMentions | services/blusky_mention_service.py:28-54 | the answers are the answered mentions in input order, or [] after an exception; set and collection updates made before it remain |
| BluskyMentions.MentionHandler.ProcessMention | services/blusky_mention_service.py:79-112 | once a roast is generated, `post_skeet` is called with the roast as text and the mention's own uri as `reply_to`; the uri is added only after the post succeeds; a failure answers None and leaves the set unchanged |
| BluskyMentions.MentionHandler.GetMentionHistory | services/blusky_mention_service.py:138-166 | one entry per document in order; a malformed document or a failed query answers [] |
| Scheduling.StatusOf | services/scheduler.py:53-64 | "not found" iff the name is unknown; otherwise `next_run = last_run + interval` minutes, and "running" iff the scheduler runs |
| Scheduling.Scheduler.constructor | services/scheduler.py:8-13 | empty tables and the flag down |
| Scheduling.Scheduler.ScheduleTask | services/scheduler.py:15-33 | records the interval and `last_run = now`, and stores a new live task under the name, looping over that name and interval |
| Scheduling.Scheduler.Tick | services/scheduler.py:20-30 | a turn of a live task's loop only; with the flag down the loop ends for good and the task is no longer live; otherwise success moves its name's `last_run` to now, failure leaves it, and the sleep is one interval |
| Scheduling.Scheduler.Start | services/scheduler.py:35-38 | only the flag changes |
| Scheduling.Scheduler.Stop | services/scheduler.py:40-51 | lowers the flag, cancels and forgets every task so that none of them is live, and keeps intervals and last runs |
| Scheduling.Scheduler.GetTaskStatus | services/scheduler.py:53-64 | the status of the current tables |
| Scheduling.StoppedTaskIsStillKnown | services/scheduler.py:40-64 | a task scheduled and then stopped reports "stopped", not "not_found" |
| Scheduling.RestartRevivesNoTask | services/scheduler.py:35-51 | `start` after `stop` leaves the cancelled task dead and its last run where scheduling put it |
| Scheduling.NextRunAfterTick | services/scheduler.py:24-58 | a successful run moves `next_run` one interval past its finishing time |
| BlueskyClient.ExtractReplyData | clients/bluesky_client.py:113-125 | parent and root uris for a reply, None for a post that is not one |
| BlueskyClient.ToMention | clients/bluesky_client.py:50-63 | the mention record carries the notification's uri, cid, time, author and text, and reply data as extracted |
| BlueskyClient.MentionsOfAppend | clients/bluesky_client.py:236-255 | the projection of a concatenation is the concatenation of projections |
| BlueskyClient.MentionsOfIsFilteredProjection | clients/bluesky_client.py:236-255 | the k-th projected mention is the k-th notification whose reason is "mention" |
| BlueskyClient.ToFeedItem | clients/bluesky_client.py:277-288 | the feed record carries the post's uri, cid, author, text, time and reply data |
| BlueskyClient.FeedItemsOf | clients/bluesky_client.py:275-289 | one record per timeline item, in order |
| BlueskyClient.ParseAtUri | clients/bluesky_client.py:101-111 | the third '/'-piece and the last piece; fewer than three pieces raise "Invalid AT URI format" |
| BlueskyClient.ParsePostUri | clients/bluesky_client.py:101-182 | a post uri built from a DID and a record key without '/' parses back to both |
| BlueskyClient.PostUriPieces | clients/bluesky_client.py:105-182 | a post uri splits into "at:", "", the DID, the collection and the record key |
| BlueskyClient.CreatedPostUriParses | clients/bluesky_client.py:182-198 | the uri `post_skeet` returns parses back to the account DID and the record key of the answer |
| BlueskyClient.GetPost | clients/bluesky_client.py:195-224 | None when the uri does not parse, the lookup fails or no record comes back; otherwise the post under the asked uri, with the uri's DID as author |
| BlueskyClient.Client.constructor | clients/bluesky_client.py:12-24 | a logged-in client with the DID login answered, and no cursor |
| BlueskyClient.Client.GetMentions | clients/bluesky_client.py:231-263 | the live variant: mention notifications only, in order, at most `limit`; errors are re-raised |
| BlueskyClient.Client.GetMentionsWithCursor | clients/bluesky_client.py:32-76 | the request carries the cursor iff it is truthy; afterwards the cursor is the response's, even None, and it is returned with the mentions |
| BlueskyClient.Client.SetCursor | clients/bluesky_client.py:85-88 | the cursor is overwritten |
| BlueskyClient.Client.GetCursorState | clients/bluesky_client.py:78-83 | reports the stored cursor and the time |
| BlueskyClient.Client.PostSkeet | clients/bluesky_client.py:146-188 | a truthy `reply_to` with a found post gives a reply reference whose root and parent are both that post; the result is `at://<did>/app.bsky.feed.post/<last segment>`; errors are re-raised |
| BlueskyClient.Client.GetFeed | clients/bluesky_client.py:270-297 | every timeline item, in order, at most `limit`; errors are re-raised |
| BlueskyClient.CollectMentions | clients/bluesky_client.py:236-255 | the append loop builds exactly the projected mentions |
| BlueskyClient.GetMentionsBounded | clients/bluesky_client.py:237-259 | at most `limit` records, each the projection of the matching mention notification, in page order |
| BluskyApiClient.MentionItemsDefined | blusky_api/client.py:44-52 | the comprehension succeeds iff every mention notification has a text |
| BluskyApiClient.MentionItemsProjected | blusky_api/client.py:44-52 | one item per mention notification, in order, with author handle, text, uri and time |
| BluskyApiClient.MentionItemsSpec | blusky_api/client.py:44-52 | both of the above together |
| BluskyApiClient.GetMentions | blusky_api/client.py:40-57 | at most `limit` items from mention notifications; errors are re-raised |
| BluskyApiClient.GetMentionsFromMentions | blusky_api/client.py:44-53 | the k-th item comes from the k-th mention notification |
| BluskyApiClient.FeedItems | blusky_api/client.py:60-68 | one item per timeline entry in order, or failure when some entry has no text |
| BluskyApiClient.GetFeed | blusky_api/client.py:59-75 | `min(limit, n)` items in feed order; any item without text, even one beyond `limit`, fails the call, and a feed whose items all have text succeeds; errors are re-raised |
| BluskyApiClient.PostSkeet | blusky_api/client.py:30-38 | sends the text and reply target unchanged, returns the created uri, and re-raises a failure |
| OpenAiClient.BasePrompt | clients/openai_client.py:33-36 | the persona, with the roast line appended iff roast mode is on |
| OpenAiClient.CreatePrompt | clients/openai_client.py:31-44 | a "Parent Post:" line iff the parent is truthy, then "Responding to:" and the post |
| OpenAiClient.CreatePromptShape | clients/openai_client.py:31-44 | every prompt starts with the persona and ends with the post answered |
| OpenAiClient.PromptParts | clients/openai_client.py:31-44 | the prompt is base prompt, middle and last line, in that order |
| OpenAiClient.RoastModeInsertsLine | clients/openai_client.py:35-36 | roast mode inserts exactly the roast line after the persona |
| OpenAiClient.ParentLineLength | clients/openai_client.py:38-42 | a truthy parent lengthens the prompt by exactly its line |
| OpenAiClient.MakeApiCall | clients/openai_client.py:46-75 | at most 3 attempts; sleeps only between attempts; the answer is `ApiCall` of the attempt outcomes |
| OpenAiClient.ApiCallFromSpec | clients/openai_client.py:46-75 | from attempt i on: a success is the response of an attempt reached after timeouts only, a failure is the error of such an attempt or the timeout error after timeouts to the last attempt |
| OpenAiClient.ApiCallSpec | clients/openai_client.py:46-75 | the call succeeds iff a response comes within 3 attempts after timeouts only; a reached error is raised at once; three timeouts raise the timeout error |
| OpenAiClient.GenerateResponse | clients/openai_client.py:77-103 | the system prompt is the built prompt; a successful call answers its response stripped, and a failed call raises its error |
| OpenAiClient.TrendLines | clients/openai_client.py:151-154 | one line per trend, in order |
| OpenAiClient.TrendsPromptIgnoresRest | clients/openai_client.py:151-154 | trends after the fifth never reach the prompt |
| Memory.SerializeValue | services/memory_service.py:13-23 | str, int, float and bool through `str`, everything else as JSON |
| Memory.ParseTimestamp | services/memory_service.py:34-48 | a trailing 'Z' becomes "+00:00"; other strings are unchanged |
| Memory.ParseTimestampIdempotent | services/memory_service.py:43-45 | normalising twice is normalising once |
| Memory.PostKeyInjective | services/memory_service.py:56 | posts with different uris get different keys |
| Memory.Insert | services/memory_service.py:83 | inserting an entry adds exactly it |
| Memory.InsertSorted | services/memory_service.py:83 | an insertion keeps the index in ZREVRANGE order |
| Memory.ZAdd | services/memory_service.py:83 | ZADD replaces the member's entry by the new score |
| Memory.ZAddSorted | services/memory_service.py:83 | ZADD keeps the index in listing order |
| Memory.ZAddUnique | services/memory_service.py:83 | ZADD keeps every member listed once, with the new score |
| Memory.RevRangeCount | services/memory_service.py:97 | `zrevrange(0, limit-1)` lists `min(limit, size)` members for `limit ≥ 1`, and all of them for `limit = 0` |
| Memory.TrendsOf | services/memory_service.py:100-110 | the trends of the listed keys that have an analysis, in listing order |
| Memory.TrendsOfAllAnalysed | services/memory_service.py:100-110 | with every key analysed, one trend per key, in order |
| Memory.SimilarOf | services/memory_service.py:124-134 | only entries with a topic equal to the query ignoring case, in listing order |
| Memory.SimilarOfSources | services/memory_service.py:124-134 | every similar entry comes from a listed key whose analysis matches |
| Memory.MatchesIsElementwise | services/memory_service.py:130 | the match ignores case but is element equality, not a substring test |
| Memory.ExpiredKeysSpec | services/memory_service.py:154 | the expired keys are exactly the members scored at or before the cutoff |
| Memory.MemoryStore.constructor | services/memory_service.py:9-11 | an empty store |
| Memory.MemoryStore.StoreAnalysis | services/memory_service.py:50-89 | both hashes are written under `"post:" + uri`, and the key is indexed at the post time; an unparsable time answers False without indexing; a down Redis changes nothing |
| Memory.MemoryStore.GetRecentTrends | services/memory_service.py:91-114 | the trends of the newest `limit` members that have an analysis, newest first; [] on failure |
| Memory.MemoryStore.FindSimilarContent | services/memory_service.py:116-140 | the first ten matching entries, newest first; [] on failure |
| Memory.MemoryStore.Persist | services/memory_service.py:142-165 | removes every member scored at or before a week ago together with its two hashes, and keeps newer ones; False on failure |
| Memory.MemoryStore.DeleteHashes | services/memory_service.py:155-158 | the delete loop drops both hashes of exactly the given keys |
| Memory.NewerValid | services/memory_service.py:159 | the members left after the purge stay ordered and listed once |
| Memory.NewerNotExpired | services/memory_service.py:150-159 | a newer member is never among the expired keys, so its hashes survive |
| TrendAnalysis.OwnPostsSkipped | services/trend_analyzer.py:45-46 | a post by the bot's own handle is never analysed |
| TrendAnalysis.OthersLaterPostsAnalysed | services/trend_analyzer.py:41-49 | another author's post later than the last timestamp, or any post when there is none, is analysed |
| TrendAnalysis.BatchNotReanalysed | services/trend_analyzer.py:41-108 | once the last timestamp is the batch maximum, no post of the batch is analysed again |
| TrendAnalysis.FeedAuthorsNeverMatch | services/trend_analyzer.py:45 | the atproto client's authors are profile dicts, so the own-post test never fires on them |
| TrendAnalysis.AnalysesOf | services/trend_analyzer.py:89-90 | one result per task, in task order |
| TrendAnalysis.Paired | services/trend_analyzer.py:93-101 | at most `min(feed, analyses)` pairs, from the truthy analyses |
| TrendAnalysis.PairedPositional | services/trend_analyzer.py:93-101 | every pair joins the feed item and the analysis at the same position |
| TrendAnalysis.PairedAligned | services/trend_analyzer.py:93-101 | when nothing was skipped and every analysis succeeded, each post gets its own analysis |
| TrendAnalysis.MisalignedPairing | services/trend_analyzer.py:84-101 | when the first post is skipped, the second post's analysis is paired with the first post |
| TrendAnalysis.Timestamps | services/trend_analyzer.py:106-107 | the timestamps of the paired posts, in order |
| TrendAnalysis.TopTopicsSpec | services/trend_analyzer.py:130-143 | ten distinct topics from the trends, or all of them when there are fewer, by non-increasing count; no left-out topic is more frequent than a listed one |
| TrendAnalysis.Opinions | services/trend_analyzer.py:156 | the opinions of the entries, in order |
| TrendAnalysis.BotOpinionsSpec | services/trend_analyzer.py:149-160 | at most ten opinions, each the opinion of a stored analysis with a matching topic |
| TrendAnalysis.TrendAnalyzer.constructor | services/trend_analyzer.py:14-24 | no last analysed timestamp |
| TrendAnalysis.TrendAnalyzer.AnalyzeFeed | services/trend_analyzer.py:67-118 | the eligible posts are analysed and paired with the feed by position; the last timestamp becomes the greatest paired timestamp, unchanged when nothing was paired; a failed fetch answers [] |
| TrendAnalysis.TrendAnalyzer.GetTrendingTopics | services/trend_analyzer.py:120-147 | the top topics of the twenty most recent trends |
| TrendAnalysis.TrendAnalyzer.GetBotOpinions | services/trend_analyzer.py:149-160 | the opinions of the similar content, in order |
| TrendAnalysis.AnalyzeEligible | services/trend_analyzer.py:84-90 | one analysis per eligible post, in feed order |
| TrendAnalysis.PairByPosition | services/trend_analyzer.py:93-101 | the zip loop builds exactly the positional pairing |
| TrendAnalysis.CountTopics | services/trend_analyzer.py:130-133 | the nested loops build the Counter of all topics |
| TrendAnalysis.CountMore | services/trend_analyzer.py:132-133 | the inner loop adds the topics of one trend to the tally |
| Ranking.BumpSpec | services/trend_analyzer.py:133 | `counts[x] = counts.get(x, 0) + 1` adds one to x only, keeps keys distinct and appends a new key at the end |
| Ranking.CountsSpec | services/blusky_trend_service.py:70-72 | `Counter(xs)` has one entry per distinct element, in first-seen order, counting its occurrences |
| Ranking.CountsEntries | services/trend_analyzer.py:130-133 | the tally's keys are exactly the elements, each with its positive number of occurrences |
| Ranking.SortDescSorted | services/trend_analyzer.py:136-140 | `sorted(..., reverse=True)` is non-increasing by key |
| Ranking.SortDescPermutation | services/trend_analyzer.py:136-140 | the sort is a permutation |
| Ranking.SortDescStable | services/blusky_trend_service.py:103 | elements with equal keys keep their order |
| Ranking.SortDescDistinct | services/trend_analyzer.py:136-143 | the sort keeps distinct keys distinct |
| Ranking.MostCommonSorted | services/blusky_trend_service.py:78-95 | `most_common(n)` lists exactly `min(n, number of distinct elements)` distinct elements, by non-increasing count |
| Ranking.MostCommonEntries | services/blusky_trend_service.py:78-95 | each listed element occurs, with its exact number of occurrences |
| Ranking.MostCommonTop | services/blusky_trend_service.py:78-95 | no element left out occurs more often than a listed one |
| Ranking.MostCommonTies | services/blusky_trend_service.py:78-95 | equal counts keep first-seen order |
| Ranking.SortedPrefixTop | services/blusky_trend_service.py:103 | `sorted(..., reverse=True)[:n]` keeps `min(n, len)` elements of the list, and no element left out has a larger key than one kept |
| BluskyTrends.HashtagEntries | services/blusky_trend_service.py:78-83 | one '#'-prefixed hashtag entry per top hashtag |
| BluskyTrends.TopicEntries | services/blusky_trend_service.py:86-91 | one topic entry per top phrase |
| BluskyTrends.WordEntries | services/blusky_trend_service.py:94-101 | word entries only for top words longer than four characters and not excluded |
| BluskyTrends.RankTrendsKindBounds | services/blusky_trend_service.py:78-103 | at most five hashtags and five phrases in the result |
| BluskyTrends.CombinedWellFormed | services/blusky_trend_service.py:75-101 | every combined entry is well formed for its kind |
| BluskyTrends.RankTrendsSpec | services/blusky_trend_service.py:103 | at most ten entries, by non-increasing count, each a well-formed combined entry, with at most five hashtags and five phrases |
| BluskyTrends.RankTrendsTop | services/blusky_trend_service.py:103 | exactly `min(10, len(combined))` entries of the combined list, and no entry left out has a larger count than one listed |
| BluskyTrends.RankTrendsTies | services/blusky_trend_service.py:75-103 | equal counts keep the hashtag, phrase, word order |
| BluskyTrends.GatherTokens | services/blusky_trend_service.py:57-67 | the extend loop gathers every text's tokens, text after text |
| BluskyTrends.AnalyzeContent | services/blusky_trend_service.py:51-103 | the result is the ranked combination of the counted tokens |
| BluskyTrends.AppendHashtags | services/blusky_trend_service.py:78-83 | the hashtag loop builds exactly the hashtag entries |
| BluskyTrends.AppendTopics | services/blusky_trend_service.py:86-91 | the phrase loop builds exactly the topic entries |
| BluskyTrends.AppendWords | services/blusky_trend_service.py:94-101 | the word loop builds exactly the word entries |
| BluskyTrends.Texts | services/blusky_trend_service.py:30 | the texts of the feed items, in order |
| BluskyTrends.TrendResearcher.constructor | services/blusky_trend_service.py:19-22 | an empty cache with no update time |
| BluskyTrends.TrendResearcher.ResearchTrends | services/blusky_trend_service.py:24-49 | a failed fetch answers the error and leaves the cache; otherwise the cache and the answer hold the new trends |
| PersonalityPosting.Weight | services/personality_posting_service.py:115-121 | the count × 1.2 for a hashtag, × 1.5 for a topic, and the count otherwise |
| PersonalityPosting.Total | services/personality_posting_service.py:124 | the total weight is not negative |
| PersonalityPosting.TotalPrefixBelow | services/personality_posting_service.py:128-129 | cumulative weights never exceed the total |
| PersonalityPosting.FirstAboveSpec | services/personality_posting_service.py:128-131 | the scan stops at the first position whose cumulative weight exceeds r |
| PersonalityPosting.SelectTrendSpec | services/personality_posting_service.py:111-133 | the result is in the list: the first trend whose cumulative weight is strictly greater than r, else `trends[0]`; r < total guarantees a hit, and r ≥ total gives `trends[0]` |
| PersonalityPosting.ZeroCountsPickFirst | services/personality_posting_service.py:124-133 | with every count zero the first trend is chosen |
| PersonalityPosting.WeighTrends | services/personality_posting_service.py:114-121 | the weighting loop pairs each trend with its weight, in order |
| PersonalityPosting.SelectTrend | services/personality_posting_service.py:111-133 | the loop's choice for `r = uniform(0, total)` is the specified one, and it is in the list |
| PersonalityPosting.TrendStyle | services/personality_posting_service.py:68 | "savage" iff the style draw is below 0.8, otherwise "witty" |
| PersonalityPosting.GenerateContentSpec | services/personality_posting_service.py:44-58 | memory-based iff the strategy draw is ≥ 0.7; a trend post falls back when research failed or found no trends |
| PersonalityPosting.GenerateTrendContentSpec | services/personality_posting_service.py:52-69 | otherwise it roasts the selected trend's topic in the drawn style |
| PersonalityPosting.MemoryTopicIsRemembering | services/personality_posting_service.py:84 | a memory-based roast's topic is always "Remembering" |
| PersonalityPosting.MemoryContentSpec | services/personality_posting_service.py:71-92 | a failed or empty query falls back; otherwise a savage roast of "Remembering" |
| PersonalityPosting.GenerateAndPost | services/personality_posting_service.py:33-42 | the text posted is exactly the generated content; the answer is the new uri, None when posting fails or the agent lacks `Tweet` |
| PersonalityPosting.PostedContentSpec | services/personality_posting_service.py:33-109 | what is posted: a roast of the weighted trend pick, a savage roast about "Remembering", or the fallback, by the strategy draw, the research and the memory query |
| MentionsFile.AddNewSpec | utils/mentions.py:46-48 | one turn keeps the list as a prefix, appends at most the mention, and leaves its id saved |
| MentionsFile.MergeSpec | utils/mentions.py:29-48 | saved entries stay first and in order; ids stay distinct; every fetched id ends up saved; each appended entry is a fetched tweet's dictionary |
| MentionsFile.MergePrefix | utils/mentions.py:37-48 | existing entries keep their order, and new ones come after |
| MentionsFile.MergeDistinct | utils/mentions.py:46-48 | distinct ids stay distinct, including within one batch |
| MentionsFile.MergeSavesAll | utils/mentions.py:37-48 | every fetched id ends up in the file |
| MentionsFile.RepeatedIdSavedOnce | utils/mentions.py:46-48 | a batch with a repeated id saves it once |
| MentionsFile.ScanForId | utils/mentions.py:47 | the `any(...)` scan finds an id iff an entry has it |
| MentionsFile.SaveMentions | utils/mentions.py:26-59 | a missing file acts as an empty list; an unreadable one is left as it is; otherwise the file holds the merge |
| RoastAgent.EffectiveStyle | agent/roast_agent.py:52-53 | an unknown style becomes "savage" |
| RoastAgent.FiveTemplates | agent/roast_agent.py:23-45 | every style has five templates |
| RoastAgent.TemplateHasField | agent/roast_agent.py:23-45 | every template contains `{topic}` |
| RoastAgent.Fill | agent/roast_agent.py:56 | `format` replaces the field by the topic and keeps the text around it |
| RoastAgent.ExtractTopic | agent/roast_agent.py:63-69 | the first whitespace-separated word when it is longer than three characters, "this" otherwise and for blank text |
| RoastAgent.ExtractTopicFirstWord | agent/roast_agent.py:63-69 | for a text whose first word spans `[i, j)`, the topic is that slice when it is longer than three characters and "this" otherwise |
| RoastAgent.ExtractTopicNoWord | agent/roast_agent.py:63-69 | a blank text has the topic "this" |
| RoastAgent.ExtractTopicSingleWord | agent/roast_agent.py:63-69 | a text of one long word is its own topic |
| RoastAgent.GenerateReplySpec | agent/roast_agent.py:47-61 | the reply is the chosen template of the effective style around the topic, so it contains the topic |
| RoastAgent.UnknownStyleIsSavage | agent/roast_agent.py:52-53 | an unknown style answers as "savage" does |
| Configuration.Missing | config.py:75 | exactly the required names whose value is falsy |
| Configuration.MissingIsSubsequence | config.py:75 | the missing names keep the listed order |
| Configuration.Validate | config.py:68-80 | True iff every required value is truthy; otherwise ValueError naming the missing ones, joined by ", " |
| Configuration.ValidateNamesBoth | config.py:77-78 | without credentials the message names the handle, then the password |
| Configuration.GetAll | config.py:95-100 | exactly the public str/int/float/bool/dict attributes, in order |
| Configuration.GetAllDropsPrivate | config.py:97-100 | private names and None values never appear |
| Configuration.LoadPersonality | config.py:42-53 | the file's settings, or `DEFAULT_PERSONALITY` when the file is absent or fails to load |
| Common.Take | clients/bluesky_client.py:257 | `s[:n]` has `min(n, len)` elements and is a prefix |
| Common.Filter | clients/bluesky_client.py:236-255 | a filter keeps exactly the passing elements, in order |
| Common.Split | clients/bluesky_client.py:105 | `str.split` yields at least one piece |
| Common.SplitPiecesLackSeparator | clients/bluesky_client.py:182 | no piece of a split contains the separator |
| Common.SplitOnJoined | services/blusky_mention_service.py:156 | joining two strings with a separator and splitting gives them back when the separator occurs in the joined text at no position inside the first string and not in the second |
| Common.StrMax | services/trend_analyzer.py:105-108 | `max` of strings is a member no smaller than any other |
| Common.IntToString | utils/mentions.py:39-42 | `str(i)` is non-empty and starts with '-' iff i is negative |
| Common.Lower | services/memory_service.py:130 | maps ASCII letters to lower case and keeps the length |

## Left out

- asyncio: task creation and cancellation, `asyncio.gather` and the sleeps. Each loop is one sequential step and returns its sleep as a value.
- The FastAPI app, its startup and shutdown hooks, and `/stats`.
- The atproto, Redis, ChromaDB, OpenAI and tweepy calls. Their answers are inputs; a Redis that is down is the flag `available`.
- `_initialize_from_redis` in mentions_service.py, a JSON read from Redis at start-up.
- Redis TTL. The `expire` in mentions_service.py is applied to a key named after the uri, not to the set member, so nothing in the set expires.
- The `backoff` retry decorator on the atproto client's calls, a library whose behaviour is not part of this model.
- Regular-expression tokenisation, JSON encoding and decoding, and ISO datetime parsing. Their results are inputs: the `tokenize` function, decoded topic lists, and parsed epoch seconds.
- IEEE floating point. Weights, draws and personality settings are exact reals.
- Logging, `print` and the debug flag of the roast agent.
- Writes to the memory service during `analyze_feed`: the per-post `store_analysis` and the final `persist` are not repeated inside TrendAnalysis.TrendAnalyzer.AnalyzeFeed. They are modelled on their own in Memory.MemoryStore.
- `generate_trend_analysis` and the prompt wording of `generate_post` in clients/openai_client.py. Only the five-trend slice is modelled.
- The ChromaDB histories: `_store_trends` and `get_historical_trends`, and `_store_memory` and `get_posting_history`. Only the mention history document format is modelled.
- `is_healthy`, `get_status`, `_extract_author_data` and `_authenticate` of clients/bluesky_client.py. The author profile is carried as a whole, and login is the constructor.
- `get_stats` and `_deserialize_value` of services/memory_service.py.
- `save_personality` and `setup_logging` of config.py, and every file read or write. The file's state is an input.
- The tweepy polling loop around `save_mentions`, and the `saved_at` clock. The clock value is an input, and `MentionsFile.Merge` takes one reading for the whole batch where the source reads `datetime.now()` once per mention.
- PersonalityPosting.SelectTrend: requires a non-empty list. On an empty list the source raises IndexError at `trends[0]`, but its only caller never passes one.
- Configuration.Lookup: a name that is not a class attribute reads as None, where `getattr` would raise. Only the two declared names are ever looked up.
- Common.Lower: folds ASCII letters only. Python's `str.lower()` folds every Unicode letter and can change the length (`'İ'.lower()` has two characters), so Memory.SimilarOf matches case-insensitively on ASCII only.
- Memory.SimilarOf: the case-insensitive topic match is ASCII-only, through Common.Lower.
- TrendAnalysis.PairAt: an analysis that decodes to an empty JSON object `{}` is falsy in Python and dropped; the model has no empty-dictionary value and keeps every successful analysis.
- Scheduling.Scheduler.Tick: requires a live task, because a task's loop exists only after `schedule_task` creates it, and stops existing once `stop` cancels it or once one turn finds the flag down; `start` starts no loop.
- BluskyTrends.TrendResearcher.ResearchTrends: takes one clock reading `now` for both `last_updated` and the trend timestamp, which the source reads separately with `datetime.now()`.

## Notes on the source's behaviour

Each of these behaviours is modelled as written and exhibited by a lemma:

- `analyze_feed` zips the whole feed with the analyses of the eligible posts only. When a post is skipped, an analysis is paired with the wrong post (TrendAnalysis.MisalignedPairing).
- The own-post test compares the author profile of the atproto client with a handle string, so it never fires (TrendAnalysis.FeedAuthorsNeverMatch).
- A mention text containing " || " is read back wrongly from the history, or not at all (BluskyMentions.DocumentMisread, BluskyMentions.DocumentWithSeparatorFails).
- `get_recent_trends(limit=0)` lists every member, because `zrevrange(0, -1)` means "to the end" (Memory.RevRangeCount).
- `/start` raises no flag itself, so two quick requests create two tasks (MentionsService.DoubleStart).
- Every memory-based post roasts the word "Remembering" (PersonalityPosting.MemoryTopicIsRemembering).
- `datetime.now()` is naive, so `_should_process_mention` raises TypeError for every timestamp with 'Z' or an offset. Such a mention ends `handle_mentions` with no answers (BluskyMentions.AwareTimestampAbortsRun).
- `sadd` and `expire` run after the reply is posted. When `sadd` raises, the uri stays out of the set and the next cycle replies again (MentionsService.LostRecordAnswersAgain).
- `RoastBobAgent` has no `Tweet` attribute, so with it every generation raises AttributeError: `generate_and_post` returns None and no Blusky mention is answered (PersonalityPosting.GenerateAndPost, BluskyMentions.NoRoastNoAnswer).
- In mentions_service.py the reply is posted to the mention's `reply_to` (its parent), not to the mention itself (MentionsService.ProcessMention).
