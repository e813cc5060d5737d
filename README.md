# StockSentiment ingestion core, modelled in Dafny

This project models the ingestion pipeline of StockSentiment. That pipeline has three parts:

- **The X.com post collector** searches the X.com API on a schedule, under a one-minute rate budget and a retry policy. It turns the raw tweets into domain posts by extracting cashtags, hashtags and mentions and computing an engagement score. For the "latest posts" call it then removes duplicates by post id and caps the number of posts returned.
- **The domain post** (`XPost`) carries its own engagement score, which weighs quotes at 1.8 instead of the collector's 2.0, and a test for whether it refers to the stock market.
- **The post repository** maps posts to table entities: the author is the partition key, the post id is the row key, and tag lists are stored as comma-joined strings. It upserts posts one at a time or in transactional batches of at most 100, and answers lookups by id, by author, by cashtag and by minimum engagement score.

Modules, one file each:

- `Wrappers` provides `Option` and `Result`.
- `Strings` models the .NET string operations the code relies on: `Split`, `Join`, `RemoveEmptyEntries`, `TrimStart`, `StartsWith` and the ordinal ignore-case comparisons.
- `XPosts` holds the domain post. `MutableXPost` is the class whose method sets the score in place.
- `Conversion` holds the extractors, the collector's engagement score and `ConvertToXPost`.
- `RateGovernor` models `WaitForRateLimitAsync`. `Governor` is a class holding the window counters.
- `Retry` models `ExecuteWithRetryAsync`, both as a specification function and as a loop.
- `Collector` holds query building, de-duplication and the cap, a trace model of each collection call, and the `XPostCollector` class.
- `Repository` holds the entity mapping and the table, which is a map from (partition key, row key) to entity plus the scan order. It also holds batching, the filtered scans and the `XPostRepository` class.

The search client is a function `(request, attempt number) -> Attempt`, meaning a value or a thrown error. The clock is two parameters of `Acquire`: the time before the wait and the time after it. A method's sleeps are returned as out-parameters (`rateWait`, `backoffs`) rather than performed. Times are ticks of 100 ns: one minute is 600 000 000 ticks, and `DateTime.MinValue` is 0. Scores are `real`.

## Model

Source paths are relative to the repository root.

| member | source | states |
|---|---|---|
| XPosts.MutableXPost.constructor | src/StockSentimentAnalyzer.Domain/Models/XPost.cs:6-25 | the mutable post holds the given field values (the parameterless constructor's fresh id and time come from outside) |
| XPosts.MutableXPost.CalculateEngagementScore | src/StockSentimentAnalyzer.Domain/Models/XPost.cs:33-41 | sets the score to likes + 2·retweets + 1.5·replies + 1.8·quotes and changes no other field |
| XPosts.EngagementScoreBounds | src/StockSentimentAnalyzer.Domain/Models/XPost.cs:33-41 | with non-negative counts the score is non-negative and at least likes + retweets |
| XPosts.EngagementScoreExample | src/StockSentimentAnalyzer.Domain/Models/XPost.cs:33-41 | 10 likes, 5 retweets, 2 replies and 1 quote score 24.8 |
| XPosts.WithEngagementScoreIdempotent | src/StockSentimentAnalyzer.Domain/Models/XPost.cs:33-41 | recomputing the score is idempotent: the score depends only on the counts, not on a previously stored score |
| XPosts.CalculateTwice | src/StockSentimentAnalyzer.Domain/Models/XPost.cs:33-41 | calling `CalculateEngagementScore` twice in place leaves the same post as calling it once |
| XPosts.HasStockMarketReferenceIff | src/StockSentimentAnalyzer.Domain/Models/XPost.cs:43-49 | a post refers to the market exactly when it has a cashtag or its content contains "stock", "market" or "trading" somewhere, ignoring case |
| XPosts.CashtagImpliesReference | src/StockSentimentAnalyzer.Domain/Models/XPost.cs:43-49 | any cashtag makes the post a market reference |
| XPosts.MarketInContentImpliesReference | src/StockSentimentAnalyzer.Domain/Models/XPost.cs:43-49 | "MARKET" in upper case anywhere in the content is a market reference, so the match ignores case |
| Strings.Split | src/StockSentimentAnalyzer.Infrastructure/Services/XPostCollector.cs:202-208 | `String.Split` yields at least one piece and no piece contains a separator |
| Strings.SplitJoin | src/StockSentimentAnalyzer.Infrastructure/Repositories/XPostRepository.cs:53-55 | splitting a one-character-separator join of separator-free pieces gives back the pieces |
| Strings.JoinSplit | src/StockSentimentAnalyzer.Infrastructure/Repositories/XPostRepository.cs:78-80 | joining the pieces of a split with the same separator gives back the string |
| Strings.SplitAtSeparator | src/StockSentimentAnalyzer.Infrastructure/Services/XPostCollector.cs:202-208 | a separator cuts a string into the pieces of its two sides |
| Strings.RemoveEmpty | src/StockSentimentAnalyzer.Infrastructure/Repositories/XPostRepository.cs:78-80 | `RemoveEmptyEntries` keeps exactly the non-empty pieces |
| Strings.TrimStart | src/StockSentimentAnalyzer.Infrastructure/Services/XPostCollector.cs:202-208 | `TrimStart(m)` removes a prefix made only of `m` and leaves a string that does not start with `m` |
| Strings.ContainsIgnoreCaseIff | src/StockSentimentAnalyzer.Domain/Models/XPost.cs:43-49 | the left-to-right ignore-case `Contains` holds exactly when some window of the text equals the word, ignoring case |
| Strings.EqualsIgnoreCaseEquivalence | src/StockSentimentAnalyzer.Infrastructure/Repositories/XPostRepository.cs:212-213 | ordinal ignore-case equality is reflexive, symmetric and transitive |
| Conversion.ExtractTaggedMembers | src/StockSentimentAnalyzer.Infrastructure/Services/XPostCollector.cs:202-224 | a tag is extracted exactly when some whitespace-separated word longer than one character starts with the marker and the tag is that word with every leading marker trimmed |
| Conversion.ExtractTaggedAppend | src/StockSentimentAnalyzer.Infrastructure/Services/XPostCollector.cs:202-224 | extraction runs word by word in text order: the tags of two word lists are the tags of each, concatenated |
| Conversion.ExtractAtWhitespace | src/StockSentimentAnalyzer.Infrastructure/Services/XPostCollector.cs:202-224 | any whitespace character separates words: the tags of `a c b` are the tags of `a` followed by those of `b` |
| Conversion.ExtractSingleWord | src/StockSentimentAnalyzer.Infrastructure/Services/XPostCollector.cs:202-224 | a single word yields its trimmed tag when it is tagged, and nothing otherwise |
| Conversion.ExtractJoinedWords | src/StockSentimentAnalyzer.Infrastructure/Services/XPostCollector.cs:202-224 | the tags of space-joined whitespace-free words are the tags of those words |
| Conversion.ExtractorsDisjoint | src/StockSentimentAnalyzer.Infrastructure/Services/XPostCollector.cs:202-224 | no word is extracted by two extractors: together they yield at most one tag per word |
| Conversion.ExtractedTagsBounded | src/StockSentimentAnalyzer.Infrastructure/Services/XPostCollector.cs:202-224 | cashtags, hashtags and mentions of a text number at most its words |
| Conversion.TrimRepeatedMarker | src/StockSentimentAnalyzer.Infrastructure/Services/XPostCollector.cs:205-206 | `$$AAPL` yields `AAPL`: all leading markers are trimmed, not one |
| Conversion.TrimOnlyMarkers | src/StockSentimentAnalyzer.Infrastructure/Services/XPostCollector.cs:205-206 | `$$` passes the length test and yields the empty tag |
| Conversion.BareMarkerDropped | src/StockSentimentAnalyzer.Infrastructure/Services/XPostCollector.cs:205-206 | a bare `$` is not a cashtag |
| Conversion.ExtractionExample | src/StockSentimentAnalyzer.Infrastructure/Services/XPostCollector.cs:202-224 | `$AAPL up 10% #stocks @trader` yields cashtag `AAPL`, hashtag `stocks` and mention `trader` |
| Conversion.ConvertToXPost | src/StockSentimentAnalyzer.Infrastructure/Services/XPostCollector.cs:170-200 | copies id, author, text, time and counts (absent reply and quote counts become 0), extracts the three tag lists from the text, defaults the language to "en", marks a retweet exactly when a retweeted id is present and uses that id as the original, keeps its own id as the conversation id, and stores the collector's score |
| Conversion.ConvertAll | src/StockSentimentAnalyzer.Infrastructure/Services/XPostCollector.cs:64 | `Select(ConvertToXPost)` converts every tweet, in order |
| Conversion.CollectorScoreNonNegative | src/StockSentimentAnalyzer.Infrastructure/Services/XPostCollector.cs:226-238 | with non-negative counts the collector's score is non-negative |
| Conversion.ScoresDifferByQuotes | src/StockSentimentAnalyzer.Infrastructure/Services/XPostCollector.cs:226-238 | the collector's score exceeds the domain post's by 0.2 per quote, so the two agree exactly when there are no quotes |
| RateGovernor.Governor.constructor | src/StockSentimentAnalyzer.Infrastructure/Services/XPostCollector.cs:22-23 | the governor starts with no requests counted and the window opened at `DateTime.MinValue` |
| RateGovernor.Governor.Acquire | src/StockSentimentAnalyzer.Infrastructure/Services/XPostCollector.cs:240-269 | one acquisition moves the window exactly as `AcquireStep` does, returns its wait, keeps the counter within 1..max(limit, 1), and leaves at least one request counted |
| RateGovernor.AcquireKeepsBound | src/StockSentimentAnalyzer.Infrastructure/Services/XPostCollector.cs:240-269 | the request counter stays between 1 and the limit (1 when the limit is not positive) |
| RateGovernor.AcquireAfterExpiry | src/StockSentimentAnalyzer.Infrastructure/Services/XPostCollector.cs:245-250 | more than a minute after the window opened, the window restarts now with one request and no wait |
| RateGovernor.AcquireWaitsOnlyAtLimit | src/StockSentimentAnalyzer.Infrastructure/Services/XPostCollector.cs:252-261 | a caller waits only when the current window is at the limit; it waits for the rest of the minute, and the new window opens after the wait with one request |
| RateGovernor.AcquireBelowLimit | src/StockSentimentAnalyzer.Infrastructure/Services/XPostCollector.cs:252-263 | below the limit there is no wait and the request is counted in the current window |
| RateGovernor.AcquireWaitAtMostOneMinute | src/StockSentimentAnalyzer.Infrastructure/Services/XPostCollector.cs:254-258 | the wait is between zero and one minute |
| RateGovernor.AcquireOverLimitWaitsForBoundary | src/StockSentimentAnalyzer.Infrastructure/Services/XPostCollector.cs:252-261 | the (limit+1)-th acquisition inside a window waits until the window's minute is over, then the counter restarts at 1 |
| RateGovernor.Run | src/StockSentimentAnalyzer.Infrastructure/Services/XPostCollector.cs:240-269 | a sequence of acquisitions grants one result per call |
| RateGovernor.WindowBudget | src/StockSentimentAnalyzer.Infrastructure/Services/XPostCollector.cs:240-269 | acquisitions that never open a new window all count into the same window and never number more than the limit |
| Retry.ExecuteWithRetry | src/StockSentimentAnalyzer.Infrastructure/Services/XPostCollector.cs:271-288 | the loop's sleeps, attempt count and result are exactly those of the specification `RetryAll` |
| Retry.Backoff | src/StockSentimentAnalyzer.Infrastructure/Services/XPostCollector.cs:282 | the j-th backoff (from 0) is delay·(j+1): linear, not exponential |
| Retry.RetryFirstSuccess | src/StockSentimentAnalyzer.Infrastructure/Services/XPostCollector.cs:273-284 | when attempt k is the first to succeed (k < max), its value is returned after k+1 attempts and the k linear backoffs |
| Retry.RetryFromFirstSuccess | src/StockSentimentAnalyzer.Infrastructure/Services/XPostCollector.cs:273-284 | the same, for the loop resumed at attempt i |
| Retry.RetryExhausted | src/StockSentimentAnalyzer.Infrastructure/Services/XPostCollector.cs:273-284 | when every one of the max attempts throws, the last error propagates after max attempts and max−1 backoffs, because the exception filter stops catching at the last attempt |
| Retry.RetryFromAllFail | src/StockSentimentAnalyzer.Infrastructure/Services/XPostCollector.cs:273-284 | the same, for the loop resumed at attempt i |
| Retry.RetryDefaultIff | src/StockSentimentAnalyzer.Infrastructure/Services/XPostCollector.cs:273-287 | `default` is returned exactly when the retry count is not positive, and then without any attempt or sleep |
| Retry.RetryFromNeverDefault | src/StockSentimentAnalyzer.Infrastructure/Services/XPostCollector.cs:273-287 | a loop with attempts left always ends by returning or throwing |
| Retry.RetryFromShape | src/StockSentimentAnalyzer.Infrastructure/Services/XPostCollector.cs:273-284 | attempts lie between 1 and those left; one backoff precedes each retry; every attempt before the last threw; and the result is exactly what the last attempt did |
| Retry.RetryShape | src/StockSentimentAnalyzer.Infrastructure/Services/XPostCollector.cs:273-287 | never more attempts than configured, and a success is the first attempt that did not throw |
| Retry.RetryExample | src/StockSentimentAnalyzer.Infrastructure/Services/XPostCollector.cs:273-284 | with three tries, failing twice and then succeeding returns the value after backoffs of delay and 2·delay |
| Collector.CombinedQueryShape | src/StockSentimentAnalyzer.Infrastructure/Services/XPostCollector.cs:69-72 | the cashtag-and-keyword query is issued exactly when one of the two lists is non-empty; with both, it is the cashtag alternatives, ` OR `, then the keyword alternatives |
| Collector.DefaultSearchBudget | src/StockSentimentAnalyzer.Domain/Configuration/XApiSettings.cs:10-13 | under the default settings (3 tries, 1000 ms) a search runs 1 to 3 times, never yields `default`, sleeps 1000 ms then 2000 ms, and lets an exception escape only after all three attempts |
| Collector.DefaultsCollectNothing | src/StockSentimentAnalyzer.Domain/Configuration/XApiSettings.cs:14-16 | the default settings monitor no account, cashtag or keyword, so the latest-posts call issues no search and returns no posts |
| Collector.QualifiedTerms | src/StockSentimentAnalyzer.Infrastructure/Services/XPostCollector.cs:108-116 | `since:` and `until:` qualifiers with whitespace-free dates read back as separate search terms, in that order, after the query's own terms |
| Collector.AuthorQueryTerms | src/StockSentimentAnalyzer.Infrastructure/Services/XPostCollector.cs:108-116 | the author query splits into `from:<user>` followed by exactly the requested date terms |
| Collector.CashtagsQueryTerms | src/StockSentimentAnalyzer.Infrastructure/Services/XPostCollector.cs:146-154 | the cashtag query keeps the cashtags' ` OR ` alternatives and adds the requested date terms after them |
| Collector.Take | src/StockSentimentAnalyzer.Infrastructure/Services/XPostCollector.cs:84 | `Take(n)` is the prefix of length min(max(n, 0), count) |
| Collector.DistinctIds | src/StockSentimentAnalyzer.Infrastructure/Services/XPostCollector.cs:84 | de-duplication keeps every id and never adds posts |
| Collector.DistinctKeepsFirst | src/StockSentimentAnalyzer.Infrastructure/Services/XPostCollector.cs:84 | every kept post is the first post with its id |
| Collector.DistinctKeepsOrder | src/StockSentimentAnalyzer.Infrastructure/Services/XPostCollector.cs:84 | kept posts are in the order of their ids' first occurrences |
| Collector.DistinctByIdSpec | src/StockSentimentAnalyzer.Infrastructure/Services/XPostCollector.cs:84 | `DistinctBy(Id)` keeps each id exactly once, by its first post, in first-occurrence order |
| Collector.DistinctTakeSpec | src/StockSentimentAnalyzer.Infrastructure/Services/XPostCollector.cs:84 | de-duplication then `Take(n)` gives exactly min(max(n, 0), number of distinct posts) posts with distinct ids, each its id's first post, in order |
| Collector.DuplicateKeptOnce | src/StockSentimentAnalyzer.Infrastructure/Services/XPostCollector.cs:50-84 | a post found by two queries is kept once, with the values of the first query that found it |
| Collector.AccountsFailureSticks | src/StockSentimentAnalyzer.Infrastructure/Services/XPostCollector.cs:50-66 | once an account's search throws, no later account is searched and nothing changes |
| Collector.LatestPostsSpec | src/StockSentimentAnalyzer.Infrastructure/Services/XPostCollector.cs:84 | a successful latest-posts call returns exactly min(max(maxPosts, 0), number of distinct gathered posts) posts with distinct ids, each the first gathered post with its id, in gathering order |
| Collector.LatestCallsBound | src/StockSentimentAnalyzer.Infrastructure/Services/XPostCollector.cs:50-82 | one latest-posts call issues at most (accounts + 1) · MaxRetries search requests under a single rate acquisition |
| Collector.AccountsCallsWhenAllSucceed | src/StockSentimentAnalyzer.Infrastructure/Services/XPostCollector.cs:50-66 | when first attempts succeed, the account loop succeeds with exactly one search per account |
| Collector.LatestCallsWhenAllSucceed | src/StockSentimentAnalyzer.Infrastructure/Services/XPostCollector.cs:50-82 | when first attempts succeed, one search per account plus one combined search if anything is monitored |
| Collector.AccountsPostsWhenAllSucceed | src/StockSentimentAnalyzer.Infrastructure/Services/XPostCollector.cs:50-66 | when first attempts succeed, the account loop gathers each account's converted answer, in account order |
| Collector.LatestGatheredWhenAllSucceed | src/StockSentimentAnalyzer.Infrastructure/Services/XPostCollector.cs:50-82 | when first attempts succeed, the gathered posts are the per-account answers in account order, then the combined query's answer when anything is monitored |
| Collector.SearchAndAbsorb | src/StockSentimentAnalyzer.Infrastructure/Services/XPostCollector.cs:58-65 | one retried search adds its sleeps and attempts and either converts and appends the posts (nothing on `default`) or ends with the error |
| Collector.SearchAccounts | src/StockSentimentAnalyzer.Infrastructure/Services/XPostCollector.cs:50-66 | the account loop produces exactly the modelled trace, and when it succeeds it used at most accounts · MaxRetries requests |
| Collector.Gather | src/StockSentimentAnalyzer.Infrastructure/Services/XPostCollector.cs:44-82 | the imperative gathering equals the specification `GatherLatest` |
| Collector.XPostCollector.constructor | src/StockSentimentAnalyzer.Infrastructure/Services/XPostCollector.cs:25-33 | a collector holds its settings and a fresh governor with an empty window |
| Collector.XPostCollector.CollectLatestPosts | src/StockSentimentAnalyzer.Infrastructure/Services/XPostCollector.cs:36-91 | one governor acquisition, then the gathering; returns `LatestPosts` (de-duplicated and capped, or the error) with the gathering's backoffs and request count |
| Collector.XPostCollector.CollectPostsByAuthor | src/StockSentimentAnalyzer.Infrastructure/Services/XPostCollector.cs:93-129 | one acquisition, then one retried search for the author query at the configured page size; converted posts, nothing on `default`, or the error |
| Collector.XPostCollector.CollectPostsByCashtags | src/StockSentimentAnalyzer.Infrastructure/Services/XPostCollector.cs:131-168 | the same for the cashtag query |
| Repository.FromDomain | src/StockSentimentAnalyzer.Infrastructure/Repositories/XPostRepository.cs:39-63 | the entity is partitioned by author user name and keyed by post id |
| Repository.ToDomain | src/StockSentimentAnalyzer.Infrastructure/Repositories/XPostRepository.cs:65-88 | the post's id is the entity's row key |
| Repository.FromDomainAll | src/StockSentimentAnalyzer.Infrastructure/Repositories/XPostRepository.cs:124 | every post is mapped, in order |
| Repository.ToDomainAll | src/StockSentimentAnalyzer.Infrastructure/Repositories/XPostRepository.cs:184-187 | every entity is mapped back, in order |
| Repository.SplitJoinTags | src/StockSentimentAnalyzer.Infrastructure/Repositories/XPostRepository.cs:53-55 | a stored tag list reads back as the tags' comma-pieces with the empty ones dropped |
| Repository.TagsRoundTrip | src/StockSentimentAnalyzer.Infrastructure/Repositories/XPostRepository.cs:53-55 | tags that are non-empty and comma-free survive storage unchanged |
| Repository.RoundTrip | src/StockSentimentAnalyzer.Infrastructure/Repositories/XPostRepository.cs:39-88 | storing and reading a post gives the same post, provided its tags are non-empty and comma-free |
| Repository.EmptyTagDropped | src/StockSentimentAnalyzer.Infrastructure/Repositories/XPostRepository.cs:78-80 | an empty tag is lost on the way back (`["", "MSFT"]` reads back as `["MSFT"]`) |
| Repository.CommaTagSplit | src/StockSentimentAnalyzer.Infrastructure/Repositories/XPostRepository.cs:78-80 | a tag with a comma comes back split (`["AAPL,", "MSFT"]` reads back as `["AAPL", "MSFT"]`) |
| Repository.UpsertedSpec | src/StockSentimentAnalyzer.Infrastructure/Repositories/XPostRepository.cs:129 | an `UpsertReplace` action replaces or inserts the entity under its key, leaves every other row alone, and appends a new key to the scan order |
| Repository.UpsertedAllWellFormed | src/StockSentimentAnalyzer.Infrastructure/Repositories/XPostRepository.cs:120-141 | a sequence of upserts keeps the table well formed |
| Repository.UpsertedAllAppend | src/StockSentimentAnalyzer.Infrastructure/Repositories/XPostRepository.cs:120-141 | upserting two runs is upserting their concatenation |
| Repository.UpsertedAllLastWins | src/StockSentimentAnalyzer.Infrastructure/Repositories/XPostRepository.cs:120-141 | among repeated keys the last upsert wins |
| Repository.MergedSpec | src/StockSentimentAnalyzer.Infrastructure/Repositories/XPostRepository.cs:111 | an `UpsertEntityAsync` in the default `Merge` mode touches only the entity's row: a new key is inserted as the entity and appended to the scan order; an existing row takes every non-null property and keeps its stored `OriginalPostId`, `ConversationId`, `InReplyToUserId` and `EngagementScore` where the entity's are null |
| Repository.MergeWithoutNullsReplaces | src/StockSentimentAnalyzer.Infrastructure/Repositories/XPostRepository.cs:111 | an entity with every nullable property set merges exactly as it would replace |
| Repository.MergedIdempotent | src/StockSentimentAnalyzer.Infrastructure/Repositories/XPostRepository.cs:111 | upserting the same entity twice in `Merge` mode leaves the table as upserting it once |
| Repository.MergeKeepsHighEngagement | src/StockSentimentAnalyzer.Infrastructure/Repositories/XPostRepository.cs:111 | re-adding a stored post with a null score keeps the stored score, so a row the engagement query found is still found |
| Repository.MergedRoundTrip | src/StockSentimentAnalyzer.Infrastructure/Repositories/XPostRepository.cs:106-118 | a post added under a new key, or with every nullable property set, reads back as the same post when its tags are storable |
| Repository.FilterMembers | src/StockSentimentAnalyzer.Infrastructure/Repositories/XPostRepository.cs:176-187 | a filtered scan holds exactly the rows that match |
| Repository.FilterAppend | src/StockSentimentAnalyzer.Infrastructure/Repositories/XPostRepository.cs:183-187 | a scan filters row by row, preserving scan order |
| Repository.ScanStep | src/StockSentimentAnalyzer.Infrastructure/Repositories/XPostRepository.cs:183-187 | one more scanned row adds its post exactly when it matches |
| Repository.ScannedRows | src/StockSentimentAnalyzer.Infrastructure/Repositories/XPostRepository.cs:176-187 | an unfiltered scan visits exactly the stored rows |
| Repository.Selected | src/StockSentimentAnalyzer.Infrastructure/Repositories/XPostRepository.cs:176-187 | a query returns exactly the stored rows that match it |
| Repository.ByAuthorSpec | src/StockSentimentAnalyzer.Infrastructure/Repositories/XPostRepository.cs:176-180 | the author query returns exactly the stored rows in the author's partition whose time is within the optional bounds, both ends inclusive |
| Repository.ListedIgnoreCaseIff | src/StockSentimentAnalyzer.Infrastructure/Repositories/XPostRepository.cs:213 | `Contains(c, OrdinalIgnoreCase)` holds exactly when some requested cashtag equals c ignoring case |
| Repository.AnyListedIff | src/StockSentimentAnalyzer.Infrastructure/Repositories/XPostRepository.cs:212-213 | `Any` holds exactly when some stored tag equals some requested cashtag ignoring case |
| Repository.ByCashtagsSpec | src/StockSentimentAnalyzer.Infrastructure/Repositories/XPostRepository.cs:204-218 | the cashtag query returns exactly the in-range stored rows with a stored tag equal to a requested one ignoring case; no requested cashtags means no posts |
| Repository.StoredPairSplit | src/StockSentimentAnalyzer.Infrastructure/Repositories/XPostRepository.cs:212 | the stored `aapl,MSFT` reads back as `aapl` and `MSFT` |
| Repository.CashtagMatchIgnoresCase | src/StockSentimentAnalyzer.Infrastructure/Repositories/XPostRepository.cs:212-213 | a row stored with `aapl,MSFT` matches the request `AAPL` |
| Repository.ByScoreSpec | src/StockSentimentAnalyzer.Infrastructure/Repositories/XPostRepository.cs:235-239 | the engagement query returns exactly the in-range stored rows whose score is present and at least the minimum, so unscored rows never match |
| Repository.FindByIdFound | src/StockSentimentAnalyzer.Infrastructure/Repositories/XPostRepository.cs:150-166 | a post is found exactly when some stored row has that row key, in any partition |
| Repository.FindByIdFirst | src/StockSentimentAnalyzer.Infrastructure/Repositories/XPostRepository.cs:154-159 | the post found is the first row in scan order with that row key |
| Repository.GrowBatch | src/StockSentimentAnalyzer.Infrastructure/Repositories/XPostRepository.cs:126-135 | a batch stays a valid transaction when the new entity shares its partition, repeats no row key and fits under 100 |
| Repository.BatchesFlatten | src/StockSentimentAnalyzer.Infrastructure/Repositories/XPostRepository.cs:124-141 | the batches, concatenated, are the entities in order |
| Repository.BatchesSizes | src/StockSentimentAnalyzer.Infrastructure/Repositories/XPostRepository.cs:124-141 | every batch holds between 1 and 100 entities |
| Repository.BatchesFullButLast | src/StockSentimentAnalyzer.Infrastructure/Repositories/XPostRepository.cs:131-135 | every batch but the last is full |
| Repository.BatchesSpec | src/StockSentimentAnalyzer.Infrastructure/Repositories/XPostRepository.cs:124-141 | batching partitions the entities, in order, into full batches followed by one non-empty remainder |
| Repository.BatchesExample | src/StockSentimentAnalyzer.Infrastructure/Repositories/XPostRepository.cs:124-141 | 250 posts are submitted as batches of 100, 100 and 50 |
| Repository.ApplyValidBatches | src/StockSentimentAnalyzer.Infrastructure/Repositories/XPostRepository.cs:120-141 | when every batch is a valid transaction, the batched write equals upserting all entities in order |
| Repository.ApplyBatchesFirstRejected | src/StockSentimentAnalyzer.Infrastructure/Repositories/XPostRepository.cs:131-140 | when batch k is the first the service rejects, exactly the batches before it are applied, in order, and the call fails |
| Repository.AddRangeMixedAuthorsFails | src/StockSentimentAnalyzer.Infrastructure/Repositories/XPostRepository.cs:124-141 | two posts by different authors make one mixed-partition batch: the write fails and stores nothing |
| Repository.XPostRepository.constructor | src/StockSentimentAnalyzer.Infrastructure/Repositories/XPostRepository.cs:97-104 | a new repository's table is empty |
| Repository.XPostRepository.Replace | src/StockSentimentAnalyzer.Infrastructure/Repositories/XPostRepository.cs:129 | one `UpsertReplace` action stores the entity under its key as `Upserted` says |
| Repository.XPostRepository.Merge | src/StockSentimentAnalyzer.Infrastructure/Repositories/XPostRepository.cs:111 | `UpsertEntityAsync` in `Merge` mode leaves the table as `Merged` says |
| Repository.XPostRepository.Add | src/StockSentimentAnalyzer.Infrastructure/Repositories/XPostRepository.cs:106-118 | the post's entity is upserted under (author, id) in `Merge` mode: a new key gets exactly the post's row, and an existing row keeps its stored values for the post's null properties |
| Repository.XPostRepository.SubmitTransaction | src/StockSentimentAnalyzer.Infrastructure/Repositories/XPostRepository.cs:133 | a valid transaction applies all its upserts; an invalid one fails and changes nothing |
| Repository.XPostRepository.AddRange | src/StockSentimentAnalyzer.Infrastructure/Repositories/XPostRepository.cs:120-148 | the posts' entities are submitted in consecutive batches of 100 as the code groups them; the state and result are those of `ApplyBatches` |
| Repository.XPostRepository.SubmitInBatches | src/StockSentimentAnalyzer.Infrastructure/Repositories/XPostRepository.cs:124-141 | the batching loop submits exactly the batches `Batches(entities, 100)` and stops at the first failure |
| Repository.XPostRepository.AddRangeByPartition | src/StockSentimentAnalyzer.Infrastructure/Repositories/XPostRepository.cs:120-148 | the corrected batched write always succeeds and leaves the table as upserting every post in order |
| Repository.XPostRepository.SubmitByPartition | src/StockSentimentAnalyzer.Infrastructure/Repositories/XPostRepository.cs:124-141 | the corrected loop cuts a batch at 100 entities, at a partition change or at a repeated row key, and ends with all entities upserted |
| Repository.XPostRepository.Scan | src/StockSentimentAnalyzer.Infrastructure/Repositories/XPostRepository.cs:176-187 | a filtered scan returns the matching rows' posts in scan order |
| Repository.XPostRepository.GetById | src/StockSentimentAnalyzer.Infrastructure/Repositories/XPostRepository.cs:150-166 | returns the first stored post with that id, or none |
| Repository.XPostRepository.GetByAuthor | src/StockSentimentAnalyzer.Infrastructure/Repositories/XPostRepository.cs:168-194 | returns the author query's posts in scan order |
| Repository.XPostRepository.GetByCashtags | src/StockSentimentAnalyzer.Infrastructure/Repositories/XPostRepository.cs:196-225 | returns the cashtag query's posts in scan order |
| Repository.XPostRepository.GetHighEngagement | src/StockSentimentAnalyzer.Infrastructure/Repositories/XPostRepository.cs:227-253 | returns the engagement query's posts in scan order |

## Left out

- Asynchrony, `Task.Delay`, the semaphore that serialises `WaitForRateLimitAsync`, cancellation tokens and logging are left out. Sleeps are returned as durations. The lock is modelled by each `Acquire` being a single atomic step.
- `DateTime.UtcNow` becomes the two clock parameters of `Acquire`. The wait that is returned is computed from the first of them.
- The Tweetinvi `TwitterClient`, the bearer-token credentials and `SearchTweetsParameters` become the `SearchApi` function and a `SearchRequest` value. The ids, user ids and language of a raw tweet arrive as strings, so `long.ToString()` is not modelled.
- Date formatting (`yyyy-MM-dd`) is not modelled: the `since`/`until` dates arrive as already-formatted strings.
- Stored and queried times are integers. Their time zones and kinds are not modelled.
- Engagement scores are `real`, so IEEE double rounding is not modelled. For example, 24.8 is exact here.
- Integer widths: a raw tweet's counts are unbounded integers. `Retry.Backoff` and `Retry.ExecuteWithRetry` do not model the 32-bit overflow of `RetryDelayMilliseconds * (i + 1)`, because the configured delays are far below it.
- Retry.ExecuteWithRetry: assumes `RetryDelayMilliseconds` is not negative. With a negative delay the source's `Task.Delay` either waits forever (-1) or throws `ArgumentOutOfRangeException` below -1. That exception escapes the loop after the first caught failure. The model instead records the negative delay and retries. `Retry.Backoff` and the retry lemmas inherit the assumption.
- The Azure table is a map from (partition key, row key) to entity plus an insertion-order scan. Azure returns rows ordered by partition key and then row key. The scan-order statements (`Repository.FindByIdFirst`, and the order of the `Get…` results) therefore hold for the modelled order, not Azure's.
- Repository errors other than a rejected transaction (network, throttling, storage limits) are not modelled. `AddAsync` and single upserts always succeed.
- A single upsert is modelled as `Merge` over the four nullable properties, which the Azure client leaves out of a request when they are null. The remaining properties of `XPostTableEntity` are never null. `Timestamp` and `ETag` are not modelled.
- `CreateIfNotExists` in the repository constructor, and the constructor of `XPost` that sets a fresh `Guid` id and `DateTime.UtcNow`, are not modelled. Those values come from outside.
- Case folding covers ASCII letters only. `ToUpperInvariant` on other scripts and culture-sensitive `StartsWith(string)` are not modelled: the markers are single ASCII characters and are compared ordinally.
- `Repository.CashtagMatchIgnoresCase` is stated on the stored tag string and `AnyListed` rather than on a whole entity value.
- A `null` search result from Tweetinvi is not modelled. `Attempt` cannot express it. In the code it is a first-attempt success with one invocation, which the `tweets != null` and `tweets?.` guards turn into no posts, so it behaves like `Returned([])`. The retry layer's `Default` outcome arises only when `MaxRetries` is not positive.
- The model states the code's own behaviour, which is easy to misread in three places:
  - When every retry fails, the last exception propagates, because the exception filter `when (i < MaxRetries - 1)` stops catching at the last attempt. Only a non-positive `MaxRetries` yields the absent result.
  - The rate governor is acquired once per collection call, although `CollectLatestPosts` may then issue up to `(accounts + 1) · MaxRetries` search requests (`Collector.LatestCallsBound`).
  - `PageSize` is `min(maxPosts, MaxPostsPerRequest)` for the latest posts, and `MaxPostsPerRequest` for the other two calls.

## Findings

| source | as written | input that shows it | evidently intended | confidence | as-written member | corrected member |
|---|---|---|---|---|---|---|
| src/StockSentimentAnalyzer.Infrastructure/Repositories/XPostRepository.cs:124-141 | `AddRangeAsync` fills each transaction with the next 100 posts whatever their authors. But an Azure Table entity group transaction must stay within one partition key and touch each row key at most once. Any batch of posts by more than one author (the partition key) is therefore rejected, and so is a batch holding the same post twice. | two posts by different authors, e.g. `AddRangeAsync([p, q])` with `p.AuthorUsername != q.AuthorUsername` | every post upserted; each transaction holds at most 100 posts of one author with distinct ids | not executed | Repository.AddRangeMixedAuthorsFails (with Repository.XPostRepository.AddRange) | Repository.XPostRepository.AddRangeByPartition |
