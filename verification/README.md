# Verified model of the message hub

A Dafny model of the stateful protocols of the message hub: how lists are paged and shown, how requests and logins are
throttled, how sender identities are resolved, merged and split, how messages are ingested and reminders scheduled, how
refresh tokens rotate, and how concurrent edits are told apart. Each protocol is a state with steps, and the theorems
are about every run: every order of requests and answers, every interleaving of commands, every loss.

| module | what it models |
|---|---|
| `Keyset`, `Walk` | the WHERE and ORDER BY of the list endpoints, one page, and whole walks over resting and changing tables |
| `InboxPagination`, `InboxConversations`, `InboxMessages` | the web client's lists, rebuilt from pages, realtime merges and "load more" answers that may be late, lost or stale |
| `Redis`, `RateLimit`, `LoginThrottle` | the Redis counter commands, and the services that send several of them per call |
| `IdentityGraph`, `Ingestion`, `Suggestions` | contacts, provider accounts and messages; the ingestion worker; the matching sweep |
| `Sessions`, `RefreshClient` | refresh-token families with reuse detection, and the browser's single-flight refresh run against them |
| `ETag`, `Rules`, `Preferences` | version tags, and the two resources written conditionally on them |
| `Scheduler` | no-reply reminders: a database row per rule and conversation against an unreliable queue |
| `Basics`, `Text` | options, minimum and maximum; trimming, lower case, substring search |

Postgres, Redis and the job queue appear only as the statements the code sends them. Where the source updates fields
in place, a class does the same, and its methods are proved against the steps and functions the theorems are about.

Some promises turn out not to hold on all inputs; the model then states exactly when they do:

- the default conversation order loses rows behind a conversation that has no date (`Walk.WalkIsSortedTable`,
  `Keyset.NextPageIsRemainder`), although the comment at conversations.controller.ts:73-78 wants WHERE and ORDER BY to
  agree; ingestion always dates conversations;
- `parseLimit` answers 0 for fractions below 1 (`Keyset.ParseLimitZero`), and a page of limit 0 claims more rows than
  can be reached (`Keyset.HasMoreIsReachable`);
- the refetch after a reply is guarded neither by a generation nor by the open conversation, and a refetched page is
  appended without looking where it starts: the list ends up as the newest part of the conversation exactly if that
  conversation is still open and at most one page of messages has come in behind the list
  (`InboxMessages.ReplyRefetchIff`, and for pages that come in out of order `InboxMessages.RefetchFitsIff`);
- the API document calls the rate limit a sliding window; the code is a fixed window, which lets up to one less than
  twice the limit through in one window length, and keeps to the limit in every run and interval exactly if the limit
  is at most 1 or the window a single tick (`RateLimit.SlidingWindowIff`, `RateLimit.SlidingBoundIsReached`);
- merging is undone by a split only if the surviving contact sent nothing on a provider of the absorbed one
  (`IdentityGraph.MergeThenSplit`);
- a message whose delivery dies between storing and automation is never automated, because its retries are taken for
  duplicates; otherwise automation runs exactly once (`Ingestion.EveryRunIsSound`, `Ingestion.CutOffIsNeverAutomated`);
- a duplicate delivery still moves the conversation's date, even backwards (`Ingestion.DateGoesBackwards`);
- a rejected workspace switch does change rows exactly when a member presents a spent token of a family that is still
  live (`Sessions.RejectedSwitchChanges`, `Sessions.RejectedSwitchEndsSession`);
- a lost rotation looks like theft (`RefreshClient.LostRotationLooksLikeTheft`);
- a rule update loses another one if its client declares a version nobody has shown it yet
  (`Rules.GuessingAheadLosesUpdate`); preferences cannot lose one (`Preferences.PreferencesNeverLoseAnUpdate`).

## Model

| member | source | states |
|---|---|---|
| Keyset.ParseLimitZero | apps/api/src/common/cursor-pagination.ts:28-32 | the parsed limit is 0 exactly for fractions strictly between 0 and 1 |
| Keyset.ParseLimitMeaning | apps/api/src/common/cursor-pagination.ts:20-32 | a positive limit is rounded down and capped at 200, anything else is 50, a whole limit in range is kept |
| Keyset.BeforeIsLexicographic | apps/api/src/conversations/conversations.controller.ts:163-168 | each ORDER BY is the lexicographic order of its columns, nulls first when descending and last when ascending |
| Keyset.PastIsStrictlyAfter | apps/api/src/common/cursor-pagination.ts:94-99 | for all four order shapes, the cursor's WHERE clause means "strictly after the cursor's row in the ORDER BY", except exactly at a null boundary of the default conversation order |
| Keyset.NextPageIsRemainder | apps/api/src/conversations/conversations.controller.ts:136-161 | the rows matched after a page are the true remainder of the table if and only if no null boundary follows its last row |
| Keyset.NullBoundarySkipsARow | apps/api/src/conversations/conversations.controller.ts:149-156 | a concrete pair of conversations in which the dated one is sorted after the undated one but not matched behind it |
| Keyset.Sorted | apps/api/src/conversations/conversations.controller.ts:163-168 | the ORDER BY of a table with unique ids: same rows, same number, increasing |
| Keyset.IncreasingIsUnique | apps/api/src/common/cursor-pagination.ts:83-99 | a set of rows has only one listing in an order, so "the sorted table" is well defined |
| Keyset.AscendingIsReversedDescending | apps/api/src/conversations/conversations.controller.ts:163-168 | for single and nullable columns, ascending order with nulls last is the reverse of descending order with nulls first |
| Keyset.HasMoreIsReachable | apps/api/src/common/cursor-pagination.ts:53-61 | "has more" always comes with a cursor, and a cursor only with "has more", unless the limit is 0 and rows are left |
| Keyset.MatchingAt | apps/api/src/conversations/conversations.controller.ts:79-94 | behind the k-th row of the sorted table the cursor matches exactly the rest of the table, listed in the same order |
| Keyset.PageAt | apps/api/src/automation/rules.controller.ts:88-114 | a request with the cursor at position k serves the next rows of the sorted table, a cursor at their end, and the right "has more", whatever order the query string asks for |
| Walk.NextMatchesLess | apps/api/src/common/cursor-pagination.ts:53-61 | each cursor matches strictly fewer rows than the one before: the measure by which every walk terminates |
| Walk.PageCountIsCeiling | apps/api/src/common/cursor-pagination.ts:53-61 | the page count used below is max(1, n/limit rounded up) |
| Walk.WalkFrom | apps/api/src/conversations/conversations.controller.ts:125-202 | from any clean position a walk lists exactly what is left if and only if no later page cut is a null boundary |
| Walk.WalkIsSortedTable | apps/api/src/conversations/conversations.controller.ts:125-202 | for every table, order and limit of at least 1, the pages of a whole walk concatenate to the sorted table if and only if no cut is a null boundary, and then number max(1, n/limit rounded up) |
| Walk.DatedWalkIsSortedTable | apps/api/src/identity/contacts.controller.ts:51-75 | so it holds unconditionally for single-field, nullable and rule orders, and for dated conversations |
| Walk.ShownWalkIsFilteredTable | apps/api/src/conversations/conversations.controller.ts:204-246 | the VIP/unread-filtered walk yields exactly the filtered order although its pages come out short |
| Walk.AscendingWalkMirrorsDescending | apps/api/src/conversations/conversations.controller.ts:79-94 | the ascending walk is the reverse of the descending one, nulls included |
| Walk.WalkIsOnTrack | apps/api/src/common/cursor-pagination.ts:83-99 | however the table and the limit change between fetches, what has come out is increasing and the cursor stands at its end |
| Walk.WalkUnderWrites | apps/api/src/common/cursor-pagination.ts:53-99 | under arbitrary inserts, deletes and updates between fetches, with orders and limits drifting from request to request, positions come out strictly increasing, none twice, and a finished walk has returned every position occupied at each fetch |
| InboxPagination.MergesKeepIds | apps/web/lib/inbox-pagination.ts:32-65 | each of the four merges keeps ids distinct and holds exactly the ids of both lists |
| InboxPagination.MergesKeepOrder | apps/web/lib/inbox-pagination.ts:32-65 | for any two lists: a fresh page goes first as served, a next or newest page goes last, an older page goes before; of the other list exactly what has a new id is added, in its own order |
| InboxPagination.AppendToPrefix | apps/web/lib/inbox-pagination.ts:39-42 | appending a page that overlaps a prefix of a list gives the longer prefix |
| InboxPagination.MergePrefixes | apps/web/lib/inbox-pagination.ts:32-36 | merging a fresh first page with a prefix of one list gives the longer of the two prefixes |
| InboxPagination.OlderExtends | apps/web/lib/inbox-pagination.ts:62-65 | prepending an older stretch to a suffix of a history gives the longer suffix |
| InboxPagination.RefetchExtends | apps/web/lib/inbox-pagination.ts:52-55 | a refetched stretch that starts inside the displayed stretch or right behind it extends it as far as it goes |
| InboxPagination.RefetchBreaks | apps/web/lib/inbox-pagination.ts:52-55 | a refetched stretch that starts anywhere else leaves no stretch of the history at all |
| InboxConversations.ResolveKeepsPrefix | apps/web/components/Inbox.tsx:133-227 | whichever handler takes in the page its cursor stands for, the list stays a prefix of the canonical filtered list, and is all of it after a last page |
| InboxConversations.ResolveAt | apps/web/components/Inbox.tsx:133-227 | exactly how far: the list reaches the end of the page taken in, and cursor and has-more are that page's unless it came from a realtime event |
| InboxConversations.LoadingMoreReachesTheEnd | apps/web/components/Inbox.tsx:133-227 | a fresh load and n times "load more" show exactly the first n + 1 pages' worth of rows with the cursor at their end, and the whole canonical list once that covers the table |
| InboxConversations.AnswerIsApplied | apps/web/components/Inbox.tsx:141-227 | over any table: a realtime page goes on top as served, a next page goes behind, a fresh one replaces; stale and failed answers change nothing |
| InboxConversations.RealtimeRound | apps/web/components/Inbox.tsx:184-201 | a realtime event puts the page the server serves then on top of the list and leaves the cursor alone |
| InboxConversations.OfferedIffCursor | apps/web/components/Inbox.tsx:138-226 | over any tables "load more" is offered exactly if there is a cursor to load with |
| InboxConversations.OfferStarts | apps/web/components/Inbox.tsx:133-139 | there is no such offer before the first load, and a refresh withdraws it while keeping the list |
| InboxConversations.ClientRefinesServer | apps/web/components/Inbox.tsx:133-227 | over an unchanging table and one filter, after any interleaving of fresh loads, realtime merges, load-mores, failures and late answers, the displayed list is a prefix of the canonical one, and the whole once the generation applied a last page |
| InboxConversations.StepKeepsIds | apps/web/components/Inbox.tsx:133-227 | over a changing table no event puts an id in twice, and only a fresh load of the current generation takes ids away |
| InboxConversations.NoDuplicateNoLoss | apps/web/components/Inbox.tsx:184-227 | over a changing table the list never holds an id twice, and within a generation whose fresh load is over no id is lost |
| InboxConversations.Inbox.StartRefresh | apps/web/components/Inbox.tsx:133-139 | the protocol's refresh step, whatever else is in flight: generation bumped, old cursor unusable at once, list kept |
| InboxConversations.Inbox.StartLoadMore | apps/web/components/Inbox.tsx:204-216 | the protocol's load-more step, whatever else is in flight: the same request or none, and no state changed |
| InboxConversations.Inbox.Finish | apps/web/components/Inbox.tsx:141-227 | the rest of each handler does to the fields what the client's resolution step says, which AnswerIsApplied and ResolveAt spell out |
| InboxMessages.History | apps/api/src/conversations/conversations.controller.ts:342-363 | the history in chronological order is the reverse of the descending query order |
| InboxMessages.HistoryPage | apps/api/src/conversations/conversations.controller.ts:348-375 | the reversed page behind the message at any position is the stretch of the chronological history before it, with its cursor at the older end |
| InboxMessages.OpenTaken | apps/web/components/Inbox.tsx:385-391 | the first load shows exactly the newest page, with the cursor at its older end and has-more unless that is the beginning |
| InboxMessages.OlderPageTaken | apps/web/components/Inbox.tsx:399-410 | an older page behind the k-th message lets the displayed stretch p..n begin at min(p, k - limit), strictly earlier if it began at k, and moves the cursor there, although the conversation has grown since the cursor was made |
| InboxMessages.LoadingOlderReachesTheBeginning | apps/web/components/Inbox.tsx:370-417 | opening a conversation and loading older pages n times shows exactly its newest n + 1 pages, and the whole history once that covers it |
| InboxMessages.RefetchRound | apps/web/components/Inbox.tsx:296-304 | a realtime event or a reply, with at most a page of new messages, lets the list go on to the conversation's new end |
| InboxMessages.AnswerIsApplied | apps/web/components/Inbox.tsx:386-410 | what each handler does with any answer: replace, prepend or append what is new, empty the list if the first load fails, nothing if stale |
| InboxMessages.OfferedIffCursor | apps/web/components/Inbox.tsx:370-417 | over any tables "load older" is offered exactly if there is a cursor to load with |
| InboxMessages.OfferStarts | apps/web/components/Inbox.tsx:370-385 | there is no such offer before anything is open, and opening a conversation withdraws it |
| InboxMessages.StepKeepsIds | apps/web/components/Inbox.tsx:370-410 | over arbitrary tables no event puts a message in twice, and only opening a conversation takes messages away |
| InboxMessages.NoDuplicateNoLoss | apps/web/components/Inbox.tsx:296-304 | whatever happens to the conversations, the list never holds a message twice, and once the open conversation has loaded no message is lost until the next is opened |
| InboxMessages.HistoryRebuilt | apps/web/components/Inbox.tsx:370-417 | over growing conversations, through any selections, older pages, realtime events, replies, failures and late or overtaken answers, the list is a stretch of the open history in order, at least a page long unless empty, and from its very beginning after the last page, as long as refetched pages fit |
| InboxMessages.RefetchFitsIff | apps/web/components/Inbox.tsx:296-304 | fitting is exact: a refetched page with messages in it, however old, leaves the list in order if and only if it is for the open conversation and the list is empty or the page starts inside it or right behind it |
| InboxMessages.ReplyRefetchIff | apps/web/components/Inbox.tsx:499-509 | after a reply the list ends up as the conversation's newest part if and only if it is still open and at most one page has come in behind the list |
| InboxMessages.OpenThread.SelectConversation | apps/web/components/Inbox.tsx:370-385 | the protocol's select step, whatever else is in flight: new generation, conversation open, list and cursor cleared |
| InboxMessages.OpenThread.StartLoadOlder | apps/web/components/Inbox.tsx:399-406 | the protocol's load-older step, whatever else is in flight: the same request or none, and no state changed |
| InboxMessages.OpenThread.Finish | apps/web/components/Inbox.tsx:386-417 | the rest of each handler does to the fields what the view's resolution step says, which AnswerIsApplied and OlderPageTaken spell out |
| RateLimit.RunKeepsValid | apps/api/src/rate-limit/rate-limit.service.ts:39-52 | under any interleaving with late, repeated or lost PEXPIREs, creations of the key lie at least a window apart and every INCR is numbered within its lifetime |
| RateLimit.ExactAdmission | apps/api/src/rate-limit/rate-limit.service.ts:40-59 | of the n requests hitting one lifetime of a key exactly min(n, limit) are let through |
| RateLimit.AtMostTwoLives | apps/api/src/rate-limit/rate-limit.service.ts:40-52 | no interval of one window length meets three lifetimes of the key |
| RateLimit.SlidingBound | apps/api/src/rate-limit/rate-limit.service.ts:39-60 | any half-open interval of one window length lets at most 2 * limit - 1 through (the limit itself if the window is one tick), for any number of concurrent calls |
| RateLimit.SlidingBoundIsReached | apps/api/src/rate-limit/rate-limit.service.ts:39-60 | for every positive limit and window of at least two ticks a run attains 2 * limit - 1 |
| RateLimit.SlidingWindowIff | apps/api/src/rate-limit/rate-limit.service.ts:14-23 | no run and no interval exceeds the limit if and only if the limit is at most 1 or the window a single tick |
| RateLimit.NoExpiryIsOwed | apps/api/src/rate-limit/rate-limit.service.ts:42-52 | as long as no process dies, a key without an expiry has a call that still owes it one |
| RateLimit.NoExpiryMeansNobodyFinished | apps/api/src/rate-limit/rate-limit.service.ts:40-52 | in every run, processes dying included, while a key has no expiry no call that counted in its lifetime has finished |
| RateLimit.LastCommandSettles | apps/api/src/rate-limit/rate-limit.service.ts:42-52 | a call's last command, in whatever state, leaves the key absent or expiring |
| RateLimit.AbandonedKeyIsRepaired | apps/api/src/rate-limit/rate-limit.service.ts:45-51 | a call that dies after its INCR leaves a key that never expires, and the next call gives it its window |
| Redis.CounterLife | apps/api/src/rate-limit/rate-limit.service.ts:39-52 | what the counter commands do over a key's life: counted from one, keeping its expiry, gone exactly then |
| RateLimit.TraceIsACall | apps/api/src/rate-limit/rate-limit.service.ts:40-52 | a call's two or three commands with anything between them are a run of the interleaved machine |
| RateLimit.RateLimitService.Consume | apps/api/src/rate-limit/rate-limit.service.ts:32-61 | with anything happening between its commands: decided by its own INCR, exact `remaining`, the key left absent or expiring at the time reported; denial without a command at limit 0 or less |
| RateLimit.RateLimitService.SettleExpiry | apps/api/src/rate-limit/rate-limit.service.ts:42-54 | whatever others do meanwhile, a missing expiry is set or repaired and the reported reset time is the key's |
| LoginThrottle.CheckThenCountBound | apps/api/src/auth/login-throttle.service.ts:23-47 | with at most k attempts in flight, interleaved command by command, no email or address counter exceeds max - 1 + k within one lifetime |
| LoginThrottle.BoundIsReached | apps/api/src/auth/login-throttle.service.ts:23-47 | for every configuration a run from no counters at all attains max - 1 + k |
| LoginThrottle.PassedTogetherAllCount | apps/api/src/auth/login-throttle.service.ts:35-40 | attempts that passed the check together are all counted |
| LoginThrottle.LoginIsItsCommands | apps/api/src/auth/auth.service.ts:173-203 | an uninterrupted attempt in the interleaved machine, from any state with room for it, does what the login function says and leaves the other attempts as they were |
| LoginThrottle.WindowsEnd | apps/api/src/auth/login-throttle.service.ts:81-86 | a counter and its lock are gone exactly when its window is over |
| LoginThrottle.LoginThrottleService.IsLocked | apps/api/src/auth/login-throttle.service.ts:23-33 | locked exactly if one of the two counters has reached the maximum |
| LoginThrottle.LoginThrottleService.IncrementWithWindow | apps/api/src/auth/login-throttle.service.ts:81-86 | the first failure starts the window, later ones keep it; other keys are untouched |
| LoginThrottle.LoginThrottleService.RecordFailure | apps/api/src/auth/login-throttle.service.ts:35-40 | exactly the attempt's own counters go up by one |
| LoginThrottle.LoginThrottleService.Reset | apps/api/src/auth/login-throttle.service.ts:42-47 | exactly the attempt's own counters are gone |
| LoginThrottle.LoginThrottleService.Login | apps/api/src/auth/auth.service.ts:173-203 | the run of its commands in the interleaved machine; a locked attempt changes nothing, a failure counts, a success clears, nobody else's counters change |
| IdentityGraph.RunKeepsValid | packages/identity/src/split.ts:40-58 | every run of deliveries, sends, merges, splits and VIP changes keeps each message's sender live and on the message's provider, and each account's owner live |
| IdentityGraph.SplitMovesProviders | packages/identity/src/split.ts:45-58 | what a split leaves behind is still covered: accounts leave only together with their provider's messages |
| IdentityGraph.SplitMeaning | packages/identity/src/split.ts:27-75 | both refusals with their conditions; else exactly the contact's own accounts among those named, and exactly its messages on their providers, move to a new contact with its name and VIP flag |
| IdentityGraph.MergeAndMarkMeaning | apps/api/src/identity/contacts.controller.ts:92-101 | a VIP change touches only a live contact's flag, a merge step only two live and distinct contacts |
| IdentityGraph.AbsorbedIsOrphaned | packages/identity/src/merge.ts:26-39 | after any run an absorbed contact owns nothing, sent nothing, is never resolved to and cannot be split |
| IdentityGraph.MergeThenSplit | packages/identity/src/merge.ts:26-57 | merging b into a and splitting b's accounts off gives one new contact exactly those accounts, and exactly b's messages if and only if no message of a lies on a provider of b; names and VIP flags are stated as they come out |
| IdentityGraph.DisjointProvidersUndo | packages/identity/src/split.ts:40-58 | contacts without a common provider: the split undoes the merge, giving the new contact exactly b's accounts and messages and leaving a exactly its own |
| IdentityGraph.EntangledMergeIsNotUndone | packages/identity/src/split.ts:50-58 | a concrete workspace in which the split takes the surviving contact's own message away |
| IdentityGraph.SplitThenMerge | packages/identity/src/merge.ts:26-57 | splitting any accounts off and merging back restores every owner, sender and flag and leaves only a soft-deleted contact |
| IdentityGraph.ResolveKeepsValid | packages/identity/src/index.ts:29-76 | resolution returns a live owner of the account, moves no other account and keeps the invariant |
| IdentityGraph.ResolveMeaning | packages/identity/src/index.ts:29-76 | a known account changes nothing, an unknown one gets a new contact under the sender's name that is no VIP |
| IdentityGraph.IdentityStore.ResolveIdentity | packages/identity/src/index.ts:29-76 | the rows change as the resolution step says: an exact repeat, or a new contact and account |
| IdentityGraph.IdentityStore.SplitContactRows | packages/identity/src/split.ts:27-75 | outcome and rows of a split, both errors leaving everything as it was |
| IdentityGraph.IdentityStore.ApproveMerge | packages/identity/src/merge.ts:26-39 | the rows after the four statements of a merge are those of the absorption the theorems are about |
| Ingestion.ScoreExplains | apps/api/src/conversations/conversations.controller.ts:103-104 | a score is 10, plus 50 for a VIP, plus 20 for a keyword: it determines both signals, a VIP outweighs any wording, and the "needs you" threshold is reached exactly with one of them |
| Ingestion.UrgentIff | packages/shared/src/priority-score.ts:14-24 | a text is urgent exactly if one of the five keywords stands in it somewhere, in whatever capitals |
| Text.LowerMeaning | packages/shared/src/priority-score.ts:22 | the capital letters become the small ones in the same place of the alphabet, and nothing else changes |
| Ingestion.FirstArrivalDoesEverything | apps/api/src/events/events.processor.ts:102-222 | a first arrival: contact under the sender's name if unknown, message stored as delivered, conversation dated and its score raised, one emission with the score, one automation run, the scheduler restarted if inbound and cancelled otherwise |
| Ingestion.ActsKeepSound | apps/api/src/events/events.processor.ts:151-196 | every action, crashes included, keeps the records of stored messages, what was triggered for them and the highest score |
| Ingestion.EveryRunIsSound | apps/api/src/events/events.processor.ts:102-222 | through any run of deliveries, crashes in mid-delivery, replies, merges, splits and VIP changes automation ran at most once per received message, and did run exactly if no crash fell between storing and automating it; each conversation's score is the highest given and raised |
| Ingestion.LastCallFollowsLastMessage | apps/api/src/events/events.processor.ts:213-221 | in every run, crashes and replies included, the last scheduler call of a conversation is to restart exactly if the last message handled there is stored as inbound; one call for each delivery that got all the way and each reply |
| Ingestion.CutOffIsNeverAutomated | apps/api/src/events/events.processor.ts:151-211 | a delivery cut off between storing and automation stays unautomated in every later run, however often it is retried |
| Ingestion.EarlyCrashIsMadeGood | apps/api/src/events/events.processor.ts:111-169 | a delivery that dies before storing leaves no trace once it is delivered again |
| Ingestion.StagesInOrder | apps/api/src/events/events.processor.ts:111-221 | the seven points at which a delivery can stop come in the handler's order, each including those before it |
| Ingestion.DuplicatesAndOrderDoNotMatter | apps/api/src/events/events.processor.ts:102-194 | message, account and conversation keys, VIP flags and all scores depend only on the set of deliveries, from any starting state |
| Ingestion.DuplicateChangesOnlyTheDate | apps/api/src/events/events.processor.ts:139-169 | a second arrival triggers and stores nothing; only the conversation's date follows it |
| Ingestion.LastWriterWins | apps/api/src/conversations/message-send.service.ts:83-96 | the conversation's date is that of the last delivery or reply, whatever came before |
| Ingestion.ReplyMeaning | apps/api/src/conversations/message-send.service.ts:83-119 | an accepted reply is stored as an outbound message of nobody's, dates its conversation and cancels its reminders |
| Ingestion.DateGoesBackwards | apps/api/src/events/events.processor.ts:139-169 | a duplicate that arrives after a reply takes the date back behind it |
| Ingestion.EventsProcessor.ComputePriorityScore | packages/shared/src/priority-score.ts:26-31 | the accumulated score is the score function's |
| Ingestion.EventsProcessor.StoreMessage | apps/api/src/events/events.processor.ts:171-221 | a message seen for the first time: stored, scored, emitted, automated and scheduled once as the storing step says, the conversation's score raised only if exceeded |
| Ingestion.EventsProcessor.HandleMessageReceived | apps/api/src/events/events.processor.ts:102-222 | the whole handler does what the ingestion step says, early return for duplicates included |
| Suggestions.CompareIsSymmetric | packages/identity/src/matching.ts:61-75 | the verdict does not depend on which contact comes first, and means equal names, or that one of at least three characters stands somewhere in the other |
| Suggestions.NormalizeTwice | packages/identity/src/matching.ts:35-37 | a normalized name is its own normal form |
| Suggestions.NormalizedIsItsWords | packages/identity/src/matching.ts:35-37 | a normalized name is the words of the name in lower case with one space between them, so two names count as identical exactly if they have the same words |
| Suggestions.CandidatesAreTheMatchingPairs | packages/identity/src/matching.ts:55-85 | the candidates are exactly the pairs of contacts whose names match, with the confidence of the verdict |
| Suggestions.FindMergeCandidates | packages/identity/src/matching.ts:51-86 | the nested loops return exactly those candidates in scan order |
| Suggestions.SuggestAllKeeps | apps/api/src/identity/identity-matching.service.ts:49-79 | after the creation phase every candidate pair is open; each new suggestion was a candidate that was not open and expires in seven days |
| Suggestions.RunKeeps | apps/api/src/identity/identity-matching.service.ts:45-91 | over any run of sweeps, approvals, rejections and expiries each unordered pair has at most one pending or rejected suggestion, and decisions stay |
| Suggestions.DecisionMeaning | packages/identity/src/merge.ts:16-21 | a pending suggestion takes the decision and nothing else changes; an unknown or decided one is refused |
| Suggestions.RejectedIsNeverSuggestedAgain | packages/identity/src/merge.ts:62-73 | once a pair is rejected no later run suggests it again |
| Suggestions.SweepExpiresExactlyTheOverdue | apps/api/src/identity/identity-matching.service.ts:86-91 | a sweep expires exactly the pending rows that are overdue and changes no other row; new rows stay for seven days |
| Suggestions.SweepIsIdleIff | apps/api/src/identity/identity-matching.service.ts:54-64 | a sweep creates nothing if and only if every matching pair is already pending or rejected |
| Suggestions.RepeatedSweepIsIdle | apps/api/src/identity/identity-matching.service.ts:45-91 | a sweep repeated with the same names before anything expires changes nothing |
| Suggestions.IdentityMatchingService.RunOnce | apps/api/src/identity/identity-matching.service.ts:45-91 | the loop and the bulk expiry do what the sweep step says, and `created` counts the new rows |
| Suggestions.IdentityMatchingService.Review | packages/identity/src/merge.ts:62-73 | a suggestion is decided only while pending, with the two errors otherwise |
| Sessions.RunKeepsValid | apps/api/src/auth/session.service.ts:135-215 | over all runs of issue, refresh, switch, logout and logout-all each family has one user and at most one live session, in the workspace of its last issue or switch; a burned family has none; rows never change owner and revocation is final |
| Sessions.RotationOutcome | apps/api/src/auth/session.service.ts:141-182 | which of the four refusals a rotation meets and when it succeeds, expired exactly if the token is found, own, unspent and past its time; only success and reuse change the table |
| Sessions.RefreshedExactlyInTime | apps/api/src/auth/session.service.ts:180-201 | after any run, a token given out at time m is refreshed at time n by a current member exactly if it is live and n <= m + ttl; a live one later is expired and nothing changes |
| Sessions.RotationMeaning | apps/api/src/auth/session.service.ts:184-201 | a rotation ends the presented session and adds its successor with the same user and family, in the target or the old workspace |
| Sessions.IssueMeaning | apps/api/src/auth/session.service.ts:77-96 | an issue adds the new family's one session and changes no other row |
| Sessions.MembershipMeaning | apps/api/src/auth/auth.service.ts:261-338 | a refresh changes the table as the plain rotation does, whatever the membership; a switch without membership does not begin |
| Sessions.ReuseIsFinal | apps/api/src/auth/session.service.ts:156-178 | once reuse is detected the family has no live session in any later state |
| Sessions.DoubleUseKillsFamily | apps/api/src/auth/session.service.ts:156-201 | if one token is used twice to refresh, whatever happens in between, its family is dead from then on |
| Sessions.RefreshStaysAtHome | apps/api/src/auth/auth.service.ts:261-286 | a refresh keeps user, family and workspace, and succeeds only for a current member |
| Sessions.RejectedSwitchChanges | apps/api/src/auth/auth.service.ts:312-338 | a rejected switch changes no row, except exactly when a member presents a spent token of a family that is still live |
| Sessions.RejectedSwitchEndsSession | apps/api/src/auth/session.service.ts:156-178 | after an issue and one refresh, a switch with the spent token is rejected and ends the live session |
| Sessions.SwitchIsOwn | apps/api/src/auth/session.service.ts:149-154 | a switch never touches another user's session |
| Sessions.LogoutAllIsExact | apps/api/src/auth/session.service.ts:238-245 | logging out everywhere revokes exactly the user's live sessions |
| Sessions.LogoutIsExact | apps/api/src/auth/session.service.ts:218-226 | logging out ends exactly the presented session |
| Sessions.OtherFamiliesUntouched | apps/api/src/auth/session.service.ts:160-163 | a call changes no row outside the presented token's family or the user's own |
| Sessions.SessionService.RotateToken | apps/api/src/auth/session.service.ts:135-215 | outcome and rows of a rotation, each refusal in its order |
| Sessions.SessionService.IssueSession | apps/api/src/auth/session.service.ts:77-96 | a new family with one live session |
| Sessions.SessionService.Revoke | apps/api/src/auth/session.service.ts:218-226 | exactly the presented session is revoked, if it is live |
| Sessions.SessionService.RefreshSession | apps/api/src/auth/auth.service.ts:261-286 | the membership is looked up after the rotation, which stands even if it fails |
| Sessions.SessionService.SwitchWorkspace | apps/api/src/auth/auth.service.ts:312-338 | the membership is looked up before any session is touched |
| RefreshClient.StepKeepsSingleFlight | apps/web/lib/api.ts:31-69 | at most one refresh is in flight, exactly while the promise is set, and whoever waits waits for it |
| RefreshClient.ReuseIffStranded | apps/web/lib/api.ts:31-69 | after a login, under any interleaving of callers, servers, losses and other sessions, the cookie is the family's one live token whenever nothing is in flight and the client was not stranded, and reuse is detected exactly if it was |
| RefreshClient.CalmIsNeverStranded | apps/web/lib/api.ts:122-130 | with no lost response, membership kept and no logout everywhere, reuse detection is never reached |
| RefreshClient.LostRotationLooksLikeTheft | apps/web/lib/api.ts:122-130 | one lost rotation, and the next refresh burns the family |
| RefreshClient.OneRefreshOneRetry | apps/web/lib/api.ts:57-69 | in every run each call joins at most one refresh and sends at most one retry, and none without having joined |
| RefreshClient.ExpiredCallIsRetried | apps/web/lib/api.ts:57-69 | a call that meets an expired access token, with session in time and membership kept, is refreshed and retried, and the browser holds the family's next token |
| RefreshClient.SettledCallers | apps/web/lib/api.ts:36-62 | when the refresh settles, whoever waits retries if it brought a token and gets the 401 back otherwise |
| RefreshClient.AnsweredCalls | apps/web/lib/api.ts:57-69 | a call that is not turned away, or whose retry is answered, is done, and no refresh is started for it |
| RefreshClient.ApiClient.GetOrStartRefresh | apps/web/lib/api.ts:34-48 | only a caller that finds no refresh pending starts one |
| RefreshClient.ApiClient.SettleRefresh | apps/web/lib/api.ts:36-45 | everyone waiting gets the same outcome and the promise is cleared |
| ETag.TagRoundTrip | apps/api/src/common/etag.ts:16-25 | any tag is read back as the version it was made from, weak or not and however it is spaced |
| ETag.BareHeader | apps/api/src/common/etag.ts:20-25 | a header without quotes is accepted as it stands |
| Text.SpacesAre | apps/api/src/common/etag.ts:23 | what trimming removes are the 25 white space and line ending characters of ECMAScript |
| ETag.TagDeclaresVersion | apps/api/src/automation/rules.controller.ts:217-219 | sending a tag back declares exactly its version number, and different versions have different tags |
| ETag.NotModifiedIffCurrent | apps/api/src/automation/rules.controller.ts:133-137 | a conditional GET is answered 304 exactly for the current version's tag |
| ETag.NewIsNoVersion | apps/api/src/notification-preferences/notification-preferences.controller.ts:10-11 | the "not yet created" tag is no version's tag and is read as no version |
| Rules.MergeMeaning | apps/api/src/automation/rules.controller.ts:190-212 | an accepted body sets exactly the fields it mentions, whichever way it is processed, and the trigger type column follows the trigger |
| Rules.TruthinessMeaning | apps/api/src/automation/rules.controller.ts:192-201 | which values of a body count as not given |
| Rules.CreateMeaning | apps/api/src/automation/rules.controller.ts:141-159 | what is created, with its defaults, and which of several faults is reported |
| Rules.TriggerMeaning | apps/api/src/automation/rule-validation.ts:44-54 | exactly the two registered triggers are accepted, the timed one only with a positive number of hours |
| Rules.ConditionsMeaning | apps/api/src/automation/rule-validation.ts:21-32 | a condition is AND, OR or NOT of conditions, or a field with an operator |
| Rules.ActionsMeaning | apps/api/src/automation/rule-validation.ts:60-67 | actions are a non-empty list, each with a type |
| Rules.RejectedIff | apps/api/src/automation/rule-validation.ts:34-77 | a body is rejected exactly if it is a full edit and a field it mentions is not valid |
| Rules.MergeKeepsWellFormed | apps/api/src/automation/rule-validation.ts:34-77 | every stored rule stays valid under its own validation |
| Rules.MergeTwice | apps/api/src/automation/rules.controller.ts:190-212 | applying an accepted body twice is applying it once |
| Rules.UndisturbedUpdate | apps/api/src/automation/rules.controller.ts:174-243 | with nothing in between, an update with a tag stores the merged rule under the next version exactly if the tag is the row's; without a header it is refused |
| Rules.EveryWriteMergesWhatItRead | apps/api/src/automation/rules.controller.ts:181-242 | whatever versions clients declare, the version counts the successes and each success stored its body merged with the version its request read, which is the declared one exactly if that was not ahead of the read |
| Rules.NoLostUpdate | apps/api/src/automation/rules.controller.ts:181-242 | if clients declare only versions a response showed them, version k+1 is patch k merged with version k, for every interleaving of reads, writes and deletions |
| Rules.GuessingAheadLosesUpdate | apps/api/src/automation/rules.controller.ts:214-230 | for every rule and version, a client that guesses the next version undoes a change it never mentioned |
| Rules.DeletedRuleIsStillWritten | apps/api/src/automation/rules.controller.ts:186-230 | an update that read before a deletion still writes after it |
| Rules.ResponsesShowTheVersion | apps/api/src/automation/rules.controller.ts:231-242 | a read of a rule that exists and every answered write, successful or not, show the version as it is then |
| Rules.RulesController.ReadAndMerge | apps/api/src/automation/rules.controller.ts:181-212 | 428 without a header, 404 if deleted, 400 if invalid, in this order, else the pending write |
| Rules.RulesController.ConditionalWrite | apps/api/src/automation/rules.controller.ts:217-241 | the row is written and its version raised exactly if the declared version is current; the answer carries the current tag |
| Preferences.PreferencesNeverLoseAnUpdate | apps/api/src/notification-preferences/notification-preferences.controller.ts:98-146 | for all tags and interleavings the settings are all successful patches laid over the defaults in order, and the version counts them |
| Preferences.LastMentionWins | apps/api/src/notification-preferences/notification-preferences.controller.ts:125-130 | a field whose last mention gave it a value has that value |
| Preferences.WriteMeaning | apps/api/src/notification-preferences/notification-preferences.controller.ts:107-132 | a write that succeeds stores each given value, and the default or the old value for the rest |
| Preferences.OneUpdate | apps/api/src/notification-preferences/notification-preferences.controller.ts:73-147 | a client by itself: the first update with "new" creates the row, one with the row's tag is laid over it, any other version stores nothing |
| Preferences.MalformedTimeIsRefused | apps/api/src/notification-preferences/notification-preferences.controller.ts:80-93 | an update is refused for its times exactly if one is given, not null and not a time of day |
| Preferences.TimesOfDay | apps/api/src/notification-preferences/notification-preferences.controller.ts:20 | the accepted times are the 24 * 60 minutes of a day with two digits each |
| Preferences.UnmentionedStays | apps/api/src/notification-preferences/notification-preferences.controller.ts:125-130 | a field is as the last patch that mentioned it left it |
| Preferences.OnlyOneCreates | apps/api/src/notification-preferences/notification-preferences.controller.ts:103-117 | of several first updates that found no row only one creates it |
| Preferences.UpdatesIffCurrent | apps/api/src/notification-preferences/notification-preferences.controller.ts:103-141 | an update succeeds exactly with the row's own tag; a stale "new" and a version without a row are refused |
| Preferences.PreferencesController.CreateOrUpdate | apps/api/src/notification-preferences/notification-preferences.controller.ts:103-141 | the row after the one writing statement, in all four outcomes |
| Preferences.PreferencesController.Check | apps/api/src/notification-preferences/notification-preferences.controller.ts:80-106 | the refusals before the write, in their order |
| Scheduler.WaitingIsUnanswered | apps/api/src/automation/scheduler.service.ts:93-101 | the backward scan of the log finds a time exactly if an inbound message then has nothing after it for the rule and conversation |
| Scheduler.RunKeepsGood | apps/api/src/automation/scheduler.service.ts:63-110 | in every state a reminder is pending exactly for the unanswered conversations, due the rule's delay after the message |
| Scheduler.EveryReminderIsJustified | apps/api/src/automation/scheduler.service.ts:103-110 | whatever the queue loses, keeps or redelivers, every trigger has an inbound message at least the delay earlier and nothing in, out or triggered in between |
| Scheduler.UnansweredIsReminded | apps/api/src/automation/scheduler.service.ts:63-110 | with a queue that loses nothing every unanswered message has its job waiting, and delivering it when due executes the trigger |
| Scheduler.ScheduleAllSets | apps/api/src/automation/scheduler.service.ts:69-90 | scheduling leaves each enabled rule's row pending its delay from now, however often it was scheduled before |
| Scheduler.CancelMeaning | apps/api/src/automation/scheduler.service.ts:94-101 | cancelling ends exactly the conversation's pending rows and takes exactly their jobs out of the queue |
| Scheduler.FireMeaning | apps/api/src/automation/scheduler.service.ts:103-110 | firing completes exactly the row the job was issued for and executes one trigger, or does nothing |
| Scheduler.QueueMeaning | apps/api/src/automation/scheduler.service.ts:84-89 | a lost job only empties its place in the queue, a delivered one leaves it, and all others stay |
| Scheduler.SchedulerService.ScheduleNoReplyRules | apps/api/src/automation/scheduler.service.ts:63-91 | the loop over the rules does what the scheduling step says, rules without a delay skipped |
| Scheduler.SchedulerService.CancelNoReplyRules | apps/api/src/automation/scheduler.service.ts:94-101 | exactly the conversation's pending rows are cancelled and their jobs removed |
| Scheduler.SchedulerService.FireJob | apps/api/src/automation/scheduler.service.ts:103-110 | the trigger is executed exactly if a pending row still has the job's id, and the row is completed first |

## Left out

- The fallbacks for a missing sender name (handle, then "Unknown") are the caller's: a delivery comes with its name.
- HTTP routing, guards, React rendering, Prisma, Redis and BullMQ internals; the base64url encoding of cursors (a cursor is its decoded value, a malformed one is no cursor).
- Columns that are dates or strings are represented by their rank in the column's order; workspaces other than one, and filters that are plain WHERE conditions, are left to the choice of the table.
- Loading flags and error texts of the client: nothing is claimed about "load more" becoming available again. State set by a handler is taken to be visible when the next handler starts.
- InboxMessages.HistoryRebuilt: new messages come in at the end of their conversation and none is removed; for one that is dated into the middle only `InboxMessages.NoDuplicateNoLoss` is claimed.
- RateLimit.RateLimitService.Consume: the service's clock is read at the moment of the command whose answer it follows.
- Scheduler: an inbound message is dated by the moment of its scheduling, as the code does; editing or disabling the rule while a job is pending and messages sent by automation actions are not modelled.
- Rotate, splits, merges, sweeps and scheduling are taken as whole steps, and a delivery as one step that may stop part of the way: the code does not lock them, and nothing is claimed about two of them interleaved statement by statement.
- Merging a contact that another merge has already absorbed: a merge step changes nothing unless both contacts are live and distinct.
- RefreshClient.ReuseIffStranded: does not model a workspace switch, a logout or a second tab of the same browser rotating the cookie in parallel; the cookie's own expiry in the browser is not modelled.
- Ingestion.DuplicatesAndOrderDoNotMatter: VIP flags do not change between the deliveries, and a message key always comes with the same sender and text; contact ids and the conversation's date do depend on the order.
- Suggestions.NormalizeTwice: lower case is that of ASCII letters. For the urgency keywords this makes no difference (the only other character that yields one of their letters, U+0130, yields it followed by a combining dot), but display names in other alphabets are compared as they are spelled.
- ETag.TagDeclaresVersion: a declared version that is not a plain digit string is read as no version, while the program's number parsing also accepts signs, exponents and radix prefixes; `If-Match: *` and tag lists are not treated by the code either.
- A priority that is not an integer, and column widths, which the database rejects.
- The audit logs, metrics and suggestion evidence texts; full-text search, redaction, the AI heuristics, OAuth, signatures, CORS and configuration.
- The lifecycle table, the condition evaluator, silent hours, the credit ledger, synthetic sync and password-reset tokens: easier members of the same kinds.
- Workspace deletion and membership management: memberships are a parameter of each call.
