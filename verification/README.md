# dns-cache, modelled and proved in Dafny

dns-cache is a local DNS server that keeps the names a household really uses fresh while nobody asks
for them. Its promises rest on several pieces of code agreeing about time, days and bits: a 64-bit
usage word, a shared cache, a refresher with a prefetch window and a backoff, an incremental save to a
database, and a handler that chooses between a fresh, a late, an upstream and a stale answer. This
project models those pieces and proves the promises over every input, every run or every reachable
state. `dafny verify dfyconfig.toml` checks all of it.

## Layout

| file | what it holds |
|---|---|
| Bits, UsageDays | 32-bit masks; the packed usage word refines a set of days |
| UsageDaysRace | any number of goroutines in MarkUsed: linearizable, with bounded retries |
| Clock, Dns, Keys, Options, Sets | instants and local days, DNS messages, cache keys, two helpers |
| Entries, Window, CacheModel | the entry, the configuration, the sliding window and the cache on values |
| Cache | the cache with its shared entry objects, updated in place, proved against CacheModel |
| RefreshModel, Refresher | backoff, selection and pruning on values; the refresher as the source has it |
| RefreshRules, CacheRules | what the refresher decides and what each cache operation and run leaves, in the source's own fields and numbers |
| Server, CacheInvariant, AlwaysFresh, ServerRuns | the server as one state machine and the theorems over its runs |
| Rows, PersistProtocol, Persistence, SaveRuns | the row mapping, the save protocol over all interleavings, the database and the save loop, and its rounds as runs of the protocol |
| Startup, Lifetime | what a start makes of the rows; server and save protocol together over events, row-by-row saves, cleanups and restarts in any sequence |
| Shortfalls | runs from an empty cache in which the server falls short of its documentation |
| Handler | the query handler, its serving rule, and each of its calls as a run of the state machine |
| Settings | the limits normalize puts on the configuration |

Two forms stand side by side. What the source updates in place is a class with the same fields and
loops, and each of its methods states its result as a function of the old state. What the source
promises is proved of those functions, and of the state machines built from them.

## Assumptions

- Instants and durations are integer nanoseconds. The zone offset is fixed in the runs;
  `Clock.DaysApartNeedsZone` and `RefreshModel.PruneSparesUsualIff` say exactly when a zone that moves
  back does harm. The state machines' clock never goes back; the usage
  word is proved for clocks that do. Day numbers are below 2^32.
- A `Get`, `Set` or `GetStale` happens with its clock read at one instant. One refresher cycle
  (snapshot, prune, select) is one step; its refreshes are later steps that interleave with clients.
  In the save protocol clock reads may be older than the change they stamp: down to the last save while
  the save in progress has still to read the entry, else down to its start. Nothing weaker would do:
  `PersistProtocol.ChangeNeedsFreshStamp` for requests and stale serves at any moment of a save,
  `PersistProtocol.InstallNeedsFreshStamp` for insertions.
- The configuration is as normalize leaves it (`Settings.UnchangedIffWithinLimits`), and in addition
  ttl_min <= ttl_max and the refresh interval is positive, which normalize does not check.
- The save loop reads its first reference time as the loaded entries enter the cache. The source reads it
  in a goroutine that may start after the first requests (main.go:110-114); a change in between would
  not be saved until the next one.
- The share of a life that a hit count earns is a real number, rounded down. Counters do not wrap.
- A message packs and unpacks to itself. The canonical form of a name is ASCII lower case with a final
  dot (section 6.2 of RFC 4034).
- Maps are walked in any order, as in Go. The sort is any permutation that respects the priority.

## Where the code and its documentation differ

- `refreshBackoffShift` caps the shift at 10, but a refresh interval of 18014399 seconds still overflows
  into a wait of 8 minutes instead of 30: `RefreshModel.WaitOverflows`, and `RefreshModel.WaitExactIff`
  for exactly when the wait is right.
- The comment on isCacheable says a truncated answer is never cached. The refresher checks the rcode
  alone: `Shortfalls.RefreshCachesTruncated`, and `ServerRuns.StepKeepsCompleteIff` for the exact step.
- A restart is meant to keep the life the configuration allows. With a TTL clamped to zero the column
  reads as missing and the upstream's TTL comes back: `Rows.ZeroTtlMaxLengthens`,
  `Rows.ReloadNeverLengthensIff`.
- The hourly cleanup is meant to spare the usage history, but goes by fetch time where the load goes by
  last request: `Rows.CleanupTakesLoadable`, and `Rows.CleanupSparesLoadableIff` for the exact rows.
- The comment in respond says a client that uses EDNS0 gets an OPT record back. A SERVFAIL of the handler's
  own does not go through respond and has none, although section 6.1.1 of RFC 6891 asks for an OPT record in every reply to a request that has one:
  `Handler.ServFailDropsOpt`, and `Handler.OptAnsweredIff` for exactly which replies have one.
- "LRU eviction" looks at 8 entries only: `Shortfalls.NineNamesNotLru` has a run in which a newer entry
  may go first, `CacheModel.EvictionIsLruIff` says exactly in which caches that cannot happen.

## Model

| member | source | states |
|---|---|---|
| Bits.ShlIsShift | cache/entry.go:86 | the shift the model takes bit by bit is the machine's shift, for every amount up to the full 32 bits, where it gives 0 |
| Bits.BitShl | cache/entry.go:86 | after a shift by s, bit i is the old bit i - s, and the low s bits are clear |
| Bits.BitOfKeep | cache/entry.go:105 | the keep mask for k days has exactly the low k bits |
| Bits.KeepIsShift | cache/entry.go:105 | that mask is 1<<k - 1, up to the full 32 bits, where the shift leaves 0 |
| Bits.ValueIsConversion | cache/entry.go:78 | the value read from a mask by halving is the machine's conversion to an integer |
| Clock.LocalDayMonotone | cache/entry.go:61-64 | later instants never have an earlier local day |
| Clock.LocalDayInNanoseconds | cache/entry.go:61-64 | an instant is in local day d exactly when the zone's clock is between d and d + 1 times 86400 seconds |
| Clock.DaysApart | cache/entry.go:61-64 | instants more than w times 24 hours apart are at least w calendar days apart, if the zone does not move back |
| Clock.DaysApartNeedsZone | cache/entry.go:61-64 | for every w that holds at every instant exactly when the zone does not move back |
| Clock.DaysApartButOne | cache/entry.go:61-64 | a zone that moves back by at most a day costs at most one of the w days |
| UsageDays.MarkRefinesInsert | cache/entry.go:73-92 | one MarkUsed on a word that stands for a set of days gives a word that stands for the set with max(day, last day) added, whatever the gap |
| UsageDays.MarkAllRefinesSet | cache/entry.go:73-92 | so does any sequence of MarkUsed calls, the clock going back or not |
| UsageDays.DaysUsedCountsWindow | cache/entry.go:94-107 | DaysUsed is the number of recorded days among the last w, for every w from 1 to 32, including histories older than the mask |
| UsageDays.PackIsOneDay | cache/entry.go:66-69 | the word of a new entry stands for its insertion day alone |
| UsageDays.NoWriteIffSettled | cache/entry.go:88 | MarkUsed leaves the word alone exactly when the word already has its last day at or past the day and bit 0 set |
| UsageDaysRace.CallsTakeEffectInSomeOrder | cache/entry.go:73-92 | for any number of calls and any interleaving of loads and swaps, the final word is the calls applied one after another, each once, in an order in which a call that returned before another did comes first |
| UsageDaysRace.RetriesAreBounded | cache/entry.go:75-91 | under every schedule a call takes at most two steps per distinct day in play plus four: the retry loop ends |
| UsageDaysRace.StepUsesPotential | cache/entry.go:75-91 | each step of a call lowers its own termination measure and never raises another call's |
| UsageDaysRace.WriteGrows | cache/entry.go:73-92 | a write never lowers the last day nor clears bit 0 |
| Keys.KeyFaithful | cache/entry.go:112-114 | two questions have the same key exactly when their canonical names and types are equal, colons in names or not |
| Keys.KeyIgnoresCaseOnly | cache/entry.go:109-114 | fully qualified names have the same key for a type exactly when they have the same letters, upper or lower case |
| Keys.KeyAddsDot | cache/entry.go:112-114 | a name without its final dot has the key of the name with it |
| Keys.KeyText | cache/entry.go:112-114 | the key of a canonical name is the name, a colon and the type in decimal |
| Keys.KeyOfCanonical | cache/cache.go:194-206 | canonicalizing first does not change the key, so lookups and insertions agree |
| Dns.CopyAndSetTtl | cache/entry.go:116-131 | every answer, authority and additional record gets the TTL, except OPT records; everything else is kept |
| Dns.StripOpt | handler.go:163-171 | the loop keeps the records that are not OPT, in order |
| Dns.WithoutOptKeepsTheRest | handler.go:163-171 | stripping removes every OPT record and keeps every other with its multiplicity |
| Dns.WithoutOptInOrder | handler.go:163-171 | stripping looks at each record by itself and keeps the order |
| Dns.WithoutOptOfOne | handler.go:163-171 | exactly a record of type 41 goes |
| Dns.SetTtlKeepsTheRest | cache/entry.go:116-131 | record by record: only TTLs change, and not those of OPT records |
| Entries.NegativeTtlIsFirstSoa | cache/cache.go:168-179 | the TTL of an answerless reply is the smaller of the two of its first SOA (section 5 of RFC 2308), or the caller's without one |
| Entries.ClampTtlInRange | cache/cache.go:184-190 | the applied TTL is within the bounds, and unchanged if it was |
| Entries.NewEntryKey | cache/cache.go:192-206 | the key an answer is stored under is the one the handler looks up |
| CacheRules.ReplyStores | cache/cache.go:167-226 | a reply to a client or to a refresh leaves under its key the answer fetched now, for the first record's TTL or the first SOA's, 60 without one, within the bounds; a new key starts with one hit and today, a known one keeps hits, last request and days; no other entry changes but the victim |
| CacheRules.StoredRcodes | handler.go:116-121 | a client's answer is stored with rcode 0 or 3 and not truncated, a refresh's with rcode 0 |
| CacheRules.RunKeepsRcodes | handler.go:105-121 | over any run every cached answer has rcode 0 or 3 |
| Entries.ServableUntilLife | cache/cache.go:129-134 | Get serves an entry exactly until max(TTL, max_age) after its fetch, the refresher's deadline |
| Window.RecordCounts | cache/cache.go:293-314 | one more event counts once while inside the window; a bucket emptied for reuse had already left it |
| Window.WindowIsLog | cache/cache.go:293-327 | after any log at non-decreasing minutes the window's sums are the hits and misses of the last 15 minutes, despite reuse modulo 15 |
| CacheRules.WindowCountsLookups | cache/cache.go:293-327 | over any run the sums at its end are the lookups of the last 15 minutes, served and not |
| CacheModel.EvictsOne | cache/cache.go:228-254 | on a non-empty cache with recencies below the int64 maximum exactly one entry goes |
| CacheModel.EvictsInHours | cache/cache.go:228-254 | an entry may be evicted exactly when it is more than 24 hours past its expiry or the least recent of a sample of min(8, n) entries none of which is |
| CacheModel.EvictsOnlyWhenFull | cache/cache.go:215-223 | an insertion evicts exactly when its key is new and the cache full |
| CacheModel.EvictionIsLruIff | cache/cache.go:228-254 | for every cache the eviction is LRU under all iteration orders exactly when no dead entry was asked for later than another and fewer than 8 live entries are newer than the least recent, or all of those are at the int64 maximum |
| CacheModel.SmallCacheIsLru | cache/cache.go:228-254 | so with at most 8 entries, none dead, the least recently used of all goes |
| Shortfalls.NineNamesNotLru | cache/cache.go:228-254 | a run from an empty cache of nine entries after which the next insertion may evict the second name and keep the older first |
| Caches.CachedEntry.MarkUsed | cache/entry.go:73-92 | the retry loop, with other goroutines writing between load and swap, takes effect as one call after some of theirs |
| Caches.Cache.constructor | cache/cache.go:96-102 | an empty cache, counters and window at zero |
| Caches.Cache.Get | cache/cache.go:104-143 | the whole new state: recency and usage days for any hit on the map, hit count and counters by whether the entry may be served, one window event; the result is the map's own object |
| Caches.Cache.GetStale | cache/cache.go:148-165 | an entry at most 24 hours past its expiry, only with stale serving on; its hits and recency move, its usage days do not |
| CacheRules.LookupInFields | cache/cache.go:104-143 | a lookup sets the entry's last request and marks today, served or not, and adds a hit when the entry is not past its expiry or no older than max_age; nothing else changes in any entry |
| CacheRules.StaleInFields | cache/cache.go:148-165 | a stale serve adds a hit and sets the last request, up to 24 hours past the expiry; no day is marked |
| CacheRules.CountersCountEvents | cache/cache.go:104-165 | over any run each of the six counters grows by exactly the events it is for, late hits by the hits past the expiry |
| Caches.Cache.Set | cache/cache.go:167-226 | the stored entry, inheriting hits, recency and usage days from one it replaces; eviction only for a new key in a full cache |
| Caches.Cache.Put | cache/cache.go:208-225 | the part under the lock, for any entry object not yet in the map |
| Caches.Cache.Build | cache/cache.go:168-204 | a fresh object with the negative TTL, the 60 second fallback and the clamp |
| Caches.FirstSoaTtl | cache/cache.go:168-179 | the loop stops at the first SOA record |
| Caches.Cache.EvictOne | cache/cache.go:228-254 | the map loses exactly the victim, a dead entry or the least recent of a sample |
| Caches.ChooseVictim | cache/cache.go:236-253 | for every iteration order the loop ends with a dead entry, or the least recent of min(8, n) live ones, or none when all recencies are at the maximum |
| Caches.Cache.RecordWindow | cache/cache.go:293-314 | one window event, without concurrent writers |
| Caches.Cache.WindowStats | cache/cache.go:317-327 | the sums over the buckets past the cutoff, which Window.WindowIsLog equates with the log |
| Caches.Cache.Delete | cache/cache.go:256-260 | the key goes, every other object stays |
| Caches.Cache.LoadEntry | cache/cache.go:286-290 | the object is filed under its own key |
| Caches.Cache.Snapshot | cache/cache.go:276-284 | the snapshot holds the map's own entry objects |
| CacheInvariant.InsertWithinCapacity | cache/cache.go:208-225 | an insertion never takes the size past a bound of at least max_entries and 1 that it was within |
| CacheInvariant.StepKeepsConsistent | cache/cache.go:104-226 | every step of the server keeps each entry filed under its key, its expiry at fetch plus TTL, its TTL within bounds unless loaded, and its history no later than its last request |
| CacheInvariant.StepKeepsInv | cache/cache.go:208-225 | every step also keeps the size within max(max_entries, entries loaded at the start, 1) |
| CacheInvariant.RunKeepsInv | cache/cache.go:104-226 | both over all runs; Lifetime.EveryLifeIsGood says where runs start |
| RefreshModel.WaitExact | refresher.go:257-264 | for intervals below 2^53 ns the wait is min(interval * 2^min(count, 10), 30 min), and positive |
| RefreshModel.WaitExactIff | refresher.go:257-264 | for every positive interval the wait is right exactly when the int64 shift does not overflow or the guard catches it |
| RefreshModel.WaitOverflows | refresher.go:257-264 | an interval in whole seconds for which it is not: 8 minutes instead of 30 |
| RefreshModel.WaitMonotone | refresher.go:257-264 | more failures never wait less |
| RefreshRules.WaitWithinHalfHour | refresher.go:257-264 | for every interval a wait is positive and at most 30 minutes |
| RefreshRules.DefaultWaits | refresher.go:257-264 | at 30 seconds: one minute, doubling, 30 minutes from the sixth failure on |
| RefreshRules.FailureInNumbers | refresher.go:246-266 | a failure adds one to the key's count, sets its next try that wait away, and touches no other key |
| RefreshRules.SuccessForgets | refresher.go:268-272 | a successful refresh forgets the key's failures and no other's |
| RefreshRules.BackoffEnds | refresher.go:239-244 | once the next try has come, a usual entry whose life is over is a candidate, and refreshed among at most 500 |
| RefreshRules.NoBackoffAfterHalfHour | refresher.go:162-165 | over any run a key whose last failure is at least 30 minutes old is not in backoff at a tick |
| RefreshModel.PopularIsDueFirst | refresher.go:167-180 | of two entries fetched together with the same TTL, the one with more hits is due whenever the other is, with the same urgency |
| RefreshRules.VerdictInNumbers | refresher.go:157-180 | the verdict on every entry exactly: cold, in backoff, overdue, due within one and a half intervals or 30, 20, 15 or 10 percent of max(TTL, max_age) by hits, else left alone |
| RefreshRules.CandidatesInNumbers | refresher.go:155-181 | a tick's candidates are usual entries past their next try, with their own hits, overdue when their life is over |
| RefreshRules.PicksInOrder | refresher.go:183-196 | overdue first, then hits never increase; a candidate is left out only when 500 are in, all of them in front of it |
| RefreshRules.TickDropsInNumbers | refresher.go:97-98 | a tick drops exactly the entries past their expiry that nobody asked for in the keep window, and the failures of keys not cached |
| RefreshModel.FewCandidatesAllPicked | refresher.go:183-196 | with at most 500 candidates none is left out |
| RefreshModel.LongUnusedIsCold | cache/entry.go:96-107 | an entry nobody asked for during a whole keep window has no usage day in it |
| RefreshModel.UnusedIsCold | refresher.go:290-298 | what pruneUnused drops, by nanoseconds, is never usual, by days |
| RefreshModel.PruneSparesUsualIff | refresher.go:290-298 | for zones that differ by at most a day, what pruneUnused drops is never usual exactly when the zone did not move back or usual means at least two days |
| Refreshers.Collect | refresher.go:155-181 | for every iteration order the candidates are the due entries, each once, and the two counters are the sizes of the cold and the backoff class |
| Refreshers.Sort | refresher.go:187-192 | a permutation with no candidate behind one it outranks |
| Refreshers.CutPicks | refresher.go:187-196 | the first 500 of the sorted candidates: none twice, min(500, n) of them, and none left out outranks one that is in |
| Refreshers.Select | refresher.go:143-203 | the three together, for every snapshot and failure map; the two counters, the entries not due and the due ones add up to the snapshot |
| Refreshers.Refresher.NoteFailure | refresher.go:246-266 | the count goes up by one and the next try is the capped wait away |
| Refreshers.Refresher.NoteSuccess | refresher.go:268-272 | the failures of the key are forgotten, no others |
| Refreshers.Refresher.PruneFailures | refresher.go:276-284 | exactly the failures of keys in the snapshot stay |
| Refreshers.Refresher.PruneUnused | refresher.go:290-298 | deleting while walking removes exactly the unused entries and touches nothing else |
| Refreshers.Refresher.SelectCandidates | refresher.go:143-203 | the returned entries are the snapshot's own objects in candidate order, with both counts |
| Refreshers.Refresher.RefreshCycle | refresher.go:90-103 | one cycle is one tick of the state machine, and does nothing on an empty snapshot |
| Refreshers.Refresher.RefreshEntry | refresher.go:205-236 | an error or an rcode other than NOERROR counts a failure and keeps the old entry; otherwise the failures go and the answer is stored, a zero TTL as 60 |
| AlwaysFresh.StepKeepsFresh | refresher.go:143-181 | every timely step leaves the entry's answer alive past the deadline of its next refresh |
| AlwaysFresh.UsualNamesStayFresh | refresher.go:132-181 | over every run where tick gap plus latency stays within one and a half intervals, refreshes of the name succeed, no cycle has over 500 candidates and the name is usual at every tick and not evicted, a query for it is a hit at every instant, however long nobody asked |
| AlwaysFresh.FreshAfterReply | cache/cache.go:192-224 | the condition of that theorem holds right after an answer arrives |
| AlwaysFresh.FreshAfterRefresh | refresher.go:219-235 | and right after the first refresh of a name whose answer was overdue, as after a restart |
| ServerRuns.HistoryIgnoresRefreshes | cache/cache.go:209-218 | while a key stays cached its usage word is the fold of client requests alone and its hit count grows by served replies alone, whatever refreshes are interleaved |
| CacheRules.RecencyIgnoresRefreshes | cache/cache.go:209-218 | while a key stays cached its last request is the last lookup or served stale serve, whatever refreshes are interleaved |
| ServerRuns.DaysUsedCountsClientDays | cache/entry.go:94-107 | so DaysUsed counts the distinct days clients asked, over any run |
| ServerRuns.DaysUsedSinceInsertion | cache/cache.go:192-218 | counted from the insertion, whose day is included |
| CacheRules.UsualIffAskedOften | cache/cache.go:68-71 | over any run a name is usual exactly when clients asked for it on at least keep_min_days of the last keep_window_days days, its first included |
| ServerRuns.RunKeepsBalance | handler.go:39-74 | over all runs queries = hits + misses + handlers before the end of Get, late hits <= hits, and stale serves <= errors <= misses |
| ServerRuns.TickDropsOnlyCold | refresher.go:97-100 | a cycle never drops a usual entry, and selects none of those it drops |
| ServerRuns.StepKeepsCompleteIff | refresher.go:219-235 | a step keeps the cache free of truncated answers exactly when it is not a refresh that got one |
| Shortfalls.RefreshCachesTruncated | refresher.go:219-235 | with the default configuration, a run from an empty cache in which a refresh puts a truncated answer in the cache |
| ServerRuns.AnswersHaveASource | cache/cache.go:167-226 | over any run the answer cached under a key was there at the start or was given during the run to a question with that key |
| ServerRuns.FailuresSpanWaits | refresher.go:162-165 | n failures in a row of a cached key span at least the sum of the waits between them |
| Rows.ReloadKeepsEntry | persistence.go:151-206 | a save and a load give back the entry, with fetch and expiry earlier by less than a second, for positive whole-second TTLs |
| Rows.SecondReloadIsIdentity | persistence.go:151-206 | saving and loading what was loaded changes nothing, for every row, legacy columns included |
| Rows.SavedColumns | persistence.go:225-226 | what each column of a saved row holds |
| Rows.LoadedColumns | persistence.go:151-206 | every row loads as its columns tell, missing ones included: last request from the fetch, days from the last request, TTL from the upstream's; and exactly when its last request is within the keep window |
| Rows.CleanedInSeconds | persistence.go:268-276 | a row is cleaned up when the whole second of its fetch is over by the cutoff |
| Rows.ReloadNeverLengthensIff | persistence.go:159-163 | a restart lengthens no life exactly when the applied TTL is positive |
| Rows.ZeroTtlMaxLengthens | persistence.go:159-163 | with ttl_max 0 an expired answer comes back with a day to live |
| Rows.RestartKeepsUsual | persistence.go:178-187 | every entry that is usual at a later start passes the load filter and is usual again under the same key |
| Rows.CleanupSparesLoadableIff | persistence.go:268-276 | cleanup spares a row as long as it is loadable exactly when its last request was soon enough after its fetch |
| Rows.CleanupTakesLoadable | persistence.go:268-276 | for every configuration, a name asked for again ten seconds after its fetch whose row is deleted while it is loadable |
| PersistProtocol.StepKeepsInv | main.go:204-240 | every request, insertion, removal, scan step, row write, commit, failed save and restart keeps: with a save in progress, an unmatched key is in the batch or stamped since the save began, even if its entry was replaced meanwhile |
| PersistProtocol.NoChangeIsLost | main.go:204-240 | over every interleaving each cached entry matches its row or is stamped since the last save |
| PersistProtocol.UnloadedIsInv | main.go:215-216 | with nothing cached the invariant holds whatever the rows: runs may start there and load |
| PersistProtocol.ChangeNeedsFreshStamp | main.go:223-231 | at any moment of the protocol a request whose result no row matches keeps the invariant exactly when the entry is stamped since the last save, or, once the save in progress is past it, since that save began |
| PersistProtocol.InstallNeedsFreshStamp | main.go:223-231 | the same for an insertion, with or without a save in progress, of a new key or a known one |
| PersistProtocol.CommitNeedsCoverage | main.go:232-237 | a commit loses nothing exactly when the save covers every entry as the invariant says |
| PersistProtocol.LoadedIsInSync | main.go:215-216 | entries just loaded need no save |
| Persisting.Persistence.SaveBatch | persistence.go:230-261 | all rows or none, for a fault at any statement; an empty batch succeeds without a transaction |
| Persisting.RowsAfterWriting | persistence.go:249-258 | with distinct row keys every written entry has its row and every other row is as it was |
| Persisting.Persistence.Load | persistence.go:151-206 | the body of the load loop: the filter, the two fallbacks and the reconstructed expiry |
| Persisting.Persistence.LoadAll | persistence.go:120-214 | fresh objects, exactly one for each readable row asked for within the keep window; damaged rows are skipped, a failing query is reported |
| Persisting.LoadsInColumns | persistence.go:134-206 | so of the whole table: an entry as its row tells for each such row, and no other |
| Persisting.Persistence.Cleanup | persistence.go:268-276 | exactly the rows fetched before the cutoff go, and are counted |
| Persisting.Persister.Scan | main.go:225-231 | for every iteration order the batch holds each changed entry once and no other |
| Persisting.Persister.Tick | main.go:223-237 | after a success the row of every changed entry is current, other rows untouched, and the reference time is the one read before the scan; after a failure nothing moved |
| Persisting.BatchInFields | main.go:226-231 | the batch is exactly the entries fetched or asked for since the last save |
| Persisting.SavedInColumns | main.go:222-237 | after a success their rows hold their fields |
| SaveRuns.TickIsRun | main.go:222-237 | a round whose save succeeds is a run of the save protocol, for every order of the scan |
| SaveRuns.FailedTickIsRun | main.go:232-235 | a round whose save fails is a run that leaves everything as it was |
| Persisting.SavedIsInSync | main.go:204-240 | if nothing was lost before a successful save, every entry matches its row after it |
| Persisting.RestartBringsBackUsual | persistence.go:118-214 | the load returns every synced entry that is usual at the restart, with key, hits, last request and usage days |
| Startup.ReloadedIsOk | persistence.go:151-206 | a save and a load keep an entry within the invariants, whatever columns read as missing |
| Startup.LoadInto | main.go:101-103 | the start files each loaded entry under its key, later ones over earlier |
| Startup.StartIsOk | main.go:97-105 | from rows in order, whichever are damaged, the server starts within its invariants with balanced counters |
| Startup.LoadedKeepsEach | main.go:101-103 | from rows in order no entry is loaded over another |
| Lifetime.FollowKeeps | main.go:204-240 | each event of the server is a step of the save protocol on the same entries, stamped late enough |
| Lifetime.EveryLifeIsGood | main.go:91-135 | from an empty database, over any sequence of events, scan steps, row writes, commits, failed saves, cleanups and restarts with any valid configuration: the cache's invariants hold, the counters balance, every row is in order, and each entry matches its row or is stamped since the last save |
| Lifetime.RestartLosesNoUsual | persistence.go:178-206 | at a restart after any such life, each entry unchanged since the last successful save and usual at the restart is cached again under its key with its history, if its row was not cleaned up or damaged |
| Handler.DnsHandler.ServeDns | handler.go:34-80 | the reply, the new cache, what may be evicted and whether a background refresh starts, for every request, cache and upstream outcome; a request without question changes nothing |
| Handler.DnsHandler.Resolve | handler.go:59-79 | the same from the miss on |
| Handler.DnsHandler.Keep | handler.go:100-107 | the upstream's reply is stored exactly when it is NOERROR or NXDOMAIN and not truncated |
| Handler.CallKeepsIff | handler.go:59-107 | after a miss the entry under the key is the upstream's reply exactly when it has rcode 0 or 3 and is not truncated; otherwise the entries are as the lookup left them |
| Handler.FailsInFields | handler.go:60-68 | after a failed upstream one error is counted, and an entry changes only when it is served stale |
| Handler.ServingRule | handler.go:34-80 | whatever happens to the cache while the upstream is asked, every reply is a cached answer no older than max(TTL, max_age) with at most its remaining life as TTL, or 30 once expired; or the upstream's; or, only after it failed and with stale serving, an entry then cached and at most 24 hours past expiry (sections 4 and 5 of RFC 8767); or SERVFAIL, only without one; records of every section are the source's, OPT aside |
| Handler.OptAnsweredIff | handler.go:70-73 | over every source of a reply: at most one OPT record, the server's own and the last, and one exactly when the client sent one and the reply is not the handler's SERVFAIL |
| Handler.ClientOptInFields | handler.go:139-148 | the server's OPT record has the client's size between 512 and 1232 bytes and its DO bit |
| Handler.RespondInFields | handler.go:126-137 | id and question are the request's, everything else but the OPT records the reply's own |
| Handler.ServerFailureInFields | handler.go:70-73 | a SERVFAIL has the request's id and question, rcode 2 and no record |
| Handler.ReplyTtlInSeconds | handler.go:173-179 | the TTL is what is left in whole seconds, or 30 |
| Handler.ServFailDropsOpt | handler.go:70-73 | a request with an OPT record whose reply has none |
| Handler.OneOptAtMost | handler.go:133-148 | what respond makes of a reply has one OPT record if the client sent one, else none |
| Handler.CallIsRun | handler.go:34-110 | one call of the handler is a run of the state machine and leaves no handler under way |
| Settings.Config.Normalize | config.go:91-107 | a window out of range becomes 7, the other two values move to the nearest allowed, nothing else changes |
| Settings.UnchangedIffWithinLimits | config.go:91-107 | exactly the values within the limits are left alone, and the result meets what the other proofs assume |
| Settings.NormalizedIsUnique | config.go:91-107 | that description determines the result |
| Settings.ToConfigInNumbers | main.go:78-86 | the cache gets the same values, times as nanoseconds |

## Left out

- Caches.Cache.RecordWindow: no concurrent writers, because the source itself gives up exact counts between the swap and the stores.
- Caches.CachedEntry.MarkUsed: other goroutines interfere through a finite list of marks between load and swap; UsageDaysRace has the full interleavings.
- Refreshers.Refresher.RefreshEntry: one refresh at a time; the five workers of a cycle appear as separate steps in Server, and stopping in the middle of a cycle does not appear.
- Handler.DnsHandler.ServeDns: the header flags a reply copies from its request, truncation to the client's size, compression and the datagram write are the DNS library's; the background refresh is returned as a question and appears in Server as a later insertion.
- PersistProtocol.NoChangeIsLost: cleanup of old rows is not among the steps; Lifetime interleaves it and says what a cleaned row costs.
- Lifetime.EveryLifeIsGood: the zone is the same for all starts.
- Query coalescing (singleflight): a handler's upstream call is its own event; nothing is claimed about one upstream query per name.
- The resolver, sockets, UDP and TCP servers, signals and shutdown: an upstream answers or fails.
- SQL, the schema migration and WAL settings: the database is a map written all or nothing.
- The statistics socket, the web pages, ratios and query rates: display only.
- Loops that wait for tickers: the state machines take their ticks at any time the theorems allow.
