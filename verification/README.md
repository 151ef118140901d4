# media-gate: a verified model

media-gate is a self-hosted media manager: users request films and series, a monitor searches indexers for what is missing,
downloads are sent to a torrent client, imported into libraries, and kept in step with what is on disk. This project models
the logic behind that — the parts with state, arithmetic or concurrency — and proves what each part is for.

Check everything with `dafny verify dfyconfig.toml`. A module follows one source file or one part of it. Code that
changes state in the source is a class or a method here, proved against a specification function or a step relation; the
main theorems are then lemmas about that function or about every run of that relation.

## What is modelled

**Monitoring.** One meaning runs through four files: an episode is monitored when the item is and its own override, or else
its season's flag, says so.

- `Scopes`, `RequestScopes`: compiling a user's selection of seasons and episodes into request scopes. The emitted scopes
  cover a known episode exactly when the selection does.
- `Requests`: applying a request to stored monitors. It is additive and idempotent, the exact effect on every key is
  stated, and it agrees with the creation path exactly under a stated condition.
- `Attribution`: which scopes one change of monitoring newly enabled. Sound, complete, without overlap.
- `MonitoringActivity`: the recorded difference of two snapshots, as an invertible patch.

**Concurrent protocols**, as step relations with histories, and the invariants and progress of every run.

- `EventBus`, `EventBusInPlace`: publishers, dispatcher, subscribers who may come at any time, and shutdown; only a full queue
  loses an event; and the same steps on the bus's own fields.
- `JobQueue`: admission, the single worker that gets every admitted job done, and shutdown that discards waiting jobs while the
  worker may still receive one.
- `DownloadLifecycle`: one download row between the download worker, the importer, the metadata refresher, users, refused
  writes and restarts. The store's write takes effect only on the version it was read at.
- `TimelineCache`: asynchronous window loads against invalidation, reset and dispose.
- `ScanDebounce`: timers that fire while newer ones replace them.

**Reconciliation.**

- `LibraryFolders`, `LibraryTables`, `LibrarySync`: scan, plan and apply a library sync, down to which paths are tracked, which
  item each belongs to, and which items exist afterwards.
- `Resync`: a scan outside the transaction that is applied only to the rows it started from, and converges.
- `EpisodeCatalog`: replacing an episode catalog without losing row identity.
- `MetadataRefresh`: the additions-only refresh and the policy for new seasons.
- `ItemStatus`: the status of an item, and how it agrees with what the monitor still wants.

**Choosing releases.**

- `ReleaseSelection`: filter, stable ranking and keyword preference are together one lexicographic sort.
- `AutoGrab`: the index over download rows (`DownloadRows` has their statuses), which episodes are wanted, and the choice of a
  release.
- `SeasonGrab`: the loop that queues releases for the wanted episodes of a season while others change the rows.
- `ReleaseSuggestions`: the tiers of the fuzzy suggester and its one-edit test.
- `ReleaseKeywords`: the keyword list parser, its round trip through storage, and the editor that inserts a keyword.

**Algorithms and small cores.**

- `EditDistance`: the two-row distance in a recycled buffer, against shortest edit scripts, and the confidence score on it.
- `Bencode`: the decoder with depth limit and node budget, against the encoding of BEP 3 with every spelling of a number that it
  accepts.
- `TimelineRail`: the arithmetic of the rail.
- `RateLimiter`, `DecisionLog`: the fixed-window limiter with lazy cleanup; the bounded log of one monitor check.

## What the proofs found

The model follows the code. Where a promise does not hold on every input, a lemma gives an input and another one says exactly
when it does hold.

- A series request with no seasons left after normalization drops its episode overrides: nothing is covered
  (`RequestScopes.EpisodeOfUnknownSeriesIsDropped`), and such a request alone is turned away
  (`RequestScopes.OverrideAloneIsTurnedAway`); exactly when is said by `RequestScopes.FaithfulExactly` and
  `RequestScopes.TurnedAwayExactly`.
- Two contradicting flags for one season make the scopes and the selection disagree, because the scopes follow every flag
  and the selection only the last (`RequestScopes.ConflictingFlagsMislead`); a listed key is misled exactly when it has no
  override, the last flag of its season is off and another one is on (`RequestScopes.CoverageExactly`).
- On an item without monitors, a whole-series request switches on the submitted seasons only, while the creation path also
  stores an override outside them (`Requests.StrayEpisodeDividesThePaths`): the two paths differ exactly then
  (`Requests.PathsAgreeExactly`). Without seasons they differ exactly when an override is on
  (`Requests.UnknownSeriesDividesThePaths`, `Requests.PathsAgreeWithoutSeasons`).
- A truncated activity entry cannot always be replayed (`MonitoringActivity.TruncationLosesASeason`): it can exactly when every
  dropped change left its stored setting alone (`MonitoringActivity.ReplayKeptExactly`).
- Subscribing to the event bus is documented as safe at any time, but who subscribes once the dispatcher has begun to close
  the queues keeps Stop waiting for ever (`EventBus.SubscribingDuringShutdown`, `EventBus.LateSubscriberHangsStop`); without such
  a subscriber some goroutine can always go on until Stop returns (`EventBus.NeverStuck`).
- An importer that finds its item being deleted, or whose last write is refused, lets the row go as "importing", and a torrent
  accepted without a hash cannot be asked about. Such rows keep their status until a user or a restart intervenes
  (`DownloadLifecycle.StrandedStays`), and no other unfinished ones need to (`DownloadLifecycle.MovesOn`).
- The check of a torrent's piece table adds two 64-bit numbers first: beyond an overflow it rejects a table that covers its
  content (`Bencode.OverflowRejectsOnePiece`).
- A download of episode 0 has the index key of a pack of its season, so it hides the whole season from the monitor
  (`AutoGrab.EpisodeZeroHidesTheSeason`): the index is wrong about an episode exactly when no row covers it and one names
  episode 0 of its season (`AutoGrab.IndexIsScan`).
- The monitor checks the rows before the transaction that queues a release, and inside it only the address, so an episode can
  be queued twice (`SeasonGrab.RecheckLeavesAGap`). A covered episode is queued exactly if the turn gets as far as the
  transaction, this has nothing against the item, all active rows have other addresses, and a covering row arrived or changed
  in between (`SeasonGrab.CoveredWhenAdded`); every grab is open to that (`SeasonGrab.EveryGrabHasTheGap`).
- Where the attribution names the whole series, an episode that turned on outside the numbered seasons is not named
  (`Attribution.SpecialGoesUnnamed`, `Attribution.NamedExactly`).
- A file named for a range of episodes satisfies the monitor but leaves the series "partial", because the status counts rows
  and not ranges (`ItemStatus.RangeFileStaysPartial`), and a requested series without files stays "requested" although the
  monitor misses nothing (`ItemStatus.UnairedRequestStaysRequested`); otherwise the two agree
  (`ItemStatus.AvailableAgainstMonitor`).
- The suggestion tiers stay apart up to 499 extra characters and meet at 500 (`ReleaseSuggestions.TiersMeetAt500`).
- The limiter lets the first call of a window through even with a limit of 0 (`RateLimiter.WindowBound`).
- A refresh that sees new seasons does not look at the older ones, so exactly the episodes told of those arrive one refresh
  later (`MetadataRefresh.GrowthDelaysAnEpisode`, `MetadataRefresh.RefreshSettles`); the third refresh changes nothing.

## Assumptions

- A transaction happens completely or not at all; unique indexes refuse a second row with the same key; a download write
  compares the version it was read at (`backend/internal/store/sqlite/download.go`). That version is the time of the last
  write; the model numbers the writes instead, so two writes never carry the same version. Deleting an episode clears the links of
  downloads to it.
- Integers are unbounded where the source's counters cannot get near their width; the 64-bit sums of the piece check and the
  64-bit integers of bencode are explicit.
- What title, folder and file-name parsers find is part of the input. So are search results, answers of the torrent client,
  of the metadata providers and of the disk, and the time.

## Model

| member | source | states |
|---|---|---|
| EditDistance.RowPool.Levenshtein | backend/internal/matching/confidence.go:59-105 | the loop over two rows of a recycled buffer, whatever the buffer holds, returns the edit distance |
| EditDistance.FillRow | backend/internal/matching/confidence.go:85-99 | one pass turns row i-1 of the distance table into row i, for offsets that do not overlap |
| EditDistance.DistanceIsShortestScript | backend/internal/matching/confidence.go:59-105 | the distance is the cost of some script of keeps, insertions, deletions and substitutions that rewrites a into b, and no script is cheaper |
| EditDistance.DistanceIdentity | backend/internal/matching/confidence.go:59-105 | the distance is 0 exactly for equal strings |
| EditDistance.DistanceSymmetry | backend/internal/matching/confidence.go:59-105 | the distance does not depend on the direction |
| EditDistance.Compose | backend/internal/matching/confidence.go:59-105 | two scripts that meet in the middle compose to one that costs no more than both |
| EditDistance.TriangleInequality | backend/internal/matching/confidence.go:59-105 | going through a third string is never shorter |
| EditDistance.DistanceBounds | backend/internal/matching/confidence.go:59-105 | the distance lies between the difference of the lengths and the length of the longer string, both in plain numbers |
| EditDistance.ScoreRange | backend/internal/matching/confidence.go:18-41 | a score lies in [0,1] and is 1 exactly for equal titles whose known years agree |
| EditDistance.AutoMatchExactly | backend/internal/matching/match.go:90-97 | the threshold in whole numbers: at most m/5 edits without years, 2m/7 with equal years, m/14 one year apart, never further apart, and conversely |
| EditDistance.ScoreExactly | backend/internal/matching/confidence.go:18-57 | in edits d and longer length m, times m: m - d without years, 0.7(m - d) plus 0.3m for equal years, 0.15m one year apart, 0 further apart |
| EditDistance.WrongYearNeverMatches | backend/internal/matching/confidence.go:18-41 | a known year off by two or more caps the score at 0.7, below the automatic threshold |
| Bencode.DecodeBencode | backend/internal/devharness/server.go:772-834 | the loop over a moving position and a shrinking budget computes the specification decoder, errors included |
| Bencode.DecodeListBody | backend/internal/devharness/server.go:793-807 | the list loop computes the recursive item decoder |
| Bencode.DecodeDictionaryBody | backend/internal/devharness/server.go:808-830 | the dictionary loop, writing a map, computes the recursive entry decoder; a repeated key keeps its last value |
| Bencode.DecodeBencodeBytes | backend/internal/devharness/server.go:836-856 | the length scan computes the specification of a byte string, including every rejected form |
| Bencode.WriteBencodedString | backend/internal/devharness/server.go:878-881 | appends exactly the encoding of a byte string |
| Bencode.BytesRoundTrip | backend/internal/devharness/server.go:836-856 | reading a written byte string at any position gives it back and stops right behind it |
| Bencode.IntegerRoundTrip | backend/internal/devharness/server.go:778-792 | reading the text of a 64-bit integer gives it back |
| Bencode.RoundTrip | backend/internal/devharness/server.go:772-834 | at any position, depth and budget, an encoding decodes to its value exactly when its height fits the depth limit and its cost the budget, stops right behind it and spends exactly its cost; otherwise the decode fails |
| Bencode.DecodeEncode | backend/internal/devharness/server.go:772-834 | the same for an encoding followed by any suffix |
| Bencode.EncodingDeterminesValue | backend/internal/devharness/server.go:772-834 | equal encodings within the depth limit denote equal values |
| Bencode.AcceptsExactly | backend/internal/devharness/server.go:772-834 | the decoder accepts exactly the inputs that hold, at the position, an encoding that fits depth and budget, with any spelling of numbers the reader knows |
| Bencode.DecodedWasWritten | backend/internal/devharness/server.go:772-834 | whatever is decoded was written: the input holds the encoding of a tree that means the result and ends where the decoder stops |
| Bencode.ParseIntExactly | backend/internal/devharness/server.go:778-792 | the number reader takes exactly an optional sign, leading zeros and the decimal digits of a 64-bit number, and gives that number |
| Bencode.StringExactly | backend/internal/devharness/server.go:836-856 | a byte string, told from its digits: which error, or which bytes |
| Bencode.ErrorsExactly | backend/internal/devharness/server.go:772-834 | which error when there is nothing to read, an integer is malformed or unclosed, or a list or dictionary ends too early |
| Bencode.DeepListsExactly | backend/internal/devharness/server.go:772-776 | lists in lists are read exactly up to 32 levels and for as many nodes as the budget has |
| Bencode.DecodedDepth | backend/internal/devharness/server.go:772-776 | whatever the input, a decoded value never nests deeper than the limit |
| Bencode.Decode | backend/internal/devharness/server.go:772-834 | on success the decoder ends strictly behind its start, within the data, and has spent budget |
| Bencode.PiecesExactly | backend/internal/devharness/server.go:740-754 | the piece check accepts exactly the tables whose pieces cover the total, up to 64-bit overflow of total plus piece length |
| Bencode.OverflowRejectsOnePiece | backend/internal/devharness/server.go:740-754 | beyond that the check is wrong: one piece of the largest length covers its total and is rejected |
| Scopes.SortedRequestScopes | backend/internal/matching/request_scopes.go:172-187 | lists a set of scopes in season, episode, kind order without loss |
| Scopes.OneListing | backend/internal/sync/request_attribution.go:289-304 | a set of scopes has one listing, so the output does not depend on map iteration order |
| Scopes.LessExactly | backend/internal/matching/request_scopes.go:172-187 | the order is that of season, then episode, then kind name |
| RequestScopes.NormalizeSeriesRequest | backend/internal/matching/request_scopes.go:15-62 | computes the normalized request: which seasons are filled in, which flags stay, the default for new seasons, and the order, told from the request and the catalog |
| RequestScopes.BuildRequestScopes | backend/internal/matching/request_scopes.go:64-170 | emits exactly the scopes that are due, sorted |
| RequestScopes.EmitsExactly | backend/internal/matching/request_scopes.go:64-170 | which scopes are due, told from the lists of the request: each flag, each override and what they exclude |
| RequestScopes.CoverageExactly | backend/internal/matching/request_scopes.go:64-170 | whatever the flags, a known key is covered exactly when the request selects it or an earlier flag of its season misleads it |
| RequestScopes.CoverageIsSelection | backend/internal/matching/request_scopes.go:64-170 | with distinct seasons a known key is covered by an emitted whole-series, season or episode scope exactly when the request selects it: its override, else the flag of its season |
| RequestScopes.SelectsMeansAsked | backend/internal/matching/request_scopes.go:64-170 | a key is selected exactly when its last episode flag is on, or it has none and the last flag of its season is on |
| RequestScopes.FaithfulExactly | backend/internal/matching/request_scopes.go:64-170 | that holds for every known key exactly when, with an empty season list, no override is on (it would be dropped) and otherwise no listed key is misled by repeated flags of its season |
| RequestScopes.ConflictingFlagsMislead | backend/internal/matching/request_scopes.go:90-163 | a request with two different flags for one season, unchanged by normalization: the season scope follows the first flag, the selection the last |
| RequestScopes.EpisodeOfUnknownSeriesIsDropped | backend/internal/matching/request_scopes.go:64-76 | an episode asked for by name of a series without known seasons is selected but never covered |
| RequestScopes.NormalizedSelection | backend/internal/matching/request_scopes.go:15-62 | normalizing keeps what the request asks for, key by key, and which keys repeated flags mislead |
| RequestScopes.CompiledIntention | backend/internal/matching/request_scopes.go:15-170 | end to end, for every request: a known key is covered exactly when there is some season and the raw request intends the key or its repeated flags mislead it |
| RequestScopes.CompiledExactly | backend/internal/matching/request_scopes.go:15-170 | the same from the lists alone: covered means some season is there and the last flag of the key is on, or it has none and some flag of its season is on or the season was filled in |
| RequestScopes.NormalizedTwice | backend/internal/matching/request_scopes.go:15-62 | normalizing a normalized request gives the same request, list order included |
| RequestScopes.HasRequestedContent | backend/internal/matching/request_scopes.go:189-199 | whether a scope other than the item itself was emitted |
| RequestScopes.TurnedAwayExactly | backend/internal/matching/request_scopes.go:189-199 | a monitored series request is turned away exactly when it wants no future season and either names no season at all or names no full season and neither selects nor misleads a known key |
| RequestScopes.OverrideAloneIsTurnedAway | backend/internal/matching/request_scopes.go:189-199 | a request for that episode alone is turned away although it selects it |
| Requests.MonitorRows.ApplyExistingRequest | backend/internal/matching/requests.go:300-382 | the row updates in place settle every flag as the scopes say and switch on item, future seasons and a known profile; an unknown profile is refused before any write |
| Requests.RequestSettles | backend/internal/matching/requests.go:300-382 | what becomes of every stored flag: an override is on if a scope names the key after the last one that switches its season on, gone if a season was switched on later, else as stored; a season flag is on if a scope switches it on |
| Requests.MonitorRows.CreateMonitors | backend/internal/matching/requests.go:145-164 | the creation path stores the flags and overrides as submitted; a season submitted twice violates the unique index and nothing is kept |
| Requests.CreatedRows | backend/internal/matching/requests.go:145-164 | the created rows are the flags as submitted, the last one for an episode |
| Requests.ExactEffect | backend/internal/matching/requests.go:300-382 | after an active request a key is effectively monitored exactly when it was stored as monitored or one of the scopes reaches it |
| Requests.RequestIsAdditive | backend/internal/matching/requests.go:300-382 | no effectively monitored key, season or future-season flag, and no profile, is ever taken away |
| Requests.RequestIsIdempotent | backend/internal/matching/requests.go:300-382 | applying a request twice equals applying it once |
| Requests.PathsAgreeExactly | backend/internal/matching/requests.go:145-164 | on an item without rows and for distinct seasons (creation refuses repeated ones), applying and creating give the same effective monitoring of known keys exactly unless a whole-series request has an override outside the submitted seasons |
| Requests.PathsAgreeWithoutSeasons | backend/internal/matching/requests.go:145-164 | without submitted seasons they agree exactly when no override is on |
| Requests.StrayEpisodeDividesThePaths | backend/internal/matching/requests.go:300-382 | on a series of one season, an episode of season 9 is monitored by the creation path only |
| Requests.UnknownSeriesDividesThePaths | backend/internal/matching/requests.go:300-382 | of a series without known seasons, an episode asked for by name is monitored by the creation path only |
| Requests.SelectionArrives | backend/internal/matching/requests.go:300-382 | on any existing item every selected known key of a submitted season ends up effectively monitored |
| Attribution.NewlyEnabledRequestScopes | backend/internal/sync/request_attribution.go:147-287 | the loops over two snapshots emit exactly the scopes that the snapshots call for, sorted |
| Attribution.ScopesExactly | backend/internal/sync/request_attribution.go:147-287 | which scopes a change of a series emits, told from the two snapshots |
| Attribution.MovieScopes | backend/internal/sync/request_attribution.go:147-170 | a film emits its scope exactly when it became monitored |
| Attribution.CoveredOnce | backend/internal/sync/request_attribution.go:147-287 | unless the whole series is named, every known key that turned on is covered by its season scope or by its own episode scope, never by both; others by neither |
| Attribution.NamedExactly | backend/internal/sync/request_attribution.go:147-287 | a known key is named by some scope exactly when it turned on, except that keys outside seasons 1 to n go unnamed where the whole series is named |
| Attribution.SpecialGoesUnnamed | backend/internal/sync/request_attribution.go:147-287 | switching on a series with a monitored special names the whole series and not the special |
| Attribution.ScopesAreTrue | backend/internal/sync/request_attribution.go:147-287 | a season scope means its default and all its known keys turned on; an episode scope that its key did; whole series that seasons 1 to n all did |
| Attribution.EmptyExactly | backend/internal/sync/request_attribution.go:147-287 | nothing is emitted exactly when the change enabled nothing |
| Attribution.DisablingIsSilent | backend/internal/sync/request_attribution.go:147-287 | a change that only switches things off is attributed to nobody |
| MonitoringActivity.BuildMonitoringActivityDetails | backend/internal/sync/monitoring_activity.go:20-108 | records the ordered difference of two snapshots, cut after 50 entries, with its exact total |
| MonitoringActivity.OneDifference | backend/internal/sync/monitoring_activity.go:20-141 | two snapshots have one ordered difference, so the entry does not depend on map iteration order |
| MonitoringActivity.ReplayIsInverse | backend/internal/sync/monitoring_activity.go:20-108 | replaying an untruncated entry on the before state rebuilds the after settings, and undoing it the before settings |
| MonitoringActivity.ReplayKeptExactly | backend/internal/sync/monitoring_activity.go:100-108 | replaying a truncated entry rebuilds the after settings exactly when every dropped change left its stored setting alone |
| MonitoringActivity.TruncationLosesASeason | backend/internal/sync/monitoring_activity.go:99-108 | switching on 51 seasons at once leaves an entry that does not rebuild the settings |
| MonitoringActivity.EntryIsFaithful | backend/internal/sync/monitoring_activity.go:20-118 | the total is exact, targets are distinct, each changed in setting or effect, and truncation keeps a prefix |
| MonitoringActivity.EntryTells | backend/internal/sync/monitoring_activity.go:20-118 | each change tells the stored and effective setting before and after, only targets worth telling are told, in order, and none is missing but those behind 50 others |
| EventBus.RunInv | backend/internal/eventbus/bus.go:109-208 | the invariant of channels, delivery order and queue closing holds in every state of every run |
| EventBus.InOrderDelivery | backend/internal/eventbus/bus.go:109-195 | what a subscriber has handled and queued is an in-order subsequence of the events it wants among those that left the channel after it subscribed; it lost as many as found its queue full, and while its queue always had room it is a prefix, the rest being on its way |
| EventBus.PublishOutcome | backend/internal/eventbus/bus.go:109-122 | an event is accepted exactly when the channel has room, and then it is the last of the accepted ones |
| EventBus.DeliverOutcome | backend/internal/eventbus/bus.go:178-185 | the recipient gets the event exactly when its queue has room, and nobody else notices |
| EventBus.DropsAreFullQueues | backend/internal/eventbus/bus.go:178-185 | in every run a subscriber loses exactly as many events as found its queue full |
| EventBus.NoSendAfterClose | backend/internal/eventbus/bus.go:178-208 | no event is sent on a closed queue; each queue is closed at most once, and exactly those the dispatcher found are closed once it has stopped |
| EventBus.StopDrains | backend/internal/eventbus/bus.go:67-72 | when Stop returns, a subscriber has handled all it wanted of what was accepted before, but for as many as found its queue full; one whose queue always had room has handled exactly those, in order |
| EventBus.PublishedIsHandled | backend/internal/eventbus/bus.go:67-197 | an event published before Stop, while the channel had room, has been handled by everybody who was there, wanted it and always had room in the queue, when Stop returns |
| EventBus.IdleMeansHandled | backend/internal/eventbus/bus.go:109-197 | while the bus runs: once dispatcher and subscriber are idle, a subscriber whose queue always had room has handled exactly what it wants, in order |
| EventBus.InternalStepsEnd | backend/internal/eventbus/bus.go:129-208 | every step of the dispatcher or a subscriber lowers a measure of the work left |
| EventBus.ShutdownIsBounded | backend/internal/eventbus/bus.go:129-208 | once nobody publishes or subscribes, the number of further steps is bounded by that measure |
| EventBus.NeverStuck | backend/internal/eventbus/bus.go:67-72 | until Stop returns some goroutine can always take a step, unless all but those who subscribed too late have returned |
| EventBus.LateSubscriberHangsStop | backend/internal/eventbus/bus.go:67-105 | who subscribes once the dispatcher has begun to close the queues is never told to end, and a Stop that has not returned by then never does |
| EventBus.SubscribingDuringShutdown | backend/internal/eventbus/bus.go:67-105 | a run in which somebody subscribes that late |
| EventBusInPlace.Bus.Subscribe | backend/internal/eventbus/bus.go:76-105 | the subscribe step, in place and at any time: the handler tables list the subscribers of each interest in subscription order |
| EventBusInPlace.Bus.SubscribeAll | backend/internal/eventbus/bus.go:83-105 | the same for subscribers of every event |
| EventBusInPlace.Bus.Publish | backend/internal/eventbus/bus.go:109-122 | the publish step, in place: with room the event is the last in the channel, a full buffer drops it |
| EventBusInPlace.Bus.StopOnce | backend/internal/eventbus/bus.go:67-72 | the stop step, in place; a second call does nothing |
| EventBusInPlace.Bus.Take | backend/internal/eventbus/bus.go:129-171 | the receiving step of the dispatcher: the tables give exactly the recipients of the event |
| EventBusInPlace.Bus.Deliver | backend/internal/eventbus/bus.go:178-185 | the delivery step, in place: with room the event is the last in the queue; only a full queue drops it, for this subscriber only |
| EventBusInPlace.Bus.CloseNext | backend/internal/eventbus/bus.go:199-208 | the closing step of the dispatcher, in place |
| EventBusInPlace.Bus.Receive | backend/internal/eventbus/bus.go:190-195 | the receiving step of a subscriber, in place |
| EventBusInPlace.Bus.HandlerReturns | backend/internal/eventbus/bus.go:190-195 | the handling step of a subscriber, in place |
| EventBusInPlace.Bus.ExitLoop | backend/internal/eventbus/bus.go:190-195 | the end of the loop of a subscriber whose queue is closed and empty, in place |
| EventBusInPlace.Bus.Advance | backend/internal/eventbus/bus.go:129-154 | the silent steps of the dispatcher, in place |
| JobQueue.Queue.Start | backend/internal/jobqueue/queue.go:96-104 | the start step, in place: at most once and not after shutdown |
| JobQueue.Queue.Enqueue | backend/internal/jobqueue/queue.go:144-178 | admission, in place: accepted exactly if not stopping, the channel has room and no active job of the library has the kind, with the state afterwards; and each refusal: stopped, already active, full |
| JobQueue.Queue.CloseAdmission | backend/internal/jobqueue/queue.go:108-123 | the first half of shutdown, in place: only the running job stays active |
| JobQueue.Queue.DrainOne | backend/internal/jobqueue/queue.go:124-130 | one turn of the drain, in place: a waiting job is discarded, or the drain ends |
| JobQueue.Queue.BeginShutdown | backend/internal/jobqueue/queue.go:108-131 | the whole of shutdown in place: admission closes, waiting jobs stop being active, and the channel is drained step by step |
| JobQueue.Queue.Claim | backend/internal/jobqueue/queue.go:216-227 | a received job starts unless shutdown began first |
| JobQueue.Queue.FinishJob | backend/internal/jobqueue/queue.go:292-332 | a finished job is no longer active |
| JobQueue.RunInv | backend/internal/jobqueue/queue.go:96-332 | the invariant of jobs, order, worker and places holds in every state of every run |
| JobQueue.OneActiveJob | backend/internal/jobqueue/queue.go:144-178 | at most one active job per library and kind, and at most one job running |
| JobQueue.AdmittedExactly | backend/internal/jobqueue/queue.go:144-178 | a job is admitted exactly when the queue is open, the channel has room and no active job of the library is of its kind; otherwise which refusal it gets |
| JobQueue.StepOutcome | backend/internal/jobqueue/queue.go:96-332 | what each other step does to worker, jobs and admission |
| JobQueue.StartsInOrder | backend/internal/jobqueue/queue.go:204-227 | jobs start in strictly increasing identifier order |
| JobQueue.NoStartAfterShutdown | backend/internal/jobqueue/queue.go:108-131 | once shutdown has begun nothing is admitted and nothing starts |
| JobQueue.ExactlyOnePlace | backend/internal/jobqueue/queue.go:108-332 | every admitted job is exactly one of waiting, in hand, running, finished, discarded; nothing else is any of these |
| JobQueue.NothingDiscarded | backend/internal/jobqueue/queue.go:96-142 | before shutdown no admitted job is thrown away |
| JobQueue.JobsGetDone | backend/internal/jobqueue/queue.go:204-332 | while the queue is open each worker step brings the admitted jobs one step closer to their end, one can be taken while something is left, and at none all have finished |
| JobQueue.JobsFinish | backend/internal/jobqueue/queue.go:204-332 | in a run without further requests the worker takes at most the steps that the jobs need, and after that many all of them have finished |
| JobQueue.WorkerExitsSoon | backend/internal/jobqueue/queue.go:204-227 | counted from the start of shutdown the worker takes at most three more steps (it may receive once more during the drain), counted from the end of the drain exactly the one or two left; at none it has exited |
| JobQueue.ShutdownEnds | backend/internal/jobqueue/queue.go:108-142 | once shutdown has begun each step of drain or worker lowers what is left, one of them can go on while something is, and in the end the done channel is closed and no job is active or waiting |
| JobQueue.DoneClosedOnce | backend/internal/jobqueue/queue.go:108-142 | the done channel is closed at most once, exactly when no worker is left after shutdown began; then no job is active, and none waits once the drain is over |
| DownloadLifecycle.Service.UpdateDownload | backend/internal/store/sqlite/download.go:13-30 | a write takes effect only if the row still has the version its copy was read at, and gives it a new one |
| DownloadLifecycle.Service.HandleRetry | backend/internal/download/service.go:204-236 | a failed send raises the retry count and schedules the backoff of that count, or fails the row for good |
| DownloadLifecycle.Service.SendPending | backend/internal/download/service.go:91-200 | the send step, in place: accepted leads to downloading with a fresh retry count, refused to the next of five delays or to failed |
| DownloadLifecycle.Service.HandleMissingTorrent | backend/internal/download/service.go:283-304 | a vanished torrent completes a linked row and fails any other |
| DownloadLifecycle.Service.PollActive | backend/internal/download/service.go:245-383 | the poll step, in place: on the row as it was read a finished torrent leads to downloaded, a broken one to failed, a missing one to completed if linked and else to failed; running and unclear ones change nothing |
| DownloadLifecycle.Service.ClaimImport | backend/internal/importer/service.go:122-133 | the importer claims a downloaded row by a write, or leaves it |
| DownloadLifecycle.Service.MarkImportFailed | backend/internal/importer/service.go:381-393 | a permanent failure ends the row as import_failed |
| DownloadLifecycle.Service.RescheduleImport | backend/internal/importer/service.go:405-427 | a transient failure goes back to downloaded with one more retry and the next of five delays, or fails the row at the limit |
| DownloadLifecycle.Service.CommitImport | backend/internal/importer/service.go:331-350 | a finished import links the row and makes it seeding or completed; only a stored completion deletes the torrent |
| DownloadLifecycle.Service.CompleteDownload | backend/internal/importer/service.go:482-519 | completion is stored before the torrent is deleted |
| DownloadLifecycle.Service.CleanupSeeding | backend/internal/importer/service.go:430-463 | the seeding step: completed if there is no hash, the torrent is gone or its obligations are met, else unchanged |
| DownloadLifecycle.Service.RetryManually | backend/internal/download/service.go:473-545 | a manual retry puts any row back to pending with a fresh retry count; a pending row is written only if a count, a backoff or an error text is left |
| DownloadLifecycle.Service.RecoverStuckImporting | backend/internal/download/service.go:685-703 | after a restart an importing row goes back to downloaded |
| DownloadLifecycle.RunInv | backend/internal/download/service.go:91-703 | the invariant of row, history, held copies and deletions holds in every state of every run of all workers, users, failing writes and restarts |
| DownloadLifecycle.ReachableRows | backend/internal/importer/service.go:405-427 | the retry count stays in 0..5, seeding or completed implies linked, and the backoff is the table entry of the retry count |
| DownloadLifecycle.DownloaderOutcome | backend/internal/download/service.go:91-383 | what each answer of the torrent client makes of the row as the download worker read it; nothing on a row changed since, or if the store refuses |
| DownloadLifecycle.ImporterOutcome | backend/internal/importer/service.go:122-522 | the same for the importer, with the deletions it asks for and the claimed row it keeps |
| DownloadLifecycle.OtherOutcome | backend/internal/download/service.go:473-703 | what users, restarts, reads and the refresher do to the row |
| DownloadLifecycle.ReportsFollowTheTable | backend/internal/download/service.go:91-383 | in every run, each report of a worker has the effect its answer calls for if the row is as it was read and the store is up, else none |
| DownloadLifecycle.ReportIsStored | backend/internal/download/service.go:91-383 | from the read to the report: unless somebody wrote in between, what the client answered is what becomes of the row that was read |
| DownloadLifecycle.DeletedOnlyOnceCompleted | backend/internal/importer/service.go:506-519 | the importer deletes a torrent only for a version already stored as completed, linked and with its hash |
| DownloadLifecycle.WorkersFollowTheLifecycle | backend/internal/download/service.go:91-383 | every effective write by a worker is an edge of one table of lifecycle edges, from the row as stored |
| DownloadLifecycle.EdgeDoesWork | backend/internal/importer/service.go:122-519 | every edge strictly lowers the work left, which is at most 59 |
| DownloadLifecycle.WritesAreBounded | backend/internal/importer/service.go:122-519 | between restarts and user actions at most 59 writes take effect, whatever the interleaving |
| DownloadLifecycle.MovesOn | backend/internal/download/service.go:91-383 | an unfinished row that is not stranded leaves its status within two steps of the workers, if the answers are right |
| DownloadLifecycle.StrandedStays | backend/internal/importer/service.go:122-151 | a row downloading without a hash, or importing while the importer does not hold it, keeps its status until a user or a restart intervenes |
| DownloadLifecycle.FinishedStaysFinished | backend/internal/store/sqlite/download.go:13-30 | a completed, failed or cancelled row keeps its status until a user acts, whatever copies are still held and however often the process restarts |
| DownloadLifecycle.ImportOutcomeIsNotLost | backend/internal/metarefresh/service.go:128-166 | from its claim on no other worker can touch the row the importer works on, so its outcome is stored whenever the store takes it |
| LibraryFolders.GroupFolders | backend/internal/sync/service.go:915-981 | the map and order list of the loop give groups that share all and only the scanned files, where two folders of a series are together exactly when they share a title, and of a film library never |
| LibraryFolders.GroupsByTitle | backend/internal/sync/service.go:930-981 | two folders share a group exactly when they share a title, in a series library, or are the same folder, in a film library |
| LibraryFolders.GroupingPartitions | backend/internal/sync/service.go:915-981 | every scanned file lands in a group with its folder, nothing else does, and no folder is in two groups |
| LibraryTables.Store.ApplyCandidate | backend/internal/sync/service.go:266-373 | one transaction: adds, removals, counts and the deletion of an orphan as specified, or nothing on an error |
| LibraryTables.ApplyEffect | backend/internal/sync/service.go:266-373 | a fitting candidate fails exactly if its item is being deleted; otherwise it reports how many files came and went, and the item goes exactly if it lost all its files, got none and nobody waits for it |
| LibraryTables.PlanApplies | backend/internal/sync/service.go:247-260 | a sound plan succeeds exactly if no item in it is being deleted, and then every path and item is where the plan puts it |
| LibraryTables.PlanCounts | backend/internal/sync/service.go:236-260 | the counts of an applied plan are those of the paths that came and those that went |
| LibrarySync.Scan | backend/internal/sync/service.go:95-122 | folders that could not be read are remembered, the others keep their files |
| LibrarySync.StalePaths | backend/internal/sync/service.go:145-164 | exactly the tracked files not seen and not below an unreadable folder are candidates for removal |
| LibrarySync.FolderOwners | backend/internal/sync/service.go:177-184 | a folder belongs to an item with a file below it |
| LibrarySync.PlanAdditions | backend/internal/sync/service.go:186-230 | each group owes its untracked files to its home item, or forms one new item |
| LibrarySync.FindOrphans | backend/internal/sync/service.go:1136-1180 | exactly the items that lost their last file and that nobody waits for |
| LibrarySync.MakePlan | backend/internal/sync/service.go:95-251 | the scan and the tracked files together give a plan with one candidate per item |
| LibrarySync.PlanIsSound | backend/internal/sync/service.go:145-251 | no two candidates share an item or add the same file, none adds a tracked one or removes a foreign one |
| LibrarySync.PlanReconciles | backend/internal/sync/service.go:166-260 | applying the plan leaves the files on disk and the old ones that were not stale; groups go to one item; items disappear exactly as specified; the counts balance |
| LibrarySync.TrackedAfterSync | backend/internal/sync/service.go:95-264 | the tracked files afterwards are exactly those scanned and the old ones below folders whose scan failed |
| LibrarySync.OneShowOneGroup | backend/internal/sync/service.go:930-981 | two readable folders have one group exactly when they are of one show |
| LibrarySync.NewFilesFollow | backend/internal/sync/service.go:177-230 | each new file goes to an item with files below the first owning folder of its show, or to a new item if no folder of the show has an owner |
| LibrarySync.ShowsFollow | backend/internal/sync/service.go:177-230 | the new files of one show have one item, and those of two shows without an owner have two |
| LibrarySync.ItemsSettle | backend/internal/sync/service.go:95-260 | an old item goes exactly if it had files, has none left and is neither awaited nor monitored, and stays as it was otherwise; new items have files |
| LibrarySync.DeletionIsRespected | backend/internal/sync/service.go:266-373 | a completed sync has changed nothing about the files of an item that is being deleted |
| LibrarySync.SyncLibrary | backend/internal/sync/service.go:95-264 | the files tracked afterwards, that old files keep their item, the item of each new file and which new files share one, which items go and come, exact counts, untouched items being deleted; it stops early exactly at the first candidate whose item is being deleted and lost or gained a file, with the candidates before it applied and counted |
| Resync.ScanCandidate | backend/internal/sync/service.go:465-536 | the scan finds exactly what the folders hold, what single stats still find, and what is gone, and counts the folders and files it could not inspect |
| Resync.SameMediaFilePreimage | backend/internal/sync/service.go:665-680 | equal lengths and every old row among the new ones by identifier |
| Resync.OneDirectionSuffices | backend/internal/sync/service.go:665-680 | with distinct identifiers that one-sided check means equal row sets |
| Resync.ApplyFile | backend/internal/sync/service.go:568-602 | a row keeps its identifier, is updated exactly if its merged content differs, and is left alone otherwise |
| Resync.Catalog.ApplyResyncCandidate | backend/internal/sync/service.go:538-635 | commits exactly when item, library and rows are those of the preimage and no other item tracks a found file; then the rows are a function of preimage and scan and the counts are exact; a changed preimage is stale and nothing is written |
| Resync.ResyncMediaItem | backend/internal/sync/service.go:388-400 | afterwards each tracked file is kept, updated or removed and each new one added as its folder and its stat say, with exact counts; an error exactly for a gone item, one being deleted, or a found file that another item tracks |
| Resync.OldRowSettles | backend/internal/sync/service.go:465-592 | a tracked file: its row is as before if the folder is unreadable or its stat fails, brought up to date if listed or still there, and removed only if it is gone |
| Resync.NewRowSettles | backend/internal/sync/service.go:465-592 | a new row exactly for each untracked file in the listing of a readable folder of the item |
| Resync.CountsSettle | backend/internal/sync/service.go:538-635 | the counts are those of the rows that changed, came and went |
| Resync.ResyncConverges | backend/internal/sync/service.go:465-635 | a second resync of an unchanged disk changes nothing and reports 0 updated, 0 added, 0 removed |
| Resync.AssignmentSticks | backend/internal/sync/service.go:570-577 | an episode given to an unnumbered file survives the rescan exactly unless the scan names another episode or season |
| ItemStatus.RecalcStatus | backend/internal/sync/service.go:760-840 | the status of a matched film or series from files, source and wanted episodes |
| ItemStatus.StatusExactly | backend/internal/sync/service.go:760-840 | each of the four statuses, told from the files, the request and the episodes that count |
| ItemStatus.Items.RecalcMediaItemStatus | backend/internal/sync/service.go:760-840 | an item being deleted is refused, one that is gone or unmatched keeps its status, any other gets the status above, written only if it differs |
| ItemStatus.AvailableAgainstMonitor | backend/internal/sync/service.go:760-909 | a monitored series is available exactly when it is not a request without files, the monitor misses nothing and no wanted episode is covered by a file-name range alone |
| ItemStatus.RangeFileStaysPartial | backend/internal/sync/service.go:894-909 | one file S01E01-E02 satisfies the monitor but leaves the series partial |
| ItemStatus.UnairedRequestStaysRequested | backend/internal/sync/service.go:760-840 | a requested series of which nothing has aired stays requested although the monitor misses nothing |
| ReleaseSelection.MatchesLanguages | backend/internal/fileparse/match.go:37-75 | the language filter in both modes, with "multi" and the English fallback |
| ReleaseSelection.LanguageScore | backend/internal/fileparse/match.go:91-119 | the first wanted language that is spoken |
| ReleaseSelection.OrModeIsScoreInRange | backend/internal/fileparse/match.go:37-119 | outside AND mode a release matches exactly when its score is within the list, also for the empty list |
| ReleaseSelection.AndModeTies | backend/internal/fileparse/match.go:37-119 | in AND mode all matching releases have the same language score |
| ReleaseSelection.MatchesCriteria | backend/internal/indexer/filter.go:207-223 | excluded tags, resolution, source and languages together |
| ReleaseSelection.FilterByProfile | backend/internal/indexer/filter.go:18-39 | keeps exactly the matching results in their order |
| ReleaseSelection.RankResults | backend/internal/indexer/filter.go:53-99 | a stable sort by the dimensions that can differ |
| ReleaseSelection.SkippedDimensionsTie | backend/internal/indexer/filter.go:53-92 | leaving out a one-entry dimension, or languages in AND mode, never changes the comparison of two matching results |
| ReleaseSelection.PreferReleases | backend/internal/indexer/filter.go:150-168 | moves keyword hits to the front and keeps the order otherwise |
| ReleaseSelection.FilterByRelease | backend/internal/indexer/filter.go:172-184 | keeps exactly the keyword hits in their order |
| ReleaseSelection.SortIsUnique | backend/internal/indexer/filter.go:78-99 | two arrangements sorted by key and position are equal |
| ReleaseSelection.FilterForItem | backend/internal/monitor/service.go:509-520 | filter, ranking and keywords together list the eligible results, best first: keyword hits, then resolution, language, source and position |
| ReleaseSelection.SelectionIsUnique | backend/internal/monitor/service.go:509-520 | no other list is such a sort |
| ReleaseSelection.SelectionMeans | backend/internal/monitor/service.go:509-520 | the same in terms of the profile: what is contained in the title, offered by the release, and named sooner in a list |
| ReleaseSelection.MatchesMeans | backend/internal/indexer/filter.go:207-223 | acceptable means no excluded tag in the title, a wanted resolution, source and languages |
| AutoGrab.BuildDownloadMap | backend/internal/monitor/service.go:779-817 | the index holds exactly the keys of the rows that are active and not imported |
| AutoGrab.IndexIsScan | backend/internal/monitor/service.go:779-852 | the index answers yes exactly when a row covers the episode or a row names episode 0 of its season |
| AutoGrab.BlocksMeans | backend/internal/monitor/service.go:779-852 | a row blocks an episode exactly when it covers it or names episode 0 of its season, in terms of the fields of the row |
| AutoGrab.EpisodeZeroHidesTheSeason | backend/internal/monitor/service.go:773-852 | so a download of S01E00 makes it answer yes for S01E05, which nothing covers |
| AutoGrab.FindBestForEpisode | backend/internal/monitor/service.go:455-507 | the first release naming the episode and the first pack, combined by preference; whatever is returned names or packs the episode |
| AutoGrab.BestExactly | backend/internal/monitor/service.go:455-507 | when a pack is taken, when an episode, and that it is the first of its sort |
| AutoGrab.QueuedRowExactly | backend/internal/monitor/service.go:557-573 | the fields of the row that is queued |
| AutoGrab.QueuedEpisodeIsCovered | backend/internal/monitor/service.go:557-573 | queuing that release covers the episode until the row ends or is imported, whatever else is queued |
| AutoGrab.QueuedRangeIsCovered | backend/internal/monitor/service.go:779-817 | so it does for every episode of its range or pack |
| AutoGrab.BuildFileMap | backend/internal/monitor/service.go:854-871 | the files cover their own episodes and the ranges their names agree on |
| AutoGrab.WantedEpisodes | backend/internal/monitor/service.go:296-338 | exactly the aired, monitored episodes without a file, without a row that covers them and without a row that names episode 0 of their season |
| AutoGrab.WantedExactly | backend/internal/monitor/service.go:296-338 | the same from the fields: aired, flagged, held by no file, blocked by no row |
| SeasonGrab.Downloads.CreateAutoDownload | backend/internal/monitor/service.go:557-639 | queues one row exactly if the item is open, no file appeared, the address is neither active nor blocked |
| SeasonGrab.Downloads.GrabFor | backend/internal/monitor/service.go:400-442 | one turn, exactly: the choice, whether it is tried, whether it is queued, and the rows afterwards, for rows that others change before and after the check |
| SeasonGrab.Downloads.ProcessSeason | backend/internal/monitor/service.go:396-444 | the loop over the wanted episodes, exactly: rows and grabs are those of the season as a function of the rows, the releases and what the others do |
| SeasonGrab.TurnExactly | backend/internal/monitor/service.go:400-442 | one turn from the fields: when it tries, queues and ends the season, and the rows it leaves |
| SeasonGrab.GrabbedExactly | backend/internal/monitor/service.go:396-444 | a wanted episode is grabbed exactly when the loop gets to it, it has a release, the check finds no download of it, and the transaction finds the item open, no file, no block and no active row with the address |
| SeasonGrab.TriedPackEndsTheSeason | backend/internal/monitor/service.go:426-435 | a pack that was tried ends the season there and then, even if the transaction refused it |
| SeasonGrab.OnlyTriedPacksEndIt | backend/internal/monitor/service.go:396-444 | nothing else keeps the loop from getting to an episode |
| SeasonGrab.SeasonIsSound | backend/internal/monitor/service.go:396-444 | whatever the others do, every grab is for a wanted episode that no row covered at its check, and later checks see the rows of earlier grabs |
| SeasonGrab.NoSecondGrab | backend/internal/monitor/service.go:396-444 | while the row of a grab counts, no later grab of the season is for an episode that its release stands for, even if the row has lost its episode in between |
| SeasonGrab.CoveredWhenAdded | backend/internal/monitor/service.go:409-443 | a turn queues a release for an episode that is covered by then exactly if it tries one, the transaction has nothing against the item, all active rows have other addresses, and some covering row arrived or changed since the check |
| SeasonGrab.EveryGrabHasTheGap | backend/internal/monitor/service.go:409-443 | whenever a turn queues a release, it also does if a user queues the same episode from another address between check and insertion |
| SeasonGrab.RecheckLeavesAGap | backend/internal/monitor/service.go:409-443 | a season in which that happens: the episode ends up queued twice |
| TimelineCache.Cache.Ensure | frontend/src/utils/episodeTimeline.ts:84-91 | the synchronous part of a load, in place |
| TimelineCache.Cache.Settle | frontend/src/utils/episodeTimeline.ts:92-109 | the continuation of a load, in place: an aborted, replaced or disposed one leaves the windows alone |
| TimelineCache.Cache.Invalidate | frontend/src/utils/episodeTimeline.ts:112-124 | aborts, forgets and drops exactly the matching windows |
| TimelineCache.Cache.Retain | frontend/src/utils/episodeTimeline.ts:126-128 | drops exactly the windows outside the span |
| TimelineCache.Cache.DisposeAll | frontend/src/utils/episodeTimeline.ts:130-146 | aborts everything and stays empty |
| TimelineCache.RunInv | frontend/src/utils/episodeTimeline.ts:76-147 | the invariant of windows, requests and loads holds in every state of every interleaving |
| TimelineCache.LoadingMeansPending | frontend/src/utils/episodeTimeline.ts:84-124 | loading windows, pending requests and awaited loads that were not aborted correspond one to one |
| TimelineCache.EnsureOutcome | frontend/src/utils/episodeTimeline.ts:84-92 | a load starts exactly when the cache is in use and the window is unknown, or failed and to be tried again |
| TimelineCache.InvalidateOutcome | frontend/src/utils/episodeTimeline.ts:112-124 | exactly the matching windows go, exactly their loads are aborted, and it is announced once |
| TimelineCache.ResetOutcome | frontend/src/utils/episodeTimeline.ts:130-146 | reset and dispose drop everything, abort what was pending, and announce nothing |
| TimelineCache.WindowStep | frontend/src/utils/episodeTimeline.ts:84-109 | in any step a window is as it was, was just asked for, or just got the answer to its load |
| TimelineCache.StaleAnswerChangesNothing | frontend/src/utils/episodeTimeline.ts:93-109 | the answer to a load that is no longer pending changes no window and notifies nobody, and the load had been aborted |
| TimelineCache.PendingAnswerIsKept | frontend/src/utils/episodeTimeline.ts:93-109 | the answer to a pending load becomes exactly its window |
| TimelineCache.ShownItemsAreFresh | frontend/src/utils/episodeTimeline.ts:84-124 | every window shows the answer that its own load brought, a load started for that window and never aborted |
| TimelineCache.NothingAfterDispose | frontend/src/utils/episodeTimeline.ts:142-146 | after dispose nothing is loaded, shown or announced, ever |
| TimelineCache.DroppedWindowsAreReloaded | frontend/src/utils/episodeTimeline.ts:112-134 | whatever a dropped window shows later comes from a load started after the drop |
| TimelineRail.TimelineWindow | frontend/src/utils/episodeTimeline.ts:34-36 | every day is in exactly one window, which starts at a multiple of 14 |
| TimelineRail.ViewportCoversTheScreen | frontend/src/utils/episodeTimeline.ts:38-43 | every visible column and two more on each side are in the viewport, within the rail |
| TimelineRail.ViewportIsTight | frontend/src/utils/episodeTimeline.ts:38-43 | and nothing further away is |
| TimelineRail.RecenterKeepsTheCalendar | frontend/src/utils/episodeTimeline.ts:46-52 | recentering keeps the calendar position, shifts by whole windows, lands in days 28 to 41 when it moves, and does not move while the screen shows days 14 to 56 |
| TimelineRail.RecenterTwice | frontend/src/utils/episodeTimeline.ts:46-52 | recentering again changes nothing |
| TimelineRail.RecenterLeavesMargins | frontend/src/utils/episodeTimeline.ts:46-52 | afterwards a window of margin is left on both sides, for screens up to 15 columns |
| ReleaseSuggestions.OneReleaseEdit | backend/internal/fileparse/release_suggestions.go:53-71 | for lengths that differ by at most one: exactly whether one insertion, deletion, substitution or swap of neighbours at most leads from one to the other |
| ReleaseSuggestions.EditAtDisagreement | backend/internal/fileparse/release_suggestions.go:53-71 | such an edit, if there is one, can be made where the strings first disagree |
| ReleaseSuggestions.ScanInOrder | backend/internal/fileparse/release_suggestions.go:30-41 | the greedy scan finds an ordered subsequence exactly if one exists, and with the earliest end |
| ReleaseSuggestions.ReleaseSuggestionScore | backend/internal/fileparse/release_suggestions.go:14-51 | the best tier that applies and the score within it |
| ReleaseSuggestions.ScoreExactly | backend/internal/fileparse/release_suggestions.go:14-51 | the scores: equal, prefix, first occurrence, earliest ordered subsequence, one typo in a prefix, or none |
| ReleaseSuggestions.TiersStayApart | backend/internal/fileparse/release_suggestions.go:14-51 | every better tier scores strictly below every worse one for names at most 499 characters longer than the query |
| ReleaseSuggestions.TiersMeetAt500 | backend/internal/fileparse/release_suggestions.go:31-51 | the bound is exact: at 500 a subsequence and a typo tie |
| EpisodeCatalog.Catalog.ReplaceMatchEpisodes | backend/internal/matching/episodes.go:132-164 | succeeds exactly if the candidate names no episode twice; then the rows hold exactly the candidate, surviving episodes of the same provider keep identifier, creation time and download links, all other links are cleared, new rows get new identifiers |
| EpisodeCatalog.Finish | backend/internal/matching/episodes.go:154-163 | the rows left after deleting the unmet ones hold exactly the candidate and keep the identity of survivors |
| EpisodeCatalog.FinishLinks | backend/internal/matching/episodes.go:133-162 | a download loses its episode exactly when the provider changed or no longer lists it |
| MetadataRefresh.SeasonWindows | backend/internal/matching/refresh.go:226-245 | the last known season and every new one, or all known ones, each once in order |
| MetadataRefresh.ApplyFutureSeasonPolicy | backend/internal/matching/refresh.go:247-286 | exactly the new seasons become monitored, and exactly the changed ones are reported |
| MetadataRefresh.RefreshSeriesMetadata | backend/internal/matching/refresh.go:103-167 | the refreshed state, field by field, and a change is reported exactly if there is one |
| MetadataRefresh.RefreshExactly | backend/internal/matching/refresh.go:100-167 | status, season count, seasons and each episode afterwards, the first telling of an episode being the one that is stored |
| MetadataRefresh.RefreshOnlyAdds | backend/internal/matching/refresh.go:126-164 | stored episodes never change or disappear, and exactly those told in the fetched windows are added |
| MetadataRefresh.PolicyOnlyEnables | backend/internal/matching/refresh.go:247-286 | no season stops being monitored, and only new seasons of a willing item start |
| MetadataRefresh.RefreshSettles | backend/internal/matching/refresh.go:26-245 | with an unchanged provider the second refresh adds exactly the episodes told of older seasons that a growing count made the first one skip, so it changes no episode exactly when there are none; the third changes nothing |
| MetadataRefresh.GrowthDelaysAnEpisode | backend/internal/matching/refresh.go:226-245 | a series growing from two seasons to three gets a first episode of season 1 only with the second refresh |
| ScanDebounce.OnlyTheLatestScans | backend/internal/mediarefresh/service.go:121-133 | a superseded timer never scans |
| ScanDebounce.LatestIsNeverLost | backend/internal/mediarefresh/service.go:108-135 | the newest change of a library is armed, waiting for the lock, or scanned for |
| ScanDebounce.ChangeIsScannedFor | backend/internal/mediarefresh/service.go:108-135 | a change that no later one of its library supersedes has been scanned for as soon as no timer runs or waits any more |
| ScanDebounce.ScheduleOutcome | backend/internal/mediarefresh/service.go:108-135 | a change starts a new timer and stops exactly the pending one of its library |
| ScanDebounce.ScansAreDistinct | backend/internal/mediarefresh/service.go:121-133 | scans of a library are for ever later changes |
| ScanDebounce.TimersDrain | backend/internal/mediarefresh/service.go:121-133 | every timer step lowers the steps left, and at none nothing is pending |
| ScanDebounce.Service.ScheduleRefresh | backend/internal/mediarefresh/service.go:108-135 | the scheduling step, in place |
| ScanDebounce.Service.FireTimer | backend/internal/mediarefresh/service.go:120-123 | the firing of a timer, in place: its callback waits for the lock |
| ScanDebounce.Service.RunCallback | backend/internal/mediarefresh/service.go:121-133 | the timer step, in place |
| ReleaseKeywords.ParseReleaseKeywords | backend/internal/fileparse/release_keywords.go:7-18 | the loop computes the list of different clean keywords in order of first use |
| ReleaseKeywords.SplitExactly | backend/internal/fileparse/release_keywords.go:7-18 | the parts hold no comma, and with commas between them they are the input |
| ReleaseKeywords.CleanExactly | backend/internal/fileparse/release_keywords.go:11-11 | a keyword is its part without the white space around it, in lower case |
| ReleaseKeywords.ParseGrows | backend/internal/fileparse/release_keywords.go:7-18 | more text only adds keywords at the end |
| ReleaseKeywords.ParseUndoesJoin | backend/internal/media/update.go:83-85 | joining parsed keywords with comma and space and parsing again gives them back in order |
| ReleaseKeywords.SavedKeywordsReadBack | backend/internal/media/update.go:83-85 | so saving any input reads back as what was parsed from it |
| ReleaseKeywords.InsertReplacesTheToken | frontend/src/utils/releaseKeywords.ts:22-30 | inserting a text replaces exactly the entry under the caret by the keywords of that text and keeps all others |
| ReleaseKeywords.TokenIsOneEntry | frontend/src/utils/releaseKeywords.ts:9-20 | the entry under the caret reaches from comma to comma |
| ReleaseKeywords.CaretFollowsTheKeyword | frontend/src/utils/releaseKeywords.ts:22-30 | the caret ends up behind what was inserted and its separator |
| RateLimiter.IpLimiter.Allow | backend/internal/auth/ratelimit.go:40-62 | with its lazy cleanup the limiter decides as one that remembers every call |
| RateLimiter.CleanupForgetsNothing | backend/internal/auth/ratelimit.go:46-51 | deleting expired entries loses nothing a later call needs |
| RateLimiter.WindowBound | backend/internal/auth/ratelimit.go:53-61 | in a window exactly the first calls are allowed, as many as the limit says but at least one, so the limit is kept exactly if it is at least 1 |
| RateLimiter.WindowExactly | backend/internal/auth/ratelimit.go:53-61 | a window begins with the first call of all or with one that came too late for the window before it, and counts all calls from then on |
| RateLimiter.PauseOpensTheWindow | backend/internal/auth/ratelimit.go:53-57 | after a pause longer than a window the next call is allowed |
| DecisionLog.DecisionCheck.Add | backend/internal/monitor/decision.go:62-81 | counts are exact; kept and dropped details are all there were, at most 50 kept, and nothing dropped is more important than anything kept |
| DecisionLog.ReplaceStep | backend/internal/monitor/decision.go:70-80 | replacing the worst detail keeps that balance |
| DecisionLog.PriorityExactly | backend/internal/monitor/decision.go:17-60 | the earlier an outcome stands in the list the more important it is; an unknown one comes last |
| DecisionLog.OccurrencesExactly | backend/internal/monitor/decision.go:62-63 | the count of an outcome is the number of details with it |

## Left out

- EditDistance.ScoreRange: works on exact reals, so floating-point rounding of a score is not modelled; titles are taken after normalization, so Unicode folding is not either.
- TimelineRail.RecenterKeepsTheCalendar: pixels are exact reals, without floating-point rounding.
- AutoGrab.FindBestForEpisode: the comparison of a floating-point ratio with 0.7 behind the "smart" pack preference is a boolean input.
- SeasonGrab.Downloads.ProcessSeason: the search itself, grouping the wanted episodes by season, the removal of already imported releases and the counting of blocklist entries are inputs; reads of the store do not fail, and a deleted row counts as a cancelled one.
- ReleaseSelection.RankResults: the library's stable sort is a stable insertion sort here; the JSON of a profile and the lower-casing of titles and tags come before the model.
- ReleaseSuggestions.ReleaseSuggestionScore: strings are taken trimmed and in lower case.
- ReleaseKeywords.ParseUndoesJoin: white space and letter case are those of ASCII.
- EventBus.RunInv: entering a subscriber into the list to be closed and into the handler tables is one step, although the source takes the mutex for each; the channels are buffered ones, and a panicking handler counts as one that returned.
- JobQueue.RunInv: what a job does, its progress, history record and events are one step from running to finished.
- DownloadLifecycle.RunInv: one row is modelled, because rows do not influence each other; row deletion, manual status writes other than retry and cancel, the removal by the downloader of a torrent nobody claimed, and the fields for save path, error text and time stamps are left out.
- LibrarySync.SyncLibrary: no other writer runs between its transactions, tracked paths of other libraries and the year of a new item are left out, and so is the status recalculation after each candidate.
- Resync.Catalog.ApplyResyncCandidate: the order in which new rows get their identifiers and the activity entry of an explicit resync are left out.
- EpisodeCatalog.Catalog.ReplaceMatchEpisodes: the update time of a row and rows of other items are left out.
- MetadataRefresh.RefreshSeriesMetadata: the version checks against concurrent edits, the order of the added rows and the activity record are left out.
- MonitoringActivity.BuildMonitoringActivityDetails: the text of an activity entry is left out.
- TimelineCache.RunInv: formatting dates and error texts are left out.
- ItemStatus.RecalcStatus: dates are a flag per episode that says whether it has aired.
- Snapshots of the monitoring state read from the store (SnapshotMonitoring): a field-by-field copy.
- Finding the movie release in the monitor: the series path has the harder choices.
- The torrent-file reader around the decoder and the HTTP handlers of the development harness: field access and plumbing.
- Title, folder and file-name parsing by regular expressions: its results are inputs.
- The clients of qBittorrent, TMDB, TVDB, indexers, subtitle and media servers: their answers are inputs.
- SQLite and GORM beyond what is listed under Assumptions.
- HTTP, OpenAPI, server-sent events, the Vue components and the router: plumbing and user interface.
- Authentication, encryption, the updater, settings, posters, subtitles, hard links and file copies.
