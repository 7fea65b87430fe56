# Verified model of the real estate alert pipeline

This project models, in Dafny, the decision and state logic of a service that watches property portals
for its users and tells them about new listings that fit their alerts, and proves what that logic keeps
and promises. `dafny verify dfyconfig.toml` checks the whole project.

| module | what it models |
|---|---|
| `Tables`, `AlertCycle` | the database as maps and logs, its repositories, and one alert cycle as one transaction per planned query: cache or scrape, skip or normalize, evaluate, store matches, enqueue notifications |
| `CycleRefinement`, `Rescraping` | skipping unchanged listings refines normalizing every listing, and makes an unchanged scrape free exactly when no listing comes in two versions |
| `Conservation`, `CycleOrder`, `ScrapeOrder`, `TickOrder` | what a cycle adds to matches and outbox, and how far the order of its transactions matters |
| `Pacing`, `Freshness`, `Punctuality` | the planner tick; how far apart fetches of a query and evaluations of an alert are, and that neither comes later than that |
| `CycleLocks` | the semaphores and locks of a cycle, in every interleaving of its workers |
| `PriceHistory`, `Records` | the price history against the sequence of observed prices; what the other records tell |
| `ConditionRows`, `RowIds`, `RowTrees`, `AlertRepository`, `Alerts`, `AlertEdits` | condition trees as rows with parent links and back, saved alerts, the alert aggregate |
| `Conditions`, `Rules`, `ConditionParser` | the condition language: parsing, typing, compilation to specifications, operators on unknown values, the engine |
| `Verdicts` | what conditions say about a property, in terms of its own numbers, texts and flags |
| `SearchPlanner`, `Pushdown`, `QueryPlan` | parameters pushed to the portals; due alerts grouped into queries by canonical signature |
| `Outbox`, `Delivery` | the notification outbox with the state of its rows, its dispatcher, and which rows get delivered |
| `Messages` | the cycle's tables and the outbox together: at most one message per match and channel |
| `Arrival` | the way of a new match to its messages |
| `Crashes`, `CommitOrder` | which listings take a worker down, and order independence with crashing workers |
| `RateLimiter`, `CircuitBreaker`, `Scraper` | token bucket, circuit breaker, and the retrying fetch that drives both |
| `Normalizers`, `Assembly`, `Numerals`, `Decimals` | the normalization pipeline, which raw value becomes which part of a property, and the Spanish-locale number parsers |
| `Texts`, `JsonValues`, `Sums`, `Collections`, `Wrappers` | helpers |

Methods and classes follow the source where it works step by step; each is proved equal to a function
of its inputs or of the old state, and the promises are lemmas about those functions. Clock readings,
answers of portals and of the notifier, and what Python itself computes on texts are inputs.

Where code and documentation disagree, the model follows the code:

- The circuit breaker's class documentation speaks of a trial of the portal; half open, it admits every
  attempt until one reports back, so a single trial is what the portal gets exactly when no second
  attempt is made in between (`CircuitBreaker.SingleTrialIff`).
- The dispatcher promises that a row with attempts left is retried by the next run. The next run takes
  it up exactly when fewer than a batch of other pending rows are no younger
  (`Delivery.InEveryAnswerIff`); in the long run it is delivered or given up exactly when fewer than a
  batch of undeliverable rows are no younger (`Delivery.DeliveredIffNotBlocked`), and it is never tried
  at all exactly when a batch of them is older (`Delivery.NeverTriedIff`).
- `set_portals` replaces the subscriptions of an alert, but saving it never removes one
  (`AlertRepository.SavedAlertIsKeptIffNoPortalWasDropped`).
- The rate limiter's constructor accepts a burst below one token, with which its count goes below zero
  (`RateLimiter.NeverInDebtIffCapacityHoldsAToken`; a burst of zero in `RateLimiter.NoBurstGoesIntoDebt`).
- Alerts on the same search are meant to share one scrape; two alerts do so exactly when their
  conditions end on the same last write for every parameter (`QueryPlan.AlertsShareAQueryIff`), and all
  orders of some conditions do exactly when no two of them write different values for one parameter
  (`SearchPlanner.OrderIsIrrelevantIffWritesAgree`; `SearchPlanner.TwoBoundsPushTheLastOne` turns two bounds round).
- Every field that cannot be mapped is documented to leave an issue; an unmapped type of land leaves none
  (`Normalizers.LandTypeIsNeverReported`, with the exact condition in `Normalizers.LandPromiseIff`).
- A bad field should never take a cycle down; a zero price with a known area does
  (`Crashes.WorkerCrashesIff`, `Crashes.FreeFlatCrashesTheWorker`).
- An unchanged listing should be skipped; an answer that holds one listing in two versions stores both again
  every time (`Rescraping.RescrapingIsFreeIff`, `Rescraping.TwoPricesEveryTime`).
- The price history is documented to grow when the price changes; a price that was unknown in between is
  recorded again unchanged (`PriceHistory.HistoryRepeatsIff`, `PriceHistory.UnknownPriceRepeats`).

## Model

| member | source | states |
|---|---|---|
| CycleRefinement.SkippingRefinesNormalizing | src/real_estate/application/use_cases/run_alert_cycle.py:168-223 | Main result. Over every sequence of resolutions, with any listings, repeats, cache hits, failures and raised errors, the pipeline that skips unchanged listings and the reference that normalizes every listing hand out the same property ids at every step and end with the same properties, first-seen times, price history and cache (url, scraped_at and last_seen_at aside), given an injective digest, injective uuid5, steady normalizers and listings tagged with the queried portal. |
| CycleRefinement.ResolutionsAgree | src/real_estate/application/use_cases/run_alert_cycle.py:154-223 | One resolution, started from agreeing databases, ends the same way in both pipelines and leaves them in agreement. |
| CycleRefinement.OneListingStaysInStep | src/real_estate/application/use_cases/run_alert_cycle.py:168-202 | One listing keeps both pipelines at the same ids and in agreement, whether it is skipped, normalized, dropped or raises. |
| CycleRefinement.RenormalizingChangesNothing | src/real_estate/application/use_cases/run_alert_cycle.py:170-175 | When the stored digest matches, normalizing the listing again would give the very property id that the skip hands out and would write nothing but url, scraped_at and last_seen_at. |
| CycleRefinement.StoringKeepsInv | src/real_estate/application/use_cases/run_alert_cycle.py:191-202 | Storing a listing keeps every stored listing row together with the property that its payload normalizes into, because ids tell listings apart. |
| Rescraping.RescrapingIsFreeIff | src/real_estate/application/use_cases/run_alert_cycle.py:168-203 | Scraping the same storable listings again, at any later time, hands out the same property ids; it counts no new listing, and then changes no table, if and only if the property-making listings of the answer carry one payload per listing. |
| Rescraping.HandledListingsAreKnown | src/real_estate/application/use_cases/run_alert_cycle.py:170-175 | After a scrape in which no listing comes in two versions, every listing that made a property is found unchanged. |
| Rescraping.TwoPricesEveryTime | src/real_estate/application/use_cases/run_alert_cycle.py:168-203 | The input on which it is not: an answer that holds one listing at two prices adds two listings and two price rows every time it is scraped again. |
| Rescraping.SecondVersionIsHeld | src/real_estate/application/use_cases/run_alert_cycle.py:168-203 | One scrape of such an answer, from any sound tables, is enough to get there: the second version is the one that is stored. |
| CycleRefinement.IdsTellListingsApart | src/real_estate/infrastructure/normalizers/base.py:180-182 | For portals without a colon, two listings get the same id exactly when they are the same listing. |
| CycleOrder.OrderDoesNotMatter | src/real_estate/application/use_cases/run_alert_cycle.py:95-152 | Main result. Two serial orders of the same planned queries both end without a crash, with the same matches and the same (match, channel) notifications, and as many of each, whatever listings the queries share and however often one answer repeats a listing; and with the same stored properties whenever no two queries leave different versions of one listing. Asked for: no two queries with one signature, workers that do not crash, and no query that leaves a changed version of what another has cached. |
| ScrapeOrder.AllOrdersEndAlikeIff | src/real_estate/application/use_cases/run_alert_cycle.py:95-152 | All serial orders of a cycle store the same properties if and only if no two of its queries leave different versions of one listing. |
| ScrapeOrder.EqualPayloadsAgree | src/real_estate/application/use_cases/run_alert_cycle.py:161-202 | They leave the same version when listings shared between different queries carry equal payloads, whatever a single answer repeats. |
| ScrapeOrder.LaterQueryDecides | src/real_estate/application/use_cases/run_alert_cycle.py:95-152 | The witness: two queries that scrape one listing with different properties store the one or the other, depending on which commits last. |
| ScrapeOrder.CachedQueryDependsOnOrder | src/real_estate/application/use_cases/run_alert_cycle.py:156-159 | Why cached queries are set apart: when one query scrapes a new version of what another has cached, and an alert of the cached one matches the new version only, the match is made or not depending on which commits first. |
| TickOrder.TickOrderDoesNotMatter | src/real_estate/application/use_cases/planner_tick.py:33-36 | The same for what the jobs of a planner tick commit, crashing workers included: the planner itself discharges the assumption on signatures, so only the world (tags of listings, cache, stored alerts) has to meet conditions; and no worker crashes in any order if none is bound to. |
| TickOrder.PlansHaveDistinctQueries | src/real_estate/application/services/search_planner.py:36-56 | No two jobs planned from one set of due alerts have the same signature, and none occurs twice. |
| CycleOrder.CycleEffect | src/real_estate/application/use_cases/run_alert_cycle.py:119-255 | What a whole cycle does, in closed form: new matches are the hits of each job on its own candidates as seen from the start; each new match is announced once on every enabled channel of its owner; properties are what the queries leave, in their order, over the old ones; match and outbox growth are counted exactly; no worker crashes. An answer may repeat a listing in other versions: its last one counts. |
| CycleOrder.FailuresAreIsolated | src/real_estate/application/use_cases/run_alert_cycle.py:128-146 | A cycle in which some portals do not answer ends with the matches, notifications and properties of the answered queries alone, taken in the same order. |
| CommitOrder.CommitsDoNotDependOnOrder | src/real_estate/application/use_cases/run_alert_cycle.py:95-152 | Main result. Order independence with crashes: two serializations of the same workers, whichever of them crash and whether in storing or in evaluating, commit the same matches and notifications; and the same properties whenever no two workers that do not crash leave different versions of one listing. |
| CommitOrder.CommitsAreHealthy | src/real_estate/application/use_cases/run_alert_cycle.py:119-152 | A worker that cannot store what its portal answered, or on whose alerts the engine raises, commits nothing, and the others commit what they would commit without it. |
| CommitOrder.NobodyDoomedNobodyCrashes | src/real_estate/application/use_cases/run_alert_cycle.py:108-117 | A cycle without such a worker has no crash, in whatever order it runs. |
| Crashes.WorkerCrashesIff | src/real_estate/application/use_cases/run_alert_cycle.py:119-152 | With the shipped registry and typed alerts, a worker crashes exactly when nothing is cached for its query and the portal answers with a listing whose normalizer raises, or whose price is zero and its area known. |
| Crashes.IngestionRaisesIff | src/real_estate/application/use_cases/run_alert_cycle.py:168-202 | A scrape raises exactly when it holds such a listing, wherever it stands and whatever is stored: the hash skip never hides one. |
| Crashes.ZeroPriceBreaks | src/real_estate/infrastructure/normalizers/base.py:91-116 | A listing whose price is written as zero and whose area is written as a positive number is such a listing, for every pipeline and every unit. |
| Crashes.FreeFlatCrashesTheWorker | src/real_estate/application/use_cases/run_alert_cycle.py:168-202 | One listing with "0 €" and "90 m²" crashes its worker, whatever else the portal answered. |
| Crashes.StorableIffNothingBreaks | src/real_estate/application/use_cases/run_alert_cycle.py:168-202 | A scrape is storable, which is what the closed form of a cycle asks for, exactly when none of its listings is such a one. |
| Crashes.BreaksIffPayloadBreaks | src/real_estate/infrastructure/normalizers/base.py:66-221 | For the shared pipeline such a listing is known by its payload: images or videos that are a true value and cannot be iterated, or a price that is read as zero beside an area that is read at all. |
| Crashes.PipelineCrashesIff | src/real_estate/application/use_cases/run_alert_cycle.py:119-152 | So a worker crashes exactly when nothing is cached for its query and the portal answers with such a payload. |
| Messages.AtMostOneMessage | src/real_estate/application/use_cases/dispatch_notifications.py:41-94 | Main result. Over every interleaving of workers, crashing ones included, and dispatch runs, whatever the notifier answers, each (alert, property) match is brought to each channel at most once. |
| Messages.EveryMessageHasItsMatch | src/real_estate/application/use_cases/dispatch_notifications.py:61-94 | Every successful send brings exactly one match to one channel. |
| Messages.HistoryIsCoupled | src/real_estate/infrastructure/persistence/repositories/notification_repository.py:23-45 | Along every such history the outbox rows are those that the workers enqueued, and no match or entry is ever taken back. |
| Arrival.NewMatchesArrive | src/real_estate/application/use_cases/dispatch_notifications.py:41-94 | Main result. In every such history, a worker that creates a match leaves an outbox row for every enabled channel of the owner of the alert; when it can be delivered and fewer than a batch of undeliverable rows are no younger, it is SENT or FAILED after as many dispatch runs as there is work. |
| Arrival.NewMatchIsEnqueued | src/real_estate/application/use_cases/run_alert_cycle.py:245-251 | A committed worker enqueues every match it creates on every enabled channel of the owner. |
| CycleOrder.OneJobAlong | src/real_estate/application/use_cases/run_alert_cycle.py:119-152 | One worker that does not crash, run after any others of the cycle, adds exactly its own hits, notifications and properties. |
| CycleOrder.IngestedEffect | src/real_estate/application/use_cases/run_alert_cycle.py:168-202 | Skipped or stored, a listing leaves its own property behind as stored content and hands out that id. |
| CycleOrder.SettledIsConsistent | src/real_estate/application/use_cases/run_alert_cycle.py:168-202 | What one answer leaves behind is one version per listing: the last one. |
| CycleOrder.CacheLoads | src/real_estate/application/use_cases/run_alert_cycle.py:157-159 | Candidates taken from the cache load as the same properties after other workers have written as before. |
| Conservation.EvaluationConserves | src/real_estate/application/use_cases/run_alert_cycle.py:233-254 | Evaluation adds as many matches as there are new (alert, property) keys and as many outbox rows as the owners of the new keys have enabled channels, and never removes or changes a match. |
| Conservation.EvaluatingAgainCreatesNothing | src/real_estate/application/use_cases/run_alert_cycle.py:233-254 | Evaluating the same alerts on the same candidates a second time adds no match and no notification. |
| Conservation.AlertsHandledEffect | src/real_estate/application/use_cases/run_alert_cycle.py:233-254 | When the engine raises on none of them, evaluating a list of alerts stores exactly the keys on which their trees hold, each new one with one notification per enabled channel. |
| Conservation.EvaluationRaisesIff | src/real_estate/application/use_cases/run_alert_cycle.py:233-254 | Evaluating a list of alerts raises exactly when the engine raises on one of them, whatever is stored. |
| Conservation.MatchStoredEffect | src/real_estate/application/use_cases/run_alert_cycle.py:245-251 | One match: stored and announced on every enabled channel if new, nothing at all if known. |
| Conservation.MatchingIsFilter | src/real_estate/domain/services/alert_engine.py:26-39 | The matches of an alert are exactly the candidates on which its tree holds. |
| Records.WorkerIsStamped | src/real_estate/application/use_cases/run_alert_cycle.py:233-254 | A worker dates every match and outbox row that it makes with its own start, and changes no other. |
| Records.FetchIsCounted | src/real_estate/application/use_cases/run_alert_cycle.py:204-223 | A fetch records how many listings the portal answered with, how many of them were stored, and the issues of those that had to be normalized. |
| Records.ScrapeIsCounted | src/real_estate/application/use_cases/run_alert_cycle.py:161-203 | Stored are the listings that make a property and are not known with their payload when their turn comes. |
| Records.FailuresAreLogged | src/real_estate/application/use_cases/run_alert_cycle.py:108-117 | What a cycle reports as failed is what its log of executions has gained in failures. |
| Records.RowsTellTheLastStored | src/real_estate/infrastructure/persistence/repositories/portal_listing_repository.py:32-64 | After a scrape the row of a listing tells, in every column, the last listing that was stored under its key. |
| Records.PropertiesTellWhenSeen | src/real_estate/application/use_cases/run_alert_cycle.py:168-203 | And its property was last seen when that listing was met. |
| Records.PricesCompareByValue | src/real_estate/infrastructure/persistence/repositories/property_repository.py:161-167 | A price counts as changed when amount or currency differ from the stored one, and amounts differ by value. |
| AlertCycle.RunAlertCycle.Run | src/real_estate/application/use_cases/run_alert_cycle.py:81-117 | Commits what the workers commit one after another, those beside a crashing one included; there is a report exactly when none crashes, it counts each query once, the failed ones exactly, and matches_created is the growth of the match table. |
| AlertCycle.RunAlertCycle.RunOne | src/real_estate/application/use_cases/run_alert_cycle.py:119-152 | One worker commits what the specification says, or crashes exactly when it does; the returned count is the growth of the match table. |
| AlertCycle.RunAlertCycle.ResolveCandidates | src/real_estate/application/use_cases/run_alert_cycle.py:154-223 | Cache, scrape error, raised error or scraped listings: the loop over raw listings computes the specified tables, ids and counts. |
| AlertCycle.RunAlertCycle.IngestOne | src/real_estate/application/use_cases/run_alert_cycle.py:168-203 | The loop body: skip, drop, raise, or store property and listing. |
| AlertCycle.RunAlertCycle.LoadCandidates | src/real_estate/application/use_cases/run_alert_cycle.py:225-231 | The stored properties of the ids, in order, leaving out ids that are not stored. |
| AlertCycle.RunAlertCycle.EvaluateAndPersist | src/real_estate/application/use_cases/run_alert_cycle.py:233-254 | For every alert in turn: evaluate, store, mark as run, save; the count returned is the growth of the match table. |
| AlertCycle.RunAlertCycle.StoreMatch | src/real_estate/application/use_cases/run_alert_cycle.py:246-251 | A new match with one outbox entry per enabled channel, whatever order the channels come in. |
| AlertCycle.ResolvingKeepsMatches | src/real_estate/application/use_cases/run_alert_cycle.py:154-223 | Resolving candidates touches neither matches nor outbox nor alerts nor channels. |
| Tables.UnitOfWork.FindUnchangedPropertyId | src/real_estate/infrastructure/persistence/repositories/portal_listing_repository.py:24-30 | The property id of the listing with this portal and external id, if its stored digest is the given one. |
| Tables.UnitOfWork.UpsertListing | src/real_estate/infrastructure/persistence/repositories/portal_listing_repository.py:32-64 | Overwrites every field of the listing row, or inserts it; other rows stay. |
| Tables.UnitOfWork.AddProperty | src/real_estate/infrastructure/persistence/repositories/property_repository.py:121-155 | Stores the property, keeps its first-seen time, appends a price row only when the price is known and differs from the stored one; refuses when the price per m² cannot be computed. |
| Tables.UnitOfWork.PutCache | src/real_estate/infrastructure/persistence/repositories/search_cache_repository.py:28-56 | Sets ids, fetch time and expiry of one signature. |
| Tables.UnitOfWork.AddIfNew | src/real_estate/infrastructure/persistence/repositories/match_repository.py:22-42 | Adds a match under a fresh id and returns the id, or returns None and changes nothing when the pair is there already. |
| Tables.UnitOfWork.Enqueue | src/real_estate/infrastructure/persistence/repositories/notification_repository.py:23-45 | Adds the outbox row of a (match, channel) pair unless it exists. |
| Tables.UnitOfWork.SaveAlert | src/real_estate/infrastructure/persistence/repositories/alert_repository.py:146-182 | Stores the alert merged with what was stored: portal subscriptions are only ever added. |
| PriceHistory.HistoryIsTheChanges | src/real_estate/infrastructure/persistence/repositories/property_repository.py:121-167 | Over every sequence of adds, interleaved with other properties: the price rows of a property are exactly the changes of its observed prices, and its row is the last observation with the times of the first and the last. |
| PriceHistory.KnownPricesNeverRepeat | src/real_estate/infrastructure/persistence/repositories/property_repository.py:161-167 | While the price stays known, neighbouring rows of the history differ and the last one shows the current price. |
| PriceHistory.HistoryRepeatsIff | src/real_estate/infrastructure/persistence/repositories/property_repository.py:161-167 | Two neighbouring rows of a history show the same price if and only if two successive known observations of one price have unknown ones between them. |
| PriceHistory.RowsAreObservations | src/real_estate/infrastructure/persistence/repositories/property_repository.py:142-155 | Every row of the history was observed: its price, of its property, at its time. |
| PriceHistory.UnknownPriceRepeats | src/real_estate/infrastructure/persistence/repositories/property_repository.py:163-164 | The shortest such history: a price, an unknown one, and the first price again make two equal rows. |
| Pacing.FetchesAreSpaced | src/real_estate/application/use_cases/run_alert_cycle.py:127-223 | Main result. Over every sequence of workers, whatever their clocks show and whichever of them fail or crash, any two committed successful fetches of one signature start at least cache_ttl_seconds apart, and the cache row of a signature always belongs to its last fetch. |
| Freshness.FetchedAgainIffStale | src/real_estate/application/use_cases/run_alert_cycle.py:127-223 | Main result. Over every sequence of workers: a worker whose portal answers, and that does not crash, commits a new fetch exactly when no committed fetch of its query started within cache_ttl_seconds; otherwise its candidates are what the last fetch found. |
| Freshness.NothingFetchedIsCoherent | src/real_estate/infrastructure/persistence/repositories/search_cache_repository.py:22-56 | What this asks of log and cache holds of an empty database, and every worker keeps it. |
| Freshness.WorkerFetchesIffStale | src/real_estate/infrastructure/persistence/repositories/search_cache_repository.py:20-26 | It asks the portal exactly then, and commits an answer as a fetch and no answer as a failure, each with its own start. |
| Pacing.EvaluationsAreSpaced | src/real_estate/infrastructure/persistence/repositories/alert_repository.py:194-210 | Main result. Over every history of ticks and edits with ticks in order of time, two ticks that both commit an evaluation of an alert start at least the frequency apart that the alert has at the later one. |
| Punctuality.PlannedIffFrequencyHasPassed | src/real_estate/infrastructure/persistence/repositories/alert_repository.py:194-210 | Main result. Over every such history, a tick plans an alert for a portal exactly when the alert watches the portal and is active, and its last committed evaluation, if any, started at least its frequency ago: none is starved. |
| Punctuality.PlannedIffDue | src/real_estate/application/use_cases/planner_tick.py:33-36 | A tick plans a stored alert for a portal exactly when it watches the portal, is active, and never ran or last ran at least its frequency ago; and then in one job only. |
| Pacing.WorkerMarks | src/real_estate/application/use_cases/run_alert_cycle.py:252-253 | A worker sets the last run of exactly the alerts it evaluates, to its own start. |
| Pacing.EvaluatedAlertIsDue | src/real_estate/application/use_cases/planner_tick.py:33-36 | A tick evaluates only alerts that are due when it lists them. |
| Pacing.ListDue | src/real_estate/infrastructure/persistence/repositories/alert_repository.py:194-210 | Exactly the active alerts whose frequency has passed since their last run, or that never ran, each once. |
| Pacing.PlannerTick.Run | src/real_estate/application/use_cases/planner_tick.py:33-36 | Plans what is due and runs the cycle, each job in the surroundings of its own query; the database afterwards is what its jobs commit, and the report counts the created matches. |
| AlertCycle.CycleCommitsAll | src/real_estate/application/use_cases/run_alert_cycle.py:95-117 | A cycle without a crash commits what its workers commit one after another. |
| CycleLocks.LocksAreSafe | src/real_estate/application/use_cases/run_alert_cycle.py:88-106 | Main result. In every interleaving: permits out and left always make the limit, at most max_concurrency workers resolve against one portal, at most one under one signature, at most one stores matches. |
| CycleLocks.NoDeadlockIffPortalsAdmit | src/real_estate/application/use_cases/run_alert_cycle.py:88-106 | Every run that nobody can continue has finished all workers and returned every permit and lock, exactly when every portal of the cycle admits at least one worker. |
| CycleLocks.RunsAreBounded | src/real_estate/application/use_cases/run_alert_cycle.py:119-152 | A run has no more turns than its workers have steps, whatever the scheduler does. |
| CycleLocks.SomebodyCanStep | src/real_estate/application/use_cases/run_alert_cycle.py:130-131 | While a worker is unfinished some worker can step, given limits of at least one. |
| CycleLocks.StepKeepsInv | src/real_estate/application/use_cases/run_alert_cycle.py:130-131 | Every step of every worker, raised errors included, keeps permits, locks and holders in balance. |
| CycleLocks.NoPermitNoStart | src/real_estate/application/use_cases/run_alert_cycle.py:88-91 | With a limit of zero the workers of a portal never start. |
| CycleLocks.FinishedWorkersStoredEveryAlert | src/real_estate/application/use_cases/run_alert_cycle.py:119-152 | In every interleaving, a finished worker that met no error has taken the lock for storing once per alert, and recorded no failure. |
| CycleLocks.RaisingIsTheEnd | src/real_estate/application/use_cases/run_alert_cycle.py:119-152 | An error raised while resolving, evaluating or storing is the end of a worker: it gives its permit back and neither stores nor records anything any more. |
| CycleLocks.UnansweredWorkersRecordOnce | src/real_estate/application/use_cases/run_alert_cycle.py:128-146 | One without an answer records that once and stores nothing. |
| RowIds.RoundTrip | src/real_estate/infrastructure/persistence/repositories/alert_repository.py:80-137 | Main result. Rebuilding from any permutation of the rows of a well-formed tree, under any distinct ids, gives back exactly that tree: nesting, order of children, operators and typed values. |
| RowIds.RebuiltIsTheSame | src/real_estate/infrastructure/persistence/repositories/alert_repository.py:116-137 | Renaming ids by any injective map changes neither the rebuilt tree nor the error. |
| RowTrees.RebuiltIff | src/real_estate/infrastructure/persistence/repositories/alert_repository.py:116-137 | Main result. On every row set with unique ids, dangling parents and cycles included, the rebuild succeeds with a tree if and only if exactly one row has no parent and it is the row of a group that stands for the tree, said without rebuilding. |
| RowTrees.SortIsStable | src/real_estate/infrastructure/persistence/repositories/alert_repository.py:116-121 | Rows at one position stay in the order of the query. |
| RowTrees.ConditionRowsAreLeaves | src/real_estate/infrastructure/persistence/repositories/alert_repository.py:80-113 | A tree is stored as one CONDITION row per leaf, and its other rows are GROUP rows. |
| RowTrees.TuplesByKey | src/real_estate/infrastructure/persistence/repositories/alert_repository.py:66-74 | A stored tuple is read item by item. |
| RowTrees.ScalarsByTag | src/real_estate/infrastructure/persistence/repositories/alert_repository.py:49-58 | A stored scalar is read by its tag; whatever is no bool, int or Decimal is a text. |
| ConditionRows.RebuildVisitsEachRowOnce | src/real_estate/infrastructure/persistence/repositories/alert_repository.py:116-137 | On every row set with unique ids, dangling parents and cycles of parents included, the rebuild visits rows of the table only and none of them twice, whether it succeeds or fails. |
| ConditionRows.PathsAreShort | src/real_estate/infrastructure/persistence/repositories/alert_repository.py:116-137 | A chain of rows from a root repeats no row, so the recursion is never deeper than the table is long: a cycle is never entered. |
| ConditionRows.PathsAreUnique | src/real_estate/infrastructure/persistence/repositories/alert_repository.py:116-137 | There is only one chain from a root to a given row. |
| ConditionRows.ValueRoundTrip | src/real_estate/infrastructure/persistence/repositories/alert_repository.py:39-74 | Every condition value survives the JSON codec with its type: bool, int, Decimal, text, tuples and none. |
| RowIds.RowWriter.BuildRows | src/real_estate/infrastructure/persistence/repositories/alert_repository.py:80-113 | Appends one row per node with the ids drawn, parent links and positions. |
| ConditionRows.RebuildTree | src/real_estate/infrastructure/persistence/repositories/alert_repository.py:116-137 | Groups the rows by parent, sorts each group by position and builds the tree or fails, as specified. |
| ConditionRows.ParentsAreInside | src/real_estate/infrastructure/persistence/repositories/alert_repository.py:80-113 | Every row but the first points to a row of the same subtree. |
| AlertRepository.SaveThenLoad | src/real_estate/infrastructure/persistence/repositories/alert_repository.py:146-232 | Saving a valid alert and loading it, rows in any order, gives it back with its subscriptions added to those already stored. |
| AlertRepository.SavedAlertIsKeptIffNoPortalWasDropped | src/real_estate/infrastructure/persistence/repositories/alert_repository.py:171-182 | A saved alert loads unchanged exactly when it drops no portal that was stored for it: removing a subscription is never persisted. |
| AlertRepository.RepositoryIsTheMerge | src/real_estate/infrastructure/persistence/repositories/alert_repository.py:146-232 | What the cycle takes saving to do is what writing the rows and loading them does. |
| AlertRepository.LoadedAlertsAreValid | src/real_estate/infrastructure/persistence/repositories/alert_repository.py:212-232 | Whatever the tables hold, only valid alerts are loaded. |
| AlertRepository.AlertRepository.Add | src/real_estate/infrastructure/persistence/repositories/alert_repository.py:146-182 | Writes the record, replaces the condition rows and adds missing subscriptions. |
| AlertRepository.AlertRepository.Get | src/real_estate/infrastructure/persistence/repositories/alert_repository.py:184-188 | Loads what is stored under the id, from rows in any order. |
| AlertEdits.ChangesKeepTheAlertValid | src/real_estate/domain/model/alert.py:64-114 | No sequence of changes, refused ones included, makes a valid alert invalid, changes its owner or touches its last run. |
| AlertEdits.OtherChangesKeepThePace | src/real_estate/domain/model/alert.py:81-98 | Renaming, new conditions and new portals never change when an alert is due. |
| AlertEdits.LastChangeWins | src/real_estate/domain/model/alert.py:81-114 | After any sequence of changes the alert is, of each kind, as the last change wants it that was not refused. |
| AlertEdits.WhatNothingChangesStays | src/real_estate/domain/model/alert.py:81-114 | What no change is about, refused ones aside, is as before. |
| AlertEdits.LastChangeDatesIt | src/real_estate/domain/model/alert.py:81-114 | Its time of update is that of the last change that was not refused. |
| AlertEdits.RefusedIffItWouldBreak | src/real_estate/domain/model/alert.py:64-114 | A change is refused exactly when it would make a valid alert invalid. |
| AlertEdits.AMinuteIsShortest | src/real_estate/domain/model/alert.py:64-79 | Exactly frequencies of sixty seconds and more are valid. |
| AlertEdits.AlertAggregate.Validate | src/real_estate/domain/model/alert.py:64-79 | Accepts exactly the alerts with a name, a portal, a frequency of at least a minute and a condition. |
| AlertEdits.AlertAggregate.Rename | src/real_estate/domain/model/alert.py:81-85 | Refuses a blank name and then changes nothing; otherwise sets name and time of update. |
| AlertEdits.AlertAggregate.ReplaceConditions | src/real_estate/domain/model/alert.py:87-92 | Refuses a tree without conditions and then changes nothing. |
| AlertEdits.AlertAggregate.SetPortals | src/real_estate/domain/model/alert.py:94-98 | Refuses an empty set of portals and then changes nothing. |
| AlertEdits.AlertAggregate.SetFrequency | src/real_estate/domain/model/alert.py:100-106 | Refuses a frequency below a minute and then changes nothing. |
| AlertEdits.AlertAggregate.MarkRun | src/real_estate/domain/model/alert.py:116-118 | Sets the last run and nothing else, not even the time of update. |
| Conditions.MakeCondition | src/real_estate/domain/model/conditions.py:70-91 | A leaf is made exactly when its field is named and its value has the shape its operator needs. |
| Conditions.MakeGroup | src/real_estate/domain/model/conditions.py:101-103 | A group is made exactly when it has a child. |
| Conditions.LeafCount | src/real_estate/domain/model/conditions.py:105-110 | The loop counts the leaves below a group. |
| Conditions.WellFormedTreesHaveLeaves | src/real_estate/domain/model/conditions.py:94-110 | A tree that the constructors accept has at least one condition. |
| Conditions.LeavesAdd | src/real_estate/domain/model/conditions.py:105-110 | A condition is one leaf, and a group has the leaves of its children, however they are split up. |
| Rules.CompilationPreservesMeaning | src/real_estate/domain/rules/factory.py:40-62 | Main result. Wherever the compiled specification has a verdict, it is the recursive ALL, ANY, NONE meaning of the tree. |
| Rules.CompilesIffCompilable | src/real_estate/domain/rules/factory.py:55-62 | The factory accepts a tree exactly when every leaf names a known field with an operator of its type; otherwise it raises InvalidConditionError. |
| Rules.TypedTreesEvaluate | src/real_estate/domain/rules/specification.py:28-67 | A typed tree compiles, and evaluating it on a readable property never meets a type mismatch. |
| Rules.Polarity | src/real_estate/domain/rules/specification.py:41-67 | Turning unknown fields into known ones never turns a match into a miss in rising trees, nor a miss into a match in falling ones: comparisons rise, NOT_EXISTS falls, and each NONE swaps the two. |
| Rules.PlainTreesRise | src/real_estate/domain/rules/specification.py:41-67 | Trees without NONE and NOT_EXISTS are rising. |
| Rules.EngineFindsTheMatches | src/real_estate/domain/services/alert_engine.py:26-39 | On typed trees and readable candidates the engine returns the candidates on which the tree holds, in order, and never raises. |
| Rules.EngineReturnsMatches | src/real_estate/domain/services/alert_engine.py:26-39 | Whatever the tree and the candidates, typed or not: when the engine does not raise, it returns exactly the candidates on which the tree holds, in order. |
| Rules.OccursIffSomewhere | src/real_estate/domain/rules/operators.py:97-108 | CONTAINS holds exactly when the folded part stands somewhere in the folded text. |
| Rules.DefaultRegistryIsTyped | src/real_estate/domain/rules/field_registry.py:121-162 | The shipped registry is well typed, and reading a property through it fails only through the price per m². |
| Rules.ReadableUnlessFree | src/real_estate/domain/model/property.py:53-58 | Reading a property through the shipped registry fails exactly when its price is zero and its area known, given a division that keeps signs. |
| Rules.PricePerM2FailsIffFree | src/real_estate/domain/model/area.py:42-51 | So does its price per m². |
| Verdicts.TreesMeanWhatTheySay | src/real_estate/domain/rules/operators.py:36-121 | Main result. On the shipped registry a typed tree holds on a property exactly when the own numbers, texts and flags of the property are what the tree asks for: said without registry, strategies or specifications, unknown values included. |
| Verdicts.EngineReturnsTheWanted | src/real_estate/domain/services/alert_engine.py:26-39 | So the engine returns the candidates that the tree asks for, in order. |
| Verdicts.NumbersCompare | src/real_estate/domain/rules/operators.py:36-73 | On known numbers of any type EQ, NEQ, LT, LTE, GT and GTE compare the numbers. |
| Verdicts.NumbersBetween | src/real_estate/domain/rules/operators.py:75-80 | BETWEEN holds exactly from the lower bound to the upper one, both included. |
| Verdicts.TextsCompare | src/real_estate/domain/rules/operators.py:36-73 | On texts they compare contents, by code points where order is asked for. |
| Verdicts.KindsDoNotMix | src/real_estate/domain/rules/operators.py:36-73 | A text and a number are never equal, and ordering them is a TypeError. |
| Verdicts.PartsAreFound | src/real_estate/domain/rules/operators.py:97-108 | CONTAINS and NOT_CONTAINS say whether the folded part is some stretch of the folded text. |
| Verdicts.MembershipMeans | src/real_estate/domain/rules/operators.py:83-94 | IN asks for some item that EQ holds for, NOT_IN for none. |
| Verdicts.PresenceMeans | src/real_estate/domain/rules/operators.py:111-118 | EXISTS and NOT_EXISTS ask whether the value is known; every other operator fails on an unknown one. |
| Verdicts.AreaBelow | src/real_estate/domain/rules/operators.py:47-51 | For example, a property matches an upper bound on the area exactly when its area is known and below it. |
| Decimals.ValueIsScientific | src/real_estate/domain/rules/operators.py:47-73 | The number that Decimals are compared by is the coefficient, with its sign, times ten to the exponent. |
| Texts.LessIsLexicographic | src/real_estate/application/services/search_planner.py:39-40 | Texts are ordered by their first difference, and what merely goes on is greater. |
| Verdicts.EnumFieldsRead | src/real_estate/domain/rules/field_registry.py:127-136 | Province, municipality, kinds, land and status are read from the parts of the property that bear the name. |
| Verdicts.AmountFieldsRead | src/real_estate/domain/rules/field_registry.py:138-152 | So are price, area, plot area, rooms and bathrooms. |
| Verdicts.PricePerM2Reads | src/real_estate/domain/model/area.py:42-51 | The price per m² is the quotient of price and area where both are known and it is positive, unknown where one of them is, and an error otherwise. |
| Verdicts.TextFieldsRead | src/real_estate/domain/rules/field_registry.py:154-157 | So are the four texts. |
| Verdicts.FlagFieldsRead | src/real_estate/domain/rules/field_registry.py:159-160 | And the six flags, unknown where the property does not say. |
| Verdicts.ShippedFields | src/real_estate/domain/rules/field_registry.py:121-162 | There are no other fields. |
| Verdicts.OperatorsFitTheType | src/real_estate/domain/rules/field_registry.py:36-74 | Order is for numbers, parts are for texts, membership is for texts and enumerations, equality and presence are for all. |
| Rules.AllStopsAtTheFirst | src/real_estate/domain/rules/specification.py:41-52 | ALL ends with the first child that does not hold or raises; nothing behind it is evaluated. |
| Rules.AnyStopsAtTheFirst | src/real_estate/domain/rules/specification.py:52-67 | ANY ends with the first child that holds or raises. |
| Rules.EngineRaisesIff | src/real_estate/domain/services/alert_engine.py:26-39 | The engine raises exactly when the tree does not compile or its specification raises on some candidate. |
| ConditionParser.ParsedTreesNeverFail | src/real_estate/application/services/condition_parser.py:33-94 | Main result. A parsed tree is well formed and typed, compiles, and has a verdict on every readable property: the conjunction of its leaves. |
| ConditionParser.ShippedRegistryNeverFails | src/real_estate/application/services/condition_parser.py:33-94 | With the shipped registry only a price per m² that is not positive can still raise. |
| ConditionParser.TypedLeavesCanBeWritten | src/real_estate/application/services/condition_parser.py:41-57 | The language is complete but for membership: every typed leaf whose operator is not IN or NOT_IN, written out, is read back as itself. |
| ConditionParser.ParsedConditionsAreTyped | src/real_estate/application/services/condition_parser.py:41-94 | A parsed condition is a typed leaf of the registry, and never IN or NOT_IN. |
| ConditionParser.AllParsedAreTyped | src/real_estate/application/services/condition_parser.py:33-38 | So is every leaf of a parsed list. |
| ConditionParser.OperatorWords | src/real_estate/domain/model/conditions.py:24-39 | Each of the thirteen operators has its own word. |
| ConditionParser.OtherWordsAreRefused | src/real_estate/application/services/condition_parser.py:33-57 | There is no other word for it. |
| ConditionParser.FlagWords | src/real_estate/application/services/condition_parser.py:60-94 | A flag is written with one of three words for yes or three for no; anything else is refused. |
| ConditionParser.HalfARange | src/real_estate/application/services/condition_parser.py:60-75 | A range without a comma has an empty text as its upper end. |
| ConditionParser.RefusedTexts | src/real_estate/application/services/condition_parser.py:41-57 | A text without an operator, with an unknown field or operator, with an operator that the field does not take, or without a value where one is needed is an InvalidConditionError. |
| SearchPlanner.PushdownIsSound | src/real_estate/application/services/search_planner.py:58-93 | Main result. A property on which the whole tree of an alert holds also satisfies every parameter pushed for it, repeated conditions that overwrite each other included. |
| SearchPlanner.FilteringFirstChangesNothing | src/real_estate/application/services/search_planner.py:58-93 | So letting a portal filter by the parameters first never changes the matches of the alert, nor their order. |
| SearchPlanner.OrderIsIrrelevantIffWritesAgree | src/real_estate/application/services/search_planner.py:58-93 | The pushed parameters do not depend on the order of the conditions exactly when no two conditions write different texts for one parameter. |
| SearchPlanner.TwoBoundsPushTheLastOne | src/real_estate/application/services/search_planner.py:74-93 | Two different upper bounds on the price push different parameters when their order is turned round. |
| SearchPlanner.WritesAreSound | src/real_estate/application/services/search_planner.py:74-93 | A typed condition that holds on a property vouches for every parameter it writes. |
| SearchPlanner.PushableParams | src/real_estate/application/services/search_planner.py:58-72 | The loop over the top-level conditions computes, per parameter, the last text written; only ALL groups push anything. |
| SearchPlanner.AddIfPushable | src/real_estate/application/services/search_planner.py:74-93 | Writes the parameters of one condition and keeps the others. |
| Pushdown.PortalsFilterByTheLast | src/real_estate/application/services/search_planner.py:58-93 | Main result. A portal that honours the parameters lets through exactly the properties that meet the last equality on each of the three fields and the last bounds on the price, as far as it can filter by them. |
| Pushdown.PushedExactly | src/real_estate/application/services/search_planner.py:58-93 | Exactly these parameters are pushed: of an ALL group, to a portal that can filter by the field, what the last condition on it asks for, with its text; nothing for a field the portal cannot filter by. |
| Pushdown.PushedWholeFindsTheMatches | src/real_estate/application/services/search_planner.py:58-93 | When every condition can be pushed and no two restrict the same, the portal lets through exactly the matches. |
| QueryPlan.PlanIsAMinimalPartition | src/real_estate/application/services/search_planner.py:36-56 | Main result. Every due alert lands, for every portal it monitors, in exactly one query whose parameters are its own; signatures differ; and there are as many queries as different (portal, parameters) pairs. |
| QueryPlan.QueryServesItsShape | src/real_estate/application/services/search_planner.py:36-56 | A planned query carries exactly the due alerts that ask its portal for its parameters. |
| QueryPlan.CanonicalIsInjective | src/real_estate/application/services/search_planner.py:96-98 | Equal canonical texts come from the same portal and the same parameters, when slugs hold no bar and values no ampersand. |
| QueryPlan.SignatureDecidesShape | src/real_estate/application/services/search_planner.py:96-98 | So the signature alone decides portal and parameters, and they decide it. |
| QueryPlan.AlertsShareAQueryIff | src/real_estate/application/services/search_planner.py:58-98 | Two alerts with ALL groups share the scrape of a portal exactly when their conditions end on the same last write for every parameter. |
| QueryPlan.AsManyKeysAsShapes | src/real_estate/application/services/search_planner.py:36-56 | There are as many groups as different (portal, parameters) pairs. |
| QueryPlan.NobodyIsCarriedTwice | src/real_estate/application/services/search_planner.py:44-52 | A query carries an alert at most once. |
| QueryPlan.PlansGrow | src/real_estate/application/services/search_planner.py:38-56 | Queries stand in the order in which they are first asked for, and alerts in the order of the listing. |
| QueryPlan.ItemsAreSorted | src/real_estate/application/services/search_planner.py:96-98 | The canonical text lists every parameter in the order of its name, with its own text. |
| QueryPlan.Plan | src/real_estate/application/services/search_planner.py:36-56 | The loops over alerts and sorted portals, with a dictionary of groups, compute the plan. |
| Outbox.Lifecycle | src/real_estate/infrastructure/persistence/repositories/notification_repository.py:23-77 | Main result. Over every run of enqueues and dispatches: one row per (match, channel), attempts equal the recorded failures, PENDING rows have attempts left, SENT rows were sent once and FAILED rows used up their attempts; exactly the SENT rows have a time of sending, exactly the tried ones an error. |
| Outbox.SendsAreBounded | src/real_estate/application/use_cases/dispatch_notifications.py:61-94 | No message is sent successfully more than once, nor tried more than max_attempts times. |
| Outbox.TerminalRowsStay | src/real_estate/infrastructure/persistence/repositories/notification_repository.py:56-77 | SENT and FAILED are final. |
| Outbox.RowsTellTheirCreation | src/real_estate/infrastructure/persistence/repositories/notification_repository.py:23-45 | Every row was enqueued for its match and channel, at its time of creation. |
| Outbox.ReportCountsTheSends | src/real_estate/application/use_cases/dispatch_notifications.py:41-59 | A run reports as sent exactly the sends that succeeded, and sends once for every deliverable row. |
| Delivery.DeliveredIffNotBlocked | src/real_estate/application/use_cases/dispatch_notifications.py:41-94 | Main result. The promise of a retry, row by row: every sequence of as many runs as there is work brings a deliverable row to SENT or FAILED, whatever the notifier and the query answer, if and only if fewer than a batch of undeliverable rows are no younger. |
| Delivery.NeverTriedIff | src/real_estate/application/use_cases/dispatch_notifications.py:69-75 | No run ever tries a deliverable row if and only if at least a full batch of undeliverable rows is older. |
| Delivery.Drains | src/real_estate/application/use_cases/dispatch_notifications.py:41-94 | With fewer than a batch of undeliverable rows no younger, a deliverable row is SENT or FAILED after as many runs as there is work. |
| Delivery.MayStarve | src/real_estate/application/use_cases/dispatch_notifications.py:69-75 | With a full batch of them, any number of runs may pass the row over. |
| Delivery.InEveryAnswerIff | src/real_estate/infrastructure/persistence/repositories/notification_repository.py:47-54 | The next run takes up a row, whatever the query answers, exactly when fewer than a batch of other PENDING rows are no younger. |
| Delivery.InSomeAnswerIff | src/real_estate/infrastructure/persistence/repositories/notification_repository.py:47-54 | It may take up the row exactly when fewer than a batch of PENDING rows are older. |
| Delivery.EveryRunProgressesIff | src/real_estate/application/use_cases/dispatch_notifications.py:41-59 | Whatever the query answers, a run takes up something deliverable exactly when some deliverable row has fewer than a batch of undeliverable rows in its way. |
| Delivery.BlockedIffNothingIsTried | src/real_estate/application/use_cases/dispatch_notifications.py:69-75 | No answer to the query holds a deliverable row exactly when each has a full batch of older pending rows before it. |
| Delivery.BlockedForever | src/real_estate/application/use_cases/dispatch_notifications.py:69-75 | Such an outbox stays as it is through any number of runs. |
| Delivery.DispatchWorks | src/real_estate/application/use_cases/dispatch_notifications.py:41-59 | A run uses up work exactly when its batch holds a deliverable row, and otherwise changes nothing. |
| Delivery.RetryPromiseFails | src/real_estate/application/use_cases/dispatch_notifications.py:69-75 | The concrete outbox in which the retry never comes: two messages, one to a run, the older one undeliverable. |
| Outbox.DispatchTouchesBatch | src/real_estate/application/use_cases/dispatch_notifications.py:41-59 | A run touches no row outside its batch, and no identity of a row. |
| Outbox.NotificationRepository.Enqueue | src/real_estate/infrastructure/persistence/repositories/notification_repository.py:23-45 | Adds a PENDING row unless the pair is queued already. |
| Outbox.NotificationRepository.MarkSent | src/real_estate/infrastructure/persistence/repositories/notification_repository.py:56-61 | Sets status and time of sending of an existing row. |
| Outbox.NotificationRepository.MarkFailed | src/real_estate/infrastructure/persistence/repositories/notification_repository.py:63-77 | Counts the attempt, keeps the error, and fails the row when the attempts are used up. |
| Outbox.DispatchNotifications.Deliver | src/real_estate/application/use_cases/dispatch_notifications.py:61-94 | One delivery: undeliverable rows are left alone, a send is recorded with its outcome. |
| Outbox.DispatchNotifications.Run | src/real_estate/application/use_cases/dispatch_notifications.py:41-59 | The loop over the batch, with its report of sent and failed. |
| RateLimiter.WindowBound | src/real_estate/infrastructure/scrapers/rate_limiter.py:37-51 | Main result. On every trace with a clock that does not go back and sleeps that last at least as long as asked, any window of width w lets through at most capacity + rate * w calls. |
| RateLimiter.TokensStayBounded | src/real_estate/infrastructure/scrapers/rate_limiter.py:37-51 | On every such trace the tokens stay between zero and the capacity. |
| RateLimiter.NeverInDebtIffCapacityHoldsAToken | src/real_estate/infrastructure/scrapers/rate_limiter.py:19-45 | Tokens never go below zero, on any trace, exactly when the capacity is at least one; the constructor accepts less. |
| RateLimiter.NoBurstGoesIntoDebt | src/real_estate/infrastructure/scrapers/rate_limiter.py:19-45 | With a burst of zero and a rate of one, a single timely call leaves the limiter one token in debt. |
| RateLimiter.Telescope | src/real_estate/infrastructure/scrapers/rate_limiter.py:37-51 | Every grant is paid for out of the level at an earlier one. |
| RateLimiter.WaitsIffAWindowIsFull | src/real_estate/infrastructure/scrapers/rate_limiter.py:37-51 | Main result. A call waits if and only if letting it through at once would make some window hold more than capacity + rate * width calls: no limiter that keeps the bound waits less often. |
| RateLimiter.WaitIsExact | src/real_estate/infrastructure/scrapers/rate_limiter.py:40-44 | And it waits no longer than it has to: afterwards there is one token, and not more. |
| RateLimiter.DefaultCapacityHoldsAToken | src/real_estate/infrastructure/scrapers/rate_limiter.py:19-35 | Without an explicit burst the capacity is the rounded rate, and never less than one. |
| RateLimiter.RoundIsNearest | src/real_estate/infrastructure/scrapers/rate_limiter.py:28-31 | The rounding of the rate goes to a nearest integer, to the even one of two. |
| RateLimiter.TokenBucketRateLimiter.Acquire | src/real_estate/infrastructure/scrapers/rate_limiter.py:37-45 | Refill, sleep for the missing part of a token, refill, take one; the result is the time slept. |
| RateLimiter.TokenBucketRateLimiter.Refill | src/real_estate/infrastructure/scrapers/rate_limiter.py:47-51 | Adds what the elapsed time earns, up to the capacity. |
| CircuitBreaker.BreakerRefinesHistory | src/real_estate/infrastructure/scrapers/circuit_breaker.py:51-76 | Main result. After any trace, allow answers False exactly when the failures since the last success have reached the threshold and the last of them is less than a cooldown ago. |
| CircuitBreaker.StateFollowsHistory | src/real_estate/infrastructure/scrapers/circuit_breaker.py:51-76 | State, failure count and opening time are functions of the failures since the last success. |
| CircuitBreaker.LooksAreInvisible | src/real_estate/infrastructure/scrapers/circuit_breaker.py:47-63 | Reading the state, which may change it, leaves no trace in any later answer. |
| CircuitBreaker.HalfOpenAdmitsEveryone | src/real_estate/infrastructure/scrapers/circuit_breaker.py:51-63 | Until an outcome is reported, an open breaker admits exactly the attempts made at or after the end of its cooldown, every one of them. |
| CircuitBreaker.SingleTrialIff | src/real_estate/infrastructure/scrapers/circuit_breaker.py:51-63 | So at most one trial is admitted exactly when at most one attempt is made after the cooldown and before the outcome. |
| CircuitBreaker.TwoTrials | src/real_estate/infrastructure/scrapers/circuit_breaker.py:51-63 | Two attempts at the end of the cooldown are both admitted. |
| CircuitBreaker.CircuitBreaker.StateLocked | src/real_estate/infrastructure/scrapers/circuit_breaker.py:51-58 | Turns OPEN into HALF_OPEN once the cooldown has passed. |
| CircuitBreaker.CircuitBreaker.Allow | src/real_estate/infrastructure/scrapers/circuit_breaker.py:60-63 | Answers from the state just read. |
| CircuitBreaker.CircuitBreaker.RecordSuccess | src/real_estate/infrastructure/scrapers/circuit_breaker.py:65-69 | Closes the breaker and forgets failures. |
| CircuitBreaker.CircuitBreaker.RecordFailure | src/real_estate/infrastructure/scrapers/circuit_breaker.py:71-76 | Counts the failure and opens at the threshold, or at once when half open. |
| Scraper.DeadPortalIsLeftAlone | src/real_estate/infrastructure/scrapers/base.py:49-60 | Main result. Fetches that all fail within less than a cooldown, at most c of them under way at a time, those from before included, are admitted at most threshold + c - 1 times, however many are attempted and whatever happened before. |
| Scraper.EnoughFailuresPause | src/real_estate/infrastructure/scrapers/base.py:49-60 | Once the threshold of failures is reported within a cooldown, whoever asks then is refused, fetches under way or not. |
| Scraper.BaseScraper.Fetch | src/real_estate/infrastructure/scrapers/base.py:49-60 | A paused portal gets no request; otherwise the retries decide and exactly one outcome is recorded with the breaker. |
| Scraper.BaseScraper.Get | src/real_estate/infrastructure/scrapers/base.py:62-70 | Retries HTTP errors up to max_attempts requests, each taking its token from the limiter. |
| Scraper.Tries | src/real_estate/infrastructure/scrapers/base.py:62-70 | The retry loop makes at least one request and at most max_attempts. |
| Scraper.BaseScraper.FetchOnce | src/real_estate/infrastructure/scrapers/base.py:72-76 | Takes one token from the limiter and makes one request. |
| Numerals.RoundTrip | src/real_estate/infrastructure/normalizers/parsers.py:30-49 | Main result. A natural number in Spanish notation, with points between thousands, any decimals after a comma, an optional minus sign and an optional unit, is read as exactly that number. |
| Numerals.FirstNumberIsRead | src/real_estate/infrastructure/normalizers/parsers.py:37-49 | The exact reading of a text whose first number is given, after anything that holds no digit, point or comma, loose minus signs included: the digits, wherever points stand, with as many decimals as follow the comma; None exactly when it has two commas or no digit. |
| Numerals.EveryTextIsRead | src/real_estate/infrastructure/normalizers/parsers.py:37-49 | Every text has its reading: the one of its first number, with None for a text without any. |
| Numerals.UnitsAreRemoved | src/real_estate/infrastructure/normalizers/parsers.py:30-34 | A unit in front of a text is as good as not there. |
| Numerals.MoneyAndAreaRoundTrip | src/real_estate/infrastructure/normalizers/parsers.py:52-71 | Money keeps what was written unless it is negative, an area unless it is not positive. |
| Numerals.CountIsReadIffSmall | src/real_estate/infrastructure/normalizers/parsers.py:74-81 | A count with points between its thousands is read as itself exactly when it is below one thousand, because reading stops at the first point. |
| Numerals.FirstCountIsRead | src/real_estate/infrastructure/normalizers/parsers.py:74-81 | A count is the first run of digits of the text, None in a text without a digit. |
| Texts.BlankCharacters | src/real_estate/infrastructure/normalizers/parsers.py:30-34 | Blanks are the 29 characters that Python takes for blanks, and no others. |
| Texts.StripMeans | src/real_estate/infrastructure/normalizers/parsers.py:30-34 | Stripping takes off the outer blanks, all of them, and nothing else. |
| Numerals.RetokenMeaning | src/real_estate/infrastructure/normalizers/parsers.py:44-46 | Dropping points and turning the comma into a point gives the meaning of the token. |
| Numerals.ParseDecimal | src/real_estate/infrastructure/normalizers/parsers.py:37-49 | Search, rewrite and conversion compute the specified reading. |
| Numerals.ParseMoney | src/real_estate/infrastructure/normalizers/parsers.py:52-60 | Never negative; otherwise whatever was parsed. |
| Numerals.ParseArea | src/real_estate/infrastructure/normalizers/parsers.py:63-71 | Always positive; otherwise whatever was parsed. |
| Numerals.Clean | src/real_estate/infrastructure/normalizers/parsers.py:30-34 | The loop removes every unit and then the outer blanks. |
| Normalizers.PipelinesAreSteady | src/real_estate/infrastructure/normalizers/base.py:66-71 | All normalizers that share the pipeline depend on portal, external id and payload only and give a property the id of its listing: what the hash skip needs of them. |
| Normalizers.NormalizationIsTotal | src/real_estate/infrastructure/normalizers/base.py:163-221 | Normalization raises exactly when images or videos are a true value that cannot be iterated, and otherwise never drops a listing. |
| Normalizers.IssuesAreExact | src/real_estate/infrastructure/normalizers/base.py:91-161 | A parsed or looked-up field, the type of land aside, has an issue exactly when the portal gave it and the property has no value of its own for it. |
| Normalizers.LandPromiseIff | src/real_estate/infrastructure/normalizers/base.py:136-161 | The promise that what cannot be mapped leaves an issue holds for the type of land exactly when it is not given, the property is not land, or its folded text is mapped to a known type. |
| Normalizers.LandTypeIsNeverReported | src/real_estate/infrastructure/normalizers/base.py:139-142 | No payload makes the pipeline report a type of land. |
| Normalizers.SwampIsLost | src/real_estate/infrastructure/normalizers/base.py:139-142 | A payload whose type of land is lost without an issue. |
| Normalizers.LastEntryWins | src/real_estate/infrastructure/normalizers/base.py:73-89 | A canonical field gets the raw value of the last entry of the field map for it whose key is present. |
| Normalizers.PriceSurvives | src/real_estate/infrastructure/normalizers/base.py:91-116 | A price written the Spanish way in the raw field that the map names is the price of the property, in euros. |
| Assembly.NumbersFollowPayload | src/real_estate/infrastructure/normalizers/base.py:91-116 | Through the whole pipeline, price and areas are what the parsers read in the raw values that the field map names for them. |
| Assembly.CountsFollowPayload | src/real_estate/infrastructure/normalizers/base.py:91-116 | So are rooms and bathrooms. |
| Assembly.TextsFollowPayload | src/real_estate/infrastructure/normalizers/base.py:175-206 | Title and description are the texts of their raw values, empty where these are false. |
| Assembly.KindsFollowPayload | src/real_estate/infrastructure/normalizers/base.py:118-161 | Kinds and province are the words of the vocabularies for the folded raw values, or their fallbacks; every property is ACTIVE. |
| Assembly.FlagsFollowPayload | src/real_estate/infrastructure/normalizers/parsers.py:84-102 | A flag is true where the portal says yes, false where it says no, in one of eight words or as a boolean, and absent otherwise. |
| Assembly.MediaFollowPayload | src/real_estate/infrastructure/normalizers/base.py:163-206 | Images and videos are the web addresses in their raw values. |
| Assembly.UrlsAreTheWebAddresses | src/real_estate/infrastructure/normalizers/base.py:207-221 | Of some items exactly those that start with http:// or https:// are kept, in order. |
| Assembly.OtherItemsAreIssues | src/real_estate/infrastructure/normalizers/base.py:207-221 | Every other item leaves one issue with its text, in order. |
| Assembly.IssuesFollowPayload | src/real_estate/infrastructure/normalizers/base.py:66-71 | The issues are those of the numbers, of the kinds, of the images and of the videos, in this order, and no others. |
| Assembly.IssuesTellTheText | src/real_estate/infrastructure/normalizers/base.py:103-116 | An issue about a number or a kind tells the text that the portal gave. |
| Assembly.WhatCannotBeIterated | src/real_estate/infrastructure/normalizers/base.py:207-213 | Exactly a number other than zero and the value true make the media raise. |
| Assembly.WhatIsIterated | src/real_estate/infrastructure/normalizers/base.py:207-213 | Of the others, arrays give their items, texts their characters, objects their keys. |
| Normalizers.BaseNormalizer.Normalize | src/real_estate/infrastructure/normalizers/base.py:66-71 | The four steps over a shared list of issues compute the specified property and issues. |
| Normalizers.BaseNormalizer.MapFields | src/real_estate/infrastructure/normalizers/base.py:73-89 | The loop over the field map fills three dictionaries. |
| Normalizers.BaseNormalizer.ParseValues | src/real_estate/infrastructure/normalizers/base.py:91-101 | Five parsed fields, each with its issue when it could not be parsed. |
| Normalizers.BaseNormalizer.MapVocabulary | src/real_estate/infrastructure/normalizers/base.py:118-146 | Four vocabularies; the type of land only for land, and without an issue. |
| Normalizers.BaseNormalizer.Assemble | src/real_estate/infrastructure/normalizers/base.py:163-206 | Raises on media that cannot be iterated, and otherwise builds the property, or adds an issue when its constructor refuses. |
| Normalizers.BaseNormalizer.ValidUrls | src/real_estate/infrastructure/normalizers/base.py:207-221 | Keeps the http and https texts in order, with one issue for every other item. |

## Left out

- SQL, sessions, flushing, migrations and isolation: a unit of work is one atomic commit or rollback, and the workers of a cycle are serialized in some order; the database writer lock is not among the locks.
- Column precision of amounts and areas, `Location.country`, `attributes`, `geo` and `published_at` of a property.
- HTTP, HTML parsing, URL building, Telegram, the scheduler and the waiting times between retries: portals and notifiers are arbitrary answers or typed failures.
- SHA-256, uuid5, JSON serialization, Fernet encryption, accent and case folding, `str` and `Decimal` conversions: functions given as inputs, injective or inverse to each other only where a lemma says so.
- NaN and infinite decimals, non-ASCII digits, floating-point error of the limiter and the breaker (reals are used).
- A crash between sending a message and committing it, two dispatchers or two cycles at once, and edits of an alert while a cycle holds it: the code coordinates none of these.
- Unknown portals, for which scraper and normalizer registries raise, and subclasses that override the pipeline.
- The contents of the vocabularies and province data, field checks of value objects, `parse_bool` beyond its use in the pipeline, municipalities, list-only queries, CLI, user interface, settings, logging.
- JSON numbers with a fraction in a payload: payload values are null, booleans, integers, texts, arrays and objects.
- A time to live derived from the tightest frequency, query widening and retry backoff in the dispatcher: documented, not implemented.
- CycleOrder.OrderDoesNotMatter: compares matches by their (alert, property) keys and notifications by match key and channel, because fresh ids and timestamps do depend on the order; each job keeps its own clock reading in both orders.
- CycleLocks.LocksAreSafe: covers the three kinds of Python locks only, and says nothing about what the database does between them.
- Scraper.BaseScraper.FetchOnce: does not order the token before the request within one call; that every request has its own token is in `Scraper.BaseScraper.Get`.
- Pacing.EvaluationsAreSpaced: edits happen between ticks and keep the time of the last run, as every change of the alert aggregate does; deleting an alert is not modelled.
- Rules.CompilationPreservesMeaning: says nothing where evaluation raises; `Rules.TypedTreesEvaluate` says when it cannot.
- Delivery.DeliveredIffNotBlocked: speaks of runs with nothing enqueued and no channel changed in between, and of a notifier that either succeeds or raises its own error.
- Crashes.WorkerCrashesIff: takes it that dividing Decimals keeps the sign; a quotient so small that the Decimal context rounds it to zero is not modelled.
- ConditionRows.RebuildTree: row ids are unique, as the primary key of the table guarantees.
