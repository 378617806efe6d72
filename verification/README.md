# Latinex exchange: clock, feed and shutdown, verified in Dafny

Proofs about the two hand-written concurrent pieces of the mock exchange, and about what their
output is worth to a program that reads it.

`dafny verify dfyconfig.toml` checks everything.

| module | models |
|---|---|
| `DayTime` | the 64-bit arithmetic of the cached-midnight clock: line 58, the test at 59, the refresh at 62-64 |
| `CachedClock` | `ns_since_midnight` on one thread, any clock; runs of calls; reading the timestamps back |
| `ClockThreads` | the same function on any number of threads, every interleaving of its reads, loads and stores |
| `Wire` | the printed order id read back with `strtol`, and the 32-bit price |
| `Feed` | class `DataFeed` with its callbacks; the log they send; a reader of that log |
| `FeedThreads` | one feed under callbacks from any number of threads, every interleaving of stamping and sending |
| `Market` | classes `LiveOrder` and `Market`: the fan-out of one matching event to its orders and to the feed |
| `Shutdown` | the accept thread, the connection threads and the destructor as interleaved steps |
| `ExchangeServer` | the same steps as methods of a class that change its fields, and whole shutdowns played on it |

A clock reading is a number of nanoseconds since the epoch. Code that looks at the clock takes the next
reading of a recorded sequence; a call still retrying when the readings end has not returned. The market's
callbacks arrive in any order and with any contents. What poll returns, whether poll or a thread start throws,
and when a session ends are inputs of the shutdown model.

## What is proved

**The clock.** Whatever the clock does, forward or back, and however threads interleave, delayed stores
included, each value returned is the reading it was computed from modulo a day, with DAY in place of 0 only at
an exact midnight (`ResultsAreTimesOfDay`). This rests on one unsigned comparison being exact for the first
213,503 days of the epoch, and for not one day more (`HorizonIsTight`). In every run of n threads the stale loads
number at most a potential of the starting state plus n(n+1)/2 for each time the observed day changes
(`RetriesBounded`), for a clock that never goes back each day that passes (`RetriesPerDay`), so all but a bounded
number of steps go into calls that return (`StepsComplete`). From start-up some run meets that bound with equality,
for every n and every number of days (`RetryBoundIsMet`), and the day changes are needed: a clock swinging between
two days starves a thread (`SwingingClockStarves`). On one thread and a clock that never goes back, a call retries
once plus once for each midnight crossed after its first refresh (`RetryBound`), n calls take at most n readings
and two for each day (`RunReturns`), each day is stored once (`RefreshEconomy`), and a reader recovers all elapsed
times exactly when every gap is under a day, or is a whole day after a stamp of 0 (`UnwrapIsExact`).

**The feed.** On a clock that never goes back every callback's message gets out (`EverythingIsDelivered`). Reading
the log back gives, in order, every accept, every fill with its first order, every trade, and that a cancel or a
replace happened, exactly when order numbers fit a signed long and, if prices are to be read too, prices are
multiples of 100 that fit 32 bits (`FeedRoundTrip`); which order a fill matched, and which order a cancel or a
replace was about, is not in the log. Executed shares per reference are conserved (`ExecutedIsFilled`).

**The feed under threads.** In every interleaving the log holds, thread by thread and in order, one message for each
completed callback (`LogHoldsEveryCallback`), and each timestamp is the time of day of its callback's reading
(`MessagesCarryTimesOfDay`). On a clock that never goes back a callback that begins after a message was sent is
stamped no earlier than it (`SentFirstIsStampedFirst`), but overlapping callbacks can be out of order
(`OvertakenMessage`). The reader of the shared log recovers all elapsed times exactly when each message's reading
is followable from the one before it (`SharedLogUnwraps`). Callbacks that do not overlap do what the sequential
feed does (`UninterruptedIsSequential`, `SessionIsARun`).

**The shutdown.** After the flag is set at most one more connection thread starts, and only from an accept
thread already past its second look at the flag (`AtMostOneLateSpawn`). Every run from then on is finite and
ends with the destructor completed or aborted (`MaximalRunsEnd`). In every state of the server it is decided
whether it can still abort (`AbortExactlyInTheWindow`).

**The objects.** The classes carry these results on their own fields: a destructor played against any schedule, which
ends if every thread gets its turn often enough (`ExchangeServer.ShutDown`), and a whole history of callbacks played
through the market, its orders and the feed (`Market.Play`, `Market.PlayFromOpening`).

## Where the code and its own documentation disagree

The models follow the code.

- ITCH timestamps are nanoseconds past midnight (Nasdaq TotalView-ITCH 5.0, "Data Types"), so below one day. The
  code returns a whole day exactly when the first reading to lie within a day after the midnight it is measured from
  lies exactly a day after it (`StampIsDayExactly`); on almost every day the midnight that ends it is an example
  (`MidnightStampedDay`).
- The unit test in `test/data_feed.cpp` expects a second call to return more than the first. For any two calls
  `LaterStampIsLarger` decides it from the readings. On a clock with less than a day to run it holds exactly when the
  clock ticked and the second call's first reading is within a day after the cached midnight (`SecondStampWithinADay`).
  It fails over every midnight (`SecondStampSmallerOverMidnight`). Days later it compares the two times of day alone,
  so it also fails over gaps of more than a day (`SecondStampDaysLater`).
- `to_itch_price` is documented as careful with precision, but its cast binds before the division. It keeps the
  price exactly when the price in millionths fits 32 bits, a hundredth of the field's range (`PriceSurvives`,
  `RepresentablePriceGarbled`); any other goes out as its remainder modulo 2^32 (`PriceSent`), and an order without a
  price as 0 (`UnpricedOrderSentAtZero`).
- The project's README wants ALL transactions to be trackable from the feed. `on_fill` reports only the first of the two
  orders of a fill, and cancels go out blank. For an order announced once, never replaced and never overfilled, the
  reader's open quantity is right exactly when no fill names that order as the matched one and each cancel or reject
  finds nothing left of it (`ReaderTracksReportedOnly`); an order that rests and is then hit is read as still wholly
  open (`RestingOrderIsMisread`).
- The destructor is written to join every connection thread. The join loop takes the end of the vector when it
  begins, so a thread appended later is not joined, and destroying its handle ends the process
  (`JoinsAreComplete`, `UnseenThreadIsFatal`, `AbortExactlyInTheWindow`, `AbortIsReachable`).

## Model

| member | source | states |
|---|---|---|
| `DayTime.OffsetIsWrappedDifference` | src/data_feed.h:58 | the wrapping computation of line 58 is the true distance from the cached midnight modulo 2^64 |
| `DayTime.FreshIsExactFromAnySecond` | src/data_feed.h:58-59 | for any cached second a day or more before the horizon, midnight or not, the test passes if and only if the reading is within one day after it |
| `DayTime.FreshIsExact` | src/data_feed.h:58-59 | before the horizon the test passes if and only if the reading is within one day after the cached midnight; then the value is a right time of day; a clock behind the cache always refreshes |
| `DayTime.HorizonIsTight` | src/data_feed.h:59 | the test is exact for all readings and midnights of the first d days if and only if d is at most 213503 |
| `DayTime.RefreshIsMidnight` | src/data_feed.h:62-64 | a refresh stores the midnight at or before its reading |
| `CachedClock.CallShape` | src/data_feed.h:56-65 | a call that retries j times uses the reading 2j looks on, measured from the midnight of the reading just before it |
| `CachedClock.EarlierTestsWereStale` | src/data_feed.h:59-65 | a call retries only when its cache test failed |
| `CachedClock.CallRefinesModDay` | src/data_feed.h:53-68 | from any cached midnight and on any clock the result refines "reading mod one day", and the cache is the initial one or the midnight of the reading just before |
| `CachedClock.StampIsDayExactly` | src/data_feed.h:59-67 | on any clock the result is a whole day if and only if the first reading to lie within a day after the midnight it is measured from lies exactly a day after it |
| `CachedClock.MidnightStampedDay` | src/data_feed.h:59-67 | the midnight that ends a cached day is stamped DAY |
| `CachedClock.RetryBound` | src/data_feed.h:56-65 | on a clock that never goes back a call retries at most once, plus the midnights crossed between its first refresh and its last reading |
| `CachedClock.CallReturns` | src/data_feed.h:56-65 | on such a clock a call returns once there are more readings than the midnights passed can use up |
| `CachedClock.CallsRefineModDay` | src/data_feed.h:53-68 | over any history of calls every result is right and the cache is the initial one or the midnight of an earlier reading |
| `CachedClock.CallsFollow` | src/data_feed.h:64-67 | each call starts from the cache and the clock its predecessor left |
| `CachedClock.CallRefreshesAdvance` | src/data_feed.h:59-64 | on a clock that never goes back each refresh of a call falls on a later day than the one before, and than the cached day unless the cache is ahead of the clock; there are as many refreshes as retries, and the last one's midnight is cached |
| `CachedClock.RunReturns` | src/data_feed.h:56-65 | amortised cost: from any cached midnight n calls on such a clock all return within n readings and two for each day the readings span |
| `CachedClock.RefreshEconomy` | src/data_feed.h:59-64 | from any cached midnight, even one ahead of the clock, the line-62 readings of a whole run fall on later and later days and are as many as their different days |
| `CachedClock.RefreshesOfCall` | src/data_feed.h:56-65 | a call on any clock takes every other reading at line 62 and returns at the reading after the last of them, or waits there because the readings end |
| `CachedClock.ReadingsOfCalls` | src/data_feed.h:56-65 | on any clock the readings a run takes are one for each result and two for each refresh; a run with a call that does not return has taken them all but for one stale test |
| `CachedClock.ReaderGapExact` | src/data_feed.h:58-67 | adding a day when timestamps decrease gives the exact gap of two successive calls if and only if the gap is under a day, or is a day after a stamp of 0; never too much |
| `CachedClock.UnwrapIsExact` | src/data_feed.h:58-67 | over a whole run the reader's clock is exact between any two stamps if and only if every gap is of that kind |
| `CachedClock.SecondStampIsLater` | test/data_feed.cpp:16-23 | on any clock and from any cached midnight a call returns more than a given value if and only if the first of its readings to lie within a day after the midnight it is measured from lies later in that day |
| `CachedClock.LaterStampIsLarger` | test/data_feed.cpp:16-23 | of any two calls of any run, on any clock, the later one returns more if and only if that holds of the readings from where its predecessor stopped and of the midnight its predecessor left |
| `CachedClock.SecondStampWithinADay` | test/data_feed.cpp:16-23 | on a clock with less than a day to run: if and only if the clock ticked and the second call's first reading is within a day after the cached midnight |
| `CachedClock.SecondStampSmallerOverMidnight` | test/data_feed.cpp:16-23 | two calls around any midnight on which the expectation fails |
| `CachedClock.SecondStampDaysLater` | test/data_feed.cpp:16-23 | a call k days later returns its own time of day, whatever the first one's was: over gaps of more than a day the expectation fails when that time is the same or earlier |
| `ClockThreads.StepKeepsInv` | src/data_feed.h:53-68 | each atomic step of each thread keeps the cache a midnight and all results right |
| `ClockThreads.ResultsAreTimesOfDay` | src/data_feed.h:53-68 | in every interleaving every value returned is in [0, DAY], congruent to its reading, and DAY only at an exact midnight |
| `ClockThreads.CacheIsAnObservedMidnight` | src/data_feed.h:235 | in every interleaving the shared cache is 0 or the midnight of a reading some thread took at line 62 |
| `ClockThreads.PotentialFalls` | src/data_feed.h:59-65 | while readings stay on one day no step raises the potential and every stale load lowers it |
| `ClockThreads.PotentialBound` | src/data_feed.h:59-65 | the potential of n threads is at most 1 + 2 + ... + n = n(n+1)/2 |
| `ClockThreads.RetriesBounded` | src/data_feed.h:59-65 | in every run the stale loads are at most the starting potential plus that amount for each change of the observed day |
| `ClockThreads.RetriesPerDay` | src/data_feed.h:59-65 | on a clock that never goes back the stale loads are at most the starting potential plus that amount for each day that passes |
| `ClockThreads.InitialPotential` | src/data_feed.h:235 | with the cache at its initial 0 the potential is one retry a thread |
| `ClockThreads.RetryBoundIsMet` | src/data_feed.h:59-65 | that bound is met with equality: for every number of threads and of days some run from start-up, on a clock that never goes back, has that many stale loads |
| `ClockThreads.StepsAddUp` | src/data_feed.h:53-68 | each step of a run belongs to a return, at two steps, or to a retry, at four |
| `ClockThreads.CallsAddUp` | src/data_feed.h:65-67 | in every run the number of calls started is the number returned plus the change in the number in progress |
| `ClockThreads.StepsComplete` | src/data_feed.h:59-65 | no livelock: all but a bounded number of the steps of any run go into calls that return |
| `ClockThreads.SwingingClockStarves` | src/data_feed.h:59-65 | for every k one thread on a clock swinging between two days can retry k times and not return |
| `ClockThreads.AloneIsSequential` | src/data_feed.h:53-68 | a call no other thread interrupts has the sequential call's result, cache and number of retries |
| `Wire.ReferenceRoundTrip` | src/data_feed.h:91 | the reference read from a printed order number is that number if and only if it is below 2^63; otherwise it is 2^63 - 1 |
| `Wire.StrtolReads` | src/data_feed.h:91 | after any white space and a sign, whatever follows the digits, `strtol` reads the number as printed, or the nearest signed 64-bit value |
| `Wire.StrtolOfNoNumber` | src/data_feed.h:91 | text with no number at its head is read as 0 |
| `Wire.ReferencesCollide` | src/order.cpp:14 | two order numbers share a reference if and only if they are equal or both saturate |
| `Wire.NarrowingIsExact` | src/latinex_config.cpp:52 | the cast to 32 bits gives the one 32-bit value congruent to the price modulo 2^32, the price itself if and only if it fits |
| `Wire.PriceSent` | src/latinex_config.cpp:50-58 | for every price: what is sent reads back as the congruent 32-bit value less its last two decimals, toward 0 |
| `Wire.UnpricedOrderSentAtZero` | src/order.cpp:41-48 | an order without a limit price, whose price is the largest one, is sent at 0 |
| `Wire.PriceSurvives` | src/latinex_config.cpp:50-58 | the wire price is the price less its last two decimals if and only if the price fits 32 bits; it reads back exactly if and only if it also is a multiple of 100 |
| `Wire.RepresentablePriceGarbled` | src/latinex_config.cpp:50-53 | a price the field has room for that is sent negative |
| `Feed.DataFeed.constructor` | src/data_feed.h:234-235 | the feed starts with the cache at 0 and nothing sent |
| `Feed.DataFeed.NsSinceMidnight` | src/data_feed.h:53-68 | the method that rewrites the cache in place and calls itself again has the result, the cache and the clock use of `Call`, and its result is the time of day of the last reading taken |
| `Feed.DataFeed.OnAccept` | src/data_feed.h:81-98 | an accept sends one stamped add-order message, or nothing if its clock call does not return |
| `Feed.DataFeed.OnFill` | src/data_feed.h:116-134 | a fill sends one stamped execution message for its first order |
| `Feed.DataFeed.OnCancel` | src/data_feed.h:140-145 | a cancel sends one blank message and leaves the clock alone |
| `Feed.DataFeed.OnReplace` | src/data_feed.h:163-168 | a replace sends one blank message and leaves the clock alone |
| `Feed.DataFeed.OnTrade` | src/data_feed.h:188-197 | a trade sends one stamped trade message |
| `Feed.LogHoldsEveryEvent` | src/data_feed.h:81-197 | the log holds one message for each delivered event that has one, in order, and no other |
| `Feed.FeedStampsAreTimesOfDay` | src/data_feed.h:90 | on any clock each timestamp in the log is the time of day of a reading later than its predecessor's in the clock's sequence |
| `Feed.FeedTimeUnwraps` | src/data_feed.h:127 | a reader of a sequential log recovers the time between any two stamped messages if and only if every gap is readable |
| `Feed.EverythingIsDelivered` | src/data_feed.h:81-197 | on a clock that never goes back every callback gets its message out, given a reading for each stamped message and two for each day |
| `Feed.IdOfReference` | src/data_feed.h:91 | the id a reader gives to any 64-bit reference is one that `strtol` takes back to it |
| `Feed.EventRoundTrip` | src/data_feed.h:81-197 | a reader that takes only "B" and "S" for sides and "Y" and "N" for printable flags reads an accept, a fill's first order and quantity, or a trade back with id, side, quantity and symbol if and only if its order number fits, and with its price too if and only if that also fits; a cancel or a replace is read back only as having happened |
| `Feed.FeedRoundTrip` | src/data_feed.h:81-197 | the whole log is read back, in order and complete, as that part of the delivered history, without the matched orders of fills and the orders of cancels and replaces, if and only if every event of it fits, with prices or without |
| `FeedThreads.ClockRunsInside` | src/data_feed.h:53-68 | the clock steps of callbacks on any threads are a run of `ClockThreads`, whose bounds on retries and steps therefore hold |
| `FeedThreads.LogHoldsEveryCallback` | src/exchange_server.cpp:11 | in every interleaving the messages a thread has sent and the one under way are those of the callbacks it has begun, in order, no other and none twice |
| `FeedThreads.MessagesCarryTimesOfDay` | src/data_feed.h:90 | in every interleaving and on any clock each timestamp in the log is the time of day of the reading its callback took |
| `FeedThreads.SentFirstIsStampedFirst` | src/data_feed.h:90-97 | on a clock that never goes back a callback that begins when a message is already sent is stamped with no earlier reading, on whichever thread |
| `FeedThreads.EachThreadIsInOrder` | src/data_feed.h:90-97 | on such a clock the messages of one thread are in the order of their readings |
| `FeedThreads.EveryTimedMessageIsRead` | src/data_feed.h:90-97 | each stamped message of a log is read, at the place given by the stamped messages before it |
| `FeedThreads.SharedLogUnwraps` | src/data_feed.h:90-97 | a reader who reads every timestamp of a log shared by threads, in order, recovers the time between any two stamped messages if and only if each message's reading is not before its predecessor's and less than a day after it, or, for a stamp of 0 followed by one of DAY, exactly a day after it |
| `FeedThreads.OvertakenMessage` | src/data_feed.h:90-97 | wherever two threads are free and the cache is fresh for two readings, the message with the earlier reading can be sent second; the reader's two timestamps are then in the reverse order, it adds a day less the time between them, and its clock is wrong |
| `FeedThreads.UninterruptedIsSequential` | src/data_feed.h:81-197 | a callback that no other interrupts, on any thread, sends the message and leaves the cache that the sequential feed does |
| `FeedThreads.SessionIsARun` | src/data_feed.h:81-197 | every session of the sequential feed is a run of the shared one, whichever threads its callbacks are on |
| `Market.Market.OnAccept` | src/market.h:65-71 | an accept goes to the feed |
| `Market.Market.OnFill` | src/market.h:88-96 | a fill reduces both orders, even if they are one object, and goes to the feed once |
| `Market.Market.OnCancel` | src/market.h:102-108 | a cancel closes the order and goes to the feed |
| `Market.Market.OnReject` | src/market.h:73-79 | a reject closes the order and leaves the feed as it was |
| `Market.Market.OnReplace` | src/market.h:129-135 | a replace reaches the order narrowed to 32 bits, and the feed |
| `Market.ExecutedIsFilled` | src/data_feed.h:128-129 | shares reported executed under a reference are the shares filled on that order as first order |
| `Market.Market.OnEvent` | src/market.h:65-165 | one event reaches the orders it names, no other, and the feed |
| `Market.Market.Play` | src/market.h:65-165 | a whole history played on the objects leaves the feed and every order's open quantity as that history determines |
| `Market.Market.PlayFromOpening` | README.md:15-17 | what the objects sent reads back as the delivered history's recoverable part if and only if its events fit; once the whole history is delivered, for every order whose number is below the largest signed long the reader's open quantity exceeds the live order's own by what it was announced with beyond its quantity plus what the feed left out, and if the order was announced once, never replaced and never overfilled the two agree if and only if every change was told |
| `Market.RestingOrderIsMisread` | src/data_feed.h:116-134 | an order that is accepted and then wholly filled as the matched one of another accepted order still reads as wholly open |
| `Market.ReaderTracksReportedOnly` | README.md:15-17 | for an order announced once, never replaced and never overfilled the reader's open quantity is never too low, and right if and only if no fill of a positive quantity names the order as the matched one and nothing is left of it at each cancel or reject |
| `Shutdown.StepKeepsInv` | src/exchange_server.cpp:15-74 | each line of each thread keeps the counter, the late-start and the vector invariants |
| `Shutdown.ClientsAreNumberedInOrder` | src/exchange_server.cpp:39 | the k-th connection thread is client k, the counter is ahead by at most one failed start, and the listening flag is false exactly before line 32 and after an exception |
| `Shutdown.EachClientFoundIsStarted` | src/exchange_server.cpp:33-41 | until the flag is set the counter moves once for each time poll found a client, but for one still being started, and never otherwise |
| `Shutdown.OneExceptionEndsTheLoop` | src/exchange_server.cpp:43-46 | the exceptions of a run number one if it ends in the handler or past it, and none otherwise |
| `Shutdown.LoopEndsAtItsTest` | src/exchange_server.cpp:33 | without an exception the accept loop ends only at the test of line 33, and only with the flag set |
| `Shutdown.LinesInOrder` | src/exchange_server.cpp:15-26 | the destructor goes through its lines in order and leaves none out |
| `Shutdown.EachStartIsFollowedByAPause` | src/exchange_server.cpp:39-40 | the loop pauses once after each thread it starts, and at no other time |
| `Shutdown.SessionsAdvanceByTheirOwnSteps` | src/exchange_server.cpp:55-74 | each session passes from starting to serving to ended by its own thread's steps, one stage a step |
| `Shutdown.AtMostOneLateSpawn` | src/exchange_server.cpp:33-46 | after the flag is set at most one connection thread starts, and none unless the accept thread was between lines 37 and 39 |
| `Shutdown.JoinsAreComplete` | src/exchange_server.cpp:19-25 | past the join loop every thread it could see has ended; past line 23 the accept thread has; a completed destructor leaves no thread; an aborted one met exactly one late thread |
| `Shutdown.ShutdownIsFinite` | src/exchange_server.cpp:15-74 | every run after the flag is bounded in length by the rank of its first state |
| `Shutdown.ShutdownGoesOn` | src/exchange_server.cpp:15-47 | no deadlock: both server threads are stuck only while the join loop waits for a session still going on |
| `Shutdown.MaximalRunsEnd` | src/exchange_server.cpp:15-26 | a run after the flag that cannot go on has ended with the destructor completed or aborted |
| `Shutdown.UnseenThreadIsFatal` | src/exchange_server.cpp:19-26 | once a thread has been started since the join loop began, every run that reaches the end of the destructor ends in std::terminate |
| `Shutdown.AbortExactlyInTheWindow` | src/exchange_server.cpp:15-47 | in each state the destructor can still end in std::terminate if and only if: before the flag, the accept loop runs; up to the join loop, the accept thread stands between line 37 and the append; after, it stands there or a thread has been started since |
| `Shutdown.AbortIsReachable` | src/exchange_server.cpp:15-47 | a run from the first state ends that way |
| `ExchangeServer.ExchangeServer.constructor` | src/exchange_server.h:45-52 | the fields start in the first state, which satisfies the invariant |
| `ExchangeServer.ExchangeServer.StartConnection` | src/exchange_server.cpp:39 | the counter moves first; then the thread is started and appended, or neither |
| `ExchangeServer.ExchangeServer.RunStep` | src/exchange_server.cpp:28-47 | one line of the accept loop is the accept thread's step of the protocol |
| `ExchangeServer.ExchangeServer.DestructorStep` | src/exchange_server.cpp:15-26 | one line of the destructor is its step of the protocol, and it waits exactly while that step is not possible |
| `ExchangeServer.ExchangeServer.ServerProcessStep` | src/exchange_server.cpp:55-74 | one stage of a connection thread is its step of the protocol |
| `ExchangeServer.FollowsIsUnique` | src/exchange_server.cpp:15-74 | a schedule, with what poll and the thread starts do in it, decides the run |
| `ExchangeServer.RoundsEnd` | src/exchange_server.cpp:15-26 | after the flag, as many rounds of turns for every thread as the rank of the state bring the destructor to completion or abort |
| `ExchangeServer.ExchangeServer.Take` | src/exchange_server.cpp:15-74 | a turn keeps the invariant and is one step that its thread may take with that answer of poll or of the thread start; it is no step exactly when its thread has none |
| `ExchangeServer.ExchangeServer.Play` | src/exchange_server.cpp:15-74 | any schedule keeps the invariant and is the run of the protocol that the schedule decides |
| `ExchangeServer.ExchangeServer.ShutDown` | src/exchange_server.cpp:15-26 | the destructor against any schedule: the late-spawn bound, join completeness, and what completion and abort mean, on the fields; and a schedule of enough rounds brings it to its end |

## Left out

- The C++ memory model: `shutting_down` is a plain bool (src/exchange_server.h:48) read and written by two threads; its reads and writes, the append at line 39 and each pass of the join loop are taken as atomic, and an append does not move the vector under the join loop.
- A failing `clock_gettime` (src/data_feed.h:56-57) and readings before the epoch: every reading is a time from the epoch on, and the clock theorems take readings before day 213503.
- Feed.DataFeed.NsSinceMidnight: takes its readings from a finite recorded sequence, because a call on a clock that swings between days need not return at all.
- The mutexes of the market (src/market.h:228-229, 277): `FeedThreads` lets any callbacks overlap, also those of adds to one book, which the book's mutex keeps apart; the classes `DataFeed` and `Market` take callbacks one at a time.
- The ITCH record layout, field widths, SoupBin framing and sockets: their sources are not part of this model; a message is a record, quantities are stored as given, and `send` appends in one step.
- Contents of cancel and replace messages: the code sends them blank, so a reader can only know that one happened; for a replaced order `Market.Market.PlayFromOpening` states by how much the reader is off, not when it is right.
- The matching engine: its source is not part of this model; callback histories are arbitrary, and quantities are integers without a width.
- Market.LiveOrder.OnReplaced: does not model the change of the order's own total and price fields, because no callback reports them again.
- Execution reports, order history and debug logging; `on_reject`, `on_cancel_reject`, `on_replace_reject` and the book, BBO and depth callbacks send nothing and are modelled only as that.
- ExchangeServer.ExchangeServer.ServerProcessStep: does not model what a session does, only that it starts and at some point ends; an exception leaving a connection thread is not modelled.
- The generated FIX tables, the FIX client, the local order book of the tests and the trade bot.
