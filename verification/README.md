# A verified model of the cinema booking backend

The backend sells cinema seats. For each showtime Redis keeps a hash from seat id to a status record and an
integer counter `available`; six Lua scripts and one inline script change them, each atomically. MongoDB keeps
booking and payment records, and the services are sequences of Mongo accesses and script calls. This project
models those scripts, the two-store booking and payment protocol on top of them, the idempotency keys, the seat
map a showtime starts from, and the distributed lock, and proves what the system is for: no seat is sold twice.

Check everything with `dafny verify dfyconfig.toml`.

## How the model is built

Code that updates state step by step is modelled by classes with loops (`SeatStore`, `BookingBackend`,
`IdempotencyService`, `LockServer`). Each method is proved, for all inputs, equal to a specification function on
values; the run lemmas are about those functions.

| file | content |
|---|---|
| `Basics.dfy` | strings as lists of UTF-16 code units, options, lists without repetition |
| `SeatModel.dfy` | what each script does to the hash and the counter, as functions |
| `SeatArguments.dfy` | the `seatId:seatType` printer and the script's Lua pattern |
| `SeatStore.dfy` | module `SeatScripts`: the scripts with their loops, proved equal to `SeatModel` |
| `ScriptReplies.dfy` | when a script reports success, in terms of the hash alone |
| `ScriptEffects.dfy` | what each script does to single seats and list entries, on the fields of the records |
| `SeatRuns.dfy` | runs of scripts: ownership, no double sale, the hold guarantee, flash sales |
| `SeatCounter.dfy` | the counter against the number of available seats; seat types and fields |
| `LazyExpiry.dfy` | lazy against eager expiry, read against cleanup, single against batch reserve |
| `HoldRollback.dfy` | a `holdSeats` whose insert fails leaves nothing behind |
| `BookingProtocol.dfy`, `BookingSafety.dfy` | the two-store protocol as steps, its invariant, and safety over all runs |
| `BookingService.dfy`, `BookingRuns.dfy` | the service methods as code, proved to be runs of protocol steps |
| `ServiceEffects.dfy` | what each service method does to bookings, payments and seats, on their fields |
| `HoldClocks.dfy` | hold expiry in Redis seconds against Mongo milliseconds |
| `PaidInTime.dfy` | a booking paid before its hold ends becomes confirmed |
| `PaymentRaces.dfy` | one payment, its creating request and any number of overlapping webhooks |
| `IdempotencyKeys.dfy`, `IdempotencyRuns.dfy` | the key records and the service's code; any number of checks at once, access by access |
| `CanonicalJson.dfy` | the canonical form of request bodies |
| `SeatMap.dfy` | the seeder's grid, `createShowtime`, the first counter value |
| `DistributedLock.dfy` | the lock scripts over runs; the client's retry loop |

Assumptions. The Redis properties hold for every interleaving of scripts, at any times unless a lemma bounds them.
The properties about booking and payment records assume that operations on one booking do not overlap (operations
on different bookings interleave freely between single accesses), that started operations finish and no store call
fails, that booking ids and gateway transaction ids are fresh, and that the keys of a showtime are not evicted,
deleted or initialised again during a run. `PaymentRaces` drops the first of these for the accesses to one payment.

Clocks, random draws, fresh ids, the outcome of a Mongo insert and the accesses of other clients are parameters.
The seat ids a user sends are non-empty and colon-free because the request validation accepts only a letter and one
or two digits (`src/modules/booking/dto/hold-seats.dto.ts:43`, see `SeatMap.SeatCodesArePlain`); seat types come from an enumeration.

## What the code does, where one might expect something else

- The seat list of a request may repeat a seat. A granted batch lowers the counter once per entry, so each repeated
  available seat leaves the counter one too low for good (`SeatCounter.SurplusStep`, with a concrete run in
  `SeatCounter.RepeatedSeatGoesNegative`). The counter is exact if and only if that never happened. A confirmation of
  a list with a repeated seat never reports success (`ScriptReplies.ConfirmSucceeds`), so such a booking cannot
  become confirmed.
- The reserve scripts treat `held_until <= now` as free; confirm, cleanup and read treat only `held_until < now` as
  expired. At the boundary an owner's confirm and a rival's reserve can each succeed alone, never both
  (`SeatRuns.NoDoubleSale`).
- The expiry job may release a hold that confirm would still accept: the record's deadline is in milliseconds from a
  later clock reading, the hold ends with a whole second. It takes strictly expired holds if and only if the clock has
  passed that second (`HoldClocks.ExpiryJobTakesExpiredIff`, with a concrete run in `HoldClocks.NotYetExpired`).
- The methods called after a payment do not look at the booking's status. That confirmed, cancelled and expired are
  nevertheless final rests on seat ownership (`BookingSafety.TerminalForever`).
- The update after the gateway call has no guard. It is harmless because it runs once, before the transaction id can
  be found; a second one would reopen a paid payment (`PaymentRaces.SecondAnswerReopens`).
- `createShowtime` records the length of its seat list as the total, repetitions included; the counter in Redis
  starts at the number of distinct seats (`SeatMap.CreateShowtime`).

## Model

| member | source | states |
|---|---|---|
| SeatScripts.SeatStore.BatchReserve | src/modules/redis/lua-scripts/batch-seat-reservation.lua:20-134 | the script with its validation, parse loop, check loop and write loop has exactly the specified reply, hash and counter on every argument list, well-formed or not |
| SeatScripts.SeatStore.ParseArgs | src/modules/redis/lua-scripts/batch-seat-reservation.lua:41-55 | the parse loop yields the parsed list, or the first missing or malformed argument |
| SeatScripts.SeatStore.CheckAll | src/modules/redis/lua-scripts/batch-seat-reservation.lua:61-88 | the check loop lists exactly the refused entries in order, and when there are none pairs every entry with its former availability |
| SeatScripts.SeatStore.ReserveParsed | src/modules/redis/lua-scripts/batch-seat-reservation.lua:61-134 | check phase and write phase: a refused batch changes nothing, a granted one holds every listed seat and lowers the counter by the entries that were available |
| SeatScripts.SeatStore.ReserveOne | src/modules/redis/lua-scripts/seat-reservation.lua:30-81 | the single-seat script has the specified reply, hash and counter |
| SeatScripts.SeatStore.Confirm | src/modules/redis/lua-scripts/confirm-seats.lua:18-74 | every listed live hold of the booking becomes booked and nothing else changes; failures are listed in order with their reasons |
| SeatScripts.SeatStore.Release | src/modules/redis/lua-scripts/release-seats.lua:20-75 | every listed seat of the booking, held or booked, becomes available and nothing else changes; the counter rises by the entries released |
| SeatScripts.SeatStore.Cleanup | src/modules/redis/lua-scripts/cleanup-expired-holds.lua:21-73 | in whatever order the fields are enumerated, exactly the expired holds become available, each reported once, and the counter rises by their number |
| SeatScripts.SeatStore.ReadSome | src/modules/redis/lua-scripts/get-seats-status.lua:33-68 | a read of named seats frees the expired ones among them and counts each once, however often it is named |
| SeatScripts.SeatStore.ReadAll | src/modules/redis/lua-scripts/get-seats-status.lua:69-117 | a full read, in whatever order the fields are enumerated, leaves hash and counter as the cleanup script does and reports the specified view |
| SeatScripts.SeatStore.ExtendHold | src/modules/redis/seat-reservation.service.ts:541-591 | each listed live hold of the booking is extended once per mention while it lasts, nothing else changes, and the reply counts the extensions |
| SeatScripts.SeatStore.InitializeShowtime | src/modules/redis/seat-reservation.service.ts:382-430 | skipped when seats exist and overwriting is off; otherwise every listed seat is available and the counter is the list's length |
| SeatScripts.SeatStore.ReserveSeats | src/modules/redis/seat-reservation.service.ts:188-228 | the service's call prints the arguments, floors the clock to seconds and has the effect of the script on what was printed |
| SeatScripts.PrintedIsGiven | src/modules/redis/seat-reservation.service.ts:198-211 | on seats with non-empty colon-free ids and types, printing and parsing lose nothing: reply and store are those for the list the service was given |
| SeatArguments.ParsePrint | src/modules/redis/lua-scripts/batch-seat-reservation.lua:49-54 | the script's pattern gives back a printed seat if and only if id and type are non-empty and colon-free |
| SeatArguments.ParsePrintAll | src/modules/redis/lua-scripts/batch-seat-reservation.lua:41-55 | the parse loop gives back the first n printed seats if and only if all of them are non-empty and colon-free |
| SeatArguments.ParsedAtFirstColon | src/modules/redis/lua-scripts/batch-seat-reservation.lua:49-54 | on any argument the pattern takes the first colon with a non-colon on both sides and the whole runs around it, and fails if and only if there is none |
| SeatArguments.ParsedOrFirstError | src/modules/redis/lua-scripts/batch-seat-reservation.lua:41-55 | the parse loop gives every argument's seat in order, or the first malformed or missing argument |
| ScriptReplies.ReserveGranted | src/modules/redis/lua-scripts/batch-seat-reservation.lua:61-97 | all or nothing: a batch is granted if and only if the arguments are valid and every listed seat exists and is free |
| ScriptReplies.ConfirmSucceeds | src/modules/redis/lua-scripts/confirm-seats.lua:34-74 | confirm reports success if and only if the list has no repetition and all its seats are live holds of the booking; its count is the number of seats it turned into booked ones |
| ScriptReplies.ReleaseSucceeds | src/modules/redis/lua-scripts/release-seats.lua:36-75 | release reports success if and only if the list has no repetition and all its seats belong to the booking; its count is the number of seats it freed |
| ScriptEffects.RefusedBatch | src/modules/redis/lua-scripts/batch-seat-reservation.lua:61-97 | a valid batch is refused exactly when some entry is missing, booked or held beyond now; the reply lists exactly those entries, in order and once each, under their own ids and with the reason and holder that fit |
| ScriptEffects.ReservedSeats | src/modules/redis/lua-scripts/batch-seat-reservation.lua:103-134 | a granted batch holds every listed seat for its booking and expiry with the type of the last entry that names it; every other seat, and all of them after a refusal, stays exactly as it was |
| ScriptEffects.ReservedCounter | src/modules/redis/lua-scripts/batch-seat-reservation.lua:117-126 | a granted batch lowers the counter by one for each entry, repeated or not, that names an available seat |
| ScriptEffects.DriftEntries | src/modules/redis/lua-scripts/batch-seat-reservation.lua:117-126 | the drift of a granted batch is the number of those entries that repeat an earlier one |
| ScriptEffects.ValidatedArguments | src/modules/redis/lua-scripts/batch-seat-reservation.lua:25-55 | the validation errors in their order, each exactly when its argument is bad, and an invalid call changes nothing |
| ScriptEffects.ReservedOneSeat | src/modules/redis/lua-scripts/seat-reservation.lua:33-81 | the single script, for any booking id and expiry: each refusal exactly for its cause and without effect, otherwise that one seat is held |
| ScriptEffects.ConfirmedSeats | src/modules/redis/lua-scripts/confirm-seats.lua:34-66 | a confirm books exactly the listed seats held by its booking with an end not before now, keeps their type, and leaves every other seat and the counter alone |
| ScriptEffects.OnlyLiveHoldsAreBooked | src/modules/redis/lua-scripts/confirm-seats.lua:46-63 | over every run, a seat that becomes booked was a live hold of its owner, named in the owner's confirm |
| ScriptEffects.ConfirmReply | src/modules/redis/lua-scripts/confirm-seats.lua:18-74 | the reply lists, in order, exactly the entries that are no live hold of the booking or repeat an earlier entry, each under its own id with the reason that fits, and counts the others |
| ScriptEffects.ReleasedSeats | src/modules/redis/lua-scripts/release-seats.lua:36-62 | a release frees exactly the listed seats of its booking and leaves every other seat as it was |
| ScriptEffects.ReleaseReply | src/modules/redis/lua-scripts/release-seats.lua:20-75 | the reply lists, in order, exactly the entries that are missing, not the booking's or repeated, each with the reason that fits, and counts the others |
| ScriptEffects.CleanedSeats | src/modules/redis/lua-scripts/cleanup-expired-holds.lua:28-60 | cleaning frees exactly the holds that have run out among those it looks at, and leaves every other seat as it was |
| ScriptEffects.CleanupReport | src/modules/redis/lua-scripts/cleanup-expired-holds.lua:53-57 | the report names each hold that has run out once, with its booking and its end, and nothing else |
| ScriptEffects.ReadShows | src/modules/redis/lua-scripts/get-seats-status.lua:33-117 | a read shows each seat it was asked for as it is, a hold that has run out as available, and with each live hold the seconds it has left; the counts are those of the store |
| ScriptEffects.ExtendedSeats | src/modules/redis/seat-reservation.service.ts:551-572 | an extension moves the end of its booking's holds by the given time once for each mention that finds them not run out, and changes nothing else |
| ScriptEffects.ExtendedEntries | src/modules/redis/seat-reservation.service.ts:551-572 | its reply counts exactly the entries that extended a hold |
| ScriptEffects.InitialisedSeats | src/modules/redis/seat-reservation.service.ts:394-419 | without overwriting, seats that exist are left alone; otherwise the fields are exactly the listed ids, each available with its last type, and the counter is the list's length |
| ScriptEffects.Execute | src/modules/redis/lua-scripts/cleanup-expired-holds.lua:21-73 | every kind of event in the run lemmas has exactly the effect of calling its script, loops included |
| SeatRuns.GainsByGrant | src/modules/redis/lua-scripts/batch-seat-reservation.lua:106-121 | whatever script runs, a booking comes to own a seat only through a granted reserve of its own |
| SeatRuns.BookedKept | src/modules/redis/lua-scripts/release-seats.lua:47-59 | whatever script runs, a booked seat stays as it is unless its owner releases it |
| SeatRuns.BookedUntilReleased | src/modules/redis/lua-scripts/release-seats.lua:47-59 | over every run: a seat that was booked to a booking and no longer is was released by it in between |
| SeatRuns.OwnershipIsOneInterval | src/modules/redis/lua-scripts/batch-seat-reservation.lua:73-86 | a booking that reserves at most once in a run owns a given seat during one contiguous interval of states |
| SeatRuns.NoDoubleSale | src/modules/redis/lua-scripts/confirm-seats.lua:46-63 | if in one run an owner's confirm and a rival's reserve of the same seat both succeed, boundary times included, the confirm came first and the owner released the seat in between |
| SeatRuns.HoldGuarantee | src/modules/redis/lua-scripts/batch-seat-reservation.lua:64-121 | after a granted batch of distinct seats with expiry H, every run of other scripts before H leaves all of them held by the booking until at least H, and its confirm up to H succeeds on all |
| SeatRuns.FlashSaleDisjoint | src/modules/redis/lua-scripts/batch-seat-reservation.lua:61-134 | two granted batches of a run of batch reserves share no seat while the earlier hold lasts |
| SeatRuns.FlashSaleCounter | src/modules/redis/lua-scripts/batch-seat-reservation.lua:103-126 | a sale that starts all available and ends before any granted hold lowers the counter by exactly the entries of the granted batches; refused batches leave no trace |
| SeatCounter.SurplusStep | src/modules/redis/lua-scripts/batch-seat-reservation.lua:103-126 | from any state, each script changes the counter by what it changes the number of available seats, except a granted batch, which falls behind by its repeated available entries |
| SeatCounter.CounterRefinement | src/modules/redis/lua-scripts/batch-seat-reservation.lua:103-126 | from initialisation over every run the counter never exceeds the available seats, the gap is the repeated available entries of granted batches, and the counter is exact if and only if there were none |
| SeatCounter.CounterExact | src/modules/redis/lua-scripts/release-seats.lua:33-67 | with duplicate-free lists the counter is the number of available seats over every run, within 0 and the number of fields |
| SeatCounter.RepeatedSeatGoesNegative | src/modules/booking/dto/hold-seats.dto.ts:39-47 | a granted request that names the only seat twice leaves the counter at -1 |
| SeatCounter.InitExactIff | src/modules/redis/seat-reservation.service.ts:409-419 | initialisation sets the counter to the number of fields if and only if the seat list has no repetition |
| SeatCounter.TypesKept | src/modules/redis/lua-scripts/batch-seat-reservation.lua:106-115 | when requests carry the stored seat types, no run changes the set of fields or the type of a seat |
| LazyExpiry.LazyEqualsEager | src/modules/redis/lua-scripts/batch-seat-reservation.lua:73-126 | cleanup then reserve and reserve then cleanup always give the same reply, and the same hash and counter if and only if the request is refused, or its expiry is not in the past and it names no expired seat twice |
| LazyExpiry.LazyEqualsEagerDistinct | src/modules/redis/lua-scripts/cleanup-expired-holds.lua:36-65 | for every duplicate-free request with an expiry not in the past the two orders give the same store |
| LazyExpiry.FullRead | src/modules/redis/lua-scripts/get-seats-status.lua:106-117 | a full read shows every seat as cleanup would leave it and no expired hold, and from a counter-exact state its available count is the number of seats it shows as available |
| LazyExpiry.CleanTwice | src/modules/redis/lua-scripts/get-seats-status.lua:43-60 | cleaning again at the same time, by either script and for any part of the seats, changes and frees nothing |
| LazyExpiry.CleanInParts | src/modules/redis/lua-scripts/cleanup-expired-holds.lua:28-65 | reading some seats first and cleaning up afterwards is the same as cleaning up at once, counter included |
| LazyExpiry.SingleRefinesBatch | src/modules/redis/lua-scripts/seat-reservation.lua:33-81 | on a one-seat list the single script gives the batch script's verdict, hash and counter, if and only if the two arguments only the batch script checks are valid |
| HoldRollback.FailedHoldLeavesNothing | src/modules/booking/booking.service.ts:130-206 | a reserve of distinct available seats and its rollback release cancel out: with any scripts in between that name none of the seats or clean no later than the hold's expiry, the run ends in the very state it would have reached without the two |
| HoldRollback.HoldTakes | src/modules/redis/lua-scripts/batch-seat-reservation.lua:103-126 | such a reserve is granted and changes just those seats and the counter by their number |
| BookingSafety.InvStep | src/modules/booking/booking.service.ts:562-638 | every access of every service operation keeps the invariant that links ownership of seats, booking status, payments and operations in flight |
| BookingSafety.OthersKept | src/modules/redis/lua-scripts/release-seats.lua:47-59 | a step of one booking cannot disturb the invariant of another: it neither gives it seats nor takes booked ones from it |
| BookingSafety.ConfirmedIsBooked | src/modules/booking/booking.service.ts:562-595 | in every reachable state the seats of a confirmed booking are distinct and each is booked to it in Redis, however other bookings' steps fall between its confirm script and its save |
| BookingSafety.NoSeatSoldTwice | src/modules/booking/booking.service.ts:562-595 | in every reachable state no two confirmed bookings of one showtime share a seat |
| BookingSafety.OwnersHaveBookings | src/modules/booking/booking.service.ts:130-206 | in every reachable state with nothing in flight, each held or booked seat belongs to a pending or confirmed booking of that showtime that lists it |
| BookingSafety.TerminalForever | src/modules/booking/booking.service.ts:562-689 | confirmed, cancelled and expired are final: no continuation changes the record, a cancelled or expired booking never owns a seat again, a confirmed one keeps its seats and has only completed payments |
| BookingSafety.TerminalStatus | src/modules/payment/payment.service.ts:319-394 | the same from the start of the system: once a record is in a final status, later webhooks, payments, cancellations and expiry runs leave it alone |
| HoldClocks.ExpiryJobTakesOnlyFree | src/modules/booking/booking.service.ts:645-689 | on one monotone clock and without extensions, every hold the expiry job releases is one a reserve at that moment would treat as free |
| HoldClocks.ClockRun | src/modules/booking/booking.service.ts:154-157 | over every such run, a booking's holds in Redis end no later than the deadline in its record |
| HoldClocks.ExpiryJobTakesExpiredIff | src/modules/booking/booking.service.ts:645-689 | in every such run, a hold the job releases is one that confirm, cleanup and read already call expired if and only if the clock has passed the second in which the hold ends, ten minutes after that of its reserve; it suffices that the clock has passed the second of the record's deadline |
| HoldClocks.NotYetExpired | src/modules/redis/lua-scripts/confirm-seats.lua:53-56 | that condition can fail: a run in which the job releases a hold that confirm would still accept |
| PaidInTime.PaidInTimeIsConfirmed | src/modules/payment/payment.service.ts:356-386 | over every run: when a booking of distinct seats was granted until H, only steps of others, its insert, its payments and successful webhooks follow before H, and its confirm script runs no later than H, it is confirmed from its save on, whatever else happens |
| PaidInTime.WebhookInTimeConfirms | src/modules/payment/payment.service.ts:291-394 | under the same conditions a successful webhook as one call completes the payment and confirms the booking, and changes no other record |
| BookingService.BookingBackend.PrepareSeatInfos | src/modules/booking/booking.service.ts:243-277 | every requested seat gets its stored type, or the first unknown one is reported |
| BookingService.BookingBackend.HoldSeats | src/modules/booking/booking.service.ts:123-214 | an unknown seat changes nothing; otherwise the reply and both stores are those of reserve then insert, or reserve then rollback, or a refusal without trace |
| BookingService.BookingBackend.CancelBooking | src/modules/booking/booking.service.ts:492-553 | only a pending booking is cancelled, by find, release and save; the errors name what was found |
| BookingService.BookingBackend.ReleaseExpiredHolds | src/modules/booking/booking.service.ts:645-689 | one query finds exactly the pending bookings past their deadline, and each document found is released and saved once |
| BookingService.BookingBackend.CreatePayment | src/modules/payment/payment.service.ts:124-279 | a payment is created exactly for a pending, live booking without a live payment, and ends in status processing with its transaction id; each error is tied to its cause |
| BookingService.BookingBackend.ConfirmSeatsAfterPayment | src/modules/booking/booking.service.ts:562-595 | the booking becomes confirmed exactly when the confirm script reports success |
| BookingService.BookingBackend.ReleaseSeatsAfterPaymentFailure | src/modules/booking/booking.service.ts:604-638 | the booking becomes cancelled exactly when the release script reports success |
| BookingService.BookingBackend.HandleWebhook | src/modules/payment/payment.service.ts:291-400 | not found when no payment has the transaction id; a completed payment is left alone; otherwise the payment is updated and its booking confirmed or released |
| ServiceEffects.HoldEffect | src/modules/booking/booking.service.ts:130-214 | a hold succeeds exactly when all seats are free and the insert works; then the reply is the one record added, pending with a deadline ten minutes on, and exactly the listed seats are held; a refusal changes nothing, a failed insert adds no record |
| ServiceEffects.FailedInsertEffect | src/modules/booking/booking.service.ts:196-206 | when the insert fails, each listed seat is available again and every other seat is as it was |
| ServiceEffects.CancelEffect | src/modules/booking/booking.service.ts:518-542 | a pending booking becomes cancelled and exactly its listed seats become available; any other booking leaves both stores unchanged |
| ServiceEffects.HookEffect | src/modules/payment/payment.service.ts:318-399 | success completes an open payment, books its booking's live holds and confirms the booking exactly when those are all its seats; failure fails the payment, frees the booking's seats and cancels it exactly when all were its own; a pending notification, or any on a completed payment, changes nothing |
| ServiceEffects.JobRecords | src/modules/booking/booking.service.ts:651-678 | after the expiry job no pending booking has a deadline before its clock; exactly the pending overdue ones became expired, and every other record is as it was |
| ServiceEffects.JobSeats | src/modules/booking/booking.service.ts:664-673 | the job frees exactly the listed seats of pending overdue bookings; everybody else keeps every seat as it is |
| ServiceEffects.JobIsSteps | src/modules/booking/booking.service.ts:651-678 | on the very list the method works through, the job is a run of enabled protocol steps |
| BookingRuns.HoldIsSteps | src/modules/booking/booking.service.ts:130-206 | what HoldSeats does is a run of enabled protocol steps |
| BookingRuns.CancelIsSteps | src/modules/booking/booking.service.ts:528-542 | what CancelBooking does is find, release and save as protocol steps |
| BookingRuns.ExpireRunIsSteps | src/modules/booking/booking.service.ts:645-689 | one pass of the expiry job is a run of protocol steps, all its finds first and then release and save per booking; exactly the bookings found become expired and nothing is left in flight |
| BookingRuns.PayIsSteps | src/modules/payment/payment.service.ts:126-235 | what CreatePayment does on a payable booking is a run of protocol steps |
| BookingRuns.HookIsSteps | src/modules/payment/payment.service.ts:304-394 | a webhook on an open payment is a run of protocol steps: find, guarded update, script, save |
| PaymentRaces.CompletedOnceForever | src/modules/payment/payment.service.ts:226-394 | over every interleaving of the creating request and any webhooks the payment becomes completed at most once, stays so, and its seats are confirmed at most once, and once when no winning delivery is left |
| PaymentRaces.DeliveryEffect | src/modules/payment/payment.service.ts:304-386 | a delivery goes on exactly when its transaction id is the stored one and the payment is not completed; its update sets the status it reports, and only success goes on to confirm |
| PaymentRaces.LateUpdateEffect | src/modules/payment/payment.service.ts:357-381 | an update that finds the payment completed changes nothing and calls nobody |
| PaymentRaces.SecondAnswerReopens | src/modules/payment/payment.service.ts:226-235 | run a second time after completion, the unguarded update would lead to two completions and two confirmations |
| IdempotencyKeys.IdempotencyService.CheckIdempotencyKey | src/modules/payment/idempotency.service.ts:118-233 | with any accesses of others in between, the check terminates, answers new if and only if its own insert made the record, answers from the record otherwise, and never reaches the fallback |
| IdempotencyKeys.IdempotencyService.CompleteIdempotencyKey | src/modules/payment/idempotency.service.ts:238-269 | stores status and response if and only if the record is still processing |
| IdempotencyKeys.IdempotencyService.FailIdempotencyKey | src/modules/payment/idempotency.service.ts:274-308 | stores the failure if and only if the record is still processing |
| IdempotencyKeys.AtMostOneInsert | src/modules/payment/idempotency-key.schema.ts:129 | the unique index over runs of accesses: at most one insert for a key and user succeeds |
| IdempotencyRuns.ExactlyOneNew | src/modules/payment/idempotency.service.ts:118-233 | over every interleaving of checks, completions and failures at most one request with a key is answered new; there is one if and only if the key was not in use before and some request with it has been answered |
| IdempotencyRuns.AnswersAgree | src/modules/payment/idempotency.service.ts:157-233 | over every such interleaving no check reaches the fallback or retries twice, and replays with the same body get the same stored response |
| IdempotencyRuns.ReplaysWhatWasStored | src/modules/payment/idempotency.service.ts:186-226 | over every interleaving, once an update has settled a key, every request answered from a stored response gets exactly what that update stored |
| IdempotencyRuns.ReadsWhatWasStored | src/modules/payment/idempotency.service.ts:127-226 | and a request with the same body that reads after it is answered with that at once |
| IdempotencyRuns.RefusedIffDifferent | src/modules/payment/idempotency.service.ts:176-184 | a request is refused for its body if and only if its body hash differs from that of the request answered new |
| IdempotencyRuns.ChecksEnd | src/modules/payment/idempotency.service.ts:133-173 | the retry recursion ends: each access of a check brings it nearer to its answer, at most three in all, and nobody else's access sets it back |
| IdempotencyKeys.CreatedIff | src/modules/payment/idempotency.service.ts:139-147 | a record exists after a run if and only if it did before or an insert in the run succeeded |
| IdempotencyKeys.ReplaysAgree | src/modules/payment/idempotency.service.ts:176-226 | once completed or failed a record is frozen: after any further accesses the same body gets the same stored response, and another body is refused |
| IdempotencyKeys.FirstSettles | src/modules/payment/idempotency.service.ts:246-299 | of competing completions and failures the first decides the stored response, whatever follows |
| IdempotencyKeys.StoredIsReplayed | src/modules/payment/idempotency.service.ts:186-226 | after a completion, whatever accesses follow, a check with the same hash answers exactly its status and body; after a failure exactly its status, or 500 for none, and its message; another hash is refused |
| IdempotencyKeys.WaitsUntilSettled | src/modules/payment/idempotency.service.ts:201-209 | until an update settles the key, a check with the same hash is told that the request is in progress |
| IdempotencyKeys.DefaultAnswers | src/modules/payment/idempotency.service.ts:193-222 | a settled record without a stored response is answered by the defaults |
| CanonicalJson.CanonIffSame | src/modules/payment/idempotency.service.ts:76-104 | two bodies have equal canonical forms if and only if they differ only by the order of object keys, at any depth |
| CanonicalJson.CanonIdempotent | src/modules/payment/idempotency.service.ts:85-104 | canonicalising is idempotent |
| CanonicalJson.CanonIsSameBody | src/modules/payment/idempotency.service.ts:85-104 | the canonical form is the same body up to key order |
| CanonicalJson.SortObjectKeys | src/modules/payment/idempotency.service.ts:85-104 | the recursion with its loop computes the canonical form |
| CanonicalJson.CodeUnitOrderIsTotal | src/modules/payment/idempotency.service.ts:95 | the comparison of strings that `sort` uses is a total order, as the lemmas above require |
| SeatMap.IdsInjectiveIff | src/seeds/seeder.ts:106-109 | the ids of a grid are all different if and only if there are at most 65536 rows or no columns |
| SeatMap.GeneratedIds | src/seeds/seeder.ts:106-109 | an id is the row's letter and the column in decimal; a request to hold seats may name it if and only if the row is at most Z and the column at most 99 |
| SeatMap.SeatCodesArePlain | src/modules/booking/dto/hold-seats.dto.ts:43-46 | the ids that request validation lets through are non-empty and colon-free |
| SeatMap.CellTypes | src/seeds/seeder.ts:117-134 | the last two rows are vip; in grids of more rows the even columns of the first row, but for its last, are couple; all other cells are standard |
| SeatMap.GenerateSeatsMap | src/seeds/seeder.ts:139-167 | the nested loops produce exactly the grid's ids that are not listed as unavailable, rows times columns minus the distinct listed ones, each with the type of its cell |
| SeatMap.BuildSeatsMap | src/modules/showtime/showtime.service.ts:123-132 | the map has every listed id with the type given last |
| SeatMap.SeatList | src/modules/showtime/showtime.service.ts:84-92 | the list for Redis has every id of the map once, with its type or the default |
| SeatMap.CreateShowtime | src/modules/showtime/showtime.service.ts:113-157 | a new showtime starts with all seats available and the counter at the number of fields; the recorded total equals it if and only if the list had no repetition |
| DistributedLock.LockServer.Eval | src/modules/redis/redis.constants.ts:36-67 | the three scripts have the specified reply and effect |
| DistributedLock.CallEffect | src/modules/redis/redis.constants.ts:36-67 | an acquire succeeds exactly when there is no grant or it has run out; release and extension work exactly for the value that has a live grant; no other lock is touched |
| DistributedLock.RunsOutOnTime | src/modules/redis/redis.constants.ts:36-38 | over every run, a lock nobody touches after its grant can be acquired again exactly from the moment the grant runs out |
| DistributedLock.GrantLasts | src/modules/redis/redis.constants.ts:36-67 | a grant survives every run before its expiry in which its holder does not give it up |
| DistributedLock.MutualExclusion | src/modules/redis/redis.constants.ts:36-52 | between two successful acquires of one resource the first grant ran out or its holder gave it up |
| DistributedLock.LateEvent | src/modules/redis/redis.constants.ts:46-67 | a release or extension by a value whose grants have run out changes nothing |
| DistributedLock.FormerHolderIsAbsent | src/modules/redis/redis.constants.ts:46-67 | over every run, all releases and extensions of a value that has lost its grants and acquires no more can be struck out without changing the outcome |
| DistributedLock.BackoffBounds | src/modules/redis/distributed-lock.service.ts:43-48 | a back-off lies between the doubled delay and one and a half times it |
| DistributedLock.BackoffIsFloor | src/modules/redis/distributed-lock.service.ts:43-48 | a back-off is the floor of the doubled delay plus the drawn part of its half |
| DistributedLock.LockServer.AcquireLock | src/modules/redis/distributed-lock.service.ts:69-128 | with refusals and errors alike, success grants the lock to a fresh value and gives the client its record; failure comes after maxRetry + 1 attempts and, if no reply was lost, leaves no grant behind; the total sleep lies between the sum of the doubled delays of the retries made and one and a half times it, at most 1.5 * retryDelay * (2^maxRetry - 1) |
| DistributedLock.LockServer.Release | src/modules/redis/distributed-lock.service.ts:139-166 | deletes the key if and only if the server still grants it to this lock's value |
| DistributedLock.LockServer.Extend | src/modules/redis/distributed-lock.service.ts:191-220 | the client's expiry moves if and only if the server extends |

## Left out

- Fields of seat records that nothing reads back (`reserved_at`, `released_at`, `released_reason`, `previous_booking`, `confirmed_at`) and the timestamps in replies.
- The JSON encoding of records and `tonumber`: expiry and seat count arrive as integers, and a held record always carries a numeric expiry.
- Script loading by SHA and its fallback, pipelining, connection errors: a script call happens atomically or not at all.
- Redis TTLs, eviction, deletion of a showtime, and initialisation with overwriting in the middle of a run: they reset the store by design.
- Failed Redis calls and crashes in the middle of an operation, among them a failure to cache the response after the booking was inserted.
- Overlapping operations on one booking in the two-store protocol: the code has no booking-level guard for them, so their absence is an assumption.
- BookingService.BookingBackend.HoldSeats: does not model the response cache and the lookup by idempotency key before the reserve, the checks of the showtime's status and start time, or prices, which do not touch the seats.
- BookingService.BookingBackend.CancelBooking: does not model the ownership check of the user, nor the reason and time it records.
- BookingService.BookingBackend.ReleaseExpiredHolds: does not model the per-booking catch, as store calls do not fail here.
- BookingService.BookingBackend.CreatePayment: does not model user checks, amounts, the payment URL, or the reply built when the insert meets a duplicate key; that path changes no payment. The calls to the idempotency service are modelled separately, in IdempotencyKeys.
- BookingService.BookingBackend.HandleWebhook: does not model the check of the provider's name and the stored payload; deliveries that overlap are in PaymentRaces.
- "A completed payment implies a confirmed booking" is not stated: a payment lives longer than a hold, and the webhook ignores the outcome of the confirmation.
- IdempotencyKeys.IdempotencyService.CheckIdempotencyKey: record deletion and the 24-hour TTL are not modelled, and request path and resource type, which are stored but never compared.
- CanonicalJson.CanonIffSame: SHA-256 and `JSON.stringify` are not modelled; a key named `__proto__`, which JavaScript's assignment does not store as a field, is not either. Integer-like keys, which JavaScript enumerates first, are covered because the lemma holds for every total order of keys.
- SeatScripts.SeatStore.InitializeShowtime: does not model the TTLs it sets on both keys, as no key expires during a run.
- SeatScripts.SeatStore.ReserveSeats: does not model its catch branch, which answers `INTERNAL_ERROR` when the call fails, as store calls do not fail here.
- BookingService.BookingBackend.PrepareSeatInfos: does not model the price of each seat, which no later step of the protocol reads.
- Locks: `isLockValid` and `withLock`, and failed calls in `releaseLock` and `extendLock`.
- `batchCleanupExpiredHolds`, which runs the cleanup script for several showtimes, and the single-purpose readers of the seat service.
- `calculateTotalAmount`, price lookup, response builders, controllers, guards, configuration, queries and logging.
