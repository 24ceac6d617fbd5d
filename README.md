# QR scan ingestion and Ground Control push messages, in Dafny

This project models two parts of a BlueWallet-derived React Native app.

**The scan-ingestion state machine of the QR scanning screen**
(`screen/send/ScanQRCode.tsx`). The camera calls `onBarCodeRead` once for
every decoded code. Each call runs these stages in order:

1. the animated-mode duplicate breaker;
2. the permanent per-session cache keyed by `sha256(data)`;
3. the lock check;
4. the prefix classifier;
5. one of three branches:
   - the multi-part branch: a TTL dedupe map with a lazy sweep, then a FIFO
     queue capped at 20 that drops its oldest entry;
   - the URv1 accumulator `_onReadUniformResource`;
   - the single-shot Base43/PSBT probe with its plain-text fallback.

`workerLoop` drains the queue. It takes at most two parts per batch, feeds
them to the shared UR decoder, swallows decode errors and throttles progress.
On completion, when a caller launched the screen, it hands the payload over
and locks the session. The unmount effect clears the cache, the decoder, the
BBQR flag and the URv1 parts.

**The push-message helpers of `index.js`.** These are:

- `shortAddress`;
- `isConfirmedFromPayload`;
- `buildBlueWalletOnchainText`;
- the 31-multiplier txid hash `notifIdFromTxid`;
- the two notification record builders;
- `handleGcMessage`, which routes on `kind`.

## Files

- `text.dfy`, module `Text`. JavaScript string helpers: ASCII
  `toUpperCase`/`toLowerCase`, `startsWith`, `split` with its inverse `join`,
  and decimal rendering.
- `scan_model.dfy`, module `ScanQRCode`. The screen's state as one `Session`
  value, with one function per transition:
  - `ReadStep` is a call of `onBarCodeRead`;
  - `WorkerStart` is a fresh `workerLoop` started by `setTimeout`;
  - `DrainStep` is one iteration of its while-loop, up to the `await`;
  - `Unmount` is the cleanup.
- `scan_props.dfy`, module `ScanQRCodeProps`. The guarantees of the state
  machine, proved as lemmas over those functions.
- `scan_session.dfy`, module `ScanScreen`. Class `ScanSession` keeps the
  same state in mutable fields. Its methods change those fields in place the
  way the screen does: the queue is shifted part by part, and the dedupe
  sweep is a loop that deletes keys. Each method is proved to take
  `old(State())` to the state of the matching transition. So every lemma of
  `ScanQRCodeProps` holds of the class too.
- `notifications.dfy`, module `GcNotifications`. The `index.js` helpers as
  functions that return the record handed to
  `PushNotification.localNotification`. The txid hash is also a method with
  the source's for-loop.

## Foreign capabilities and time

Datatype `ScanQRCode.Env` holds the route parameter `launchedBy` and every
capability the screen calls but this model leaves uninterpreted:

- `sha256` with its hex rendering;
- Base43 decoding followed by a PSBT parse;
- `extractSingleWorkload` and `decodeUR`;
- the hex/text/base64 conversions;
- the `BlueURDecoder` instance.

Every lemma holds for every choice of these. A decoder instance is
identified with the sequence of parts fed to it since it was created. Its
answers are functions of that history: whether `receivePart` throws, what
`estimatedPercentComplete` and `isComplete` return, and what `toString`
returns.

Time is passed in as `now`. The `isLoading` state of the screen is passed to
`onBarCodeRead` as `loading`. Every payload handed to the caller, which the
screen passes to `onBarScanned` and to the navigation target, is appended to
the field `delivered`. `Math.random()` in `notifIdFromTxid` is the parameter
`random`.

## Behaviours the proofs establish

- **The streak branch of the duplicate breaker is dead with a real clock.**
  `StreakBranchDead` proves this under `BreakerInv`, which every read at a
  non-zero clock keeps. The reason: every accepted raw joins the seen set
  with a non-zero time. So an identical raw within 200 ms is always inside
  the 1000 ms duplicate window first. No quick repeat is counted and no
  cooldown opens. `StreakReachableFromClockZero` shows the branch is live
  only after an acceptance at clock 0.
- **The TTL dedupe never rejects within a session once the clock reads 2000
  ms or more** (`TtlNeverRejects`). Every key in the dedupe map has its hash
  in the permanent cache (`CacheCovers`), so a fragment that reaches the TTL
  check is not in the map. This holds with two provisos:
  - the cover is kept only by reads at a non-zero clock
    (`ReadKeepsCacheCover` requires `now != 0`);
  - the unmount cleanup breaks it: it empties the cache but keeps the dedupe
    map. `UnmountReenablesTtl` shows a multi-part fragment, read again after
    the cleanup, rejected as recent.

  `SessionTtlAndStreakDead` states both this and the dead streak for every
  run from a fresh mount whose reads happen at a non-zero clock.
  `RunKeepsScreenInv` shows such runs keep all four invariants: the queue
  bound, the cache cover, the breaker invariant and distinct URv1 keys.
- **A completed URv1 transfer hands the payload over but does not lock**
  (`LegacyDeliversOnce`). At-most-once delivery (`AtMostOnceDelivery`)
  therefore holds for any interleaving of reads and drain steps that reads no
  URv1 fragment. `LegacyThenPlainDeliversTwice` shows the exception: a
  one-part URv1 transfer followed by a plain-text code delivers twice.
- **Throttled progress is published at most every 200 ms**
  (`PublicationsSpaced`). Over any interleaving of reads and drain steps, the
  time of the last publication changes only to the time of the step that
  changes it, and only when more than 200 ms have passed since the previous
  one. A batch feeds all its parts at one time, so it publishes at most once.
- **The onchain notification id can leave the signed 32-bit range.** The
  record posted for a txid whose hash is -2^31 carries the id 2^31
  (`OverflowNotification`). See "## Findings".
- **Details of the code that a reader of its comments and names may not
  expect. The model keeps them as written:**
  - The breaker runs before the permanent cache, and the TTL dedupe runs
    after classification.
  - URv1 completion does not set the lock.
  - Completion leaves the remaining queued parts in the queue.
  - The legacy path publishes the transfer's own `total`.
  - The worker publishes a total of 100.
  - The unmount cleanup does not clear the queue or the dedupe map.

## Model

| member | source | states |
|---|---|---|
| ScanQRCode.ReadStep | screen/send/ScanQRCode.tsx:361-561 | a call of `onBarCodeRead` never touches the worker's flag or decoder, never moves the time of the last progress publication, and never unlocks the session |
| ScanQRCode.Breaker | screen/send/ScanQRCode.tsx:406-452 | a dropped fragment is never recorded as accepted and is dropped only with one of the four breaker outcomes; an accepted one becomes the last accepted, at this time, joins the seen set and opens no cooldown |
| ScanQRCode.PushCapped | screen/send/ScanQRCode.tsx:478-482 | push then drop the head on overflow: the new part is last, a queue within 20 stays within 20, the head goes only when the queue was full |
| ScanQRCode.EnqueuePart | screen/send/ScanQRCode.tsx:469-492 | the multi-part branch changes only the dedupe map, queue, peak and animated mode, and either enqueues or drops as recent |
| ScanQRCode.LegacyRead | screen/send/ScanQRCode.tsx:327-359 | `_onReadUniformResource` changes only the URv1 parts, the progress counters and the deliveries; it never changes the lock or the time of the last throttled publication |
| ScanQRCode.SingleShotRead | screen/send/ScanQRCode.tsx:524-559 | the Base43 probe and plain-text fallback change only the lock and the deliveries, and end as PSBT or plain text (what they hand over is `SingleShotDelivers`) |
| ScanQRCode.Route | screen/send/ScanQRCode.tsx:465-559 | what happens after the lock check touches neither the breaker, the cache, the decoder, the drain flag nor the time of the last throttled publication |
| ScanQRCode.BreakerStage | screen/send/ScanQRCode.tsx:406-452 | the duplicate breaker changes only the breaker's refs |
| ScanQRCode.FeedPart | screen/send/ScanQRCode.tsx:183-237 | one pass of the for-loop shifts exactly the head of the queue and touches only the worker's state and the deliveries |
| ScanQRCode.FeedBatch | screen/send/ScanQRCode.tsx:181-238 | a batch touches only the worker's state and the deliveries |
| ScanQRCode.DrainStep | screen/send/ScanQRCode.tsx:180-242 | one while-iteration touches only the worker's state and the deliveries |
| ScanQRCode.WorkerStart | screen/send/ScanQRCode.tsx:176-246 | a `workerLoop` invocation touches only the worker's state and the deliveries |
| ScanQRCodeProps.PushAllKeepsNewest | screen/send/ScanQRCode.tsx:478-483 | any run of arrivals leaves exactly the 20 most recent parts, in arrival order |
| ScanQRCodeProps.NewestDropsHead | screen/send/ScanQRCode.tsx:480-482 | dropping the head of an over-long queue keeps its newest 20 |
| ScanQRCodeProps.InitialInvariants | screen/send/ScanQRCode.tsx:102-113 | `Initial`: a fresh screen satisfies the queue bound, the cache cover, the breaker invariant and distinct URv1 keys |
| ScanQRCodeProps.ReadKeepsQueueBound | screen/send/ScanQRCode.tsx:478-483 | every read keeps queue length ≤ peak ≤ 20; a queued part is pushed capped and is last; otherwise the queue is unchanged |
| ScanQRCodeProps.RouteKeepsQueueBound | screen/send/ScanQRCode.tsx:478-483 | after the lock check the queue bound holds and only the multi-part branches push |
| ScanQRCodeProps.EnqueueKeepsQueueBound | screen/send/ScanQRCode.tsx:510-512 | the multi-part branch keeps the bound and pushes capped or leaves the queue |
| ScanQRCodeProps.FeedBatchShifts | screen/send/ScanQRCode.tsx:181-183 | a batch of k shifts between one and k parts off the front and leaves the rest in order |
| ScanQRCodeProps.FeedBatchSnoc | screen/send/ScanQRCode.tsx:182-238 | a batch of k+1 that did not finish in k is those k and one more pass |
| ScanQRCodeProps.FeedBatchFifo | screen/send/ScanQRCode.tsx:181-233 | the decoder receives the batch's parts in queue order; completion stops the batch, discards the decoder, delivers and locks when launched |
| ScanQRCodeProps.BatchPostDone | screen/send/ScanQRCode.tsx:191-232 | a completing part ends the batch after one shift with the completion facts |
| ScanQRCodeProps.BatchPostStep | screen/send/ScanQRCode.tsx:182-238 | a non-completing part extends the rest-of-batch facts to the whole batch |
| ScanQRCodeProps.FeedPartFacts | screen/send/ScanQRCode.tsx:183-237 | a completing part discards the decoder and hands over `toString()`; any other part stays in the decoder's history |
| ScanQRCodeProps.MalformedPartSwallowed | screen/send/ScanQRCode.tsx:234-237 | a part on which `receivePart` throws leaves the queue, publishes no progress and does not end the loop |
| ScanQRCodeProps.DrainStepBatch | screen/send/ScanQRCode.tsx:180-242 | an iteration ends the drain exactly when locked or empty, else handles min(2, length) parts FIFO unless completion comes first; remaining parts stay queued |
| ScanQRCodeProps.SingleDrain | screen/send/ScanQRCode.tsx:176-246 | an invocation finding `processingRef` set does nothing; the flag stays set exactly while a drain has yielded |
| ScanQRCodeProps.DrainKeepsQueueBound | screen/send/ScanQRCode.tsx:180-183 | draining never breaks the queue bound |
| ScanQRCodeProps.FeedBatchThrottles | screen/send/ScanQRCode.tsx:181-238 | a batch publishes throttled progress at most once, at its own time, and only past 200 ms since the last publication |
| ScanQRCodeProps.DrainThrottles | screen/send/ScanQRCode.tsx:180-242 | the same for one while-iteration |
| ScanQRCodeProps.StartThrottles | screen/send/ScanQRCode.tsx:176-246 | the same for a fresh `workerLoop` invocation |
| ScanQRCodeProps.StepThrottles | screen/send/ScanQRCode.tsx:153-246 | the same for any event: a read never publishes, a drain step publishes as `throttledSetProgress` allows |
| ScanQRCodeProps.PublicationsSpaced | screen/send/ScanQRCode.tsx:153-160 | `ThrottleProgress` over a run: across any interleaving of reads and drain steps, the publication time changes only to the current step's time and only when more than 200 ms have passed since the previous publication |
| ScanQRCodeProps.LockedReadInert | screen/send/ScanQRCode.tsx:454-463 | a locked session neither enqueues, dedupes, accumulates nor delivers |
| ScanQRCodeProps.LockedDrainInert | screen/send/ScanQRCode.tsx:180 | a locked session runs no further batch |
| ScanQRCodeProps.ReadDeliveryLocks | screen/send/ScanQRCode.tsx:361-561 | a read hands over at most one payload, keeps the lock, and locks unless it was a URv1 completion |
| ScanQRCodeProps.RouteDeliveryLocks | screen/send/ScanQRCode.tsx:520-559 | the same after the lock check, per branch |
| ScanQRCodeProps.LegacyDeliversOnce | screen/send/ScanQRCode.tsx:344-352 | a URv1 part hands over at most one payload and never changes the lock |
| ScanQRCodeProps.SingleShotDelivers | screen/send/ScanQRCode.tsx:524-559 | a Base43 PSBT is handed over when launched; otherwise the raw text when launched and not loading; each delivery carries the BBQR flag and locks; in every other case the session is unchanged |
| ScanQRCodeProps.SingleShotLocks | screen/send/ScanQRCode.tsx:530-558 | a single-shot code hands over at most one payload and locks when it does |
| ScanQRCodeProps.DrainDeliveryLocks | screen/send/ScanQRCode.tsx:222-232 | a drain step that hands over a payload hands over one, completes, and locks |
| ScanQRCodeProps.AtMostOnceDelivery | screen/send/ScanQRCode.tsx:222-558 | without URv1 fragments any interleaving of reads and drain steps delivers at most once, and a delivery leaves the session locked |
| ScanQRCodeProps.ReadKeepsDeliveredOnce | screen/send/ScanQRCode.tsx:460-463 | one non-URv1 read keeps "at most one delivery, then locked" |
| ScanQRCodeProps.CachedFragmentStops | screen/send/ScanQRCode.tsx:454-457 | a fragment whose hash is cached stops before classification with nothing but the breaker changed |
| ScanQRCodeProps.ReadKeepsCacheCover | screen/send/ScanQRCode.tsx:454-458 | at a non-zero clock every dedupe key keeps its hash cached |
| ScanQRCodeProps.RouteKeepsCacheCover | screen/send/ScanQRCode.tsx:470-476 | the key the multi-part branch adds is already cached |
| ScanQRCodeProps.EnqueueKeepsCacheCover | screen/send/ScanQRCode.tsx:504-508 | the same for the bytes branch's enqueue |
| ScanQRCodeProps.DrainKeepsCacheCover | screen/send/ScanQRCode.tsx:176-246 | draining keeps the cache cover |
| ScanQRCodeProps.TtlNeverRejects | screen/send/ScanQRCode.tsx:454-507 | with the cover and a clock past 2000 ms the TTL check never rejects |
| ScanQRCodeProps.TtlDedupe | screen/send/ScanQRCode.tsx:471-476 | a fragment is rejected iff less than 2000 ms passed since its key was set (absent counts as 0); a rejection changes nothing; an acceptance stores the time |
| ScanQRCodeProps.CleanupDedupeExact | screen/send/ScanQRCode.tsx:122-130 | `CleanupDedupe`: the sweep runs only above 200 entries, then deletes exactly those older than the TTL and leaves the others' times |
| ScanQRCodeProps.DuplicateWindowDrops | screen/send/ScanQRCode.tsx:418-423 | a seen raw within 1000 ms of the last acceptance is dropped with nothing changed |
| ScanQRCodeProps.CooldownDrops | screen/send/ScanQRCode.tsx:410-416 | during a cooldown the last accepted raw is dropped with nothing changed |
| ScanQRCodeProps.BreakerRecordsAcceptance | screen/send/ScanQRCode.tsx:438-451 | an accepted raw becomes the last accepted one, at this time, and joins the seen set |
| ScanQRCodeProps.ReadKeepsBreakerInv | screen/send/ScanQRCode.tsx:406-452 | reads at a non-zero clock keep the breaker invariant |
| ScanQRCodeProps.BreakerKeepsInv | screen/send/ScanQRCode.tsx:424-451 | a breaker step at a non-zero clock keeps it |
| ScanQRCodeProps.ReadBreakerStage | screen/send/ScanQRCode.tsx:405-452 | only the breaker stage changes the breaker's refs or yields its outcomes |
| ScanQRCodeProps.DrainKeepsBreakerInv | screen/send/ScanQRCode.tsx:176-292 | draining and unmounting keep the breaker invariant |
| ScanQRCodeProps.StreakBranchDead | screen/send/ScanQRCode.tsx:424-437 | under the invariant no read is a quick repeat, opens a cooldown or is dropped by one |
| ScanQRCodeProps.BreakerStreakDead | screen/send/ScanQRCode.tsx:418-437 | under the invariant the breaker accepts or drops in the duplicate window only |
| ScanQRCodeProps.StreakReachableFromClockZero | screen/send/ScanQRCode.tsx:424-436 | after an acceptance at clock 0 repeats at 100 and 150 ms open a 400 ms cooldown that drops the raw at 300 ms |
| ScanQRCodeProps.ClassifyIgnoresCase | screen/send/ScanQRCode.tsx:466-521 | `Classify`: a fragment and its upper-cased form are classified alike |
| ScanQRCodeProps.RouteByKind | screen/send/ScanQRCode.tsx:465-559 | a fragment reaching the classifier goes to the queue, the URv1 accumulator or the single-shot branches by its kind; the others stop early |
| ScanQRCodeProps.RouteOutcomes | screen/send/ScanQRCode.tsx:467-522 | each kind ends in its own outcomes; only the animated kind can set the BBQR flag |
| ScanQRCodeProps.BbqrFlag | screen/send/ScanQRCode.tsx:468 | `useBBQRRef` becomes true exactly when a `B$` fragment reaches the classifier and is never cleared by a read |
| ScanQRCodeProps.ClassifyPlain | screen/send/ScanQRCode.tsx:520-524 | a fragment starting with neither u nor b in any case is single-shot |
| ScanQRCodeProps.ClassifyBbqr | screen/send/ScanQRCode.tsx:467-468 | a `B$` fragment in any case is animated with the BBQR flag |
| ScanQRCodeProps.ClassifyCrypto | screen/send/ScanQRCode.tsx:467 | the three URv2 crypto prefixes in any case are animated without the flag |
| ScanQRCodeProps.ClassifyBytes | screen/send/ScanQRCode.tsx:501-503 | `UR:BYTES` with three pieces and a dash in the second is a multi-part bytes fragment |
| ScanQRCodeProps.ClassifyLegacyBytes | screen/send/ScanQRCode.tsx:503-521 | `UR:BYTES` with four or more pieces goes to the URv1 accumulator |
| ScanQRCodeProps.BytesPrefix | screen/send/ScanQRCode.tsx:466-501 | an upper-case `UR:BYTES` prefix passes no animated test |
| ScanQRCodeProps.PlainTextScenario | screen/send/ScanQRCode.tsx:541-554 | plain text read by a launched screen is handed over verbatim without the flag and locks |
| ScanQRCodeProps.UpsertKeys | screen/send/ScanQRCode.tsx:330 | `Upsert`: storing a part adds its key, adds an entry only for a new key, and keeps keys distinct |
| ScanQRCodeProps.UpsertAppends | screen/send/ScanQRCode.tsx:330-334 | `Object.values` after storing a part under a new key is the old values with the part appended last |
| ScanQRCodeProps.UpsertReplaces | screen/send/ScanQRCode.tsx:330-334 | with distinct keys, storing a part under an existing key replaces that key's value in place in `Object.values` |
| ScanQRCodeProps.KeysCons | screen/send/ScanQRCode.tsx:330 | the keys of a part list are the head's key and the tail's keys |
| ScanQRCodeProps.UniqueSplit | screen/send/ScanQRCode.tsx:330 | a list with distinct keys has a tail with distinct keys none of which is the head's |
| ScanQRCodeProps.UniqueJoin | screen/send/ScanQRCode.tsx:330 | a new key in front of distinct keys keeps them distinct |
| ScanQRCodeProps.DistinctKeysCount | screen/send/ScanQRCode.tsx:332-333 | with distinct keys the number of values is the number of keys |
| ScanQRCodeProps.LegacyAccumulator | screen/send/ScanQRCode.tsx:329-334 | a repeated part does not raise `urHave`, a new one raises it by one, and completion fires iff the distinct keys number `total` and decoding succeeds |
| ScanQRCodeProps.LegacyStores | screen/send/ScanQRCode.tsx:329-352 | `LegacyPayload`: a readable part is stored and the counters published; completion hands over base64 for a `psbt` payload and text otherwise, when launched; no lock, no queue change |
| ScanQRCodeProps.LegacyRejectsUnreadable | screen/send/ScanQRCode.tsx:328-358 | a part whose workload cannot be extracted changes nothing |
| ScanQRCodeProps.ReadKeepsUniqueKeys | screen/send/ScanQRCode.tsx:330 | reads keep the URv1 keys distinct |
| ScanQRCodeProps.LegacyKeepsUniqueKeys | screen/send/ScanQRCode.tsx:330 | the URv1 accumulator keeps its keys distinct |
| ScanQRCodeProps.StepKeepsScreenInv | screen/send/ScanQRCode.tsx:176-561 | a read at a non-zero clock or a drain step keeps the queue bound, the cache cover, the breaker invariant and distinct URv1 keys |
| ScanQRCodeProps.RunKeepsScreenInv | screen/send/ScanQRCode.tsx:176-561 | so does any interleaving of such reads and drain steps |
| ScanQRCodeProps.SessionTtlAndStreakDead | screen/send/ScanQRCode.tsx:102-507 | after any such run from a fresh mount, a read past 2000 ms is never rejected by the TTL dedupe, and the streak never drops a read or opens a cooldown |
| ScanQRCodeProps.LegacyThenPlainDeliversTwice | screen/send/ScanQRCode.tsx:344-554 | a completed one-part URv1 transfer followed by a plain-text code hands over two payloads in one session |
| ScanQRCodeProps.UnmountForgetsScans | screen/send/ScanQRCode.tsx:282-292 | `Unmount`: after the cleanup no fragment is stopped as already scanned; the lock, queue, dedupe map and breaker survive |
| ScanQRCodeProps.UnmountReenablesTtl | screen/send/ScanQRCode.tsx:282-292 | the cleanup breaks the cache cover: a multi-part fragment read before it is rejected as recent when read again after it |
| ScanScreen.ScanSession.constructor | screen/send/ScanQRCode.tsx:102-110 | a mounted screen starts in the initial session |
| ScanScreen.ScanSession.DuplicateBreaker | screen/send/ScanQRCode.tsx:406-452 | the refs are updated in place as the breaker function says, and nothing else changes |
| ScanScreen.ScanSession.CleanupDedupeIfNeeded | screen/send/ScanQRCode.tsx:122-130 | the delete-while-iterating loop leaves exactly the swept map, nothing else changes |
| ScanScreen.ScanSession.ThrottledSetProgress | screen/send/ScanQRCode.tsx:153-160 | only the throttled progress changes |
| ScanScreen.ScanSession.Enqueue | screen/send/ScanQRCode.tsx:469-492 | in-place TTL dedupe, sweep, push and shift agree with the multi-part branch |
| ScanScreen.ScanSession.RememberPart | screen/send/ScanQRCode.tsx:476-477 | the key's time is set and the map swept, nothing else changes |
| ScanScreen.ScanSession.PushPart | screen/send/ScanQRCode.tsx:478-492 | the queue is pushed capped, the peak raised to its length, animated mode set, nothing else changes |
| ScanScreen.ScanSession.OnReadUniformResource | screen/send/ScanQRCode.tsx:327-359 | in-place URv1 accumulation agrees with the accumulator's transition |
| ScanScreen.ScanSession.ReadSingleShot | screen/send/ScanQRCode.tsx:524-559 | the single-shot branches agree with their transition |
| ScanScreen.ScanSession.OnBarCodeRead | screen/send/ScanQRCode.tsx:361-561 | one call takes the fields to the state `ReadStep` computes, with the same outcome |
| ScanScreen.ScanSession.FeedNextPart | screen/send/ScanQRCode.tsx:183-237 | one pass of the for-loop agrees with `FeedPart` |
| ScanScreen.ScanSession.ShiftPart | screen/send/ScanQRCode.tsx:183-187 | the head leaves the queue and joins the decoder's history, creating the decoder on demand |
| ScanScreen.ScanSession.Finish | screen/send/ScanQRCode.tsx:191-232 | the decoder is dropped and the drain ends; when launched the payload is handed over and the session locked |
| ScanScreen.ScanSession.DrainBatch | screen/send/ScanQRCode.tsx:180-242 | the while-iteration and its for-loop agree with `DrainStep` |
| ScanScreen.ScanSession.WorkerLoop | screen/send/ScanQRCode.tsx:176-246 | an invocation agrees with `WorkerStart` |
| ScanScreen.ScanSession.Unmount | screen/send/ScanQRCode.tsx:282-292 | the cleanup clears the cache, decoder, BBQR flag, URv1 parts and counters and nothing else |
| Text.UpperIdempotent | screen/send/ScanQRCode.tsx:466 | upper-casing an upper-cased string changes nothing |
| Text.Split | screen/send/ScanQRCode.tsx:502 | `split` yields at least one piece and no piece holds the separator |
| Text.SplitJoin | screen/send/ScanQRCode.tsx:502 | joining the pieces gives the input back, with one more piece than separators |
| Text.SplitNoSep | screen/send/ScanQRCode.tsx:502-503 | a string without the separator is one piece |
| Text.SplitFirst | screen/send/ScanQRCode.tsx:502-503 | the text before the first separator is the first piece |
| Text.SplitUpper | screen/send/ScanQRCode.tsx:466-503 | upper-casing keeps the number of pieces and which hold a non-letter |
| GcNotifications.ShortAddress | index.js:15-19 | empty for a missing or empty address, the address itself up to 12 characters, else first four, ellipsis, last four; never over 12 |
| GcNotifications.ShortAddressKeepsShort | index.js:17 | an address is shown unchanged iff it has at most 12 characters |
| GcNotifications.ConfirmationsOverrideStatus | index.js:22-23 | with a numeric count the status is ignored |
| GcNotifications.LowerUpper | index.js:25 | lower-casing after upper-casing is lower-casing |
| GcNotifications.StatusIgnoresCase | index.js:25-26 | the status comparison ignores ASCII case |
| GcNotifications.StatusDecides | index.js:21-27 | `isConfirmedFromPayload` without a numeric count, with `StatusText`: confirmed iff the status is truthy and reads `confirmed` in lower case; a missing or empty status never confirms |
| GcNotifications.ReceivedTextIff | index.js:29-47 | `buildBlueWalletOnchainText`: the `+` title and the `Received on` message appear iff confirmed with an amount; the message always ends with the short address |
| GcNotifications.Wrap32 | index.js:57 | the int32 conversion of `hash` is in the signed 32-bit range and congruent to it modulo 2^32 |
| GcNotifications.Wrap32Unique | index.js:57 | ToInt32 is fixed by its range and residue |
| GcNotifications.Wrap32Shift | index.js:56-57 | adding multiples of 2^32 does not change ToInt32 |
| GcNotifications.HashStep | index.js:56-57 | one pass of the loop stays in the signed 32-bit range |
| GcNotifications.HashStepTimes31 | index.js:56 | shift-by-5 minus the hash is multiplication by 31, wrapped |
| GcNotifications.HashPrefix | index.js:54-58 | the hash after any prefix is a signed 32-bit value |
| GcNotifications.TxidHash | index.js:54-58 | the hash after the loop is a signed 32-bit value |
| GcNotifications.HashIsPolyHash | index.js:54-58 | the loop computes the base-31 polynomial hash modulo 2^32, signed |
| GcNotifications.NotifIdAsWritten | index.js:51-63 | a truthy txid gives an id in 0..2^31, and 2^31 exactly when the hash is -2^31; otherwise the random id |
| GcNotifications.NotifIdOverflow | index.js:60-62 | the txid `f45685b6` hashes to -2^31 and gets the id 2^31 |
| GcNotifications.OverflowHash | index.js:54-58 | the loop on `f45685b6` ends at -2^31 |
| GcNotifications.HashAt | index.js:55-58 | one pass of the loop from a known hash |
| GcNotifications.NotifId | index.js:49-63 | the corrected id of a truthy txid is in 0..2^31-1; otherwise the random id |
| GcNotifications.NotifIdAgrees | index.js:60-62 | the correction changes the id exactly for txids whose hash is -2^31 |
| GcNotifications.NotifIdFromTxid | index.js:51-63 | the for-loop method returns the corrected id, within the signed 32-bit range |
| GcNotifications.OnchainNotification | index.js:65-89 | channel defaults, title and message from the onchain text, tag the txid, payload as user info and data; the id is `notifIdFromTxid` as written, in 0..2^31 for a random value below 10^9, and 2^31 exactly for a truthy txid hashing to -2^31 |
| GcNotifications.CorrectedOnchainNotification | index.js:65-89 | the record with the corrected id differs from the posted one only in the id, only for txids hashing to -2^31, and its id fits a signed 32-bit integer |
| GcNotifications.OverflowNotification | index.js:60-77 | the record posted for txid `f45685b6` carries the id 2^31; the corrected record carries 2^31-1 |
| GcNotifications.SameTxidReplaces | index.js:76-78 | two messages about one txid post under the same id and tag |
| GcNotifications.TestNotification | index.js:91-112 | `TestMessage` and the test record: nothing without a message or body; otherwise title defaults to `BlueWallet`, channel to `bluewallet-notifications`, message from message or body, no id or tag |
| GcNotifications.RoutingIff | index.js:114-130 | `handleGcMessage` routed by `Kind`: a record carries an id iff the kind is `gc_onchain`, and then the as-written txid id and the onchain title; a record without an id is posted iff the kind is `gc_test_data` with a message or body; other kinds and no data post nothing |

## Left out

- Telemetry is not modelled: perf counters, per-second counters, `partsProcessedRef`, repeat and streak maxima, `console.*` logging and the `DEBUG_*` flags. They only observe the state.
- Asynchrony is reduced to events. `setTimeout(workerLoop)` becomes `WorkerStart`, and each resumption after the `await` becomes a `DrainStep`. These can be interleaved with reads in any order (`ScanQRCodeProps.Run`).
- React `setState` is applied at once. In the source, `setAnimatedMode`, `setUrHave`/`setUrTotal` and `setIsLoading` take effect at the next render. The final `setIsLoading(false)` is not modelled, because `loading` is a parameter.
- The mount effect, which forces animated mode on, is covered by the `animated` parameter of `Initial` and of the constructor.
- Navigation dispatch (`StackActions.popTo`) and the `onBarScanned` callback become one entry in `delivered`. An absent `onBarScanned` is not distinguished.
- The source calls `Date.now()` several times within one synchronous call. The model uses one `now` per call.
- The module-level `decoder` is modelled as a field of the session. Sharing it across screen instances is not modelled.
- `FeedNextPart` asks the decoder all its questions right after the part is received. The answers are functions of the history, so this is the same as asking them in the source's order.
- `toString()` throwing after `isComplete()`, and `decodeUR` returning a non-hex value, are not distinguished from the capabilities' answers.
- `ScanScreen.ScanSession` keeps the five breaker refs in one field `breaker`, and the progress ref with `urHave`/`urTotal` in one field `progress`. This groups the refs without changing them.
- Case mapping covers ASCII letters only. Strings are sequences of UTF-16 code units with no normalisation.
- `_onReadUniformResourceV2` is not modelled: nothing calls it.
- The file picker, the backdoor text input and the JSX of the screen are not modelled. The picker and the backdoor only call `onBarCodeRead`.
- `Number(...)` is modelled on integers and NaN only. A fractional confirmation count or amount, and its decimal rendering, are not modelled.
- Payload fields that are not strings are not modelled. This covers the `typeof ... !== 'string'` guards of `shortAddress` and `notifIdFromTxid` and the `String(...)` conversions.
- `Math.random()` is the parameter `random`.
- The run-level lemmas cover reads and drain steps. The unmount cleanup is not an event of `Run`: it ends the component. `UnmountForgetsScans` and `UnmountReenablesTtl` state what it leaves behind.
- The `PushNotification.localNotification` call itself is not modelled. The model returns its argument record.
- `handleGcMessage`'s `console.log` and the background handler's error swallowing are not modelled.

## Findings

| source | as written | input that shows it | evidently intended | confidence | as-written member | corrected member |
|---|---|---|---|---|---|---|
| index.js:60-62 | a negative hash is negated; negating -2^31 gives 2^31, outside the signed 32-bit range the comments at lines 50 and 60 require | txid `f45685b6` (hash -2147483648, id 2147483648) | the id fits a signed 32-bit integer, for example by clamping that one hash to 2^31-1, as `CorrectedOnchainNotification` does for the record | not executed | GcNotifications.NotifIdOverflow | GcNotifications.NotifIdFromTxid |
