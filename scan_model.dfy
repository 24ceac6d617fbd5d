/** The scan-ingestion state machine of the QR scanning screen, as values:
    one `Session` holds every ref, state variable and cache the screen keeps
    between camera callbacks, and each function below is one transition. The
    class `ScanScreen.ScanSession` runs the same transitions in place. */
module ScanQRCode {
  import opened Text

  const QUEUE_CAP := 20
  const DEDUPE_TTL_MS := 2000
  const DEDUPE_SWEEP_SIZE := 200
  const PROGRESS_THROTTLE_MS := 200
  const JS_DUPLICATE_MS := 200
  const DUPLICATE_WINDOW_TTL := 1000
  const SAME_STREAK_LIMIT := 3
  const SAME_STREAK_COOLDOWN_MS := 400
  const BATCH_SIZE := 2

  /** The `[index, total]` pair that `extractSingleWorkload` reads out of a
      URv1 fragment; it stands for the object key `index + 'of' + total`. */
  datatype PartKey = PartKey(index: nat, total: nat)

  /** One own property of `animatedQRCodeData`, in insertion order. */
  datatype LegacyEntry = LegacyEntry(key: PartKey, ur: string)

  /** What the caller receives: the payload passed to the navigation target
      and to `onBarScanned`, with the BBQR flag. */
  datatype Delivery = Delivery(payload: string, isBBQR: bool)

  /** The route parameter `launchedBy` and the foreign capabilities the screen
      calls. Each is left uninterpreted: the model holds for every choice.
      A decoder instance is identified with the parts fed to it since it was
      created, so its answers are functions of that history. */
  datatype Env = Env(
    launchedBy: bool,
    hash: string -> string,                  // uint8ArrayToHex(sha256(s))
    base43Psbt: string -> Option<string>,    // base64 of a Base43 text that parses as a PSBT; None when any step throws
    extractWorkload: string -> Option<PartKey>, // extractSingleWorkload; None when it throws
    decodeUR: seq<string> -> Option<string>, // decodeUR to a hex string; None when it throws
    hexToText: string -> string,             // uint8ArrayToString(hexToUint8Array(hex))
    hexToBase64: string -> string,           // uint8ArrayToBase64(hexToUint8Array(hex))
    receiveFails: seq<string> -> bool,       // receivePart throws on the last part of the history
    isComplete: seq<string> -> bool,         // decoder.isComplete()
    percentComplete: seq<string> -> int,     // Math.floor(estimatedPercentComplete() * 100)
    decodedText: seq<string> -> string)      // decoder.toString()

  /** The refs of the animated-mode duplicate breaker. */
  datatype BreakerState = BreakerState(
    lastAcceptedAt: int,
    lastAcceptedRaw: Option<string>,
    sameStreak: int,
    cooldownUntil: int,
    uniqueParts: set<string>)

  /** The progress shown to the user, `urHave` of `urTotal`, and the time
      of the last throttled publication. */
  datatype Progress = Progress(lastUpdate: int, have: int, total: int)

  datatype Session = Session(
    animatedMode: bool,
    breaker: BreakerState,
    // permanent per-session cache: hash -> time stored
    scannedCache: map<string, int>,
    locked: bool,
    useBBQR: bool,
    // backpressure: queue, peak length, TTL dedupe map, drain flag, decoder
    queue: seq<string>,
    peakQueue: int,
    dedupe: map<string, int>,
    processing: bool,
    decoder: Option<seq<string>>,
    progress: Progress,
    // legacy URv1 accumulator
    animatedData: seq<LegacyEntry>,
    // every payload handed to the caller
    delivered: seq<Delivery>)

  /** What one `onBarCodeRead` call did. */
  datatype ReadOutcome =
    | DroppedCooldown          // identical raw during an active cooldown
    | DroppedDuplicateWindow   // raw seen before, within 1000 ms of the last acceptance
    | DroppedRepeat            // identical raw within 200 ms, streak below the limit
    | CooldownOpened           // identical raw within 200 ms, streak reached the limit
    | AlreadyScanned           // hash already in the permanent cache
    | IgnoredLocked            // session already locked
    | DroppedRecent            // multi-part fragment within the 2000 ms dedupe TTL
    | Enqueued                 // multi-part fragment queued; a worker run is scheduled
    | LegacyRejected           // URv1 fragment whose workload or decode threw
    | LegacyStored             // URv1 fragment stored, transfer not yet complete
    | LegacyCompleted          // URv1 transfer complete and decoded
    | Base43Psbt               // single-shot Base43 transaction
    | PlainText                // single-shot fallback

  datatype DrainOutcome =
    | AlreadyRunning   // a drain is active: this invocation returned at once
    | Finished         // the while-guard failed: queue empty or session locked
    | Yielded          // one batch fed, the loop awaits before its next batch
    | Completed        // the decoder completed; the loop returned

  datatype FragmentKind =
    | Animated(bbqr: bool)   // UR:CRYPTO-ACCOUNT / -PSBT / -OUTPUT, or B$
    | BytesPart              // UR:BYTES with three '/'-pieces and a '-' in the second
    | LegacyUR               // any other UR...
    | SingleShot             // anything else

  /** The state of a freshly mounted screen. */
  function Initial(animated: bool): Session
  {
    Session(animated, BreakerState(0, None, 0, 0, {}), map[], false, false,
            [], 0, map[], false, None, Progress(0, 0, 0), [], [])
  }

  // ---------------------------------------------------------------------
  // Fragment classifier

  predicate IsBytesFragment(data: string)
  {
    var pieces := Split(data, '/');
    |pieces| == 3 && '-' in pieces[1]
  }

  /** The prefix tests of `onBarCodeRead`, in the order the source applies
      them, on the upper-cased fragment. */
  function Classify(data: string): FragmentKind
  {
    var up := Upper(data);
    if StartsWith(up, "UR:CRYPTO-ACCOUNT") || StartsWith(up, "UR:CRYPTO-PSBT")
       || StartsWith(up, "UR:CRYPTO-OUTPUT") || StartsWith(up, "B$")
    then Animated(StartsWith(up, "B$"))
    else if StartsWith(up, "UR:BYTES") && IsBytesFragment(data) then BytesPart
    else if StartsWith(up, "UR") then LegacyUR
    else SingleShot
  }

  // ---------------------------------------------------------------------
  // Duplicate breaker (animated mode only)

  /** The animated-mode duplicate breaker, run only in animated mode.
      `None` lets the fragment through; `Some(o)` drops it with outcome `o`. */
  function Breaker(b: BreakerState, raw: string, now: int): (r: (BreakerState, Option<ReadOutcome>))
    // a dropped fragment is never recorded as accepted
    ensures r.1.Some? ==> r.0.lastAcceptedRaw == b.lastAcceptedRaw && r.0.lastAcceptedAt == b.lastAcceptedAt
                          && r.0.uniqueParts == b.uniqueParts
    ensures r.1.Some? ==> r.1.value in {DroppedCooldown, DroppedDuplicateWindow, DroppedRepeat, CooldownOpened}
    // an accepted one becomes the last accepted, at this time, and is remembered; no cooldown opens
    ensures r.1.None? ==> r.0.lastAcceptedRaw == Some(raw) && r.0.lastAcceptedAt == now
                          && r.0.uniqueParts == b.uniqueParts + {raw} && r.0.cooldownUntil == b.cooldownUntil
  {
    if b.cooldownUntil != 0 && now < b.cooldownUntil && b.lastAcceptedRaw == Some(raw) then
      (b, Some(DroppedCooldown))
    else if raw in b.uniqueParts && b.lastAcceptedAt != 0
            && now - b.lastAcceptedAt < DUPLICATE_WINDOW_TTL then
      (b, Some(DroppedDuplicateWindow))
    else if b.lastAcceptedRaw == Some(raw) then
      if now - b.lastAcceptedAt < JS_DUPLICATE_MS then
        var streak := b.sameStreak + 1;
        if streak >= SAME_STREAK_LIMIT then
          (b.(sameStreak := streak, cooldownUntil := now + SAME_STREAK_COOLDOWN_MS), Some(CooldownOpened))
        else
          (b.(sameStreak := streak), Some(DroppedRepeat))
      else
        // accepted after the throttle; the raw equals the last one, so the streak grows
        (b.(lastAcceptedAt := now, sameStreak := b.sameStreak + 1,
            uniqueParts := b.uniqueParts + {raw}), None)
    else
      (b.(lastAcceptedRaw := Some(raw), lastAcceptedAt := now, sameStreak := 1,
          uniqueParts := b.uniqueParts + {raw}), None)
  }

  // ---------------------------------------------------------------------
  // Dedupe map and ingestion queue

  /** The entries of the dedupe map that the sweep keeps. */
  function Sweep(m: map<string, int>, now: int): (r: map<string, int>)
    ensures forall k :: k in r <==> k in m && now - m[k] <= DEDUPE_TTL_MS
    ensures forall k :: k in r ==> r[k] == m[k]
  {
    map k | k in m && now - m[k] <= DEDUPE_TTL_MS :: m[k]
  }

  /** `cleanupDedupeIfNeeded`: sweep only once the map holds more than 200 entries. */
  function CleanupDedupe(m: map<string, int>, now: int): map<string, int>
  {
    if |m| > DEDUPE_SWEEP_SIZE then Sweep(m, now) else m
  }

  /** `q.push(x)` followed by one `q.shift()` when the queue went over its cap. */
  function PushCapped(q: seq<string>, x: string): (r: seq<string>)
    ensures |r| >= 1 && r[|r| - 1] == x
    ensures |q| <= QUEUE_CAP ==> |r| <= QUEUE_CAP
    ensures |q| < QUEUE_CAP ==> r == q + [x]
    ensures |q| >= QUEUE_CAP ==> r == q[1..] + [x]
  {
    var p := q + [x];
    if |p| > QUEUE_CAP then p[1..] else p
  }

  /** The time stored for a dedupe key; `get(key) || 0`. */
  function LastSeen(m: map<string, int>, key: string): int
  {
    if key in m then m[key] else 0
  }

  /** The multi-part branch after classification: TTL dedupe, lazy sweep,
      capped push and the peak counter. */
  function EnqueuePart(s: Session, data: string, now: int): (r: (Session, ReadOutcome))
    ensures r.0 == s.(dedupe := r.0.dedupe, queue := r.0.queue, peakQueue := r.0.peakQueue,
                      animatedMode := r.0.animatedMode)
    ensures r.1.Enqueued? || r.1.DroppedRecent?
  {
    if now - LastSeen(s.dedupe, data) < DEDUPE_TTL_MS then (s, DroppedRecent)
    else
      var q := PushCapped(s.queue, data);
      (s.(dedupe := CleanupDedupe(s.dedupe[data := now], now), queue := q,
          peakQueue := Max(s.peakQueue, |q|), animatedMode := true), Enqueued)
  }

  // ---------------------------------------------------------------------
  // Legacy URv1 accumulator

  function Keys(es: seq<LegacyEntry>): set<PartKey>
  {
    set i | 0 <= i < |es| :: es[i].key
  }

  predicate UniqueKeys(es: seq<LegacyEntry>)
  {
    forall i, j :: 0 <= i < j < |es| ==> es[i].key != es[j].key
  }

  /** `animatedQRCodeData[key] = ur`: an existing key keeps its place and
      takes the new value, a new key goes last. */
  function Upsert(es: seq<LegacyEntry>, key: PartKey, ur: string): (r: seq<LegacyEntry>)
    decreases |es|
  {
    if es == [] then [LegacyEntry(key, ur)]
    else if es[0].key == key then [LegacyEntry(key, ur)] + es[1..]
    else [es[0]] + Upsert(es[1..], key, ur)
  }

  /** `Object.values(animatedQRCodeData)`. */
  function Values(es: seq<LegacyEntry>): (r: seq<string>)
    ensures |r| == |es|
    ensures forall i :: 0 <= i < |es| ==> r[i] == es[i].ur
  {
    seq(|es|, i requires 0 <= i < |es| => es[i].ur)
  }

  /** A decoded URv1 payload in the form the caller expects: base64 for a
      PSBT, text otherwise. */
  function LegacyPayload(env: Env, hex: string): string
  {
    if StartsWith(env.hexToText(hex), "psbt") then env.hexToBase64(hex) else env.hexToText(hex)
  }

  function Deliver(s: Session, payload: string): Session
  {
    s.(delivered := s.delivered + [Delivery(payload, s.useBBQR)])
  }

  /** `_onReadUniformResource`. */
  function LegacyRead(s: Session, env: Env, ur: string): (r: (Session, ReadOutcome))
    ensures r.0 == s.(animatedData := r.0.animatedData, progress := r.0.progress,
                      delivered := r.0.delivered)
    ensures r.0.progress.lastUpdate == s.progress.lastUpdate
    ensures r.1.LegacyRejected? || r.1.LegacyStored? || r.1.LegacyCompleted?
  {
    match env.extractWorkload(ur)
    case None => (s, LegacyRejected)
    case Some(key) =>
      var es := Upsert(s.animatedData, key, ur);
      var t := s.(animatedData := es, progress := s.progress.(total := key.total, have := |es|));
      if |es| == key.total then
        match env.decodeUR(Values(es))
        case None => (t, LegacyRejected)
        case Some(hex) =>
          (if env.launchedBy then Deliver(t, LegacyPayload(env, hex)) else t, LegacyCompleted)
      else (t, LegacyStored)
  }

  // ---------------------------------------------------------------------
  // Single-shot branches

  /** The Base43 probe and the plain-text fallback. */
  function SingleShotRead(s: Session, env: Env, data: string, loading: bool): (r: (Session, ReadOutcome))
    ensures r.0 == s.(locked := r.0.locked, delivered := r.0.delivered)
    ensures r.1.Base43Psbt? || r.1.PlainText?
  {
    match env.base43Psbt(data)
    case Some(payload) =>
      (if env.launchedBy then Deliver(s.(locked := true), payload) else s, Base43Psbt)
    case None =>
      (if !loading && env.launchedBy then Deliver(s.(locked := true), data) else s, PlainText)
  }

  // ---------------------------------------------------------------------
  // onBarCodeRead

  /** Everything after the lock check, for a fragment of kind `kind`. */
  function Route(s: Session, env: Env, kind: FragmentKind, data: string, now: int, loading: bool): (r: (Session, ReadOutcome))
    ensures r.0 == s.(useBBQR := r.0.useBBQR, dedupe := r.0.dedupe, queue := r.0.queue,
                      peakQueue := r.0.peakQueue, animatedMode := r.0.animatedMode,
                      animatedData := r.0.animatedData, progress := r.0.progress,
                      delivered := r.0.delivered, locked := r.0.locked)
    ensures r.0.progress.lastUpdate == s.progress.lastUpdate
  {
    match kind
    case Animated(bbqr) => EnqueuePart(s.(useBBQR := s.useBBQR || bbqr), data, now)
    case BytesPart => EnqueuePart(s, data, now)
    case LegacyUR => LegacyRead(s, env, data)
    case SingleShot => SingleShotRead(s, env, data, loading)
  }

  /** Whether the permanent cache holds a truthy time for this hash. */
  predicate Cached(cache: map<string, int>, h: string)
  {
    h in cache && cache[h] != 0
  }

  /** The breaker stage of `onBarCodeRead`: in animated mode the breaker
      may drop the fragment; otherwise it passes untouched. */
  function BreakerStage(s: Session, raw: string, now: int): (r: (Session, Option<ReadOutcome>))
    ensures r.0 == s.(breaker := r.0.breaker)
  {
    if !s.animatedMode then (s, None)
    else
      var (b, drop) := Breaker(s.breaker, raw, now);
      (s.(breaker := b), drop)
  }

  /** `onBarCodeRead` for one decoded string `data` read at time `now`, with
      the screen's `isLoading` state `loading`. */
  function ReadStep(s: Session, env: Env, data: string, now: int, loading: bool): (r: (Session, ReadOutcome))
    // a read never touches the worker, never publishes throttled progress and never unlocks
    ensures r.0.processing == s.processing && r.0.decoder == s.decoder
    ensures r.0.progress.lastUpdate == s.progress.lastUpdate
    ensures s.locked ==> r.0.locked
  {
    var (b, drop) := BreakerStage(s, data, now);
    if drop.Some? then (b, drop.value)
    else
      var h := env.hash(data);
      if Cached(b.scannedCache, h) then (b, AlreadyScanned)
      else
        var c := b.(scannedCache := b.scannedCache[h := now]);
        if c.locked then (c, IgnoredLocked)
        else Route(c, env, Classify(data), data, now, loading)
  }

  // ---------------------------------------------------------------------
  // Worker loop

  /** `throttledSetProgress`. */
  function ThrottleProgress(p: Progress, have: int, total: int, now: int): Progress
  {
    if now - p.lastUpdate > PROGRESS_THROTTLE_MS then Progress(now, have, total) else p
  }

  /** The parts fed to the live decoder, none when there is no decoder. */
  function History(s: Session): seq<string>
  {
    if s.decoder.Some? then s.decoder.value else []
  }

  /** One pass of the inner for-loop: shift a part and feed it to the
      decoder. The flag says whether the loop returned on completion. */
  function FeedPart(s: Session, env: Env, now: int): (r: (Session, bool))
    requires |s.queue| > 0
    ensures r.0 == s.(queue := r.0.queue, decoder := r.0.decoder, progress := r.0.progress,
                      delivered := r.0.delivered, locked := r.0.locked, processing := r.0.processing)
    ensures r.0.queue == s.queue[1..]
  {
    var h := History(s) + [s.queue[0]];
    var s1 := s.(queue := s.queue[1..], decoder := Some(h));
    if env.receiveFails(h) then (s1, false)
    else
      var s2 := s1.(progress := ThrottleProgress(s1.progress, env.percentComplete(h), 100, now));
      if env.isComplete(h) then
        var s3 := s2.(decoder := None);
        var s4 := if env.launchedBy then Deliver(s3, env.decodedText(h)).(locked := true) else s3;
        (s4.(processing := false), true)
      else (s2, false)
  }

  /** The inner for-loop over `k` parts, stopping early on completion. */
  function FeedBatch(s: Session, env: Env, now: int, k: nat): (r: (Session, bool))
    requires k <= |s.queue|
    ensures r.0 == s.(queue := r.0.queue, decoder := r.0.decoder, progress := r.0.progress,
                      delivered := r.0.delivered, locked := r.0.locked, processing := r.0.processing)
    decreases k
  {
    if k == 0 then (s, false)
    else
      var (t, done) := FeedPart(s, env, now);
      if done then (t, true) else FeedBatch(t, env, now, k - 1)
  }

  /** One iteration of the while-loop of `workerLoop`, up to its `await`. */
  function DrainStep(s: Session, env: Env, now: int): (r: (Session, DrainOutcome))
    ensures r.0 == s.(queue := r.0.queue, decoder := r.0.decoder, progress := r.0.progress,
                      delivered := r.0.delivered, locked := r.0.locked, processing := r.0.processing)
  {
    if |s.queue| > 0 && !s.locked then
      var (t, done) := FeedBatch(s, env, now, Min(BATCH_SIZE, |s.queue|));
      (t, if done then Completed else Yielded)
    else (s.(processing := false), Finished)
  }

  /** A fresh invocation of `workerLoop`, up to its first `await`. */
  function WorkerStart(s: Session, env: Env, now: int): (r: (Session, DrainOutcome))
    ensures r.0 == s.(queue := r.0.queue, decoder := r.0.decoder, progress := r.0.progress,
                      delivered := r.0.delivered, locked := r.0.locked, processing := r.0.processing)
  {
    if s.processing then (s, AlreadyRunning) else DrainStep(s.(processing := true), env, now)
  }

  /** The unmount cleanup of the screen. */
  function Unmount(s: Session): Session
  {
    s.(scannedCache := map[], decoder := None, useBBQR := false,
       animatedData := [], progress := s.progress.(have := 0, total := 0))
  }
}
