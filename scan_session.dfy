/** The scanning screen's refs and state as one mutable object. Each method
    is one camera callback, worker step or cleanup of the screen, changes the
    fields in place the way the screen does, and is proved to take the
    object from `old(State())` to the state the matching transition of
    module ScanQRCode computes, so every property proved there holds here. */
module ScanScreen {
  import opened Text
  import opened ScanQRCode
  import ScanQRCodeProps

  class ScanSession {
    const env: Env
    var animatedMode: bool
    // the five refs of the duplicate breaker
    var breaker: BreakerState
    // permanent cache and lock
    var scannedCache: map<string, int>
    var locked: bool
    var useBBQR: bool
    // backpressure
    var queue: seq<string>
    var peakQueue: int
    var dedupe: map<string, int>
    var processing: bool
    var decoder: Option<seq<string>>
    // the progress throttle's ref and the two counters it publishes
    var progress: Progress
    // URv1 accumulator
    var animatedData: seq<LegacyEntry>
    // payloads handed to the caller
    var delivered: seq<Delivery>

    /** The session these fields hold. */
    ghost function State(): Session
      reads this
    {
      Session(animatedMode, breaker, scannedCache, locked, useBBQR, queue, peakQueue, dedupe, processing,
              decoder, progress, animatedData, delivered)
    }

    /** A freshly mounted screen. */
    constructor(env: Env, animated: bool)
      ensures this.env == env && State() == Initial(animated)
    {
      this.env := env;
      animatedMode := animated;
      breaker := BreakerState(0, None, 0, 0, {});
      scannedCache, locked, useBBQR := map[], false, false;
      queue, peakQueue, dedupe, processing, decoder := [], 0, map[], false, None;
      progress := Progress(0, 0, 0);
      animatedData, delivered := [], [];
    }

    /** The JS-side duplicate breaker of an animated session. */
    method DuplicateBreaker(raw: string, now: int) returns (drop: Option<ReadOutcome>)
      modifies this
      ensures (breaker, drop) == Breaker(old(breaker), raw, now)
      ensures State() == old(State()).(breaker := breaker)
    {
      var b := breaker;
      if b.cooldownUntil != 0 && now < b.cooldownUntil && b.lastAcceptedRaw == Some(raw) {
        return Some(DroppedCooldown);
      }
      if raw in b.uniqueParts && b.lastAcceptedAt != 0 && now - b.lastAcceptedAt < DUPLICATE_WINDOW_TTL {
        return Some(DroppedDuplicateWindow);
      }
      if b.lastAcceptedRaw == Some(raw) {
        if now - b.lastAcceptedAt < JS_DUPLICATE_MS {
          breaker := b.(sameStreak := b.sameStreak + 1);
          if breaker.sameStreak >= SAME_STREAK_LIMIT {
            breaker := breaker.(cooldownUntil := now + SAME_STREAK_COOLDOWN_MS);
            return Some(CooldownOpened);
          }
          return Some(DroppedRepeat);
        }
        breaker := b.(lastAcceptedAt := now, sameStreak := b.sameStreak + 1, uniqueParts := b.uniqueParts + {raw});
      } else {
        breaker := b.(lastAcceptedRaw := Some(raw), lastAcceptedAt := now, sameStreak := 1,
                      uniqueParts := b.uniqueParts + {raw});
      }
      drop := None;
    }

    /** `cleanupDedupeIfNeeded`: above 200 entries, walk the entries and
        delete every one older than the TTL. */
    method CleanupDedupeIfNeeded(now: int)
      modifies this
      ensures State() == old(State()).(dedupe := CleanupDedupe(old(dedupe), now))
    {
      var m := dedupe;
      if |m| > DEDUPE_SWEEP_SIZE {
        var pending := m.Keys;
        while pending != {}
          invariant pending <= dedupe.Keys
          invariant forall k :: k in m <==> k in dedupe && (k in pending || now - dedupe[k] <= DEDUPE_TTL_MS)
          invariant forall k :: k in m ==> m[k] == dedupe[k]
          decreases |pending|
        {
          var k :| k in pending;
          if now - m[k] > DEDUPE_TTL_MS {
            m := m - {k};
          }
          pending := pending - {k};
        }
        assert m == Sweep(dedupe, now);
        dedupe := m;
      }
    }

    /** `throttledSetProgress`. */
    method ThrottledSetProgress(have: int, total: int, now: int)
      modifies this
      ensures State() == old(State()).(progress := ThrottleProgress(old(State()).progress, have, total, now))
    {
      if now - progress.lastUpdate > PROGRESS_THROTTLE_MS {
        progress := Progress(now, have, total);
      }
    }

    /** The multi-part branch: TTL dedupe, lazy sweep, capped push, peak. */
    method Enqueue(data: string, now: int) returns (o: ReadOutcome)
      modifies this
      ensures (State(), o) == EnqueuePart(old(State()), data, now)
    {
      var last := if data in dedupe then dedupe[data] else 0;
      if now - last < DEDUPE_TTL_MS {
        return DroppedRecent;
      }
      RememberPart(data, now);
      PushPart(data);
      o := Enqueued;
    }

    /** `dedupeMapRef.current.set(key, now)` followed by the lazy sweep. */
    method RememberPart(data: string, now: int)
      modifies this
      ensures State() == old(State()).(dedupe := CleanupDedupe(old(dedupe)[data := now], now))
    {
      dedupe := dedupe[data := now];
      CleanupDedupeIfNeeded(now);
    }

    /** The capped push and the peak counter; the session turns animated. */
    method PushPart(data: string)
      modifies this
      ensures State() == old(State()).(queue := PushCapped(old(queue), data),
                                       peakQueue := Max(old(peakQueue), |PushCapped(old(queue), data)|),
                                       animatedMode := true)
    {
      var q := queue + [data];
      if |q| > QUEUE_CAP {
        q := q[1..];
      }
      queue, peakQueue, animatedMode := q, Max(peakQueue, |q|), true;
    }

    /** `_onReadUniformResource`, the URv1 accumulator. */
    method OnReadUniformResource(ur: string) returns (o: ReadOutcome)
      modifies this
      ensures (State(), o) == LegacyRead(old(State()), env, ur)
    {
      var workload := env.extractWorkload(ur);
      if workload.None? {
        return LegacyRejected;
      }
      var key := workload.value;
      animatedData := Upsert(animatedData, key, ur);
      progress := progress.(total := key.total, have := |animatedData|);
      if |animatedData| != key.total {
        return LegacyStored;
      }
      var payload := env.decodeUR(Values(animatedData));
      if payload.None? {
        return LegacyRejected;
      }
      if env.launchedBy {
        delivered := delivered + [Delivery(LegacyPayload(env, payload.value), useBBQR)];
      }
      o := LegacyCompleted;
    }

    /** The Base43 probe and the plain-text fallback. */
    method ReadSingleShot(data: string, loading: bool) returns (o: ReadOutcome)
      modifies this
      ensures (State(), o) == SingleShotRead(old(State()), env, data, loading)
    {
      var psbt := env.base43Psbt(data);
      if psbt.Some? {
        if env.launchedBy {
          locked, delivered := true, delivered + [Delivery(psbt.value, useBBQR)];
        }
        return Base43Psbt;
      }
      if !loading && env.launchedBy {
        locked, delivered := true, delivered + [Delivery(data, useBBQR)];
      }
      o := PlainText;
    }

    /** `onBarCodeRead` for the decoded string `data` read at time `now`,
        with the screen's `isLoading` state `loading`. */
    method OnBarCodeRead(data: string, now: int, loading: bool) returns (o: ReadOutcome)
      modifies this
      ensures (State(), o) == ReadStep(old(State()), env, data, now, loading)
    {
      if animatedMode {
        var drop := DuplicateBreaker(data, now);
        if drop.Some? {
          return drop.value;
        }
      }
      var h := env.hash(data);
      if Cached(scannedCache, h) {
        return AlreadyScanned;
      }
      scannedCache := scannedCache[h := now];
      if locked {
        return IgnoredLocked;
      }
      match Classify(data) {
        case Animated(bbqr) =>
          if bbqr {
            useBBQR := true;
          }
          o := Enqueue(data, now);
        case BytesPart =>
          o := Enqueue(data, now);
        case LegacyUR =>
          o := OnReadUniformResource(data);
        case SingleShot =>
          o := ReadSingleShot(data, loading);
      }
    }

    /** One pass of the worker's inner for-loop: shift a part, feed it to
        the decoder (created on demand), publish progress, and on completion
        hand the payload over and lock. The result says the loop returned. */
    method FeedNextPart(now: int) returns (done: bool)
      requires |queue| > 0
      modifies this
      ensures (State(), done) == FeedPart(old(State()), env, now)
    {
      var history := ShiftPart();
      var fails, percent, complete, text :=
        env.receiveFails(history), env.percentComplete(history), env.isComplete(history), env.decodedText(history);
      if fails {
        return false;
      }
      ThrottledSetProgress(percent, 100, now);
      if complete {
        Finish(text);
        return true;
      }
      done := false;
    }

    /** `pendingPartsQueueRef.current.shift()` fed to the decoder, which is
        created on demand: the new history of the decoder. */
    method ShiftPart() returns (history: seq<string>)
      requires |queue| > 0
      modifies this
      ensures history == History(old(State())) + [old(queue)[0]]
      ensures State() == old(State()).(queue := old(queue)[1..], decoder := Some(history))
    {
      var part := queue[0];
      history := (if decoder.Some? then decoder.value else []) + [part];
      queue, decoder := queue[1..], Some(history);
    }

    /** The completion block of the worker: drop the decoder, hand the
        payload over and lock when launched by a caller, stop draining. */
    method Finish(text: string)
      modifies this
      ensures State() == (if env.launchedBy then Deliver(old(State()), text).(locked := true)
                          else old(State())).(decoder := None, processing := false)
    {
      if env.launchedBy {
        delivered, locked := delivered + [Delivery(text, useBBQR)], true;
      }
      decoder, processing := None, false;
    }

    /** One iteration of the worker's while-loop, up to its `await`. */
    method DrainBatch(now: int) returns (o: DrainOutcome)
      modifies this
      ensures (State(), o) == DrainStep(old(State()), env, now)
    {
      if |queue| == 0 || locked {
        processing := false;
        return Finished;
      }
      var batchCount := Min(BATCH_SIZE, |queue|);
      ghost var s0 := State();
      var i := 0;
      while i < batchCount
        invariant 0 <= i <= batchCount <= |s0.queue|
        invariant batchCount == Min(BATCH_SIZE, |s0.queue|)
        invariant (State(), false) == FeedBatch(s0, env, now, i)
        invariant |queue| == |s0.queue| - i
      {
        ScanQRCodeProps.FeedBatchSnoc(s0, env, now, i);
        var done := FeedNextPart(now);
        if done {
          return Completed;
        }
        i := i + 1;
      }
      o := Yielded;
    }

    /** A scheduled `workerLoop` invocation, up to its first `await`. */
    method WorkerLoop(now: int) returns (o: DrainOutcome)
      modifies this
      ensures (State(), o) == WorkerStart(old(State()), env, now)
    {
      if processing {
        return AlreadyRunning;
      }
      processing := true;
      o := DrainBatch(now);
    }

    /** The cleanup that runs when the screen is left. */
    method Unmount()
      modifies this
      ensures State() == ScanQRCode.Unmount(old(State()))
    {
      scannedCache, decoder, useBBQR, animatedData := map[], None, false, [];
      progress := progress.(have := 0, total := 0);
    }
  }
}
