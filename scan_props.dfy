/** What the scan-ingestion state machine guarantees, stated over the
    transitions of module ScanQRCode and proved for every choice of the
    foreign capabilities in `Env`. */
module ScanQRCodeProps {
  import opened Text
  import opened ScanQRCode

  // ---------------------------------------------------------------------
  // Queue bound and drop-oldest policy

  /** The queue never holds more than QUEUE_CAP parts, and the recorded peak
      is at least the current length and at most the cap. */
  ghost predicate QueueInv(s: Session)
  {
    |s.queue| <= s.peakQueue <= QUEUE_CAP
  }

  /** The parts arriving, in order, pushed one by one with drop-oldest. */
  function PushAll(q: seq<string>, xs: seq<string>): seq<string>
    decreases |xs|
  {
    if xs == [] then q else PushAll(PushCapped(q, xs[0]), xs[1..])
  }

  /** The last `n` elements of `s` (all of them when there are fewer). */
  function Newest(s: seq<string>, n: nat): (r: seq<string>)
  {
    if |s| <= n then s else s[|s| - n..]
  }

  lemma NewestDropsHead(a: seq<string>, n: nat)
    requires |a| > n
    ensures Newest(a[1..], n) == Newest(a, n)
  {
  }

  /** However many parts arrive while no drain runs, the queue holds exactly
      the QUEUE_CAP most recent of the old contents followed by the arrivals,
      in arrival order. */
  lemma {:induction false} PushAllKeepsNewest(q: seq<string>, xs: seq<string>)
    requires |q| <= QUEUE_CAP
    ensures PushAll(q, xs) == Newest(q + xs, QUEUE_CAP)
    ensures |PushAll(q, xs)| <= QUEUE_CAP
    decreases |xs|
  {
    if xs != [] {
      var p := PushCapped(q, xs[0]);
      PushAllKeepsNewest(p, xs[1..]);
      assert q + xs == (q + [xs[0]]) + xs[1..];
      if |q| >= QUEUE_CAP {
        var a := q + [xs[0]] + xs[1..];
        assert p + xs[1..] == a[1..];
        NewestDropsHead(a, QUEUE_CAP);
      } else {
        assert p + xs[1..] == q + xs;
      }
    }
  }

  lemma InitialInvariants(animated: bool, env: Env)
    ensures QueueInv(Initial(animated))
    ensures CacheCovers(Initial(animated), env)
    ensures BreakerInv(Initial(animated).breaker)
    ensures UniqueKeys(Initial(animated).animatedData)
  {
  }

  /** Every read keeps the queue bound; a queued part is appended last (so
      the newest arrival is always kept), and on overflow only the head goes. */
  lemma ReadKeepsQueueBound(s: Session, env: Env, data: string, now: int, loading: bool)
    requires QueueInv(s)
    ensures QueueInv(ReadStep(s, env, data, now, loading).0)
    ensures var (t, o) := ReadStep(s, env, data, now, loading);
      if o == Enqueued then t.queue == PushCapped(s.queue, data) && t.queue[|t.queue| - 1] == data
      else t.queue == s.queue
  {
    var (b, drop) := BreakerStage(s, data, now);
    if drop.None? && !Cached(b.scannedCache, env.hash(data)) {
      var c := b.(scannedCache := b.scannedCache[env.hash(data) := now]);
      if !c.locked {
        RouteKeepsQueueBound(c, env, Classify(data), data, now, loading);
      }
    }
  }

  lemma RouteKeepsQueueBound(s: Session, env: Env, k: FragmentKind, data: string, now: int, loading: bool)
    requires QueueInv(s)
    ensures QueueInv(Route(s, env, k, data, now, loading).0)
    ensures var (t, o) := Route(s, env, k, data, now, loading);
      if o == Enqueued then t.queue == PushCapped(s.queue, data) else t.queue == s.queue
  {
    match k
    case Animated(bbqr) => EnqueueKeepsQueueBound(s.(useBBQR := s.useBBQR || bbqr), data, now);
    case BytesPart => EnqueueKeepsQueueBound(s, data, now);
    case LegacyUR =>
    case SingleShot =>
  }

  /** The multi-part branch pushes with drop-oldest or leaves the queue alone. */
  lemma EnqueueKeepsQueueBound(s: Session, data: string, now: int)
    requires QueueInv(s)
    ensures QueueInv(EnqueuePart(s, data, now).0)
    ensures var (t, o) := EnqueuePart(s, data, now);
      if o == Enqueued then t.queue == PushCapped(s.queue, data) else t.queue == s.queue
  {
  }

  // ---------------------------------------------------------------------
  // Worker drain

  /** The inner for-loop shifts between one and `k` parts off the front of
      the queue (none when `k` is 0), leaving the rest in place. */
  lemma {:induction false} FeedBatchShifts(s: Session, env: Env, now: int, k: nat)
    requires k <= |s.queue|
    ensures var t := FeedBatch(s, env, now, k).0;
      && |s.queue| - k <= |t.queue| <= |s.queue|
      && (k > 0 ==> |t.queue| < |s.queue|)
      && t.queue == s.queue[|s.queue| - |t.queue|..]
    decreases k
  {
    if k > 0 {
      var (t1, done1) := FeedPart(s, env, now);
      if !done1 {
        FeedBatchShifts(t1, env, now, k - 1);
      }
    }
  }

  /** A batch of `k + 1` parts that did not finish within its first `k`
      parts is those `k` followed by one more pass: the for-loop's step. */
  lemma {:induction false} FeedBatchSnoc(s: Session, env: Env, now: int, k: nat)
    requires k < |s.queue| && !FeedBatch(s, env, now, k).1
    ensures |FeedBatch(s, env, now, k).0.queue| == |s.queue| - k
    ensures FeedBatch(s, env, now, k + 1) == FeedPart(FeedBatch(s, env, now, k).0, env, now)
    decreases k
  {
    if k > 0 {
      var (t, done) := FeedPart(s, env, now);
      FeedBatchSnoc(t, env, now, k - 1);
    }
  }

  /** The parts of a batch go to the decoder in queue order, a failing part
      is skipped and the batch goes on, and completion stops the batch at
      once: the decoder is discarded, the payload is handed over and the
      session locked (when a screen launched the scan), and the rest of the
      queue stays where it is. With `j` the number of parts shifted: */
  lemma {:induction false} FeedBatchFifo(s: Session, env: Env, now: int, k: nat)
    requires k <= |s.queue|
    ensures var (t, done) := FeedBatch(s, env, now, k);
      BatchPost(s, t, done, env, k, |s.queue| - |t.queue|)
    decreases k
  {
    if k > 0 {
      FeedPartFacts(s, env, now);
      var (t1, done1) := FeedPart(s, env, now);
      if !done1 {
        var (t, done) := FeedBatch(t1, env, now, k - 1);
        assert FeedBatch(s, env, now, k) == (t, done);
        FeedBatchFifo(t1, env, now, k - 1);
        FeedBatchShifts(t1, env, now, k - 1);
        BatchPostStep(s, t1, t, done, env, k);
      } else {
        assert FeedBatch(s, env, now, k) == (t1, true);
        BatchPostDone(s, t1, env, k);
      }
    }
  }

  /** A part that completed the decoder ends the batch after one shift. */
  lemma BatchPostDone(s: Session, t1: Session, env: Env, k: nat)
    requires k > 0 && |s.queue| > 0 && t1.queue == s.queue[1..]
    requires var h := History(s) + [s.queue[0]];
      && t1.decoder == None && !t1.processing && !env.receiveFails(h) && env.isComplete(h)
      && t1.locked == (s.locked || env.launchedBy)
      && t1.delivered == if env.launchedBy
                         then s.delivered + [Delivery(env.decodedText(h), s.useBBQR)]
                         else s.delivered
    ensures BatchPost(s, t1, true, env, k, |s.queue| - |t1.queue|)
  {
    assert s.queue[..1] == [s.queue[0]];
  }

  /** A part that went into the decoder without completing it extends the
      facts about the rest of the batch to the whole batch. */
  lemma BatchPostStep(s: Session, t1: Session, t: Session, done: bool, env: Env, k: nat)
    requires k > 0 && |s.queue| > 0 && t1.queue == s.queue[1..]
    requires t1.decoder == Some(History(s) + [s.queue[0]])
    requires t1.delivered == s.delivered && t1.locked == s.locked
    requires t1.processing == s.processing && t1.useBBQR == s.useBBQR
    requires BatchPost(t1, t, done, env, k - 1, |t1.queue| - |t.queue|)
    ensures BatchPost(s, t, done, env, k, |s.queue| - |t.queue|)
  {
    var j1 := |t1.queue| - |t.queue|;
    assert s.queue[..1 + j1] == [s.queue[0]] + t1.queue[..j1];
    assert History(t1) == History(s) + [s.queue[0]];
    assert History(t1) + t1.queue[..j1] == History(s) + s.queue[..1 + j1];
    if !done && k == 1 {
      assert j1 == 0 && t.decoder == t1.decoder;
      assert s.queue[..1] == [s.queue[0]];
      assert t.decoder == Some(History(s) + s.queue[..1]);
    }
  }

  /** The facts FeedBatchFifo states about a batch of `k` parts from `s` that
      ended in `t` after shifting `j` parts. */
  ghost predicate BatchPost(s: Session, t: Session, done: bool, env: Env, k: nat, j: int)
  {
    0 <= j <= |s.queue| && j <= k &&
    var h := History(s) + s.queue[..j];
    && (!done ==>
          (j == k && t.delivered == s.delivered && t.locked == s.locked
           && t.processing == s.processing && t.decoder == (if k > 0 then Some(h) else s.decoder)))
    && (done ==>
          (j >= 1 && t.decoder == None && !t.processing
           && !env.receiveFails(h) && env.isComplete(h)
           && t.locked == (s.locked || env.launchedBy)
           && t.delivered == if env.launchedBy
                             then s.delivered + [Delivery(env.decodedText(h), s.useBBQR)]
                             else s.delivered))
  }

  /** One pass: a part that completes the decoder ends the batch with the
      decoder discarded and the payload handed over; any other part stays in
      the decoder's history. */
  lemma FeedPartFacts(s: Session, env: Env, now: int)
    requires |s.queue| > 0
    ensures var (t, done) := FeedPart(s, env, now);
      var h := History(s) + [s.queue[0]];
      && (!done ==>
            (t.decoder == Some(h) && t.delivered == s.delivered && t.locked == s.locked
             && t.processing == s.processing))
      && (done ==>
            (t.decoder == None && !t.processing && !env.receiveFails(h) && env.isComplete(h)
             && t.locked == (s.locked || env.launchedBy)
             && t.delivered == if env.launchedBy
                               then s.delivered + [Delivery(env.decodedText(h), s.useBBQR)]
                               else s.delivered))
  {
  }

  /** A malformed part (receivePart throws) is swallowed: it leaves the queue,
      goes into the decoder's history, publishes no progress and does not end
      the loop. */
  lemma MalformedPartSwallowed(s: Session, env: Env, now: int)
    requires |s.queue| > 0
    requires env.receiveFails(History(s) + [s.queue[0]])
    ensures var (t, done) := FeedPart(s, env, now);
      !done && t.queue == s.queue[1..] && t.decoder == Some(History(s) + [s.queue[0]])
      && t.progress == s.progress
      && t.delivered == s.delivered && t.locked == s.locked
  {
  }

  /** One step of the while-loop handles min(2, length) parts in FIFO order
      unless the decoder completes first; a locked session or an empty queue
      runs no batch and ends the drain. */
  lemma DrainStepBatch(s: Session, env: Env, now: int)
    ensures DrainPost(s, DrainStep(s, env, now).0, DrainStep(s, env, now).1, env)
  {
    if |s.queue| > 0 && !s.locked {
      var k := Min(BATCH_SIZE, |s.queue|);
      FeedBatchFifo(s, env, now, k);
      FeedBatchShifts(s, env, now, k);
      var (t, done) := FeedBatch(s, env, now, k);
      assert DrainStep(s, env, now) == (t, if done then Completed else Yielded);
      DrainRunPost(s, t, done, env, k);
    } else {
      assert DrainStep(s, env, now) == (s.(processing := false), Finished);
    }
  }

  /** What DrainStepBatch states about an iteration that took `s` to `t`
      with outcome `o`, with `j` the number of parts shifted. */
  ghost predicate DrainPost(s: Session, t: Session, o: DrainOutcome, env: Env)
  {
    var j := |s.queue| - |t.queue|;
    && 0 <= j <= |s.queue| && t.queue == s.queue[j..]
    && (s.locked || s.queue == [] <==> o == Finished)
    && (o == Finished ==> t == s.(processing := false))
    && (o == Yielded ==>
          (j == Min(BATCH_SIZE, |s.queue|)
           && t.decoder == Some(History(s) + s.queue[..j])
           && t.processing == s.processing && t.delivered == s.delivered))
    && (o == Completed ==>
          var h := History(s) + s.queue[..j];
          && 1 <= j <= Min(BATCH_SIZE, |s.queue|) && t.decoder == None && !t.processing
          && !env.receiveFails(h) && env.isComplete(h) && t.locked == env.launchedBy
          && t.delivered == if env.launchedBy
                            then s.delivered + [Delivery(env.decodedText(h), s.useBBQR)]
                            else s.delivered)
  }

  /** The facts about the batch of an unlocked, non-empty session are the
      facts about the iteration that ran it. */
  lemma DrainRunPost(s: Session, t: Session, done: bool, env: Env, k: nat)
    requires |s.queue| > 0 && !s.locked && k == Min(BATCH_SIZE, |s.queue|)
    requires BatchPost(s, t, done, env, k, |s.queue| - |t.queue|)
    requires t.queue == s.queue[|s.queue| - |t.queue|..]
    ensures DrainPost(s, t, if done then Completed else Yielded, env)
  {
  }

  /** At most one drain is active: the flag `processing` is set exactly while
      a started drain has yielded, and an invocation that finds it set does
      nothing at all. */
  lemma SingleDrain(s: Session, env: Env, now: int)
    ensures s.processing ==> WorkerStart(s, env, now) == (s, AlreadyRunning)
    ensures var (t, o) := WorkerStart(s, env, now);
      !s.processing ==> (t.processing <==> o == Yielded)
    ensures var (t, o) := DrainStep(s, env, now);
      s.processing ==> (t.processing <==> o == Yielded)
  {
    DrainStepBatch(s, env, now);
    DrainStepBatch(s.(processing := true), env, now);
  }

  /** Draining never grows the queue, so the bound survives it. */
  lemma DrainKeepsQueueBound(s: Session, env: Env, now: int)
    requires QueueInv(s)
    ensures QueueInv(DrainStep(s, env, now).0)
    ensures QueueInv(WorkerStart(s, env, now).0)
  {
    DrainStepBatch(s, env, now);
    DrainStepBatch(s.(processing := true), env, now);
  }

  /** Progress reaches the screen only when more than 200 ms have passed
      since the last publication, and a publication records its time. */
  lemma ProgressThrottled(p: Progress, have: int, total: int, now: int)
    ensures var t := ThrottleProgress(p, have, total, now);
      && (now - p.lastUpdate > PROGRESS_THROTTLE_MS ==> t == Progress(now, have, total))
      && (now - p.lastUpdate <= PROGRESS_THROTTLE_MS ==> t == p)
  {
  }

  /** One step publishes throttled progress at most at its own time, and
      only when more than 200 ms have passed since the previous publication. */
  ghost predicate ThrottledStep(a: Session, b: Session, now: int)
  {
    b.progress.lastUpdate == a.progress.lastUpdate
    || (b.progress.lastUpdate == now && now - a.progress.lastUpdate > PROGRESS_THROTTLE_MS)
  }

  /** All parts of one batch are fed at the same time, so a batch publishes
      at most once. */
  lemma {:induction false} FeedBatchThrottles(s: Session, env: Env, now: int, k: nat)
    requires k <= |s.queue|
    ensures ThrottledStep(s, FeedBatch(s, env, now, k).0, now)
    decreases k
  {
    if k > 0 {
      var (t, done) := FeedPart(s, env, now);
      assert ThrottledStep(s, t, now);
      if !done {
        FeedBatchThrottles(t, env, now, k - 1);
      }
    }
  }

  lemma DrainThrottles(s: Session, env: Env, now: int)
    ensures ThrottledStep(s, DrainStep(s, env, now).0, now)
  {
    if |s.queue| > 0 && !s.locked {
      var k := Min(BATCH_SIZE, |s.queue|);
      FeedBatchThrottles(s, env, now, k);
      assert DrainStep(s, env, now).0 == FeedBatch(s, env, now, k).0;
    }
  }

  lemma StartThrottles(s: Session, env: Env, now: int)
    ensures ThrottledStep(s, WorkerStart(s, env, now).0, now)
  {
    if !s.processing {
      var p := s.(processing := true);
      DrainThrottles(p, env, now);
      assert p.progress == s.progress;
    }
  }

  lemma StepThrottles(s: Session, env: Env, e: Event)
    ensures ThrottledStep(s, Apply(s, env, e), e.now)
  {
    match e
    case Scan(data, now, loading) =>
    case Start(now) => StartThrottles(s, env, now);
    case Resume(now) => DrainThrottles(s, env, now);
  }

  /** Over any interleaving of reads and drain steps, the time of the last
      progress publication changes only to the time of the step that changes
      it, and only when more than 200 ms have passed since the previous one:
      publications are more than 200 ms apart. */
  lemma PublicationsSpaced(s: Session, env: Env, evs: seq<Event>)
    ensures forall i :: 0 <= i < |evs| ==>
      ThrottledStep(Run(s, env, evs[..i]), Run(s, env, evs[..i + 1]), evs[i].now)
  {
    forall i | 0 <= i < |evs|
      ensures ThrottledStep(Run(s, env, evs[..i]), Run(s, env, evs[..i + 1]), evs[i].now)
    {
      assert evs[..i + 1] == evs[..i] + [evs[i]];
      RunSnoc(s, env, evs[..i], evs[i]);
      StepThrottles(Run(s, env, evs[..i]), env, evs[i]);
    }
  }

  // ---------------------------------------------------------------------
  // Lock and at-most-once delivery

  /** The outcomes that stop a fragment before the lock check. */
  predicate StoppedEarly(o: ReadOutcome)
  {
    BreakerDrop(o) || o.AlreadyScanned? || o.IgnoredLocked?
  }

  /** The outcomes of the duplicate breaker. */
  predicate BreakerDrop(o: ReadOutcome)
  {
    o.DroppedCooldown? || o.DroppedDuplicateWindow? || o.DroppedRepeat? || o.CooldownOpened?
  }

  predicate LegacyOutcome(o: ReadOutcome)
  {
    o.LegacyRejected? || o.LegacyStored? || o.LegacyCompleted?
  }

  /** A locked session neither queues nor delivers nor accumulates. */
  lemma LockedReadInert(s: Session, env: Env, data: string, now: int, loading: bool)
    requires s.locked
    ensures var (t, o) := ReadStep(s, env, data, now, loading);
      StoppedEarly(o) && t.locked && t.queue == s.queue && t.delivered == s.delivered
      && t.dedupe == s.dedupe && t.animatedData == s.animatedData && t.useBBQR == s.useBBQR
  {
  }

  /** A locked session runs no further batch: the drain ends untouched. */
  lemma LockedDrainInert(s: Session, env: Env, now: int)
    requires s.locked
    ensures DrainStep(s, env, now) == (s.(processing := false), Finished)
  {
  }

  /** Every read that hands over a payload hands over exactly one, and locks
      the session unless it was a URv1 completion, which does not lock. */
  lemma ReadDeliveryLocks(s: Session, env: Env, data: string, now: int, loading: bool)
    ensures var (t, o) := ReadStep(s, env, data, now, loading);
      && (s.locked ==> t.locked)
      && (t.delivered == s.delivered
          || (|t.delivered| == |s.delivered| + 1 && t.delivered[..|s.delivered|] == s.delivered
              && env.launchedBy && (t.locked || o == LegacyCompleted)))
      && (o == LegacyCompleted ==> t.locked == s.locked)
      && ((o.Base43Psbt? || o.PlainText?) && t.delivered != s.delivered ==> t.locked)
  {
    var (b, drop) := BreakerStage(s, data, now);
    if drop.None? && !Cached(b.scannedCache, env.hash(data)) {
      var c := b.(scannedCache := b.scannedCache[env.hash(data) := now]);
      if !c.locked {
        RouteDeliveryLocks(c, env, Classify(data), data, now, loading);
      }
    }
  }

  lemma RouteDeliveryLocks(s: Session, env: Env, k: FragmentKind, data: string, now: int, loading: bool)
    ensures var (t, o) := Route(s, env, k, data, now, loading);
      && (s.locked ==> t.locked)
      && (t.delivered == s.delivered
          || (|t.delivered| == |s.delivered| + 1 && t.delivered[..|s.delivered|] == s.delivered
              && env.launchedBy && (t.locked || o == LegacyCompleted)))
      && (o == LegacyCompleted ==> t.locked == s.locked)
      && ((o.Base43Psbt? || o.PlainText?) && t.delivered != s.delivered ==> t.locked)
  {
    match k
    case Animated(_) =>
    case BytesPart =>
    case LegacyUR => LegacyDeliversOnce(s, env, data);
    case SingleShot => SingleShotLocks(s, env, data, loading);
  }

  /** A URv1 part hands over at most one payload, and never locks. */
  lemma LegacyDeliversOnce(s: Session, env: Env, ur: string)
    ensures var (t, o) := LegacyRead(s, env, ur);
      && t.locked == s.locked
      && (t.delivered == s.delivered
          || (|t.delivered| == |s.delivered| + 1 && t.delivered[..|s.delivered|] == s.delivered
              && env.launchedBy && o == LegacyCompleted))
  {
    var (t, o) := LegacyRead(s, env, ur);
    if t.delivered != s.delivered {
      assert t.delivered[..|s.delivered|] == s.delivered;
    }
  }

  /** A single-shot code hands over at most one payload, and locks when it does. */
  lemma SingleShotLocks(s: Session, env: Env, data: string, loading: bool)
    ensures var (t, o) := SingleShotRead(s, env, data, loading);
      && (s.locked ==> t.locked)
      && (t.delivered == s.delivered
          || (|t.delivered| == |s.delivered| + 1 && t.delivered[..|s.delivered|] == s.delivered
              && env.launchedBy && t.locked))
  {
    var (t, o) := SingleShotRead(s, env, data, loading);
    if t.delivered != s.delivered {
      assert t.delivered[..|s.delivered|] == s.delivered;
    }
  }

  /** What a single-shot code hands over: the PSBT decoded from base43 when
      there is one, otherwise the raw text unless the session is loading,
      and in either case only when a caller launched the scan, locking the
      session; nothing else of the session changes. */
  lemma SingleShotDelivers(s: Session, env: Env, data: string, loading: bool)
    ensures var t := SingleShotRead(s, env, data, loading).0;
      && (env.base43Psbt(data).Some? ==>
            t == (if env.launchedBy
                  then s.(locked := true, delivered := s.delivered + [Delivery(env.base43Psbt(data).value, s.useBBQR)])
                  else s))
      && (env.base43Psbt(data).None? && !loading && env.launchedBy ==>
            t == s.(locked := true, delivered := s.delivered + [Delivery(data, s.useBBQR)]))
      && (env.base43Psbt(data).None? && (loading || !env.launchedBy) ==> t == s)
  {
  }

  /** Every drain step that hands over a payload hands over exactly one and
      locks the session. */
  lemma DrainDeliveryLocks(s: Session, env: Env, now: int)
    ensures var (t, o) := DrainStep(s, env, now);
      && (s.locked ==> t.locked)
      && (t.delivered != s.delivered ==>
            (o == Completed && t.locked && |t.delivered| == |s.delivered| + 1
             && t.delivered[..|s.delivered|] == s.delivered))
  {
    DrainStepBatch(s, env, now);
    var (t, o) := DrainStep(s, env, now);
    if t.delivered != s.delivered {
      assert t.delivered[..|s.delivered|] == s.delivered;
    }
  }

  /** The screen's events: a camera or backdoor read, a scheduled
      `workerLoop` invocation, and the resumption of a yielded drain. */
  datatype Event = Scan(data: string, now: int, loading: bool) | Start(now: int) | Resume(now: int)

  function Apply(s: Session, env: Env, e: Event): Session
  {
    match e
    case Scan(data, now, loading) => ReadStep(s, env, data, now, loading).0
    case Start(now) => WorkerStart(s, env, now).0
    case Resume(now) => if s.processing then DrainStep(s, env, now).0 else s
  }

  function Run(s: Session, env: Env, evs: seq<Event>): Session
    decreases |evs|
  {
    if evs == [] then s else Run(Apply(s, env, evs[0]), env, evs[1..])
  }

  lemma {:induction false} RunSnoc(s: Session, env: Env, evs: seq<Event>, e: Event)
    ensures Run(s, env, evs + [e]) == Apply(Run(s, env, evs), env, e)
    decreases |evs|
  {
    if evs == [] {
      assert [] + [e] == [e];
    } else {
      assert (evs + [e])[1..] == evs[1..] + [e];
      RunSnoc(Apply(s, env, evs[0]), env, evs[1..], e);
    }
  }

  predicate NoLegacyScan(evs: seq<Event>)
  {
    forall i :: 0 <= i < |evs| ==> evs[i].Scan? ==> !Classify(evs[i].data).LegacyUR?
  }

  /** At most one payload was handed over, and then the session is locked. */
  predicate DeliveredOnce(s: Session)
  {
    |s.delivered| == 0 || (|s.delivered| == 1 && s.locked)
  }

  /** At most one payload per session: as long as no URv1 fragment is read,
      any interleaving of reads and drain steps hands over at most one
      payload, and a handed-over payload leaves the session locked. */
  lemma {:induction false} AtMostOnceDelivery(s: Session, env: Env, evs: seq<Event>)
    requires DeliveredOnce(s)
    requires NoLegacyScan(evs)
    ensures DeliveredOnce(Run(s, env, evs))
    decreases |evs|
  {
    if evs != [] {
      var e := evs[0];
      if e.Scan? {
        ReadKeepsDeliveredOnce(s, env, e.data, e.now, e.loading);
      } else if e.Start? {
        DrainDeliveryLocks(s.(processing := true), env, e.now);
      } else {
        DrainDeliveryLocks(s, env, e.now);
      }
      assert NoLegacyScan(evs[1..]) by {
        forall i | 0 <= i < |evs[1..]| ensures evs[1..][i].Scan? ==> !Classify(evs[1..][i].data).LegacyUR? {
          assert evs[1..][i] == evs[i + 1];
        }
      }
      AtMostOnceDelivery(Apply(s, env, e), env, evs[1..]);
    }
  }

  /** One read of a fragment that is not URv1 keeps DeliveredOnce. */
  lemma ReadKeepsDeliveredOnce(s: Session, env: Env, data: string, now: int, loading: bool)
    requires DeliveredOnce(s) && !Classify(data).LegacyUR?
    ensures DeliveredOnce(ReadStep(s, env, data, now, loading).0)
  {
    ReadDeliveryLocks(s, env, data, now, loading);
    var (t, o) := ReadStep(s, env, data, now, loading);
    if o == LegacyCompleted {
      RouteByKind(s, env, data, now, loading);
    }
  }

  // ---------------------------------------------------------------------
  // Permanent cache and the TTL dedupe it shadows

  /** A fragment whose hash is cached stops before classification: nothing
      but the breaker's own fields can change. */
  lemma CachedFragmentStops(s: Session, env: Env, data: string, now: int, loading: bool)
    requires Cached(s.scannedCache, env.hash(data))
    ensures var (t, o) := ReadStep(s, env, data, now, loading);
      (BreakerDrop(o) || o.AlreadyScanned?)
      && t.scannedCache == s.scannedCache && t.queue == s.queue && t.dedupe == s.dedupe
      && t.delivered == s.delivered && t.locked == s.locked && t.useBBQR == s.useBBQR
      && t.animatedData == s.animatedData
  {
  }

  /** Within a session every key of the dedupe map has its hash cached. */
  ghost predicate CacheCovers(s: Session, env: Env)
  {
    forall k :: k in s.dedupe ==> Cached(s.scannedCache, env.hash(k))
  }

  /** A read at a non-zero clock keeps the cover: the hash is cached with the
      same time that the dedupe map records. */
  lemma ReadKeepsCacheCover(s: Session, env: Env, data: string, now: int, loading: bool)
    requires CacheCovers(s, env) && now != 0
    ensures CacheCovers(ReadStep(s, env, data, now, loading).0, env)
  {
    var (b, drop) := BreakerStage(s, data, now);
    if drop.None? && !Cached(b.scannedCache, env.hash(data)) {
      var c := b.(scannedCache := b.scannedCache[env.hash(data) := now]);
      assert CacheCovers(c, env);
      if !c.locked {
        RouteKeepsCacheCover(c, env, Classify(data), data, now, loading);
      }
    }
  }

  /** Past the cache stage the fragment's own hash is cached, so the key the
      multi-part branch may add to the dedupe map is covered. */
  lemma RouteKeepsCacheCover(s: Session, env: Env, k: FragmentKind, data: string, now: int, loading: bool)
    requires CacheCovers(s, env) && Cached(s.scannedCache, env.hash(data))
    ensures CacheCovers(Route(s, env, k, data, now, loading).0, env)
  {
    match k
    case Animated(bbqr) => EnqueueKeepsCacheCover(s.(useBBQR := s.useBBQR || bbqr), env, data, now);
    case BytesPart => EnqueueKeepsCacheCover(s, env, data, now);
    case LegacyUR =>
    case SingleShot =>
  }

  lemma EnqueueKeepsCacheCover(s: Session, env: Env, data: string, now: int)
    requires CacheCovers(s, env) && Cached(s.scannedCache, env.hash(data))
    ensures CacheCovers(EnqueuePart(s, data, now).0, env)
  {
    var (t, o) := EnqueuePart(s, data, now);
    if o == Enqueued {
      assert forall k :: k in t.dedupe ==> k in s.dedupe || k == data;
    }
  }

  lemma DrainKeepsCacheCover(s: Session, env: Env, now: int)
    requires CacheCovers(s, env)
    ensures CacheCovers(DrainStep(s, env, now).0, env)
    ensures CacheCovers(WorkerStart(s, env, now).0, env)
  {
  }

  /** The TTL check can never reject inside a session: a fragment that reaches
      it is not a key of the dedupe map (it would have been stopped by the
      cache), so its last time counts as 0, and a wall clock past 2000 ms is
      never within the TTL of 0. */
  lemma TtlNeverRejects(s: Session, env: Env, data: string, now: int, loading: bool)
    requires CacheCovers(s, env) && now >= DEDUPE_TTL_MS
    ensures ReadStep(s, env, data, now, loading).1 != DroppedRecent
  {
    var (b, drop) := BreakerStage(s, data, now);
    if drop.None? && !Cached(b.scannedCache, env.hash(data)) {
      assert data !in s.dedupe;
    }
  }

  /** The TTL rule on its own: a multi-part fragment that reaches it is
      rejected exactly when less than 2000 ms passed since its key was last
      set (an absent key counting as set at 0); otherwise its time is stored
      and survives the sweep. */
  lemma TtlDedupe(s: Session, data: string, now: int)
    ensures var (t, o) := EnqueuePart(s, data, now);
      && (o == DroppedRecent <==> now - LastSeen(s.dedupe, data) < DEDUPE_TTL_MS)
      && (o == DroppedRecent ==> t == s)
      && (o == Enqueued ==> data in t.dedupe && t.dedupe[data] == now)
  {
  }

  /** The sweep runs only above 200 entries and then deletes exactly the
      entries older than the TTL, leaving the others as they were. */
  lemma CleanupDedupeExact(m: map<string, int>, now: int)
    ensures |m| <= DEDUPE_SWEEP_SIZE ==> CleanupDedupe(m, now) == m
    ensures |m| > DEDUPE_SWEEP_SIZE ==>
      forall k :: (k in CleanupDedupe(m, now) <==> k in m && !(now - m[k] > DEDUPE_TTL_MS))
    ensures forall k :: k in CleanupDedupe(m, now) ==> k in m && CleanupDedupe(m, now)[k] == m[k]
  {
  }

  // ---------------------------------------------------------------------
  // Duplicate breaker

  /** A raw fragment seen before is dropped, with nothing changed, while less
      than 1000 ms have passed since the last acceptance. */
  lemma DuplicateWindowDrops(s: Session, env: Env, raw: string, now: int, loading: bool)
    requires s.animatedMode && raw in s.breaker.uniqueParts
    requires s.breaker.lastAcceptedAt != 0 && now - s.breaker.lastAcceptedAt < DUPLICATE_WINDOW_TTL
    ensures var (t, o) := ReadStep(s, env, raw, now, loading);
      t == s && (o.DroppedCooldown? || o.DroppedDuplicateWindow?)
  {
  }

  /** During an active cooldown the last accepted raw fragment is dropped
      with nothing changed. */
  lemma CooldownDrops(s: Session, env: Env, raw: string, now: int, loading: bool)
    requires s.animatedMode && s.breaker.cooldownUntil != 0 && now < s.breaker.cooldownUntil
    requires s.breaker.lastAcceptedRaw == Some(raw)
    ensures ReadStep(s, env, raw, now, loading) == (s, DroppedCooldown)
  {
  }

  /** Every fragment the breaker accepts is remembered as the last accepted
      one, at this time, and in the set of seen parts. */
  lemma BreakerRecordsAcceptance(b: BreakerState, raw: string, now: int)
    requires Breaker(b, raw, now).1.None?
    ensures var t := Breaker(b, raw, now).0;
      t.lastAcceptedRaw == Some(raw) && t.lastAcceptedAt == now && raw in t.uniqueParts
  {
  }

  /** The breaker state reachable with a clock that never reads 0: the last
      accepted raw fragment is in the seen set with a non-zero time, and no
      cooldown was ever opened. */
  ghost predicate BreakerInv(b: BreakerState)
  {
    && (b.lastAcceptedRaw.Some? ==> b.lastAcceptedRaw.value in b.uniqueParts && b.lastAcceptedAt != 0)
    && b.cooldownUntil == 0
  }

  lemma ReadKeepsBreakerInv(s: Session, env: Env, data: string, now: int, loading: bool)
    requires BreakerInv(s.breaker) && now != 0
    ensures BreakerInv(ReadStep(s, env, data, now, loading).0.breaker)
  {
    ReadBreakerStage(s, env, data, now, loading);
    if s.animatedMode {
      BreakerKeepsInv(s.breaker, data, now);
    }
  }

  /** A breaker step at a non-zero clock keeps the invariant. */
  lemma BreakerKeepsInv(b: BreakerState, raw: string, now: int)
    requires BreakerInv(b) && now != 0
    ensures BreakerInv(Breaker(b, raw, now).0)
  {
  }

  /** Only the breaker stage touches the breaker's state or yields its
      outcomes. */
  lemma ReadBreakerStage(s: Session, env: Env, data: string, now: int, loading: bool)
    ensures var (t, o) := ReadStep(s, env, data, now, loading);
      var (b, drop) := BreakerStage(s, data, now);
      && t.breaker == b.breaker
      && (BreakerDrop(o) <==> drop.Some?)
      && (drop.Some? ==> o == drop.value)
  {
    var (b, drop) := BreakerStage(s, data, now);
    if drop.None? && !Cached(b.scannedCache, env.hash(data)) {
      var c := b.(scannedCache := b.scannedCache[env.hash(data) := now]);
      if !c.locked {
        RouteOutcomes(c, env, Classify(data), data, now, loading);
      }
    }
  }

  lemma DrainKeepsBreakerInv(s: Session, env: Env, now: int)
    requires BreakerInv(s.breaker)
    ensures BreakerInv(DrainStep(s, env, now).0.breaker)
    ensures BreakerInv(WorkerStart(s, env, now).0.breaker)
    ensures BreakerInv(Unmount(s).breaker)
  {
  }

  /** The same-raw streak branch is dead with a real clock: an identical raw
      within 200 ms is always caught first by the 1000 ms duplicate window,
      so no quick repeat is counted and no cooldown ever opens. */
  lemma StreakBranchDead(s: Session, env: Env, data: string, now: int, loading: bool)
    requires BreakerInv(s.breaker)
    ensures var o := ReadStep(s, env, data, now, loading).1;
      !o.DroppedCooldown? && !o.DroppedRepeat? && !o.CooldownOpened?
  {
    ReadBreakerStage(s, env, data, now, loading);
    if s.animatedMode {
      BreakerStreakDead(s.breaker, data, now);
    }
  }

  lemma BreakerStreakDead(b: BreakerState, raw: string, now: int)
    requires BreakerInv(b)
    ensures var o := Breaker(b, raw, now).1;
      o.None? || o == Some(DroppedDuplicateWindow)
  {
  }

  /** ... and it is reachable once an acceptance happened at clock 0. */
  lemma StreakReachableFromClockZero(env: Env)
    ensures var s1 := ReadStep(Initial(true), env, "x", 0, false).0;
      var (s2, o2) := ReadStep(s1, env, "x", 100, false);
      var (s3, o3) := ReadStep(s2, env, "x", 150, false);
      var (s4, o4) := ReadStep(s3, env, "x", 300, false);
      o2 == DroppedRepeat && o3 == CooldownOpened && s3.breaker.cooldownUntil == 550 && o4 == DroppedCooldown
  {
    assert !StartsWith(Upper("x"), "UR");
    assert Classify("x") == SingleShot;
  }

  // ---------------------------------------------------------------------
  // Classification

  /** Classification ignores case: the fragment and its upper-cased form go
      the same way. */
  lemma {:induction false} ClassifyIgnoresCase(data: string)
    ensures Classify(Upper(data)) == Classify(data)
  {
    UpperIdempotent(data);
    SplitUpper(data, '/', '-');
  }

  /** A fragment that passes the breaker, is not cached and finds the
      session unlocked reaches the classifier. */
  predicate Reaches(s: Session, env: Env, data: string, now: int)
  {
    BreakerStage(s, data, now).1.None? && !Cached(s.scannedCache, env.hash(data)) && !s.locked
  }

  /** The classifier picks the branch: multi-part fragments go to the TTL
      dedupe and the queue, other UR fragments to the URv1 accumulator, the
      rest to the single-shot branches; anything else stopped early. */
  lemma RouteByKind(s: Session, env: Env, data: string, now: int, loading: bool)
    ensures var (t, o) := ReadStep(s, env, data, now, loading);
      var k := Classify(data);
      && (!Reaches(s, env, data, now) <==> StoppedEarly(o))
      && (Reaches(s, env, data, now) ==>
            && (k.Animated? || k.BytesPart? <==> o.DroppedRecent? || o.Enqueued?)
            && (k.LegacyUR? <==> LegacyOutcome(o))
            && (k.SingleShot? <==> o.Base43Psbt? || o.PlainText?))
  {
    var (b, drop) := BreakerStage(s, data, now);
    if drop.None? && !Cached(b.scannedCache, env.hash(data)) {
      var c := b.(scannedCache := b.scannedCache[env.hash(data) := now]);
      if !c.locked {
        RouteOutcomes(c, env, Classify(data), data, now, loading);
      }
    }
  }

  /** Which outcomes each kind of fragment can end in once classified. */
  lemma RouteOutcomes(s: Session, env: Env, k: FragmentKind, data: string, now: int, loading: bool)
    ensures var (t, o) := Route(s, env, k, data, now, loading);
      && (k.Animated? || k.BytesPart? <==> o.DroppedRecent? || o.Enqueued?)
      && (k.LegacyUR? <==> LegacyOutcome(o))
      && (k.SingleShot? <==> o.Base43Psbt? || o.PlainText?)
      && (k.Animated? ==> t.useBBQR == (s.useBBQR || k.bbqr))
      && (!k.Animated? ==> t.useBBQR == s.useBBQR)
  {
  }

  /** `useBBQRRef` becomes true exactly when a `B$` fragment (in any case)
      reaches the classifier, and is never cleared by a read. */
  lemma BbqrFlag(s: Session, env: Env, data: string, now: int, loading: bool)
    ensures ReadStep(s, env, data, now, loading).0.useBBQR
            == (s.useBBQR || (Reaches(s, env, data, now) && StartsWith(Upper(data), "B$")))
  {
    var (b, drop) := BreakerStage(s, data, now);
    if drop.None? && !Cached(b.scannedCache, env.hash(data)) {
      var c := b.(scannedCache := b.scannedCache[env.hash(data) := now]);
      if !c.locked {
        RouteOutcomes(c, env, Classify(data), data, now, loading);
        assert StartsWith(Upper(data), "B$") <==> (Classify(data).Animated? && Classify(data).bbqr);
      }
    }
  }

  /** A fragment whose first character is neither `u` nor `b` in either
      case is a single-shot code. */
  lemma ClassifyPlain(data: string)
    requires |data| > 0 && UpperChar(data[0]) != 'U' && UpperChar(data[0]) != 'B'
    ensures Classify(data) == SingleShot
  {
    var up := Upper(data);
    assert up[0] == UpperChar(data[0]);
    assert !StartsWith(up, "UR") && !StartsWith(up, "B$");
  }

  /** The BBQR prefix is recognised in any case and sets the BBQR flag. */
  lemma ClassifyBbqr(data: string)
    requires StartsWith(Upper(data), "B$")
    ensures Classify(data) == Animated(true)
  {
  }

  /** A URv2 crypto fragment, in any case, is animated without the BBQR flag. */
  lemma ClassifyCrypto(data: string)
    requires StartsWith(Upper(data), "UR:CRYPTO-ACCOUNT") || StartsWith(Upper(data), "UR:CRYPTO-PSBT")
             || StartsWith(Upper(data), "UR:CRYPTO-OUTPUT")
    ensures Classify(data) == Animated(false)
  {
    assert Upper(data)[0] == 'U';
  }

  /** A `UR:BYTES` fragment with three pieces and a dash in the sequence
      piece is a multi-part bytes fragment. */
  lemma ClassifyBytes(sequence: string, body: string)
    requires '/' !in sequence && '-' in sequence && '/' !in body
    ensures Classify("UR:BYTES" + ['/'] + sequence + ['/'] + body) == BytesPart
  {
    var a := "UR:BYTES" + ['/'] + sequence + ['/'] + body;
    assert a == "UR:BYTES" + ['/'] + (sequence + ['/'] + body);
    SplitFirst("UR:BYTES", sequence + ['/'] + body, '/');
    SplitFirst(sequence, body, '/');
    SplitNoSep(body, '/');
    assert Split(a, '/') == ["UR:BYTES", sequence, body];
    BytesPrefix(a);
  }

  /** With a fourth piece, a `UR:BYTES` fragment goes to the URv1 accumulator. */
  lemma ClassifyLegacyBytes(sequence: string, body: string, rest: string)
    requires '/' !in sequence && '/' !in body
    ensures Classify("UR:BYTES" + ['/'] + sequence + ['/'] + body + ['/'] + rest) == LegacyUR
  {
    var a := "UR:BYTES" + ['/'] + sequence + ['/'] + body + ['/'] + rest;
    assert a == "UR:BYTES" + ['/'] + (sequence + ['/'] + (body + ['/'] + rest));
    SplitFirst("UR:BYTES", sequence + ['/'] + (body + ['/'] + rest), '/');
    SplitFirst(sequence, body + ['/'] + rest, '/');
    SplitFirst(body, rest, '/');
    assert |Split(a, '/')| > 3;
    BytesPrefix(a);
  }

  /** An upper-case `UR:BYTES` prefix passes the upper-casing unchanged and
      fails the animated prefix tests. */
  lemma BytesPrefix(a: string)
    requires StartsWith(a, "UR:BYTES")
    ensures var up := Upper(a);
      && StartsWith(up, "UR:BYTES") && StartsWith(up, "UR") && !StartsWith(up, "B$")
      && !StartsWith(up, "UR:CRYPTO-ACCOUNT") && !StartsWith(up, "UR:CRYPTO-PSBT")
      && !StartsWith(up, "UR:CRYPTO-OUTPUT")
  {
    var up := Upper(a);
    assert up[..8] == "UR:BYTES" by {
      forall i | 0 <= i < 8 ensures up[i] == "UR:BYTES"[i] {
        assert a[i] == "UR:BYTES"[i];
      }
    }
    assert up[3] == 'B';
  }

  /** A plain-text fragment read by a screen launched from another screen is
      handed over verbatim, without the BBQR flag, and locks the session. */
  lemma PlainTextScenario(env: Env, now: int)
    requires env.launchedBy && env.base43Psbt("hello-world").None?
    ensures var (t, o) := ReadStep(Initial(true), env, "hello-world", now, false);
      o == PlainText && t.locked && t.delivered == [Delivery("hello-world", false)]
  {
    ClassifyPlain("hello-world");
  }

  // ---------------------------------------------------------------------
  // URv1 accumulator

  /** Storing a part keeps the keys distinct, adds its key, and adds an entry
      only when the key is new. */
  lemma {:induction false} UpsertKeys(es: seq<LegacyEntry>, key: PartKey, ur: string)
    ensures Keys(Upsert(es, key, ur)) == Keys(es) + {key}
    ensures |Upsert(es, key, ur)| == |es| + (if key in Keys(es) then 0 else 1)
    ensures UniqueKeys(es) ==> UniqueKeys(Upsert(es, key, ur))
    decreases |es|
  {
    if es == [] {
      KeysCons(LegacyEntry(key, ur), []);
      assert [LegacyEntry(key, ur)] + [] == Upsert(es, key, ur);
    } else {
      assert es == [es[0]] + es[1..];
      KeysCons(es[0], es[1..]);
      if UniqueKeys(es) {
        UniqueSplit(es);
      }
      if es[0].key == key {
        var r := [LegacyEntry(key, ur)] + es[1..];
        assert Upsert(es, key, ur) == r;
        KeysCons(LegacyEntry(key, ur), es[1..]);
        if UniqueKeys(es) {
          UniqueJoin(LegacyEntry(key, ur), es[1..]);
        }
      } else {
        var rest := Upsert(es[1..], key, ur);
        UpsertKeys(es[1..], key, ur);
        assert Upsert(es, key, ur) == [es[0]] + rest;
        KeysCons(es[0], rest);
        if UniqueKeys(es) {
          UniqueJoin(es[0], rest);
        }
      }
    }
  }

  /** Distinct keys: the tail has distinct keys and none equals the head's. */
  lemma UniqueSplit(es: seq<LegacyEntry>)
    requires es != [] && UniqueKeys(es)
    ensures UniqueKeys(es[1..]) && es[0].key !in Keys(es[1..])
  {
    var tail := es[1..];
    forall i, j | 0 <= i < j < |tail| ensures tail[i].key != tail[j].key {
      assert tail[i] == es[i + 1] && tail[j] == es[j + 1];
    }
    forall i | 0 <= i < |tail| ensures tail[i].key != es[0].key {
      assert tail[i] == es[i + 1];
    }
  }

  /** A head whose key is new in front of a list with distinct keys keeps
      the keys distinct. */
  lemma UniqueJoin(e: LegacyEntry, rest: seq<LegacyEntry>)
    requires UniqueKeys(rest) && e.key !in Keys(rest)
    ensures UniqueKeys([e] + rest)
  {
    var r := [e] + rest;
    forall i, j | 0 <= i < j < |r| ensures r[i].key != r[j].key {
      assert r[j] == rest[j - 1];
      if i == 0 {
        assert r[j].key in Keys(rest);
      } else {
        assert r[i] == rest[i - 1];
      }
    }
  }

  lemma KeysCons(e: LegacyEntry, rest: seq<LegacyEntry>)
    ensures Keys([e] + rest) == {e.key} + Keys(rest)
  {
    var s := [e] + rest;
    forall k | k in Keys(s) ensures k in {e.key} + Keys(rest) {
      var i :| 0 <= i < |s| && s[i].key == k;
      if i > 0 { assert s[i] == rest[i - 1]; }
    }
    forall k | k in Keys(rest) ensures k in Keys(s) {
      var i :| 0 <= i < |rest| && rest[i].key == k;
      assert s[i + 1] == rest[i];
    }
    assert s[0] == e;
    assert e.key in Keys(s);
  }

  /** With distinct keys the number of entries is the number of keys. */
  lemma {:induction false} DistinctKeysCount(es: seq<LegacyEntry>)
    requires UniqueKeys(es)
    ensures |Keys(es)| == |es|
    decreases |es|
  {
    if es != [] {
      UniqueSplit(es);
      DistinctKeysCount(es[1..]);
      assert es == [es[0]] + es[1..];
      KeysCons(es[0], es[1..]);
    }
  }

  /** The URv1 accumulator counts distinct `index of total` keys: a repeated
      part does not raise `urHave`, a new one raises it by one, and the
      transfer completes exactly when the distinct keys number `total` and
      decodeUR succeeds. */
  lemma LegacyAccumulator(s: Session, env: Env, ur: string, key: PartKey)
    requires UniqueKeys(s.animatedData)
    requires env.extractWorkload(ur) == Some(key)
    ensures var (t, o) := LegacyRead(s, env, ur);
      && UniqueKeys(t.animatedData)
      && t.progress.have == |Keys(t.animatedData)| && t.progress.total == key.total
      && Keys(t.animatedData) == Keys(s.animatedData) + {key}
      && t.progress.have == |s.animatedData| + (if key in Keys(s.animatedData) then 0 else 1)
      && (o == LegacyCompleted <==>
            (|Keys(t.animatedData)| == key.total && env.decodeUR(Values(t.animatedData)).Some?))
      && (o == LegacyStored <==> |Keys(t.animatedData)| != key.total)
  {
    var es := Upsert(s.animatedData, key, ur);
    UpsertKeys(s.animatedData, key, ur);
    DistinctKeysCount(es);
    DistinctKeysCount(s.animatedData);
    LegacyStores(s, env, ur, key);
  }

  /** What a URv1 part with a readable workload does to the session: the
      part is stored under its key, the counters are published, and a
      completed transfer hands over base64 for a PSBT and the decoded text
      otherwise, when a screen launched the scan. Completion does not lock. */
  lemma LegacyStores(s: Session, env: Env, ur: string, key: PartKey)
    requires env.extractWorkload(ur) == Some(key)
    ensures var (t, o) := LegacyRead(s, env, ur);
      var es := Upsert(s.animatedData, key, ur);
      && t.animatedData == es && t.progress.have == |es| && t.progress.total == key.total
      && (o == LegacyCompleted <==> (|es| == key.total && env.decodeUR(Values(es)).Some?))
      && (o == LegacyStored <==> |es| != key.total)
      && t.locked == s.locked && t.queue == s.queue
      && (o == LegacyCompleted && env.launchedBy ==>
            var hex := env.decodeUR(Values(es)).value;
            var text := env.hexToText(hex);
            t.delivered == s.delivered
              + [Delivery(if StartsWith(text, "psbt") then env.hexToBase64(hex) else text, s.useBBQR)])
      && (!(o == LegacyCompleted && env.launchedBy) ==> t.delivered == s.delivered)
  {
  }

  /** A URv1 fragment whose workload cannot be extracted leaves the session as it was. */
  lemma LegacyRejectsUnreadable(s: Session, env: Env, ur: string)
    requires env.extractWorkload(ur).None?
    ensures LegacyRead(s, env, ur) == (s, LegacyRejected)
  {
  }

  /** Reads keep the accumulator's keys distinct. */
  lemma ReadKeepsUniqueKeys(s: Session, env: Env, data: string, now: int, loading: bool)
    requires UniqueKeys(s.animatedData)
    ensures UniqueKeys(ReadStep(s, env, data, now, loading).0.animatedData)
  {
    var (b, drop) := BreakerStage(s, data, now);
    if drop.None? && !Cached(b.scannedCache, env.hash(data)) {
      var c := b.(scannedCache := b.scannedCache[env.hash(data) := now]);
      if !c.locked && Classify(data).LegacyUR? {
        LegacyKeepsUniqueKeys(c, env, data);
      }
    }
  }

  lemma LegacyKeepsUniqueKeys(s: Session, env: Env, ur: string)
    requires UniqueKeys(s.animatedData)
    ensures UniqueKeys(LegacyRead(s, env, ur).0.animatedData)
  {
    var key := env.extractWorkload(ur);
    if key.Some? {
      UpsertKeys(s.animatedData, key.value, ur);
    }
  }

  lemma ValuesCons(e: LegacyEntry, rest: seq<LegacyEntry>)
    ensures Values([e] + rest) == [e.ur] + Values(rest)
  {
  }

  /** `animatedQRCodeData[key] = ur` as `Object.values` sees it: a new key
      appends its part last ... */
  lemma {:induction false} UpsertAppends(es: seq<LegacyEntry>, key: PartKey, ur: string)
    requires key !in Keys(es)
    ensures Values(Upsert(es, key, ur)) == Values(es) + [ur]
    decreases |es|
  {
    if es != [] {
      assert es == [es[0]] + es[1..];
      KeysCons(es[0], es[1..]);
      UpsertAppends(es[1..], key, ur);
      ValuesCons(es[0], Upsert(es[1..], key, ur));
      ValuesCons(es[0], es[1..]);
    }
  }

  /** ... and, the keys being distinct, an existing key has its part replaced
      where it stood. */
  lemma {:induction false} UpsertReplaces(es: seq<LegacyEntry>, key: PartKey, ur: string, i: nat)
    requires UniqueKeys(es) && i < |es| && es[i].key == key
    ensures Values(Upsert(es, key, ur)) == Values(es)[i := ur]
    decreases |es|
  {
    assert es == [es[0]] + es[1..];
    if i == 0 {
      ValuesCons(LegacyEntry(key, ur), es[1..]);
      ValuesCons(es[0], es[1..]);
    } else {
      assert es[0].key != key;
      UniqueSplit(es);
      UpsertReplaces(es[1..], key, ur, i - 1);
      assert Upsert(es, key, ur) == [es[0]] + Upsert(es[1..], key, ur);
      ValuesCons(es[0], Upsert(es[1..], key, ur));
      ValuesCons(es[0], es[1..]);
      UpdateCons(es[0].ur, Values(es[1..]), i, ur);
    }
  }

  lemma UpdateCons(x: string, xs: seq<string>, i: nat, v: string)
    requires 0 < i <= |xs|
    ensures ([x] + xs)[i := v] == [x] + xs[i - 1 := v]
  {
  }

  // ---------------------------------------------------------------------
  // The invariants over a whole session, and the unmount cleanup

  /** The invariants every reachable session keeps. */
  ghost predicate ScreenInv(s: Session, env: Env)
  {
    QueueInv(s) && CacheCovers(s, env) && BreakerInv(s.breaker) && UniqueKeys(s.animatedData)
  }

  /** No read happens at clock 0. */
  predicate RealClock(evs: seq<Event>)
  {
    forall i :: 0 <= i < |evs| ==> evs[i].Scan? ==> evs[i].now != 0
  }

  lemma StepKeepsScreenInv(s: Session, env: Env, e: Event)
    requires ScreenInv(s, env) && (e.Scan? ==> e.now != 0)
    ensures ScreenInv(Apply(s, env, e), env)
  {
    match e
    case Scan(data, now, loading) =>
      ReadKeepsQueueBound(s, env, data, now, loading);
      ReadKeepsCacheCover(s, env, data, now, loading);
      ReadKeepsBreakerInv(s, env, data, now, loading);
      ReadKeepsUniqueKeys(s, env, data, now, loading);
    case Start(now) =>
      DrainKeepsQueueBound(s, env, now);
      DrainKeepsCacheCover(s, env, now);
      DrainKeepsBreakerInv(s, env, now);
    case Resume(now) =>
      DrainKeepsQueueBound(s, env, now);
      DrainKeepsCacheCover(s, env, now);
      DrainKeepsBreakerInv(s, env, now);
  }

  /** Any interleaving of reads at a non-zero clock and drain steps keeps the
      queue bound, the cache cover, the breaker invariant and the distinct
      URv1 keys. */
  lemma {:induction false} RunKeepsScreenInv(s: Session, env: Env, evs: seq<Event>)
    requires ScreenInv(s, env) && RealClock(evs)
    ensures ScreenInv(Run(s, env, evs), env)
    decreases |evs|
  {
    if evs != [] {
      StepKeepsScreenInv(s, env, evs[0]);
      assert RealClock(evs[1..]) by {
        forall i | 0 <= i < |evs[1..]| ensures evs[1..][i].Scan? ==> evs[1..][i].now != 0 {
          assert evs[1..][i] == evs[i + 1];
        }
      }
      RunKeepsScreenInv(Apply(s, env, evs[0]), env, evs[1..]);
    }
  }

  /** From a freshly mounted screen, whatever happened before at a non-zero
      clock, a read past 2000 ms is never rejected by the TTL dedupe and the
      same-raw streak never fires. */
  lemma SessionTtlAndStreakDead(animated: bool, env: Env, evs: seq<Event>, data: string, now: int, loading: bool)
    requires RealClock(evs) && now >= DEDUPE_TTL_MS
    ensures var o := ReadStep(Run(Initial(animated), env, evs), env, data, now, loading).1;
      o != DroppedRecent && !o.DroppedCooldown? && !o.DroppedRepeat? && !o.CooldownOpened?
  {
    InitialInvariants(animated, env);
    RunKeepsScreenInv(Initial(animated), env, evs);
    var s := Run(Initial(animated), env, evs);
    TtlNeverRejects(s, env, data, now, loading);
    StreakBranchDead(s, env, data, now, loading);
  }

  /** The URv1 completion does not lock: after it a plain-text code is still
      handed over, so one session delivers twice. */
  lemma LegacyThenPlainDeliversTwice(env: Env)
    requires env.launchedBy
    requires env.extractWorkload("ur:a") == Some(PartKey(1, 1))
    requires env.decodeUR(["ur:a"]).Some?
    requires env.hash("ur:a") != env.hash("hi") && env.base43Psbt("hi").None?
    ensures |Run(Initial(false), env, [Scan("ur:a", 1, false), Scan("hi", 2, false)]).delivered| == 2
  {
    assert Upper("ur:a") == "UR:A";
    assert !StartsWith("UR:A", "UR:BYTES") && StartsWith("UR:A", "UR");
    assert Classify("ur:a") == LegacyUR;
    ClassifyPlain("hi");
    var s1 := ReadStep(Initial(false), env, "ur:a", 1, false).0;
    assert Upsert([], PartKey(1, 1), "ur:a") == [LegacyEntry(PartKey(1, 1), "ur:a")];
    assert Values([LegacyEntry(PartKey(1, 1), "ur:a")]) == ["ur:a"];
    assert |s1.delivered| == 1;
    var evs := [Scan("ur:a", 1, false), Scan("hi", 2, false)];
    assert evs[1..] == [Scan("hi", 2, false)];
    assert |ReadStep(s1, env, "hi", 2, false).0.delivered| == 2;
  }

  /** After the unmount cleanup the permanent cache is empty, so no fragment
      is stopped as already scanned; the lock, the queue, the dedupe map and
      the breaker survive it. */
  lemma UnmountForgetsScans(s: Session, env: Env, data: string, now: int, loading: bool)
    ensures ReadStep(Unmount(s), env, data, now, loading).1 != AlreadyScanned
    ensures Unmount(s).locked == s.locked && Unmount(s).queue == s.queue
            && Unmount(s).dedupe == s.dedupe && Unmount(s).breaker == s.breaker
  {
  }

  /** ... which breaks the cache cover: a multi-part fragment read before the
      cleanup is rejected by the TTL dedupe when read again after it. */
  lemma UnmountReenablesTtl(env: Env)
    ensures var s := ReadStep(Initial(false), env, "B$", 5000, false).0;
      CacheCovers(s, env) && !CacheCovers(Unmount(s), env)
      && ReadStep(Unmount(s), env, "B$", 5100, false).1 == DroppedRecent
  {
    assert Upper("B$") == "B$";
    ClassifyBbqr("B$");
    InitialInvariants(false, env);
    ReadKeepsCacheCover(Initial(false), env, "B$", 5000, false);
    var s := ReadStep(Initial(false), env, "B$", 5000, false).0;
    assert "B$" in s.dedupe;
  }
}
