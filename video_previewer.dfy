/**
 * The thumbnail work lists of a video clip's previewer (VideoPreviewer).
 *
 * `queue` holds every thumbnail time of the clip (one per half second) that
 * has not been produced yet; `wishlist` holds the times the visible part of
 * the clip still lacks, in ascending order. Each timer tick seeks the
 * pipeline to one time, preferring the first wish that is still queued, and
 * moves that time to the back of the queue so that a failed seek is retried
 * later. When a thumbnail arrives it is written to the store and its time
 * leaves the queue. Pixel/nanosecond conversions, the CPU reading and the
 * pipeline's answers are inputs; seeks are recorded.
 */
module VideoPreview {
  import opened Seqs
  import opened Scheduler
  import opened ThumbnailStore

  /** `thumb_period`: one thumbnail per half second, in nanoseconds. */
  const THUMB_PERIOD: int := 500000000
  /** `THUMBNAILS_CPU_USAGE`: the load, in percent, below which thumbnailing speeds up. */
  const THUMBNAILS_CPU_USAGE: real := 20.0
  /** The initial delay between two thumbnails, in milliseconds. */
  const INITIAL_INTERVAL: real := 500.0

  /** `quantize`: `x` rounded down to a multiple of `period`. */
  function Quantize(x: int, period: int): (r: int)
    requires period > 0
    ensures r % period == 0 && r <= x < r + period
  {
    var q := x / period;
    assert (q * period) % period == 0 by {
      MultipleMod(q, period);
    }
    q * period
  }

  lemma MulSign(k: int, p: int)
    requires p > 0
    ensures k >= 1 ==> k * p >= p
    ensures k <= -1 ==> k * p <= -p
    decreases if k >= 0 then k else -k
  {
    if k > 1 {
      MulSign(k - 1, p);
      assert k * p == (k - 1) * p + p;
    } else if k < -1 {
      MulSign(k + 1, p);
      assert k * p == (k + 1) * p - p;
    }
  }

  /** Division with remainder is unique. */
  lemma DivModUnique(a: int, p: int, q: int, r: int)
    requires p > 0 && 0 <= r < p && a == q * p + r
    ensures a / p == q && a % p == r
  {
    var d := a / p;
    var m := a % p;
    assert (q - d) * p == m - r;
    MulSign(q - d, p);
  }

  lemma MultipleMod(q: int, period: int)
    requires period > 0
    ensures (q * period) % period == 0 && (q * period + period) % period == 0
  {
    DivModUnique(q * period, period, q, 0);
    DivModUnique(q * period + period, period, q + 1, 0);
  }

  /**
   * `_get_thumb_duration`: the time covered by one thumbnail slot, given the
   * unrounded `span` that a thumbnail and its margin cover at the current zoom.
   */
  function ThumbDuration(span: int, period: int): (d: int)
    requires period > 0
  {
    var q := Quantize(span, period);
    var up := if q < span then q + period else q;
    if up >= period then up else period
  }

  /**
   * A slot is a whole number of periods, never shorter than one period or
   * than the unrounded span, and the shortest such length.
   */
  lemma ThumbDurationBounds(span: int, period: int)
    requires period > 0
    ensures var d := ThumbDuration(span, period);
            && d % period == 0 && d >= period && d >= span
            && (d == period || d - period < span)
  {
    MultipleMod(span / period, period);
  }

  /** The new delay after a CPU reading (`_checkCPU`). */
  function NextInterval(interval: real, usage: real): (r: real)
  {
    if usage < THUMBNAILS_CPU_USAGE then interval * 0.9 else interval * 1.1
  }

  /**
   * Thumbnailing speeds up (shorter delay) exactly when the CPU is below
   * the threshold, by 10 % either way, and the delay stays positive.
   */
  lemma NextIntervalLaw(interval: real, usage: real)
    requires interval > 0.0
    ensures var r := NextInterval(interval, usage);
            && r > 0.0
            && (r < interval <==> usage < THUMBNAILS_CPU_USAGE)
            && (r == interval * 0.9 || r == interval * 1.1)
  {
  }

  /** Python's `range(lo, hi, step)` for a positive step. */
  function Range(lo: int, hi: int, step: int): (r: seq<int>)
    requires step > 0
    decreases hi - lo
  {
    if lo >= hi then [] else [lo] + Range(lo + step, hi, step)
  }

  lemma ShiftMod(a: int, step: int)
    requires step > 0
    ensures (a - step) % step == a % step
  {
    DivModUnique(a - step, step, a / step - 1, a % step);
  }

  lemma PositiveMultiple(a: int, step: int)
    requires step > 0 && a > 0 && a % step == 0
    ensures a >= step
  {
    var q := a / step;
    assert a == q * step;
    MulSign(q, step);
  }

  /** `range` yields exactly the grid points `lo + k * step` below `hi`, ascending. */
  lemma {:induction false} RangeMembers(lo: int, hi: int, step: int)
    requires step > 0
    ensures forall x :: x in Range(lo, hi, step) <==> lo <= x < hi && (x - lo) % step == 0
    ensures StrictlyAscending(Range(lo, hi, step))
    decreases hi - lo
  {
    if lo < hi {
      var rest := Range(lo + step, hi, step);
      RangeMembers(lo + step, hi, step);
      forall x ensures x in Range(lo, hi, step) <==> lo <= x < hi && (x - lo) % step == 0 {
        ShiftMod(x - lo, step);
        if lo <= x < hi && (x - lo) % step == 0 && x != lo {
          PositiveMultiple(x - lo, step);
        }
      }
      forall i, j | 0 <= i < j < |[lo] + rest| ensures ([lo] + rest)[i] < ([lo] + rest)[j] {
        if i == 0 {
          assert rest[j - 1] in rest;
        }
      }
    }
  }

  lemma AscendingDistinct(s: seq<int>)
    requires StrictlyAscending(s)
    ensures Distinct(s)
  {
  }

  /** The times of `times` that have no stored thumbnail, in their order. */
  function Missing(times: seq<int>, cached: set<int>): (r: seq<int>)
  {
    if times == [] then []
    else
      var last := times[|times| - 1];
      Missing(times[..|times| - 1], cached) + (if last in cached then [] else [last])
  }

  /** Filtering keeps exactly the uncached times and keeps them ascending. */
  lemma {:induction false} MissingMembers(times: seq<int>, cached: set<int>)
    ensures forall x :: x in Missing(times, cached) <==> x in times && x !in cached
    ensures forall x | x in Missing(times, cached) :: x in times
    ensures StrictlyAscending(times) ==> StrictlyAscending(Missing(times, cached))
  {
    if times != [] {
      var init := times[..|times| - 1];
      var last := times[|times| - 1];
      MissingMembers(init, cached);
      assert times == init + [last];
      if StrictlyAscending(times) {
        var m := Missing(init, cached);
        forall x | x in m ensures x < last {
          var k :| 0 <= k < |init| && init[k] == x;
        }
        forall i, j | 0 <= i < j < |Missing(times, cached)|
          ensures Missing(times, cached)[i] < Missing(times, cached)[j]
        {
          if j == |m| {
            assert m[i] in m;
          }
        }
      }
    }
  }

  /**
   * The wishlist that `_addVisibleThumbnails` builds for a visible span
   * starting at `left` and ending before `right`: the slot times from
   * `left` rounded down to a slot boundary up to `right`, one slot apart,
   * that have no stored thumbnail, in ascending order.
   */
  lemma VisibleWishlist(left: int, right: int, step: int, cached: set<int>)
    requires step > 0
    ensures var lo := Quantize(left, step);
            var w := Missing(Range(lo, right, step), cached);
            && lo <= left < lo + step
            && (forall x :: x in w <==> lo <= x < right && (x - lo) % step == 0 && x !in cached)
            && StrictlyAscending(w)
  {
    var lo := Quantize(left, step);
    RangeMembers(lo, right, step);
    MissingMembers(Range(lo, right, step), cached);
  }

  /** The thumbnail times of a clip of `duration` ns: every multiple of the period below it. */
  lemma ThumbnailQueue(duration: int)
    ensures forall x :: x in Range(0, duration, THUMB_PERIOD) <==> 0 <= x < duration && x % THUMB_PERIOD == 0
    ensures Distinct(Range(0, duration, THUMB_PERIOD))
  {
    RangeMembers(0, duration, THUMB_PERIOD);
    AscendingDistinct(Range(0, duration, THUMB_PERIOD));
  }

  /** Index of the first wish that is still queued; `|wishes|` when there is none. */
  function FirstInQueue(wishes: seq<int>, queue: seq<int>): (k: nat)
    ensures k <= |wishes|
    ensures forall i | 0 <= i < k :: wishes[i] !in queue
    ensures k < |wishes| ==> wishes[k] in queue
  {
    if wishes == [] then 0
    else if wishes[0] in queue then 0
    else 1 + FirstInQueue(wishes[1..], queue)
  }

  /**
   * `_get_wish`: the first wish still in the queue (or none), and the
   * wishlist left after popping every wish up to and including it.
   */
  function Wish(wishes: seq<int>, queue: seq<int>): (r: (Option<int>, seq<int>))
  {
    var k := FirstInQueue(wishes, queue);
    if k < |wishes| then (Some(wishes[k]), wishes[k + 1..]) else (None, [])
  }

  /**
   * One pop of `_get_wish` with `i` wishes popped and none of them queued:
   * the list is exhausted and there is no wish, or the next wish is the
   * answer, or it is discarded and the search goes on.
   */
  lemma WishStep(wishes: seq<int>, queue: seq<int>, i: nat)
    requires i <= FirstInQueue(wishes, queue)
    ensures i == |wishes| ==> Wish(wishes, queue) == (None, [])
    ensures i < |wishes| && wishes[i] in queue ==> Wish(wishes, queue) == (Some(wishes[i]), wishes[i + 1..])
    ensures i < |wishes| && wishes[i] !in queue ==> i + 1 <= FirstInQueue(wishes, queue)
  {
  }

  /** The time `_create_next_thumb` seeks to: a wish, unless it is none or 0, else the queue head. */
  function ChooseTime(wish: Option<int>, queue: seq<int>): (t: int)
    requires queue != []
  {
    if wish.Some? && wish.value != 0 then wish.value else queue[0]
  }

  /** `queue.remove(time); queue.append(time)` (or `pop(0)` then `append` for the head). */
  function Rotate(queue: seq<int>, time: int): (r: seq<int>)
  {
    RemoveFirst(queue, time) + [time]
  }

  /**
   * The choice made on a tick: the first wish that is still queued, unless
   * no wish is queued or that wish is time 0, in which case the queue head;
   * either way a queued time. Every wish before it is discarded.
   */
  lemma ChoiceLaw(wishes: seq<int>, queue: seq<int>)
    requires queue != []
    ensures var k := FirstInQueue(wishes, queue);
            var (wish, rest) := Wish(wishes, queue);
            var t := ChooseTime(wish, queue);
            && t in queue
            && (k < |wishes| && wishes[k] != 0 ==> t == wishes[k])
            && (k == |wishes| || wishes[k] == 0 ==> t == queue[0])
            && rest == (if k < |wishes| then wishes[k + 1..] else [])
  {
  }

  /**
   * Moving the chosen time to the back keeps the queue's times (as a
   * multiset) and its length; the time is then last.
   */
  lemma RotateKeepsTimes(queue: seq<int>, time: int)
    requires time in queue
    ensures multiset(Rotate(queue, time)) == multiset(queue)
    ensures |Rotate(queue, time)| == |queue| && Rotate(queue, time)[|queue| - 1] == time
    ensures var i := FirstIndex(queue, time); Rotate(queue, time) == queue[..i] + queue[i + 1..] + [time]
  {
    var i := FirstIndex(queue, time);
    var rest := RemoveFirst(queue, time);
    RemoveFirstKeepsOrder(queue, time);
    assert rest == queue[..i] + queue[i + 1..];
    assert |rest| == |queue| - 1;
    assert Rotate(queue, time) == rest + [time];
  }

  /**
   * A tick of `_create_next_thumb` on non-empty lists only rotates the
   * queue: the first occurrence of the chosen time moves to the back and
   * the other times keep their order.
   */
  lemma TickKeepsQueueTimes(wishes: seq<int>, queue: seq<int>)
    requires queue != []
    ensures var t := ChooseTime(Wish(wishes, queue).0, queue);
            && multiset(Rotate(queue, t)) == multiset(queue)
            && |Rotate(queue, t)| == |queue| && Rotate(queue, t)[|queue| - 1] == t
            && t in queue
            && var i := FirstIndex(queue, t); Rotate(queue, t) == queue[..i] + queue[i + 1..] + [t]
  {
    ChoiceLaw(wishes, queue);
    RotateKeepsTimes(queue, ChooseTime(Wish(wishes, queue).0, queue));
  }

  /** Moving a time of a queue without repetitions to the back keeps it without repetitions. */
  lemma RotateDistinct(queue: seq<int>, time: int)
    requires Distinct(queue)
    ensures Distinct(Rotate(queue, time))
  {
    RemoveFirstDistinct(queue, time);
  }

  /** Python indexing `s[i]`, negative indices counting from the end. */
  function PyIndex(s: seq<int>, i: int): (r: Option<int>)
    ensures r.Some? <==> -|s| <= i < |s|
    ensures r.Some? ==> r.value in s
    ensures 0 <= i < |s| ==> r == Some(s[i])
    ensures -|s| <= i < 0 ==> r == Some(s[|s| + i])
  {
    if 0 <= i < |s| then Some(s[i])
    else if -|s| <= i < 0 then Some(s[|s| + i])
    else None
  }

  /**
   * The slot a thumbnail reported at `time` belongs to: `time` itself if it
   * is a slot, otherwise the slot at index `nearest` of the sorted slot
   * times (`nearest` is what `binary_search` answered); `None` is the
   * `IndexError` of an index outside the list.
   */
  ghost function Resolve(thumbs: set<int>, time: int, nearest: int): (r: Option<int>)
  {
    if time in thumbs then Some(time) else PyIndex(Ascending(thumbs), nearest)
  }

  /** A resolved time is always one of the slots; resolution fails only off the list. */
  lemma ResolveLaw(thumbs: set<int>, time: int, nearest: int)
    ensures var r := Resolve(thumbs, time, nearest);
            && (r.Some? ==> r.value in thumbs)
            && (r.None? <==> time !in thumbs && !(-|thumbs| <= nearest < |thumbs|))
  {
  }

  /** Outcome of `_setThumbnail`. */
  datatype SetOutcome = Stored(time: int) | IndexError

  class VideoPreviewer {
    const job: Job
    const manager: PreviewGeneratorManager
    const cache: ThumbnailCache
    /** Times still to produce; a time whose seek was issued is at the back. */
    var queue: seq<int>
    /** Visible slot times without a thumbnail, ascending. */
    var wishlist: seq<int>
    /** The slot times of the visible thumbnails (`thumbs` keys). */
    var thumbs: set<int>
    var thumbWidth: Option<nat>
    /** Delay before the next thumbnail, in milliseconds. */
    var interval: real
    /**
     * `_thumb_cb_id` is set: a `_create_next_thumb` timer was scheduled and
     * not cancelled. It stays set after the timer has fired.
     */
    var timerArmed: bool
    /** `self.pipeline` is not `None`. */
    var hasPipeline: bool
    /** Times the pipeline was asked to seek to, in order. */
    var seeks: seq<int>

    ghost predicate Valid()
      reads this, manager
    {
      job.trackType == Video && manager.Valid() && interval > 0.0 && Distinct(queue)
    }

    /**
     * Creating the previewer reads the stored thumbnail width and registers
     * the job. When the scheduler starts it at once (nothing of its type is
     * running or waiting), `startGeneration` builds the pipeline, whose
     * prerolled caps give `negotiatedWidth`.
     */
    constructor (id: nat, manager: PreviewGeneratorManager, cache: ThumbnailCache, negotiatedWidth: nat)
      requires manager.Valid()
      modifies manager
      ensures Valid() && job == Job(id, Video) && this.manager == manager && this.cache == cache
      ensures queue == [] && wishlist == [] && thumbs == {} && seeks == []
      ensures interval == INITIAL_INTERVAL && !timerArmed
      ensures manager.Model() == Add(old(manager.Model()), Job(id, Video))
      ensures hasPipeline <==> Line(old(manager.Model()), Video) == []
      ensures hasPipeline ==> thumbWidth == Some(negotiatedWidth)
      ensures !hasPipeline ==> (thumbWidth.None? <==> cache.table == map[])
      ensures !hasPipeline && thumbWidth.Some? ==> thumbWidth.value == cache.table[Ascending(cache.table.Keys)[0]].width
    {
      job := Job(id, Video);
      this.manager := manager;
      this.cache := cache;
      queue := [];
      wishlist := [];
      thumbs := {};
      interval := INITIAL_INTERVAL;
      timerArmed := false;
      hasPipeline := false;
      seeks := [];
      var size := cache.GetImagesSize();
      thumbWidth := if size.None? then None else Some(size.value.0);
      new;
      var startNow := manager.AddPipeline(job);
      if startNow {
        StartGeneration(negotiatedWidth);
      }
    }

    /** `startGeneration`: the pipeline is built and prerolled, giving the thumbnail width. */
    method StartGeneration(negotiatedWidth: nat)
      modifies this
      ensures hasPipeline && thumbWidth == Some(negotiatedWidth)
      ensures queue == old(queue) && wishlist == old(wishlist) && thumbs == old(thumbs)
      ensures interval == old(interval) && timerArmed == old(timerArmed) && seeks == old(seeks)
    {
      hasPipeline := true;
      thumbWidth := Some(negotiatedWidth);
    }

    /** `_checkCPU`: adjusts the delay and arms the timer for the next thumbnail. */
    method CheckCpu(usage: real)
      requires Valid()
      modifies this
      ensures Valid() && interval == NextInterval(old(interval), usage) && timerArmed
      ensures queue == old(queue) && wishlist == old(wishlist) && thumbs == old(thumbs)
      ensures hasPipeline == old(hasPipeline) && thumbWidth == old(thumbWidth) && seeks == old(seeks)
    {
      NextIntervalLaw(interval, usage);
      if usage < THUMBNAILS_CPU_USAGE {
        interval := interval * 0.9;
      } else {
        interval := interval * 1.1;
      }
      timerArmed := true;
    }

    /**
     * `_startThumbnailing`: with a pipeline, queues every thumbnail time of
     * the clip. The duration is the pipeline's answer, or the clip's own
     * duration when the query fails or answers -1.
     */
    method StartThumbnailing(queried: Option<int>, clipDuration: int, usage: real)
      requires Valid()
      modifies this
      ensures Valid()
      ensures !old(hasPipeline) ==> queue == old(queue) && interval == old(interval) && timerArmed == old(timerArmed)
      ensures old(hasPipeline) ==>
                var duration := if queried.None? || queried.value == -1 then clipDuration else queried.value;
                && queue == Range(0, duration, THUMB_PERIOD)
                && interval == NextInterval(old(interval), usage) && timerArmed
      ensures wishlist == old(wishlist) && thumbs == old(thumbs) && seeks == old(seeks)
      ensures hasPipeline == old(hasPipeline) && thumbWidth == old(thumbWidth)
    {
      if !hasPipeline {
        // stopGeneration ran after the job was started
        return;
      }
      var duration := clipDuration;
      if queried.Some? && queried.value != -1 {
        duration := queried.value;
      }
      ThumbnailQueue(duration);
      queue := Range(0, duration, THUMB_PERIOD);
      CheckCpu(usage);
    }

    /** `_get_wish`: pops wishes until one is still queued. */
    method GetWish() returns (wish: Option<int>)
      modifies this
      ensures (wish, wishlist) == Wish(old(wishlist), queue)
      ensures queue == old(queue) && thumbs == old(thumbs) && seeks == old(seeks)
      ensures interval == old(interval) && timerArmed == old(timerArmed)
      ensures hasPipeline == old(hasPipeline) && thumbWidth == old(thumbWidth)
    {
      ghost var wishes := wishlist;
      ghost var i := 0;
      while true
        invariant 0 <= i <= FirstInQueue(wishes, queue)
        invariant wishlist == wishes[i..]
        invariant queue == old(queue) && thumbs == old(thumbs) && seeks == old(seeks)
        invariant interval == old(interval) && timerArmed == old(timerArmed)
        invariant hasPipeline == old(hasPipeline) && thumbWidth == old(thumbWidth)
        decreases |wishlist|
      {
        WishStep(wishes, queue, i);
        if wishlist == [] {
          return None;
        }
        var w := wishlist[0];
        assert w == wishes[i] && wishlist[1..] == wishes[i + 1..];
        wishlist := wishlist[1..];
        i := i + 1;
        if w in queue {
          return Some(w);
        }
      }
    }

    /**
     * `_create_next_thumb`: stops when either list is empty; otherwise seeks
     * to the chosen time and moves that time to the back of the queue.
     */
    method CreateNextThumb()
      requires Valid()
      modifies this, manager, cache
      ensures Valid()
      ensures old(wishlist) == [] || old(queue) == [] ==>
                && manager.Model() == Done(old(manager.Model()), job)
                && !hasPipeline && !timerArmed
                && cache.table == old(cache.table) && cache.committed == cache.table
                && queue == old(queue) && wishlist == old(wishlist) && seeks == old(seeks)
      ensures old(wishlist) != [] && old(queue) != [] ==>
                var (wish, rest) := Wish(old(wishlist), old(queue));
                var time := ChooseTime(wish, old(queue));
                && wishlist == rest
                && queue == Rotate(old(queue), time)
                && seeks == old(seeks) + [time]
                && manager.Model() == old(manager.Model())
                && cache.table == old(cache.table) && cache.committed == old(cache.committed)
                && hasPipeline == old(hasPipeline) && timerArmed == old(timerArmed)
      ensures thumbs == old(thumbs) && interval == old(interval) && thumbWidth == old(thumbWidth)
    {
      if wishlist == [] || queue == [] {
        // nothing left to do
        StopGeneration();
        var _ := cache.Commit();
        return;
      }
      SeekNext();
    }

    /** The seeking half of `_create_next_thumb`, for non-empty lists. */
    method SeekNext()
      requires Distinct(queue) && wishlist != [] && queue != []
      modifies this
      ensures Distinct(queue)
      ensures var chosen := Wish(old(wishlist), old(queue));
              var time := ChooseTime(chosen.0, old(queue));
              && wishlist == chosen.1
              && queue == Rotate(old(queue), time)
              && seeks == old(seeks) + [time]
      ensures thumbs == old(thumbs) && interval == old(interval) && timerArmed == old(timerArmed)
      ensures hasPipeline == old(hasPipeline) && thumbWidth == old(thumbWidth)
    {
      var wish := GetWish();
      ghost var chosen := Wish(old(wishlist), old(queue));
      var q := queue;
      var time: int;
      if wish.Some? && wish.value != 0 {
        time := wish.value;
        q := RemoveFirst(q, time);
      } else {
        time := q[0];
        assert q == [time] + q[1..];
        q := q[1..];
      }
      assert time == ChooseTime(chosen.0, old(queue)) && q == RemoveFirst(old(queue), time);
      RotateDistinct(old(queue), time);
      // back of the queue, so that a failed seek is retried later
      queue := q + [time];
      seeks := seeks + [time];
    }

    /** `_autosave`: commits the store while wishes remain; `false` stops the timer. */
    method Autosave() returns (keep: bool)
      modifies cache
      ensures keep <==> wishlist != []
      ensures cache.table == old(cache.table)
      ensures cache.committed == (if keep then cache.table else old(cache.committed))
    {
      if wishlist != [] {
        var _ := cache.Commit();
        return true;
      }
      return false;
    }

    /**
     * `_addVisibleThumbnails` for a visible span from `left` to `right` (ns)
     * where one thumbnail and its margin cover `span` ns: rebuilds the slots
     * and the wishlist; does nothing while the thumbnail width is unknown.
     */
    method AddVisibleThumbnails(span: int, left: int, right: int) returns (shown: bool)
      requires Valid()
      modifies this
      ensures Valid()
      ensures shown <==> old(thumbWidth).Some?
      ensures !shown ==> thumbs == old(thumbs) && wishlist == old(wishlist)
      ensures shown ==>
                var step := ThumbDuration(span, THUMB_PERIOD);
                var times := Range(Quantize(left, step), right, step);
                && thumbs == (set x | x in times)
                && wishlist == Missing(times, cache.table.Keys)
      ensures queue == old(queue) && seeks == old(seeks) && interval == old(interval)
      ensures timerArmed == old(timerArmed) && hasPipeline == old(hasPipeline) && thumbWidth == old(thumbWidth)
    {
      if thumbWidth.None? {
        return false;
      }
      thumbs := {};
      wishlist := [];
      ThumbDurationBounds(span, THUMB_PERIOD);
      var step := ThumbDuration(span, THUMB_PERIOD);
      var times := Range(Quantize(left, step), right, step);
      var i := 0;
      while i < |times|
        invariant 0 <= i <= |times|
        invariant thumbs == set x | x in times[..i]
        invariant wishlist == Missing(times[..i], cache.table.Keys)
        invariant queue == old(queue) && seeks == old(seeks) && interval == old(interval)
        invariant timerArmed == old(timerArmed) && hasPipeline == old(hasPipeline) && thumbWidth == old(thumbWidth)
      {
        var t := times[i];
        assert times[..i + 1] == times[..i] + [t];
        thumbs := thumbs + {t};
        var present := cache.Contains(t);
        if !present {
          wishlist := wishlist + [t];
        }
        i := i + 1;
      }
      assert times[..i] == times;
      return true;
    }

    /**
     * `_setThumbnail`: the thumbnail reported at `time` (resolved to a slot
     * through `nearest`, the `binary_search` answer) is written to the store
     * when `encoded` is present, and its time leaves the queue.
     */
    method SetThumbnail(time: int, encoded: Option<Jpeg>, nearest: int) returns (r: SetOutcome)
      requires Valid()
      modifies this, cache
      ensures Valid()
      ensures var slot := Resolve(old(thumbs), time, nearest);
              && (slot.None? ==> r == IndexError && queue == old(queue) && cache.table == old(cache.table))
              && (slot.Some? ==>
                    && r == Stored(slot.value)
                    && queue == RemoveFirst(old(queue), slot.value) && slot.value !in queue
                    && cache.table == (if encoded.Some? then old(cache.table)[slot.value := encoded.value]
                                       else old(cache.table)))
      ensures cache.committed == old(cache.committed)
      ensures wishlist == old(wishlist) && thumbs == old(thumbs) && seeks == old(seeks)
      ensures interval == old(interval) && timerArmed == old(timerArmed) && hasPipeline == old(hasPipeline)
      ensures thumbWidth == old(thumbWidth)
    {
      var found := FindSlot(time, nearest);
      if found.None? {
        return IndexError;
      }
      var slot := found.value;
      RemoveFirstDistinct(queue, slot);
      if slot in queue {
        queue := RemoveFirst(queue, slot);
      }
      cache.Set(slot, encoded);
      r := Stored(slot);
    }

    /** The slot lookup of `_setThumbnail`: the exact time, else `binary_search`'s index. */
    method FindSlot(time: int, nearest: int) returns (slot: Option<int>)
      ensures slot == Resolve(thumbs, time, nearest)
    {
      if time in thumbs {
        return Some(time);
      }
      var sorted := SortedKeys(thumbs);
      slot := PyIndex(sorted, nearest);
    }

    /** `stopGeneration`: cancels the timer, drops the pipeline and emits `done`. */
    method StopGeneration()
      requires Valid()
      modifies this, manager
      ensures Valid() && !timerArmed && !hasPipeline
      ensures manager.Model() == Done(old(manager.Model()), job)
      ensures queue == old(queue) && wishlist == old(wishlist) && thumbs == old(thumbs)
      ensures seeks == old(seeks) && interval == old(interval) && thumbWidth == old(thumbWidth)
    {
      timerArmed := false;
      hasPipeline := false;
      manager.EmitDone(job);
    }
  }
}
