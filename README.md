# Pitivi preview generation, modelled in Dafny

This project models the control logic behind the clip previews of the Pitivi
video editor timeline (`pitivi/timeline/previewers.py`):

- **Scheduler** (`scheduler.dfy`). The `PreviewGeneratorManager` lets at most
  one previewer per track type (audio or video) generate at a time. The other
  previewers wait and are started in the order in which they registered.
- **Thumbnail store** (`thumbnail_cache.dfy`).
  - `ThumbnailCache` is the per-media sqlite table of JPEG thumbnails, keyed
    by time in nanoseconds.
  - `CacheRegistry` is the process-wide `CACHES` dictionary behind
    `getThumbnailCache`.
- **Video previewer** (`video_previewer.dfy`). The `VideoPreviewer` work lists
  hold two kinds of times:
  - `queue`: every thumbnail time of the clip not produced yet;
  - `wishlist`: the visible slot times that still lack a thumbnail.

  On each timer tick the previewer seeks to the first wish that is still
  queued and rotates that time to the back of the queue. When a thumbnail
  arrives it is stored and its time leaves the queue. The CPU-driven interval
  throttle and the slot arithmetic are modelled too.
- **CPU rate controller** (`rate_control.dfy`). `PipelineCpuAdapter` slows the
  waveform analysis pipeline down under load. Below rate 0.1 it suspends the
  pipeline (READY), and it resumes from the saved position.
- **Waveform bin** (`waveform.dfy`). `WaveformPreviewer` files `level` RMS
  readings into per-channel bucket arrays, one bucket per 10 ms. At the end it
  mixes the channels down to mono.
- **Audio previewer** (`audio_previewer.dfy`). `AudioPreviewer` runs the
  waveform job:
  - it uses an existing wave file when there is one;
  - otherwise it runs a pipeline under the scheduler;
  - it relaunches once after an error and gives up after the second;
  - it attaches a rate controller only while nothing has failed.

`seqs.dfy` holds the sequence helpers these share. Among them are Python's
`list.remove` (`RemoveFirst`) and the ascending listing of a set of keys
(`Ascending`, computed by `SortedKeys`).

State that the source updates in place is a class, whose methods state the
new state in terms of a pure function of the old one:
- `PreviewGeneratorManager` is specified by `Add`, `Next` and `Done`;
- `PipelineCpuAdapter` by `Modulate` and `OnMessage`;
- `WaveformPreviewer` by `Record` and `DownMix`;
- `AudioPreviewer` by `Step`.

The properties are proved as lemmas about those functions.

GStreamer pipelines, the bus and the GLib timers are not modelled. The audio
previewer and the rate controller each record the calls they make on a
pipeline (`set_state`, `seek`) in an `actions` log of their own. The video
previewer records only its seeks (`seeks`) and whether it holds a pipeline
(`hasPipeline`); its `set_state` calls are not recorded. Answers the program receives from outside are parameters:
- the CPU usage;
- the position and duration a pipeline reports;
- the negotiated thumbnail width;
- the JPEG encoder's success;
- the contents of a wave file;
- the `binary_search` index.

## Model

| member | source | states |
|---|---|---|
| Scheduler.PreviewGeneratorManager.AddPipeline | pitivi/timeline/previewers.py:313-331 | registering changes the manager exactly as `Add` says and keeps the per-type invariant (one running job per type, nobody waiting while nothing runs, no job twice); it answers whether the job was started at once, which is exactly when nothing of its type was running or waiting |
| Scheduler.PreviewGeneratorManager.SetPipeline | pitivi/timeline/previewers.py:333-336 | the job becomes the running job of its type and its start is appended to the `started` record; the waiting lists are untouched |
| Scheduler.PreviewGeneratorManager.NextPipeline | pitivi/timeline/previewers.py:338-345 | the `done` handler drops the running job and promotes the oldest waiter (the back of the list), as `Next` says, keeping the invariant |
| Scheduler.PreviewGeneratorManager.EmitDone | pitivi/timeline/previewers.py:333-345 | a `done` from a job reaches the handler only while that job is running; otherwise nothing changes |
| Scheduler.PreviewGeneratorManager.constructor | pitivi/timeline/previewers.py:304-311 | nothing runs and both waiting lists are empty |
| Scheduler.Add | pitivi/timeline/previewers.py:313-331 | `addPipeline` on the state: keeps the per-type invariant (at most one running job per type, nobody waiting while nothing runs, no job twice); what it does to the line is `AddJoinsLine` and `AddTwice` |
| Scheduler.Next | pitivi/timeline/previewers.py:338-345 | `_nextPipeline` on the state: keeps the invariant; that it pops the head and starts the oldest waiter is `NextPopsLine` and `NextOwnLine` |
| Scheduler.Done | pitivi/timeline/previewers.py:333-345 | a `done` signal from a job: keeps the invariant; it acts as `Next` only when that job is the running one of its type, since the handler is connected only to running jobs (:335) |
| Scheduler.AddJoinsLine | pitivi/timeline/previewers.py:320-331 | registering a running or waiting job is a no-op; any other job joins the end of its type's line and is started at once exactly when that line was empty; other types are untouched; the invariant is kept |
| Scheduler.AddTwice | pitivi/timeline/previewers.py:322-331 | registering the same job twice equals registering it once |
| Scheduler.NextPopsLine | pitivi/timeline/previewers.py:338-345 | `done` removes the head of the line and starts the next job in it, if any; with nothing running it changes nothing; other types are untouched |
| Scheduler.NextOwnLine | pitivi/timeline/previewers.py:338-345 | on its own type `done` pops the head of the line, starts the next waiter if there is one and keeps that type's invariant; with nothing running it changes nothing |
| Scheduler.AddAllJoinsLine | pitivi/timeline/previewers.py:331 | distinct new registrations join the line in registration order and start nothing while a job runs |
| Scheduler.NextNServesLine | pitivi/timeline/previewers.py:343-345 | `n` `done` signals start exactly the next `n` jobs of the line, in line order |
| Scheduler.StartOrderIsRegistrationOrder | pitivi/timeline/previewers.py:313-345 | jobs registered while one runs are started, after the waiters already in line, in the order they registered (FIFO) |
| Scheduler.ServeAfterJoin | pitivi/timeline/previewers.py:331-345 | once a line is the old line followed by new jobs, serving it to the end starts the old waiters and then the new jobs, in order |
| ThumbnailStore.ThumbnailCache.Contains | pitivi/timeline/previewers.py:860-865 | `key in cache` holds iff the table has a row for `key` |
| ThumbnailStore.ThumbnailCache.Get | pitivi/timeline/previewers.py:867-872 | `cache[key]` is the stored image when there is one, and `KeyError(key)` exactly when there is none |
| ThumbnailStore.ThumbnailCache.Set | pitivi/timeline/previewers.py:874-883 | a failed encode leaves the table unchanged; otherwise the table maps `key` to the new image (delete then insert replaces any earlier row) and is otherwise unchanged |
| ThumbnailStore.ThumbnailCache.GetImagesSize | pitivi/timeline/previewers.py:824-837 | `None` exactly for an empty store; otherwise the size of the image with the least time (the first row) |
| ThumbnailStore.ThumbnailCache.GetPreviewThumbnail | pitivi/timeline/previewers.py:839-848 | `None` exactly for an empty store; otherwise the image at index `len / 2` of the ascending stored times |
| ThumbnailStore.ThumbnailCache.Commit | pitivi/timeline/previewers.py:885-894 | the saved table becomes the current one, which is unchanged; the result `False` stops the timer |
| ThumbnailStore.CacheRegistry.GetThumbnailCache | pitivi/timeline/previewers.py:771-789 | returns the registered store of the URI, creating and registering a new one only when there is none; every store is filed under its own URI |
| ThumbnailStore.RegistryMemoises | pitivi/timeline/previewers.py:784-789 | two requests for the same URI return the same store and register at most one |
| ThumbnailStore.ThumbnailCache.constructor | pitivi/timeline/previewers.py:799-810 | the store of a URI opens the table already on disk for it (`CREATE TABLE IF NOT EXISTS` keeps earlier rows), so the current and the committed table are both what earlier sessions saved |
| ThumbnailStore.CacheRegistry.constructor | pitivi/timeline/previewers.py:767 | `CACHES` starts empty |
| Seqs.SortedKeys | pitivi/timeline/previewers.py:843-844 | lists the stored times in ascending order, each once |
| Seqs.RemoveFirst | pitivi/timeline/previewers.py:669-671 | `list.remove` takes one occurrence out (multiset difference); the source calls it only after checking membership, and on an absent element the model returns the list unchanged; that the first occurrence goes and the order is kept is `RemoveFirstKeepsOrder` |
| Seqs.RemoveFirstKeepsOrder | pitivi/timeline/previewers.py:669-671 | `remove(x)` on a list holding `x` deletes exactly its first occurrence and keeps every other element in order |
| Seqs.RemoveFirstDistinct | pitivi/timeline/previewers.py:669-671 | on a list without repetitions, `remove(x)` leaves no `x` and no repetition |
| RateControl.Modulate | pitivi/timeline/previewers.py:937-985 | `_modulateRate` never changes the `done` flag |
| RateControl.OnMessage | pitivi/timeline/previewers.py:987-1001 | `_messageCb` never changes rate, `done` or the saved position |
| RateControl.StoppedIsInert | pitivi/timeline/previewers.py:941-942 | after `stop()` a tick returns `False`, changes nothing and calls nothing |
| RateControl.RateLaw | pitivi/timeline/previewers.py:946-962 | under load the rate is cut by 10 % until below 0.1, where it is held; without load it grows by 10 %; a live tick keeps the timer; the rate stays positive |
| RateControl.SuspendsOnce | pitivi/timeline/previewers.py:946-954 | READY is requested exactly on the first overloaded tick at rate below 0.1, which saves the position; once suspended the controller stays suspended |
| RateControl.SuspendedTicksOnlyPause | pitivi/timeline/previewers.py:964-972 | a suspended tick never seeks or plays, keeps the saved position, and asks for PAUSED exactly when the rate exceeds 0.5 |
| RateControl.LiveTickReseeks | pitivi/timeline/previewers.py:964-985 | a running tick that adjusts the rate pauses, seeks at the new rate from the current position and plays |
| RateControl.ResumeFromSavedPosition | pitivi/timeline/previewers.py:946-1001 | after a suspension, READY to PAUSED makes the handler seek to the saved position at rate 1.0 and clear the suspension |
| RateControl.HandlerIdleUnlessSuspended | pitivi/timeline/previewers.py:988-989 | the bus handler does nothing unless the controller is suspended |
| RateControl.Run | pitivi/timeline/previewers.py:937-942 | helper composing successive ticks; it only carries the fact that ticks never change the `done` flag (the lemmas below state what runs do) |
| RateControl.RunKeepsSuspended | pitivi/timeline/previewers.py:946-972 | once suspended, no sequence of ticks un-suspends the controller |
| RateControl.OverloadSuspends | pitivi/timeline/previewers.py:946-957 | `k + 1` overloaded ticks suspend a controller whose rate is below `0.1 + 0.01 k` |
| RateControl.FreshControllerSuspends | pitivi/timeline/previewers.py:906-957 | a fresh controller under constant overload is suspended within 92 ticks |
| RateControl.PipelineCpuAdapter.constructor | pitivi/timeline/previewers.py:906-916 | rate 1.0, not done, not suspended, saved position 0 |
| RateControl.PipelineCpuAdapter.Start | pitivi/timeline/previewers.py:918-925 | the bus handler is connected and `done` is cleared |
| RateControl.PipelineCpuAdapter.Stop | pitivi/timeline/previewers.py:927-935 | the handler is disconnected, the pipeline dropped and `done` set |
| RateControl.PipelineCpuAdapter.ModulateRate | pitivi/timeline/previewers.py:937-985 | the fields, the timer result and the pipeline calls are those of `Modulate`; the rate stays positive |
| RateControl.PipelineCpuAdapter.MessageCb | pitivi/timeline/previewers.py:987-1001 | the fields and pipeline calls are those of `OnMessage` |
| VideoPreview.Quantize | pitivi/timeline/previewers.py:597 | `quantize` rounds down to a multiple of the period: `r % p == 0` and `r <= x < r + p` |
| VideoPreview.ThumbDurationBounds | pitivi/timeline/previewers.py:594-603 | a slot lasts a whole number of periods, at least one period and at least the unrounded span, and is the shortest such length |
| VideoPreview.ThumbDuration | pitivi/timeline/previewers.py:594-603 | the slot length: the thumbnail span rounded up to whole periods, at least one period; its laws are `ThumbDurationBounds` |
| VideoPreview.NextIntervalLaw | pitivi/timeline/previewers.py:501-508 | the interval shrinks by 10 % exactly when usage is below 20 %, otherwise grows by 10 %, and stays positive |
| VideoPreview.NextInterval | pitivi/timeline/previewers.py:501-508 | the new thumbnail interval from a CPU reading; its law is `NextIntervalLaw` |
| VideoPreview.RangeMembers | pitivi/timeline/previewers.py:539 | `range(lo, hi, step)` yields exactly the points `lo + k step` below `hi`, strictly ascending |
| VideoPreview.Range | pitivi/timeline/previewers.py:539 | Python's `range(lo, hi, step)` for a positive step; its members are `RangeMembers` |
| VideoPreview.MissingMembers | pitivi/timeline/previewers.py:625-637 | the wishlist filter keeps exactly the times without a stored thumbnail, in their ascending order |
| VideoPreview.Missing | pitivi/timeline/previewers.py:625-637 | the slot times without a stored thumbnail; which they are is `MissingMembers` |
| VideoPreview.VisibleWishlist | pitivi/timeline/previewers.py:616-637 | the rebuilt wishlist is exactly the slot times from the quantized left edge up to the right edge that are not stored, ascending |
| VideoPreview.ThumbnailQueue | pitivi/timeline/previewers.py:539 | the queue holds exactly the multiples of half a second below the duration, each once |
| VideoPreview.FirstInQueue | pitivi/timeline/previewers.py:645-650 | index of the first wish still queued: every earlier wish is not queued, and that one is |
| VideoPreview.Wish | pitivi/timeline/previewers.py:641-650 | `_get_wish`: the first wish still queued and the wishes after it, or none and an empty wishlist; the step law is `WishStep` |
| VideoPreview.ChoiceLaw | pitivi/timeline/previewers.py:568-573 | the chosen time is queued; it is the first queued wish unless there is none or it is time 0, then the queue head; every wish up to it is discarded |
| VideoPreview.ChooseTime | pitivi/timeline/previewers.py:568-573 | the time a tick seeks to; its law is `ChoiceLaw` |
| VideoPreview.Rotate | pitivi/timeline/previewers.py:575-577 | `queue.remove(time)` then `queue.append(time)`; what it keeps is `RotateKeepsTimes` and `RotateDistinct` |
| VideoPreview.RotateKeepsTimes | pitivi/timeline/previewers.py:575-577 | moving the chosen time to the back keeps the queue's multiset of times and its length, with that time last; the other times keep their order, only the first occurrence of the chosen time being taken out (`queue[..i] + queue[i+1..] + [time]` with `i` its first index) |
| VideoPreview.TickKeepsQueueTimes | pitivi/timeline/previewers.py:565-577 | a tick on non-empty lists chooses a queued time and only rotates the queue: the chosen time's first occurrence moves to the back and the other times keep their order |
| VideoPreview.RotateDistinct | pitivi/timeline/previewers.py:575-577 | rotation keeps the queue free of repetitions |
| VideoPreview.PyIndex | pitivi/timeline/previewers.py:664 | Python indexing succeeds exactly for `-len <= i < len` and yields `s[i]` for a non-negative index and `s[len + i]` for a negative one |
| VideoPreview.ResolveLaw | pitivi/timeline/previewers.py:660-664 | a reported time resolves to a slot; resolution fails only when the time is not a slot and the index is off the list |
| VideoPreview.Resolve | pitivi/timeline/previewers.py:660-666 | the slot a reported time is filed under: the time itself when it is a slot, else the slot at the `binary_search` index; its law is `ResolveLaw` |
| VideoPreview.VideoPreviewer.constructor | pitivi/timeline/previewers.py:401-444 | empty lists, 500 ms interval, job registered with the scheduler; when nothing of its type was running or waiting, `startGeneration` builds the pipeline and the width is the negotiated one, otherwise there is no pipeline and the width is that of the store's first image (unknown for an empty store) |
| VideoPreview.VideoPreviewer.StartGeneration | pitivi/timeline/previewers.py:718-720 | the pipeline exists and the thumbnail width is the negotiated one |
| VideoPreview.VideoPreviewer.CheckCpu | pitivi/timeline/previewers.py:495-515 | the interval becomes `NextInterval` of the reading and the timer is armed |
| VideoPreview.VideoPreviewer.StartThumbnailing | pitivi/timeline/previewers.py:522-556 | without a pipeline nothing happens; otherwise the queue is every half second below the reported duration (the clip's own when the query fails or answers -1) and the CPU check runs |
| VideoPreview.VideoPreviewer.GetWish | pitivi/timeline/previewers.py:641-650 | pops wishes until one is queued; result and remaining wishlist are `Wish` |
| VideoPreview.WishStep | pitivi/timeline/previewers.py:645-650 | each wish skipped before the first queued one is not queued; the search ends with the first queued wish and the wishes after it, or with none and an empty wishlist |
| VideoPreview.VideoPreviewer.CreateNextThumb | pitivi/timeline/previewers.py:558-584 | with either list empty: generation stops and the store is committed; otherwise the chosen time is sought and rotated to the back, the wishlist is what `Wish` leaves, and the pipeline and the timer are kept; the stored thumbnails, the interval and the width never change |
| VideoPreview.VideoPreviewer.SeekNext | pitivi/timeline/previewers.py:565-577 | the seeking half of a tick, keeping the queue free of repetitions |
| VideoPreview.VideoPreviewer.Autosave | pitivi/timeline/previewers.py:586-592 | commits and keeps the timer exactly while wishes remain |
| VideoPreview.VideoPreviewer.AddVisibleThumbnails | pitivi/timeline/previewers.py:609-639 | without a known width nothing changes; otherwise the slots are the visible grid times and the wishlist is those not stored, ascending |
| VideoPreview.VideoPreviewer.SetThumbnail | pitivi/timeline/previewers.py:652-672 | the reported time is resolved to a slot (or `IndexError`); the slot leaves the queue and the image is stored under it when encoding succeeds; the width is unchanged |
| VideoPreview.VideoPreviewer.FindSlot | pitivi/timeline/previewers.py:660-666 | the reported time itself when it is a slot, else the slot at `binary_search`'s index of the ascending slot times, or none when that index is out of range |
| VideoPreview.VideoPreviewer.StopGeneration | pitivi/timeline/previewers.py:722-731 | the timer is cancelled, the pipeline dropped and `done` reaches the scheduler |
| Waveform.PrevIndex | pitivi/timeline/previewers.py:264 | Python's `[pos - 1]`: `pos - 1`, or the last index when `pos` is 0 |
| Waveform.RecordLaw | pitivi/timeline/previewers.py:259-264 | filing readings changes only bucket `pos` of the channels that got a reading: a negative reading stores its linear value, a non-negative one copies the bucket before; lengths are kept |
| Waveform.Record | pitivi/timeline/previewers.py:259-264 | files one `level` reading into bucket `pos`; what it changes is `RecordLaw`, `HoldLast` and `WrapAtZero` |
| Waveform.HoldLast | pitivi/timeline/previewers.py:263-264 | a non-negative reading at `pos > 0` repeats bucket `pos - 1` |
| Waveform.WrapAtZero | pitivi/timeline/previewers.py:263-264 | a non-negative reading at bucket 0 copies the last bucket |
| Waveform.DownMixLaw | pitivi/timeline/previewers.py:274-280 | the mono samples have channel 0's length; with several channels each is the mean of channels 0 and 1 and lies between them, further channels are ignored; one channel passes through |
| Waveform.DownMixExample | pitivi/timeline/previewers.py:274-276 | channels `[10, 20]` and `[30, 40]` mix to `[20, 30]` |
| Waveform.DownMix | pitivi/timeline/previewers.py:274-280 | the mono mix of the channel arrays; its law is `DownMixLaw` |
| Waveform.WaveformPreviewer.constructor | pitivi/timeline/previewers.py:203-216 | passthrough off, no arrays, no samples, zero buckets and no wave file written; the dB conversion is the given one |
| Waveform.WaveformPreviewer.SetUri | pitivi/timeline/previewers.py:227-230 | passthrough iff the wave file exists |
| Waveform.WaveformPreviewer.SetDuration | pitivi/timeline/previewers.py:231-233 | one bucket per 10 ms of duration |
| Waveform.WaveformPreviewer.PostMessage | pitivi/timeline/previewers.py:238-266 | non-level messages, passthrough and empty readings are forwarded untouched; the first reading creates one zeroed array per channel; a reading past the last bucket is swallowed; otherwise the arrays become `Record`, with `IndexError` exactly when the reading has more channels than the arrays |
| Waveform.WaveformPreviewer.Finalize | pitivi/timeline/previewers.py:268-282 | outside passthrough and once readings exist, the samples (and the wave file) become `DownMix` of the arrays; otherwise nothing changes; the arrays, the passthrough flag and the bucket count are kept |
| AudioPreview.ErrorLaw | pitivi/timeline/previewers.py:1121-1141 | an error counts a failure and drops the rate controller; it relaunches exactly on the first failure and gives up from the second on |
| AudioPreview.AdapterOnlyBeforeFailure | pitivi/timeline/previewers.py:1143-1159 | a rate controller appears only on the pipeline's PAUSED to PLAYING change with none attached and no failure, and then always; no message gives a failed job a controller |
| AudioPreview.RunLaw | pitivi/timeline/previewers.py:1115-1159 | over any message stream failures grow by the number of errors, a job is relaunched at most once (exactly when an error reaches a clean job), gives up once two errors are counted, and a failed job never gets a controller back |
| AudioPreview.Step | pitivi/timeline/previewers.py:1115-1159 | the retry state after one bus message; its laws are `ErrorLaw`, `AdapterOnlyBeforeFailure` and `RunLaw` |
| AudioPreview.Buckets | pitivi/timeline/previewers.py:1094 | the announced bucket count is the duration over 10 ms exactly, and its whole part is the number of buckets the wave bin fills (`duration // SAMPLE_DURATION`) |
| AudioPreview.AudioPreviewer.constructor | pitivi/timeline/previewers.py:1022-1052 | no pipeline, no adapter, no samples, no failures, buckets from the asset duration |
| AudioPreview.AudioPreviewer.StartLevelsDiscovery | pitivi/timeline/previewers.py:1065-1074 | an existing wave file is loaded and rendered and no pipeline is built, registered or driven; otherwise the wave file is named, one pipeline is launched and registered, the bucket count is reset from the asset duration, and the pipeline is set PLAYING exactly when nothing of its type was running or waiting |
| AudioPreview.AudioPreviewer.LaunchPipeline | pitivi/timeline/previewers.py:1076-1096 | a fresh wave bin gets the asset's duration, the bucket count is reset and the job registers with the scheduler; the pipeline is set PLAYING (and an attached controller started) exactly when the job is started at once |
| AudioPreview.AudioPreviewer.BecomeControlled | pitivi/timeline/previewers.py:380-384 | the job registers with the scheduler as `Add` says, and `startGeneration` runs (PLAYING) exactly when nothing of its type was running or waiting |
| AudioPreview.AudioPreviewer.PrepareSamples | pitivi/timeline/previewers.py:1105-1107 | the samples are the wave bin's mono mix |
| AudioPreview.AudioPreviewer.StartRendering | pitivi/timeline/previewers.py:1109-1113 | the bucket count is the number of samples, the previewer is discovered and a running controller is stopped |
| AudioPreview.AudioPreviewer.StartGeneration | pitivi/timeline/previewers.py:1207-1210 | the pipeline is set PLAYING and an attached controller is started |
| AudioPreview.AudioPreviewer.StopGeneration | pitivi/timeline/previewers.py:1212-1221 | the controller is stopped and dropped, the pipeline is set NULL and `done` reaches the scheduler |
| AudioPreview.AudioPreviewer.BusMessage | pitivi/timeline/previewers.py:1115-1159 | the retry state follows `Step`; end of stream takes the mono mix and stops; an error stops, counts and relaunches (registering once, resetting the bucket count) only after the first failure, the new pipeline set PLAYING when no other audio job took over; READY to PAUSED seeks to 0 at rate 1; PAUSED to PLAYING attaches a fresh, started controller only to a clean job; only end of stream changes the samples, the wave file name never changes, the bucket count changes only on end of stream or a relaunch, and an ignored message keeps the wave bin |
| AudioPreview.AudioPreviewer.OnEos | pitivi/timeline/previewers.py:1116-1119 | the samples are the wave bin's mono mix, the bucket count is their number, the pipeline is set NULL and `done` reaches the scheduler; the wave file name is kept; the retry state follows `Step` |
| AudioPreview.AudioPreviewer.OnError | pitivi/timeline/previewers.py:1121-1141 | the controller is stopped and dropped, the pipeline set NULL, `done` emitted and the failure counted; a first failure launches a fresh pipeline, resets the bucket count and re-registers the job, which is set PLAYING exactly when no other audio job is running or waiting after the `done`; a second gives up and keeps the bucket count; the samples and the wave file name are kept; the retry state follows `Step` |
| AudioPreview.AudioPreviewer.Relaunch | pitivi/timeline/previewers.py:1133-1134 | a fresh wave bin is launched with the bucket count reset from the asset duration, set PLAYING exactly when nothing of its type was running or waiting, and registering the job again (`becomeControlled`) neither changes the scheduler nor starts anything again; the samples and the wave file name are kept |
| AudioPreview.AudioPreviewer.OnStateChanged | pitivi/timeline/previewers.py:1143-1159 | from the pipeline, READY to PAUSED records a seek to 0 at rate 1, and PAUSED to PLAYING attaches a fresh, started controller only when none is attached and nothing has failed; the scheduler, the samples, the bucket count and the wave file name are untouched |

## Left out

- GStreamer and GLib plumbing is not modelled: pipeline construction, element registration, bus watches, `idle_add`/`timeout_add` scheduling, `autoplug-select` callbacks and the thumbnail sink (`PreviewerBin`, `ThumbnailBin`, `TeedThumbnailBin`). Handler bodies are modelled. The pipeline calls of the audio previewer and the rate controller are recorded as actions; the video previewer keeps only its seeks and a pipeline flag.
- GTK and Cairo drawing (`do_draw`, `Thumbnail`, `setSelected`, surfaces, margins, zoom callbacks) is user interface, not logic.
- sqlite, JPEG encoding and decoding, `pickle`, file paths, `hash_file` and the proxy symlinks (`ThumbnailCache.copy`, the proxy branch of `finalize`) are I/O. The store is a map, encoding success is an input, and the wave file's contents are an input or a recorded output.
- The `CPUUsageTracker`, `quantize`, `binary_search` and the `Zoomable` pixel/nanosecond conversions live in files that are not part of this model. CPU usage, the `binary_search` answer and nanosecond spans are parameters, and `quantize` is taken to round down.
- Floating point is modelled with `real`. The dB to linear conversion `10 ** (val / 20) * 100` is an uninterpreted function parameter, and `_get_num_inpoint_samples` is not modelled.
- `getThumbnailCache` called with a `GES.UriClipAsset` first maps the asset to its URI; only the string case is modelled. Two URIs whose files hash alike share a database file on disk; the model gives each URI its own table.
- ThumbnailStore.ThumbnailCache.GetImagesSize assumes sqlite returns the rows in ascending `Time` order, as it does for an integer primary key.
- RateControl.PipelineCpuAdapter.ModulateRate requires the pipeline to be attached while the controller is not stopped (the source would fail on `None`). It treats `query_position` as always successful (the source asserts it).
- RateControl.FreshControllerSuspends gives 92 ticks as an upper bound derived from the 0.01 decrement, not the exact number of ticks.
- VideoPreview.VideoPreviewer.StartThumbnailing does not model the in-point scroll adjustment or the random autosave period, which are UI and timer effects.
- VideoPreview.VideoPreviewer.AddVisibleThumbnails takes the visible span in nanoseconds and does not model the `Thumbnail` widgets it places.
- Waveform.WaveformPreviewer.SetDuration uses integer division for `int(duration / SAMPLE_DURATION)`; float rounding of durations above 2^53 ns is not modelled.
- AudioPreview.AudioPreviewer.LaunchPipeline launches the wave bin with passthrough off. The previewer launches only when its wave file is missing; the proxy case, where the bin's URI differs from the previewer's, is not modelled.
- Scheduler.PreviewGeneratorManager.NextPipeline records the promoted waiter's start in `started` but does not run that previewer's `startGeneration`: the manager holds jobs, not previewer objects. A previewer runs its own `startGeneration` only when its registration starts it at once (`AddPipeline` answers `true`), so a previewer promoted later by another job's `done` keeps its pre-start state in this model.
- `message.src == self.pipeline` comparisons become a `fromPipeline` flag, and a relaunch's `disconnect_by_func` of the old bus is implied: messages always come from the current pipeline.
- VideoPreview.VideoPreviewer.StartGeneration does not record the `set_state(PAUSED)` of `_setupPipeline` (pitivi/timeline/previewers.py:468); it sets the `hasPipeline` flag instead.
- VideoPreview.VideoPreviewer.StopGeneration does not record the `set_state(NULL)` of `stopGeneration` (pitivi/timeline/previewers.py:728); it clears the `hasPipeline` flag instead.
- AudioPreview.AudioPreviewer.OnStateChanged records its READY to PAUSED seek to 0 in the previewer's own `actions`, and RateControl.PipelineCpuAdapter.MessageCb records its seek to the saved position in the controller's `actions`, although both act on the same pipeline. The previewer's bus handler is connected first (pitivi/timeline/previewers.py:1095, the controller's at :924), so in the source the controller's seek comes last and the resumed position wins; the model keeps the two logs apart and does not state that interleaving.
