/**
 * The audio previewer's life cycle (AudioPreviewer): load the waveform from
 * its wave file when one exists, otherwise run a decoding pipeline through a
 * wave bin under the scheduler, relaunch it once after an error and give up
 * after the second, and attach a CPU rate controller only to a pipeline
 * that has never failed.
 *
 * The bus of the pipeline delivers the messages; calls made on the pipeline
 * are recorded as actions. `Control` abstracts the counters and flags that
 * the retry logic is about, and `Step` is what one bus message does to them.
 */
module AudioPreview {
  import opened Seqs
  import opened Scheduler
  import opened RateControl
  import Waveform

  /** A message on the pipeline's bus, as far as the handler looks at it. */
  datatype AudioMessage =
    | Eos
    | Error
    | Transition(prev: GstState, next: GstState, fromPipeline: bool)
    | Ignored

  /**
   * The retry state: failures so far, whether a rate controller is attached,
   * pipelines built, whether generation was given up, whether the samples
   * are ready to draw.
   */
  datatype Control = Control(failures: nat, adapter: bool, launches: nat, abandoned: bool, discovered: bool)

  /**
   * No rate controller once a pipeline has failed, and generation is given
   * up exactly when two failures are counted.
   */
  predicate Clean(c: Control)
  {
    (c.failures > 0 ==> !c.adapter) && (c.abandoned <==> c.failures >= 2)
  }

  /** What `_busMessageCb` does to the retry state. */
  function Step(c: Control, msg: AudioMessage): (r: Control)
  {
    match msg
    case Eos => c.(discovered := true, adapter := false)
    case Error =>
      var f := c.failures + 1;
      c.(failures := f, adapter := false,
         launches := if f < 2 then c.launches + 1 else c.launches,
         abandoned := c.abandoned || f >= 2)
    case Transition(prev, next, fromPipeline) =>
      if fromPipeline && !(prev == Ready && next == Paused)
         && !c.adapter && prev == Paused && next == Playing && c.failures == 0
      then c.(adapter := true)
      else c
    case Ignored => c
  }

  /**
   * An error counts a failure and drops the rate controller; the pipeline is
   * relaunched exactly when this is the first failure, and generation is
   * given up from the second on.
   */
  lemma ErrorLaw(c: Control)
    ensures var r := Step(c, Error);
            && r.failures == c.failures + 1 && !r.adapter && r.discovered == c.discovered
            && (r.launches == c.launches + 1 <==> c.failures == 0)
            && (r.launches == c.launches <==> c.failures > 0)
            && (r.abandoned <==> c.abandoned || c.failures > 0)
  {
  }

  /**
   * A rate controller appears only on a PAUSED to PLAYING change of the
   * pipeline, when none is attached and nothing has failed; every message
   * keeps `Clean`.
   */
  lemma AdapterOnlyBeforeFailure(c: Control, msg: AudioMessage)
    ensures Clean(c) ==> Clean(Step(c, msg))
    ensures Step(c, msg).adapter && !c.adapter ==>
              c.failures == 0 && msg == Transition(Paused, Playing, true)
    ensures (msg.Transition? && msg.fromPipeline && msg.prev == Paused && msg.next == Playing
             && !c.adapter && c.failures == 0) ==> Step(c, msg).adapter
  {
  }

  /** The handler applied to each message in turn. */
  function Run(c: Control, msgs: seq<AudioMessage>): (r: Control)
    decreases |msgs|
  {
    if msgs == [] then c else Run(Step(c, msgs[0]), msgs[1..])
  }

  /**
   * Over any stream of messages: failures grow by the number of errors, a
   * clean job is relaunched at most once (exactly when some error arrives)
   * and one that failed before never again, generation is given up once two
   * errors are counted in all, and a failed job never gets a rate controller
   * back.
   */
  lemma {:induction false} RunLaw(c: Control, msgs: seq<AudioMessage>)
    requires Clean(c)
    ensures Clean(Run(c, msgs))
    ensures Run(c, msgs).failures == c.failures + multiset(msgs)[Error]
    ensures Run(c, msgs).launches == c.launches + (if c.failures == 0 && Error in msgs then 1 else 0)
    ensures Run(c, msgs).abandoned <==> c.failures + multiset(msgs)[Error] >= 2
    decreases |msgs|
  {
    if msgs != [] {
      var c1 := Step(c, msgs[0]);
      AdapterOnlyBeforeFailure(c, msgs[0]);
      RunLaw(c1, msgs[1..]);
      assert msgs == [msgs[0]] + msgs[1..];
      assert multiset(msgs)[Error] == (if msgs[0] == Error then 1 else 0) + multiset(msgs[1..])[Error];
    }
  }

  /**
   * The number of buckets announced before the samples exist:
   * `duration / SAMPLE_DURATION`, a true division. Its whole part is the
   * number of buckets the wave bin fills (`int(n_samples)`).
   */
  function Buckets(duration: nat): (n: real)
    ensures n * Waveform.SAMPLE_DURATION as real == duration as real
    ensures n.Floor == duration / Waveform.SAMPLE_DURATION
  {
    var d := Waveform.SAMPLE_DURATION;
    var q, r := duration / d, duration % d;
    assert duration as real == q as real * d as real + r as real;
    var frac := r as real / d as real;
    assert 0.0 <= frac < 1.0;
    assert duration as real / d as real == q as real + frac;
    duration as real / d as real
  }

  class AudioPreviewer {
    const job: Job
    const manager: PreviewGeneratorManager
    /** The asset's duration, in nanoseconds. */
    const duration: nat
    /** The dB to linear conversion handed to each wave bin. */
    const toLinear: real -> real
    /** The wave bin of the current pipeline; `null` until one is launched (`self.pipeline` is `None`). */
    var wavebin: Waveform.WaveformPreviewer?
    var adapter: PipelineCpuAdapter?
    /** Where the waveform is to be saved, once a pipeline is launched for it. */
    var waveFile: Option<string>
    var samples: Option<seq<real>>
    var nSamples: real
    var discovered: bool
    var numFailures: nat
    /** Pipelines built so far. */
    var launches: nat
    /** Generation was given up (diagnostics dumped). */
    var abandoned: bool
    /** Calls made on the pipelines, in order. */
    var actions: seq<PipelineAction>

    /** The retry state of this previewer. */
    ghost function Retry(): Control
      reads this
    {
      Control(numFailures, adapter != null, launches, abandoned, discovered)
    }

    ghost predicate Valid()
      reads this, manager, wavebin
    {
      && job.trackType == Audio && manager.Valid()
      && Clean(Retry())
      && (wavebin != null <==> launches > 0)
      && (wavebin != null ==> wavebin.Valid() && !wavebin.passthrough)
    }

    constructor (id: nat, manager: PreviewGeneratorManager, duration: nat, toLinear: real -> real)
      requires manager.Valid()
      ensures Valid() && job == Job(id, Audio) && this.manager == manager && this.duration == duration
      ensures Retry() == Control(0, false, 0, false, false)
      ensures wavebin == null && waveFile == None && samples == None && actions == []
      ensures nSamples == Buckets(duration)
    {
      job := Job(id, Audio);
      this.manager := manager;
      this.duration := duration;
      this.toLinear := toLinear;
      wavebin := null;
      adapter := null;
      waveFile := None;
      samples := None;
      nSamples := Buckets(duration);
      discovered := false;
      numFailures := 0;
      launches := 0;
      abandoned := false;
      actions := [];
    }

    /**
     * `_startLevelsDiscovery`: `stored` is the content of the wave file at
     * `location` when it exists. An existing file is loaded and drawn and no
     * pipeline is built; otherwise a pipeline is launched to produce it.
     */
    method StartLevelsDiscovery(location: string, stored: Option<seq<real>>)
      requires Valid()
      modifies this, manager, adapter
      ensures Valid()
      ensures stored.Some? ==>
                && samples == stored && discovered && nSamples == |stored.value| as real
                && launches == old(launches) && wavebin == old(wavebin) && waveFile == old(waveFile)
                && manager.Model() == old(manager.Model())
      ensures stored.None? ==>
                && waveFile == Some(location) && launches == old(launches) + 1
                && wavebin != null && fresh(wavebin)
                && manager.Model() == Add(old(manager.Model()), job)
                && samples == old(samples) && discovered == old(discovered)
                && nSamples == Buckets(duration)
                && actions == old(actions) + (if Line(old(manager.Model()), job.trackType) == [] then [SetState(Playing)] else [])
      ensures stored.Some? ==> actions == old(actions)
      ensures numFailures == old(numFailures) && adapter == old(adapter)
    {
      if stored.Some? {
        samples := stored;
        StartRendering();
      } else {
        waveFile := Some(location);
        LaunchPipeline();
      }
    }

    /**
     * `_launchPipeline`: a new pipeline whose wave bin records the asset's
     * duration (there is no wave file yet, so the bin collects readings),
     * and the job registers with the scheduler. When nothing of its type is
     * running or waiting the scheduler starts it at once: the pipeline is
     * set PLAYING.
     */
    method LaunchPipeline()
      requires Valid()
      modifies this, manager, adapter
      ensures Valid()
      ensures wavebin != null && fresh(wavebin) && wavebin.peaks == None
      ensures wavebin.nSamples == duration / Waveform.SAMPLE_DURATION
      ensures launches == old(launches) + 1 && nSamples == Buckets(duration)
      ensures manager.Model() == Add(old(manager.Model()), job)
      ensures numFailures == old(numFailures) && adapter == old(adapter) && abandoned == old(abandoned)
      ensures samples == old(samples) && discovered == old(discovered) && waveFile == old(waveFile)
      ensures actions == old(actions) + (if Line(old(manager.Model()), job.trackType) == [] then [SetState(Playing)] else [])
      ensures Line(old(manager.Model()), job.trackType) == [] && adapter != null ==> adapter.busConnected && !adapter.done
    {
      var bin := new Waveform.WaveformPreviewer(toLinear);
      bin.SetUri(false);
      bin.SetDuration(duration);
      wavebin := bin;
      launches := launches + 1;
      nSamples := Buckets(duration);
      BecomeControlled();
    }

    /**
     * `becomeControlled`: registers the job with the scheduler, which runs
     * `startGeneration` at once (the pipeline is set PLAYING) when nothing of
     * its type is running or waiting.
     */
    method BecomeControlled()
      requires Valid() && wavebin != null
      modifies this, manager, adapter
      ensures Valid() && manager.Model() == Add(old(manager.Model()), job)
      ensures actions == old(actions) + (if Line(old(manager.Model()), job.trackType) == [] then [SetState(Playing)] else [])
      ensures adapter == old(adapter)
      ensures Line(old(manager.Model()), job.trackType) == [] && adapter != null ==> adapter.busConnected && !adapter.done
      ensures Retry() == old(Retry()) && wavebin == old(wavebin) && samples == old(samples)
      ensures nSamples == old(nSamples) && waveFile == old(waveFile)
    {
      var startNow := manager.AddPipeline(job);
      if startNow {
        StartGeneration();
      }
    }

    /** `_prepareSamples`: the wave bin mixes its readings down and hands them over. */
    method PrepareSamples()
      requires Valid() && wavebin != null
      modifies wavebin, this
      ensures Valid() && wavebin == old(wavebin) && wavebin.peaks == old(wavebin.peaks)
      ensures samples == Some(wavebin.samples)
      ensures wavebin.peaks.Some? ==> wavebin.samples == Waveform.DownMix(wavebin.peaks.value)
      ensures Retry() == old(Retry()) && adapter == old(adapter) && nSamples == old(nSamples)
      ensures waveFile == old(waveFile) && actions == old(actions)
    {
      wavebin.Finalize();
      samples := Some(wavebin.samples);
    }

    /** `_startRendering`: the samples are ready; a running rate controller is stopped. */
    method StartRendering()
      requires samples.Some?
      modifies this, adapter
      ensures samples == old(samples) && nSamples == |samples.value| as real && discovered
      ensures adapter == old(adapter) && (adapter != null ==> adapter.done && !adapter.busConnected)
      ensures numFailures == old(numFailures) && launches == old(launches)
      ensures abandoned == old(abandoned) && wavebin == old(wavebin) && waveFile == old(waveFile)
      ensures actions == old(actions)
    {
      nSamples := |samples.value| as real;
      discovered := true;
      if adapter != null {
        adapter.Stop();
      }
    }

    /** `startGeneration`: the pipeline plays; an attached rate controller starts. */
    method StartGeneration()
      requires wavebin != null
      modifies this, adapter
      ensures actions == old(actions) + [SetState(Playing)]
      ensures adapter == old(adapter) && (adapter != null ==> adapter.busConnected && !adapter.done)
      ensures Retry() == old(Retry()) && wavebin == old(wavebin) && samples == old(samples)
      ensures nSamples == old(nSamples) && waveFile == old(waveFile)
    {
      actions := actions + [SetState(Playing)];
      if adapter != null {
        adapter.Start();
      }
    }

    /**
     * `stopGeneration`: the rate controller is stopped and dropped, the
     * pipeline is set to NULL, and `done` goes to the scheduler.
     */
    method StopGeneration()
      requires Valid()
      modifies this, manager, adapter
      ensures Valid() && adapter == null
      ensures old(adapter) != null ==> old(adapter).done && !old(adapter).busConnected
      ensures actions == old(actions) + (if wavebin != null then [SetState(Null)] else [])
      ensures manager.Model() == Done(old(manager.Model()), job)
      ensures Retry() == old(Retry()).(adapter := false)
      ensures wavebin == old(wavebin) && samples == old(samples) && nSamples == old(nSamples)
      ensures waveFile == old(waveFile)
    {
      if adapter != null {
        adapter.Stop();
        adapter := null;
      }
      if wavebin != null {
        actions := actions + [SetState(Null)];
      }
      manager.EmitDone(job);
    }

    /**
     * `_busMessageCb`. End of stream: the samples are taken from the wave
     * bin and generation stops. Error: generation stops, the failure is
     * counted, and a new pipeline is launched after the first failure only.
     * READY to PAUSED: the pipeline seeks to 0 at rate 1. PAUSED to PLAYING:
     * a rate controller is attached if none is and nothing has failed.
     */
    method BusMessage(msg: AudioMessage)
      requires Valid() && wavebin != null
      modifies this, manager, adapter, wavebin
      ensures Valid() && Retry() == Step(old(Retry()), msg)
      ensures old(adapter) != null && adapter != old(adapter) ==> old(adapter).done && !old(adapter).busConnected
      ensures msg.Eos? ==>
                && wavebin == old(wavebin) && samples == Some(wavebin.samples)
                && (wavebin.peaks.Some? ==> wavebin.samples == Waveform.DownMix(wavebin.peaks.value))
                && nSamples == |samples.value| as real
                && actions == old(actions) + [SetState(Null)]
                && manager.Model() == Done(old(manager.Model()), job)
      ensures msg.Error? ==>
                && actions == old(actions) + [SetState(Null)] +
                   (if numFailures < 2 && Line(Done(old(manager.Model()), job), job.trackType) == [] then [SetState(Playing)] else [])
                && (numFailures < 2 ==> fresh(wavebin) && manager.Model() == Add(Done(old(manager.Model()), job), job))
                && (numFailures >= 2 ==> wavebin == old(wavebin) && manager.Model() == Done(old(manager.Model()), job))
      ensures msg.Transition? ==>
                && manager.Model() == old(manager.Model()) && wavebin == old(wavebin)
                && actions == old(actions) + (if msg.fromPipeline && msg.prev == Ready && msg.next == Paused then [Seek(1.0, 0)] else [])
                && (adapter != old(adapter) ==> adapter != null && fresh(adapter) && adapter.busConnected && adapter.State() == Initial)
      ensures msg.Ignored? ==>
                && manager.Model() == old(manager.Model()) && actions == old(actions) && adapter == old(adapter)
                && wavebin == old(wavebin)
      ensures waveFile == old(waveFile)
      ensures !msg.Eos? ==> samples == old(samples)
      ensures msg.Transition? || msg.Ignored? ==> nSamples == old(nSamples)
      ensures msg.Error? ==> nSamples == if numFailures < 2 then Buckets(duration) else old(nSamples)
    {
      match msg {
        case Eos => OnEos();
        case Error => OnError();
        case Transition(prev, next, fromPipeline) => OnStateChanged(prev, next, fromPipeline);
        case Ignored =>
      }
    }

    /** End of stream: the samples are taken from the wave bin and drawn; generation stops. */
    method OnEos()
      requires Valid() && wavebin != null
      modifies this, manager, adapter, wavebin
      ensures Valid() && Retry() == Step(old(Retry()), Eos)
      ensures old(adapter) != null ==> old(adapter).done && !old(adapter).busConnected
      ensures wavebin == old(wavebin) && samples == Some(wavebin.samples)
      ensures wavebin.peaks.Some? ==> wavebin.samples == Waveform.DownMix(wavebin.peaks.value)
      ensures nSamples == |samples.value| as real
      ensures actions == old(actions) + [SetState(Null)]
      ensures manager.Model() == Done(old(manager.Model()), job)
      ensures waveFile == old(waveFile)
    {
      PrepareSamples();
      StartRendering();
      StopGeneration();
    }

    /**
     * A pipeline error: generation stops and the failure is counted; after
     * the first failure a new pipeline is launched, after the second the
     * previewer gives up.
     */
    method OnError()
      requires Valid() && wavebin != null
      modifies this, manager, adapter
      ensures Valid() && Retry() == Step(old(Retry()), Error)
      ensures old(adapter) != null ==> old(adapter).done && !old(adapter).busConnected
      ensures actions == old(actions) + [SetState(Null)] +
                (if numFailures < 2 && Line(Done(old(manager.Model()), job), job.trackType) == [] then [SetState(Playing)] else [])
      ensures numFailures < 2 ==> fresh(wavebin) && manager.Model() == Add(Done(old(manager.Model()), job), job)
      ensures numFailures >= 2 ==> wavebin == old(wavebin) && manager.Model() == Done(old(manager.Model()), job)
      ensures nSamples == if numFailures < 2 then Buckets(duration) else old(nSamples)
      ensures samples == old(samples) && waveFile == old(waveFile)
    {
      if adapter != null {
        adapter.Stop();
        adapter := null;
      }
      StopGeneration();
      numFailures := numFailures + 1;
      if numFailures < 2 {
        Relaunch();
      } else {
        abandoned := true;
      }
    }

    /**
     * The retry after a first failure: a new pipeline, started at once when
     * nothing of its type is running or waiting, and `becomeControlled`
     * registers the job again, which neither changes the scheduler nor starts
     * anything after the launch registered it.
     */
    method Relaunch()
      requires Valid()
      modifies this, manager, adapter
      ensures Valid() && fresh(wavebin)
      ensures manager.Model() == Add(old(manager.Model()), job)
      ensures launches == old(launches) + 1 && numFailures == old(numFailures)
      ensures adapter == old(adapter) && abandoned == old(abandoned) && discovered == old(discovered)
      ensures actions == old(actions) + (if Line(old(manager.Model()), job.trackType) == [] then [SetState(Playing)] else [])
      ensures nSamples == Buckets(duration) && samples == old(samples) && waveFile == old(waveFile)
    {
      ghost var stopped := manager.Model();
      LaunchPipeline();
      // the job is already running or waiting, so `_setPipeline` is not reached again
      AddJoinsLine(stopped, job);
      BecomeControlled();
      AddTwice(stopped, job);
    }

    /**
     * A state change: from the pipeline, READY to PAUSED seeks to 0 at rate
     * 1, and PAUSED to PLAYING attaches a rate controller if none is attached
     * and nothing has failed.
     */
    method OnStateChanged(prev: GstState, next: GstState, fromPipeline: bool)
      requires Valid() && wavebin != null
      modifies this
      ensures Valid() && Retry() == Step(old(Retry()), Transition(prev, next, fromPipeline))
      ensures manager.Model() == old(manager.Model()) && wavebin == old(wavebin)
      ensures actions == old(actions) + (if fromPipeline && prev == Ready && next == Paused then [Seek(1.0, 0)] else [])
      ensures adapter != old(adapter) ==>
                old(adapter) == null && adapter != null && fresh(adapter) && adapter.busConnected && adapter.State() == Initial
      ensures samples == old(samples) && nSamples == old(nSamples) && waveFile == old(waveFile)
    {
      if fromPipeline {
        if prev == Ready && next == Paused {
          actions := actions + [Seek(1.0, 0)];
        } else if adapter == null && prev == Paused && next == Playing && numFailures == 0 {
          var a := new PipelineCpuAdapter();
          a.Start();
          adapter := a;
        }
      }
    }
  }
}
