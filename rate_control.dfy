/**
 * The CPU rate controller (PipelineCpuAdapter) that throttles the waveform
 * analysis pipeline.
 *
 * Every 200 ms the controller reads the CPU usage and, under load, slows the
 * playback rate by 10 %; once the rate is below 0.1 it suspends the pipeline
 * (READY) and remembers the position. Without load it speeds up by 10 %, and
 * when a suspended pipeline is sped past 0.5 it is asked to PAUSE; the bus
 * handler then sees READY -> PAUSED and resumes at rate 1.0 from the saved
 * position. Pipeline calls are recorded as actions; the CPU reading and the
 * position the pipeline reports are inputs.
 */
module RateControl {

  /** `WAVEFORMS_CPU_USAGE`: the load, in percent, above which analysis slows down. */
  const WAVEFORMS_CPU_USAGE: real := 30.0

  datatype GstState = Null | Ready | Paused | Playing

  /** A call made on the controlled pipeline. */
  datatype PipelineAction = SetState(state: GstState) | Seek(rate: real, position: int)

  /** A bus message as seen by the controller's handler. */
  datatype BusMessage = StateChanged(prev: GstState, next: GstState, fromPipeline: bool) | OtherMessage

  /** The controller's fields: `rate`, `done`, `ready` (suspended) and `lastPos`. */
  datatype Adapter = Adapter(rate: real, done: bool, ready: bool, lastPos: int)

  /** Outcome of one timer tick: new fields, whether the timer stays armed, pipeline calls. */
  datatype Tick = Tick(next: Adapter, keep: bool, actions: seq<PipelineAction>)

  /** The fields of a freshly constructed controller. */
  const Initial := Adapter(1.0, false, false, 0)

  /**
   * `_modulateRate`: one timer tick with CPU reading `usage`; `position` is
   * what the pipeline reports when its position is queried.
   */
  function Modulate(a: Adapter, usage: real, position: int): (t: Tick)
    ensures t.next.done == a.done
  {
    if a.done then Tick(a, false, [])
    else if usage >= WAVEFORMS_CPU_USAGE && a.rate < 0.1 then
      if !a.ready then Tick(a.(ready := true, lastPos := position), true, [SetState(Ready)])
      else Tick(a, true, [])
    else
      var rate :=
        if usage >= WAVEFORMS_CPU_USAGE then (if a.rate > 0.0 then a.rate * 0.9 else a.rate)
        else a.rate * 1.1;
      if a.ready then
        Tick(a.(rate := rate), true, if rate > 0.5 then [SetState(Paused)] else [])
      else
        Tick(a.(rate := rate, ready := false), true, [SetState(Paused), Seek(rate, position), SetState(Playing)])
  }

  /** `_messageCb`: the controller's bus handler. */
  function OnMessage(a: Adapter, msg: BusMessage): (r: (Adapter, seq<PipelineAction>))
    ensures r.0.rate == a.rate && r.0.done == a.done && r.0.lastPos == a.lastPos
  {
    if !a.ready then (a, [])
    else match msg
      case StateChanged(prev, next, fromPipeline) =>
        if fromPipeline && prev == Ready && next == Paused then (a.(ready := false), [Seek(1.0, a.lastPos)])
        else (a, [])
      case OtherMessage => (a, [])
  }

  /** After `stop()` a tick changes nothing, calls nothing and disarms the timer. */
  lemma StoppedIsInert(a: Adapter, usage: real, position: int)
    requires a.done
    ensures Modulate(a, usage, position) == Tick(a, false, [])
  {
  }

  /**
   * How a live tick moves the rate: under load it is cut by 10 % until it is
   * below 0.1, where it is held; without load it grows by 10 %. A live tick
   * always keeps the timer armed, and the rate stays positive.
   */
  lemma RateLaw(a: Adapter, usage: real, position: int)
    requires !a.done && a.rate > 0.0
    ensures var t := Modulate(a, usage, position);
            && t.keep
            && t.next.rate > 0.0
            && (usage >= WAVEFORMS_CPU_USAGE && a.rate >= 0.1 ==> t.next.rate == a.rate * 0.9 < a.rate)
            && (usage >= WAVEFORMS_CPU_USAGE && a.rate < 0.1 ==> t.next.rate == a.rate)
            && (usage < WAVEFORMS_CPU_USAGE ==> t.next.rate == a.rate * 1.1 > a.rate)
  {
  }

  /**
   * The pipeline is sent to READY exactly on the tick that first finds it
   * overloaded at a rate below 0.1; that tick records the position and marks
   * the controller suspended, so the READY request is issued once.
   */
  lemma SuspendsOnce(a: Adapter, usage: real, position: int)
    ensures var t := Modulate(a, usage, position);
            SetState(Ready) in t.actions <==> !a.done && !a.ready && usage >= WAVEFORMS_CPU_USAGE && a.rate < 0.1
    ensures var t := Modulate(a, usage, position);
            SetState(Ready) in t.actions ==> t.next.ready && t.next.lastPos == position
    ensures a.ready ==> Modulate(a, usage, position).next.ready
  {
  }

  /**
   * While suspended, a tick never seeks or plays and keeps the saved
   * position; it asks for PAUSED exactly when the new rate exceeds 0.5.
   */
  lemma SuspendedTicksOnlyPause(a: Adapter, usage: real, position: int)
    requires a.ready && !a.done
    ensures var t := Modulate(a, usage, position);
            && t.next.ready && t.next.lastPos == a.lastPos
            && (forall act | act in t.actions :: act == SetState(Paused))
            && (SetState(Paused) in t.actions <==> t.next.rate > 0.5)
  {
  }

  /**
   * A running (not suspended) tick that adjusts the rate re-seeks the
   * pipeline at the new rate from the current position and sets it playing.
   */
  lemma LiveTickReseeks(a: Adapter, usage: real, position: int)
    requires !a.done && !a.ready && !(usage >= WAVEFORMS_CPU_USAGE && a.rate < 0.1)
    ensures var t := Modulate(a, usage, position);
            t.actions == [SetState(Paused), Seek(t.next.rate, position), SetState(Playing)] && !t.next.ready
  {
  }

  /**
   * Suspend then resume: once a tick suspended the pipeline at `position`,
   * the READY -> PAUSED transition of that pipeline makes the handler seek
   * back to `position` at rate 1.0 and clear the suspension; the controller's
   * own `rate` is left as it was.
   */
  lemma ResumeFromSavedPosition(a: Adapter, usage: real, position: int)
    requires !a.done && !a.ready && usage >= WAVEFORMS_CPU_USAGE && a.rate < 0.1
    ensures var s := Modulate(a, usage, position).next;
            var r := OnMessage(s, StateChanged(Ready, Paused, true));
            r.1 == [Seek(1.0, position)] && !r.0.ready && r.0.rate == a.rate
  {
  }

  /** The handler reacts to nothing while the controller is not suspended. */
  lemma HandlerIdleUnlessSuspended(a: Adapter, msg: BusMessage)
    requires !a.ready
    ensures OnMessage(a, msg) == (a, [])
  {
  }

  /** Successive ticks with the CPU readings `usages`. */
  function Run(a: Adapter, usages: seq<real>, position: int): (r: Adapter)
    ensures r.done == a.done
    decreases |usages|
  {
    if usages == [] then a else Run(Modulate(a, usages[0], position).next, usages[1..], position)
  }

  /** Once suspended, the controller stays suspended through any ticks. */
  lemma {:induction false} RunKeepsSuspended(a: Adapter, usages: seq<real>, position: int)
    requires a.ready
    ensures Run(a, usages, position).ready
    decreases |usages|
  {
    if usages != [] {
      SuspendsOnce(a, usages[0], position);
      RunKeepsSuspended(Modulate(a, usages[0], position).next, usages[1..], position);
    }
  }

  /**
   * Sustained overload suspends the pipeline: each overloaded tick at a rate
   * of at least 0.1 lowers it by at least 0.01, so `k + 1` overloaded ticks
   * suspend a controller whose rate is below `0.1 + 0.01 * k`.
   */
  lemma {:induction false} OverloadSuspends(a: Adapter, usages: seq<real>, position: int)
    requires !a.done && a.rate > 0.0 && |usages| > 0
    requires forall u | u in usages :: u >= WAVEFORMS_CPU_USAGE
    requires a.rate < 0.1 + 0.01 * ((|usages| - 1) as real)
    ensures Run(a, usages, position).ready
    decreases |usages|
  {
    var next := Modulate(a, usages[0], position).next;
    assert usages[0] in usages;
    if a.rate < 0.1 || a.ready {
      SuspendsOnce(a, usages[0], position);
      RunKeepsSuspended(next, usages[1..], position);
    } else {
      RateLaw(a, usages[0], position);
      assert next.rate <= a.rate - 0.01;
      assert |usages| > 1;
      forall u | u in usages[1..] ensures u >= WAVEFORMS_CPU_USAGE {
        assert u in usages;
      }
      OverloadSuspends(next, usages[1..], position);
    }
  }

  /**
   * A fresh controller under constant overload is suspended after 92 ticks
   * (a bound from the 0.01 step above, not the exact count).
   */
  lemma FreshControllerSuspends(usages: seq<real>, position: int)
    requires |usages| == 92
    requires forall u | u in usages :: u >= WAVEFORMS_CPU_USAGE
    ensures Run(Initial, usages, position).ready
  {
    OverloadSuspends(Initial, usages, position);
  }

  /** The controller object; `actions` logs the calls made on the pipeline. */
  class PipelineCpuAdapter {
    var rate: real
    var done: bool
    var ready: bool
    var lastPos: int
    /** The bus "message" handler is connected. */
    var busConnected: bool
    /** `self.pipeline` is not `None`. */
    var attached: bool
    var actions: seq<PipelineAction>

    ghost function State(): Adapter
      reads this
    {
      Adapter(rate, done, ready, lastPos)
    }

    ghost predicate Valid()
      reads this
    {
      rate > 0.0
    }

    constructor ()
      ensures Valid() && State() == Initial
      ensures attached && !busConnected && actions == []
    {
      rate := 1.0;
      done := false;
      ready := false;
      lastPos := 0;
      busConnected := false;
      attached := true;
      actions := [];
    }

    /** `start()`: arms the timer and connects the bus handler. */
    method Start()
      modifies this
      ensures busConnected && State() == old(State()).(done := false)
      ensures attached == old(attached) && actions == old(actions)
    {
      busConnected := true;
      done := false;
    }

    /** `stop()`: disconnects the handler, drops the pipeline, and the next tick disarms the timer. */
    method Stop()
      modifies this
      ensures !busConnected && !attached && State() == old(State()).(done := true)
      ensures actions == old(actions)
    {
      busConnected := false;
      attached := false;
      done := true;
    }

    /** `_modulateRate`; the result says whether the GLib timer stays armed. */
    method ModulateRate(usage: real, position: int) returns (keep: bool)
      requires Valid() && (done || attached)
      modifies this
      ensures Valid()
      ensures var t := Modulate(old(State()), usage, position);
              State() == t.next && keep == t.keep && actions == old(actions) + t.actions
      ensures attached == old(attached) && busConnected == old(busConnected)
    {
      if !done {
        RateLaw(State(), usage, position);
      }
      if done {
        return false;
      }
      if usage >= WAVEFORMS_CPU_USAGE {
        if rate < 0.1 {
          if !ready {
            ready := true;
            actions := actions + [SetState(Ready)];
            lastPos := position;
          }
          return true;
        }
        if rate > 0.0 {
          rate := rate * 0.9;
        }
      } else {
        rate := rate * 1.1;
      }
      if ready {
        // avoid going back and forth between READY and PAUSED
        if rate > 0.5 {
          actions := actions + [SetState(Paused)];
        }
        return true;
      }
      actions := actions + [SetState(Paused), Seek(rate, position), SetState(Playing)];
      ready := false;
      keep := true;
    }

    /** `_messageCb`. */
    method MessageCb(msg: BusMessage)
      modifies this
      ensures var r := OnMessage(old(State()), msg);
              State() == r.0 && actions == old(actions) + r.1
      ensures attached == old(attached) && busConnected == old(busConnected)
    {
      if !ready {
        return;
      }
      if msg.StateChanged? && msg.fromPipeline && msg.prev == Ready && msg.next == Paused {
        actions := actions + [Seek(1.0, lastPos)];
        ready := false;
      }
    }
  }
}
