/**
 * Waveform accumulation (WaveformPreviewer, the `waveformbin` element).
 *
 * The `level` element posts one RMS reading per channel and per interval;
 * each reading is filed in a per-channel array of buckets of SAMPLE_DURATION
 * (10 ms) at the bucket of its stream time. A negative reading (in dB) is
 * stored converted to a linear value; a non-negative one repeats the bucket
 * before it. At the end the channels are mixed down to mono. The dB to
 * linear conversion is a parameter; the wave file is recorded as the list it
 * would contain.
 */
module Waveform {
  import opened Seqs

  /** `SAMPLE_DURATION`: one bucket, 10 ms in nanoseconds. */
  const SAMPLE_DURATION: nat := 10000000

  /** A message posted inside the bin: a `level` reading or anything else. */
  datatype LevelMessage = Level(rms: seq<real>, streamTime: nat) | OtherMessage

  /** What `do_post_message` did with the message. */
  datatype PostOutcome =
    | Forwarded   // passed on to the parent bin
    | Swallowed   // returned early: the reading lies past the last bucket
    | Raised      // IndexError: the reading has more channels than the arrays

  /** Python's `a[pos - 1]` index: `pos - 1`, or the last index when `pos` is 0. */
  function PrevIndex(pos: nat, n: nat): (k: nat)
    requires pos < n
    ensures k < n
    ensures pos > 0 ==> k == pos - 1
    ensures pos == 0 ==> k == n - 1
  {
    if pos == 0 then n - 1 else pos - 1
  }

  /** `[0] * n`. */
  function Zeros(n: nat): (r: seq<real>)
    ensures |r| == n && forall i | 0 <= i < n :: r[i] == 0.0
  {
    seq(n, _ => 0.0)
  }

  /** The arrays created on the first reading: `[0] * n` for each of `channels`. */
  function Blank(channels: nat, n: nat): (r: seq<seq<real>>)
    ensures |r| == channels && forall c | c in r :: c == Zeros(n)
  {
    seq(channels, _ => Zeros(n))
  }

  /** The value a reading `val` leaves in bucket `pos` of `bucket`. */
  function Reading(bucket: seq<real>, val: real, pos: nat, conv: real -> real): real
    requires pos < |bucket|
  {
    if val < 0.0 then conv(val) else bucket[PrevIndex(pos, |bucket|)]
  }

  /** All channel arrays exist and have the same length. */
  predicate Rectangular(peaks: seq<seq<real>>)
  {
    |peaks| > 0 && forall c | c in peaks :: |c| == |peaks[0]|
  }

  /**
   * The arrays after filing the readings `rms` at bucket `pos`: channel `i`
   * takes `rms[i]` when there is one; channels without a reading keep theirs.
   */
  function Record(peaks: seq<seq<real>>, rms: seq<real>, pos: nat, conv: real -> real): (r: seq<seq<real>>)
    requires Rectangular(peaks) && pos < |peaks[0]|
  {
    seq(|peaks|, i requires 0 <= i < |peaks| =>
      assert peaks[i] in peaks;
      if i < |rms| then peaks[i][pos := Reading(peaks[i], rms[i], pos, conv)] else peaks[i])
  }

  /**
   * Filing a reading changes bucket `pos` of the channels that got a reading
   * and nothing else: a negative reading is stored converted, a
   * non-negative one copies bucket `pos - 1`, which for `pos == 0` is the
   * last bucket. Array lengths are kept.
   */
  lemma RecordLaw(peaks: seq<seq<real>>, rms: seq<real>, pos: nat, conv: real -> real)
    requires Rectangular(peaks) && pos < |peaks[0]|
    ensures var r := Record(peaks, rms, pos, conv);
            && |r| == |peaks| && Rectangular(r) && |r[0]| == |peaks[0]|
            && forall i, j | 0 <= i < |peaks| && 0 <= j < |peaks[0]| ::
                 r[i][j] == (if i < |rms| && j == pos then Reading(peaks[i], rms[i], pos, conv) else peaks[i][j])
  {
    var r := Record(peaks, rms, pos, conv);
    forall i | 0 <= i < |peaks| ensures |r[i]| == |peaks[0]| {
      assert peaks[i] in peaks;
    }
    forall c | c in r ensures |c| == |r[0]| {
      var i :| 0 <= i < |r| && r[i] == c;
    }
  }

  /** Hold-last: a non-negative reading at bucket `pos > 0` repeats bucket `pos - 1`. */
  lemma HoldLast(peaks: seq<seq<real>>, rms: seq<real>, pos: nat, conv: real -> real, i: nat)
    requires Rectangular(peaks) && 0 < pos < |peaks[0]| && i < |rms| && i < |peaks| && rms[i] >= 0.0
    ensures Record(peaks, rms, pos, conv)[i][pos] == peaks[i][pos - 1]
  {
    RecordLaw(peaks, rms, pos, conv);
  }

  /** At bucket 0 a non-negative reading copies the last bucket (`[-1]`). */
  lemma WrapAtZero(peaks: seq<seq<real>>, rms: seq<real>, conv: real -> real, i: nat)
    requires Rectangular(peaks) && 0 < |peaks[0]| && i < |rms| && i < |peaks| && rms[i] >= 0.0
    ensures Record(peaks, rms, 0, conv)[i][0] == peaks[i][|peaks[0]| - 1]
  {
    RecordLaw(peaks, rms, 0, conv);
    assert peaks[i] in peaks;
  }

  /**
   * `finalize`'s mix to mono: the mean of channels 0 and 1 when there are
   * several channels (any further channel is ignored), channel 0 otherwise.
   */
  function DownMix(peaks: seq<seq<real>>): (r: seq<real>)
    requires Rectangular(peaks)
  {
    if |peaks| > 1 then
      assert peaks[1] in peaks;
      seq(|peaks[0]|, i requires 0 <= i < |peaks[0]| => (peaks[0][i] + peaks[1][i]) / 2.0)
    else peaks[0]
  }

  /**
   * The mono samples have one value per bucket; each lies between the two
   * channels' values (equal to channel 0 for mono input), and only the first
   * two channels matter.
   */
  lemma DownMixLaw(peaks: seq<seq<real>>)
    requires Rectangular(peaks)
    ensures var r := DownMix(peaks);
            && |r| == |peaks[0]|
            && (|peaks| == 1 ==> r == peaks[0])
            && (|peaks| > 1 ==> forall i | 0 <= i < |r| ::
                  r[i] + r[i] == peaks[0][i] + peaks[1][i]
                  && (peaks[0][i] <= r[i] <= peaks[1][i] || peaks[1][i] <= r[i] <= peaks[0][i]))
            && (|peaks| > 2 ==> Rectangular(peaks[..2]) && r == DownMix(peaks[..2]))
  {
    if |peaks| > 1 {
      assert peaks[1] in peaks;
    }
    if |peaks| > 2 {
      var two := peaks[..2];
      forall c | c in two ensures |c| == |two[0]| {
        assert c in peaks;
      }
    }
  }

  /** Two channels `[10, 20]` and `[30, 40]` mix to `[20, 30]`. */
  lemma DownMixExample()
    ensures DownMix([[10.0, 20.0], [30.0, 40.0]]) == [20.0, 30.0]
  {
    var peaks := [[10.0, 20.0], [30.0, 40.0]];
    assert Rectangular(peaks);
    var r := DownMix(peaks);
    assert r[0] == 20.0 && r[1] == 30.0;
  }

  class WaveformPreviewer {
    /** `10 ** (val / 20) * 100`: dB to linear. */
    const toLinear: real -> real
    /** A wave file already exists for the URI: readings are not collected. */
    var passthrough: bool
    /** `int(n_samples)`: the number of buckets, from the `duration` property. */
    var nSamples: nat
    /** One bucket array per channel, created on the first reading. */
    var peaks: Option<seq<seq<real>>>
    var samples: seq<real>
    /** What was written to the wave file, if anything. */
    var saved: Option<seq<real>>

    ghost predicate Valid()
      reads this
    {
      peaks.Some? ==> Rectangular(peaks.value)
    }

    constructor (toLinear: real -> real)
      ensures Valid() && this.toLinear == toLinear
      ensures !passthrough && nSamples == 0 && peaks == None && samples == [] && saved == None
    {
      this.toLinear := toLinear;
      passthrough := false;
      nSamples := 0;
      peaks := None;
      samples := [];
      saved := None;
    }

    /** Setting the `uri` property: passthrough iff its wave file exists. */
    method SetUri(waveFileExists: bool)
      modifies this
      ensures passthrough == waveFileExists
      ensures nSamples == old(nSamples) && peaks == old(peaks) && samples == old(samples) && saved == old(saved)
    {
      passthrough := waveFileExists;
    }

    /** Setting the `duration` property (ns): one bucket per SAMPLE_DURATION. */
    method SetDuration(duration: nat)
      modifies this
      ensures nSamples == duration / SAMPLE_DURATION
      ensures passthrough == old(passthrough) && peaks == old(peaks) && samples == old(samples) && saved == old(saved)
    {
      nSamples := duration / SAMPLE_DURATION;
    }

    /** `do_post_message`. */
    method PostMessage(msg: LevelMessage) returns (r: PostOutcome)
      requires Valid()
      modifies this
      ensures Valid()
      ensures passthrough == old(passthrough) && nSamples == old(nSamples)
      ensures samples == old(samples) && saved == old(saved)
      ensures passthrough || !msg.Level? || msg.rms == [] ==> r == Forwarded && peaks == old(peaks)
      ensures !passthrough && msg.Level? && msg.rms != [] ==>
                var arrays := if old(peaks).None? then Blank(|msg.rms|, nSamples) else old(peaks).value;
                var pos := msg.streamTime / SAMPLE_DURATION;
                && (pos >= |arrays[0]| ==> r == Swallowed && peaks == Some(arrays))
                && (pos < |arrays[0]| ==>
                      && peaks == Some(Record(arrays, msg.rms, pos, toLinear))
                      && (r == Raised <==> |msg.rms| > |arrays|)
                      && (r != Raised ==> r == Forwarded))
    {
      if passthrough || !msg.Level? || msg.rms == [] {
        return Forwarded;
      }
      if peaks.None? {
        var initial := Blank(|msg.rms|, nSamples);
        peaks := Some(initial);
      }
      var arrays := peaks.value;
      var pos := msg.streamTime / SAMPLE_DURATION;
      if pos >= |arrays[0]| {
        return Swallowed;
      }
      ghost var target := Record(arrays, msg.rms, pos, toLinear);
      RecordLaw(arrays, msg.rms, pos, toLinear);
      var p := arrays;
      var i := 0;
      while i < |msg.rms|
        invariant 0 <= i <= |msg.rms|
        invariant |p| == |arrays| && i <= |p|
        invariant forall k | 0 <= k < |p| :: p[k] == (if k < i then target[k] else arrays[k])
      {
        if i >= |p| {
          assert forall k | 0 <= k < |p| :: p[k] == target[k];
          peaks := Some(p);
          assert p == target;
          return Raised;
        }
        var row := p[i];
        assert row == arrays[i] && arrays[i] in arrays;
        if msg.rms[i] < 0.0 {
          row := row[pos := toLinear(msg.rms[i])];
        } else {
          row := row[pos := row[PrevIndex(pos, |row|)]];
        }
        p := p[i := row];
        i := i + 1;
      }
      assert p == target;
      peaks := Some(p);
      r := Forwarded;
    }

    /**
     * `finalize`: outside passthrough and once readings exist, the mono mix
     * becomes the samples and is written to the wave file.
     */
    method Finalize()
      requires Valid()
      modifies this
      ensures Valid() && peaks == old(peaks) && passthrough == old(passthrough) && nSamples == old(nSamples)
      ensures !passthrough && peaks.Some? ==> samples == DownMix(peaks.value) && saved == Some(samples)
      ensures passthrough || peaks.None? ==> samples == old(samples) && saved == old(saved)
    {
      if !passthrough && peaks.Some? {
        samples := DownMix(peaks.value);
        saved := Some(samples);
      }
    }
  }
}
