/** Parsed frames against the lines the range pass reads: where each takes its samples from. */
module ParsedFrames {
  import opened Complex
  import opened Matrix
  import opened RangeDoppler
  import opened StaleLines
  import BitFields
  import Framer

  /** The sample the range pass takes at position i of a line; nothing is read past the end. */
  function SampleRead(job: RangeJob, line: nat, i: nat): int {
    if line < |job.ifData| && i < |job.ifData[line]| then job.ifData[line][i] else 0
  }

  lemma PureSample(job: RangeJob, line: nat, i: nat)
    requires i < |job.window| && i < job.samples
    ensures PureLine(job, line)[i] == Complex(SampleRead(job, line, i) as real * job.window[i], 0.0)
  {
    if line >= |job.ifData| || i >= |job.ifData[line]| { assert 0 as real * job.window[i] == 0.0; }
  }

  /** Each channel has a row of its own that holds all its chirps, one after the other, as the parser fills it. */
  ghost predicate RowPerChannel(job: RangeJob) {
    && job.channels <= |job.ifData|
    && forall ch: nat :: ch < job.channels ==> |job.ifData[ch]| >= job.chirps * job.samples
  }

  lemma ChirpInside(job: RangeJob, c: nat, ch: nat, i: nat)
    requires RowPerChannel(job) && c < job.chirps && ch < job.channels && i < job.samples
    ensures ch < |job.ifData| && At(c, i, job.samples) < |job.ifData[ch]|
  {
    hide At;
    AtBound(c, i, job.chirps, job.samples);
  }

  /** The range pass reads sample i of chirp c of channel ch. */
  ghost predicate ReadsChirp(job: RangeJob, c: nat, ch: nat, i: nat)
    requires RowPerChannel(job) && c < job.chirps && ch < job.channels && i < job.samples
  {
    ChirpInside(job, c, ch, i);
    SampleRead(job, LineOf(job, c, ch), i) == job.ifData[ch][At(c, i, job.samples)]
  }

  ghost predicate ReadsFrame(job: RangeJob)
    requires RowPerChannel(job)
  {
    forall c: nat, ch: nat, i: nat :: c < job.chirps && ch < job.channels && i < job.samples ==> ReadsChirp(job, c, ch, i)
  }

  lemma StillPerChannel(job: RangeJob, d: seq<seq<int>>)
    requires RowPerChannel(job) && SameShape(d, job.ifData)
    ensures RowPerChannel(job.(ifData := d))
  {}

  ghost predicate ReadsAllFrames(job: RangeJob)
    requires RowPerChannel(job)
  {
    forall d: seq<seq<int>> :: SameShape(d, job.ifData) ==> RowPerChannel(job.(ifData := d)) && ReadsFrame(job.(ifData := d))
  }

  lemma SingleChirp(job: RangeJob, ch: nat, i: nat)
    requires job.chirps == 1
    ensures LineOf(job, 0, ch) == ch && At(0, i, job.samples) == i
  {}

  lemma OneChirpReads(job: RangeJob)
    requires RowPerChannel(job) && (job.chirps <= 1 || job.channels == 0 || job.samples == 0)
    ensures ReadsFrame(job)
  {
    hide LineOf, At;
    forall c: nat, ch: nat, i: nat | c < job.chirps && ch < job.channels && i < job.samples
      ensures ReadsChirp(job, c, ch, i)
    {
      ChirpInside(job, c, ch, i);
      SingleChirp(job, ch, i);
    }
  }

  lemma SecondChirp(job: RangeJob)
    requires job.chirps > 1
    ensures LineOf(job, 1, 0) == 1 && At(1, 0, job.samples) == job.samples
  {}

  /** With the first sample of the second chirp set, the range pass reads the empty row after it instead. */
  lemma SecondChirpMissed(job: RangeJob, d: seq<seq<int>>)
    requires RowPerChannel(job) && job.chirps > 1 && job.channels > 0 && job.samples > 0
    requires d == OneSound(job.ifData, 0, job.samples)
    ensures SameShape(d, job.ifData) && RowPerChannel(job.(ifData := d)) && !ReadsFrame(job.(ifData := d))
  {
    hide LineOf, At;
    var other := job.(ifData := d);
    StillPerChannel(job, d);
    SecondChirp(other);
    ChirpInside(other, 1, 0, 0);
    assert d[0][job.samples] == 1;
    assert !ReadsChirp(other, 1, 0, 0);
  }

  /**
   The range pass reads what the parser stored, for all frames, exactly when a frame has at most one chirp,
   no channel or no sample: the parser keeps a row per channel, the range pass looks for a row per chirp.
   */
  lemma ParsedLinesExactly(job: RangeJob)
    requires RowPerChannel(job)
    ensures ReadsAllFrames(job) <==> job.chirps <= 1 || job.channels == 0 || job.samples == 0
  {
    hide RowPerChannel, ReadsFrame, SameShape;
    if job.chirps <= 1 || job.channels == 0 || job.samples == 0 {
      forall d: seq<seq<int>> | SameShape(d, job.ifData)
        ensures RowPerChannel(job.(ifData := d)) && ReadsFrame(job.(ifData := d))
      {
        StillPerChannel(job, d);
        OneChirpReads(job.(ifData := d));
      }
    } else {
      SecondChirpMissed(job, OneSound(job.ifData, 0, job.samples));
    }
  }

  // ---------------------------------------------------------------- from the datagram to the spectrum

  lemma OneChirpSize(cfg: Framer.Config)
    requires cfg.chirpsPerFrame == 1
    ensures Framer.PerChannel(cfg) == cfg.samplesPerChirp
  {}

  lemma StoredSample(now: seq<int>, before: seq<int>, data: seq<BitFields.Byte>, n: nat, w: nat, i: nat)
    requires Framer.Extracted(now, before, data, n, w) && i < n && i < |now|
    ensures now[i] == BitFields.Sample(data, i, w)
  {
    hide BitFields.Sample;
  }

  /**
   For one chirp, from the datagram on: the windowed sample i of channel ch that is transformed is sample
   ch * n + i of the payload.
   */
  lemma DatagramToLine(cfg: Framer.Config, data: seq<BitFields.Byte>, before: seq<seq<int>>, job: RangeJob, ch: nat, i: nat)
    requires Framer.Verdict(cfg, data).Parsed? && Framer.Width(cfg) == cfg.adcBits && Framer.ChannelBits(cfg) % 8 == 0
    requires cfg.chirpsPerFrame == 1 == job.chirps && job.samples == cfg.samplesPerChirp && ch < cfg.rxChannels
    requires ch < |job.ifData| == |before| && Framer.RowDone(job.ifData[ch], before[ch], data, cfg, ch)
    requires i < job.samples && i < |job.window| && i < |job.ifData[ch]|
    ensures cfg.headerSize <= |data|
    ensures PureLine(job, LineOf(job, 0, ch))[i]
         == Complex(BitFields.Sample(data[cfg.headerSize..], At(ch, i, job.samples), Framer.Width(cfg)) as real * job.window[i], 0.0)
  {
    hide PureLine, LineOf, BitFields.Sample, Framer.ChannelOffset, Framer.PerChannel, Framer.ExpectedSize, Framer.ChannelBits,
         Framer.Written, Framer.Extracted, Framer.ValidHeader;
    OneChirpSize(cfg);
    SingleChirp(job, ch, i);
    Framer.ChannelIsExact(cfg, data, ch, i);
    var tail := data[Framer.ChannelOffset(cfg, ch)..];
    StoredSample(job.ifData[ch], before[ch], tail, Framer.PerChannel(cfg), Framer.Width(cfg), i);
    PureSample(job, ch, i);
  }
}
