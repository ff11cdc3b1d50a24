/** `AudioCapture`: the tone detector behind the audio stream callback, the
    debounce on detection times, the expected-burst computation and latency
    record, the InfluxDB point it builds, and the recent-burst query.

    The FFT is not modelled: a chunk arrives as the magnitudes `|fft[k]|` of
    its spectrum, one per sample. Every `time.time()` read and every PTP
    probe is a parameter, as in `PtpTime`. */
module Capture {
  import opened Wrappers
  import opened Grid
  import opened Text
  import Numerals
  import PtpTime

  /** `_chunk_size`: frames per stream buffer. */
  const ChunkSize: nat := 1024
  /** `_detection_threshold`: the normalized magnitude a tone must exceed. */
  const DetectionThreshold: real := 0.1
  /** `_min_burst_gap`: seconds of system clock between two detections. */
  const MinBurstGap: real := 0.5

  /** One entry of `_detected_bursts`. */
  datatype BurstRecord = BurstRecord(
    ptpTime: Option<real>, systemTime: real, detectionTime: real,
    expectedTime: real, latencyMs: real, magnitude: real)

  /** The state of an `AudioCapture`: `_running`, the PTP manager,
      `_last_burst_time` and `_detected_bursts`. */
  datatype Capture = Capture(running: bool, ptp: PtpTime.Manager, lastBurstTime: real, bursts: seq<BurstRecord>)

  /** What the capture takes from its configuration, and whether
      `_init_influxdb` obtained a write API. */
  datatype Setup = Setup(
    sampleRate: real, toneFrequency: real, burstInterval: real,
    writeEnabled: bool, switchName: String, hostName: String, vlanId: int,
    parseSeconds: String -> Option<real>)

  /** A freshly constructed capture. */
  function Init(): (c: Capture)
    ensures !c.running && c.lastBurstTime == 0.0 && c.bursts == []
    ensures c.ptp == PtpTime.Init()
  {
    Capture(false, PtpTime.Init(), 0.0, [])
  }

  // ---------------------------------------------------------------------
  // Choosing the bin nearest to the tone

  /** The signed index `np.fft.fftfreq` gives bin `k` of `n`: the first
      `(n - 1) / 2 + 1` bins count up from 0, the rest are negative. */
  function SignedBin(k: nat, n: nat): (b: int)
    requires k < n
    ensures b == k || b == k - n
    ensures -(n / 2) <= b <= (n - 1) / 2
  {
    if k < (n - 1) / 2 + 1 then k else k - n
  }

  /** The frequency of bin `k`: `fftfreq(n, 1.0 / rate)[k]`. */
  function BinFrequency(k: nat, n: nat, rate: real): real
    requires k < n
  {
    SignedBin(k, n) as real * rate / n as real
  }

  function Abs(x: real): real {
    if x < 0.0 then -x else x
  }

  /** How far bin `k` lies from the tone. */
  function Distance(k: nat, n: nat, rate: real, tone: real): real
    requires k < n
  {
    Abs(BinFrequency(k, n, rate) - tone)
  }

  /** `np.argmin` over the first `len` bins: a closest bin, the lowest one
      on ties. */
  function NearestIn(len: nat, n: nat, rate: real, tone: real): (k: nat)
    requires 0 < len <= n
    ensures k < len
    ensures forall j :: 0 <= j < len ==> Distance(k, n, rate, tone) <= Distance(j, n, rate, tone)
    ensures forall j :: 0 <= j < k ==> Distance(j, n, rate, tone) > Distance(k, n, rate, tone)
  {
    if len == 1 then 0
    else
      var best := NearestIn(len - 1, n, rate, tone);
      if Distance(len - 1, n, rate, tone) < Distance(best, n, rate, tone) then len - 1 else best
  }

  /** `np.argmin(np.abs(freqs - tone))` over all `n` bins. */
  function NearestBin(n: nat, rate: real, tone: real): (k: nat)
    requires n > 0
    ensures k < n
    ensures forall j :: 0 <= j < n ==> Distance(k, n, rate, tone) <= Distance(j, n, rate, tone)
    ensures forall j :: 0 <= j < k ==> Distance(j, n, rate, tone) > Distance(k, n, rate, tone)
  {
    NearestIn(n, n, rate, tone)
  }

  /** The chunk's level at the tone: the nearest bin's magnitude divided by
      the chunk length. */
  function ToneLevel(spectrum: seq<real>, rate: real, tone: real): (level: real)
    requires |spectrum| > 0
    ensures (forall j :: 0 <= j < |spectrum| ==> spectrum[j] >= 0.0) ==> level >= 0.0
  {
    spectrum[NearestBin(|spectrum|, rate, tone)] / |spectrum| as real
  }

  /** The level exceeds a threshold exactly when the magnitude at the bin
      nearest the tone exceeds the threshold times the chunk length. */
  lemma ToneLevelAboveThreshold(spectrum: seq<real>, rate: real, tone: real, threshold: real)
    requires |spectrum| > 0
    ensures ToneLevel(spectrum, rate, tone) > threshold
        <==> spectrum[NearestBin(|spectrum|, rate, tone)] > threshold * |spectrum| as real
  {
    var n := |spectrum| as real;
    var x := spectrum[NearestBin(|spectrum|, rate, tone)];
    var level := ToneLevel(spectrum, rate, tone);
    assert level == x / n;
    assert level * n == x;
    if level > threshold {
      ScaleFactorStrict(threshold, level, n);
    } else {
      ScaleFactor(level, threshold, n);
    }
  }

  /** The FFT of an empty chunk and `1.0 / sample_rate` for a zero rate both
      raise; `_process_audio_chunk` logs and drops the chunk. */
  predicate Analysable(spectrum: seq<real>, rate: real) {
    |spectrum| > 0 && rate != 0.0
  }

  // ---------------------------------------------------------------------
  // Expected burst time and the latency record

  /** `_calculate_expected_burst_time`: the NEXT grid boundary after the PTP
      reading, moved to the system clock by subtracting the offset that
      `calculate_offset` measures in a second reading. Floor division by a
      zero interval raises and is reported as `None`. */
  function ExpectedBurstTime(m: PtpTime.Manager, expected: PtpTime.PtpQuery, offset: PtpTime.PtpQuery,
                             offsetClock: real, interval: real, parseSeconds: String -> Option<real>): (r: PtpTime.Step<Option<real>>)
    ensures interval == 0.0 ==> r.value.None? && r.manager == PtpTime.Refresh(m, expected.checkClock, expected.probe)
    ensures interval != 0.0 ==> r.value.Some?
    ensures interval != 0.0 ==>
      (var reading := PtpTime.GetPtpTime(m, expected, parseSeconds);
       var off := PtpTime.CalculateOffset(reading.manager, offset, offsetClock, parseSeconds);
       && r.manager == off.manager && OnGrid(r.value.value + off.value.value, interval)
       && r.value.value + off.value.value == NextBoundary(reading.value.value, interval))
    ensures interval > 0.0 ==>
      (var reading := PtpTime.GetPtpTime(m, expected, parseSeconds);
       var off := PtpTime.CalculateOffset(reading.manager, offset, offsetClock, parseSeconds);
       reading.value.value < r.value.value + off.value.value <= reading.value.value + interval)
    ensures interval < 0.0 ==>
      (var reading := PtpTime.GetPtpTime(m, expected, parseSeconds);
       var off := PtpTime.CalculateOffset(reading.manager, offset, offsetClock, parseSeconds);
       reading.value.value + interval <= r.value.value + off.value.value < reading.value.value)
  {
    var reading := PtpTime.GetPtpTime(m, expected, parseSeconds);
    match reading.value
    case None => PtpTime.Step(reading.manager, None)
    case Some(t) =>
      if interval == 0.0 then PtpTime.Step(reading.manager, None)
      else
        var next := NextBoundary(t, interval);
        var off := PtpTime.CalculateOffset(reading.manager, offset, offsetClock, parseSeconds);
        match off.value
        case None => PtpTime.Step(off.manager, None)
        case Some(o) => PtpTime.Step(off.manager, Some(next - o))
  }

  /** The clock and probe results one `_detect_burst` call consumes, in call
      order: `get_timestamp`, the `get_ptp_time` and `calculate_offset` of the
      expected-time computation, and the `is_synchronized` of the point's tag. */
  datatype BurstReadings = BurstReadings(
    stamp: PtpTime.PtpQuery, stampClock: real,
    expected: PtpTime.PtpQuery, offset: PtpTime.PtpQuery, offsetClock: real,
    tagClock: real, tagProbe: PtpTime.SyncProbe)

  /** The `audio_latency` point handed to the write API. */
  datatype Point = Point(
    measurement: String, latencyMs: real, magnitude: real, ptpTime: Option<real>, systemTime: real,
    switchTag: String, hostTag: String, vlanTag: String, ptpSyncTag: String)

  /** Python's `str(b)` for a boolean. */
  function BoolText(b: bool): String {
    if b then "True" else "False"
  }

  /** The outcome of `_detect_burst`. */
  datatype Detection = Detection(manager: PtpTime.Manager, record: Option<BurstRecord>, point: Option<Point>)

  /** `_detect_burst` followed by `_send_to_influxdb`: a record exists exactly
      when the expected time does, its latency is the detection time minus
      the expected time in milliseconds, and a point carrying the record's
      values is built exactly when a write API exists. */
  function DetectBurst(m: PtpTime.Manager, detectionTime: real, magnitude: real, r: BurstReadings, setup: Setup): (d: Detection)
    ensures d.record.Some? <==> setup.burstInterval != 0.0
    ensures d.record.Some? ==>
      && d.record.value.detectionTime == detectionTime
      && d.record.value.magnitude == magnitude
      && d.record.value.expectedTime + d.record.value.latencyMs / 1000.0 == detectionTime
      && Some(d.record.value.expectedTime) == ExpectedBurstTime(PtpTime.GetTimestamp(m, r.stamp, r.stampClock, setup.parseSeconds).manager,
                                                                r.expected, r.offset, r.offsetClock, setup.burstInterval, setup.parseSeconds).value
      && (d.record.value.ptpTime, d.record.value.systemTime) == PtpTime.GetTimestamp(m, r.stamp, r.stampClock, setup.parseSeconds).value
    ensures d.point.Some? <==> d.record.Some? && setup.writeEnabled
    ensures d.point.Some? ==>
      && d.point.value.measurement == "audio_latency"
      && d.point.value.latencyMs == d.record.value.latencyMs
      && d.point.value.magnitude == magnitude
      && d.point.value.ptpTime == d.record.value.ptpTime
      && d.point.value.systemTime == d.record.value.systemTime
      && Numerals.ParseInt(d.point.value.vlanTag) == Some(setup.vlanId)
      && (d.point.value.ptpSyncTag == "True" <==> d.manager.synchronized)
    ensures var e := ExpectedBurstTime(PtpTime.GetTimestamp(m, r.stamp, r.stampClock, setup.parseSeconds).manager,
                                       r.expected, r.offset, r.offsetClock, setup.burstInterval, setup.parseSeconds);
            var sync := PtpTime.IsSynchronized(e.manager, r.tagClock, r.tagProbe);
            && (d.point.None? ==> d.manager == e.manager)
            && (d.point.Some? ==>
                  && d.manager == sync.manager
                  && d.point.value.ptpSyncTag == BoolText(sync.value)
                  && d.point.value.switchTag == setup.switchName
                  && d.point.value.hostTag == setup.hostName)
  {
    var stamp := PtpTime.GetTimestamp(m, r.stamp, r.stampClock, setup.parseSeconds);
    var expected := ExpectedBurstTime(stamp.manager, r.expected, r.offset, r.offsetClock, setup.burstInterval, setup.parseSeconds);
    match expected.value
    case None => Detection(expected.manager, None, None)
    case Some(e) =>
      var record := BurstRecord(stamp.value.0, stamp.value.1, detectionTime, e, (detectionTime - e) * 1000.0, magnitude);
      if !setup.writeEnabled then Detection(expected.manager, Some(record), None)
      else
        var sync := PtpTime.IsSynchronized(expected.manager, r.tagClock, r.tagProbe);
        Numerals.ParseIntOfIntToString(setup.vlanId);
        var point := Point("audio_latency", record.latencyMs, magnitude, record.ptpTime, record.systemTime,
                           setup.switchName, setup.hostName, Numerals.IntToString(setup.vlanId), BoolText(sync.value));
        Detection(sync.manager, Some(record), Some(point))
  }

  /** For every reading: the latency is measured against the grid boundary
      after the PTP reading of the expected-time computation, moved to the
      system clock by the offset, so with `I > 0` the boundary is the one
      still to come, at most one interval after that reading. */
  lemma LatencyMeasuredFromNextBoundary(m: PtpTime.Manager, detectionTime: real, magnitude: real, r: BurstReadings, setup: Setup)
    requires setup.burstInterval != 0.0
    ensures var stamp := PtpTime.GetTimestamp(m, r.stamp, r.stampClock, setup.parseSeconds);
            var reading := PtpTime.GetPtpTime(stamp.manager, r.expected, setup.parseSeconds).value.value;
            var off := PtpTime.CalculateOffset(PtpTime.Refresh(stamp.manager, r.expected.checkClock, r.expected.probe),
                                               r.offset, r.offsetClock, setup.parseSeconds).value.value;
            var record := DetectBurst(m, detectionTime, magnitude, r, setup).record.value;
            && record.expectedTime == NextBoundary(reading, setup.burstInterval) - off
            && record.latencyMs == (detectionTime + off - NextBoundary(reading, setup.burstInterval)) * 1000.0
            && (setup.burstInterval > 0.0 ==> reading < record.expectedTime + off <= reading + setup.burstInterval)
  {
    var stamp := PtpTime.GetTimestamp(m, r.stamp, r.stampClock, setup.parseSeconds);
    var e := ExpectedBurstTime(stamp.manager, r.expected, r.offset, r.offsetClock, setup.burstInterval, setup.parseSeconds);
    var record := DetectBurst(m, detectionTime, magnitude, r, setup).record.value;
    assert Some(record.expectedTime) == e.value;
    assert (detectionTime - record.expectedTime) * 1000.0 == record.latencyMs;
  }

  /** The worked scenario of a one-second grid: PTP reads 10.3 s both times,
      the offset is zero and the tone is heard at 10.301 s. The code compares
      against the boundary still to come, 11.0 s, so the latency comes out as
      -699 ms rather than the 301 ms measured from the boundary at 10.0 s. */
  lemma LatencyAgainstNextBoundary(m: PtpTime.Manager, q: PtpTime.PtpQuery, r: BurstReadings, setup: Setup)
    requires !PtpTime.Refresh(m, q.checkClock, q.probe).synchronized && q.fallbackClock == 10.3
    requires r.stamp == q && r.stampClock == 10.3 && r.expected == q && r.offset == q && r.offsetClock == 10.3
    requires setup.burstInterval == 1.0
    ensures DetectBurst(m, 10.301, 0.5, r, setup).record.value.expectedTime == 11.0
    ensures DetectBurst(m, 10.301, 0.5, r, setup).record.value.latencyMs == -699.0
  {
    var m1 := PtpTime.Refresh(m, q.checkClock, q.probe);
    assert PtpTime.Refresh(m1, q.checkClock, q.probe) == m1;
    assert FloorDiv(10.3, 1.0) == 10;
  }

  // ---------------------------------------------------------------------
  // The stream callback and its debounce

  /** One audio chunk: its spectrum magnitudes, the `time.time()` read taken
      when it is loud enough, and the readings of a detection. */
  datatype Chunk = Chunk(spectrum: seq<real>, clock: real, readings: BurstReadings)

  /** The chunk is loud at the tone and comes more than the minimum gap after
      the last detection, so `_detect_burst` runs. */
  predicate Triggers(c: Capture, chunk: Chunk, setup: Setup) {
    && Analysable(chunk.spectrum, setup.sampleRate)
    && ToneLevel(chunk.spectrum, setup.sampleRate, setup.toneFrequency) > DetectionThreshold
    && chunk.clock - c.lastBurstTime > MinBurstGap
  }

  /** The records are in detection order, more than the minimum gap apart,
      and none is later than the last detection. */
  predicate Spaced(c: Capture) {
    && (forall i :: 0 <= i < |c.bursts| - 1 ==> c.bursts[i + 1].detectionTime - c.bursts[i].detectionTime > MinBurstGap)
    && (|c.bursts| > 0 ==> c.bursts[|c.bursts| - 1].detectionTime <= c.lastBurstTime)
  }

  datatype ChunkResult = ChunkResult(capture: Capture, point: Option<Point>)

  /** `_process_audio_chunk`. A chunk that does not trigger changes nothing;
      one that does moves `_last_burst_time` to its clock whether or not a
      record results, so the debounce counts from every detection attempt.
      The records stay spaced. */
  function ProcessChunk(c: Capture, chunk: Chunk, setup: Setup): (r: ChunkResult)
    ensures !Triggers(c, chunk, setup) ==> r == ChunkResult(c, None)
    ensures Triggers(c, chunk, setup) ==>
      && r.capture.lastBurstTime == chunk.clock
      && r.capture.running == c.running
      && |c.bursts| <= |r.capture.bursts| <= |c.bursts| + 1
      && r.capture.bursts[..|c.bursts|] == c.bursts
      && (|r.capture.bursts| > |c.bursts| <==> setup.burstInterval != 0.0)
      && (r.point.Some? ==> |r.capture.bursts| > |c.bursts|)
    ensures |r.capture.bursts| > |c.bursts| ==> r.capture.bursts[|c.bursts|].detectionTime == chunk.clock
    ensures Triggers(c, chunk, setup) ==>
      var d := DetectBurst(c.ptp, chunk.clock, ToneLevel(chunk.spectrum, setup.sampleRate, setup.toneFrequency), chunk.readings, setup);
      && r.capture.ptp == d.manager
      && r.point == d.point
      && r.capture.bursts == c.bursts + (if d.record.Some? then [d.record.value] else [])
    ensures Spaced(c) ==> Spaced(r.capture)
  {
    if !Triggers(c, chunk, setup) then ChunkResult(c, None)
    else
      var level := ToneLevel(chunk.spectrum, setup.sampleRate, setup.toneFrequency);
      var d := DetectBurst(c.ptp, chunk.clock, level, chunk.readings, setup);
      var bursts := match d.record case None => c.bursts case Some(rec) => c.bursts + [rec];
      ChunkResult(c.(ptp := d.manager, lastBurstTime := chunk.clock, bursts := bursts), d.point)
  }

  /** PyAudio's `paContinue` and `paComplete`. */
  datatype StreamFlag = Continue | Complete

  datatype CallbackResult = CallbackResult(capture: Capture, point: Option<Point>, flag: StreamFlag)

  /** `_audio_callback`: once the flag is cleared the stream is told to
      complete and the chunk is ignored. */
  function AudioCallback(c: Capture, chunk: Chunk, setup: Setup): (r: CallbackResult)
    ensures !c.running ==> r == CallbackResult(c, None, Complete)
    ensures c.running ==> r.flag == Continue && ChunkResult(r.capture, r.point) == ProcessChunk(c, chunk, setup)
  {
    if !c.running then CallbackResult(c, None, Complete)
    else
      var p := ProcessChunk(c, chunk, setup);
      CallbackResult(p.capture, p.point, Continue)
  }

  /** A run of callbacks, in stream order. */
  function Feed(c: Capture, chunks: seq<Chunk>, setup: Setup): (r: Capture)
    ensures |c.bursts| <= |r.bursts| <= |c.bursts| + |chunks|
    ensures r.bursts[..|c.bursts|] == c.bursts
    ensures r.running == c.running
    ensures Spaced(c) ==> Spaced(r)
    decreases |chunks|
  {
    if |chunks| == 0 then c
    else
      var next := AudioCallback(c, chunks[0], setup).capture;
      var r := Feed(next, chunks[1..], setup);
      assert r.bursts[..|c.bursts|] == r.bursts[..|next.bursts|][..|c.bursts|];
      r
  }

  /** Two loud chunks no more than the minimum gap apart yield at most one
      detection: the second finds the first's clock in `_last_burst_time`. */
  lemma DebounceSuppressesSecond(c: Capture, first: Chunk, second: Chunk, setup: Setup)
    requires Triggers(c, first, setup)
    requires second.clock - first.clock <= MinBurstGap
    ensures ProcessChunk(ProcessChunk(c, first, setup).capture, second, setup).capture == ProcessChunk(c, first, setup).capture
  {
  }

  /** Consecutive spacing adds up: records `i < j` lie more than
      `(j - i)` minimum gaps apart. */
  lemma {:induction false} SpacedPairwise(c: Capture, i: nat, j: nat)
    requires Spaced(c)
    requires i < j < |c.bursts|
    ensures c.bursts[j].detectionTime - c.bursts[i].detectionTime > (j - i) as real * MinBurstGap
    decreases j - i
  {
    assert c.bursts[i + 1].detectionTime - c.bursts[i].detectionTime > MinBurstGap;
    if i + 1 < j {
      SpacedPairwise(c, i + 1, j);
    }
  }

  // ---------------------------------------------------------------------
  // Lifecycle, device choice and the recent-burst query

  /** `start`: a second call only logs; otherwise the flag is set once the
      stream opened, and a failure to open propagates with the flag clear. */
  function Start(c: Capture, streamOpens: bool): (r: Result<Capture, Capture>)
    ensures c.running ==> r == Ok(c)
    ensures !c.running && streamOpens ==> r == Ok(c.(running := true))
    ensures !c.running && !streamOpens ==> r == Err(c)
  {
    if c.running then Ok(c)
    else if streamOpens then Ok(c.(running := true))
    else Err(c)
  }

  /** `stop`: the flag is cleared and the records are kept. */
  function Stop(c: Capture): (r: Capture)
    ensures !r.running && r.bursts == c.bursts && r.lastBurstTime == c.lastBurstTime && r.ptp == c.ptp
  {
    c.(running := false)
  }

  /** After `stop` the callback ignores audio. */
  lemma StoppedCaptureIgnoresAudio(c: Capture, chunk: Chunk, setup: Setup)
    ensures AudioCallback(Stop(c), chunk, setup) == CallbackResult(Stop(c), None, Complete)
  {
  }

  /** What PyAudio reports: the device names in index order and the default
      input's index (`None` when asking for it raises), or a failure while
      enumerating. */
  datatype DeviceQuery = Devices(names: seq<String>, defaultInput: Option<int>) | QueryFailed

  /** A device name holds the configured loopback name or, in lower case,
      the word "loopback". */
  predicate IsLoopbackName(name: String, configured: String) {
    Contains(name, configured) || Contains(Lower(name), "loopback")
  }

  function FirstLoopbackFrom(names: seq<String>, configured: String, from: nat): (r: Option<nat>)
    requires from <= |names|
    ensures r.Some? ==> from <= r.value < |names| && IsLoopbackName(names[r.value], configured)
    ensures r.Some? ==> forall j :: from <= j < r.value ==> !IsLoopbackName(names[j], configured)
    ensures r.None? ==> forall j :: from <= j < |names| ==> !IsLoopbackName(names[j], configured)
    decreases |names| - from
  {
    if from == |names| then None
    else if IsLoopbackName(names[from], configured) then Some(from)
    else FirstLoopbackFrom(names, configured, from + 1)
  }

  /** `_find_loopback_device`: the first matching device, else the default
      input, else device 0. */
  function FindLoopbackDevice(q: DeviceQuery, configured: String): (index: int)
    ensures q.QueryFailed? ==> index == 0
    ensures q.Devices? && (exists j :: 0 <= j < |q.names| && IsLoopbackName(q.names[j], configured)) ==>
      0 <= index < |q.names| && IsLoopbackName(q.names[index], configured)
      && forall j :: 0 <= j < index ==> !IsLoopbackName(q.names[j], configured)
    ensures q.Devices? && (forall j :: 0 <= j < |q.names| ==> !IsLoopbackName(q.names[j], configured)) ==>
      index == q.defaultInput.GetOr(0)
  {
    match q
    case QueryFailed => 0
    case Devices(names, defaultInput) =>
      match FirstLoopbackFrom(names, configured, 0)
      case Some(i) => i
      case None => defaultInput.GetOr(0)
  }

  /** An empty configured name occurs in every device name, so the first
      device is chosen whenever there is one. */
  lemma EmptyNameChoosesFirstDevice(names: seq<String>, defaultInput: Option<int>)
    requires |names| > 0
    ensures FindLoopbackDevice(Devices(names, defaultInput), "") == 0
  {
    assert OccursAt(names[0], "", 0);
    assert IsLoopbackName(names[0], "");
  }

  /** `get_recent_bursts(count)`, which slices `_detected_bursts[-count:]`:
      the last `count` records for a positive count, all of them for 0, and
      all but the first `-count` for a negative count. */
  function GetRecentBursts(bursts: seq<BurstRecord>, count: int): (r: seq<BurstRecord>)
    ensures |r| <= |bursts| && r == bursts[|bursts| - |r|..]
    ensures count > 0 ==> |r| == if count < |bursts| then count else |bursts|
    ensures count == 0 ==> r == bursts
    ensures count < 0 ==> |r| == if |bursts| + count > 0 then |bursts| + count else 0
  {
    if |bursts| == 0 then [] else SliceFrom(bursts, -count)
  }

  /** Python's `s[start:]`: a negative start counts from the end. */
  function SliceFrom<T>(s: seq<T>, start: int): (r: seq<T>)
    ensures |r| <= |s| && r == s[|s| - |r|..]
    ensures start < 0 ==> |r| == if -start < |s| then -start else |s|
    ensures start >= 0 ==> |r| == if start < |s| then |s| - start else 0
  {
    if start < 0 then (if -start >= |s| then s else s[|s| + start..])
    else if start >= |s| then []
    else s[start..]
  }
}
