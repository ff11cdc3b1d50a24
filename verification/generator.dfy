/** `AudioGenerator`: the run flag and VLC process handle, the wait until the
    next grid boundary of PTP time, and the wait-then-trigger loop.

    The flag `_running` is written by other threads (`stop`), so the loop
    reads it from a script: each `Tick` says what the loop saw at its two
    reads of the flag, and which clock and probe results its calls got.
    The script is finite, so `Run` describes every finite prefix of a run. */
module Generator {
  import opened Wrappers
  import opened Grid
  import PtpTime

  /** The state of an `AudioGenerator`: `_running`, whether `_thread` was
      set, `_vlc_process` (a process id) and its PTP time manager. */
  datatype Generator = Generator(running: bool, threadStarted: bool, vlcProcess: Option<nat>, ptp: PtpTime.Manager)

  /** A freshly constructed generator. */
  function Init(): (g: Generator)
    ensures !g.running && !g.threadStarted && g.vlcProcess.None?
    ensures g.ptp == PtpTime.Init()
  {
    Generator(false, false, None, PtpTime.Init())
  }

  /** `start`: a second call while running only logs a warning. */
  function Start(g: Generator): (r: Generator)
    ensures g.running ==> r == g
    ensures !g.running ==> r == g.(running := true, threadStarted := true)
  {
    if g.running then g else g.(running := true, threadStarted := true)
  }

  /** What `terminate()` followed by `wait(timeout=5)` did: the process
      exited, the wait timed out (and `kill()` follows), or something else
      raised, which propagates out of `stop` after the `finally` clause. */
  datatype TerminateOutcome = Exited | WaitTimedOut | TerminateRaised

  datatype StopResult = StopResult(generator: Generator, killed: bool, raised: bool)

  /** The shutdown of the VLC handle shared by `stop` and `_stop_vlc`. */
  function ReleaseVlc(g: Generator, outcome: TerminateOutcome): (r: StopResult)
    ensures r.generator == g.(vlcProcess := None)
    ensures r.killed <==> g.vlcProcess.Some? && outcome == WaitTimedOut
    ensures r.raised <==> g.vlcProcess.Some? && outcome == TerminateRaised
  {
    match g.vlcProcess
    case None => StopResult(g, false, false)
    case Some(_) =>
      match outcome
      case Exited => StopResult(g.(vlcProcess := None), false, false)
      case WaitTimedOut => StopResult(g.(vlcProcess := None), true, false)
      case TerminateRaised => StopResult(g.(vlcProcess := None), false, true)
  }

  /** `stop`: on every path the flag is cleared and the handle dropped; the
      process is killed exactly when the wait timed out. */
  function Stop(g: Generator, outcome: TerminateOutcome): (r: StopResult)
    ensures !r.generator.running && r.generator.vlcProcess.None?
    ensures r.generator.threadStarted == g.threadStarted && r.generator.ptp == g.ptp
    ensures r.killed <==> g.vlcProcess.Some? && outcome == WaitTimedOut
    ensures r.raised <==> g.vlcProcess.Some? && outcome == TerminateRaised
  {
    ReleaseVlc(g.(running := false), outcome)
  }

  /** Stopping twice is stopping once: the second call finds no process. */
  lemma StopIsIdempotent(g: Generator, first: TerminateOutcome, second: TerminateOutcome)
    ensures Stop(Stop(g, first).generator, second) == StopResult(Stop(g, first).generator, false, false)
  {
  }

  /** The fixed sleep taken when no PTP time is available, in seconds. */
  const FallbackSleepSeconds: real := 0.1

  /** What `_wait_for_next_burst` decides: the fallback sleep when the PTP
      time is `None`, a boundary and the time left until it, or a
      `ZeroDivisionError` from `t // 0`, which ends the loop. */
  datatype WaitDecision = FallbackSleep | Aligned(boundary: real, wait: real) | IntervalZero

  /** The decision for a given PTP reading. */
  function DecideWait(ptpTime: Option<real>, interval: real): (d: WaitDecision)
    ensures ptpTime.None? ==> d == FallbackSleep
    ensures ptpTime.Some? && interval == 0.0 ==> d == IntervalZero
    ensures ptpTime.Some? && interval != 0.0 ==> d.Aligned? && d.boundary == ptpTime.value + d.wait && OnGrid(d.boundary, interval)
    ensures ptpTime.Some? && interval > 0.0 ==> d.Aligned? && 0.0 < d.wait <= interval
    ensures ptpTime.Some? && interval < 0.0 ==> d.Aligned? && interval <= d.wait < 0.0
  {
    match ptpTime
    case None => FallbackSleep
    case Some(t) =>
      if interval == 0.0 then IntervalZero
      else
        var next := NextBoundary(t, interval);
        Aligned(next, next - t)
  }

  /** The sleep a decision performs, if any: `time.sleep` is called only for
      the fallback and for a positive wait. */
  function SleepFor(d: WaitDecision): (s: Option<real>)
    ensures s.Some? ==> s.value > 0.0
    ensures d == FallbackSleep ==> s == Some(FallbackSleepSeconds)
    ensures d.Aligned? ==> (s.Some? <==> d.wait > 0.0)
  {
    match d
    case FallbackSleep => Some(FallbackSleepSeconds)
    case Aligned(_, wait) => if wait > 0.0 then Some(wait) else None
    case IntervalZero => None
  }

  /** `_wait_for_next_burst`. Since `get_ptp_time` never returns `None`, the
      fallback sleep is never taken: a zero interval raises, and any other
      interval waits until the grid boundary `(t // I + 1) * I` after the
      PTP reading `t`, at most one interval away when `I > 0`. */
  function WaitForNextBurst(m: PtpTime.Manager, q: PtpTime.PtpQuery, interval: real, parseSeconds: string -> Option<real>): (r: PtpTime.Step<WaitDecision>)
    ensures r.manager == PtpTime.Refresh(m, q.checkClock, q.probe)
    ensures r.value != FallbackSleep
    ensures interval == 0.0 ==> r.value == IntervalZero
    ensures interval != 0.0 ==>
      var reading := PtpTime.GetPtpTime(m, q, parseSeconds).value.value;
      && r.value.Aligned?
      && r.value.boundary == NextBoundary(reading, interval)
      && r.value.boundary == reading + r.value.wait
    ensures interval > 0.0 ==> r.value.Aligned? && 0.0 < r.value.wait <= interval && OnGrid(r.value.boundary, interval)
    ensures interval > 0.0 ==> SleepFor(r.value) == Some(r.value.wait)
  {
    var s := PtpTime.GetPtpTime(m, q, parseSeconds);
    PtpTime.Step(s.manager, DecideWait(s.value, interval))
  }

  /** A negative interval (possible, since nothing validates the
      configuration before the generator runs) puts the boundary in the
      past: no sleep happens and bursts are triggered back to back. */
  lemma NegativeIntervalNeverSleeps(m: PtpTime.Manager, q: PtpTime.PtpQuery, interval: real, parseSeconds: string -> Option<real>)
    requires interval < 0.0
    ensures SleepFor(WaitForNextBurst(m, q, interval, parseSeconds).value).None?
  {
  }

  /** One pass of the `_run` loop as seen from the loop's thread: the flag
      at the `while` test, the inputs of the wait, the flag after the wait,
      and the inputs of the `get_timestamp` call in `_trigger_burst`. */
  datatype Tick = Tick(runningAtTop: bool, wait: PtpTime.PtpQuery, runningAfterWait: bool, stamp: PtpTime.PtpQuery, stampClock: real)

  /** A pass that reached the wait: the time manager's state before it, the
      PTP reading the wait was computed from, the decision and, when it
      triggered, the `(ptp_time, system_time)` pair `_trigger_burst` logged. */
  datatype Round = Round(before: PtpTime.Manager, reading: real, decision: WaitDecision, burst: Option<(Option<real>, real)>)

  /** The time manager's state after a round: the wait's refresh, then the
      refresh of `get_timestamp` when a burst was triggered. */
  function After(tick: Tick, round: Round): PtpTime.Manager {
    var m := PtpTime.Refresh(round.before, tick.wait.checkClock, tick.wait.probe);
    if round.burst.Some? then PtpTime.Refresh(m, tick.stamp.checkClock, tick.stamp.probe) else m
  }

  /** What one round of `_run` promises about the pass of the loop it came
      from: the flag was set at the `while` test; the reading is the PTP
      time the wait read; a zero interval raises, any other waits until the
      next grid boundary after the reading (at most one interval ahead when
      `I > 0`); a burst was triggered exactly when the flag was still set
      after a wait that did not raise, and it logged `get_timestamp`. */
  predicate RoundFits(tick: Tick, round: Round, interval: real, parseSeconds: string -> Option<real>) {
    && tick.runningAtTop
    && round.reading == PtpTime.GetPtpTime(round.before, tick.wait, parseSeconds).value.value
    && (interval == 0.0 <==> round.decision.IntervalZero?)
    && (interval != 0.0 ==>
          && round.decision.Aligned?
          && round.decision.boundary == NextBoundary(round.reading, interval)
          && round.decision.boundary == round.reading + round.decision.wait)
    && (interval > 0.0 ==>
          round.decision.Aligned? && 0.0 < round.decision.wait <= interval
          && SleepFor(round.decision) == Some(round.decision.wait))
    && (round.burst.Some? <==> tick.runningAfterWait && !round.decision.IntervalZero?)
    && (round.burst.Some? ==>
          round.burst.value == PtpTime.GetTimestamp(PtpTime.Refresh(round.before, tick.wait.checkClock, tick.wait.probe),
                                                    tick.stamp, tick.stampClock, parseSeconds).value)
  }

  /** The manager a round should start from: the run's initial manager for
      the first round, else the state the previous round left. */
  function StartOf(start: PtpTime.Manager, ticks: seq<Tick>, rounds: seq<Round>, k: nat): PtpTime.Manager
    requires k < |rounds| <= |ticks|
  {
    if k == 0 then start else After(ticks[k - 1], rounds[k - 1])
  }

  /** `rounds` is a run of the loop from `start`, stated prefix by prefix:
      each round fits its pass and starts where the previous one ended. */
  predicate Trace(start: PtpTime.Manager, ticks: seq<Tick>, rounds: seq<Round>, interval: real, parseSeconds: string -> Option<real>)
    requires |rounds| <= |ticks|
    decreases |rounds|
  {
    |rounds| == 0
    || (&& Trace(start, ticks, rounds[..|rounds| - 1], interval, parseSeconds)
        && RoundFits(ticks[|rounds| - 1], rounds[|rounds| - 1], interval, parseSeconds)
        && rounds[|rounds| - 1].before == StartOf(start, ticks, rounds, |rounds| - 1))
  }

  /** A round that fits the next pass and starts where the trace ended extends the trace. */
  lemma TraceExtend(start: PtpTime.Manager, ticks: seq<Tick>, rounds: seq<Round>, round: Round, interval: real, parseSeconds: string -> Option<real>)
    requires |rounds| < |ticks| && Trace(start, ticks, rounds, interval, parseSeconds)
    requires RoundFits(ticks[|rounds|], round, interval, parseSeconds)
    requires round.before == if |rounds| == 0 then start else After(ticks[|rounds| - 1], rounds[|rounds| - 1])
    ensures Trace(start, ticks, rounds + [round], interval, parseSeconds)
  {
    assert (rounds + [round])[..|rounds|] == rounds;
  }

  /** Any single round of a trace fits its pass and starts where the previous one ended. */
  lemma {:induction false} TraceAt(start: PtpTime.Manager, ticks: seq<Tick>, rounds: seq<Round>, k: nat, interval: real, parseSeconds: string -> Option<real>)
    requires k < |rounds| <= |ticks| && Trace(start, ticks, rounds, interval, parseSeconds)
    ensures RoundFits(ticks[k], rounds[k], interval, parseSeconds)
    ensures rounds[k].before == StartOf(start, ticks, rounds, k)
    decreases |rounds|
  {
    if k < |rounds| - 1 {
      var prefix := rounds[..|rounds| - 1];
      TraceAt(start, ticks, prefix, k, interval, parseSeconds);
      assert prefix[k] == rounds[k];
      assert k > 0 ==> prefix[k - 1] == rounds[k - 1];
    }
  }

  lemma TraceEach(start: PtpTime.Manager, ticks: seq<Tick>, rounds: seq<Round>, interval: real, parseSeconds: string -> Option<real>)
    requires |rounds| <= |ticks| && Trace(start, ticks, rounds, interval, parseSeconds)
    ensures forall k :: 0 <= k < |rounds| ==> RoundFits(ticks[k], rounds[k], interval, parseSeconds)
    ensures forall k :: 0 <= k < |rounds| ==> rounds[k].before == StartOf(start, ticks, rounds, k)
  {
    forall k | 0 <= k < |rounds|
      ensures RoundFits(ticks[k], rounds[k], interval, parseSeconds)
      ensures rounds[k].before == StartOf(start, ticks, rounds, k)
    {
      TraceAt(start, ticks, rounds, k, interval, parseSeconds);
    }
  }

  /** One pass of the `_run` loop body, entered with the flag set: wait for
      the next burst and trigger it unless the wait raised or the flag was
      cleared meanwhile. */
  method Pass(m: PtpTime.Manager, tick: Tick, interval: real, parseSeconds: string -> Option<real>) returns (round: Round)
    requires tick.runningAtTop
    ensures round.before == m
    ensures RoundFits(tick, round, interval, parseSeconds)
  {
    var reading := PtpTime.GetPtpTime(m, tick.wait, parseSeconds).value.value;
    var w := WaitForNextBurst(m, tick.wait, interval, parseSeconds);
    if w.value.IntervalZero? || !tick.runningAfterWait {
      round := Round(m, reading, w.value, None);
    } else {
      round := Round(m, reading, w.value, Some(PtpTime.GetTimestamp(w.manager, tick.stamp, tick.stampClock, parseSeconds).value));
    }
  }

  /** `_run`: start VLC (`vlcStart` is the new process id, `None` when
      `Popen` raised), loop wait-then-trigger while the flag stays set, and
      release VLC in the `finally` clause. The time manager is threaded
      through the rounds in order. */
  method Run(g: Generator, vlcStart: Option<nat>, ticks: seq<Tick>, interval: real,
             release: TerminateOutcome, parseSeconds: string -> Option<real>)
    returns (rounds: seq<Round>, g': Generator)
    ensures |rounds| <= |ticks|
    ensures vlcStart.None? ==> rounds == []
    ensures forall k :: 0 <= k < |rounds| ==> RoundFits(ticks[k], rounds[k], interval, parseSeconds)
    ensures forall k :: 0 <= k < |rounds| ==> rounds[k].before == StartOf(g.ptp, ticks, rounds, k)
    ensures forall k :: 0 <= k < |rounds| - 1 ==> rounds[k].burst.Some?
    ensures vlcStart.Some? && |rounds| < |ticks| && (|rounds| == 0 || rounds[|rounds| - 1].burst.Some?) ==>
      !ticks[|rounds|].runningAtTop
    ensures g'.running == g.running && g'.vlcProcess.None?
    ensures g'.ptp == if |rounds| == 0 then g.ptp else After(ticks[|rounds| - 1], rounds[|rounds| - 1])
  {
    rounds := [];
    if vlcStart.None? {
      g' := ReleaseVlc(g, release).generator;
      return;
    }
    var m := g.ptp;
    var i := 0;
    var stopped := false;
    while i < |ticks| && !stopped
      invariant 0 <= |rounds| == i <= |ticks|
      invariant stopped ==> i > 0 && rounds[i - 1].burst.None?
      invariant Trace(g.ptp, ticks, rounds, interval, parseSeconds)
      invariant m == if i == 0 then g.ptp else After(ticks[i - 1], rounds[i - 1])
      invariant forall k :: 0 <= k < i - 1 ==> rounds[k].burst.Some?
      invariant !stopped && i > 0 ==> rounds[i - 1].burst.Some?
    {
      var tick := ticks[i];
      if !tick.runningAtTop {
        break;
      }
      var round := Pass(m, tick, interval, parseSeconds);
      m := After(tick, round);
      stopped := round.burst.None?;
      TraceExtend(g.ptp, ticks, rounds, round, interval, parseSeconds);
      rounds := rounds + [round];
      i := i + 1;
    }
    TraceEach(g.ptp, ticks, rounds, interval, parseSeconds);
    g' := ReleaseVlc(g.(vlcProcess := vlcStart, ptp := m), release).generator;
  }
}
