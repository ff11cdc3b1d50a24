/** `PTPTimeManager`: a cached "is PTP synchronized" flag refreshed at most
    once per 60 seconds of wall clock, and a PTP clock read that falls back to
    the system clock on every failure.

    Subprocess calls (`pgrep ptp4l`, `pmc ... get CLOCK_CLASS`,
    `phc_ctl ... get`) are scripted `Command` results, every `time.time()`
    read is a parameter, and `float()` on the `phc_ctl` text is the oracle
    `parseSeconds`. */
module PtpTime {
  import opened Wrappers
  import opened Text
  import Numerals

  /** The outcome of one `subprocess.run(..., timeout=5)`: it completed with
      an exit code and standard output (already split into lines), it timed
      out, or it raised (for instance because the tool is not installed). */
  datatype Command = Completed(returnCode: int, lines: seq<String>) | TimedOut | Raised

  /** The command ran and exited with status 0. */
  predicate Succeeded(c: Command) {
    c.Completed? && c.returnCode == 0
  }

  /** The two probes of one sync check: `pgrep ptp4l` and
      `pmc -d <iface> get CLOCK_CLASS`. */
  datatype SyncProbe = SyncProbe(daemon: Command, clockClass: Command)

  /** The inputs one `get_ptp_time` call consumes: the wall clock read for the
      refresh test, the sync probe (used only when a refresh is due), the
      `phc_ctl` result (used only when synchronized) and the wall clock read
      returned on every fallback path. */
  datatype PtpQuery = PtpQuery(checkClock: real, probe: SyncProbe, phc: Command, fallbackClock: real)

  /** The mutable part of a `PTPTimeManager`: `_ptp_sync` and `_last_sync_check`. */
  datatype Manager = Manager(synchronized: bool, lastSyncCheck: real)

  /** A manager state together with what a call returned. */
  datatype Step<+T> = Step(manager: Manager, value: T)

  /** `_sync_check_interval`, in seconds. */
  const SyncCheckInterval: real := 60.0

  const ClockClassMarker: String := "CLOCK_CLASS"
  const ClockTimeMarker: String := "clock time is"

  /** A freshly constructed manager: unsynchronized, never checked. */
  function Init(): (m: Manager)
    ensures !m.synchronized && m.lastSyncCheck == 0.0
  {
    Manager(false, 0.0)
  }

  /** Clock class 6 (locked) and 7 (holdover) count as synchronized. */
  predicate LockedOrHoldover(clockClass: int) {
    clockClass == 6 || clockClass == 7
  }

  /** Reference reading of a command's output: apply `read` to the first line
      containing `marker`; nothing when no line contains it. */
  function FirstMatch<T>(lines: seq<String>, marker: String, read: String -> Option<T>): Option<T> {
    match FirstLineContaining(lines, marker)
    case None => None
    case Some(i) => read(lines[i])
  }

  /** The loop `for line in lines: if marker in line: try: return read(line)
      except ValueError: break`: it stops at the first line holding the
      marker, whatever the outcome of reading it. */
  function ScanLines<T>(lines: seq<String>, marker: String, read: String -> Option<T>): (r: Option<T>)
    ensures r == FirstMatch(lines, marker, read)
  {
    if |lines| == 0 then None
    else if Contains(lines[0], marker) then read(lines[0])
    else
      var rest := ScanLines(lines[1..], marker, read);
      FirstLineSkipsNonMatching(lines, marker);
      rest
  }

  /** A first line without the marker does not change which line matches first. */
  lemma FirstLineSkipsNonMatching(lines: seq<String>, marker: String)
    requires |lines| > 0 && !Contains(lines[0], marker)
    ensures match FirstLineContaining(lines, marker)
      case None => FirstLineContaining(lines[1..], marker).None?
      case Some(i) => i > 0 && FirstLineContaining(lines[1..], marker) == Some(i - 1)
  {
    var tail := lines[1..];
    match FirstLineContaining(lines, marker)
    case None =>
      assert forall j :: 0 <= j < |tail| ==> tail[j] == lines[j + 1];
    case Some(i) =>
      assert i > 0;
      var t := FirstLineContaining(tail, marker);
      assert tail[i - 1] == lines[i];
      if t.Some? {
        assert tail[t.value] == lines[t.value + 1];
      }
  }

  /** `int(line.split()[-1])`: the clock class on a `pmc` line. Python raises
      `IndexError` for a blank line and `ValueError` for a non-integer; both
      leave the manager unsynchronized. */
  function ReadClockClass(line: String): Option<int> {
    match LastField(line)
    case None => None
    case Some(field) => Numerals.ParseInt(field)
  }

  /** `float(line.split('clock time is')[-1].strip())` with `float` given by
      `parseSeconds`. */
  function ReadClockTime(line: String, parseSeconds: String -> Option<real>): Option<real> {
    parseSeconds(Strip(LastPiece(line, ClockTimeMarker)))
  }

  /** A `pmc` line ending in whitespace and the decimal text of a class
      reads as that class. */
  lemma ClockClassLineReadsBack(prefix: String, clockClass: int)
    ensures ReadClockClass(prefix + " " + Numerals.IntToString(clockClass)) == Some(clockClass)
  {
    var w := Numerals.IntToString(clockClass);
    forall k | 0 <= k < |w|
      ensures !IsSpace(w[k])
    {
      if clockClass < 0 {
        assert w == "-" + Numerals.NatToString(-clockClass);
        if k > 0 {
          assert w[k] == Numerals.NatToString(-clockClass)[k - 1];
        }
      }
    }
    LastFieldAfterSpace(prefix, w);
    Numerals.ParseIntOfIntToString(clockClass);
  }

  /** A `phc_ctl` line holding "clock time is" once hands `float()` the
      stripped text after it. */
  lemma ClockTimeLineReadsAfterMarker(prefix: String, value: String, parseSeconds: String -> Option<real>)
    requires !Contains(prefix + ClockTimeMarker[..|ClockTimeMarker| - 1], ClockTimeMarker)
    requires !Contains(value, ClockTimeMarker)
    ensures ReadClockTime(prefix + ClockTimeMarker + value, parseSeconds) == parseSeconds(Strip(value))
  {
    LastPieceAfterOnlyOccurrence(prefix, ClockTimeMarker, value);
  }

  /** Reference reading of a `phc_ctl get` result: the clock time on its
      first line holding "clock time is", when it exited with status 0. */
  function PhcTime(phc: Command, parseSeconds: String -> Option<real>): (r: Option<real>)
    ensures r.Some? ==> Succeeded(phc)
  {
    if Succeeded(phc) then FirstMatch(phc.lines, ClockTimeMarker, line => ReadClockTime(line, parseSeconds))
    else None
  }

  /** A successful `phc_ctl get` whose first line reports the clock time
      yields the value `float()` makes of the text after the marker. */
  lemma PhcReportReadsBack(prefix: String, value: String, rest: seq<String>, parseSeconds: String -> Option<real>)
    requires !Contains(prefix + ClockTimeMarker[..|ClockTimeMarker| - 1], ClockTimeMarker)
    requires !Contains(value, ClockTimeMarker)
    ensures PhcTime(Completed(0, [prefix + ClockTimeMarker + value] + rest), parseSeconds) == parseSeconds(Strip(value))
  {
    var line := prefix + ClockTimeMarker + value;
    var lines := [line] + rest;
    assert line[|prefix|..|prefix| + |ClockTimeMarker|] == ClockTimeMarker;
    assert OccursAt(line, ClockTimeMarker, |prefix|);
    assert Contains(line, ClockTimeMarker);
    assert lines[0] == line;
    assert FirstLineContaining(lines, ClockTimeMarker) == Some(0);
    ClockTimeLineReadsAfterMarker(prefix, value, parseSeconds);
  }

  /** `_check_ptp_sync`: synchronized exactly when `pgrep` finds the daemon
      and the first `pmc` line mentioning CLOCK_CLASS ends in 6 or 7. */
  function CheckSync(probe: SyncProbe): (synced: bool)
    ensures synced <==>
      && Succeeded(probe.daemon)
      && Succeeded(probe.clockClass)
      && FirstMatch(probe.clockClass.lines, ClockClassMarker, ReadClockClass).Some?
      && LockedOrHoldover(FirstMatch(probe.clockClass.lines, ClockClassMarker, ReadClockClass).value)
  {
    if !probe.daemon.Completed? then false
    else if probe.daemon.returnCode != 0 then false
    else match probe.clockClass
      case TimedOut => false
      case Raised => false
      case Completed(code, lines) =>
        if code != 0 then false
        else match ScanLines(lines, ClockClassMarker, ReadClockClass)
          case None => false
          case Some(clockClass) => LockedOrHoldover(clockClass)
  }

  /** The refresh both `get_ptp_time` and `is_synchronized` start with: the
      probes run only when more than 60 s of wall clock separate `now` from
      the last check. The cache is never older than the interval afterwards,
      even when the wall clock jumps backwards, and the flag changes only
      when a check ran. */
  function Refresh(m: Manager, now: real, probe: SyncProbe): (m': Manager)
    ensures now - m'.lastSyncCheck <= SyncCheckInterval
    ensures now - m.lastSyncCheck > SyncCheckInterval ==> m'.lastSyncCheck == now && m'.synchronized == CheckSync(probe)
    ensures now - m.lastSyncCheck <= SyncCheckInterval ==> m' == m
  {
    if now - m.lastSyncCheck > SyncCheckInterval then Manager(CheckSync(probe), now) else m
  }

  /** `get_ptp_time`. It always returns a time (the `Optional` result is never
      `None`): the PHC time from the first `phc_ctl` line holding
      "clock time is" when synchronized and everything succeeds, and the
      fallback wall clock reading otherwise. */
  function GetPtpTime(m: Manager, q: PtpQuery, parseSeconds: String -> Option<real>): (r: Step<Option<real>>)
    ensures r.manager == Refresh(m, q.checkClock, q.probe)
    ensures r.value.Some?
    ensures !r.manager.synchronized ==> r.value == Some(q.fallbackClock)
    ensures r.manager.synchronized && PhcTime(q.phc, parseSeconds).Some? ==> r.value == PhcTime(q.phc, parseSeconds)
    ensures r.manager.synchronized && PhcTime(q.phc, parseSeconds).None? ==> r.value == Some(q.fallbackClock)
  {
    var m' := Refresh(m, q.checkClock, q.probe);
    if !m'.synchronized then Step(m', Some(q.fallbackClock))
    else match q.phc
      case TimedOut => Step(m', Some(q.fallbackClock))
      case Raised => Step(m', Some(q.fallbackClock))
      case Completed(code, lines) =>
        if code != 0 then Step(m', Some(q.fallbackClock))
        else match ScanLines(lines, ClockTimeMarker, line => ReadClockTime(line, parseSeconds))
          case Some(t) => Step(m', Some(t))
          case None => Step(m', Some(q.fallbackClock))
  }

  /** While unsynchronized the PHC is not consulted: the `phc_ctl` result has
      no influence on the call. */
  lemma UnsynchronizedIgnoresPhc(m: Manager, q: PtpQuery, phc: Command, parseSeconds: String -> Option<real>)
    requires !Refresh(m, q.checkClock, q.probe).synchronized
    ensures GetPtpTime(m, q, parseSeconds) == GetPtpTime(m, q.(phc := phc), parseSeconds)
  {
  }

  /** `get_timestamp`: the PTP time, then a system clock read taken after it.
      The PTP half is always present: the PHC reading when synchronized and
      readable, else the fallback wall clock reading. */
  function GetTimestamp(m: Manager, q: PtpQuery, systemClock: real, parseSeconds: String -> Option<real>): (r: Step<(Option<real>, real)>)
    ensures r.manager == Refresh(m, q.checkClock, q.probe)
    ensures r.value.0.Some? && r.value.1 == systemClock
    ensures !r.manager.synchronized ==> r.value.0 == Some(q.fallbackClock)
    ensures r.manager.synchronized && PhcTime(q.phc, parseSeconds).Some? ==> r.value.0 == PhcTime(q.phc, parseSeconds)
    ensures r.manager.synchronized && PhcTime(q.phc, parseSeconds).None? ==> r.value.0 == Some(q.fallbackClock)
  {
    var s := GetPtpTime(m, q, parseSeconds);
    Step(s.manager, (s.value, systemClock))
  }

  /** `calculate_offset`: PTP time minus the system time read just after it,
      both from one `get_timestamp` call; never `None` in practice. */
  function CalculateOffset(m: Manager, q: PtpQuery, systemClock: real, parseSeconds: String -> Option<real>): (r: Step<Option<real>>)
    ensures r.manager == Refresh(m, q.checkClock, q.probe)
    ensures r.value.Some?
    ensures r.value.value + systemClock == GetPtpTime(m, q, parseSeconds).value.value
  {
    var s := GetTimestamp(m, q, systemClock, parseSeconds);
    var (ptp, system) := s.value;
    match ptp
    case Some(t) => Step(s.manager, Some(t - system))
    case None => Step(s.manager, None)
  }

  /** `is_synchronized`: the cached flag after the same refresh rule. */
  function IsSynchronized(m: Manager, now: real, probe: SyncProbe): (r: Step<bool>)
    ensures r.manager == Refresh(m, now, probe)
    ensures now - m.lastSyncCheck <= SyncCheckInterval ==> r.value == m.synchronized && r.manager == m
    ensures now - m.lastSyncCheck > SyncCheckInterval ==> r.value == CheckSync(probe)
  {
    var m' := Refresh(m, now, probe);
    Step(m', m'.synchronized)
  }

  /** Two reads within the refresh interval of a check reuse its verdict: the
      second call runs no probe. */
  lemma CachedWithinInterval(m: Manager, now1: real, now2: real, p1: SyncProbe, p2: SyncProbe)
    requires now1 - m.lastSyncCheck > SyncCheckInterval
    requires now2 - now1 <= SyncCheckInterval
    ensures IsSynchronized(Refresh(m, now1, p1), now2, p2).value == CheckSync(p1)
  {
  }

  /** Only `pmc` lines holding CLOCK_CLASS matter, and only the first of them:
      a later line cannot rescue a first line that fails to parse. */
  lemma FirstClockClassLineDecides(head: String, rest: seq<String>)
    requires Contains(head, ClockClassMarker) && ReadClockClass(head).None?
    ensures !CheckSync(SyncProbe(Completed(0, []), Completed(0, [head] + rest)))
  {
    var lines := [head] + rest;
    assert lines[0] == head;
    assert FirstLineContaining(lines, ClockClassMarker) == Some(0);
  }
}
