# PTPPing timing core in Dafny

PTPPing measures network audio latency. A generator plays a tone burst at
every instant of a global grid `k * burst_interval` of PTP time. A capture
node listens on a loopback device, detects each burst with an FFT threshold,
and records how far the detection lies from the grid instant it expected. A
small manager caches whether the PTP daemon is synchronized. It reads the
PHC clock and falls back to the system clock whenever anything fails. A
configuration loader and validator and a Grafana dashboard provisioner
complete the package.

This project models the decision logic of those five parts as pure
functions over immutable state records. A few methods with loops model the
sequential algorithms. Everything foreign is a parameter:

- every `time.time()` read;
- every `subprocess.run` result (`pgrep`, `pmc`, `phc_ctl`);
- the spectrum magnitudes of an audio chunk;
- every Grafana reply;
- the parsed TOML document;
- `float()` on the `phc_ctl` text and `json.loads` acceptance, as oracles.

Times are exact `real` seconds. Python's `//` on floats is the floor of the
exact quotient.

| file | module | models |
|---|---|---|
| `wrappers.dfy` | `Wrappers` | `Option` and `Result` |
| `text.dfy` | `Text` | the `str` methods the code relies on: `in`, `split`, `replace`, `strip`, `split()[-1]`, `lower` |
| `numerals.dfy` | `Numerals` | `int(token)` and `str(n)` for integers |
| `grid.dfy` | `Grid` | the burst grid and `(t // I + 1) * I` |
| `ptp_time.py` → `ptp_time.dfy` | `PtpTime` | `PTPTimeManager` |
| `config.py` → `config.dfy` | `Configuration` | `Config.from_file`, `Config.validate` |
| `audio_generator.py` → `generator.dfy` | `Generator` | `AudioGenerator` |
| `audio_capture.py` → `capture.dfy` | `Capture` | `AudioCapture` |
| `dashboard_manager.py` → `dashboard.dfy` | `Dashboard` | `DashboardManager` |

## Behaviour as written

The model follows the code where the code and its documented intent differ:

- **Next boundary.** The capture side compares a detection with the *next*
  grid boundary after the PTP reading, not the most recent one
  (`ptpping/capture/audio_capture.py:240`). Take a tone detected at
  10.301 s while PTP reads 10.3 s on a 1 s grid. It is measured against
  11.0 s and reads as -699 ms, not +301 ms
  (`Capture.LatencyAgainstNextBoundary`).
  Every other member uses this same as-written definition.
- **`get_ptp_time` is never `None`.** Every path returns a time, so the
  `None` branches of `_wait_for_next_burst`, `_calculate_expected_burst_time`
  and `calculate_offset` are dead. They are modelled anyway. The contracts
  of `PtpTime.GetPtpTime` and `Generator.WaitForNextBurst` state that they
  are dead.
- **Zero tone frequency.** `validate` with `tone_frequency == 0` raises
  `ZeroDivisionError`, not `ValueError` (`Configuration.ZeroToneIsNotValueError`).
- **`validate` is not called.** The command-line entry point never calls
  `validate` (`ptpping.py:52`). So a zero or negative `burst_interval`
  reaches the generator and the capture:
  - with a zero interval, the generator loop ends on `ZeroDivisionError`,
    and the capture reports no expected time;
  - with a negative interval, the generator never sleeps
    (`Generator.NegativeIntervalNeverSleeps`).
- **The dashboard id is read but not used.** `_provision_dashboard` reads
  `existing_dashboard['id']`, so an entry without an `id` raises `KeyError`
  (`ProvisionError.IdMissing`). `_update_dashboard` never uses that id: the
  fetch is keyed by the template's `uid` and the POST sends the template
  with `overwrite: True`.
  `Provisioned.Updated` records the id read only to show which entry was
  found.
- **Dashboard `start` leaves the flag set on failure.** `start` sets
  `_running` before the health check and leaves it set when the check
  raises.

## Model

| member | source | states |
|---|---|---|
| `Text.IndexOf` | ptpping/core/ptp_time.py:48 | `p in s` finds the lowest position where `p` occurs, and finds nothing exactly when `p` occurs nowhere |
| `Text.FirstLineContaining` | ptpping/core/ptp_time.py:95-96 | the index of the first output line containing the marker, and no earlier line contains it; nothing when no line does |
| `Text.LastField` | ptpping/core/ptp_time.py:98 | `line.split()[-1]`: absent exactly for an all-whitespace line; otherwise a non-empty run of non-space characters that ends the line's trimmed text and is preceded by whitespace or the line start |
| `Text.LastFieldAfterSpace` | ptpping/core/ptp_time.py:98 | a line whose text ends in whitespace followed by a run of non-space characters has that run as `split()[-1]`, whatever precedes it |
| `Text.Strip` | ptpping/core/ptp_time.py:50 | `strip()` removes exactly the leading and trailing whitespace: the result is the middle of the input, and its ends are not whitespace |
| `Text.LastPieceFollowsSeparator` | ptpping/core/ptp_time.py:50 | `line.split('clock time is')[-1]` is a suffix of the line that begins right after an occurrence of the marker when the marker occurs |
| `Text.LastPieceAvoidsSeparator` | ptpping/core/ptp_time.py:50 | that suffix contains no further occurrence of the marker, so the text after the last marker is taken |
| `Text.LastPieceAfterOnlyOccurrence` | ptpping/core/ptp_time.py:50 | on a line holding the marker exactly once, `split(marker)[-1]` is the whole text after that marker |
| `Text.ReplaceIsJoinOfSplit` | ptpping/dashboard/dashboard_manager.py:143 | `str.replace` equals joining the `split` pieces with the replacement: every non-overlapping occurrence, scanning left to right, is replaced |
| `Text.ReplaceAll` | ptpping/dashboard/dashboard_manager.py:143 | `str.replace` leaves a text in which the pattern does not occur unchanged |
| `Text.Split` | ptpping/core/ptp_time.py:50 | `split(sep)` always yields at least one piece, so `[-1]` never raises; its content is fixed by `Text.JoinSplitRoundTrip` and `Text.LastPieceAfterOnlyOccurrence` |
| `Text.JoinSplitRoundTrip` | ptpping/dashboard/dashboard_manager.py:143 | joining the pieces of a split with the separator gives the original text back |
| `Text.Lower` | ptpping/capture/audio_capture.py:146 | `lower()` keeps the length and maps each character on its own |
| `Numerals.ParseInt` | ptpping/core/ptp_time.py:98 | `int(token)` succeeds exactly when the token, after at most one leading sign, is digits with single underscores between digits; the value is the digits' number with the underscores dropped, negated after a `-` |
| `Numerals.UnderscoreBetweenDigitsIgnored` | ptpping/core/ptp_time.py:98 | an underscore between two digit runs does not change what `int()` reads |
| `Numerals.IntToString` | ptpping/dashboard/dashboard_manager.py:139 | `str(n)` is non-empty and starts with `-` exactly for negative `n` |
| `Numerals.NatToStringValue` | ptpping/dashboard/dashboard_manager.py:139 | the digits `str(n)` prints for a natural number denote `n` |
| `Numerals.ParseIntOfIntToString` | ptpping/capture/audio_capture.py:267 | `int(str(n)) == n` for every integer: the VLAN tag and placeholder text denote the configured id |
| `Grid.FloorDiv` | ptpping/generator/audio_generator.py:173 | `t // I` is the integer `q` with `q <= t / I < q + 1` |
| `Grid.NextBoundary` | ptpping/generator/audio_generator.py:173-174 | `(t // I + 1) * I` is a multiple of `I`, strictly after `t` and at most `I` later when `I > 0` (mirrored when `I < 0`) |
| `Grid.BoundaryOfCell` | ptpping/generator/audio_generator.py:173 | every time in `[kI, (k+1)I)` snaps to `(k+1)I` |
| `Grid.SameCellSameBoundary` | ptpping/generator/audio_generator.py:173 | two readings in the same grid cell yield the same boundary, whenever the scheduler started |
| `Grid.NextOfNext` | ptpping/generator/audio_generator.py:173 | snapping a boundary again moves exactly one interval on, so recomputing never drifts |
| `Grid.NextBoundaryIsLeast` | ptpping/capture/audio_capture.py:240 | the boundary is the least grid instant strictly after the reading |
| `PtpTime.Init` | ptpping/core/ptp_time.py:19-21 | a new manager is unsynchronized and has never checked |
| `PtpTime.ScanLines` | ptpping/core/ptp_time.py:95-107 | the scan loop returns what reading the first line holding the marker gives, and stops there even when that read fails |
| `PtpTime.CheckSync` | ptpping/core/ptp_time.py:68-117 | synchronized exactly when `pgrep` and `pmc` exit 0 and the first CLOCK_CLASS line ends in an integer 6 or 7; every other outcome, including timeouts and exceptions, is unsynchronized |
| `PtpTime.Refresh` | ptpping/core/ptp_time.py:27-30 | the probes run only when more than 60 s separate now from the last check, which then becomes now; otherwise nothing changes; afterwards the cache is at most 60 s old |
| `PtpTime.GetPtpTime` | ptpping/core/ptp_time.py:23-66 | after the refresh: the system time while unsynchronized, else the PHC time of the first `clock time is` line, else the system time; never `None` |
| `PtpTime.UnsynchronizedIgnoresPhc` | ptpping/core/ptp_time.py:32-34 | while unsynchronized, the `phc_ctl` result has no influence |
| `PtpTime.GetTimestamp` | ptpping/core/ptp_time.py:119-123 | runs the refresh rule once and returns the system time given to it paired with a PTP time that is never `None`: the fallback clock while unsynchronized or when no PHC reading exists, else the PHC reading |
| `PtpTime.CalculateOffset` | ptpping/core/ptp_time.py:125-130 | the offset plus the system reading equals the PTP reading of the same call, and is never `None` |
| `PtpTime.IsSynchronized` | ptpping/core/ptp_time.py:132-138 | the cached flag after the same refresh rule: a fresh check when due, else the old flag and no change |
| `PtpTime.CachedWithinInterval` | ptpping/core/ptp_time.py:134-137 | a query within 60 s of a check reuses that check's verdict |
| `PtpTime.FirstClockClassLineDecides` | ptpping/core/ptp_time.py:96-107 | a first CLOCK_CLASS line that fails to parse makes the status unsynchronized, whatever later lines say |
| `PtpTime.ClockClassLineReadsBack` | ptpping/core/ptp_time.py:96-99 | `ReadClockClass`, i.e. `int(line.split()[-1])`: a `pmc` line ending in a space and the decimal text of a class reads as that class |
| `PtpTime.ClockTimeLineReadsAfterMarker` | ptpping/core/ptp_time.py:48-51 | `ReadClockTime`: a `phc_ctl` line holding "clock time is" once hands `float()` the stripped text after the marker |
| `PtpTime.PhcTime` | ptpping/core/ptp_time.py:36-55 | a PHC reading exists only when `phc_ctl` exited with status 0 |
| `PtpTime.PhcReportReadsBack` | ptpping/core/ptp_time.py:44-52 | when `phc_ctl` exits 0 and its first line reports the clock time, the reading is what `float()` makes of the stripped text after the marker |
| `Configuration.LookupAll` | ptpping/core/config.py:93-139 | the lookups succeed exactly when every key is present and return the document's values in order; otherwise the first missing key decides the error |
| `Configuration.Build` | ptpping/core/config.py:141-149 | the constructed configuration holds exactly the looked-up values, field by field |
| `Configuration.FromFile` | ptpping/core/config.py:86-154 | a load failure is an error; success exactly when all 27 keys are present, with each field the document's value; a missing key is reported as missing and any other failure as a load failure |
| `Configuration.Validate` | ptpping/core/config.py:156-178 | for values of any type: accepts exactly when every check, taken on its own, passes; a `ValueError` or division error names a check that rejects while every earlier check passed; a type error arises at a check Python cannot evaluate while every earlier check passed; for finite numbers, the same in terms of the violated conditions |
| `Configuration.ZeroToneIsNotValueError` | ptpping/core/config.py:159 | a zero tone frequency raises a division error, not a value error |
| `Configuration.DurationEqualToIntervalRejected` | ptpping/core/config.py:168-169 | a burst exactly as long as the interval is rejected |
| `Configuration.DomainCheckedBeforePriorityType` | ptpping/core/config.py:172-176 | with the audio checks passed, domain 300 raises the domain `ValueError` even when the priority is a string that would raise `TypeError` |
| `Generator.Init` | ptpping/generator/audio_generator.py:23-30 | a new generator is stopped, with no thread and no VLC process |
| `Generator.Start` | ptpping/generator/audio_generator.py:70-80 | starting a running generator changes nothing; otherwise it sets the flag and the thread |
| `Generator.ReleaseVlc` | ptpping/generator/audio_generator.py:153-162 | the process handle is dropped on every path, killed exactly on a wait timeout, and an error from `terminate` propagates |
| `Generator.Stop` | ptpping/generator/audio_generator.py:82-98 | afterwards the generator is stopped with no VLC process on every path, including timeout then kill |
| `Generator.StopIsIdempotent` | ptpping/generator/audio_generator.py:82-98 | a second stop finds no process, kills nothing and changes nothing |
| `Generator.DecideWait` | ptpping/generator/audio_generator.py:164-177 | no PTP time gives the 0.1 s fallback; otherwise the boundary is on the grid and reading plus wait; with `I > 0` the wait is in `(0, I]`; a zero interval is the division error |
| `Generator.SleepFor` | ptpping/generator/audio_generator.py:167-177 | a sleep happens for the fallback and for a positive wait only, and is always positive |
| `Generator.WaitForNextBurst` | ptpping/generator/audio_generator.py:164-177 | the refresh rule runs once; the fallback never happens; a zero interval is the division error; otherwise the decision is aligned to the next grid boundary after the PTP reading, which equals reading plus wait; with `I > 0` the generator sleeps exactly that wait, at most one interval |
| `Generator.NegativeIntervalNeverSleeps` | ptpping/generator/audio_generator.py:173-177 | with a negative interval no sleep happens |
| `Generator.Pass` | ptpping/generator/audio_generator.py:107-115 | one loop pass entered with the flag set: the round records the PTP reading of its wait, a wait aligned to the next boundary after that reading, and a burst exactly when the flag is still set after a wait that did not raise, logging `get_timestamp` taken after the wait's refresh |
| `Generator.Run` | ptpping/generator/audio_generator.py:100-120 | every round fits its pass (reading, boundary from that reading, wait, burst as in `Generator.Pass`); the first round starts from the generator's time manager and each later one from the state the previous round left; only the last round may end the loop, and otherwise the loop stops only when the flag is cleared at the top; VLC is released at the end, a failed VLC start runs no round, and the final manager is the last round's |
| `Capture.Init` | ptpping/capture/audio_capture.py:29-50 | a new capture is stopped, with no detection time and no records |
| `Capture.SignedBin` | ptpping/capture/audio_capture.py:180 | `fftfreq` orders the bins 0, 1, …, then the negative ones: bin `k` is `k` or `k - n` and lies in `[-(n/2), (n-1)/2]` |
| `Capture.NearestIn` | ptpping/capture/audio_capture.py:183 | `argmin` over a prefix: a bin at minimal distance from the tone, the lowest on ties |
| `Capture.NearestBin` | ptpping/capture/audio_capture.py:180-183 | the chosen bin minimises the distance to the tone frequency, and every lower bin is strictly farther |
| `Capture.ToneLevel` | ptpping/capture/audio_capture.py:183-187 | the normalized magnitude at the nearest bin is non-negative when the magnitudes are |
| `Capture.ToneLevelAboveThreshold` | ptpping/capture/audio_capture.py:183-190 | the normalized level exceeds a threshold exactly when the nearest bin's magnitude exceeds the threshold times the chunk length |
| `Capture.ExpectedBurstTime` | ptpping/capture/audio_capture.py:232-251 | none for a zero interval; otherwise the expected time plus the measured offset is the next grid boundary after the PTP reading: with `I > 0` strictly after the reading and at most one interval later, with `I < 0` strictly before the reading and no more than the interval's length earlier |
| `Capture.DetectBurst` | ptpping/capture/audio_capture.py:201-268 | a record exists exactly when the expected time does; that expected time is `Capture.ExpectedBurstTime` taken after the stamp's refresh; the expected time plus the latency in seconds is the detection time; the stamp is `get_timestamp`'s; a point is sent exactly when a write API exists, carrying the record's values, the configured switch and host names, the VLAN id as text and `str(is_synchronized())` from the refresh after the expected-time computation; the manager is the state after that last refresh |
| `Capture.LatencyMeasuredFromNextBoundary` | ptpping/capture/audio_capture.py:201-245 | for every reading, the record's expected time is the next boundary after the PTP reading minus the offset, the latency is measured from it in milliseconds, and with `I > 0` that boundary is still to come and at most one interval away |
| `Capture.LatencyAgainstNextBoundary` | ptpping/capture/audio_capture.py:240-245 | PTP 10.3 s, 1 s grid, zero offset, detection at 10.301 s: expected 11.0 s, latency -699 ms |
| `Capture.ProcessChunk` | ptpping/capture/audio_capture.py:175-199 | a chunk that is empty, silent or within 0.5 s of the last detection changes nothing; otherwise the detection time moves to its clock even without a record, the record `Capture.DetectBurst` makes from the normalized level (if any) is appended after the old ones, its point is the one sent, its manager is the capture's next one, and record spacing is preserved |
| `Capture.AudioCallback` | ptpping/capture/audio_capture.py:158-173 | a stopped capture completes the stream and ignores the chunk; a running one processes it and continues |
| `Capture.Feed` | ptpping/capture/audio_capture.py:158-199 | a run of callbacks only appends records, at most one per chunk, and keeps them spaced more than 0.5 s apart |
| `Capture.DebounceSuppressesSecond` | ptpping/capture/audio_capture.py:194-196 | a second loud chunk within 0.5 s of a detection changes nothing |
| `Capture.SpacedPairwise` | ptpping/capture/audio_capture.py:194-196 | records `i < j` lie more than `(j - i) * 0.5` s apart |
| `Capture.Start` | ptpping/capture/audio_capture.py:76-94 | starting a running capture changes nothing; otherwise the flag is set only when the stream opened, and a failure propagates |
| `Capture.Stop` | ptpping/capture/audio_capture.py:96-98 | stopping clears the flag and keeps the records |
| `Capture.StoppedCaptureIgnoresAudio` | ptpping/capture/audio_capture.py:160-161 | after stop, the callback completes the stream and changes nothing |
| `Capture.FirstLoopbackFrom` | ptpping/capture/audio_capture.py:143-148 | the first device from a position whose name contains the configured name or, lower-cased, "loopback" |
| `Capture.FindLoopbackDevice` | ptpping/capture/audio_capture.py:140-156 | the first matching device; else the default input; else device 0; a failed query gives 0 |
| `Capture.EmptyNameChoosesFirstDevice` | ptpping/capture/audio_capture.py:145 | an empty configured name matches every device, so device 0 is chosen |
| `Capture.GetRecentBursts` | ptpping/capture/audio_capture.py:299-301 | always a suffix of the records: the last `min(count, len)` for a positive count, all for 0, all but the first `-count` for a negative count |
| `Capture.SliceFrom` | ptpping/capture/audio_capture.py:301 | Python's `s[start:]`: a suffix, of length `min(-start, len)` for a negative start and `len - start` (at least 0) otherwise |
| `Dashboard.Placeholders` | ptpping/dashboard/dashboard_manager.py:133-140 | six placeholders, none empty |
| `Dashboard.Substitute` | ptpping/dashboard/dashboard_manager.py:142-143 | replacing in turn leaves a text with none of the placeholders unchanged |
| `Dashboard.SubstituteFirstRuleFirst` | ptpping/dashboard/dashboard_manager.py:142-143 | the first placeholder is replaced throughout the whole text, as split-and-join, before the later ones act on the result |
| `Dashboard.SkipAbsentRules` | ptpping/dashboard/dashboard_manager.py:142-143 | placeholders that do not occur leave the text unchanged for the later ones |
| `Dashboard.CustomizeTemplate` | ptpping/dashboard/dashboard_manager.py:125-145 | the six replacements, applied in turn, leave a template holding none of the placeholders unchanged |
| `Dashboard.VlanPlaceholderBecomesDecimal` | ptpping/dashboard/dashboard_manager.py:139-143 | the VLAN placeholder becomes text that reads back as the configured VLAN id |
| `Dashboard.FirstTitled` | ptpping/dashboard/dashboard_manager.py:159-161 | the first result from a position whose title equals the name |
| `Dashboard.GetDashboardByName` | ptpping/dashboard/dashboard_manager.py:147-167 | found exactly when the search answers 200 with a list containing the exact title; the result is the first such entry; failures give nothing |
| `Dashboard.NextVersion` | ptpping/dashboard/dashboard_manager.py:201-205 | current version plus one on a 200 fetch, 1 on any other status; a failed request or missing version raises |
| `Dashboard.Post` | ptpping/dashboard/dashboard_manager.py:184-185 | the POST succeeds exactly with status 200 |
| `Dashboard.Provision` | ptpping/dashboard/dashboard_manager.py:103-123 | a template whose customized text does not parse fails before any request; success needs a 200 POST; it updates exactly when the lookup found the dashboard and creates otherwise; creating succeeds exactly on a 200 POST; updating succeeds exactly when the found entry has an `id`, the version fetch gives a version and the POST answers 200, and reports the id read and the bumped version |
| `Dashboard.UpdatedVersionPositive` | ptpping/dashboard/dashboard_manager.py:201-205 | an update never posts a version below 1 when current versions are non-negative |
| `Dashboard.ProvisionAll` | ptpping/dashboard/dashboard_manager.py:95-101 | every template is attempted in order, each with the outcome it would have alone given whether its customized text parses |
| `Dashboard.Start` | ptpping/dashboard/dashboard_manager.py:50-93 | the flag ends set on every path; a running manager does nothing; provisioning happens only after a 200 health reply whose body decodes to a JSON object |
| `Dashboard.CountPtpDashboards` | ptpping/dashboard/dashboard_manager.py:256-257 | the number of results whose lower-cased title contains "ptp", with a missing title read as empty; none when a title is not a string |
| `Dashboard.CountTrueIsCardinality` | ptpping/dashboard/dashboard_manager.py:256-257 | counting matches one by one gives the size of the set of matching positions |
| `Dashboard.GetDashboardStatus` | ptpping/dashboard/dashboard_manager.py:226-262 | connected exactly on a 200 health reply; after a successful search the count of PTP dashboards, or 0 when a title is not a string; 0 when the health check or the search fails |

## Left out

- Tone synthesis (`ptpping/generator/audio_generator.py:35-68`), the FFT and
  the float rounding of `fftfreq` are floating-point numerics. A chunk
  arrives as its spectrum magnitudes, and bin frequencies are exact
  `k * rate / n`.
- Times are exact reals. With floats, `(t // I + 1) * I - t` can round to 0
  or exceed `I` by an ulp. The model does not capture those ulps.
- `float()` on the `phc_ctl` text is an oracle. The text it is given (first
  matching line, after the last marker, stripped) is modelled exactly.
- `int()` is modelled for ASCII digits only. Non-ASCII decimal digits that
  Python also accepts are not modelled.
- `lower()` is modelled for ASCII letters and the Kelvin sign only.
- `splitlines()` is not modelled: command output arrives already split into
  lines.
- Subprocesses, PyAudio, the InfluxDB client and Grafana HTTP are scripted
  replies. So are the `toml.load` and `json.loads`/`json.dumps` steps.
  Whether a write to InfluxDB raised only affects logging, so it is not
  modelled.
- Threads and `join` timeouts are not modelled. Neither is the capture's
  `_run` sleep loop, which changes no state. The generator loop reads
  `_running` from a finite script, so `Generator.Run` describes every
  finite prefix of a run.
- Generator and capture take the interval, rate and tone as numbers. A
  non-numeric `burst_interval` would raise `TypeError` in place of the
  division error; that case is not modelled.
- `Configuration.Validate`: TOML `nan` and `inf` floats are not
  representable, since a float is a `real`. Python accepts a `nan` burst
  duration or interval, because every comparison with `nan` is false. The
  model makes no promise about these values.
- `Configuration.Validate`: a string `sample_rate` makes `%` a string
  format operation in Python. Every such case is reported as
  `TypeMismatch`.
- `Dashboard.CustomizeTemplate`: the substituted values are taken as
  strings and the VLAN id as an integer. A non-string configuration value
  would make `replace` raise.
- Search results that are not JSON objects are not modelled.
- The URL of the version fetch (the template's `uid`) is not modelled: its
  reply is scripted.
- `get_status` of the generator and the capture is not modelled as a member
  of its own. It calls `is_synchronized()` and `calculate_offset()`, which
  run the refresh rule and are modelled as `PtpTime.IsSynchronized` and
  `PtpTime.CalculateOffset`. The rest reads flags or foreign handles
  (`poll()`, `is_active()`).
- `refresh_dashboards` and `DashboardManager.stop` are not modelled: they
  only call `_provision_dashboards` or clear the flag.
- `_load_dashboard_templates` reads files.
- `_init_influxdb` is modelled only by its outcome, `Setup.writeEnabled`.
- `_start_vlc`'s command line is not modelled: a VLC start is a scripted
  process id or a failure.
- Logging, the command-line entry point, packaging and the installation
  probe script are not modelled.
