/** `Config.from_file` and `Config.validate`.

    The TOML document is given already parsed (`None` when `toml.load`
    fails). Like the dataclasses it fills, the model stores every value with
    whatever TOML type it has; only `validate` looks at the types, through
    Python's comparison and `%` rules for `int`, `float` and `bool`. */
module Configuration {
  import opened Wrappers

  /** A TOML value as `toml.load` returns it. `Other` stands for the date
      and time types. */
  datatype Value =
    | Int(i: int)
    | Float(f: real)
    | Bool(b: bool)
    | Str(s: string)
    | Array(items: seq<Value>)
    | Table(entries: map<string, Value>)
    | Other

  datatype PtpConfig = PtpConfig(interface: Value, domain: Value, priority: Value)
  datatype AudioConfig = AudioConfig(
    sampleRate: Value, toneFrequency: Value, burstDuration: Value,
    burstInterval: Value, device: Value, loopbackDevice: Value)
  datatype NetworkConfig = NetworkConfig(switchName: Value, hostName: Value, vlanId: Value)
  datatype InfluxDbConfig = InfluxDbConfig(url: Value, database: Value, organization: Value, token: Value, retentionDays: Value)
  datatype GrafanaConfig = GrafanaConfig(url: Value, apiKey: Value)
  datatype LoggingConfig = LoggingConfig(level: Value, file: Value, maxSize: Value, backupCount: Value)
  datatype MonitoringConfig = MonitoringConfig(systemMetrics: Value, metricsInterval: Value, webhookEnabled: Value, webhookUrl: Value)
  datatype Config = Config(
    ptp: PtpConfig, audio: AudioConfig, network: NetworkConfig, influxdb: InfluxDbConfig,
    grafana: GrafanaConfig, logging: LoggingConfig, monitoring: MonitoringConfig)

  /** Both kinds end up as a `ValueError`: a `KeyError` is reported as a
      missing key (naming the section or the key), anything else as a load
      failure. */
  datatype LoadError = MissingKey(name: string) | LoadFailed

  /** The keys `from_file` reads, in the order it reads them. */
  const RequiredKeys: seq<(string, string)> := [
    ("ptp", "interface"), ("ptp", "domain"), ("ptp", "priority"),
    ("audio", "sample_rate"), ("audio", "tone_frequency"), ("audio", "burst_duration"),
    ("audio", "burst_interval"), ("audio", "device"), ("audio", "loopback_device"),
    ("network", "switch_name"), ("network", "host_name"), ("network", "vlan_id"),
    ("influxdb", "url"), ("influxdb", "database"), ("influxdb", "organization"),
    ("influxdb", "token"), ("influxdb", "retention_days"),
    ("grafana", "url"), ("grafana", "api_key"),
    ("logging", "level"), ("logging", "file"), ("logging", "max_size"), ("logging", "backup_count"),
    ("monitoring", "system_metrics"), ("monitoring", "metrics_interval"),
    ("monitoring", "webhook_enabled"), ("monitoring", "webhook_url")
  ]

  /** `doc[section][key]` evaluates without raising. */
  predicate Present(doc: map<string, Value>, path: (string, string)) {
    path.0 in doc && doc[path.0].Table? && path.1 in doc[path.0].entries
  }

  /** What evaluating `doc[section][key]` raises when it does not return. */
  function LookupError(doc: map<string, Value>, path: (string, string)): LoadError {
    if path.0 !in doc then MissingKey(path.0)
    else if !doc[path.0].Table? then LoadFailed
    else MissingKey(path.1)
  }

  /** `paths[i]` is the first path whose lookup raises. */
  predicate FirstAbsent(doc: map<string, Value>, paths: seq<(string, string)>, i: int) {
    && 0 <= i < |paths| && !Present(doc, paths[i])
    && forall j :: 0 <= j < i ==> Present(doc, paths[j])
  }

  /** The values at `paths`, read in order; the first lookup that raises
      decides the error. */
  function LookupAll(doc: map<string, Value>, paths: seq<(string, string)>): (r: Result<seq<Value>, LoadError>)
    ensures r.Ok? <==> forall i :: 0 <= i < |paths| ==> Present(doc, paths[i])
    ensures r.Ok? ==> |r.value| == |paths|
    ensures r.Ok? ==> forall i :: 0 <= i < |paths| ==> r.value[i] == doc[paths[i].0].entries[paths[i].1]
    ensures r.Err? ==> exists i :: FirstAbsent(doc, paths, i) && r.error == LookupError(doc, paths[i])
  {
    if |paths| == 0 then Ok([])
    else if !Present(doc, paths[0]) then Err(LookupError(doc, paths[0]))
    else
      var rest := LookupAll(doc, paths[1..]);
      match rest
      case Err(e) =>
        assert forall i :: 1 <= i < |paths| ==> paths[i] == paths[1..][i - 1];
        rest.PropagateFailure()
      case Ok(vs) =>
        var here := doc[paths[0].0].entries[paths[0].1];
        assert forall i :: 1 <= i < |paths| ==> paths[i] == paths[1..][i - 1];
        Ok([here] + vs)
  }

  /** The configuration fields in the order of `RequiredKeys`. */
  function Fields(c: Config): (vs: seq<Value>)
    ensures |vs| == |RequiredKeys|
  {
    [ c.ptp.interface, c.ptp.domain, c.ptp.priority,
      c.audio.sampleRate, c.audio.toneFrequency, c.audio.burstDuration,
      c.audio.burstInterval, c.audio.device, c.audio.loopbackDevice,
      c.network.switchName, c.network.hostName, c.network.vlanId,
      c.influxdb.url, c.influxdb.database, c.influxdb.organization,
      c.influxdb.token, c.influxdb.retentionDays,
      c.grafana.url, c.grafana.apiKey,
      c.logging.level, c.logging.file, c.logging.maxSize, c.logging.backupCount,
      c.monitoring.systemMetrics, c.monitoring.metricsInterval,
      c.monitoring.webhookEnabled, c.monitoring.webhookUrl ]
  }

  /** The dataclass constructors applied to the looked-up values. */
  function Build(vs: seq<Value>): (c: Config)
    requires |vs| == |RequiredKeys|
    ensures Fields(c) == vs
  {
    Config(
      PtpConfig(vs[0], vs[1], vs[2]),
      AudioConfig(vs[3], vs[4], vs[5], vs[6], vs[7], vs[8]),
      NetworkConfig(vs[9], vs[10], vs[11]),
      InfluxDbConfig(vs[12], vs[13], vs[14], vs[15], vs[16]),
      GrafanaConfig(vs[17], vs[18]),
      LoggingConfig(vs[19], vs[20], vs[21], vs[22]),
      MonitoringConfig(vs[23], vs[24], vs[25], vs[26]))
  }

  /** `Config.from_file` on the result of `toml.load` (`None` when loading
      raised). It succeeds exactly when every required key is there, every
      field then holds the document's value, and otherwise the first lookup
      that raises decides the error. */
  function FromFile(doc: Option<map<string, Value>>): (r: Result<Config, LoadError>)
    ensures doc.None? ==> r == Err(LoadFailed)
    ensures r.Ok? <==> doc.Some? && forall i :: 0 <= i < |RequiredKeys| ==> Present(doc.value, RequiredKeys[i])
    ensures r.Ok? ==> forall i :: 0 <= i < |RequiredKeys| ==>
      Fields(r.value)[i] == doc.value[RequiredKeys[i].0].entries[RequiredKeys[i].1]
    ensures doc.Some? && r.Err? ==>
      exists i :: FirstAbsent(doc.value, RequiredKeys, i) && r.error == LookupError(doc.value, RequiredKeys[i])
  {
    match doc
    case None => Err(LoadFailed)
    case Some(d) =>
      var vs :- LookupAll(d, RequiredKeys);
      Ok(Build(vs))
  }

  /** Why `validate` raised. `DivisionByZero` (a zero tone frequency) and
      `TypeMismatch` (an operand Python cannot compare or take `%` of) are
      not `ValueError`s; the other five are. */
  datatype ConfigError =
    | ToneNotDivisor
    | BurstNotPositive
    | BurstNotShorterThanInterval
    | DomainOutOfRange
    | PriorityOutOfRange
    | DivisionByZero
    | TypeMismatch

  predicate IsValueError(e: ConfigError) {
    !(e.DivisionByZero? || e.TypeMismatch?)
  }

  /** The number Python sees in an `int`, `float` or `bool`. */
  function AsNumber(v: Value): Option<real> {
    match v
    case Int(i) => Some(i as real)
    case Float(f) => Some(f)
    case Bool(b) => Some(if b then 1.0 else 0.0)
    case _ => None
  }

  /** `a % b == 0` for a non-zero `b`: `a` is a whole multiple of `b`. */
  predicate WholeMultiple(a: real, b: real)
    requires b != 0.0
  {
    (a / b).Floor as real == a / b
  }

  /** The five values `validate` reads are all numbers. */
  predicate NumericChecks(c: Config) {
    && AsNumber(c.audio.sampleRate).Some? && AsNumber(c.audio.toneFrequency).Some?
    && AsNumber(c.audio.burstDuration).Some? && AsNumber(c.audio.burstInterval).Some?
    && AsNumber(c.ptp.domain).Some? && AsNumber(c.ptp.priority).Some?
  }

  /** Outside the inclusive range [0, 255] of PTP domains and priorities. */
  predicate OutOfByteRange(x: real) {
    x < 0.0 || x > 255.0
  }

  /** For numeric values: the condition each error reports. */
  predicate Violates(c: Config, e: ConfigError)
    requires NumericChecks(c)
  {
    var rate := AsNumber(c.audio.sampleRate).value;
    var tone := AsNumber(c.audio.toneFrequency).value;
    var duration := AsNumber(c.audio.burstDuration).value;
    var interval := AsNumber(c.audio.burstInterval).value;
    match e
    case DivisionByZero => tone == 0.0
    case ToneNotDivisor => tone != 0.0 && !WholeMultiple(rate, tone)
    case BurstNotPositive => duration <= 0.0 || interval <= 0.0
    case BurstNotShorterThanInterval => duration >= interval
    case DomainOutOfRange => OutOfByteRange(AsNumber(c.ptp.domain).value)
    case PriorityOutOfRange => OutOfByteRange(AsNumber(c.ptp.priority).value)
    case TypeMismatch => false
  }

  /** The position of each check in `validate`. */
  function CheckRank(e: ConfigError): nat {
    match e
    case DivisionByZero => 0
    case ToneNotDivisor => 0
    case BurstNotPositive => 1
    case BurstNotShorterThanInterval => 2
    case DomainOutOfRange => 3
    case PriorityOutOfRange => 4
    case TypeMismatch => 5
  }

  /** Python's `x <= 0` style comparisons: `None` where Python raises
      `TypeError` because an operand is not a number. */
  function Compare(v: Value, test: real -> bool): Option<bool> {
    match AsNumber(v)
    case None => None
    case Some(x) => Some(test(x))
  }

  /** What each check of `validate` does on its own, for any value types:
      `None` when Python raises `TypeError` at it, else whether it rejects.
      The `or` of the burst check stops at a non-positive duration, so the
      interval is compared only when the duration passes. */
  function Outcome(c: Config, e: ConfigError): Option<bool> {
    var rate := AsNumber(c.audio.sampleRate);
    var tone := AsNumber(c.audio.toneFrequency);
    var duration := AsNumber(c.audio.burstDuration);
    var interval := AsNumber(c.audio.burstInterval);
    match e
    case DivisionByZero =>
      if rate.None? || tone.None? then None else Some(tone.value == 0.0)
    case ToneNotDivisor =>
      if rate.None? || tone.None? then None else Some(tone.value != 0.0 && !WholeMultiple(rate.value, tone.value))
    case BurstNotPositive =>
      if duration.None? then None
      else if duration.value <= 0.0 then Some(true)
      else if interval.None? then None
      else Some(interval.value <= 0.0)
    case BurstNotShorterThanInterval =>
      if duration.None? || interval.None? then None else Some(duration.value >= interval.value)
    case DomainOutOfRange => Compare(c.ptp.domain, OutOfByteRange)
    case PriorityOutOfRange => Compare(c.ptp.priority, OutOfByteRange)
    case TypeMismatch => Some(false)
  }

  /** `Config.validate`: the checks in source order, the first failing one
      raising. For numeric values it accepts exactly the configurations no
      check rejects, and a rejection names a violated check all of whose
      predecessors passed. */
  function Validate(c: Config): (r: Result<bool, ConfigError>)
    ensures r.Ok? ==> r.value
    ensures NumericChecks(c) ==> (r.Ok? <==> forall e: ConfigError :: !Violates(c, e))
    ensures NumericChecks(c) && r.Err? ==> Violates(c, r.error)
    ensures NumericChecks(c) && r.Err? ==> forall e: ConfigError :: CheckRank(e) < CheckRank(r.error) ==> !Violates(c, e)
    ensures !NumericChecks(c) ==> r.Err?
    ensures r.Ok? <==> forall e: ConfigError :: Outcome(c, e) == Some(false)
    ensures r.Err? && r.error != TypeMismatch ==> Outcome(c, r.error) == Some(true)
    ensures r.Err? && r.error != TypeMismatch ==>
      forall e: ConfigError :: CheckRank(e) < CheckRank(r.error) ==> Outcome(c, e) == Some(false)
    ensures r == Err(TypeMismatch) ==>
      exists e: ConfigError :: Outcome(c, e).None? && forall e': ConfigError :: CheckRank(e') < CheckRank(e) ==> Outcome(c, e') == Some(false)
  {
    var rate := AsNumber(c.audio.sampleRate);
    var tone := AsNumber(c.audio.toneFrequency);
    if rate.None? || tone.None? then
      assert Outcome(c, DivisionByZero).None?;
      Err(TypeMismatch)
    else if tone.value == 0.0 then
      assert NumericChecks(c) ==> Violates(c, DivisionByZero);
      assert Outcome(c, DivisionByZero) == Some(true);
      Err(DivisionByZero)
    else if !WholeMultiple(rate.value, tone.value) then
      assert NumericChecks(c) ==> Violates(c, ToneNotDivisor);
      assert Outcome(c, ToneNotDivisor) == Some(true);
      Err(ToneNotDivisor)
    else
      // `or` stops at the first true operand, so a non-number after it is never compared
      assert Outcome(c, DivisionByZero) == Some(false) && Outcome(c, ToneNotDivisor) == Some(false);
      var durationNotPositive := Compare(c.audio.burstDuration, x => x <= 0.0);
      if durationNotPositive.None? then
        assert Outcome(c, BurstNotPositive).None?;
        Err(TypeMismatch)
      else if durationNotPositive.value then
        assert NumericChecks(c) ==> Violates(c, BurstNotPositive);
        assert Outcome(c, BurstNotPositive) == Some(true);
        Err(BurstNotPositive)
      else
        var intervalNotPositive := Compare(c.audio.burstInterval, x => x <= 0.0);
        if intervalNotPositive.None? then
          assert Outcome(c, BurstNotPositive).None?;
          Err(TypeMismatch)
        else if intervalNotPositive.value then
          assert NumericChecks(c) ==> Violates(c, BurstNotPositive);
          assert Outcome(c, BurstNotPositive) == Some(true);
          Err(BurstNotPositive)
        else if AsNumber(c.audio.burstDuration).value >= AsNumber(c.audio.burstInterval).value then
          assert NumericChecks(c) ==> Violates(c, BurstNotShorterThanInterval);
          assert Outcome(c, BurstNotPositive) == Some(false) && Outcome(c, BurstNotShorterThanInterval) == Some(true);
          Err(BurstNotShorterThanInterval)
        else
          assert Outcome(c, BurstNotPositive) == Some(false) && Outcome(c, BurstNotShorterThanInterval) == Some(false);
          if AsNumber(c.ptp.domain).None? then
            assert Outcome(c, DomainOutOfRange).None?;
            Err(TypeMismatch)
          else if OutOfByteRange(AsNumber(c.ptp.domain).value) then
            assert NumericChecks(c) ==> Violates(c, DomainOutOfRange);
            assert Outcome(c, DomainOutOfRange) == Some(true);
            Err(DomainOutOfRange)
          else if AsNumber(c.ptp.priority).None? then
            assert Outcome(c, DomainOutOfRange) == Some(false) && Outcome(c, PriorityOutOfRange).None?;
            Err(TypeMismatch)
          else if OutOfByteRange(AsNumber(c.ptp.priority).value) then
            assert NumericChecks(c) ==> Violates(c, PriorityOutOfRange);
            assert Outcome(c, DomainOutOfRange) == Some(false) && Outcome(c, PriorityOutOfRange) == Some(true);
            Err(PriorityOutOfRange)
          else
            assert Outcome(c, DomainOutOfRange) == Some(false) && Outcome(c, PriorityOutOfRange) == Some(false);
            Ok(true)
  }

  /** A zero tone frequency makes `sample_rate % tone_frequency` raise
      `ZeroDivisionError`, which is not the `ValueError` every other
      rejection raises. */
  lemma ZeroToneIsNotValueError(c: Config)
    requires AsNumber(c.audio.sampleRate).Some?
    requires AsNumber(c.audio.toneFrequency) == Some(0.0)
    ensures Validate(c) == Err(DivisionByZero)
    ensures !IsValueError(Validate(c).error)
  {
  }

  /** A burst as long as the interval is rejected even when everything else
      is in range, and before the PTP settings are looked at. */
  lemma DurationEqualToIntervalRejected(c: Config, rate: int, tone: int, period: real)
    requires tone > 0 && rate % tone == 0 && period > 0.0
    requires c.audio.sampleRate == Int(rate) && c.audio.toneFrequency == Int(tone)
    requires c.audio.burstDuration == Float(period) && c.audio.burstInterval == Float(period)
    ensures Validate(c) == Err(BurstNotShorterThanInterval)
  {
    var q := rate / tone;
    assert rate == q * tone;
    assert rate as real / tone as real == q as real;
  }

  /** An out-of-range domain raises its `ValueError` before a priority that
      is not a number is ever compared. */
  lemma DomainCheckedBeforePriorityType(c: Config, text: string)
    requires forall e: ConfigError :: CheckRank(e) < 3 ==> Outcome(c, e) == Some(false)
    requires c.ptp.domain == Int(300) && c.ptp.priority == Str(text)
    ensures Validate(c) == Err(DomainOutOfRange)
  {
    assert Outcome(c, DomainOutOfRange) == Some(true);
    assert Outcome(c, PriorityOutOfRange).None?;
  }
}
