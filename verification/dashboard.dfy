/** `DashboardManager`: template customization by placeholder substitution,
    the exact-title lookup, the update-or-create choice with its version
    bump, provisioning of every template in turn, and the count of PTP
    dashboards in the status report.

    Every Grafana request is a scripted reply. A template is given as the
    text `json.dumps` made of it, and whether `json.loads` accepts the
    customized text is the oracle `jsonAccepts`. */
module Dashboard {
  import opened Wrappers
  import opened Text
  import Numerals

  // ---------------------------------------------------------------------
  // Template customization

  /** The configuration values `_customize_template` substitutes. */
  datatype Substitutions = Substitutions(
    influxUrl: String, influxDatabase: String, influxOrganization: String,
    switchName: String, hostName: String, vlanId: int)

  /** The six placeholders with their replacements, in the order the
      replacement dictionary lists them. */
  function Placeholders(subs: Substitutions): (rules: seq<(String, String)>)
    ensures |rules| == 6 && NonEmptyPatterns(rules)
  {
    [ ("{{INFLUXDB_URL}}", subs.influxUrl),
      ("{{INFLUXDB_DATABASE}}", subs.influxDatabase),
      ("{{INFLUXDB_ORG}}", subs.influxOrganization),
      ("{{SWITCH_NAME}}", subs.switchName),
      ("{{HOST_NAME}}", subs.hostName),
      ("{{VLAN_ID}}", Numerals.IntToString(subs.vlanId)) ]
  }

  predicate NonEmptyPatterns(rules: seq<(String, String)>) {
    forall k :: 0 <= k < |rules| ==> |rules[k].0| > 0
  }

  /** Applies `str.replace` for each rule in turn, each on the previous
      result: every occurrence of a pattern, scanning left to right without
      overlap, becomes its replacement. A text holding none of the patterns
      comes back unchanged. */
  function Substitute(text: String, rules: seq<(String, String)>): (r: String)
    requires NonEmptyPatterns(rules)
    ensures (forall k :: 0 <= k < |rules| ==> !Contains(text, rules[k].0)) ==> r == text
    decreases |rules|
  {
    if |rules| == 0 then text
    else Substitute(ReplaceAll(text, rules[0].0, rules[0].1), rules[1..])
  }

  /** The first rule acts on the whole text before the others: its pattern's
      occurrences split the text and the replacement joins the pieces. */
  lemma SubstituteFirstRuleFirst(text: String, rules: seq<(String, String)>)
    requires NonEmptyPatterns(rules) && |rules| > 0
    ensures Substitute(text, rules) == Substitute(Join(rules[0].1, Split(text, rules[0].0)), rules[1..])
  {
    ReplaceIsJoinOfSplit(text, rules[0].0, rules[0].1);
  }

  /** `_customize_template` up to the final `json.loads`: a template holding
      none of the placeholders is left as it is. */
  function CustomizeTemplate(text: String, subs: Substitutions): (r: String)
    ensures (forall k :: 0 <= k < |Placeholders(subs)| ==> !Contains(text, Placeholders(subs)[k].0)) ==> r == text
  {
    Substitute(text, Placeholders(subs))
  }

  /** A pattern longer than the text cannot occur in it. */
  lemma LongerPatternAbsent(s: String, p: String)
    requires |p| > |s|
    ensures !Contains(s, p)
  {
  }

  /** The VLAN placeholder on its own becomes the decimal VLAN id, which
      reads back as that id: the five longer placeholders before it do not
      occur in it. */
  lemma {:induction false} VlanPlaceholderBecomesDecimal(subs: Substitutions)
    ensures Numerals.ParseInt(CustomizeTemplate("{{VLAN_ID}}", subs)) == Some(subs.vlanId)
  {
    var text: String := "{{VLAN_ID}}";
    var rules := Placeholders(subs);
    var vlan := Numerals.IntToString(subs.vlanId);
    forall k | 0 <= k < 5
      ensures !Contains(text, rules[k].0)
    {
      LongerPatternAbsent(text, rules[k].0);
    }
    assert Substitute(text, rules) == Substitute(text, rules[5..]) by {
      SkipAbsentRules(text, rules, 5);
    }
    assert OccursAt(text, text, 0);
    assert IndexOf(text, text) == Some(0);
    assert ReplaceAll(text, text, vlan) == vlan + ReplaceAll([], text, vlan);
    assert ReplaceAll(text, text, vlan) == vlan;
    assert Substitute(vlan, rules[6..]) == vlan;
    assert Substitute(text, rules[5..]) == Substitute(ReplaceAll(text, rules[5].0, rules[5].1), rules[6..]);
    Numerals.ParseIntOfIntToString(subs.vlanId);
  }

  /** Rules whose pattern does not occur leave the text for the later rules
      as it was. */
  lemma {:induction false} SkipAbsentRules(text: String, rules: seq<(String, String)>, n: nat)
    requires NonEmptyPatterns(rules) && n <= |rules|
    requires forall k :: 0 <= k < n ==> !Contains(text, rules[k].0)
    ensures Substitute(text, rules) == Substitute(text, rules[n..])
    decreases n
  {
    if n > 0 {
      assert ReplaceAll(text, rules[0].0, rules[0].1) == text;
      assert Substitute(text, rules) == Substitute(text, rules[1..]);
      var rest := rules[1..];
      assert forall k :: 0 <= k < n - 1 ==> rest[k] == rules[k + 1];
      SkipAbsentRules(text, rest, n - 1);
      assert rest[n - 1..] == rules[n..];
    }
  }

  // ---------------------------------------------------------------------
  // Looking a dashboard up by title

  /** A search result's `title`: absent, a string, or some other JSON value. */
  datatype Title = NoTitle | TitleText(s: String) | NonTextTitle

  /** One search result: its title and its `id`, if it has one. */
  datatype SearchEntry = SearchEntry(title: Title, id: Option<int>)

  /** A `/api/search` reply: the status code and the decoded list (`None`
      when `response.json()` raises), or a request that raised. */
  datatype SearchReply = Answered(status: int, body: Option<seq<SearchEntry>>) | Unreachable

  predicate SearchSucceeded(reply: SearchReply) {
    reply.Answered? && reply.status == 200 && reply.body.Some?
  }

  function FirstTitled(entries: seq<SearchEntry>, name: String, from: nat): (r: Option<nat>)
    requires from <= |entries|
    ensures r.Some? ==> from <= r.value < |entries| && entries[r.value].title == TitleText(name)
    ensures r.Some? ==> forall j :: from <= j < r.value ==> entries[j].title != TitleText(name)
    ensures r.None? ==> forall j :: from <= j < |entries| ==> entries[j].title != TitleText(name)
    decreases |entries| - from
  {
    if from == |entries| then None
    else if entries[from].title == TitleText(name) then Some(from)
    else FirstTitled(entries, name, from + 1)
  }

  /** `_get_dashboard_by_name`: the first result whose title equals the name
      exactly; nothing when the search fails or nothing matches. */
  function GetDashboardByName(reply: SearchReply, name: String): (r: Option<SearchEntry>)
    ensures r.Some? <==> SearchSucceeded(reply) && exists k :: 0 <= k < |reply.body.value| && reply.body.value[k].title == TitleText(name)
    ensures r.Some? ==> exists k :: (0 <= k < |reply.body.value| && reply.body.value[k] == r.value
      && (forall j :: 0 <= j < k ==> reply.body.value[j].title != TitleText(name)))
    ensures r.Some? ==> r.value.title == TitleText(name)
  {
    if !SearchSucceeded(reply) then None
    else
      match FirstTitled(reply.body.value, name, 0)
      case None => None
      case Some(k) => Some(reply.body.value[k])
  }

  // ---------------------------------------------------------------------
  // Provisioning one template

  /** A reply that only matters by its status code, or a request that raised. */
  datatype HttpReply = Replied(status: int) | NoReply

  /** The `/api/dashboards/uid/...` reply: the status code and, when the body
      decodes and holds `dashboard.version`, that version. */
  datatype VersionFetch = Fetched(status: int, version: Option<int>) | FetchFailed

  /** Why provisioning a template raised. */
  datatype ProvisionError = TemplateUnparsable | IdMissing | VersionUnreadable | RequestFailed | Rejected(status: int)

  datatype Provisioned = Created | Updated(dashboardId: int, version: int)

  /** `_update_dashboard`'s version: one more than the current version when
      the fetch answers 200, else 1. */
  function NextVersion(fetch: VersionFetch): (r: Result<int, ProvisionError>)
    ensures fetch.Fetched? && fetch.status == 200 && fetch.version.Some? ==> r == Ok(fetch.version.value + 1)
    ensures fetch.Fetched? && fetch.status != 200 ==> r == Ok(1)
    ensures r.Err? <==> fetch.FetchFailed? || (fetch.status == 200 && fetch.version.None?)
  {
    match fetch
    case FetchFailed => Err(RequestFailed)
    case Fetched(status, version) =>
      if status != 200 then Ok(1)
      else match version
        case None => Err(VersionUnreadable)
        case Some(v) => Ok(v + 1)
  }

  /** The POST to `/api/dashboards/db` succeeds only with status 200. */
  function Post(reply: HttpReply): (r: Result<(), ProvisionError>)
    ensures r.Ok? <==> reply == Replied(200)
  {
    match reply
    case NoReply => Err(RequestFailed)
    case Replied(status) => if status == 200 then Ok(()) else Err(Rejected(status))
  }

  /** A template and the Grafana replies provisioning it meets. */
  datatype Template = Template(name: String, text: String, search: SearchReply, fetch: VersionFetch, post: HttpReply)

  /** Whether `json.loads` accepts the template once customized: the last
      step of `_customize_template`, which raises otherwise. */
  predicate Parses(t: Template, subs: Substitutions, jsonAccepts: String -> bool) {
    jsonAccepts(CustomizeTemplate(t.text, subs))
  }

  /** `_provision_dashboard`, given whether customizing the template
      succeeded (`parsed`): look the name up, then update the dashboard
      found or create a new one. */
  function Provision(t: Template, parsed: bool): (r: Result<Provisioned, ProvisionError>)
    ensures !parsed ==> r == Err(TemplateUnparsable)
    ensures r.Ok? ==> t.post == Replied(200)
    ensures r.Ok? ==> (r.value.Updated? <==> GetDashboardByName(t.search, t.name).Some?)
    ensures r.Ok? && r.value.Updated? ==>
      && GetDashboardByName(t.search, t.name).value.id == Some(r.value.dashboardId)
      && NextVersion(t.fetch) == Ok(r.value.version)
    ensures parsed && GetDashboardByName(t.search, t.name).None? ==>
      (r.Ok? <==> t.post == Replied(200))
    ensures parsed && GetDashboardByName(t.search, t.name).Some? ==>
      (r.Ok? <==> GetDashboardByName(t.search, t.name).value.id.Some? && NextVersion(t.fetch).Ok? && t.post == Replied(200))
  {
    if !parsed then Err(TemplateUnparsable)
    else match GetDashboardByName(t.search, t.name)
      case None =>
        var _ :- Post(t.post);
        Ok(Created)
      case Some(entry) =>
        match entry.id
        case None => Err(IdMissing)
        case Some(id) =>
          var version :- NextVersion(t.fetch);
          var _ :- Post(t.post);
          Ok(Updated(id, version))
  }

  /** An update never posts a version below 1. */
  lemma UpdatedVersionPositive(t: Template, parsed: bool)
    requires Provision(t, parsed).Ok? && Provision(t, parsed).value.Updated?
    requires t.fetch.Fetched? && t.fetch.version.Some? ==> t.fetch.version.value >= 0
    ensures Provision(t, parsed).value.version >= 1
  {
  }

  /** `_provision_dashboards`: every template is attempted, in order, and a
      failure is logged without stopping the others. */
  method ProvisionAll(templates: seq<Template>, subs: Substitutions, jsonAccepts: String -> bool)
    returns (results: seq<Result<Provisioned, ProvisionError>>)
    ensures |results| == |templates|
    ensures forall k :: 0 <= k < |templates| ==> results[k] == Provision(templates[k], Parses(templates[k], subs, jsonAccepts))
  {
    results := [];
    var i := 0;
    while i < |templates|
      invariant 0 <= i <= |templates|
      invariant |results| == i
      invariant forall k :: 0 <= k < i ==> results[k] == Provision(templates[k], Parses(templates[k], subs, jsonAccepts))
    {
      results := results + [Provision(templates[i], Parses(templates[i], subs, jsonAccepts))];
      i := i + 1;
    }
  }

  // ---------------------------------------------------------------------
  // Start and status

  /** The `/api/health` reply for `_test_connection`: the status code and
      whether its body decodes to a JSON object, or a request that raised.
      A body that does not decode, or decodes to an array, string or number,
      makes `json()` or the `.get` call raise. */
  datatype HealthReply = Health(status: int, bodyIsObject: bool) | HealthUnreachable

  datatype StartOutcome = AlreadyRunning | HealthCheckFailed | Started(results: seq<Result<Provisioned, ProvisionError>>)

  /** `start`: the flag is set before the health check and stays set when
      the check raises; templates are provisioned only after a healthy reply. */
  method Start(running: bool, health: HealthReply, templates: seq<Template>, subs: Substitutions, jsonAccepts: String -> bool)
    returns (running': bool, outcome: StartOutcome)
    ensures running'
    ensures running ==> outcome == AlreadyRunning
    ensures !running && health != Health(200, true) ==> outcome == HealthCheckFailed
    ensures !running && health == Health(200, true) ==>
      (outcome.Started? && |outcome.results| == |templates|
       && forall k :: 0 <= k < |templates| ==> outcome.results[k] == Provision(templates[k], Parses(templates[k], subs, jsonAccepts)))
  {
    running' := true;
    if running {
      outcome := AlreadyRunning;
    } else if health != Health(200, true) {
      outcome := HealthCheckFailed;
    } else {
      var results := ProvisionAll(templates, subs, jsonAccepts);
      outcome := Started(results);
    }
  }

  /** A title counts as a PTP dashboard when, lower-cased, it contains "ptp";
      a missing title reads as the empty string. */
  predicate IsPtpTitle(t: Title) {
    t.TitleText? && Contains(Lower(t.s), "ptp")
  }

  /** The indices of the PTP dashboards among the search results. */
  ghost function PtpIndices(entries: seq<SearchEntry>): set<nat> {
    set k: nat | k < |entries| && IsPtpTitle(entries[k].title)
  }

  /** The filter in `get_dashboard_status`. A title that is not a string has
      no `lower()`, which raises and leaves the count at 0, so the count is
      `None` then. */
  function CountPtpDashboards(entries: seq<SearchEntry>): (r: Option<nat>)
    ensures r.None? <==> exists k :: 0 <= k < |entries| && entries[k].title.NonTextTitle?
    ensures r.Some? ==> r.value == |PtpIndices(entries)|
  {
    if exists k :: 0 <= k < |entries| && entries[k].title.NonTextTitle? then None
    else
      var marks := seq(|entries|, k requires 0 <= k < |entries| => IsPtpTitle(entries[k].title));
      CountTrueIsCardinality(marks, |marks|);
      assert TrueIndices(marks, |marks|) == PtpIndices(entries);
      Some(CountTrue(marks, |marks|))
  }

  /** The positions below `n` holding `true`. */
  ghost function TrueIndices(marks: seq<bool>, n: nat): set<nat>
    requires n <= |marks|
  {
    set k: nat | k < n && marks[k]
  }

  function CountTrue(marks: seq<bool>, n: nat): nat
    requires n <= |marks|
  {
    if n == 0 then 0 else CountTrue(marks, n - 1) + (if marks[n - 1] then 1 else 0)
  }

  lemma {:induction false} CountTrueIsCardinality(marks: seq<bool>, n: nat)
    requires n <= |marks|
    ensures CountTrue(marks, n) == |TrueIndices(marks, n)|
  {
    if n > 0 {
      CountTrueIsCardinality(marks, n - 1);
      var before := TrueIndices(marks, n - 1);
      if marks[n - 1] {
        assert TrueIndices(marks, n) == before + {n - 1};
      } else {
        assert TrueIndices(marks, n) == before;
      }
    }
  }

  /** `get_dashboard_status`. */
  datatype Status = Status(running: bool, grafanaConnected: bool, dashboardsProvisioned: nat, totalTemplates: nat)

  /** The status report: connected exactly when the health check answers
      200, and a count of PTP dashboards only when the search succeeds too. */
  function GetDashboardStatus(running: bool, templateCount: nat, health: HttpReply, search: SearchReply): (s: Status)
    ensures s.running == running && s.totalTemplates == templateCount
    ensures s.grafanaConnected <==> health == Replied(200)
    ensures !s.grafanaConnected || !SearchSucceeded(search) ==> s.dashboardsProvisioned == 0
    ensures s.grafanaConnected && SearchSucceeded(search) && CountPtpDashboards(search.body.value).Some? ==>
      s.dashboardsProvisioned == |PtpIndices(search.body.value)|
    ensures s.grafanaConnected && SearchSucceeded(search) && CountPtpDashboards(search.body.value).None? ==>
      s.dashboardsProvisioned == 0
  {
    var connected := health == Replied(200);
    var count :=
      if connected && SearchSucceeded(search) then CountPtpDashboards(search.body.value).GetOr(0) else 0;
    Status(running, connected, count, templateCount)
  }
}
