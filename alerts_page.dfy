/** The alerts page: which features of a poll are kept, which alert type each kept
    feature is shown as, and how poll outcomes update the page's `(alerts, error)` state. */
module AlertsPage {
  import opened Wrappers
  import opened Text
  import opened NwsFeed

  /** One row of the ordered `alertTypes` table. */
  datatype AlertType = AlertType(name: string, color: string, icon: string)

  const TornadoType := AlertType("Tornado Warning", "#ff2e2e", "\U{1F32A}\U{FE0F}")
  const SevereThunderstormType := AlertType("Severe Thunderstorm Warning", "#ffa500", "\U{26C8}\U{FE0F}")
  const FlashFloodType := AlertType("Flash Flood Warning", "#0040ff", "\U{1F30A}")

  /** The table in its declared order; the first matching row wins. */
  const AlertTypes: seq<AlertType> := [TornadoType, SevereThunderstormType, FlashFloodType]

  /** The three fragments the poll filter tests for, spelled as the filter spells them. */
  const KeptFragments: seq<string> :=
    ["tornado warning", "severe thunderstorm warning", "flash flood warning"]

  // ---------------------------------------------------------------------------
  // The poll filter

  /** The filter predicate: the lower-cased event names one of the three warnings, so an
      event shorter than the shortest of them, "tornado warning", is never kept. */
  predicate IsKept(f: Feature)
    ensures IsKept(f) ==> |f.properties.event| >= |"tornado warning"|
  {
    var event := LowerStr(f.properties.event);
    Contains(event, "tornado warning") ||
    Contains(event, "severe thunderstorm warning") ||
    Contains(event, "flash flood warning")
  }

  predicate AllKept(alerts: seq<Feature>) {
    forall a :: a in alerts ==> IsKept(a)
  }

  /** `data.features.filter(...)`: the features the predicate keeps, in their order. */
  function FilterAlerts(features: seq<Feature>): (r: seq<Feature>)
    ensures |r| <= |features|
    ensures forall f :: f in r <==> f in features && IsKept(f)
    decreases |features|
  {
    if features == [] then []
    else
      var n := |features| - 1;
      assert features == features[..n] + [features[n]];
      FilterAlerts(features[..n]) + (if IsKept(features[n]) then [features[n]] else [])
  }

  /** The positions of the kept features: below the length, strictly increasing, and
      holding exactly the positions whose feature passes the filter predicate. */
  function KeptIndices(features: seq<Feature>): (idx: seq<nat>)
    ensures forall k :: 0 <= k < |idx| ==> idx[k] < |features|
    ensures forall j, k :: 0 <= j < k < |idx| ==> idx[j] < idx[k]
    ensures forall i :: 0 <= i < |features| ==> (i in idx <==> IsKept(features[i]))
    decreases |features|
  {
    if features == [] then []
    else
      var n := |features| - 1;
      var prefix := features[..n];
      assert forall i :: 0 <= i < n ==> prefix[i] == features[i];
      KeptIndices(prefix) + (if IsKept(features[n]) then [n] else [])
  }

  /** The features at the given positions, in the order of the positions. */
  function Select(features: seq<Feature>, idx: seq<nat>): (r: seq<Feature>)
    requires forall k :: 0 <= k < |idx| ==> idx[k] < |features|
  {
    seq(|idx|, k requires 0 <= k < |idx| => features[idx[k]])
  }

  /** The filtered list is exactly the kept features read off at the kept positions, in
      increasing order: an order-preserving subsequence that drops precisely the rejected
      features and keeps repeated ones. */
  lemma {:induction false} FilterIsOrderedSelection(features: seq<Feature>)
    ensures FilterAlerts(features) == Select(features, KeptIndices(features))
    decreases |features|
  {
    if features != [] {
      var n := |features| - 1;
      var prefix := features[..n];
      FilterIsOrderedSelection(prefix);
      var idx := KeptIndices(prefix);
      assert Select(prefix, idx) == Select(features, idx);
      if IsKept(features[n]) {
        assert Select(features, idx + [n]) == Select(features, idx) + [features[n]];
      }
    }
  }

  /** A list whose every element passes the predicate is left as it is. */
  lemma {:induction false} FilterKeepsKeptList(alerts: seq<Feature>)
    requires AllKept(alerts)
    ensures FilterAlerts(alerts) == alerts
    decreases |alerts|
  {
    if alerts != [] {
      var n := |alerts| - 1;
      FilterKeepsKeptList(alerts[..n]);
      assert alerts == alerts[..n] + [alerts[n]];
    }
  }

  /** Filtering the filtered list changes nothing. */
  lemma FilterIdempotent(features: seq<Feature>)
    ensures FilterAlerts(FilterAlerts(features)) == FilterAlerts(features)
  {
    FilterKeepsKeptList(FilterAlerts(features));
  }

  // ---------------------------------------------------------------------------
  // Matching a stored alert to its row of `alertTypes`

  /** `eventType.toLowerCase().includes(a.type.toLowerCase())`. */
  predicate Matches(event: string, t: AlertType)
    ensures Matches(event, t) ==> |t.name| <= |event|
  {
    Contains(LowerStr(event), LowerStr(t.name))
  }

  /** `table.find(...)`: the first row that the event matches, if any. */
  function FindIn(table: seq<AlertType>, event: string): (r: Option<AlertType>)
    ensures r.None? <==> forall t :: t in table ==> !Matches(event, t)
    ensures r.Some? ==> exists i :: 0 <= i < |table| && table[i] == r.value && Matches(event, table[i]) &&
                          forall j :: 0 <= j < i ==> !Matches(event, table[j])
    decreases |table|
  {
    if table == [] then None
    else if Matches(event, table[0]) then Some(table[0])
    else
      var r := FindIn(table[1..], event);
      assert forall t :: t in table ==> t == table[0] || t in table[1..];
      assert r.Some? ==> exists i :: 1 <= i < |table| && table[i] == r.value && Matches(event, table[i]) &&
                          forall j :: 0 <= j < i ==> !Matches(event, table[j]);
      r
  }

  /** `alertTypes.find(...)` for one alert's event. */
  function FindType(event: string): (r: Option<AlertType>)
    ensures r.None? <==> forall t :: t in AlertTypes ==> !Matches(event, t)
    ensures r.Some? ==> r.value in AlertTypes && Matches(event, r.value)
  {
    FindIn(AlertTypes, event)
  }

  lemma LowerTornadoName()
    ensures LowerStr("Tornado Warning") == "tornado warning"
  {
  }

  lemma LowerSevereThunderstormName()
    ensures LowerStr("Severe Thunderstorm Warning") == "severe thunderstorm warning"
  {
  }

  lemma LowerFlashFloodName()
    ensures LowerStr("Flash Flood Warning") == "flash flood warning"
  {
  }

  /** The filter's fragments are the table's names, lower-cased, in the table's order. */
  lemma FragmentsAreLoweredNames()
    ensures |KeptFragments| == |AlertTypes|
    ensures forall i :: 0 <= i < |AlertTypes| ==> LowerStr(AlertTypes[i].name) == KeptFragments[i]
  {
    LowerTornadoName();
    LowerSevereThunderstormName();
    LowerFlashFloodName();
  }

  /** The match is the first row in the order Tornado, Severe Thunderstorm, Flash Flood whose
      fragment the lower-cased event contains, and there is none when it contains no fragment. */
  lemma MatchPriority(event: string)
    ensures var e := LowerStr(event);
      && (FindType(event) == Some(TornadoType) <==> Contains(e, "tornado warning"))
      && (FindType(event) == Some(SevereThunderstormType) <==>
            !Contains(e, "tornado warning") && Contains(e, "severe thunderstorm warning"))
      && (FindType(event) == Some(FlashFloodType) <==>
            !Contains(e, "tornado warning") && !Contains(e, "severe thunderstorm warning") &&
            Contains(e, "flash flood warning"))
      && (FindType(event) == None <==>
            !Contains(e, "tornado warning") && !Contains(e, "severe thunderstorm warning") &&
            !Contains(e, "flash flood warning"))
  {
    FragmentsAreLoweredNames();
    var rest := [SevereThunderstormType, FlashFloodType];
    assert AlertTypes[1..] == rest && rest[1..] == [FlashFloodType] && [FlashFloodType][1..] == [];
    assert FindIn([FlashFloodType], event) ==
      if Matches(event, FlashFloodType) then Some(FlashFloodType) else FindIn([], event);
    assert FindIn(rest, event) ==
      if Matches(event, SevereThunderstormType) then Some(SevereThunderstormType)
      else FindIn([FlashFloodType], event);
    assert FindType(event) ==
      if Matches(event, TornadoType) then Some(TornadoType) else FindIn(rest, event);
    assert TornadoType != SevereThunderstormType && SevereThunderstormType != FlashFloodType && FlashFloodType != TornadoType;
  }

  /** A feature passes the filter exactly when it has a row of the table, so the
      `if (!matchedType) return null` branch never fires for a stored alert. */
  lemma KeptIffTyped(f: Feature)
    ensures IsKept(f) <==> FindType(f.properties.event).Some?
  {
    MatchPriority(f.properties.event);
  }

  // ---------------------------------------------------------------------------
  // Rendering the stored alerts

  /** What one alert card shows (the formatted expiry time is not modelled). */
  datatype AlertCard = AlertCard(
    key: string,
    event: string,
    color: string,
    icon: string,
    areaDesc: string,
    description: string,
    issuedBy: string)

  /** The card drawn for one alert, or `None` for the `return null` branch, which is taken
      exactly for a feature the filter would have dropped. A card shows the alert's own id,
      event, area, description and sender, and its matched row's colour and icon. */
  function CardFor(alert: Feature): (r: Option<AlertCard>)
    ensures r.Some? <==> IsKept(alert)
    ensures r.Some? ==>
      var p := alert.properties;
      && r.value.key == alert.id && r.value.event == p.event && r.value.areaDesc == p.areaDesc
      && r.value.description == p.description && r.value.issuedBy == p.senderName
      && FindType(p.event).Some?
      && FindType(p.event) == Some(AlertType(FindType(p.event).value.name, r.value.color, r.value.icon))
  {
    KeptIffTyped(alert);
    match FindType(alert.properties.event)
    case None => None
    case Some(t) =>
      var p := alert.properties;
      Some(AlertCard(alert.id, p.event, t.color, t.icon, p.areaDesc, p.description, p.senderName))
  }

  /** `alerts.map(...)`: one entry per stored alert, in order. */
  function RenderCards(alerts: seq<Feature>): (r: seq<Option<AlertCard>>)
    ensures |r| == |alerts|
  {
    seq(|alerts|, i requires 0 <= i < |alerts| => CardFor(alerts[i]))
  }

  /** Every stored alert, being one the filter kept, is drawn as a card keyed by its id and
      coloured by its matched row. */
  lemma StoredAlertsAllRender(alerts: seq<Feature>)
    requires AllKept(alerts)
    ensures forall i :: 0 <= i < |alerts| ==>
              RenderCards(alerts)[i].Some? &&
              RenderCards(alerts)[i].value.key == alerts[i].id &&
              Some(AlertType(FindType(alerts[i].properties.event).value.name,
                             RenderCards(alerts)[i].value.color,
                             RenderCards(alerts)[i].value.icon)) == FindType(alerts[i].properties.event)
  {
    forall i | 0 <= i < |alerts| ensures FindType(alerts[i].properties.event).Some? {
      KeptIffTyped(alerts[i]);
    }
  }

  // ---------------------------------------------------------------------------
  // Poll outcomes and the page state

  /** How one `fetchAlerts` run ends: a parsed feature list, a response whose `ok` is false,
      or any other thrown error (network, JSON, a feature without an event) with its message. */
  datatype PollOutcome = Fetched(features: seq<Feature>) | BadStatus(status: nat) | Thrown(message: string)

  /** The `alerts` and `error` state of the page; `None` is `null`. */
  datatype PageState = PageState(alerts: seq<Feature>, error: Option<string>)

  const InitialState := PageState([], None)

  /** The message of the error thrown for a response whose `ok` is false. */
  function StatusErrorMessage(status: nat): (m: string)
    ensures |m| > 0
  {
    "Error fetching alerts: " + NatToString(status)
  }

  /** The effect of one poll: a parsed list replaces `alerts` with its filtered features and
      clears `error`; a failure sets `error` and leaves `alerts` as they were. */
  function ApplyPoll(s: PageState, outcome: PollOutcome): (r: PageState)
    ensures outcome.Fetched? ==> r.alerts == FilterAlerts(outcome.features) && r.error == None
    ensures outcome.BadStatus? ==> r.alerts == s.alerts && r.error == Some(StatusErrorMessage(outcome.status))
    ensures outcome.Thrown? ==> r.alerts == s.alerts && r.error == Some(outcome.message)
  {
    match outcome
    case Fetched(features) => PageState(FilterAlerts(features), None)
    case BadStatus(status) => PageState(s.alerts, Some(StatusErrorMessage(status)))
    case Thrown(message) => PageState(s.alerts, Some(message))
  }

  /** Every poll keeps the invariant that only wanted warnings are stored. */
  lemma PollKeepsOnlyWarnings(s: PageState, outcome: PollOutcome)
    requires AllKept(s.alerts)
    ensures AllKept(ApplyPoll(s, outcome).alerts)
  {
  }

  /** A successful poll replaces the state outright: what came before, a failed poll
      included, has no effect on the result. */
  lemma SuccessReplacesState(s: PageState, t: PageState, features: seq<Feature>)
    ensures ApplyPoll(s, Fetched(features)) == ApplyPoll(t, Fetched(features))
  {
  }

  /** Failures never lose the alerts: a run of failed polls leaves them as they were. */
  lemma {:induction false} FailuresKeepAlerts(s: PageState, outcomes: seq<PollOutcome>)
    requires forall o :: o in outcomes ==> !o.Fetched?
    ensures ApplyPolls(s, outcomes).alerts == s.alerts
    ensures outcomes != [] ==> ApplyPolls(s, outcomes).error.Some?
    decreases |outcomes|
  {
    if outcomes != [] {
      var n := |outcomes| - 1;
      assert outcomes[n] in outcomes;
      FailuresKeepAlerts(s, outcomes[..n]);
    }
  }

  /** The state after a series of polls, applied in order. */
  function ApplyPolls(s: PageState, outcomes: seq<PollOutcome>): PageState
    decreases |outcomes|
  {
    if outcomes == [] then s
    else ApplyPoll(ApplyPolls(s, outcomes[..|outcomes| - 1]), outcomes[|outcomes| - 1])
  }

  /** JavaScript truthiness of `error`: `null` and the empty message are both falsy. */
  predicate Truthy(error: Option<string>)
    ensures !Truthy(error) <==> error == None || error == Some("")
  {
    error.Some? && error.value != ""
  }

  /** `{error && <p>Error: ...</p>}`. */
  predicate ShowsError(s: PageState)
    ensures ShowsError(s) ==> s.error.Some? && |s.error.value| > 0
  {
    Truthy(s.error)
  }

  /** `{alerts.length === 0 && !error && <p>No active alerts.</p>}`. */
  predicate ShowsNoAlerts(s: PageState)
    ensures ShowsNoAlerts(s) <==> s.alerts == [] && (s.error == None || s.error == Some(""))
  {
    |s.alerts| == 0 && !Truthy(s.error)
  }

  /** What the two banners show after a poll: a success never shows an error and shows
      "No active alerts" exactly when nothing was kept; a failed status always shows its error
      and never "No active alerts"; a thrown error does the same unless its message is empty. */
  lemma PollBanners(s: PageState, outcome: PollOutcome)
    ensures outcome.Fetched? ==>
      !ShowsError(ApplyPoll(s, outcome)) &&
      (ShowsNoAlerts(ApplyPoll(s, outcome)) <==> forall f :: f in outcome.features ==> !IsKept(f))
    ensures outcome.BadStatus? ==>
      ShowsError(ApplyPoll(s, outcome)) && !ShowsNoAlerts(ApplyPoll(s, outcome))
    ensures outcome.Thrown? ==>
      (ShowsError(ApplyPoll(s, outcome)) <==> outcome.message != "") &&
      (ShowsNoAlerts(ApplyPoll(s, outcome)) <==> |s.alerts| == 0 && outcome.message == "")
  {
    if outcome.Fetched? {
      var r := FilterAlerts(outcome.features);
      if |r| > 0 { assert r[0] in r; }
    }
  }

  /** The two banners are never shown together. */
  lemma BannersExclusive(s: PageState)
    ensures !(ShowsError(s) && ShowsNoAlerts(s))
  {
  }

  /** The page component's state, updated in place by each poll. */
  class AlertsPageState {
    var alerts: seq<Feature>
    var error: Option<string>

    function State(): PageState
      reads this
    {
      PageState(alerts, error)
    }

    /** Only alerts the filter kept are ever stored. */
    ghost predicate Valid()
      reads this
    {
      AllKept(alerts)
    }

    /** `useState([])` and `useState(null)`. */
    constructor ()
      ensures Valid() && State() == InitialState
    {
      alerts := [];
      error := None;
    }

    /** The body of `fetchAlerts` once its outcome is known: `setAlerts` and `setError`. */
    method Poll(outcome: PollOutcome)
      requires Valid()
      modifies this
      ensures Valid()
      ensures State() == ApplyPoll(old(State()), outcome)
    {
      match outcome {
        case Fetched(features) =>
          alerts := FilterAlerts(features);
          error := None;
        case BadStatus(status) =>
          error := Some(StatusErrorMessage(status));
        case Thrown(message) =>
          error := Some(message);
      }
    }

    /** The cards the page draws for the stored alerts. */
    function Cards(): (r: seq<Option<AlertCard>>)
      reads this
      requires Valid()
      ensures |r| == |alerts|
      ensures forall i :: 0 <= i < |r| ==> r[i].Some? && r[i].value.key == alerts[i].id
    {
      StoredAlertsAllRender(alerts);
      RenderCards(alerts)
    }
  }
}
