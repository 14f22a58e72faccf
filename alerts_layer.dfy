/** The map's alert overlay: the fetched features wrapped into a FeatureCollection, and the
    style each alert polygon is drawn with. */
module AlertsLayer {
  import opened Wrappers
  import opened NwsFeed
  import AlertsPage
  import Text

  /** The two fill opacities the styles use: 0.3 for the warnings, 0.2 for the rest. */
  datatype FillOpacity = WarningFill | DefaultFill

  /** A Leaflet path style. */
  datatype PathStyle = PathStyle(color: string, fillColor: string, fillOpacity: FillOpacity, weight: nat)

  const TornadoStyle := PathStyle("#ff0000", "#ff0000", WarningFill, 2)
  const SevereThunderstormStyle := PathStyle("#ffd000", "#ffd000", WarningFill, 2)
  const DefaultStyle := PathStyle("#888", "#888", DefaultFill, 1)

  /** `alertStyle`: an exact, case-sensitive comparison of the event with the two warning
      names; every other event, however it is spelled, gets the grey default style. */
  function AlertStyle(feature: Feature): (r: PathStyle)
    ensures r == TornadoStyle || r == SevereThunderstormStyle || r == DefaultStyle
    ensures r == TornadoStyle <==> feature.properties.event == "Tornado Warning"
    ensures r == SevereThunderstormStyle <==> feature.properties.event == "Severe Thunderstorm Warning"
    ensures r == DefaultStyle <==>
      feature.properties.event != "Tornado Warning" && feature.properties.event != "Severe Thunderstorm Warning"
  {
    var eventType := feature.properties.event;
    if eventType == "Tornado Warning" then TornadoStyle
    else if eventType == "Severe Thunderstorm Warning" then SevereThunderstormStyle
    else DefaultStyle
  }

  /** The styling is case-sensitive where the alerts page's filter is not: any spelling of
      "Tornado Warning" other than the exact one ("tornado warning", "TORNADO WARNING", ...)
      is kept and matched as a tornado warning by the page, yet drawn grey on the map. */
  lemma CaseSensitivityContrast(f: Feature)
    requires Text.LowerStr(f.properties.event) == "tornado warning"
    requires f.properties.event != "Tornado Warning"
    ensures AlertStyle(f) == DefaultStyle
    ensures AlertsPage.IsKept(f)
    ensures AlertsPage.FindType(f.properties.event) == Some(AlertsPage.TornadoType)
  {
    var e := f.properties.event;
    Text.ContainsSelf("tornado warning");
    AlertsPage.LowerTornadoName();
    assert AlertsPage.Matches(e, AlertsPage.TornadoType);
    assert |e| != |"Severe Thunderstorm Warning"|;
  }

  /** The GeoJSON object handed to the map layer. */
  datatype FeatureCollection = FeatureCollection(kind: string, features: seq<Feature>)

  /** How the fetch ends: a parsed body whose `features` may be missing (no status check is
      made), or any thrown error (logged only). */
  datatype LayerFetchOutcome = Parsed(features: Option<seq<Feature>>) | LayerFetchFailed(message: string)

  /** `{ type: "FeatureCollection", features: data.features || [] }`. */
  function ToFeatureCollection(features: Option<seq<Feature>>): (r: FeatureCollection)
    ensures r.kind == "FeatureCollection"
    ensures features.Some? ==> r.features == features.value
    ensures features.None? ==> r.features == []
  {
    FeatureCollection("FeatureCollection", features.GetOr([]))
  }

  /** The `alertGeoJson` state after the fetch: set on a parsed body, untouched on failure. */
  function AfterFetch(geoJson: Option<FeatureCollection>, outcome: LayerFetchOutcome): (r: Option<FeatureCollection>)
    ensures outcome.Parsed? ==> r == Some(ToFeatureCollection(outcome.features))
    ensures outcome.LayerFetchFailed? ==> r == geoJson
  {
    match outcome
    case Parsed(features) => Some(ToFeatureCollection(features))
    case LayerFetchFailed(_) => geoJson
  }

  /** What the layer draws: the collection and the style of each of its features. */
  datatype GeoJsonLayer = GeoJsonLayer(data: FeatureCollection, styles: seq<PathStyle>)

  /** `null` before the data is set, else the GeoJSON layer with the style function applied
      to each feature. */
  function Render(geoJson: Option<FeatureCollection>): (r: Option<GeoJsonLayer>)
    ensures r.None? <==> geoJson.None?
    ensures r.Some? ==> r.value.data == geoJson.value && |r.value.styles| == |geoJson.value.features|
    ensures r.Some? ==> forall i :: 0 <= i < |r.value.styles| ==>
      r.value.styles[i] == AlertStyle(geoJson.value.features[i])
  {
    match geoJson
    case None => None
    case Some(g) =>
      Some(GeoJsonLayer(g, seq(|g.features|, i requires 0 <= i < |g.features| => AlertStyle(g.features[i]))))
  }

  /** After a parsed body the layer draws exactly the response's features, in order (none
      when the body had no `features`), each in one of the three styles; after a failed
      fetch from the initial state it draws nothing. */
  lemma FetchThenRender(outcome: LayerFetchOutcome)
    ensures outcome.LayerFetchFailed? ==> Render(AfterFetch(None, outcome)).None?
    ensures outcome.Parsed? ==>
      var layer := Render(AfterFetch(None, outcome));
      && layer.Some?
      && layer.value.data.features == outcome.features.GetOr([])
      && forall i :: 0 <= i < |layer.value.styles| ==>
           layer.value.styles[i] == AlertStyle(layer.value.data.features[i]) &&
           layer.value.styles[i] in {TornadoStyle, SevereThunderstormStyle, DefaultStyle}
  {
  }

  /** The layer component's one piece of state, set once by the fetch handler. */
  class AlertsLayerState {
    var alertGeoJson: Option<FeatureCollection>

    /** `useState(null)`. */
    constructor ()
      ensures alertGeoJson == None
    {
      alertGeoJson := None;
    }

    /** The end of `fetchAlerts`: `setAlertGeoJson` on a parsed body, only a log line on
        a failure. */
    method ApplyFetch(outcome: LayerFetchOutcome)
      modifies this
      ensures alertGeoJson == AfterFetch(old(alertGeoJson), outcome)
    {
      match outcome {
        case Parsed(features) =>
          alertGeoJson := Some(ToFeatureCollection(features));
        case LayerFetchFailed(_) =>
      }
    }

    /** The component's render: nothing while the state is null. */
    function View(): (r: Option<GeoJsonLayer>)
      reads this
      ensures r.None? <==> alertGeoJson.None?
    {
      Render(alertGeoJson)
    }
  }
}
