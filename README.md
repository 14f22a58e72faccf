# Weather Watch: alert filtering, radar animation and alert styling

A Dafny model of the three pieces of logic inside the Weather Watch React components:

- **Alerts page** (`src/AlertsPage.js`). Each poll of the National Weather Service's active
  alerts keeps the features whose lower-cased `event` contains "tornado warning", "severe
  thunderstorm warning" or "flash flood warning". Each stored alert is drawn with the first row
  of the ordered `alertTypes` table (Tornado, Severe Thunderstorm, Flash Flood) whose
  lower-cased name its lower-cased event contains. A successful poll replaces `alerts` and
  clears `error`. A failed poll sets `error` and leaves `alerts` alone. A failure is a non-ok
  status or any thrown error.
- **Radar layer** (`src/RadarLayer.js`). The frame list is the radar index's `past` frames
  followed by its `nowcast` frames; a missing list counts as empty. Loading it resets the
  cursor to 0. An interval timer moves the cursor to the next index, wrapping to 0 at the end.
  The interval handle is kept in a ref: the old interval is cleared before a new one is
  installed, and the unmount cleanup clears it. Each frame is drawn as a tile layer. Only the
  cursor's layer is visible.
- **Alerts layer** (`src/AlertsLayer.js`). The fetched `features` are wrapped into a
  FeatureCollection, empty when absent. Each polygon is styled by an exact, case-sensitive
  comparison of its event.

Files:
- `wrappers.dfy`: `Option`, which stands for `null`/`undefined`.
- `text.dfy`: ASCII `toLowerCase`, `includes` and the decimal form of a number.
- `nws_feed.dfy`: the alert feature.
- `alerts_page.dfy`, `radar_layer.dfy`, `alerts_layer.dfy`: one module per component.

Pure logic is written as functions. Component state is a class whose methods are proved
against a pure function of the old state (`AlertsPageState.Poll` against `ApplyPoll`,
`AlertsLayerState.ApplyFetch` against `AfterFetch`). `RadarLayerState` keeps an object
invariant `Valid()`: the cursor stays in range, at most one interval is live, and the
animation runs exactly while there are frames.

What the code does not do, and what the model follows:
- There is no deduplication by id.
- There is no client-side check that `status` is "actual". The request URL asks the server
  to filter on it.
- There are no per-category counters and no sequence numbers for stale responses.
- The alerts page keeps its alerts on a failed poll.
- `error` is tested for JavaScript truthiness. A thrown error whose message is empty
  therefore shows no error line and, if no alerts are stored, "No active alerts" (`AlertsPage.Truthy`,
  `AlertsPage.PollBanners`).
- The alerts layer does not check `res.ok`. A non-ok response whose body parses is drawn
  from that body, as an empty collection when it has no `features`.
- The radar frames are fetched once per mount. An animation never returns to idle.

## Model

| member | source | states |
|---|---|---|
| `Text.Lower` | src/AlertsPage.js:33 | an upper-case ASCII letter becomes its lower-case partner (code point plus 32); every other character is kept |
| `Text.LowerStr` | src/AlertsPage.js:33 | lower-casing keeps the length, replaces each upper-case ASCII letter by its lower-case partner, keeps every other character, and leaves no upper-case letter |
| `Text.LowerStrIdempotent` | src/AlertsPage.js:63 | lower-casing an already lower-cased string changes nothing |
| `Text.Contains` | src/AlertsPage.js:35-37 | `includes` is false when the fragment is longer than the string, and true when the string starts with the fragment |
| `Text.ContainsIff` | src/AlertsPage.js:35-37 | `includes` holds exactly when some position of the string holds the fragment |
| `Text.ContainsSelf` | src/AlertsPage.js:35-37 | a string contains itself and the empty string |
| `Text.NatToString` | src/AlertsPage.js:29 | the status is written as at least one decimal digit, with no leading zero |
| `Text.DecimalRoundTrip` | src/AlertsPage.js:29 | reading the written status back gives the status |
| `Text.NatToStringInjective` | src/AlertsPage.js:29 | distinct statuses are written differently |
| `AlertsPage.IsKept` | src/AlertsPage.js:33-38 | a kept feature's event is at least as long as "tornado warning", the shortest fragment |
| `AlertsPage.FilterAlerts` | src/AlertsPage.js:32-39 | the filtered list is no longer than the input; a feature is in it iff it is in the input and its lower-cased event contains one of the three fragments |
| `AlertsPage.KeptIndices` | src/AlertsPage.js:32-39 | the kept positions are in range, strictly increasing, and are exactly the positions whose feature passes the predicate |
| `AlertsPage.FilterIsOrderedSelection` | src/AlertsPage.js:32 | the filtered list equals the input read off at the kept positions in increasing order: an order-preserving subsequence that keeps repeated features |
| `AlertsPage.FilterKeepsKeptList` | src/AlertsPage.js:32-39 | a list whose features all pass the predicate is returned unchanged |
| `AlertsPage.FilterIdempotent` | src/AlertsPage.js:32-39 | filtering the filtered list returns it unchanged |
| `AlertsPage.FindIn` | src/AlertsPage.js:62-64 | `find` returns a row iff some row matches, and the row it returns is the first matching row |
| `AlertsPage.Matches` | src/AlertsPage.js:62-64 | an event matches a row only if it is at least as long as the row's name |
| `AlertsPage.FindType` | src/AlertsPage.js:62-64 | `alertTypes.find` returns none iff no row matches, and otherwise a row of the table that matches |
| `AlertsPage.FragmentsAreLoweredNames` | src/AlertsPage.js:3-37 | the filter's three fragments are the lower-cased `alertTypes` names, in table order |
| `AlertsPage.MatchPriority` | src/AlertsPage.js:62-64 | the matched type is Tornado, else Severe Thunderstorm, else Flash Flood, by whichever fragment the lower-cased event contains first in that order; none iff it contains none |
| `AlertsPage.KeptIffTyped` | src/AlertsPage.js:62-66 | a feature passes the filter iff it has a matched type, so the `return null` branch never fires for a stored alert |
| `AlertsPage.CardFor` | src/AlertsPage.js:59-98 | an alert gets a card iff the filter would keep it; the card carries the alert's id, event, area, description and sender, and its matched row's colour and icon |
| `AlertsPage.RenderCards` | src/AlertsPage.js:59-99 | one card entry per stored alert |
| `AlertsPage.StoredAlertsAllRender` | src/AlertsPage.js:59-84 | every stored alert is drawn as a card keyed by its id, with its matched row's colour and icon |
| `AlertsPage.StatusErrorMessage` | src/AlertsPage.js:29 | a non-ok status gives a non-empty error message |
| `AlertsPage.ApplyPoll` | src/AlertsPage.js:26-45 | success sets `alerts` to the filtered list and `error` to null; a non-ok status sets the status message and a thrown error its message; neither failure changes `alerts` |
| `AlertsPage.PollKeepsOnlyWarnings` | src/AlertsPage.js:32-43 | every poll keeps the invariant that only the three warnings are stored |
| `AlertsPage.SuccessReplacesState` | src/AlertsPage.js:40-41 | a successful poll's result does not depend on the state before it |
| `AlertsPage.FailuresKeepAlerts` | src/AlertsPage.js:42-44 | any run of failed polls leaves `alerts` unchanged and sets `error` |
| `AlertsPage.Truthy` | src/AlertsPage.js:55-57 | `error` is falsy exactly when it is null or the empty message |
| `AlertsPage.ShowsError` | src/AlertsPage.js:55 | the error line is shown only for a non-empty message |
| `AlertsPage.ShowsNoAlerts` | src/AlertsPage.js:57 | "No active alerts" is shown iff no alert is stored and `error` is null or empty |
| `AlertsPage.PollBanners` | src/AlertsPage.js:55-57 | success shows no error, and shows "No active alerts" iff no feature was kept; a status failure shows the error and not "No active alerts"; a thrown error does the same unless its message is empty |
| `AlertsPage.BannersExclusive` | src/AlertsPage.js:55-57 | the error line and "No active alerts" are never shown together |
| `AlertsPage.AlertsPageState.constructor` | src/AlertsPage.js:22-23 | the page starts with no alerts and a null error |
| `AlertsPage.AlertsPageState.Poll` | src/AlertsPage.js:26-45 | the new state is `ApplyPoll` of the old state and the outcome, and only kept alerts are stored |
| `AlertsPage.AlertsPageState.Cards` | src/AlertsPage.js:59-72 | every stored alert renders to a card carrying its id |
| `RadarLayer.AllFrames` | src/RadarLayer.js:16-18 | the frame list is the past frames (or none) followed by the nowcast frames (or none) |
| `RadarLayer.AllFramesChronological` | src/RadarLayer.js:15-18 | two chronological lists, all past before all nowcast, combine into a chronological list |
| `RadarLayer.NextIndex` | src/RadarLayer.js:45-48 | for an in-range cursor the tick gives `(prev + 1) mod count`, again in range |
| `RadarLayer.TicksCompose` | src/RadarLayer.js:44-49 | `a` ticks then `b` ticks equal `a + b` ticks |
| `RadarLayer.TicksBelowCount` | src/RadarLayer.js:45-48 | from 0, `k` ticks reach index `k` while `k` is below the frame count |
| `RadarLayer.FullCycle` | src/RadarLayer.js:45-48 | from 0, `count` ticks return to 0, visiting 0, 1, ..., count-1 once each |
| `RadarLayer.Periodic` | src/RadarLayer.js:45-48 | `count` more ticks bring the cursor back to the same index |
| `RadarLayer.ThreeFrameCycle` | src/RadarLayer.js:45-48 | with three frames the cursor visits 0, 1, 2 and returns to 0 |
| `RadarLayer.TileUrl` | src/RadarLayer.js:61-68 | the URL's length is the base's, the path's and the suffix's together |
| `RadarLayer.TileUrlRoundTrip` | src/RadarLayer.js:61-68 | the URL starts with the RainViewer tile host, ends with `/256/{z}/{x}/{y}/2/1_1.png`, and the path can be read back from between them |
| `RadarLayer.TileUrlInjective` | src/RadarLayer.js:68 | distinct frame paths give distinct tile URLs |
| `RadarLayer.LayerAt` | src/RadarLayer.js:69-76 | a frame's layer is keyed by its time and uses its tile URL; it is shown, at zIndex 5, iff its index is the cursor, and otherwise hidden at zIndex 4 |
| `RadarLayer.Render` | src/RadarLayer.js:53-78 | nothing is drawn iff there are no frames; otherwise one layer per frame |
| `RadarLayer.CountShownSingle` | src/RadarLayer.js:73 | if only one layer is shown, the count of shown layers is one |
| `RadarLayer.CountShownNone` | src/RadarLayer.js:73 | if every layer is hidden, the count of shown layers is zero |
| `RadarLayer.ExactlyOneShown` | src/RadarLayer.js:65-78 | for an in-range cursor exactly one layer is shown; it is the cursor's, at opacity 0.8 and zIndex 5, every other at opacity 0 and zIndex 4, each keyed by its frame's time and using its frame's tile URL |
| `RadarLayer.RadarLayerState.constructor` | src/RadarLayer.js:5-7 | mounting starts with no frames, cursor 0, a null ref and no live interval, with the frame fetch pending |
| `RadarLayer.RadarLayerState.ClearInterval` | src/RadarLayer.js:41 | clearing removes that handle from the live intervals |
| `RadarLayer.RadarLayerState.SetInterval` | src/RadarLayer.js:44-49 | installing adds a fresh handle to the live intervals; its callback sees the current frame count |
| `RadarLayer.RadarLayerState.OnFramesChanged` | src/RadarLayer.js:36-51 | with frames, the old interval is cleared and a single fresh one is live and held by the ref; with no frames, nothing changes |
| `RadarLayer.RadarLayerState.ApplyFetch` | src/RadarLayer.js:11-24 | on success while mounted, frames become past then nowcast, the cursor 0, and the animation starts iff there are frames; a failure, or a response after unmount, changes nothing |
| `RadarLayer.RadarLayerState.Tick` | src/RadarLayer.js:45-48 | a live interval's tick sets the cursor to the next index, wrapping, and keeps it in range |
| `RadarLayer.RadarLayerState.Unmount` | src/RadarLayer.js:28-33 | cleanup leaves no live interval |
| `RadarLayer.RadarLayerState.AtMostOneLive` | src/RadarLayer.js:38-44 | at most one interval is ever live |
| `RadarLayer.RadarLayerState.View` | src/RadarLayer.js:53-78 | the component draws nothing iff there are no frames, and otherwise the layers of its frames at its cursor, exactly one of them visible |
| `AlertsLayer.AlertStyle` | src/AlertsLayer.js:36-61 | the style is always one of three: red (fill 0.3, weight 2) iff the event equals exactly "Tornado Warning", gold (fill 0.3, weight 2) iff it equals exactly "Severe Thunderstorm Warning", grey `#888` (fill 0.2, weight 1) otherwise |
| `AlertsLayer.CaseSensitivityContrast` | src/AlertsLayer.js:38-60 | every spelling of "Tornado Warning" other than the exact one, such as "tornado warning" or "TORNADO WARNING", is drawn grey on the map, yet the alerts page keeps it and matches it as Tornado |
| `AlertsLayer.ToFeatureCollection` | src/AlertsLayer.js:16-20 | the collection has type "FeatureCollection" and the response's features in order, or none if they are absent |
| `AlertsLayer.AfterFetch` | src/AlertsLayer.js:12-24 | a parsed body sets the state to its collection; a failure leaves the state as it was |
| `AlertsLayer.Render` | src/AlertsLayer.js:31-64 | nothing is drawn iff the state is null; otherwise the collection, each feature drawn in the classifier's style for it |
| `AlertsLayer.FetchThenRender` | src/AlertsLayer.js:16-33 | after a parsed body the layer draws exactly its features, each styled by the classifier; after a failed fetch from the initial state, nothing |
| `AlertsLayer.AlertsLayerState.constructor` | src/AlertsLayer.js:5 | the state starts null |
| `AlertsLayer.AlertsLayerState.ApplyFetch` | src/AlertsLayer.js:21-23 | the new state is `AfterFetch` of the old state and the outcome |
| `AlertsLayer.AlertsLayerState.View` | src/AlertsLayer.js:31-33 | nothing is drawn while the state is null |

## Left out

- `fetch`, `res.json()`, the endpoints and JSON parsing are not modelled. A poll or fetch
  is an input value: parsed data, or a failure with its message. On the alerts page and in
  the radar layer, malformed data (a missing `features` or `event` on the page, a missing
  `radar` in the radar layer) throws inside the handler, so it is a failure. The alerts
  layer instead turns a missing `features` into an empty collection.
- Timer periods (10000 ms and 700 ms) and React scheduling are not modelled. A poll, a fetch
  response and a tick are method calls. Overlapping asynchronous responses are concurrency,
  and are left out.
- The alerts page's own `setInterval`/`clearInterval` poll timer is not modelled as state.
  Only the radar layer's interval ref is.
- The opacities 0.8/0, the fill opacities 0.3/0.2 and the URL's `{z}/{x}/{y}` placeholders
  are constants, not numbers. `Opacity` and `FillOpacity` are two-valued datatypes.
- `toLowerCase` is modelled on ASCII only. Unicode case mapping is library behaviour.
- `new Date(expires).toLocaleString()` is left out: it is locale formatting in a foreign
  library. The card carries neither `expires` nor its formatted form.
- The markup and inline styles, `src/HomePage.js`, `src/App.js` and `src/RadarPage.js` are
  presentation and routing, and are left out.
- React's StrictMode double mount in development is left out.
- `RadarLayer.RadarLayerState.ApplyFetch` requires the one fetch issued at mount to be
  pending. The component never issues a second fetch.
