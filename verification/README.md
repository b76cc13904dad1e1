# Globe and counter rules of tridentcubed.com, in Dafny

This project models the deterministic rules inside the interactive globe
page and the statistics counter of the tridentcubed.com marketing site, and
proves properties of them with Dafny 4.11.

- **Timezone globe** (`src/main.js`, module `Globe`). Ports are read from one
  sheet and grouped by timezone into synthetic "regional offices". The
  offices come first in `combinedData`, then the ports, numbered `office-i`
  and `port-i`. A click toggles one tooltip at a time. The Previous and Next
  buttons wrap around the list.
- **Location globe** (`src/main.hak.js`, module `HakGlobe`). Offices come from
  a locations sheet. An office manages the ports whose `location` string
  equals its own. In "offices" view mode the globe shows the offices plus the
  ports of the active office, picked by a substring test on the office's
  comma-joined `managedPorts` list.
- **Counter** (`src/lib/counter.js`, module `Counter`). A clamp keeps the
  displayed number from going backward or past the target. The model shows
  how each animation frame threads the last shown value through that clamp.
- **Breakpoints** (`src/lib/mq.js`, module `MediaQuery`). This picks the first
  defined value among the `lg`/`md`/`sm` breakpoints whose `min-width`
  query matches, else the default.

Shared helpers:

- `Text` holds decimal formatting of an index, `join`, `includes` and
  `startsWith`.
- `Labels` holds the id and label templates.
- `Navigation` holds the wrap-around of an index and `findIndex`.
- `Options` stands in for `null`/`undefined`.

JavaScript objects are immutable Dafny datatypes. The page's global `state`
object is a record, and every handler is a pure function from the old record
to the new one. DOM elements are opaque handles. In `Globe` the DOM facts the handlers use
are explicit parameters: which tooltips are displayed and which icons are
selected. In `HakGlobe` the only DOM fact modelled is which marker ids are
rendered.

The reactive signals library that `src/lib/autoPlay.js` and
`src/playground.js` import (`src/lib/signals.js`) is not part of this model.

## Model

| member | source | states |
|---|---|---|
| `Globe.ProcessPorts` | src/main.js:54-64 | the i-th sheet row becomes port `port-i` and keeps its name, city, country, province and timezone |
| `Globe.GroupsAreFilters` | src/main.js:85-94 | the groups' keys are the distinct timezones in first-appearance order, and each group holds exactly the rows of its timezone, in input order |
| `Globe.GroupingPartitions` | src/main.js:85-94 | every row lies in the group keyed by its own timezone, no key appears twice, and a group holds only rows of its timezone |
| `Globe.GroupSizesSumToInput` | src/main.js:86-93 | the group sizes add up to the number of input rows |
| `Globe.ProcessTimezoneOffices` | src/main.js:67-103 | there is one office per distinct timezone in first-appearance order. The i-th is `office-i`, named `Regional Office: <tz>`. Its description counts the rows of that timezone. Its `managedPorts` joins their names with ", " in input order |
| `Globe.FetchPortData` | src/main.js:227-243 | on a parsed response the state holds the processed ports, the offices and offices-then-ports as `combinedData`, which is also returned. On failure the state is untouched and the result is empty |
| `Globe.LoadedIdsAreDistinct` | src/main.js:234-236 | no two records of the loaded `combinedData` share an id |
| `Globe.ToggleTooltip` | src/main.js:109-135 | with a missing icon, tooltip or record the result is false and nothing changes. Otherwise the result is `shouldShow` when given, else the negation of the tooltip's visibility. Tooltip visibility, icon selection, `currentTooltip` and `activeMarkerId` all follow the result. A different open tooltip is hidden and the previous marker's icon loses `selected`. Other tooltips, other icons (including the previous marker's icon when the same tooltip is toggled again) and the data are untouched |
| `Globe.ToggleKeepsOneTooltipOpen` | src/main.js:113-132 | if at most the remembered tooltip is open and a marker is active exactly when a tooltip is, every toggle keeps it so |
| `Globe.NavigateToLocation` | src/main.js:180-185 | on non-empty data the stored index is always in range. An in-range index is kept, a negative one becomes the last entry and one past the end becomes 0. With no data a negative index is stored as -1 and any other as 0. Nothing else changes |
| `Globe.ButtonsCycle` | src/main.js:272-280 | from a valid index, Next and Previous step by one modulo the data length and undo each other |
| `Globe.HandleMarkerClick` | src/main.js:169-177 | with a missing record or element nothing changes. Otherwise the tooltip is toggled and the index becomes the first position holding the clicked id; an id not in the data gives the last index, because `-1` wraps |
| `Globe.ClickSelectsClickedMarker` | src/main.js:169-177 | with distinct ids, a click on the k-th record selects index k. A click on a record not in the data selects the last entry, because `-1` wraps. The one-open-tooltip invariant is kept |
| `Navigation.WrapIndex` | src/main.js:181-182 | the index clamp: always in range for a non-empty list. An in-range index is kept, a negative one gives the last index, and one at or past the end gives 0 |
| `Navigation.FindIndex` | src/main.hak.js:125-127 | `findIndex` gives `-1` exactly when the id is absent, and otherwise the first position that holds it |
| `Navigation.PreviousUndoesNext` | src/main.hak.js:264-270 | stepping forward then back from a valid index returns to it |
| `Text.ParseNatToString` | src/main.js:55 | the decimal text of an index reads back as that index, so `port-${index}` ids of distinct indices differ |
| `Text.JoinIncludesEachPart` | src/main.hak.js:81 | every name joined into `managedPorts` occurs in the joined string |
| `Text.IncludesIffOccurs` | src/main.hak.js:235 | the `includes` test holds exactly when the needle occurs at some position of the string |
| `Labels.IdsAreDistinct` | src/main.hak.js:58 | `port-i` ids are pairwise distinct, `office-i` ids are pairwise distinct, and no port id equals an office id |
| `Labels.OfficePrefixSeparatesKinds` | src/main.hak.js:232 | office ids start with `office-` and port ids do not |
| `Labels.DescriptionCountReadsBack` | src/main.js:74 | the count inside `Managing N ports in ...` reads back as N |
| `HakGlobe.ProcessPorts` | src/main.hak.js:57-67 | the i-th row becomes port `port-i`. The name comes from the `port` column and the province from `state_province`. The timezone is empty |
| `HakGlobe.PortsAt` | src/main.hak.js:185-187 | the rows kept for a location are exactly the rows whose `location` string equals it |
| `HakGlobe.PortsAtKeepsOrder` | src/main.hak.js:185-187 | the location filter keeps input order and repeated rows: filtering a concatenation is the concatenation of the filtered parts |
| `HakGlobe.ProcessOffices` | src/main.hak.js:183-189 | the i-th location becomes office `office-i`. It is named `Regional Office: <location>` and copies the location's city, province, country, email, phone and location string (`processOfficeData`, src/main.hak.js:70-85). Its description counts the rows at that location. Its `managedPorts` joins those rows' names with ", " in input order |
| `HakGlobe.FetchPortData` | src/main.hak.js:166-197 | on parsed responses the state holds the ports, the offices and offices-then-ports as `combinedData`, and only those fields change. Every failure gives an empty result. A failure before `portData` is assigned leaves the state untouched; a failure in `locations.map` leaves the new `portData` in place and nothing else changed |
| `HakGlobe.LoadedIdsAreDistinct` | src/main.hak.js:180-191 | no two records of the loaded `combinedData` share an id |
| `HakGlobe.NavigateToLocation` | src/main.hak.js:132-145 | with no data it returns before changing anything. Otherwise the stored index is in range: an in-range index is kept, a negative one becomes the last and one past the end becomes 0. The record at that index is passed on |
| `HakGlobe.ButtonsCycle` | src/main.hak.js:264-270 | from a valid index, Next and Previous step by one modulo the length and undo each other |
| `HakGlobe.HandleMarkerClick` | src/main.hak.js:121-129 | with no record nothing happens. Otherwise the index becomes the first position with the clicked id, or `-1` when there is none, and the record is passed on |
| `HakGlobe.ClickSelectsClickedMarker` | src/main.hak.js:125-127 | with distinct ids, clicking the k-th record selects index k |
| `HakGlobe.ClearMarkerState` | src/main.hak.js:292-300 | no marker is active afterwards and no other field changes |
| `HakGlobe.ActivateMarker` | src/main.hak.js:303-318 | a missing or empty id changes nothing. Otherwise the active marker becomes the id if that marker is rendered, else none. No other field changes |
| `HakGlobe.FindOffice` | src/main.hak.js:234 | `find` gives nothing exactly when no office has the id, and otherwise the first office with it |
| `HakGlobe.FindLoadedOffice` | src/main.hak.js:234 | on loaded data, looking up `office-i` finds the i-th office |
| `HakGlobe.PortsNamedIn` | src/main.hak.js:233-236 | the kept ports are exactly those whose name occurs in the `managedPorts` string |
| `HakGlobe.PortsNamedInKeepsOrder` | src/main.hak.js:233-236 | the filter keeps `portData` order: filtering a concatenation is the concatenation of the filtered parts |
| `HakGlobe.PortsOfActiveOffice` | src/main.hak.js:232-237 | with no active id, or one without the `office-` prefix, no ports are added. With an `office-` id that no office carries, none either. Otherwise the ports named in that office's `managedPorts` are added |
| `HakGlobe.UpdateGlobeData` | src/main.hak.js:226-242 | without a renderer nothing is shown. Any mode but "offices" shows `combinedData`. "offices" mode shows all offices first and then the active office's ports in `portData` order, which is just the offices when no `office-` marker is active |
| `HakGlobe.ChangeViewMode` | src/main.hak.js:253-258 | switching mode stores the mode, clears the active marker and changes nothing else. Without a renderer nothing is shown; with one it gets the offices in "offices" mode and everything in any other mode |
| `HakGlobe.SetActiveLocation` | src/main.hak.js:321-335 | without a record or renderer nothing happens. A record with an empty id changes nothing. Otherwise the record's marker becomes active if rendered, else none. Only `activeMarkerId` changes, and the displayed data is what `updateGlobeData` gives for the new state |
| `HakGlobe.ActivatingOfficeShowsItsPorts` | src/main.hak.js:303-335 | activating a rendered office `office-i` in "offices" mode on loaded data makes it active, and shows all offices followed by the ports named in its list |
| `HakGlobe.ActiveOfficeShowsItsPorts` | src/main.hak.js:229-236 | with office `office-i` active in "offices" mode, every port whose location string equals that office's location is shown |
| `HakGlobe.SubstringMatchOverIncludes` | src/main.hak.js:233-236 | because the match is by substring, a port "Long" at another location is shown when the active office manages "Long Beach" |
| `Counter.CreateProgressThresholds` | src/lib/counter.js:129-133 | the given thresholds come back unchanged; with none given, the defaults 0.85 and 0.95 are used |
| `Counter.EnsureMonotonicProgress` | src/lib/counter.js:136-139 | the result never exceeds the final value. It is never below an in-range last value. An in-range new value at or above the last value is kept. A value below the last value gives the last value |
| `Counter.EnsureMonotonicProgressIdempotent` | src/lib/counter.js:136-139 | clamping an already clamped value with the same bounds returns it unchanged |
| `Counter.SmoothStep` | src/lib/counter.js:153-197 | at or past the display threshold the step shows exactly `end`, keeps `lastValue` and requests no frame. Before it, the shown value is the computed value clamped between `lastValue` and `end`: kept when in range, `lastValue` when below it, `end` when above it or when `lastValue` itself is above `end` (a start above a negative target). It is remembered as `lastValue`, and another frame is requested while progress is below 1 |
| `Counter.AnimationIsMonotoneAndBounded` | src/lib/counter.js:150-197 | threading `lastValue` from the start value through successive frames gives a non-decreasing sequence between the start and `end` |
| `Counter.AnimationEndsOnTarget` | src/lib/counter.js:160-164 | with a display threshold of at most 1, a run that reaches full progress ends on exactly `end` |
| `MediaQuery.Mq` | src/lib/mq.js:1-15 | `lg` wins when defined and the width is at least 1024. Then `md` (768), then `sm` (640). Undefined values are skipped, and the default comes back when nothing defined matches. Equivalently, the result is the value of the widest defined breakpoint whose min-width is at most the width |

## Left out

- The reactive signal/derived/effect engine (`src/lib/signals.js`) is not part of this model. Its source is not available, and `src/lib/autoPlay.js` and `src/playground.js` only consume it.
- `src/lib/autoPlay.js` is timer and DOM-event wiring over the signals library, so it is not modelled. Its local `clearTimeout` shadows the browser function of the same name, so it calls itself instead of cancelling a timeout.
- `src/playground.js` is button wiring over the signals library, so it is not modelled.
- Coordinates are left out: `parseFloat` of latitude/longitude, `calculateAverage` (a float division by the group size) and the `lat`/`lng` fields of every record. The camera moves (`pointOfView`) are left out too.
- The renderer (globe.gl), `configureGlobeControls`, the HTML templates, `createMarkerElement`, hover handlers and the resize handler are UI calls and are not modelled. So are `fetch` itself and the `setTimeout` delays. The delayed work of `setActiveLocation` is modelled as if it ran immediately, and the delayed tooltip of `navigateToLocation` in `src/main.js` is not modelled.
- Key order in the timezone groups follows insertion. This assumes timezone strings are not integer-like (JavaScript enumerates such keys first). It also assumes they do not name a property of `Object.prototype`, such as "constructor", where the source would fail to push.
- Missing sheet fields (`undefined`, which template literals print as "undefined") are not modelled. Every field is a string.
- Easing curves, `createEasing`, `createCompositeEasing`, `formatNumber` (`Intl`) and `animateCounter` are floating point or locale code, so they are not modelled. So are the `IntersectionObserver` wiring of `counter` and `requestAnimationFrame` timing.
- `Counter.SmoothStep`: the value a frame computes before clamping (easing, and the early-threshold approach) is an arbitrary integer input. The frame's linear progress is an arbitrary real. So the contract covers the clamp and the branch on the display threshold, but not the float arithmetic that produces the value.
- `Counter.EnsureMonotonicProgress`: assumes integer inputs. `NaN` (from `parseInt` of a missing `data-target`) is not modelled.
- `HakGlobe.ClearMarkerState`: the `selected` class on icons is not modelled in this variant. `clearMarkerState` removes it from the first `.icon.selected` in document order, and that order depends on the renderer's element layout, which is outside the model. Only the `activeMarkerId` bookkeeping is modelled.
- `HakGlobe.ActivateMarker`: the `selected` class that `activateMarker` adds to the found icon is not modelled, for the same reason as above. Only the `activeMarkerId` bookkeeping and the `#id .icon` lookup (the `rendered` set) are modelled.
- `Globe.ToggleTooltip`: the previous icon is found by `querySelector("#id .icon")`, which is modelled as a lookup in a map from marker id to icon handle.
