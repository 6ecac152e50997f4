# F1-Pulse race map, prediction form and driver list — a Dafny model

This project models the decision logic of the F1-Pulse dashboard:

- **Race map** (`race_map.dfy`, module `RaceMap`). Two static coordinate
  tables locate a race's venue. The circuit table is tried with the circuit
  name and then with the location name; the country table is tried with the
  country name; failing all three, the point (20, 0) is used. The module also
  covers the marker icon, which grows and gets a thicker border when its race
  is selected. Its main part is the map camera, which the `MapController`
  effect either points at the selected race (zoom 6), frames on the mean of
  all venues (zoom 2), or leaves where it is. The camera is a class with
  `center` and `zoom` fields. Its `Sync` method is proved against the pure
  target function `ComputeTarget`.
- **Shared race records** (`races.dfy`, module `Races`). The `RaceInfo`
  record, `find` by identifier (first match), and JavaScript truthiness of a
  nullable identifier. In that truthiness test `null` and `0` both count as
  "no selection".
- **Prediction page** (`home.dfy`, module `Home`). `String.prototype.trim`
  and the decision `handlePredict` makes: GET by identifier, the validation
  error, or a POST whose optional fields are left out when falsy. Also the
  Predict button's `disabled` expression. The page state is a class.
  `SelectRace` copies the chosen race into the form. `BeginPredict` and
  `FinishPredict` are the two halves of the handler on either side of the
  network. `Predict` runs them in sequence, and the service's reply is its
  parameter.
- **Driver list** (`drivers.dfy`, module `Drivers`). The case-insensitive
  filter on name or reference, then the sort by wins, races or name. The sort
  is modelled as insertion sort and proved to give a sorted permutation.
- `wrappers.dfy` (module `Wrappers`) holds the `Option` type. It stands for
  JavaScript's `null`/`undefined` next to a value.

Decisions taken where the code is subtle:

- A truthy selected identifier that is not in the race list makes no
  `setView` call (RaceMap.tsx:123-129). The camera stays where it was and
  does not fall back to the overview; `ComputeTarget` returns `None`.
- The tables are looked up with `TABLE[key]` as a truthiness test. Every
  value is a non-empty array, so the test is key membership.
- Identifier `0` is falsy in both files: the map shows the overview and the
  Predict button stays disabled in select mode. The marker comparison
  `race.raceId === selectedRaceId` still highlights race 0. The race picker's
  placeholder option sends `Number("")`, which is 0.

## Model

| member | source | states |
|---|---|---|
| `RaceMap.CircuitTableInBounds` | app/components/RaceMap.tsx:48-72 | every circuit-table entry lies in [-90,90] × [-180,180] |
| `RaceMap.CountryTableInBounds` | app/components/RaceMap.tsx:75-97 | every country-table entry lies in [-90,90] × [-180,180] |
| `RaceMap.RaceCoordinates` | app/components/RaceMap.tsx:99-117 | total resolver with four tiers, each stated as its own implication: a mapped circuit wins whatever location and country say; the location is tried in the circuit table only when the circuit misses; the country is tried in the country table only when both miss; otherwise exactly (20, 0). The result is always in bounds |
| `RaceMap.CircuitTierWins` | app/components/RaceMap.tsx:101-103 | circuit "Monaco" gives (43.7347, 7.4206) even with a mapped location and country |
| `RaceMap.LocationUsesCircuitTable` | app/components/RaceMap.tsx:106-108 | location "United States" resolves through the circuit table to (30.1327, -97.6351) |
| `RaceMap.CountryUsesCountryTable` | app/components/RaceMap.tsx:111-113 | country-only "United States" resolves through the country table to (39.8283, -98.5795) |
| `RaceMap.CountryFallbackJapan` | app/components/RaceMap.tsx:111-113 | country-only "Japan" gives (34.8431, 136.5412) |
| `RaceMap.UnmappedVenueDefault` | app/components/RaceMap.tsx:115-116 | a venue that no table knows gives (20, 0) |
| `RaceMap.TablesDisagreeOnUnitedStates` | app/components/RaceMap.tsx:67-81 | both tables have "United States" and map it to different points, so the tier order can be observed |
| `RaceMap.CreateRedCircleMarker` | app/components/RaceMap.tsx:9-26 | the border is 4 wide exactly for a selected marker; a selected radius is 1.5·size, an unselected one is size with border 3; the icon is 2·radius square and anchored at (radius, radius), its centre, so the circle sits on the venue; for a positive size the radius exceeds the size exactly when selected |
| `RaceMap.SelectedMarkerStandsOut` | app/components/RaceMap.tsx:9-26 | for any positive size, a selected marker has a larger radius, a larger icon and a thicker border than an unselected one |
| `RaceMap.DefaultMarkerSizes` | app/components/RaceMap.tsx:177 | at size 12 a selected marker has radius 18 (icon 36×36) and border 4, an unselected one radius 12 (icon 24×24) and border 3 |
| `RaceMap.Markers` | app/components/RaceMap.tsx:169-177 | one marker per race, in list order, at the race's resolved venue; a marker is drawn selected (border 4, radius 18) iff `race.raceId === selectedRaceId` |
| `RaceMap.SumBounds` | app/components/RaceMap.tsx:132-133 | the `reduce` sum of n values in [lo, hi] lies in [n·lo, n·hi] |
| `RaceMap.MeanBounds` | app/components/RaceMap.tsx:132-133 | a mean of values in [lo, hi] lies in [lo, hi] |
| `RaceMap.MeanBetweenExtremes` | app/components/RaceMap.tsx:132-133 | a mean lies between the minimum and the maximum of its values |
| `RaceMap.CoordsOf` | app/components/RaceMap.tsx:131 | `races.map(getRaceCoordinates)`: same length, each entry the race's resolved venue, each in bounds |
| `RaceMap.Centroid` | app/components/RaceMap.tsx:131-134 | the point of mean latitude and mean longitude, each between the minimum and maximum of its column; a centroid of in-bounds points is in bounds |
| `RaceMap.CentroidExample` | app/components/RaceMap.tsx:131-134 | venues (0,0) and (10,10) are framed around (5,5) |
| `RaceMap.ComputeTarget` | app/components/RaceMap.tsx:122-136 | Focused: a truthy id found in the list gives that (first) race's venue at zoom 6. Overview: a falsy id with a non-empty list gives the centroid at zoom 2. No change iff the id is truthy but absent, or falsy with an empty list. Any target is in bounds |
| `RaceMap.FocusedOnSelectedMarker` | app/components/RaceMap.tsx:123-171 | a focused camera is centred on the position of a marker that is drawn as selected |
| `RaceMap.ZeroIdentifierIsNoSelection` | app/components/RaceMap.tsx:123-171 | selecting race 0 highlights its marker, but the camera target equals the one for no selection (the overview) |
| `RaceMap.InitialCenter` | app/components/RaceMap.tsx:152-154 | the first race's venue, or (20, 0) for an empty list; always in bounds |
| `RaceMap.Camera.constructor` | app/components/RaceMap.tsx:152-160 | the camera starts at the initial centre with zoom 2 |
| `RaceMap.Camera.Sync` | app/components/RaceMap.tsx:122-136 | the effect sets centre and zoom to `ComputeTarget`'s view, or keeps both exactly when there is none; the centre stays in bounds |
| `Races.FindIndex` | app/components/RaceMap.tsx:124 | the index of the first race with the identifier; none iff no race has it |
| `Races.FindRace` | app/page.tsx:124 | `find`: the first race with the identifier, which is in the list; none iff no race has it |
| `Home.TrimStart` | app/page.tsx:88 | removes exactly the leading whitespace: a suffix of the input that does not start with whitespace, and everything before it is whitespace |
| `Home.TrimEnd` | app/page.tsx:88 | removes exactly the trailing whitespace: a prefix of the input that does not end with whitespace, and everything after it is whitespace |
| `Home.Trim` | app/page.tsx:88 | `trim()` is empty iff the string is all whitespace; a non-empty result neither starts nor ends with whitespace |
| `Home.TextOrUndefined` | app/page.tsx:100-102 | the JavaScript "s or undefined" is absent iff `s` is empty, and reading it back with "" as the default gives `s` again, so no text is lost |
| `Home.IdOrUndefined` | app/page.tsx:103 | the JavaScript "selectedRaceId or undefined" is absent iff the id is null or 0, and reading it back with 0 as the default gives the same number as the selection would |
| `Home.ChooseRequest` | app/page.tsx:83-105 | GET `/predict/{id}` iff select mode with a truthy id; validation error with the fixed message iff manual mode with a blank name; otherwise a POST in which each of race_name, circuit_name, race_date and race_id is present iff its source is truthy, and then holds that source |
| `Home.PredictDisabled` | app/page.tsx:293 | disabled iff loading, or select mode without a truthy id, or manual mode with an all-whitespace name |
| `Home.EnabledButtonSends` | app/page.tsx:83-293 | when the button is enabled the handler always sends a request: the GET by id in select mode, a POST in manual mode; it never gives the validation error |
| `Home.ManualSearchKeepsSelection` | app/page.tsx:103 | a manual search made while a race is selected carries that race's id in the POST body |
| `Home.ZeroIdentifierDisablesSelectMode` | app/page.tsx:293 | a selection of 0 keeps the button disabled in select mode |
| `Home.FailureMessage` | app/page.tsx:108-116 | the error text is empty, which hides the error box guarded at line 312, exactly when an `Error` with an empty message was thrown, so a non-2xx response always shows an error; its text is the response's `detail` when present, else "Error: " + status text; a thrown `Error`'s message, else the fixed server-down text |
| `Home.PredictPage.constructor` | app/page.tsx:42-51 | empty form, no selection, no races, not loading, no result, no error, select mode |
| `Home.PredictPage.SelectRace` | app/page.tsx:122-130 | the selection always becomes the id. The first race with that id fills name, circuit and date. Without such a race those three are unchanged. Nothing else changes |
| `Home.PredictPage.BeginPredict` | app/page.tsx:74-92 | returns `ChooseRequest` of the old state; the error and result are cleared; a request leaves the page loading; the validation error is recorded and loading stops; the form is unchanged |
| `Home.PredictPage.FinishPredict` | app/page.tsx:108-119 | a prediction is stored, or the failure message is recorded; loading always ends (`finally`) |
| `Home.PredictPage.Predict` | app/page.tsx:74-293 | a whole press: every path ends not loading, with exactly one of the validation error, the prediction or the failure message recorded (a thrown `Error` with an empty message records "", which the error box does not show); pressing the enabled button (line 293) always sends a request, in select mode the GET by id |
| `Drivers.ToLower` | app/drivers/page.tsx:44-45 | same length; no upper-case letter is left, and every other character stays in place |
| `Drivers.ToLowerIdempotent` | app/drivers/page.tsx:44-45 | lowercasing twice is lowercasing once |
| `Drivers.MatchesIgnoresTermCase` | app/drivers/page.tsx:44-45 | the search gives the same answer for the term as typed and for its lowercased form |
| `Drivers.ContainsIffOccurs` | app/drivers/page.tsx:44-45 | the `includes` model holds iff the term occurs at some position |
| `Drivers.EmptyTermMatches` | app/drivers/page.tsx:44-45 | the empty search term matches every driver |
| `Drivers.Filter` | app/drivers/page.tsx:42-46 | every kept driver matches; each matching driver is kept as often as it occurs in the input, a non-matching one never |
| `Drivers.FilterEmptyTermKeepsAll` | app/drivers/page.tsx:42-46 | with an empty term the filter returns the input unchanged |
| `Drivers.LocaleCompare` | app/drivers/page.tsx:50 | -1, 0 or 1, and 0 iff the names are equal |
| `Drivers.LocaleCompareAntisymmetric` | app/drivers/page.tsx:50 | swapping the operands negates the result |
| `Drivers.CompareFlip` | app/drivers/page.tsx:47-51 | the sort comparator is antisymmetric for every key |
| `Drivers.Insert` | app/drivers/page.tsx:47-51 | inserting into a sorted list keeps it sorted and adds exactly that one driver |
| `Drivers.SortDrivers` | app/drivers/page.tsx:47-51 | `sort` with the comparator yields a sorted permutation of its input |
| `Drivers.FilteredAndSorted` | app/drivers/page.tsx:42-51 | the displayed list is sorted by the key; every entry matches; every matching input driver appears as often as in the input |
| `Drivers.DisplayedIffMatching` | app/drivers/page.tsx:42-51 | a driver is displayed iff it is in the input and matches the search |
| `Drivers.EmptySearchShowsAll` | app/drivers/page.tsx:42-51 | with an empty search the displayed list is a permutation of all drivers |
| `Drivers.WinsNonIncreasing` | app/drivers/page.tsx:48 | sorted by wins, `predicted_wins` is non-increasing between any two positions |
| `Drivers.RacesNonIncreasing` | app/drivers/page.tsx:49 | sorted by races, `total_races` is non-increasing between any two positions |
| `Drivers.NamesAscending` | app/drivers/page.tsx:50 | sorted by name, consecutive names are in `localeCompare` order |

The page's `drivers` array is never modified (app/drivers/page.tsx:42-51).
Every step in `Drivers` is a function from sequence values to new sequence
values, so this holds by construction.

## Left out

- Network I/O: `loadAvailableRaces`, `loadDrivers` and the `fetch` calls and
  JSON decoding in `handlePredict` are not modelled. The service's answer is
  the `Reply` parameter of `FinishPredict`/`Predict`, and the request is the
  `Decision` value. The `loadingRaces` flag belongs to the race loader and is
  left out with it.
- Leaflet and rendering: `MapContainer`, `TileLayer`, `useMap`, `L.divIcon`,
  the marker's HTML/CSS, popups and all JSX. These are foreign library calls
  and UI. The marker keeps only its radius, border, icon size and anchor.
- RaceMap.Camera.Sync: it does not record the `{ animate: true }` option of
  `setView`. The animation is visual only. The user's own dragging and
  scroll-wheel zooming (left enabled on the `MapContainer`,
  RaceMap.tsx:158-163) is not modelled either. So "kept" means the last view
  set by the constructor or by the effect. `Camera.Valid` (a zoom of 2 or 6
  and an in-bounds centre) holds only for views set that way; after user
  panning the real map may show any zoom and a longitude outside ±180.
- The marker click and the popup button only call the owner's
  `onRaceSelect`. That callback is not wired to a model of its owner. On the
  prediction page the race picker calls `handleRaceSelect`, which is
  `Home.PredictPage.SelectRace`.
- app/components/Navigation.tsx: navigation chrome (highlighting the link of
  the current path).
- Floating point: latitudes, longitudes, sizes and the centroid are exact
  `real`s, so IEEE rounding of `size * 1.5` and of the mean is not modelled.
- Drivers.ToLower: only ASCII letters are lowercased. Non-ASCII case mapping
  of `toLowerCase` is not modelled.
- Drivers.LocaleCompare: the result is the order of character codes, not the
  locale's collation. It is a stand-in with the same sign conventions.
- Home.Trim: works on Unicode scalar values via Dafny's `char`, not on
  UTF-16 code units. The whitespace set is ECMAScript's WhiteSpace and
  LineTerminator, written out.
- Drivers.SortDrivers: stability (drivers that compare equal keep their input
  order) holds for the insertion model but is not stated or proved.
- The property-key quirk of JavaScript objects (a key such as "constructor"
  finds an inherited member) is not modelled. The tables are plain maps.
- `getDriverPortrait`, `getTeamLogo` and `formatDriverName`: their module
  (`app/utils/images`) is not part of this model.
- Formatting: `Math.round(confidence * 100)`, `toLocaleDateString` and
  `new Date(...)`.
- React scheduling: each handler is one atomic sequence of state updates, and
  `setState` batching and effect timing are not modelled. The search-mode
  toggle and the text inputs' `onChange` setters are plain field assignments
  and are not modelled separately.
- `Home.Prediction` keeps only some fields of the service's prediction
  (`race_name`, `race_id`, winner, team, confidence). The other fields
  (`top_3`, `round`, the venue names, `race_date`, `full_predictions`) are
  only rendered, and rendering is left out with the JSX.
- Identifiers are integers, so a `NaN` identifier cannot occur.
