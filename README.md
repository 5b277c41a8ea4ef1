# Workout map: a Dafny model

This project models the core of a small browser application that records
running and cycling workouts at places the user clicks on a map, lists them,
and keeps them in `localStorage` across page loads. All of the modelled logic
is in `script.js`:

- **Workout entities** (`Workout`, `Running`, `Cycling`). A workout has an id
  cut from the creation timestamp, the clicked coordinates, a distance (km),
  a duration (min) and a description such as `"Running on April 14"`. A run
  adds cadence and pace = duration / distance. A ride adds elevation gain and
  speed = distance / (duration / 60). Module `Workouts` models them as one
  tagged datatype `Running | Cycling` with shared fields. The metrics and the
  description are pure functions. Module `Decimal` holds the decimal
  rendering of integers that the id and the day of month use.
- **Input validation** inside `App._newWorkout`. Module `Validation` models
  the form's numbers as JavaScript numbers: a finite value as an exact real,
  or `NaN`, `+Infinity`, `-Infinity`. `validInputs` and `allPositive` are the
  two `every` predicates. `Submit` is the pure accept-or-reject step. It gives
  either the new workout or the alert text.
- **The `App` controller** (module `Application`). It is a class whose fields
  are `mapReady` (for `#map`), `viewCentre` (where the map view is centred),
  `mapEvent` (the single slot holding the last click) and `workouts` (the
  ordered list). It also holds a `LocalStorage` object (module `Storage`): an
  abstract map from keys to stored workout lists. Each handler is a method
  with a `modifies` frame. Its postcondition states the whole new state.

Inputs that come from the browser are parameters of the methods: the clock
(`now`, the value of `Date.now()`), the calendar date (month index 0..11 and
day), the geolocation result, the map click position, the form's field
values, and the `data-id` of the clicked list entry.

What is proved, in short:

- The id is a string of at most ten digits. It denotes the timestamp modulo
  10^10 and has exactly ten digits once the timestamp does, so ids repeat
  every 10^10 ms.
- The description starts with `"Running on "` or `"Cycling on "`. Type, month
  and day can be recovered from it (it is injective).
- Pace times distance gives the duration. Speed equals
  60 · distance / duration. Both are finite exactly when their divisor is
  non-zero.
- A run is accepted iff distance, duration and cadence are all finite and
  positive. A ride is accepted iff all three of its fields are finite and
  distance and duration are positive, so a zero or negative elevation is
  accepted. Every accepted workout is well formed.
- An accepted submission appends exactly that workout, placed at the last
  click, and saves the new list. A rejected one changes neither the list nor
  storage.
- Moving to a popup centres the view on the first workout with the clicked
  id, or changes nothing.
- Saving and then reloading the page restores the same list. Reset removes
  the key, and the reloaded page starts empty.

## Model

| member | source | states |
|---|---|---|
| `Decimal.ToDecimal` | script.js:18 | `n + ''` is a non-empty string of digits, with no leading zero unless it is "0" |
| `Decimal.ValueOfDecimal` | script.js:18 | reading the decimal rendering of `n` back as digits gives `n` |
| `Decimal.DecimalInjective` | script.js:18 | different integers render to different strings |
| `Decimal.SuffixValue` | script.js:18 | the last k digits of a digit string denote its value modulo 10^k (what `slice(-10)` keeps) |
| `Decimal.SameValueSameDigits` | script.js:18 | two digit strings of the same length and value are equal, so a ten-digit id is fixed by its value |
| `Workouts.IdIsTimestampSuffix` | script.js:18 | the id `(Date.now() + '').slice(-10)` is 1 to 10 digits, denotes the timestamp modulo 10^10, and has exactly 10 digits when the timestamp has at least 10 |
| `Workouts.IdOf` | script.js:18 | `(Date.now() + '').slice(-10)`: the last ten characters of the decimal timestamp, or all of it when shorter; its value and digits are given by `IdIsTimestampSuffix` |
| `Workouts.IdRepeatsEvery` | script.js:18 | for a timestamp of at least ten digits, the timestamp 10^10 ms later gets the same id |
| `Workouts.Number.IsFinite` | script.js:158 | `Number.isFinite`: true exactly for a finite number (not NaN, not ±Infinity) |
| `Workouts.Number.IsPositive` | script.js:159 | `inp > 0`: true for a finite positive value and for +Infinity, false for NaN |
| `Workouts.TypeName` | script.js:38 | the `type` string of each variant: "running" or "cycling"; `DescriptionStart` gives its capitalised form |
| `Workouts.UpperCase` | script.js:29 | `toUpperCase` on a character maps a lower-case ASCII letter to its capital and leaves other characters alone |
| `Workouts.Capitalised` | script.js:29 | `s[0].toUpperCase() + s.slice(1)` keeps the length and the tail and upper-cases the first character |
| `Workouts.Description` | script.js:26-31 | the capitalised type, " on ", `months[getMonth()]`, a space and `getDate()`; its layout is given by `DescriptionStart` and `DescriptionInjective` |
| `Workouts.DescriptionStart` | script.js:26-31 | the description begins with the capitalised type ("Running" or "Cycling") followed by " on " |
| `Workouts.DescriptionInjective` | script.js:26-31 | equal descriptions come from the same type, month and day |
| `Workouts.Divide` | script.js:47 | JavaScript division on finite operands: finite exactly when the divisor is non-zero, then quotient times divisor is the dividend; 0/0 is NaN, a positive dividend over zero is +Infinity |
| `Workouts.Pace` | script.js:45-49 | `calcPace`: finite exactly when distance is non-zero, then pace times distance equals duration; positive for positive inputs |
| `Workouts.Speed` | script.js:62-66 | `calcSpeed`: finite exactly when duration is non-zero, then distance / (duration / 60) equals 60 · distance / duration |
| `Workouts.NewRunning` | script.js:37-44 | `new Running(coords, distance, duration, cadence)` with the clock's id and date; its fields and pace are given by `NewRunningWellFormed` |
| `Workouts.NewCycling` | script.js:54-61 | `new Cycling(coords, distance, duration, elevation)` with the clock's id and date; its fields and speed are given by `NewCyclingWellFormed` |
| `Workouts.NewRunningWellFormed` | script.js:37-50 | a Running built from positive inputs is well formed, keeps coords, distance, duration and cadence, and has pace == duration / distance |
| `Workouts.NewCyclingWellFormed` | script.js:54-67 | a Cycling built from a positive distance and duration, whatever the elevation, is well formed, keeps its fields, and has speed == distance / (duration / 60) == 60 · distance / duration |
| `Validation.ValidInputs` | script.js:157-158 | `validInputs(...inputs)`: every input is finite; spelled out per field by `ChecksOfThree` |
| `Validation.AllPositive` | script.js:159 | `allPositive(...inputs)`: every input is > 0; spelled out per field by `ChecksOfThree` and `ChecksOfTwo` |
| `Validation.ChecksOfThree` | script.js:157-159 | `validInputs` and `allPositive` on three fields hold exactly when each field passes the check |
| `Validation.ChecksOfTwo` | script.js:178 | `allPositive` on the two fields checked for a ride holds exactly when both are > 0 |
| `Validation.Submit` | script.js:146-182 | an accepted form yields a well-formed workout of the selected type at the clicked coordinates, with the timestamp's id and the given date; a rejected one yields the alert text |
| `Validation.RunningAcceptedIff` | script.js:162-171 | a running form is accepted iff distance, duration and cadence are all finite and all > 0; the workout then carries those values and pace == duration / distance |
| `Validation.CyclingAcceptedIff` | script.js:174-182 | a cycling form is accepted iff distance, duration and elevation are finite and distance, duration > 0; the workout then carries those values and speed == 60 · distance / duration |
| `Validation.ThirdFieldAsymmetry` | script.js:165-181 | the same positive distance and duration with a non-positive third field are rejected as a run and accepted as a ride |
| `Storage.LocalStorage.SetItem` | script.js:282 | `setItem` stores the list under the key and leaves other keys alone |
| `Storage.LocalStorage.GetItem` | script.js:287-288 | `getItem` yields the stored list when the key is present, and nothing (`null`) otherwise |
| `Storage.LocalStorage.RemoveItem` | script.js:297 | `removeItem` deletes exactly that key |
| `Application.FindById` | script.js:271-273 | `find` by id returns the position of the first workout with that id, or nothing exactly when no workout has it |
| `Application.App.constructor` | script.js:74-88 | a new App has no map and no click, and its workouts are the saved list (empty when nothing is saved), so storage and memory agree |
| `Application.App.LoadMap` | script.js:103-117 | the geolocation success callback makes the map ready and centres the view on the position |
| `Application.App.ShowForm` | script.js:120-124 | a map click overwrites the click slot with its coordinates |
| `Application.App.NewWorkout` | script.js:146-195 | the result is `Submit` of the form at the last click; accepted: the list becomes old list + [workout] and storage under "workouts" becomes that list; rejected: list and storage unchanged |
| `Application.App.MoveToPopup` | script.js:266-278 | with the map ready and a clicked entry whose id matches, the view centre becomes the coords of the first matching workout; otherwise the view is unchanged |
| `Application.App.SetLocalStorage` | script.js:281-283 | storage under "workouts" becomes the in-memory list; other keys unchanged |
| `Application.App.GetLocalStorage` | script.js:286-293 | a stored list replaces the in-memory one; with nothing stored the list is unchanged |
| `Application.App.Reset` | script.js:296-299 | the "workouts" key is removed and the reloaded App starts with no map, no click and no workouts |
| `Application.SaveThenReload` | script.js:281-293 | saving and then constructing the App again (a page load) restores exactly the same ordered list |
| `Application.LaterClickWins` | script.js:120-124 | with two clicks before a submission, an accepted workout is placed at the second click and appended to the list |

## Behaviour of the code worth knowing

- Elevation is checked only for being finite, not for its sign. A zero or
  negative elevation is accepted for a ride, while cadence must be > 0 for a
  run.
- Cadence is not checked to be an integer. Any finite positive cadence is
  accepted.
- The click slot `#mapEvent` is not cleared after a submission. Only the next
  click overwrites it.
- Loading does not rebuild `Running`/`Cycling` objects or recompute the
  metrics. `_getLocalStorage` assigns the parsed records as they are, and
  the model reloads the same values.
- The id is the bare truncated timestamp, with no counter, so ids can
  collide. Two workouts made in the same millisecond share an id. Because
  `slice(-10)` keeps only ten digits, ids also repeat every 10^10 ms (about
  115.7 days); `IdRepeatsEvery` proves this. Saved workouts survive page
  loads, so a workout made 10^10 ms after an older one gets the older one's
  id. For a duplicated id, `MoveToPopup` goes to the first of them, which is
  the older one, as `find` does.

## Left out

- DOM work: element lookups, `_hideForm` (clearing fields, the hidden class,
  the `setTimeout` display toggle) and `_toggleElevationField`. These are
  presentation only.
- Leaflet: creating the map and tile layer, adding a marker and popup per
  workout (`_renderWorkoutMarker` and the `forEach` in `_loadMap`). The map
  is reduced to `mapReady` and `viewCentre`. The zoom level passed to
  `setView` and the pan animation are not modelled.
- `_renderWorkout`: the HTML of each list entry, including the `toFixed(1)`
  rounding and the `forEach` rendering loop in `_getLocalStorage`. The
  clicked entry's `data-id` is a parameter of `MoveToPopup`.
- The geolocation request and its failure `alert`, and the `alert` on
  rejected input. A successful position arrives as a call to `LoadMap`. A
  rejection is the `Rejected` result, which carries the alert text.
- Reading the form: the unary `+` conversion of the field strings to
  numbers is not modelled. The form's values arrive as `Number`s.
- JSON. `JSON.stringify` turns the `date` field into a string, but nothing
  reads `date` after loading. Records that fail to parse are out of scope.
  A stored list reads back unchanged.
- IEEE-754 arithmetic. Finite numbers are exact reals, so there is no
  rounding and no overflow to `Infinity` in the metrics.
- Workouts.Divide: division by zero treats the zero as +0. The sign of a
  negative zero is not modelled. The workouts that are actually built never
  divide by zero.
- Workouts.Capitalised: upper-cases ASCII letters only. The source applies
  it only to "running" and "cycling".
- `Date` and `Date.now()`: the timestamp and the month/day are independent
  inputs. The model does not tie the two clock reads together.
- A form `type` other than running/cycling, which would push `undefined`.
  The type is a two-value datatype, so it cannot arise.
- Application.App.MoveToPopup: for an id that matches no workout, the
  source throws on `undefined.coords` before moving the map. Here it is a
  no-op (the state is equally unchanged).
- Application.App.NewWorkout: it requires a recorded click. The source
  would throw on `this.#mapEvent.latlng` without one. In the source the form
  is only shown after a click.
- `location.reload()` is modelled only as building a new App over the same
  storage, as `Reset` returns it.
- The two example instances `run1` and `cycle1` at the top level.
