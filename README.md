# Populated-places map viewer: the logic inside `js/app.js`

The viewer loads a GeoJSON file of Canadian populated places and draws each place as a circle
whose size and colour depend on its population. This project models the logic inside that
script that can be stated on its own, apart from the mapping library:

- **JavaScript value semantics** (`js_values.dfy`): truthiness and nullishness, the `||`/`??`
  chains, and `Number(x)`. One function, `FirstWhere`, gives the value of both kinds of chain.
- **Property resolution** (`properties.dfy`): `toNum`, `getName`, `getPop` and
  `f.properties || {}`.
- **Symbology** (`symbology.dfy`):
  - `col` puts a population into one of six colour bands.
  - `rad` gives a square-root radius clamped to [2.5, 18].
  - `PointStyle` gives the radius and fill that `pointToLayer` uses.
- **Fetching** (`fetch.dfy`):
  - `CacheBust` builds the cache-busting URL.
  - `FetchJson` models `fetchJson`.
  - `LoadOutcome` and `Requests` are the pure primary → fallback → validate decision of
    `load`.
- **Viewer state** (`viewer.dfy`): the module-level `overlayVisible`, the current overlay,
  the map's layers, the status line and the requests made, all held in a class.
  - `Toggle` is the toggle button.
  - `FetchDocument` is the try/catch.
  - `Load` is `load()` together with its `.catch`.
  - The class invariant `Valid()` says the current overlay is on the map exactly when
    `overlayVisible` holds, and that no older overlay is on the map.

Other code is turned into parameters:
- The network is a parameter `net: string -> NetResult`. It answers the exact URL requested,
  so the cache-busting stamp is part of the question.
- `Date.now()` is a `nat` per request.
- `Math.sqrt` is a parameter `sqrt: real -> real`. The properties of `rad` that need it
  assume `IsSqrt(sqrt)`: `sqrt` is non-negative and squares back to its argument. Its
  monotonicity is proved from that.
- Converting a string with `Number(...)` is a parameter `parse: string -> JsNumber`.

Notes on this version of the script:
- This version of the script has no population filter and no name search, so neither is
  modelled.
- A name is taken when it is truthy, not merely non-empty: `0` and `false` also fall through
  to `"Place"`.
- A negative population is not clamped when it is read. `rad` treats it as 0, and `col`
  puts it in the lowest band.
- A body that fails to parse as JSON makes `fetchJson` reject inside the `try`, so the
  fallback URL *is* tried. Only a parsed document without a `features` array fails without
  a retry.

## Model

| member | source | states |
|---|---|---|
| `JsValues.FirstWhere` | js/app.js:33-34 | a chain of logical-or or of `??` yields the first operand that stops it, or the last operand when none earlier does; the result is one of the operands |
| `Properties.FeatureProps` | js/app.js:101 | the fallback to `{}` for a missing `f.properties`: a feature's properties object when it has one; a missing, null or non-object `properties` reads as `{}`, so a non-empty result always is the feature's own `properties` |
| `Properties.ToNum` | js/app.js:31 | `toNum(x)` is either `Number(x)` itself, when that is finite, or 0 when it is NaN or infinite; `ToNumCases` and `ToNumZeroIff` spell this out per kind of value |
| `Properties.ToNumCases` | js/app.js:31 | `toNum` gives a finite `Number(x)` unchanged, and 0 for NaN, ±Infinity, `undefined`, objects and unparsable strings; `null` and `false` give 0, `true` gives 1 |
| `Properties.ToNumZeroIff` | js/app.js:31 | `toNum` returns 0 exactly when `Number(x)` is 0 or not finite, and otherwise returns `Number(x)` itself |
| `Properties.GetName` | js/app.js:33 | the name is `NAME` if truthy, else `name` if truthy, else `"Place"`; it is always truthy and never the empty string |
| `Properties.GetPop` | js/app.js:34 | the population is `toNum` of the first of `POP_MAX`, `pop_max`, `POP`, `population` that is neither null nor undefined; with all four absent it is 0 |
| `Properties.FalsyNameFallsThrough` | js/app.js:33 | a falsy `NAME` (empty string, 0, false, null, NaN) resolves the same as a missing one |
| `Properties.NullishPopMaxIgnored` | js/app.js:34 | a null `POP_MAX` resolves the same as a missing one |
| `Properties.PresentPopMaxShadows` | js/app.js:34 | a `POP_MAX` that is present and not null decides the population alone, whatever the later fields hold |
| `Properties.ZeroPopMaxIsKept` | js/app.js:34 | a `POP_MAX` of 0 gives population 0, unlike a falsy name, which is skipped |
| `Symbology.Col` | js/app.js:36-43 | the fill colour is always one of the six palette colours |
| `Symbology.PaletteDistinct` | js/app.js:37-42 | the six band colours are pairwise different |
| `Symbology.BandIsUnique` | js/app.js:36-43 | every population lies in exactly one band: [1e6, ∞), [250000, 1e6), [100000, 250000), [25000, 100000), [5000, 25000) or below 5000 |
| `Symbology.ColIsBandColour` | js/app.js:36-43 | the high-to-low, first-match chain gives the colour of the band counted independently as the number of thresholds reached |
| `Symbology.ColPicksBand` | js/app.js:36-43 | `col(pop)` is colour k if and only if `pop` lies in band k |
| `Symbology.ColMonotone` | js/app.js:36-43 | a larger population never gets a lower band |
| `Symbology.Rad` | js/app.js:35 | the radius always lies in [2.5, 18] |
| `Symbology.RadMonotone` | js/app.js:35 | the radius is non-decreasing in the population |
| `Symbology.RadFloor` | js/app.js:35 | the radius is 2.5 exactly for populations up to 62,500, including every negative one |
| `Symbology.RadCap` | js/app.js:35 | the radius is 18 exactly for populations of 3,240,000 and more |
| `Symbology.RadProportional` | js/app.js:35 | between the clamps the squared radius is the population times 0.0001, so marker area is proportional to population |
| `Symbology.PointStyle` | js/app.js:100-109 | a feature's marker radius is `rad` of its resolved population (so within [2.5, 18]) and its fill is the colour of that population's band; a feature without properties is grey at radius 2.5 |
| `Symbology.PointStyleOrdered` | js/app.js:100-109 | of two features, the one with the larger resolved population gets a radius at least as large and a colour band at least as high |
| `Fetch.Decimal` | js/app.js:55 | the text of the time stamp is a non-empty run of decimal digits with no leading zero, except for the stamp 0 itself |
| `Fetch.DecimalRoundTrip` | js/app.js:55 | the decimal text of the time stamp reads back as the stamp |
| `Fetch.CacheBust` | js/app.js:55 | the requested URL starts with the given URL, then has `&` if that URL already contains `?` and `?` otherwise, then `v=` and the stamp written without leading zeros |
| `Fetch.HttpFailure` | js/app.js:57 | the error message of a non-ok response is `Fetch failed: `, the status code, a space, then the status text; the status code reads back from the message |
| `Fetch.FetchJson` | js/app.js:51-60 | `fetchJson` resolves with the parsed body exactly when the response to the cache-busted URL is ok and parses; otherwise it rejects with the network's reason, `Fetch failed: <status> <statusText>`, or the parser's reason |
| `Fetch.Features` | js/app.js:94 | a document passes the `features` check exactly when it is an object whose `features` is an array, and then yields that array; a falsy document never passes |
| `Fetch.Requests` | js/app.js:87-92 | no contract of its own: the URLs `load` requests, the primary and then the fallback only after the primary rejected; `FallbackAtMostOnce` states this |
| `Fetch.Fetched` | js/app.js:87-92 | no contract of its own: the document and source URL after the try/catch, or the fallback's error; `LoadedFromSource`, `BothFailed` and `MapView.FetchDocument` state it |
| `Fetch.LoadOutcome` | js/app.js:87-94 | no contract of its own: how `load` ends before the status line, the features and source or an error message; `LoadFailsIff`, `LoadedFromSource`, `BothFailed` and `InvalidDocumentNotRetried` state it |
| `Fetch.FallbackAtMostOnce` | js/app.js:87-92 | the primary URL is requested first; the fallback URL is requested at most once, and exactly when the primary fetch rejected |
| `Fetch.LoadedFromSource` | js/app.js:87-96 | a successful load reports as its source the URL whose fetch resolved, with that document's features |
| `Fetch.BothFailed` | js/app.js:89-92 | when both fetches reject, both URLs were requested and the load fails with the fallback's error message |
| `Fetch.InvalidDocumentNotRetried` | js/app.js:94 | a resolved primary document without a `features` array fails the load with `Invalid GeoJSON: missing features[]`, and the fallback is not requested |
| `Fetch.LoadFailsIff` | js/app.js:87-94 | a load fails if and only if the primary resolved with a document lacking a `features` array, or the primary rejected and the fallback either rejected or lacks one |
| `Fetch.FeaturesExamples` | js/app.js:94 | `{"type": "FeatureCollection"}` and `null` are rejected, and an empty `features` array is accepted |
| `Viewer.StatusAfter` | js/app.js:127-133 | a finished load shows the feature count and source URL, or the error's message |
| `Viewer.MapView.constructor` | js/app.js:28-29 | at start-up the overlay is empty, `overlayVisible` is true and the overlay is on the map |
| `Viewer.MapView.Toggle` | js/app.js:46-49 | a toggle flips `overlayVisible` and leaves the overlay on the map exactly when it is now visible; nothing else changes |
| `Viewer.MapView.FetchDocument` | js/app.js:87-92 | the try/catch yields the primary's document and URL, or the fallback's, or the fallback's error; the requests it makes are the ones `Requests` lists |
| `Viewer.MapView.Load` | js/app.js:84-133 | after a load the status is set from the outcome and the invariant still holds; a failed load leaves the overlay and the map alone; a successful one removes the old overlay and shows the new one exactly when `overlayVisible` holds |

## Left out

- Leaflet is not part of this model. The map, the tile layer, the scale control, the canvas
  renderer, `L.geoJSON`, circle markers, popups, tooltips and `fitBounds` are all
  library calls. An overlay is only a stamp plus the features it was built from, and the map
  is only the set of overlay stamps on it.
- If `L.geoJSON` itself threw after the old overlay was removed (line 96), the overlay would
  be left off the map while `overlayVisible` is true. That failure belongs to the library
  and is not modelled.
- The home button (`setView`) and `ensureLegend` are not modelled. They are view and DOM
  calls.
- The status text is not modelled: wording, emoji, `BUILD` id and `console` logging are
  left out. So are the global `error` and `unhandledrejection` listeners. Only the
  status's kind, feature count, source and message are kept.
- `fmt` and `toLocaleString` are not modelled, because their output depends on the locale.
- Real networking is not modelled: `fetch`, `AbortController`, the 25-second timer and
  `clearTimeout`. A request's settlement is the value `net(url)`. A timeout before the
  response arrives is one of the rejections it can return. The timer is cleared only after
  `res.json()` settles (line 59), so the abort can also strike while the body is being read;
  the model represents that as a `Malformed` body, whose reason becomes the rejection.
- `load()` is asynchronous, and a toggle click can run between its awaits. `Load` runs
  atomically. This gives the same final state, because a toggle touches only
  `overlayVisible` and the map's layers, and `load` reads them only after its last await.
  Only the position of the toggle in the order of events differs.
- `Number(x)` on a string depends on the engine's number grammar and is the parameter
  `parse`. On an array or an object, `Number(x)` is taken as NaN. JavaScript would convert
  such a value through its string form, so `Number([7])` is 7.
- `Symbology.Rad`: `Math.sqrt` is the parameter `sqrt`, and populations are exact reals.
  Floating-point rounding is not modelled. The bound [2.5, 18] holds for any `sqrt`. The
  other radius properties assume `IsSqrt(sqrt)`.
- `Fetch.Decimal` writes a stamp as plain digits. JavaScript switches to exponent form from
  10^21 on, far beyond any `Date.now()` value.
- Property access `p?.KEY` is modelled on an object. The `?.` guard against a nullish `p`
  is never exercised, because both callers pass `f.properties || {}`.
