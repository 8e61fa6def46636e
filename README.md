# Venue map: rating, filter and highlight logic

A model of the logic inside `script.js`, the single script of a venue-finder page that shows
places on a map. The page's map widget and DOM work are glue. This model covers the logic between them:

- **Rating** (`rating.dfy`): `createPlacemark` reads a rating out of the free-text description
  with the regular expression `\d\.\d|\d`. The leftmost match wins, and no match gives 0.
  `getIconByRating` then picks a green, yellow or red star. Ratings are whole tenths (4.5 is
  `45`), so every value the expression can match is exact. `ExtractRating` is proved to
  return the first digit of the description. It adds one decimal only when `.` and a digit
  follow that digit. Without a digit it returns 0.
- **Text** (`text.dfy`): the two string operations the search uses, `toLowerCase` and
  `includes`.
- **Filter** (`filter.dfy`): the callback given to `placemarks.filter`. A placemark stays
  when four tests all hold:
  - its rating reaches `parseFloat(choice) || 0`;
  - its district equals the chosen one, or the choice is `'all'`;
  - its hours string equals the chosen one, or the choice is `'all'`;
  - the lower-cased search text occurs in its lower-cased name or address.

  `Filter` is proved order-preserving, a place is kept if and only if it matches, and every
  matching entry is kept as often as it occurs.
  Lemmas cover idempotence, a monotone rating threshold, neutral controls keeping
  everything, case-insensitive search, and a worked three-venue example.
- **Markers** (`markers.dfy`): the page's global state as a class `MarkerMap`:
  - the list of placemarks;
  - an array of icon options (href, size, offset);
  - the selected placemark;
  - the placemarks currently on the map.

  `Highlight`, `ClosePanels`, `Click` and `FilterMarkers` each state the whole new state.
  Each keeps the invariant `Valid()`: every icon matches its place's rating, and exactly
  the selected placemark (if any) is enlarged. So at most one marker is ever enlarged.

Departures from the code as written, all modelling the evidently intended behaviour:

- `highlightPlacemark` ends with `selectedrk = rk` (script.js:66), which names nothing. It is
  modelled as recording the placemark it was given as the selection.
- The filter reads `props.rating`, `props.district`, `props.hours` and
  `props.originalData.address` (script.js:155-159). `createPlacemark` stores these under
  `customData` (script.js:33-42). The model reads them from one flat record, `Place`.
- `createPlacemark` (script.js:17) is not closed after the placemark is built at line 51. Its
  body runs on to the `};` at script.js:229. So `highlightPlacemark`, `closePanels` and
  `filterMarkers` are local to it. The listeners at script.js:237-251 name functions that do not
  exist at their level. The `ymaps.ready` load (script.js:182-200) is only registered from inside
  `createPlacemark`, so the data load never runs. The model treats these as top-level operations
  and the load as running once at startup. The click handler (script.js:202-226) is registered
  on the placemark built at line 21, so it is attached to every placemark, as in the model.
- `initMap` (script.js:233) is never defined.

Two facts about the code as written, which the model keeps:

- The hours control is compared by plain string equality (script.js:163). This file has no
  opening-hours evaluation.
- The search looks in the address as well as the name (script.js:164-166).

## Model

| member | source | states |
|---|---|---|
| `Rating.RatingFrom` | script.js:18-19 | from position k on, the result is the value of the first digit, or 0 when no digit follows k |
| `Rating.ExtractRating` | script.js:18-19 | the rating is the value of the match at the description's first digit, or 0 when the description has no digit |
| `Rating.FirstDigitDecides` | script.js:18-19 | given the first digit, the rating is that digit, plus a tenth only when `.` and a digit follow it |
| `Rating.NoDigitGivesZero` | script.js:18-19 | a description without any ASCII digit gives the rating 0 |
| `Rating.NonzeroRatingHasDigit` | script.js:18-19 | a nonzero rating always comes from a first digit present in the description |
| `Rating.ExtractRatingWholeExamples` | script.js:18-19 | "10" gives 1.0 and "3." gives 3: a digit without a following `.` and digit is read alone |
| `Rating.ExtractRatingDecimalExamples` | script.js:18-19 | "4.5" gives 4.5, and "a.5" gives 5 because the match must start at a digit |
| `Rating.ExtractRatingTextExamples` | script.js:18-19 | "Рейтинг: 4.7/5" gives 4.7, and text without digits gives 0 |
| `Rating.IconByRating` | script.js:10-14 | green exactly when the rating is at least 4, yellow exactly when it is in [3, 4), red exactly below 3 |
| `Rating.IconByRatingMonotone` | script.js:10-14 | a higher rating never gets a worse icon |
| `Text.Lower` | script.js:149 | `toLowerCase` keeps the length, leaves no capital, and keeps every character that is not a capital |
| `Text.LowerIdempotent` | script.js:149 | lower-casing an already lower-cased string changes nothing |
| `Text.Contains` | script.js:165-166 | `includes` holds for the empty needle, and only when the needle is not longer than the haystack |
| `Text.ContainsIff` | script.js:165-166 | `includes` holds exactly when the needle occurs at some position of the haystack |
| `Text.LowerKeepsSubstring` | script.js:158-166 | a substring stays a substring once both strings are lower-cased |
| `Text.NotContainsChar` | script.js:165-166 | a string without the character c does not include the string "c" |
| `Text.LowerConcat` | script.js:158 | lower-casing a concatenation lower-cases each part |
| `Text.ContainsInMiddle` | script.js:158 | a string found in the middle part of a concatenation is found in the whole |
| `MarkerFilter.SearchMatches` | script.js:164-166 | an empty query matches, and a query found verbatim in the name or the address matches |
| `MarkerFilter.Matches` | script.js:153-168 | the four tests ANDed; with every control neutral, every place passes |
| `MarkerFilter.Filter` | script.js:153-169 | the result is a subsequence of the placemarks in order, a placemark value is in it exactly when it passes all four tests, and its length is the number of passing entries counted with repetition |
| `MarkerFilter.FilterMultiplicity` | script.js:153-169 | an entry that passes is in the result as many times as in the input, and an entry that fails is never in it |
| `MarkerFilter.FilterStricter` | script.js:153-169 | filtering a filtered list with a stricter criterion equals filtering the full list with it |
| `MarkerFilter.FilterIdempotent` | script.js:153-169 | filtering the result again with the same controls changes nothing |
| `MarkerFilter.FilterSameVerdicts` | script.js:153-169 | controls that accept the same places give the same result on every list |
| `MarkerFilter.RaisingThresholdShrinks` | script.js:161 | raising the rating threshold gives a subsequence of the previous result, never a longer list |
| `MarkerFilter.SubsequenceNotLonger` | script.js:171-172 | a subsequence is never longer, so the reported count can only shrink |
| `MarkerFilter.NeutralKeepsAll` | script.js:161-166 | threshold 0, district 'all', hours 'all' and an empty search keep every placemark |
| `MarkerFilter.UnparsableRatingIsZero` | script.js:146 | `parseFloat(value) \|\| 0`: a rating choice that parses to NaN filters every list exactly as the choice 0 |
| `MarkerFilter.SearchIgnoresQueryCase` | script.js:149-166 | the query matches the same places whatever its letter case |
| `MarkerFilter.SearchMatchesAsWritten` | script.js:158-166 | searching the header `<b>name</b>` matches every place the name search matches, and possibly more |
| `MarkerFilter.HeaderSearchMatchesEveryPlace` | script.js:158 | as written, the query "b" matches every place, because the searched header is `<b>name</b>` |
| `MarkerFilter.SearchForBCounterexample` | script.js:158 | the place "A" at "Mira 2" matches "b" as written but not when the name itself is searched |
| `MarkerFilter.FilterCons` | script.js:153-169 | one filter step decides the first place and filters the rest |
| `MarkerFilter.FilterTwo` | script.js:153-169 | filtering two places keeps each one that matches, in order |
| `MarkerFilter.FilterThree` | script.js:153-169 | filtering three places keeps each one that matches, in order |
| `MarkerFilter.ThreeVenuesByRating` | script.js:161 | of ratings 4.5, 3.0 and 2.0, threshold 4 keeps only the first |
| `MarkerFilter.ThreeVenuesByDistrict` | script.js:162 | district X keeps the two places in X, in their original order |
| `MarkerFilter.SearchBMissesA` | script.js:164-166 | neither "A" nor "Tver 1" contains "b" |
| `MarkerFilter.SearchBFindsB` | script.js:164-166 | the place named "B" matches the search "b" |
| `MarkerFilter.SearchBMissesC` | script.js:164-166 | neither "C" nor "Lenina 3" contains "b" |
| `MarkerFilter.ThreeVenuesBySearch` | script.js:164-166 | searching "b" keeps only the place named "B" |
| `Markers.CreatePlacemark` | script.js:17-42 | the placemark keeps the name, address, district and hours, and its rating is the first digit's value, or 0 without a digit |
| `Markers.InitialIcon` | script.js:44-50 | a new placemark is 30 with offset -15, with the green, yellow or red star exactly for ratings from 4, in [3, 4) and below 3 |
| `Markers.MarkerMap.AtMostOneEnlarged` | script.js:54-65 | in a valid state two enlarged markers are the same marker, and it is the selected one |
| `Markers.MarkerMap.Load` | script.js:189-197 | one placemark per data element, rating read from its description, icon by rating at normal size, all shown, none selected |
| `Markers.MarkerMap.Highlight` | script.js:54-67 | the given marker is size 40 / offset -20 and selected, every other marker is size 30 / offset -15, the href is untouched |
| `Markers.MarkerMap.ClosePanels` | script.js:100-108 | nothing is selected and every marker is back to size 30 / offset -15 |
| `Markers.MarkerMap.Click` | script.js:214-218 | the target is enlarged and selected, the previous selection shrinks, every other marker and every offset is unchanged |
| `Markers.MarkerMap.FilterMarkers` | script.js:145-174 | the map shows exactly the filtered placemarks in order, the reported count is the number of matching placemarks, the highlight is cleared |
| `Markers.SelectionScenario` | script.js:214-218 | after clicking a then b, b alone is selected and enlarged; after closing (twice) nothing is selected |
| `Markers.RefilterScenario` | script.js:145-174 | filtering with c, then threshold 4, then c again shows the first result again with the same count, and that result is already filtered |

## Findings

| source | as written | input that shows it | evidently intended | confidence | as-written member | corrected member |
|---|---|---|---|---|---|---|
| script.js:158 | the searched "name" is `balloonContentHeader.toLowerCase()`, which is `<b>name</b>` (script.js:24) | search text "b" with the place "A" at "Mira 2": kept although neither field contains "b" (once lines 155-159 read rating, district, hours and address from `customData`, as the model's `Place` does; as written, line 159 throws on the first placemark after line 151 has emptied the map) | search the place's name itself | not executed; high | `MarkerFilter.SearchForBCounterexample` | `MarkerFilter.ThreeVenuesBySearch` |

The rest of the model (`SearchMatches`, `Matches`, `Filter`) searches the name itself.

## Left out

- Yandex Maps calls are rendering in a foreign widget. These are map creation, `ymaps.Placemark`,
  `geoObjects.add/removeAll` and `panTo`. The map's contents are modelled as the sequence `shown`.
- The `fetch('data.json')` load is asynchronous I/O. The constructor `Load` takes the parsed array
  as a parameter. Loading a second time on top of existing placemarks is not modelled.
- DOM work is left out: opening and closing the sidebar or bottom sheet, reading the four controls,
  the filters-panel toggle and the outside-click handler. The controls are the parameter
  `Criteria`. `updateStats` only displays the count, which `FilterMarkers` returns.
- The touch swipe handlers are gesture plumbing. Their one rule is that a release more than 100
  pixels below the start closes the panels. That rule would be a call to `ClosePanels`.
- `isMobile` tests the browser's user agent, which is environment input.
- Latitude/longitude, phone, photo and review link are only displayed, so they are not in `Place`.
- `parseFloat` on the rating control is modelled as its result in tenths (`Option<int>`, with
  `None` for NaN). A control value that is not a whole number of tenths is not modelled. The
  `isNaN(ratingValue)` test is never true after `|| 0`, so the model uses `rating >= threshold`.
- `Text.LowerChar`: `toLowerCase` is modelled for ASCII and the Cyrillic capitals U+0400..U+042F
  only. Every other character is left unchanged, including Latin capitals outside ASCII (À, Ā, ...).
