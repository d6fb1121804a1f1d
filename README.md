# Oil and gas flare dashboard: page logic

A Dafny model of the logic inside the flare dashboard's Next.js page. The page fetches
flare records from the backend and normalises them. It filters them by location as the
user types and shows them as a list, a chart and a map. A "Scrape New Data" button asks
the backend to scrape and then refetches. The model covers:

- **Record normalisation** (`Flares`): each raw JSON object becomes a `Flare`.
  A missing or falsy coordinate becomes `0`. A missing or empty location or operator
  becomes `"Unknown"`.
- **Location search** (`Search`): `filteredFlares` keeps the records whose non-empty
  location, lower-cased, contains the lower-cased search term.
- **Map markers** (`FlareMap`): one marker per flare whose latitude and longitude are both
  non-zero, placed at those coordinates.
- **Page state** (`Page`): the hooks `flares`, `searchTerm`, `isLoading`, `error` and
  `isScraping`. A class `Page.Home` runs `fetchFlares` and `handleScrape` setter by setter.
  `handleScrape` is split at its first `await` into `BeginScrape` and `CompleteScrape`.
  Each method is proved equal to a pure transition on a `State` snapshot. The render
  choice is the function `Render` (loading, then error, then main). A small event
  semantics (`Enabled`, `Step`, `Run`) states what the user and the pending requests can
  do in each state.
- Helpers: `Seqs` (the order-preserving `filter` and the subsequence relation), `Text`
  (ASCII `toLowerCase`, `includes`, decimal rendering of a status code), `Http` (a request's
  outcome as an input, and the message the `catch` block receives).

Only `location` is searched, as the search box's placeholder says
(`src/components/SearchBar.tsx:13`). `Search.OnlyLocationSearched` proves this for all
records, and `Search.OperatorNotSearched` is an example.

## Model

| member | source | states |
|---|---|---|
| `Seqs.Filter` | src/app/page.tsx:95-97 | `filter` keeps every occurrence of each element that satisfies the condition and no other element, so never more elements than the input has |
| `Seqs.FilterIsSubsequence` | src/app/page.tsx:95-97 | `filter` only deletes: its result is an order-preserving subsequence of its input |
| `Seqs.FilterOfFilter` | src/app/page.tsx:95-97 | filtering by a stronger condition what a weaker one already kept equals filtering by the stronger one |
| `Text.ContainsIffOccurs` | src/app/page.tsx:96 | `includes` holds exactly when the needle occurs at some index of the string |
| `Text.Digits` | src/app/page.tsx:38 | the status in the message is rendered as one or more decimal digits with no leading zero |
| `Text.ParseDigits` | src/app/page.tsx:38 | reading the rendered status back as a decimal gives the status |
| `Flares.Normalize` | src/app/page.tsx:44-53 | the five pass-through fields are copied; a coordinate is the sent value, or 0 when absent; an absent or empty location/operator becomes "Unknown", any other is kept; the result always has a location and an operator |
| `Flares.NormalizeAll` | src/app/page.tsx:44-54 | `data.map` keeps length and order, record i is the normalisation of object i, and every result has a location and an operator |
| `Search.Matches` | src/app/page.tsx:96 | a record matches iff its location is non-empty and the lower-cased term occurs at some position of its lower-cased location |
| `Search.Filtered` | src/app/page.tsx:95-97 | `filteredFlares` is an order-preserving subsequence of `flares` keeping every occurrence of each matching record and no other record |
| `Search.OnlyLocationSearched` | src/app/page.tsx:96 | two records with the same location match the same terms, whatever their operator and other fields |
| `Search.EmptyTermKeepsNormalized` | src/app/page.tsx:95-97 | with an empty term every normalised record is shown, in order |
| `Search.TermCaseIgnored` | src/app/page.tsx:96 | terms that lower-case alike give the same list |
| `Search.LocationCaseIgnored` | src/app/page.tsx:96 | locations that lower-case alike match the same terms |
| `Search.MatchesPrefix` | src/app/page.tsx:96 | a record that matches a term matches every prefix of that term |
| `Search.AppendingNarrows` | src/app/page.tsx:95-97 | appending to the term gives a subsequence of the previous list, equal to filtering that list by the new term |
| `Search.FilteredIdempotent` | src/app/page.tsx:95-97 | filtering the filtered list again by the same term changes nothing |
| `Search.OperatorNotSearched` | src/components/SearchBar.tsx:13 | example: "Acme" does not select a record whose operator is "Acme Oil" and whose location is "Midland" |
| `FlareMap.Plotted` | src/components/FlareMap.tsx:32 | the kept flares are an order-preserving subsequence of the input holding every occurrence of each flare with both coordinates non-zero, and nothing else |
| `FlareMap.MarkersOf` | src/components/FlareMap.tsx:33-34 | one marker per flare, in order, at that flare's coordinates; every occurrence of a flare contributes its own marker |
| `FlareMap.Markers` | src/components/FlareMap.tsx:31-34 | as many markers as kept flares and at most as many as input flares; the i-th marker is at the i-th kept flare's position; no marker has a zero coordinate |
| `FlareMap.MarkersExactly` | src/components/FlareMap.tsx:31-34 | every marker is at the position of an input flare with both coordinates, and every occurrence of such a flare has a marker of its own |
| `FlareMap.MarkerIffCoordinates` | src/components/FlareMap.tsx:32 | an input flare gets a marker iff its latitude and longitude are both non-zero |
| `FlareMap.NormalizedPlottedIff` | src/app/page.tsx:50-51 | a normalised record has coordinates iff both raw coordinates were truthy; defaulted ones and a single zero are dropped |
| `FlareMap.PageMarkers` | src/app/page.tsx:127 | on the page's map, which is given the search result, raw record i is plotted iff both its coordinates are truthy and it matches the term |
| `FlareMap.MarkersSatisfySearch` | src/app/page.tsx:127 | every marker on the map belongs to a stored flare that matches the search and has both coordinates |
| `Http.Failure` | src/app/page.tsx:35-40 | nothing reaches `catch` iff the status is ok and the body parsed; a network failure or unparsable body passes on its own message; a non-ok status gives the "HTTP error! Status: " message |
| `Http.HttpErrorNamesStatus` | src/app/page.tsx:37-39 | a non-ok status throws a non-empty "HTTP error! Status: " message followed by the status's decimal rendering without leading zeros, which reads back as the status |
| `Page.Render` | src/app/page.tsx:99-105 | loading iff `isLoading`; otherwise the error view iff `error` is truthy, showing it; otherwise the main view showing exactly `filteredFlares` (every occurrence of each matching record, in order), its markers and the button's scraping state |
| `Page.AfterFetch` | src/app/page.tsx:32-62 | `isLoading` ends false; a failure sets `error` to the thrown message and keeps `flares`; a success replaces `flares` with the normalised data and leaves `error` alone |
| `Page.AfterScrapeBegin` | src/app/page.tsx:69-71 | `isScraping` becomes true and `error` null, nothing else changes, and after loading the main view shows the scraping button |
| `Page.AfterScrapeEnd` | src/app/page.tsx:75-92 | `isScraping` ends false; a failed POST sets its error and keeps `flares` with no refetch; an accepted POST has the effect of `fetchFlares` with the refetch's outcome |
| `Page.Enabled` | src/app/page.tsx:111-117 | the button can be clicked iff the page is loaded, shows no error and is not scraping; the search box can be used iff the page is loaded and shows no error |
| `Page.Step` | src/app/page.tsx:65-93 | no event sets `isLoading` back to true; every event that can occur keeps the invariant; typing changes only the term |
| `Page.InitialIsLoading` | src/app/page.tsx:26-30 | the page starts loading, with no error and no scrape, and renders the loading view |
| `Page.RunKeepsInv` | src/app/page.tsx:65-93 | any sequence of events that can occur keeps the invariant: a scrape runs only after loading, and with the error cleared |
| `Page.LoadingNeverReturns` | src/app/page.tsx:32-62 | once `isLoading` is false, no sequence of events sets it back to true |
| `Page.ErrorViewIsFinal` | src/app/page.tsx:99-105 | in the error view no event can occur: nothing is pending and neither the button nor the search box is rendered |
| `Page.ErrorViewPersists` | src/app/page.tsx:99-114 | once the error view is shown, no sequence of further events can occur, so the page stays in it |
| `Page.NoSecondScrape` | src/app/page.tsx:112-117 | from a click until that scrape settles, `isScraping` stays true and the button stays disabled whatever is typed |
| `Page.ScrapeBeginScreen` | src/app/page.tsx:69-71 | a click clears the error and shows the main view with the "Scraping..." button disabled |
| `Page.ScrapeOutcome` | src/app/page.tsx:75-92 | a scrape ends with `isScraping` false; a failed POST or refetch sets the error and keeps the records; a full success replaces them and shows the main view |
| `Page.FirstLoad` | src/app/page.tsx:65-67 | the mount fetch shows all normalised records on success, or the thrown message when it fails |
| `Page.Home.constructor` | src/app/page.tsx:26-30 | the hooks start as no records, empty term, loading, no error, not scraping |
| `Page.Home.FetchFlares` | src/app/page.tsx:32-63 | one GET; on success `flares` becomes the normalised data; on failure `error` is set and `flares` kept; `isLoading` ends false |
| `Page.Home.BeginScrape` | src/app/page.tsx:69-78 | `isScraping` becomes true, `error` null, and one POST is sent |
| `Page.Home.CompleteScrape` | src/app/page.tsx:79-92 | a failed POST sets the error with no refetch; an accepted POST refetches exactly once; `isScraping` ends false |
| `Page.Home.SetSearchTerm` | src/app/page.tsx:111 | typing changes only the search term and sends nothing |

## Left out

- `fetch`, the base URL from the environment, `response.json()` and `console.log`: each request's outcome is an input (`Http.Reply`). A body that is not JSON is an input too. The requests sent are recorded in the ghost field `sent`.
- A JSON body that is not an array: the model takes a parsed `/flares/` body to be an array of objects. In the code, `data.map` would throw and the `catch` would set the error.
- Flares.RawFlare: `id`, `volume`, `duration`, `h2s` and `date` are taken to be present. The code copies an absent one through as `undefined`.
- Floating-point numbers: volumes and coordinates are `real`. NaN, which is falsy, and `-0` are not modelled.
- `toLowerCase` is modelled for ASCII letters only.
- JSX, `next/dynamic`, react-leaflet tiles and popups, recharts, and the components `FlareChart` and `SearchBar`: all presentation. The chart is given the same filtered list as the displayed list (`Page.Screen.Main.shown`).
- Overlapping async runs, such as a programmatic second `handleScrape`, and React's batching and re-render timing: the model is sequential. `Page.Home.CompleteScrape` is the continuation of a begun scrape, so it requires `isScraping`.
- React strict mode running the mount effect twice.
