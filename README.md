# Boston dashboard core, modelled in Dafny

The dashboard serves four panels: the weather at the visitor's position, the
twelve top Hacker News stories, the latest game of each of four Boston teams, and
a drag-and-drop game matching the six New England capitals to their states. This
project models the logic behind them, in both the browser services
(`frontend/src/services/*.ts`) and the serverless handlers (`api/index.ts`), and
proves what that logic promises.

- `Wrappers`, `Upstream` (wrappers.dfy): `Option`, `Result`, and `Fetched`, the
  three outcomes of an upstream request (ok body, non-ok status, thrown error).
- `Js` (js.dfy): the JavaScript semantics the code relies on: truthiness and
  `||` defaults, ASCII `toLowerCase`, `includes`, `String(n)`, `parseInt`,
  `padStart`, `Math.round`, the truncating `%`, and comparisons in which NaN is
  never greater or smaller.
- `Seqs` (seqs.dfy): `Array.prototype.filter` and its order and membership laws.
- `Weather` (weather.dfy): the weather-code tables, the place-name fallback and
  the reading built from the forecast and reverse-geocoding bodies.
- `News` (news.dfy): the top-stories pipeline: first twelve ids, untitled items
  dropped, the rest mapped to articles.
- `Sports` (sports.dfy): team configuration, the event filter, the in-place sort
  that puts the latest event first, game extraction, the two placeholder rows and
  the date window of the scoreboard request.
- `Capitals` (capitals.dfy): the six capital records and their copy.
- `DragAndDrop` (dragdrop.dfy): the game as a class whose fields are the
  component's six state cells and whose methods are its handlers.
- `Geolocation` (geolocation.dfy): the compass label of a wind bearing.
- `ScoreCard` (scorecard.dfy): the win/loss/tie class of a score row.
- `Api` (api.dfy): the weather, news and sports handlers with their status codes.

Upstream answers, the clock and the query parameters are parameters of the
operations. Event dates are integer timestamps; "now" is a string parameter.

Codes 52 and 54 lie in the drizzle band of the icon chain but have no entry in the
description table, so such a reading says "Unknown" next to a drizzle icon
(`Weather.TablesDisagree`). Only codes outside every band get the default icon
`01d`. The model follows the code here.

## Model

| member | source | states |
|---|---|---|
| Js.FirstTruthy | frontend/src/services/weatherService.ts:92-97 | `a`, else `b`, ..., else the fallback: the first truthy option wins; the fallback only when all options are falsy |
| Js.Round | frontend/src/services/weatherService.ts:100-106 | `Math.round` gives the integer within one half below and strictly less than one half above its argument |
| Js.Rem | frontend/src/components/GeolocationComponent.tsx:38 | JavaScript `%` by a positive divisor: the dividend minus the result is a multiple of the divisor, and the result lies in [0, b) for non-negative and in (-b, 0] for negative dividends, so it is the remainder of truncated division |
| Js.ToLower | frontend/src/services/sportsService.ts:151 | `toLowerCase` keeps the length and lowers each character on its own |
| Js.Includes | frontend/src/services/sportsService.ts:151 | the empty string is included in every string; a needle longer than the string is never included |
| Js.IncludesAt | frontend/src/services/sportsService.ts:151 | an occurrence of `t` at some position makes `s.includes(t)` true |
| Js.IncludesWitness | frontend/src/services/sportsService.ts:151 | conversely, `s.includes(t)` yields a position where `t` occurs |
| Js.IntToString | frontend/src/services/newsService.ts:32 | `String(i)` starts with a minus sign exactly when `i` is negative, and the rest is a non-empty digit string with no leading zero whose value is the magnitude of `i`: a numeral denoting `i` |
| Js.NumeralIsIntToString | frontend/src/services/newsService.ts:32-33 | every numeral (sign, digits, no leading zero, no "-0") is exactly the text `String` gives for its value, so `String(i)` is the only numeral of `i` |
| Js.ParseInt | frontend/src/services/sportsService.ts:92-93 | a string starting with a digit parses to the value of its leading digit run |
| Js.ParseIntNoDigits | frontend/src/services/sportsService.ts:92-93 | a string without any decimal digit parses to NaN |
| Js.ParseIntDigits | frontend/src/services/sportsService.ts:92-93 | `parseInt` of a decimal digit string is its value |
| Js.ParseIntRoundTrip | frontend/src/services/newsService.ts:32 | `parseInt(String(n) + rest)` is `n` whenever `rest` does not start with a digit |
| Js.PadStart | frontend/src/services/sportsService.ts:109-110 | `padStart` yields at least `width` characters, the original string at the end and only fill characters before it |
| Js.TwoDigits | frontend/src/services/sportsService.ts:109-110 | `String(n).padStart(2, '0')` of a number below 100 has two digits and reads back as `n` |
| Weather.Describe | frontend/src/services/weatherService.ts:77 | the table's description for a known code, "Unknown" for any other, never empty |
| Weather.WeatherIcon | frontend/src/services/weatherService.ts:46-58 | one of eight icon codes; each icon exactly for its set of weather codes, the sets disjoint and covering every integer |
| Weather.IconBoundaries | frontend/src/services/weatherService.ts:51-56 | band edges: 51 and 55 drizzle, 56 default; 77 snow, 78 default; every code from 95 up thunderstorm |
| Weather.TablesDisagree | frontend/src/services/weatherService.ts:19-58 | codes 52 and 54 are described "Unknown" yet get the drizzle icon |
| Weather.OrZero | frontend/src/services/weatherService.ts:104-105 | `x` or else 0: an absent value gives 0, a present one itself |
| Weather.First | frontend/src/services/weatherService.ts:110-111 | `a[0]` is present exactly when the array is non-empty |
| Weather.City | frontend/src/services/weatherService.ts:92-97 | city, then town, village, county, then "Unknown location"; never empty |
| Weather.Normalize | frontend/src/services/weatherService.ts:99-114 | description and icon always populated; rounded temperatures and wind within one half of the input; falsy precipitation fields 0; sunrise and sunset the first array elements |
| Weather.GetWeather | frontend/src/services/weatherService.ts:60-115 | non-ok forecast fails with "Failed to fetch weather data"; a thrown error keeps its message; a forecast without `daily` fails only after the geocoding answered, with the `TypeError` message; success exactly when both bodies decode and `daily` is present, and then the normalised reading |
| News.CountOr0 | frontend/src/services/newsService.ts:32 | a count or else 0: absent gives 0 |
| News.HasTitle | frontend/src/services/newsService.ts:29 | a null item and an item with a missing or empty title are not kept |
| News.Description | frontend/src/services/newsService.ts:32 | the description ends with " comments", and its length is exactly the sum of the score's text, " points by ", the author (or "unknown"), the separator (space, bar, space), the count's text and " comments" |
| News.DescriptionAuthor | frontend/src/services/newsService.ts:32 | right after the score comes " points by ", then the author, or "unknown" when the item has none |
| News.DescriptionComments | frontend/src/services/newsService.ts:32 | the comment count's decimal text (0 when absent) stands between the last separator (space, bar, space) and " comments", and that separator starts exactly where the author ends |
| News.DescriptionScore | frontend/src/services/newsService.ts:32 | `parseInt` of the description reads back the story's score, 0 when it has none |
| News.ItemUrl | frontend/src/services/newsService.ts:33 | the item page URL starts with the item prefix, and the rest is a numeral (no leading zero, nothing after the digits) denoting the story id, which `parseInt` also reads back |
| News.ToArticle | frontend/src/services/newsService.ts:30-38 | title kept and non-empty; url the story's when truthy, else the item page; source "Hacker News"; publication instant is `time * 1000` |
| News.Kept | frontend/src/services/newsService.ts:29 | no more items than given, every kept item present with a non-empty title |
| News.Articles | frontend/src/services/newsService.ts:28-38 | one article per kept item in the same order, each with a non-empty title and source "Hacker News" |
| News.ArticlesInOrder | frontend/src/services/newsService.ts:20-30 | kept items are an order-preserving subsequence of the items, and an item is kept exactly when it is titled |
| News.OneUntitledDropped | frontend/src/services/newsService.ts:29 | one untitled item among titled ones is the only one dropped and the rest keep their order |
| News.FetchAll | frontend/src/services/newsService.ts:20-25 | all items or a failure; success exactly when every item fetch succeeds, with item `i` from id `i` |
| News.GetNews | frontend/src/services/newsService.ts:11-41 | non-ok id list fails with "Failed to fetch news"; otherwise only the first twelve ids are fetched and at most twelve articles come back |
| Sports.KeptEvents | frontend/src/services/sportsService.ts:148-154 | every kept event has a competitor whose display name contains a search term, ignoring ASCII case |
| Sports.KeptEventsExactly | frontend/src/services/sportsService.ts:148-156 | an event is kept exactly when it mentions the team, order is preserved, and nothing is kept exactly when no event mentions the team |
| Sports.InsertByDatePermutes | frontend/src/services/sportsService.ts:158-160 | inserting an event adds exactly that event |
| Sports.SortByDateDesc | frontend/src/services/sportsService.ts:158-160 | the descending date sort is a permutation of the events |
| Sports.InsertKeepsSorted | frontend/src/services/sportsService.ts:158-160 | inserting into a latest-first sequence keeps it latest-first |
| Sports.SortIsSorted | frontend/src/services/sportsService.ts:158-160 | the sort result is ordered latest first and is a permutation of its input |
| Sports.FirstLatest | frontend/src/services/sportsService.ts:156-160 | a position whose event is not earlier than any other and strictly later than every event before it |
| Sports.SortHeadIsFirstLatest | frontend/src/services/sportsService.ts:158-160 | element 0 of the stable sort is the first event with the latest date |
| Sports.PlaceEvent | frontend/src/services/sportsService.ts:158-160 | one in-place insertion step leaves the prefix alone and makes the suffix the insertion of the element into the sorted rest |
| Sports.ShiftLater | frontend/src/services/sportsService.ts:158-160 | the events after position `i` that are later than `x` move down one place, stopping at the first one not later; the rest stays |
| Sports.SortLatestFirst | frontend/src/services/sportsService.ts:158-160 | the array sorted in place equals the stable latest-first sort of its old contents |
| Sports.MostRecent | frontend/src/services/sportsService.ts:156-160 | element 0 after sorting is a kept event no other kept event is later than, the first such one |
| Sports.Mentions | frontend/src/services/sportsService.ts:148-152 | an event without competitions, or with an empty list of them, never mentions the team, and no event mentions a team without search terms |
| Sports.FindSide | frontend/src/services/sportsService.ts:76-77 | the competitor found is one of the list on the requested side; none exactly when no competitor is on it |
| Sports.FindSideFirst | frontend/src/services/sportsService.ts:76-77 | `find` returns the first competitor on the requested side |
| Sports.OpponentName | frontend/src/services/sportsService.ts:91 | short name, else display name, else "TBD"; never empty |
| Sports.Score | frontend/src/services/sportsService.ts:92-93 | a missing or empty score is 0; a digit string gives its value |
| Sports.ExtractGameData | frontend/src/services/sportsService.ts:71-99 | the home side is the team exactly when its display name matches; scores and opponent taken from the right sides; date falls back to now, status to "Scheduled" |
| Sports.NoRecentGame | frontend/src/services/sportsService.ts:165-175 | the team's name, logo and sport, opponent "No recent game", scores 0, date now, status "No games in last 7 days" |
| Sports.Unavailable | frontend/src/services/sportsService.ts:176-188 | the team's name, logo and sport, opponent "Data unavailable", scores 0, date now, status "Error loading" |
| Sports.TeamRow | frontend/src/services/sportsService.ts:127-189 | failed request gives the "Error loading" row; no matching event gives the "No games in last 7 days" row, exactly when no event mentions the team; otherwise the game of the first latest event |
| Sports.ScoreTeam | frontend/src/services/sportsService.ts:128-189 | the per-team steps (filter, in-place sort, extract) produce that team's row |
| Sports.GetSportsScores | frontend/src/services/sportsService.ts:125-194 | exactly four rows, in team order, row `i` decided only by team `i`'s outcome |
| Sports.Pad2 | frontend/src/services/sportsService.ts:109-110 | two digits reading back as the number |
| Sports.FormatDate | frontend/src/services/sportsService.ts:107-112 | at least five characters: the year's text and four more digits (the lemmas below give their values) |
| Sports.Pad2IsPadStart | frontend/src/services/sportsService.ts:109-110 | the two-digit field is `String(n).padStart(2, '0')` |
| Sports.FormatDateMonthDay | frontend/src/services/sportsService.ts:107-112 | the last four characters of `formatDate` are digits reading back as the month (index + 1) and the day |
| Sports.FormatDateYear | frontend/src/services/sportsService.ts:107-112 | everything before the last four characters reads back as the year under `parseInt` |
| Sports.FormatDateBasic | frontend/src/services/sportsService.ts:107-112 | for a four-digit year the date is eight digits whose value is the YYYYMMDD number |
| Sports.DateWindowOfDates | frontend/src/services/sportsService.ts:133-139 | the `dates=` value of two formatted dates with four-digit years has its dash at index 8, and each half is eight digits whose value is the YYYYMMDD number |
| Capitals.GetCapitals | frontend/src/services/capitalsService.ts:16-19 | a fresh array with the same records as the data |
| Capitals.DataShape | frontend/src/services/capitalsService.ts:7-14 | six records, ids 1 to 6 in order, ids and states pairwise distinct |
| DragAndDrop.BucketsMatchCapitals | frontend/src/components/DragAndDropComponent.tsx:13-20 | six initial buckets, all empty, distinct labels, bucket `i` labelled with record `i`'s state |
| DragAndDrop.WithCapital | frontend/src/components/DragAndDropComponent.tsx:54-56 | only buckets with the given label get the capital; labels and emojis kept |
| DragAndDrop.WithCapitalAgain | frontend/src/components/DragAndDropComponent.tsx:54-56 | putting the same capital in the same bucket twice leaves the buckets as after once |
| DragAndDrop.FillEmpty | frontend/src/components/DragAndDropComponent.tsx:52-58 | filling an empty bucket with a capital of its state keeps labels and own states and adds exactly one filled bucket, so fewer than six were filled before |
| DragAndDrop.EmptyFilled | frontend/src/components/DragAndDropComponent.tsx:79-86 | emptying a filled bucket keeps labels and own states and removes exactly one filled bucket |
| DragAndDrop.Emptied | frontend/src/components/DragAndDropComponent.tsx:94 | every bucket empty, labels and emojis kept |
| DragAndDrop.FindHolding | frontend/src/components/DragAndDropComponent.tsx:79 | the first bucket holding the capital's id, or none when no bucket does |
| DragAndDrop.WrongMatchMessage | frontend/src/components/DragAndDropComponent.tsx:68-70 | the message names the capital and the state at fixed places |
| DragAndDrop.SetOneBucket | frontend/src/components/DragAndDropComponent.tsx:54-56 | with distinct labels, setting one bucket changes the filled count by that bucket's change only |
| DragAndDrop.CapitalsGame.constructor | frontend/src/components/DragAndDropComponent.tsx:12-24 | initial state: no capitals yet, six empty buckets, nothing dragged, no message, count 0, not complete |
| DragAndDrop.CapitalsGame.LoadCapitals | frontend/src/components/DragAndDropComponent.tsx:26-33 | the available capitals become the six records; nothing else changes |
| DragAndDrop.CapitalsGame.DragStart | frontend/src/components/DragAndDropComponent.tsx:40-43 | the dragged capital is set and the message cleared; nothing else changes |
| DragAndDrop.CapitalsGame.DropOnBucketAsWritten | frontend/src/components/DragAndDropComponent.tsx:49-74 | nothing dragged: nothing changes; correct drop: that bucket filled, every available capital with the id removed, count +1, message cleared, complete when the new count is 6; wrong drop: only the message set; drag always cleared |
| DragAndDrop.CapitalsGame.DropOnBucket | frontend/src/components/DragAndDropComponent.tsx:49-74 | as written, except a correct drop on an already filled bucket changes only the drag; keeps count = filled buckets |
| DragAndDrop.CapitalsGame.DropOnAvailable | frontend/src/components/DragAndDropComponent.tsx:76-91 | a capital held by a bucket is appended to the available list, its bucket emptied, count -1, message cleared, not complete; otherwise only the drag is cleared |
| DragAndDrop.CapitalsGame.ResetGame | frontend/src/components/DragAndDropComponent.tsx:93-99 | all buckets empty, count 0, no message, not complete, capitals reloaded; the drag is left as it was |
| DragAndDrop.CapitalsGame.CompleteMeansAllPlaced | frontend/src/components/DragAndDropComponent.tsx:59-65 | under the intended bookkeeping a complete game has all six buckets holding a capital of their own state |
| DragAndDrop.RepeatedDropAsWritten | frontend/src/components/DragAndDropComponent.tsx:52-65 | one capital dropped back on its bucket six times: count 6, game complete, one bucket filled |
| DragAndDrop.RepeatedDrop | frontend/src/components/DragAndDropComponent.tsx:52-65 | the same drops with the guard: count 1, one bucket filled, not complete |
| Geolocation.Sector | frontend/src/components/GeolocationComponent.tsx:38 | the index lies in (-16, 16) and is non-negative for every bearing from -11.25 degrees up |
| Geolocation.WindDirection | frontend/src/components/GeolocationComponent.tsx:19-40 | a compass label for every bearing from -11.25 degrees up; never a label outside the sixteen |
| Geolocation.IntegerSector | frontend/src/components/GeolocationComponent.tsx:38 | for whole degrees d >= 0 the index is ((4d + 45) div 90) mod 16 |
| Geolocation.Cardinals | frontend/src/components/GeolocationComponent.tsx:20-39 | the bearings 0, 90, 180 and 270 degrees give N, E, S and W |
| Geolocation.NorthFromBelow | frontend/src/components/GeolocationComponent.tsx:38 | 0 to 11 degrees give N and 12 gives NNE |
| Geolocation.NorthWraps | frontend/src/components/GeolocationComponent.tsx:38 | 349 to 360 degrees wrap to N, 348 is NNW |
| ScoreCard.ResultClass | frontend/src/components/BostonSportsScoreComponent.tsx:38-43 | no class unless the lowered status contains "final"; then win exactly when greater, loss exactly when smaller, tie exactly when neither |
| ScoreCard.WithoutF | frontend/src/components/BostonSportsScoreComponent.tsx:39 | a status without the letter f is never final |
| ScoreCard.IsFinal | frontend/src/components/BostonSportsScoreComponent.tsx:39 | a status shorter than "final" is never final |
| ScoreCard.PlaceholderRows | frontend/src/components/BostonSportsScoreComponent.tsx:38-43 | the service's "No games in last 7 days" and "Error loading" rows get no class |
| ScoreCard.PlaceholdersUnclassified | frontend/src/components/BostonSportsScoreComponent.tsx:39 | the "Error loading", "No games in last 7 days" and "Scheduled" statuses get no class |
| ScoreCard.FinalStatuses | frontend/src/components/BostonSportsScoreComponent.tsx:39 | "Final", "FINAL" and "Final/OT" count as final |
| Api.TablesIdentical | api/index.ts:58-83 | the handler's description table equals the weather service's |
| Api.ApiDescribe | api/index.ts:86 | the handler's description equals the service's for every code |
| Api.ApiIcon | api/index.ts:89-99 | the reassigned `icon` equals the service's icon for every code |
| Api.WeatherRoute | api/index.ts:34-146 | missing or empty lat/lon: 400 and no upstream request; otherwise one request, two when the forecast is ok (also when it lacks `daily`); 200 with the service's reading, or 500 "Failed to fetch weather data" with the error message |
| Api.NewsRoute | api/index.ts:149-187 | 200 exactly when the news pipeline succeeds, with at most twelve titled articles; otherwise 500 "Failed to fetch news" |
| Api.SportsRoute | api/index.ts:190-324 | always 200 with four rows, row `i` team `i`'s row |

## Left out

- Network and HTTP: `fetch`, `response.json()`, Express wiring, CORS, JSON body parsing and console logging. Upstream answers are parameters: a `Fetched` value (ok body, non-ok status, or a thrown error with its message) or a `Result`.
- Concurrency: `Promise.all` over teams and over story ids is modelled as an in-order traversal. `News.FetchAll` reports the first failing id by position, where `Promise.all` rejects with the first failure in time.
- Clock and calendar: `new Date()`, `setDate(getDate() - 7)`, `toISOString`, `getTime` and the locale formatting in the components. "Now" is a string parameter, event dates are integer timestamps, and `Sports.FormatDate` takes year, month index and day. An article keeps `time * 1000` instead of its ISO string.
- Sports.SortByDateDesc: events whose date does not parse (a NaN comparator result) are not modelled, because every event carries an integer timestamp.
- Floating point: temperatures, wind and bearings are exact reals, not IEEE doubles, so rounding of values that are not exactly representable is not modelled.
- Js.ToLower: only ASCII letters are lowered; the Unicode case mapping of `toLowerCase` is not modelled.
- Sports.Score: only absent, empty and all-digit scores are characterised; `parseInt`'s hexadecimal `0x` prefix and precision loss above 2^53 are not modelled.
- Sports.ExtractGameData: requires the event to mention the team, which the filter guarantees. A `null` entry in a competitor list (which would throw inside the filter and give the error row) is not representable.
- Weather.GetWeather: the weather code is an integer. A forecast body without `current` throws before the geocoding request and is modelled as a thrown error (`Threw`); a missing `daily` is modelled, but not missing `sunrise` or `sunset` arrays inside it. The reverse-geocoding status is never checked by the code, so the geocode input is only a decoded body or a thrown error.
- React: state updates are applied in order as the handlers are written. Batching, re-rendering, `useEffect` on mount and the asynchronous completion of `loadCapitals` (taken to finish at once) are not modelled. `handleDragOver` only prevents the default browser action.
- DragAndDrop.CapitalsGame.DropOnBucketAsWritten: `Valid()` (the fixed bucket labels) is required, as every reachable state has it; the count invariant does not hold for it (see Findings).
- The static `/api/capitals` route; its six records are the same as `Capitals.CapitalsData`.
- UI: rendering, routing, the static pages, the news and sports panels, and the geolocation callback with its error messages.
- Geolocation.WindDirection: a bearing below -11.25 degrees can give a negative index and `undefined`, modelled as `None` (not always: -360 rounds to -16, whose remainder is 0, north).
- News.ToArticle: every story carries an integer `time`. A titled story without `time` makes `new Date(NaN).toISOString()` throw a `RangeError`, which rejects the whole news request; that failure is not modelled.

## Findings

| source | as written | input that shows it | evidently intended | confidence | as-written member | corrected member |
|---|---|---|---|---|---|---|
| frontend/src/components/DragAndDropComponent.tsx:52-65 | a correct drop always increments `successCount`, even when the capital was dragged out of the very bucket it is dropped back on | drag Augusta onto Maine, then drag it from the Maine bucket back onto Maine five more times: count 6 and "Congratulations" with one bucket of six filled (`DragAndDrop.RepeatedDropAsWritten`) | a drop counts only when it fills an empty bucket, so `successCount` equals the number of filled buckets and completion means all six are placed | high, not executed | DragAndDrop.CapitalsGame.DropOnBucketAsWritten | DragAndDrop.CapitalsGame.DropOnBucket |
