# Automation dashboard widget — a Dafny model

On the kintone record-list page of the automation-flow app, the widget adds a dashboard header with:

- **Three status tiles.** They show how many current-app records are running (`実行中`) or stopped (`停止中`), and how many are either. A click navigates to the list view filtered by that status, or unfiltered for the third tile.
- **A utilization donut.** It covers the execution log in app 147. Records whose `color` status is `成功`/`実行中` count as success, and those with `失敗`/`停止中` as failure. The centre shows the success share rounded to a whole percent. Three buttons restrict the log to the last day, 7 days or month through a query on the `実行開始` date field.
- **A stacked bar chart of manual effort per flow.** For each record it shows the after-automation minutes and the minutes saved. Its tooltip reconstructs the before-automation minutes.
- **A visibility rule.** The donut panel is hidden when the page was opened with a non-empty `query` URL parameter, as the tile links do.

All of this lives in `index.js`. The model covers the logic behind it: the tallies, the effort series and tooltip, the rounding, the request parameters, the tile URLs, the reading of `location.search`, and the panel style.

Modules:

| module | file | models |
|---|---|---|
| `Wrappers` | wrappers.dfy | `Option` |
| `Seqs` | seqs.dfy | splitting at the first separator, and splitting on every separator |
| `JsText` | js_text.dfy | `trim`, `Number(v) or 0` on integer text, and decimal text of integers |
| `Records` | records.dfy | a kintone record as a map from field code to an optional value, and counting records by status |
| `StatusTally` | status_tally.dfy | the two status tallies and the clear tile |
| `EffortSeries` | effort_series.dfy | the bar chart's three arrays and its tooltip |
| `Utilization` | utilization.dfy | total, success count and rounded utilization |
| `DateQuery` | date_query.dfy | the request parameters and the date-window filter |
| `UriCodec` | uri_codec.dfy | UTF-8, `encodeURIComponent`, and form-style percent decoding |
| `Navigation` | navigation.dfy | tile URLs, `location.search`, `URLSearchParams.get`, and the panel style |

The three record-walking handlers are methods with loops. The two tallies (`forEach` with counters) are `StatusTally.TallySecondary` and `StatusTally.CountCurrent`, both proved against the specification function `Records.Count`. The effort handler (`forEach` with `push`) is `EffortSeries.Build`, proved against `EffortSeries.IsSeriesOf`. Everything else is pure. Functions that only compute a value have their own rows, which name the lemmas that prove their properties.

Two behaviours of the effort handler:

- In the effort handler, a missing effort field object (as opposed to a missing `.value`) means `record[code].value` throws. Nothing is drawn, so `EffortSeries.Build` returns `None`. The model does not give 0 minutes in that case.
- A missing flow-name value likewise throws at `.trim()`.

## Model

| member | source | states |
|---|---|---|
| `Records.StatusOf` | index.js:154-160 | The test on `!field` and `!field.value`: a status is read only when the field exists, holds a value and is not empty. CountSkipsMissingStatus proves that a record without one adds nothing to any count |
| `Records.Count` | index.js:153-166 | Counting records never yields more than the number of records |
| `Records.CountIsMatchingRecords` | index.js:153-166 | The count equals the size of the set of record positions whose status lies in the vocabulary |
| `Records.CountDisjointUnion` | index.js:161-165 | For two disjoint status classes, the counts of each add up to the count of their union, so the `else if` never double-counts |
| `Records.CountDisjointBound` | index.js:161-165 | Two disjoint classes together count at most all the records |
| `Records.CountSkipsMissingStatus` | index.js:155-158 | A record whose status field is absent, null or empty leaves every count unchanged |
| `Records.CountStep` | index.js:153-166 | Visiting one more record adds one exactly when its status is in the class |
| `StatusTally.TallySecondary` | index.js:150-171 | The method returns exactly two slices: `成功`, with the count of `成功`/`実行中` records in field `color`, then `失敗`, with the count of `失敗`/`停止中` records. Together they count at most all records |
| `StatusTally.CountCurrent` | index.js:191-202 | `running` is the number of records whose `ステータス` is `実行中` and `stopped` the number with `停止中`. Together they count at most all records |
| `StatusTally.ClearTileCountsListedRecords` | index.js:349 | The clear tile's number equals the number of records that are running or stopped, and never exceeds the number of records fetched |
| `StatusTally.TileSum` | index.js:349 | For any two disjoint status classes, the tile sum equals the count of their union |
| `StatusTally.CurrentClassesDisjoint` | index.js:198-199 | No status is both running and stopped |
| `StatusTally.SecondaryClassesDisjoint` | index.js:161-165 | No status is both success and failure |
| `StatusTally.ThreeRecordScenario` | index.js:153-171 | The statuses `成功`, `失敗`, `実行中` give the slices 2 and 1 |
| `JsText.TrimStart` | index.js:34 | Dropping leading whitespace yields a suffix whose removed prefix is all whitespace and whose first character is not whitespace |
| `JsText.TrimEnd` | index.js:34 | Dropping trailing whitespace yields a prefix whose removed suffix is all whitespace and whose last character is not whitespace |
| `JsText.TrimIsInnerSlice` | index.js:34 | `trim` yields a contiguous slice with only whitespace on either side of it |
| `JsText.TrimEnds` | index.js:34 | A non-empty trimmed string starts and ends with a non-whitespace character |
| `JsText.TrimEmptyIffBlank` | index.js:34 | `trim` yields the empty string exactly when the input is all whitespace |
| `JsText.TrimIdempotent` | index.js:34 | Trimming twice equals trimming once |
| `JsText.NaturalText` | index.js:89-91 | The decimal text of a natural number is non-empty, all digits, and has no leading zero |
| `JsText.NaturalTextValue` | index.js:89-91 | The digits of that decimal text read back as the number |
| `JsText.ParseInteger` | index.js:35-36 | Integer text is accepted exactly when it is an optional sign followed by digits, and its value is the value of those digits with the sign applied |
| `JsText.NoWhitespaceTrimmed` | index.js:35-36 | Text without whitespace is unchanged by trimming |
| `JsText.NumberTextHasNoWhitespace` | index.js:89-91 | The decimal text of an integer contains no whitespace |
| `JsText.IntegerTextRoundTrip` | index.js:35-36 | `Number(String(n)) or 0` is `n` for every integer `n` |
| `EffortSeries.FlowLabel` | index.js:34 | A blank name is shown as `(無名)`; any other name is shown trimmed, and is non-empty |
| `EffortSeries.Build` | index.js:28-41 | A series is produced exactly when every record is readable. It then has one entry per record in record order: the flow label, the after-minutes, and before minus after |
| `EffortSeries.TooltipReconstructsEfforts` | index.js:83-92 | The saved-effort tooltip shows `ビフォー: <before> 分` and the after tooltip shows `アフター: <after> 分`. after + reduced is the record's before-effort, and the number in the text reads back as it |
| `EffortSeries.DuplicateNamesKept` | index.js:33-41 | Records with the same name keep separate bars with equal labels |
| `EffortSeries.Readable` | index.js:34-36 | The three field objects exist and the name has a value. Otherwise the handler throws, and Build returns None exactly then |
| `EffortSeries.FlowName` | index.js:34 | The name value `record["業務名"].value`, before trimming; FlowLabel gives its displayed form |
| `EffortSeries.BeforeMinutes` | index.js:35 | `Number(record["手動工数_ビフォー"].value)`, or 0 when that is falsy, through NumberOrZero; IntegerTextRoundTrip proves that integer text reads back as itself |
| `EffortSeries.AfterMinutes` | index.js:36 | `Number(record["手動工数_アフター"].value)`, or 0 when that is falsy, through NumberOrZero; IntegerTextRoundTrip proves that integer text reads back as itself |
| `Utilization.SuccessValue` | index.js:225 | The value of the first `成功` slice (0 when there is none) never exceeds the total |
| `Utilization.TotalSplit` | index.js:224 | The total is the first value plus the total of the rest |
| `Utilization.Utilization` | index.js:226 | The result is between 0 and 100, and 0 when the total is 0. Otherwise it is the success percentage rounded half up: `2·T·u ≤ 200·S + T < 2·T·(u+1)` |
| `Utilization.RoundedShare` | index.js:226 | `(200·S + T) div (2·T)` satisfies those rounding bounds and lies between 0 and 100 |
| `Utilization.RoundingUnique` | index.js:226 | At most one integer satisfies the rounding bounds |
| `Utilization.Donut` | index.js:168-171 | The two-slice datum `[成功, 失敗]` that TallySecondary returns. DonutParts, FullUtilization, NoUtilization, ScaleInvariant and TwoOfThree are stated over it |
| `Utilization.DonutParts` | index.js:224-225 | For the two-slice donut, the total is success + failure and the success value is the success count |
| `Utilization.FullUtilization` | index.js:226 | With successes and no failures, the utilization is 100 |
| `Utilization.NoUtilization` | index.js:226 | With no successes, the utilization is 0 |
| `Utilization.ScaleInvariant` | index.js:226 | Scaling both counts by a positive factor leaves the utilization unchanged |
| `Utilization.ScaledBounds` | index.js:226 | Multiplying the rounding bounds by a positive factor preserves them |
| `Utilization.TwoOfThree` | index.js:226 | Two successes and one failure give 67 |
| `DateQuery.DonutRequestBranches` | index.js:125-146 | The donut request targets app 147 with size 500 and no field list. `"1month"` gives `実行開始 >= "from" and 実行開始 <= "to"`, and a positive number gives `実行開始 >= "from"`. Any other string, or a number ≤ 0, sends no query; a query is sent exactly in the windowed cases |
| `DateQuery.FilterDates` | index.js:134-139 | In a windowed filter, the start date sits between the first pair of quotes. In the month filter, the end date sits between the last pair |
| `DateQuery.ButtonsAreWindowed` | index.js:303-307 | The three buttons' selectors (1, 7 and `"1month"`) all produce a date window |
| `DateQuery.RequestsCapped` | index.js:183-187 | All three requests ask for at most 500 records. The two current-app requests target the current app with no query, and the status request asks for the `ステータス` field alone |
| `UriCodec.Utf8Char` | index.js:396 | A character encodes as 1 to 4 UTF-8 bytes according to its code point |
| `UriCodec.DecodeFirstChar` | index.js:417-418 | The UTF-8 decoder turns the encoding of a character back into that character |
| `UriCodec.Utf8RoundTrip` | index.js:417-418 | Decoding the UTF-8 bytes of a string gives the string |
| `UriCodec.Utf8Concat` | index.js:396 | The UTF-8 encoding of a concatenation is the concatenation of the encodings |
| `UriCodec.Utf8Decode` | index.js:417-418 | A successful decode is empty exactly when the bytes are empty |
| `StatusTally.ClearTileCount` | index.js:349 | The clear tile's number, running + stopped. ClearTileCountsListedRecords proves it is the count of records that are running or stopped, and at most the number of records |
| `JsText.Trim` | index.js:34 | `String.prototype.trim`. TrimIsInnerSlice, TrimEnds, TrimEmptyIffBlank and TrimIdempotent characterise it |
| `JsText.IntegerText` | index.js:89-91 | The decimal text of an integer, with `-` in front of negatives. NumberTextHasNoWhitespace and IntegerTextRoundTrip prove that it contains no whitespace and reads back as the integer |
| `JsText.NumberOrZero` | index.js:35-36 | `Number(v) or 0` on a field value. ParseInteger gives its accepted inputs, and IntegerTextRoundTrip proves that it inverts IntegerText |
| `EffortSeries.TooltipValue` | index.js:83-88 | The hovered dataset's number: after + reduced for the saved-effort dataset, after otherwise. TooltipReconstructsEfforts proves the first is the record's before-effort and the second its after-effort |
| `EffortSeries.TooltipLines` | index.js:88-92 | The tooltip text. TooltipReconstructsEfforts gives both texts in terms of the record's efforts |
| `Utilization.Total` | index.js:224 | The sum of the slice values. TotalSplit splits it at the head, and SuccessValue and DonutParts relate it to the counts |
| `DateQuery.DateFilter` | index.js:125-140 | The filter for a selector. DonutRequestBranches gives every branch, and FilterDates places the dates inside it |
| `DateQuery.DonutRequest` | index.js:142-146 | The donut's request. DonutRequestBranches proves its app, size, fields, and that a query is attached exactly for a windowed selector |
| `DateQuery.StatusRequest` | index.js:183-187 | The status-count request. RequestsCapped proves its app, size, no query, and the single field |
| `DateQuery.EffortRequest` | index.js:23-26 | The bar chart's request. RequestsCapped proves its app, its size, and that it sends no query and no field list |
| `UriCodec.HexDigit` | index.js:396 | The hex digit is an unreserved character; HexDigitUppercase proves it is an uppercase digit or letter |
| `UriCodec.HexDigitUppercase` | index.js:396 | `encodeURIComponent` writes `0`-`9` or `A`-`F`, and the digit's offset from `0` (or from `A`, less ten) is its value |
| `UriCodec.HexValue` | index.js:417-418 | A hex digit's value is below 16 |
| `UriCodec.HexDigitRoundTrip` | index.js:417-418 | The value of the hex digit of `d` is `d` |
| `UriCodec.PercentBytes` | index.js:396 | Percent-encoding bytes gives three URI-safe characters per byte |
| `UriCodec.EncodeChar` | index.js:396 | Every character encodes to a non-empty text of unreserved characters and `%` |
| `UriCodec.EncodeUriComponent` | index.js:396-401 | The result holds only unreserved characters and `%`, so no `&`, `=`, `#`, `?` or `+`. It is empty exactly when the input is |
| `UriCodec.PercentDecode` | index.js:417-418 | Decoding yields no bytes exactly when the text is empty |
| `UriCodec.DecodeComponent` | index.js:417-418 | A decoded value is empty exactly when the raw value is |
| `UriCodec.PercentByteDecode` | index.js:417-418 | `%XX` decodes back to the byte it encodes |
| `UriCodec.PercentBytesDecode` | index.js:417-418 | Percent-encoded bytes decode back to those bytes, whatever text follows |
| `UriCodec.PercentBytesStep` | index.js:417-418 | Decoding one more escape in front of already decodable escapes yields one more byte in front |
| `UriCodec.PercentBytesCons` | index.js:396 | The escapes of a byte sequence are the first byte's escape followed by the escapes of the rest |
| `UriCodec.PercentDecodeEncoded` | index.js:417-418 | Percent-decoding `encodeURIComponent(s)` gives the UTF-8 bytes of `s` |
| `UriCodec.ComponentRoundTrip` | index.js:417-418 | Decoding `encodeURIComponent(s)` gives `s` |
| `UriCodec.PlainComponent` | index.js:417-418 | Text without `%` or `+` decodes to itself |
| `Seqs.SplitAtFirst` | index.js:417 | Splits at the first separator: the head holds no separator, and the parts rejoin to the input. When no separator exists, the head is the input |
| `Seqs.SplitAtFirstUnique` | index.js:417 | Splitting `a + [sep] + b` with `sep ∉ a` gives `(a, b)` |
| `Seqs.Split` | index.js:417 | Splitting on every separator gives at least one piece, and no piece holds the separator |
| `Seqs.SplitConcat` | index.js:417 | Splitting `a + [sep] + b` with `sep ∉ a` gives `[a]` followed by the pieces of `b` |
| `Seqs.SplitNoSeparator` | index.js:417 | A sequence without the separator is a single piece |
| `Navigation.TileUrl` | index.js:396-401 | A tile's URL. TileSearch gives its search string, and TileUrlHidesChart proves that `query` reads back as the filter and hides the panel |
| `Navigation.RunningUrl` | index.js:394-398 | The running tile's URL. RunningTileHidesChart proves the panel starts hidden there |
| `Navigation.StoppedUrl` | index.js:399-403 | The stopped tile's URL. StoppedTileHidesChart proves the panel starts hidden there |
| `Navigation.ClearUrl` | index.js:404-408 | The clear tile's URL. ClearUrlShowsChart proves it has no `query` and the panel starts visible |
| `Navigation.SearchOf` | index.js:417 | `location.search`. SearchAfterBase proves that for `base?rest` it is `?rest` |
| `Navigation.GetParam` | index.js:417-418 | `URLSearchParams.get` before decoding the value. FindParamFirstMatch characterises the lookup; OneParam, TwoParams and EmptySearch give its result on zero, one and two pairs |
| `Navigation.FindParam` | index.js:417-418 | The pair lookup: the first piece that Matches the name answers with its ValueOf. FindParamFirstMatch proves what this means |
| `Navigation.FindParamFirstMatch` | index.js:417-418 | `get` finds a value exactly when some pair names the key, and then the value is that of the first such pair |
| `Navigation.ChartVisible` | index.js:417-423 | `!params.get("query")` negated: absent or empty means visible. ValueEmptiness proves the raw value's emptiness is the decoded value's; TileUrlHidesChart, ClearUrlShowsChart and VisibilityExamples give its value on the pages the widget links to |
| `Navigation.ToggleChartVisibility` | index.js:286-298 | The style set on the panel. ToggleKeepsLayout proves both branches keep `block`/`1` and differ only in visibility |
| `Navigation.InitialPanelStyle` | index.js:416-424 | The panel's style after the first render. RunningTileHidesChart, StoppedTileHidesChart and ClearUrlShowsChart give it for each tile's page |
| `Navigation.ValueEmptiness` | index.js:418-419 | A parameter value is empty after decoding exactly when it is empty before, so the raw value decides `!query` |
| `Navigation.SearchAfterBase` | index.js:417 | For a base URL without `?` or `#`, the search string of `base?rest` is `?rest` |
| `Navigation.FindParamHead` | index.js:417-418 | The first pair `key=value` answers the lookup when its key decodes to the name; otherwise the lookup moves on |
| `Navigation.TwoParams` | index.js:417-418 | In `?k1=v1&k2=v2`, the lookup finds `v1`, else `v2`, else nothing |
| `Navigation.OneParam` | index.js:417-418 | In `?k=v`, the lookup finds `v` or nothing |
| `Navigation.ParameterNames` | index.js:396-406 | `app` and `query` decode to themselves, differ, and contain no separator |
| `Navigation.PlainName` | index.js:396-406 | Either parameter name reads back as itself and holds no `=`, `&` or `#` |
| `Navigation.NoSeparatorsInTail` | index.js:396-401 | The app id's digits and the encoded filter contain no `&` or `#` |
| `Navigation.TileShape` | index.js:396-401 | A tile URL is its base, then `?`, then the pairs `app=` and `query=` joined by `&` |
| `Navigation.ClearShape` | index.js:406 | The clear URL is its base, then `?`, then `app=` |
| `Navigation.TileSearch` | index.js:396-401 | A tile URL's search string is exactly the `?app=...&query=...` the tile appended |
| `Navigation.TileUrlHidesChart` | index.js:394-424 | After following a tile with a non-empty filter, `query` is present, decodes to that filter, and the panel starts hidden |
| `Navigation.RunningTileHidesChart` | index.js:394-398 | Following the running tile leaves the panel hidden: its first style is `block`/`1`/`hidden` |
| `Navigation.StoppedTileHidesChart` | index.js:399-403 | Following the stopped tile leaves the panel hidden: its first style is `block`/`1`/`hidden` |
| `Navigation.ClearUrlShowsChart` | index.js:404-408 | After following the clear tile there is no `query` parameter, and the panel is visible: its first style is `block`/`1`/`visible` |
| `Navigation.EmptySearch` | index.js:417-418 | An empty search string holds no parameter |
| `Navigation.QueryShapes` | index.js:417-418 | The texts `?query=` and `?query=x` split as `?` followed by one pair |
| `Navigation.VisibilityExamples` | index.js:416-424 | With no search string or an empty `query`, the panel is visible; with `?query=x` it is hidden |
| `Navigation.ToggleKeepsLayout` | index.js:286-298 | Both branches set `display: block` and `flex: 1`; only `visibility` differs, and it is `visible` exactly when `show` holds |

## Left out

- Chart.js loading, chart construction and drawing, the centre-text plugin, and the header HTML: they are rendering, with no logic beyond the data the model computes.
- `kintone.api` calls, `kintone.app.getId()`, `Promise.all` and the order in which asynchronous callbacks run: I/O and concurrency. Records and the app id are parameters; the order of responses is not modelled. A button click racing the initial load is not modelled.
- Error paths: the `catch` blocks at index.js:111-113 and 317-319 only log. Those at index.js:173-176 and 204-207 log and reject; on the initial load that rejection ends in the failure message at index.js:426-429, and after a filter button click in the log at index.js:317-319. `console.log` and `console.error` are left out with them.
- The final `catch` at index.js:426-429, which logs and replaces the header with a failure message: rendering, like the header HTML.
- `new Date()`, `setMonth`/`setDate` and `toISOString`: clock and calendar arithmetic. `DateQuery` takes the two dates as already formatted strings.
- DateQuery.Selector: the numeric `daysAgo` is an integer. At index.js:135 `typeof daysAgo === "number"` also admits fractions, `NaN` and `Infinity`; a positive fraction or `Infinity` takes the windowed branch, and `Infinity` then makes `setDate`/`toISOString` throw. The page passes only 1, 7 and `"1month"` (ButtonsAreWindowed).
- The DOM lookups and their `null` checks (the missing canvas, a missing tile or the `#chart` element): `Navigation.InitialPanelStyle` gives the style that would be set on the panel.
- The donut tooltip's percentage with `toFixed(1)`: floating-point formatting.
- Utilization.Utilization: it uses exact round-half-up of `S/T·100`, where the code rounds a floating-point quotient. The two differ when the double product lands just below a `.5` boundary. For example, 23 of 40 gives 58 here, while the browser computes 57.49999… and shows 57.
- JsText.NumberOrZero: this is exact only below 2^53 in magnitude. Above that, `Number` rounds to the nearest double (`Number("9007199254740993")` is 9007199254740992), and the model keeps the exact value. Literals that `Number` accepts as integers but that are not plain decimal digits (`1e3`, `0x10`, `1.0`) give 0 here. So do fractions and `Infinity`, as does any text that is not an optionally signed integer. Blank text and missing values are modelled as in the code. Effort minutes are integers in the model.
- JsText.IntegerText: it writes every digit, where `String(n)` switches to exponent form (`1e+21`) from 10^21 in magnitude up.
- JsText.NaturalText: it writes every digit; likewise, `String(n)` uses exponent form from 10^21 up.
- EffortSeries.Build: before − after is exact, where the browser subtracts doubles. The two agree while both efforts and their difference stay below 2^53 in magnitude.
- EffortSeries.TooltipReconstructsEfforts: holds in the browser only below 2^53 in magnitude. For example, with before = 2^53 + 2 and after = 1, the double `before - after` rounds to 2^53, so the tooltip shows 9007199254740992.
- UriCodec.DecodeComponent: the model's UTF-8 decoder is strict and returns nothing on malformed bytes. `URLSearchParams` substitutes U+FFFD instead. This decoder only matters where a key is compared with `query`, which contains no U+FFFD. For a value, only emptiness matters, because the visibility rule reads the raw value: a non-empty raw value decodes to a non-empty string under either decoder.
- Navigation.GetParam: it returns the raw value of the first pair whose key decodes to the name. It does not build the full list of decoded pairs.
- Navigation.TileSearch: the search string is the text the tile appended, as plain string splitting. The browser's URL parser also normalises the query, percent-encoding `'`, which `encodeURIComponent` leaves as is. So for a filter containing `'`, the raw value on the loaded page differs from `EncodeUriComponent(filter)`. The two tile filters contain no `'`, and visibility depends only on emptiness, which this does not change.
- Navigation.TileUrlHidesChart: subject to the same query normalisation as TileSearch; the decoded `query` is still the filter, and the panel is still hidden.
- The search string is taken from a URL formed as `base + "?" + ...`. The base is `protocol//host + pathname` and is assumed to hold no `?` or `#` (`Navigation.IsBase`). Parsing of the origin is not modelled.
- Records are maps from field code to an optional string value. Field types other than text (checkbox arrays, numbers as JSON numbers) are not modelled; kintone returns numbers as strings.
- The bar chart's `window.barChartInstance.destroy()` and `window.myChart.destroy()`: global object state is not modelled.
