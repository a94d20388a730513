# Municipal Money `incexp` query translation, modelled in Dafny

The back end of this application answers two kinds of request about South African municipal
finances. It turns a free-text request ("revenue of Cape Town from 2014 to 2019") into a URL on
the Municipal Money `incexp` cube API. It also turns a form's query arguments into the parameters
of an `aggregate` request and then post-processes the cells the cube answers with.

The text-to-URL pipeline (`Main/Backend/municpal_api_request.py`) works in these steps:

- The language model's answer is normalised: typographic quotes, dashes, non-breaking spaces and
  backticks are replaced, then the text is stripped.
- The first balanced `{...}` object in the answer is cut out. It is read as the intent: endpoint,
  cuts, drilldown, aggregates, order and page size.
- The item-code resolver asks the model for item codes. A JSON array in its reply yields the
  elements that are four-digit codes. Any other reply falls back to the standalone four-digit
  numbers in the text. Either way duplicates are dropped and first-appearance order is kept.
- The years the request mentions are extracted. There are three sources: hyphenated ranges,
  `between … and …` / `from … to …` phrases, and standalone `20dd` years. The years come back
  sorted and distinct.
- The model's cuts are overridden by the found codes and years.
- The cut parameter (`dim:v1;v2|dim2:…`) and the URL are built, and the URL is validated.

The two form handlers build the fixed `aggregate` request:

- The main application is `Main/app.py`. It also names every cell after the municipality, formats
  non-zero amounts, and sorts the cells by amount, largest first.
- The back-end service's variant is `Main/Backend/app.py`. It defaults the amount type to `AUDA`
  and the period to the year.

Modules follow those components:

| module | file |
|---|---|
| `Wrappers`, `Text` (Python string helpers) | `text.dfy` |
| `IntentModel` (the JSON intent) | `intent.dfy` |
| `TextNormalizer` | `normalizer.dfy` |
| `JsonExtractor` | `json_extract.dfy` |
| `CutParam` | `cut_param.dfy` |
| `IncexpUrl` | `incexp_url.dfy` |
| `ItemCodes` | `item_codes.dfy` |
| `YearExtractor` | `years.dfy` |
| `QueryPipeline` | `pipeline.dfy` |
| `DirectQuery` (what the two handlers share) | `direct_query.dfy` |
| `MainApp` | `main_app.dfy` |
| `BackendApp` | `backend_app.dfy` |

The source changes state step by step in several places: the replacement loop, the brace-depth
scan, the grouping of cut values into a dictionary, the `seen` sets of the resolver, the year
set, cell annotation and the in-place sort. Each of those is a method with a loop. Each such
method is proved against a specification function, and the source's promises are proved about
that function as lemmas.

Where the code and its own documentation disagree, the model follows the code:

- When the resolver finds codes, the `item.code` cuts the model proposed are kept, and the found
  codes are appended after them (lines 298-300). They are not discarded.
- `build_cut_param` quotes per cut entry (lines 142-145). Values of one dimension that come from
  several single-valued entries are each formatted as single values. The docstring says every
  value of a multi-valued dimension is quoted; that holds only for the values of one list entry.

## Model

| member | source | states |
|---|---|---|
| TextNormalizer.NormalizeText | Main/Backend/municpal_api_request.py:70-78 | The replacement loop followed by the strip computes `Normalized(txt)`: the text translated character by character, then stripped. |
| TextNormalizer.ReplaceChar | Main/Backend/municpal_api_request.py:77 | `str.replace` leaves only characters of the text other than the key, or characters of the replacement. |
| TextNormalizer.ReplacementsAreClean | Main/Backend/municpal_api_request.py:71-75 | No replacement value contains a key of the table. Each value is made of `"`, `'`, `-` and space only. |
| TextNormalizer.ReplaceCharConcat | Main/Backend/municpal_api_request.py:77 | One replacement distributes over concatenation. |
| TextNormalizer.ApplyAllConcat | Main/Backend/municpal_api_request.py:76-77 | The whole sequence of replacements distributes over concatenation. |
| TextNormalizer.ReplaceCharAbsent | Main/Backend/municpal_api_request.py:77 | Replacing a character that does not occur changes nothing. |
| TextNormalizer.ApplyAllNoKeys | Main/Backend/municpal_api_request.py:76-77 | Text without any key is left unchanged by the loop. |
| TextNormalizer.ApplyAllChar | Main/Backend/municpal_api_request.py:76-77 | For a table whose values hold no key, the loop maps one character to its table value, or to itself. |
| TextNormalizer.ApplyAllIsTranslate | Main/Backend/municpal_api_request.py:76-77 | Sequential replacement equals a one-pass character translation, so the order of the dictionary does not matter. |
| TextNormalizer.TranslateRemovesLookalikes | Main/Backend/municpal_api_request.py:71-77 | After translation no curly quote, en/em/figure dash, non-breaking space or backtick remains. |
| TextNormalizer.LookalikeIsKey | Main/Backend/municpal_api_request.py:71-75 | Every lookalike character is a key of the table. |
| TextNormalizer.LookupIsClean | Main/Backend/municpal_api_request.py:71-75 | A table value holds no lookalike character. |
| TextNormalizer.NormalizedIsClean | Main/Backend/municpal_api_request.py:70-78 | Normalised text has no lookalike character and neither starts nor ends with whitespace. |
| JsonExtractor.ExtractFirstJson | Main/Backend/municpal_api_request.py:80-93 | No `{` gives nothing. Otherwise the result exists exactly when the brace depth from the first `{` returns to zero, and it is the text from that `{` to the first such closing `}`. |
| JsonExtractor.DepthPositiveBeforeClose | Main/Backend/municpal_api_request.py:84-92 | Before the depth first returns to zero it stays positive, and it never goes negative. |
| JsonExtractor.ExtractedObjectShape | Main/Backend/municpal_api_request.py:80-93 | The extracted text starts at the first `{`, ends with `}`, and its braces balance. |
| JsonExtractor.UnclosedYieldsNothing | Main/Backend/municpal_api_request.py:85-93 | If the depth never comes back to zero, there is no closing position. |
| CutParam.FormatCutValue | Main/Backend/municpal_api_request.py:95-115 | Years are never quoted. Item codes and forced values are always quoted. Other values are left bare exactly when they are all digits or contain `-`. |
| CutParam.FirstAccepted | Main/Backend/municpal_api_request.py:126-130 | The position of the first entry the loop accepts for a dimension, with no accepted entry for it before. |
| CutParam.BuildCutParam | Main/Backend/municpal_api_request.py:117-149 | The built string is `CutParamOf(cuts)`: the dimensions in first-appearance order, each with its formatted values joined by `;`, the groups joined by a pipe. A non-list `cuts` gives the empty string. |
| CutParam.GroupValues | Main/Backend/municpal_api_request.py:123-145 | The grouping loop yields the dimensions in first-appearance order. For each it yields all its formatted values in entry order, with no other keys. |
| CutParam.AddEntry | Main/Backend/municpal_api_request.py:126-145 | One iteration keeps the grouping invariant for one more entry: it adds the dimension on first appearance and appends the entry's formatted values. |
| CutParam.AppendFormatted | Main/Backend/municpal_api_request.py:140-145 | The inner loop appends each value formatted, quoted when the entry has more than one value. |
| CutParam.PrefixStep | Main/Backend/municpal_api_request.py:126-145 | One more entry changes only its own dimension's values, and adds that dimension when it is new. |
| CutParam.DimsDistinct | Main/Backend/municpal_api_request.py:138-139 | No dimension appears twice in the cut. |
| CutParam.DimsComplete | Main/Backend/municpal_api_request.py:127-139 | A dimension appears exactly when some entry is a dict with that truthy dimension and a non-None value. |
| CutParam.ValuesOfAbsent | Main/Backend/municpal_api_request.py:130 | A dimension no entry is accepted for has no values. |
| CutParam.ValuesOfSingle | Main/Backend/municpal_api_request.py:130-145 | A single entry contributes its formatted values to its dimension only. |
| CutParam.FirstAcceptedExtend | Main/Backend/municpal_api_request.py:126-139 | Appending an entry does not move a dimension's first appearance. |
| CutParam.DimsFirstAppearanceOrder | Main/Backend/municpal_api_request.py:138-148 | Dimensions come out in the order of their first accepted entry (dict insertion order). |
| CutParam.FormatKeepsSafe | Main/Backend/municpal_api_request.py:102-115 | Formatting adds no pipe or semicolon to a value free of them. |
| CutParam.QuoteKeepsSafe | Main/Backend/municpal_api_request.py:108 | Quoting adds no pipe or semicolon. |
| CutParam.FormattedSafe | Main/Backend/municpal_api_request.py:140-145 | All formatted values of an entry are free of separators when its values are. |
| CutParam.SeparableValues | Main/Backend/municpal_api_request.py:138-148 | A present dimension has at least one value, and none holds a separator. |
| CutParam.SeparableDims | Main/Backend/municpal_api_request.py:148 | The dimension names of separable entries hold no pipe or colon. |
| CutParam.ParseSegmentOf | Main/Backend/municpal_api_request.py:148 | `dim:v1;v2` splits back into the dimension and its values. |
| CutParam.CutStringRoundTrip | Main/Backend/municpal_api_request.py:148-149 | Splitting the cut on pipes, colons and semicolons gives back each dimension with exactly its grouped values, in order. |
| CutParam.TrimQuoted | Main/Backend/municpal_api_request.py:102 | Stripping `"` from a quoted value whose ends are not `"` gives the value back. |
| CutParam.PlainText | Main/Backend/municpal_api_request.py:102 | A value without quotes at its ends passes the strip unchanged. |
| CutParam.QuotedText | Main/Backend/municpal_api_request.py:102 | An already quoted value is unquoted before formatting. |
| CutParam.FormatIdempotent | Main/Backend/municpal_api_request.py:102-115 | Formatting a formatted value gives the same text, so re-quoting never doubles quotes. |
| CutParam.SameTextSameFormat | Main/Backend/municpal_api_request.py:102 | Formatting depends only on the value's `str` text. |
| CutParam.SingleValue | Main/Backend/municpal_api_request.py:134-137 | A string without `;` or `,` stays one unforced value. |
| CutParam.SingleEntryCut | Main/Backend/municpal_api_request.py:148-149 | One accepted entry gives `dim:` followed by its formatted values joined by `;`. |
| CutParam.TwoEntryGrouping | Main/Backend/municpal_api_request.py:138-145 | Two entries for different dimensions give two groups in entry order. |
| CutParam.TwoEntryCut | Main/Backend/municpal_api_request.py:148-149 | Two entries for different dimensions give their two segments joined by a pipe. |
| CutParam.YearBareItemQuoted | Main/Backend/municpal_api_request.py:104-108 | A year entry and an item-code entry give the bare year segment and the quoted code segment, joined by a pipe. |
| CutParam.BareYear | Main/Backend/municpal_api_request.py:104-105 | Year values are never quoted. |
| CutParam.QuotedCode | Main/Backend/municpal_api_request.py:107-108 | Item codes are always quoted. |
| CutParam.TwoValuesQuoted | Main/Backend/municpal_api_request.py:142-143 | A two-valued list entry outside the year dimension gives `dim:"a";"b"`. |
| CutParam.TwoValuesFormatted | Main/Backend/municpal_api_request.py:140-143 | Both values of a two-valued list entry are quoted. |
| CutParam.FormattedPair | Main/Backend/municpal_api_request.py:142-143 | Values of a multi-valued entry are formatted with forced quoting. |
| CutParam.ForcedQuote | Main/Backend/municpal_api_request.py:110-111 | Forced quoting quotes any non-year value, digits included. |
| IncexpUrl.BuildIncexpUrl | Main/Backend/municpal_api_request.py:151-175 | The URL is the base, `/cubes/incexp/`, the endpoint (`facts` by default), `?` and the `k=v` pairs joined by `&`, with no encoding. |
| IncexpUrl.CollectParams | Main/Backend/municpal_api_request.py:155-171 | The parameter loop yields `cut` when the cut is non-empty, then `drilldown` only for a truthy list, then `aggregates` when truthy, `order` when truthy, and always `pagesize`. |
| IncexpUrl.PrependParam | Main/Backend/municpal_api_request.py:155-171 | Adding a parameter of smaller rank in front keeps the keys in order. |
| IncexpUrl.ParamsInOrder | Main/Backend/municpal_api_request.py:155-171 | The keys are distinct and in the fixed order cut, drilldown, aggregates, order, pagesize, with pagesize last. |
| IncexpUrl.AssembleInOrder | Main/Backend/municpal_api_request.py:155-171 | Any choice of optional parameters keeps that order. |
| IncexpUrl.TailInOrder | Main/Backend/municpal_api_request.py:165-171 | The aggregates, order and pagesize tail is in order. |
| IncexpUrl.ParamsValues | Main/Backend/municpal_api_request.py:157-171 | Each key maps to its value exactly when the source adds it, and `pagesize` is always there. |
| IncexpUrl.AssembleValues | Main/Backend/municpal_api_request.py:157-171 | Lookup in the assembled parameters gives each optional value, and the page size. |
| IncexpUrl.LookupPrepend | Main/Backend/municpal_api_request.py:155-171 | Lookup after adding a parameter finds it, or defers to the rest. |
| IncexpUrl.DefaultPagesizeIsTwenty | Main/Backend/municpal_api_request.py:19 | Without a page size the URL asks for 20. |
| IncexpUrl.QueryRoundTrip | Main/Backend/municpal_api_request.py:174 | When no value holds `&`, splitting the query on `&` and `=` gives back every name and value in order. |
| IncexpUrl.NamesArePlain | Main/Backend/municpal_api_request.py:159-171 | Parameter names are non-empty, made only of the letters `a` to `z`, and so hold no `&`, `=` or `#`. |
| IncexpUrl.PrefixPlain | Main/Backend/municpal_api_request.py:15 | The base URL and cube path hold no `#` or `?`. |
| IncexpUrl.PrefixFacts | Main/Backend/municpal_api_request.py:15 | The fixed prefix is 55 characters and ends in `/api/cubes/incexp/`. |
| IncexpUrl.BuiltShapeIsValid | Main/Backend/municpal_api_request.py:177-182 | Prefix, endpoint without `#`, `?` and a query not starting with `#` always validate. |
| IncexpUrl.FragmentAfterPrefix | Main/Backend/municpal_api_request.py:179 | A fragment can only start after the `#`-free prefix. |
| IncexpUrl.QueryAfterPrefix | Main/Backend/municpal_api_request.py:179-180 | After the prefix, the path contains the cube path and the query is non-empty. |
| IncexpUrl.BuiltUrlIsValid | Main/Backend/municpal_api_request.py:151-182 | Every URL the builder makes from an endpoint without `#` passes the validator. |
| IncexpUrl.FragmentInEndpointRejected | Main/Backend/municpal_api_request.py:153-180 | An endpoint whose first `#` comes before any `?` makes the URL invalid. |
| IncexpUrl.FragmentShapeRejected | Main/Backend/municpal_api_request.py:177-180 | The same for the built shape with any query. |
| IncexpUrl.FragmentCut | Main/Backend/municpal_api_request.py:179-180 | A `#` before any `?` leaves no query. |
| IncexpUrl.CutAtHash | Main/Backend/municpal_api_request.py:179-180 | A URL whose `#` follows a `#`- and `?`-free part has an empty query. |
| IncexpUrl.NoQueryRejected | Main/Backend/municpal_api_request.py:180 | A URL without `?` is invalid. |
| ItemCodes.Passing | Main/Backend/municpal_api_request.py:244-246 | Only texts that pass the check are kept. |
| ItemCodes.Dedup | Main/Backend/municpal_api_request.py:242-248 | The same elements, each once. |
| ItemCodes.FindCodes | Main/Backend/municpal_api_request.py:255 | The scan returns only four-digit codes. |
| ItemCodes.UniqueListedCodes | Main/Backend/municpal_api_request.py:240-249 | The array branch returns the distinct texts of the elements that pass the check, in order of first appearance. The check is a parameter: `MatchesAsWritten` as at line 246, or the corrected full-match `IsItemCode` (see "## Findings"). |
| ItemCodes.UniqueFoundCodes | Main/Backend/municpal_api_request.py:252-259 | The fallback returns the distinct standalone four-digit numbers, in order of first appearance. |
| ItemCodes.Resolved | Main/Backend/municpal_api_request.py:213-261 | The resolver's result for a check: always distinct, and each text passes the check or is a four-digit code. |
| ItemCodes.ResolveItemCodes | Main/Backend/municpal_api_request.py:213-261 | The resolver with the check as a parameter computes `Resolved`. A failed request gives `[]`. A JSON array gives its distinct passing elements. Anything else gives the distinct standalone numbers of the normalised reply. With `MatchesAsWritten` this is the resolver as written. |
| ItemCodes.SanitizeItemCodes | Main/Backend/municpal_api_request.py:213-261 | The resolver with the corrected full-match check (see "## Findings"). A failed request gives `[]`. A JSON array gives its distinct code elements, and anything else gives the distinct standalone numbers of the normalised reply. The result is always distinct four-digit codes. |
| ItemCodes.DedupOfDistinct | Main/Backend/municpal_api_request.py:242-248 | A list without repeats is unchanged by deduplication. |
| ItemCodes.DedupIdempotent | Main/Backend/municpal_api_request.py:242-248 | Deduplicating twice is deduplicating once. |
| ItemCodes.FirstIndexAppend | Main/Backend/municpal_api_request.py:244-248 | Appending does not move a first occurrence. |
| ItemCodes.DedupKeepsFirstOrder | Main/Backend/municpal_api_request.py:241-248 | The codes come out in order of first appearance. |
| ItemCodes.PassingExact | Main/Backend/municpal_api_request.py:244-248 | A text is kept exactly when some element's `str` passes the check. |
| ItemCodes.NoCodeInsideCode | Main/Backend/municpal_api_request.py:255 | No standalone four-digit number starts inside another. |
| ItemCodes.FindCodesComplete | Main/Backend/municpal_api_request.py:255 | The scan finds every standalone four-digit number. |
| ItemCodes.FindCodesSound | Main/Backend/municpal_api_request.py:255 | Everything the scan finds stands alone in the text. |
| ItemCodes.FoundCodesExact | Main/Backend/municpal_api_request.py:252-259 | The fallback yields exactly the standalone four-digit numbers of the text. |
| ItemCodes.NewlineCodeAdmitted | Main/Backend/municpal_api_request.py:246 | As written, `"0100\n"` passes the check and is returned, though it is not a four-digit code. |
| ItemCodes.NewlineAfterAnyCodeAdmitted | Main/Backend/municpal_api_request.py:246 | As written, any code followed by a newline passes the check. |
| ItemCodes.ResolverAsWrittenAdmitsNewline | Main/Backend/municpal_api_request.py:238-249 | For a reply that reads as the array `["0100\n"]`, the resolver as written returns `["0100\n"]` and the corrected one returns `[]`. |
| ItemCodes.ListedExamplePassing | Main/Backend/municpal_api_request.py:244-246 | For `["0100", 100, "0100", "0200"]` only the three string codes pass; `100` does not. |
| ItemCodes.DedupExample | Main/Backend/municpal_api_request.py:242-248 | `["0100","0100","0200"]` deduplicates to `["0100","0200"]`. |
| ItemCodes.ListedCodesExample | Main/Backend/municpal_api_request.py:238-249 | The array branch turns `["0100", 100, "0100", "0200"]` into `["0100","0200"]`. |
| YearExtractor.YearAt | Main/Backend/municpal_api_request.py:272-282 | `20\d{2}` matches at a position exactly when `2`, `0` and two digits stand there. The year lies in 2000..2099. |
| YearExtractor.FindRanges | Main/Backend/municpal_api_request.py:272 | Both ends of every hyphenated range found are in 2000..2099. |
| YearExtractor.SkipSpaces | Main/Backend/municpal_api_request.py:277 | `\s*` consumes the maximal run of whitespace. |
| YearExtractor.PhraseAt | Main/Backend/municpal_api_request.py:277 | A worded-range match advances the scan. |
| YearExtractor.FindPhrases | Main/Backend/municpal_api_request.py:277 | Both ends of every worded range found are in 2000..2099. |
| YearExtractor.FindBare | Main/Backend/municpal_api_request.py:282 | Every standalone year found is in 2000..2099. |
| YearExtractor.Span | Main/Backend/municpal_api_request.py:274 | `range(a, b + 1)` holds exactly the years from `a` to `b`. |
| YearExtractor.ExtractYearsFromPrompt | Main/Backend/municpal_api_request.py:263-287 | Every returned text is the decimal of a wanted year. Every wanted year is returned. The list is strictly ascending. |
| YearExtractor.CollectYears | Main/Backend/municpal_api_request.py:269-283 | The three scans together collect exactly the wanted years. |
| YearExtractor.AddYears | Main/Backend/municpal_api_request.py:282-283 | Adding the standalone years one by one adds exactly them. |
| YearExtractor.AddSpans | Main/Backend/municpal_api_request.py:272-279 | Adding each range in turn adds exactly the years the ranges cover. |
| YearExtractor.AscendingTexts | Main/Backend/municpal_api_request.py:286-287 | `sorted` then `str` gives each year of the set once, as its decimal text, in ascending order. |
| YearExtractor.DecimalsOfAscending | Main/Backend/municpal_api_request.py:286-287 | The decimal texts of an ascending list of the whole set read back as its years, all of them, ascending. |
| YearExtractor.SpansInCentury | Main/Backend/municpal_api_request.py:272-279 | Ranges whose ends lie in 2000..2099 cover only years in 2000..2099. |
| YearExtractor.WantedInCentury | Main/Backend/municpal_api_request.py:263-287 | Every extracted year lies in 2000..2099. |
| YearExtractor.SpansExact | Main/Backend/municpal_api_request.py:274-279 | A year is covered exactly when some range includes it. |
| YearExtractor.NoBareInsideYear | Main/Backend/municpal_api_request.py:282 | No standalone year starts inside another. |
| YearExtractor.FindBareComplete | Main/Backend/municpal_api_request.py:282 | The scan finds every standalone `20dd`. |
| YearExtractor.FindBareSound | Main/Backend/municpal_api_request.py:282 | Every year the scan finds stands alone in the text. |
| YearExtractor.BareYearsExact | Main/Backend/municpal_api_request.py:282-283 | The standalone years found are exactly those the `\b20\d{2}\b` occurrences denote. |
| YearExtractor.RangeEndsKept | Main/Backend/municpal_api_request.py:272-274 | Both ends of a hyphenated range are extracted, even when the range is written backwards. |
| YearExtractor.RangeExpanded | Main/Backend/municpal_api_request.py:272-279 | Every year between the ends of a matched range is extracted. |
| YearExtractor.WantedSources | Main/Backend/municpal_api_request.py:269-283 | An extracted year is covered by a hyphenated or worded range, or stands alone. |
| YearExtractor.NoPhraseWithoutOpening | Main/Backend/municpal_api_request.py:277 | Without `b` or `f` in either case there is no worded range. |
| YearExtractor.HyphenRangeExample | Main/Backend/municpal_api_request.py:266 | `2017-2020` gives 2017, 2018, 2019 and 2020. |
| YearExtractor.NoRangeWithoutHyphen | Main/Backend/municpal_api_request.py:272 | Without a hyphen there is no hyphenated range. |
| YearExtractor.BackwardRangeExample | Main/Backend/municpal_api_request.py:272-283 | `2020-2017` adds no range, only its two standalone ends. |
| YearExtractor.FromExampleLayout | Main/Backend/municpal_api_request.py:266 | `From 2014 to 2019` has the stated character layout. |
| YearExtractor.FromLayoutWords | Main/Backend/municpal_api_request.py:277 | In that layout `From` opens a worded range and `to` joins it, ignoring case. |
| YearExtractor.WordedRangeScan | Main/Backend/municpal_api_request.py:277 | The worded-range scan of `From 2014 to 2019` finds 2014 to 2019. |
| YearExtractor.WordedRangeBare | Main/Backend/municpal_api_request.py:272-282 | The same text has standalone years 2014 and 2019 and no hyphenated range. |
| YearExtractor.FromLayoutBare | Main/Backend/municpal_api_request.py:272-282 | Any text with that layout has standalone years 2014 and 2019 and no hyphenated range. |
| YearExtractor.NoBareBetween | Main/Backend/municpal_api_request.py:282 | The scan skips a stretch without `2`. |
| YearExtractor.WordedRangeExample | Main/Backend/municpal_api_request.py:266-287 | `From 2014 to 2019` gives the years 2014 to 2019. |
| QueryPipeline.GetIncexpUrlFromUserRequest | Main/Backend/municpal_api_request.py:289-314 | An empty intent is an error. Malformed cuts are an error. Otherwise the URL is built from the overridden cuts and returned exactly when it validates. A returned URL always validates, and an invalid URL is possible only when the endpoint holds `#`. |
| QueryPipeline.WithDimWithout | Main/Backend/municpal_api_request.py:302-306 | Filtering out a dimension removes all its cuts and keeps every other dimension's cuts in order. |
| QueryPipeline.WithDimAppend | Main/Backend/municpal_api_request.py:299-308 | An appended cut joins its own dimension's cuts. |
| QueryPipeline.WithoutKeepsObjects | Main/Backend/municpal_api_request.py:302-306 | Filtering keeps only object cuts. |
| QueryPipeline.WithoutRemoves | Main/Backend/municpal_api_request.py:302-306 | Filtering keeps entries of the input, none of the removed dimension. |
| QueryPipeline.AppendObject | Main/Backend/municpal_api_request.py:299-308 | Appending an object keeps all cuts objects. |
| QueryPipeline.ItemCutsPolicy | Main/Backend/municpal_api_request.py:297-302 | With found codes, the model's item cuts stay and one cut of the codes follows them. Without codes, no item cut is left. |
| QueryPipeline.YearCutsPolicy | Main/Backend/municpal_api_request.py:305-309 | The model's year cuts all go. Exactly one cut holding the extracted years, if any, is last. |
| QueryPipeline.OtherCutsKept | Main/Backend/municpal_api_request.py:294-309 | Cuts of every other dimension pass through untouched and in order. |
| QueryPipeline.OverrideFailures | Main/Backend/municpal_api_request.py:294-306 | The override fails exactly when `cuts` is a scalar (other than an empty string left untouched) or holds a non-object element. |
| QueryPipeline.OverriddenCutsAreObjects | Main/Backend/municpal_api_request.py:299-311 | Every cut after the override is an object. |
| DirectQuery.QuotedAll | Main/app.py:59 | Each code wrapped in double quotes, one for one. |
| DirectQuery.ReadableConcat | Main/app.py:49-60 | Readable segment lists stay readable when concatenated. |
| DirectQuery.DimensionsPlain | Main/app.py:50-60 | The dimension names hold no pipe and no colon. |
| DirectQuery.JoinSegmentsRoundTrip | Main/app.py:72 | The pipe-joined `dim:v1;v2` segments read back as the segments they were built from. |
| DirectQuery.QuotedAllReadable | Main/app.py:59 | Quoting keeps codes free of separators. |
| DirectQuery.DrilldownHasSevenFields | Main/app.py:63-68 | The fixed drilldown splits into the seven fields. |
| DirectQuery.NameValueCases | Main/app.py:27-34 | Each of the six table codes (CPT, JHB, TSH, BUF, EKU, ETH) gets its display name; other codes pass through, and a missing one gives `None`. |
| MainApp.GetMunicipalityIncexp | Main/app.py:47-75 | The parameters are the drilldown, the cut of the `CutSegments` segments, `amount.sum` and page size 10000. |
| MainApp.SegmentsReadable | Main/app.py:49-60 | With separator-free arguments, every segment is readable. |
| MainApp.CutReadsBack | Main/app.py:49-60 | The cut reads back as year, amount type and quoted municipality, then the period exactly when truthy, then every item code quoted exactly when there are codes. |
| MainApp.CutSegmentsShape | Main/app.py:49-60 | The segments have that shape and order. |
| MainApp.IntTextPlain | Main/app.py:50 | An integer year's text holds no separator. |
| MainApp.ParseItemCodes | Main/app.py:107-112 | Blank or missing text gives `None`. Otherwise at least one comma-free piece is returned. |
| MainApp.StripPieces | Main/app.py:112 | One stripped piece per piece, using only that piece's characters. |
| MainApp.CleanJoinStrips | Main/app.py:107 | Comma-joined clean codes are non-empty and unchanged by `strip`. |
| MainApp.StripPiecesClean | Main/app.py:112 | Clean codes pass the per-piece stripping unchanged. |
| MainApp.ParseItemCodesRoundTrip | Main/app.py:107-112 | Joining clean codes with commas and parsing gives them back. |
| MainApp.MunicipalityDataParams | Main/app.py:103-121 | The handler's request uses the parsed codes and the period defaulted to the year. |
| MainApp.PeriodDefaultsToYear | Main/app.py:119 | The period segment is there unless the period is missing or empty and the year is 0. A missing period shows as the year. |
| MainApp.Insert | Main/app.py:135 | Insertion adds one element. |
| MainApp.SortedByAmount | Main/app.py:135 | Sorting keeps the length. |
| MainApp.SortByAmount | Main/app.py:135 | The in-place sort leaves `SortedByAmount` of the cells. |
| MainApp.InsertAt | Main/app.py:135 | One insertion step makes the prefix `Insert(prefix, x)` and leaves the rest alone. |
| MainApp.ShiftSmaller | Main/app.py:135 | The shift loop moves right exactly the preceding cells with a smaller key and stops at one whose key is at least `x`'s. |
| MainApp.ShiftedShape | Main/app.py:135 | After the shift the prefix is the old prefix with `x` inserted at the gap. |
| MainApp.InsertPlace | Main/app.py:135 | `Insert` puts `x` after every element whose key is at least `x`'s. |
| MainApp.InsertDescending | Main/app.py:135 | Inserting into a descending list keeps it descending. |
| MainApp.DescendingAppend | Main/app.py:135 | Appending a smallest element keeps a list descending. |
| MainApp.InsertPermutes | Main/app.py:135 | Insertion adds exactly the one element. |
| MainApp.InsertBounds | Main/app.py:135 | Insertion keeps a lower bound on the keys. |
| MainApp.SortedByAmountIsSortedPermutation | Main/app.py:135 | The sorted cells are in descending order of amount and are a permutation of the input. |
| MainApp.WithKeyAppend | Main/app.py:135 | An appended cell joins its own key's cells. |
| MainApp.InsertStable | Main/app.py:135 | Insertion puts `x` after every cell of its own key. |
| MainApp.PassedOver | Main/app.py:135 | A cell that `x` moves in front of has a different key. |
| MainApp.SortedByAmountIsStable | Main/app.py:135 | Cells with equal amounts keep their relative order. |
| MainApp.AnnotatedAll | Main/app.py:129-132 | Annotation maps each cell one to one. |
| MainApp.ProcessCells | Main/app.py:127-135 | The cells end up annotated (named, with non-zero amounts formatted), then sorted by amount, largest first. |
| MainApp.AnnotatedFields | Main/app.py:129-132 | A cell gets the name, and a formatted amount exactly when its amount is truthy. No other field changes, and the sort key is kept. |
| BackendApp.StrippedCodes | Main/Backend/app.py:52 | Splitting on commas gives at least one stripped piece. |
| BackendApp.GetMunicipalityData | Main/Backend/app.py:37-62 | The parameters are the drilldown, the cut of the `BackendSegments` segments, `amount.sum` and page size 10000. |
| BackendApp.StrippedCodesPlain | Main/Backend/app.py:52 | Pieces of separator-free text are separator-free. |
| BackendApp.SegmentsReadable | Main/Backend/app.py:44-53 | With separator-free arguments, every segment is readable. |
| BackendApp.CutReadsBack | Main/Backend/app.py:38-53 | The cut reads back as year, amount type (`AUDA` when missing), period (the year when missing or empty) and quoted municipality, then every stripped code quoted exactly when the argument is non-empty. |
| BackendApp.BackendSegmentsShape | Main/Backend/app.py:40-53 | The segments have that shape and order. |
| BackendApp.AnnotateCells | Main/Backend/app.py:70-71 | Every cell gets the municipality's name, and nothing else in it changes. |

## Left out

- Every call to the language model is left out. The reply text is a parameter of the resolver (`None` when the metadata request or the model call raises), and the intent is a parameter of the pipeline stage. `ask_model_for_intent` (lines 187-197) is not part of this model beyond its two helpers, `normalize_text` and `extract_first_json`.
- `json.loads` is a parameter (`loads`) of `ItemCodes.ResolveItemCodes` and `ItemCodes.SanitizeItemCodes`. The parsing of the intent is not modelled.
- The HTTP requests are left out. This covers the item metadata request (lines 218-222), `fetch_valid_item_codes`, `call_municipal_api`, and the `aggregate` requests of both form handlers. The handlers' models stop at the parameter list they pass to `requests.get`, so the URL encoding `requests` applies is not modelled.
- Flask routing, CORS, logging, `jsonify` and error responses are left out. So are the index page route of `Main/app.py` and the `/api/query` route of `Main/Backend/app.py` (it only chains the pipeline and the HTTP call).
- `IncexpUrl.IsValidIncexpUrl` approximates `urlparse` on the URLs the builder makes: the fragment starts at the first `#` and the query at the first `?`. Scheme and netloc parsing, and `urlparse` raising, are not modelled.
- Floating point is left out. Amounts are `real`, and the `R {amount:,.2f}` formatting is a parameter `format` of `MainApp.ProcessCells`.
- Python's Unicode `\d` and `\w` in the regular expressions, and `str.isdigit` in `format_cut_value` (line 113), are restricted to ASCII digits and word characters. A value such as `²`, which `str.isdigit` accepts, stays bare in the source but is quoted in the model. Whitespace (`\s` and `str.strip()`) uses the full set that `str.isspace` accepts.
- `int(request.args.get('year'))` in `Main/app.py` is not modelled: the year is an integer parameter, and a missing or non-numeric year, which raises, is outside the model.
- MainApp.ProcessCells: requires that no cell holds a non-empty string amount. For such an amount the formatting `f"R {amount:,.2f}"` at Main/app.py line 132 raises `ValueError`, and the handler answers with an error (line 139) before anything is sorted.
- DirectQuery.Value: a cell's values are restricted to numbers, strings and null. A boolean `amount.sum` (which the source formats as `R 1.00` and sorts as 1), and booleans, arrays or objects in any other field, are left out.
- JSON values in cuts are restricted to null, booleans, integers and strings, and arrays of those. Floats, objects as cut values, non-string dimensions and non-string drilldown or aggregates items are left out.
- IntentModel.Intent: the intent's fields cannot take every JSON shape the source handles:
  - A truthy non-string scalar as `aggregates` (`5`, `true`) is left out. The source raises `TypeError` in `",".join` (line 166), so the pipeline fails.
  - An object as `aggregates` is left out. The source joins its keys.
  - An object as `cuts` is left out. Without codes, `{}` gives no cut. A non-empty object fails at `c.get` (line 302), and any object fails at `.append` (line 299) when codes are found.
  - Arrays or objects as `endpoint`, `order` or `pagesize` are left out. The source writes them with `str()`.
- Python's exception types in the pipeline stage are collapsed into the `PipelineError` cases. The exception messages are not modelled.
- `dataForForecast.py` and the React front end are not part of this model.

## Findings

| source | as written | input that shows it | evidently intended | confidence | as-written member | corrected member |
|---|---|---|---|---|---|---|
| Main/Backend/municpal_api_request.py:246 | `re.match(r'^\d{4}$', code_str)` accepts a code followed by a newline, because `$` also matches before a final newline | the model replies with the JSON array `["0100\n"]`, so the resolver returns `"0100\n"` and the cut holds `item.code:"0100\n"` | only exactly four digits pass (`re.fullmatch(r'\d{4}')`) | not executed | ItemCodes.ResolverAsWrittenAdmitsNewline | ItemCodes.SanitizeItemCodes |
