# AI Video Analysis Tool — a Dafny model of its core

The application takes a YouTube link and extracts the video id from it. It
then builds a metadata record for the video: the title comes from an oEmbed
lookup, and the statistics are random. It downloads the thumbnail as base64
and asks Gemini for a structured report. The report's title suggestions are
sanitised to exactly three. Each report is stored, newest first, in a
per-video history of at most ten entries. The page shows the newest report,
with colour-banded score rings.

This project models that core in Dafny and proves what the code promises.

| file | module | models |
|---|---|---|
| `wrappers.dfy` | `Wrappers` | `Option` and `Result` |
| `js_text.dfy` | `JsText` | ECMAScript whitespace, `String.prototype.trim`, the line terminators `.` refuses, and how a template literal prints a non-negative integer |
| `types.dfy` | `Types` | the records of `types.ts` |
| `gemini_service.dfy` | `GeminiService` | the end of `analyzeVideoContent`: parse outcome, title filter / `Set` de-duplication / `slice(0, 3)`, the placeholder loop, error wrapping |
| `history_service.dfy` | `HistoryService` | the persisted history: a class `HistoryStore` over the stored value, and the read-modify-write add with its ten-entry cap |
| `youtube_service.dfy` | `YoutubeService` | `fetchVideoDetails` |
| `video_id.dfy` | `VideoId` | `extractVideoId`: the regular expression written out as the matcher a backtracking engine runs |
| `app.dfy` | `App` | `getBase64FromUrl`, and `handleAnalyzeClick` with the button guard: a class `AppState` over the page state, and the function `ClickOutcome` that specifies one run |
| `score_card.dfy` | `ScoreCard` | `getStrokeColor` |

Outside inputs are parameters:
- the Gemini reply is a `GeminiOutcome`: the request failed, the text was not JSON, or the parsed record;
- the oEmbed response is an `OEmbedOutcome`;
- the four `Math.random()` draws are a `RandomDraws` in their documented ranges;
- the proxy fetch and the file reader are a `ThumbnailFetch`;
- the ISO timestamp is an opaque string;
- whether `localStorage.setItem` succeeds is a boolean;
- what the stored value parses to is a `Stored`: missing, unparseable, or a map.

The awaits in `handleAnalyzeClick` are steps of one method.

How `extractVideoId` is modelled. At each start position, from left to right, the alternatives are tried in order:
1. `[^\/]+\/.+\/`: the first segment runs to the next `/`, and the greedy `.+` takes the last `/` before a line terminator that an 11-character token follows;
2. `v/`, `embed/`, `e/`;
3. `.*[?&]v=`: again the last such parameter before a line terminator;
4. `youtu.be/`, when no `youtube.com/` starts at that position.

For an id token `id`, `https://youtu.be/` + id + anything gives `id`. `https://www.youtube.com/watch?v=` + id and `https://www.youtube.com/embed/` + id give `id` too. Characters after the id are ignored in the shapes named in the table below. They are not ignored in general:
- after an embed id, a further `/<11 id characters>` wins;
- after a watch id, a later `&v=<11 id characters>` wins.

`VideoId.EmbedTrailingSegmentWins` and `VideoId.WatchLaterParameterWins` prove both.

## Model

| member | source | states |
|---|---|---|
| `JsText.TrimStart` | services/geminiService.ts:139 | the result starts with a non-whitespace character, and it is empty exactly when the input is all ECMAScript whitespace |
| `JsText.TrimStartIsSuffix` | services/geminiService.ts:139 | what the leading trim keeps is a suffix of the input, and everything it drops is whitespace |
| `JsText.TrimEnd` | services/geminiService.ts:139 | the result is a prefix of the input ending in a non-whitespace character, and it is empty exactly when the input is all whitespace |
| `JsText.TrimEmptyIff` | services/geminiService.ts:139 | `t.trim()` is falsy (empty) exactly when `t` is all whitespace |
| `JsText.DecimalString` | App.tsx:31 | the printed status consists of decimal digits, with no leading zero for a positive value |
| `JsText.DecimalRoundTrip` | App.tsx:31 | reading the printed digits back gives the number |
| `JsText.DecimalStringInjective` | App.tsx:31 | different statuses print differently |
| `GeminiService.UsableTitles` | services/geminiService.ts:139 | exactly the strings whose trim is non-empty are kept, untrimmed, and never more than the input holds |
| `GeminiService.UsableTitlesKeepOrder` | services/geminiService.ts:139 | the filter keeps input order: of two kept titles, one comes first in the filtered list exactly when it comes first in the parsed array |
| `GeminiService.Dedup` | services/geminiService.ts:139 | `[...new Set(s)]` is duplicate-free, no longer than `s`, and holds exactly the values of `s` |
| `GeminiService.DedupFirstSeenOrder` | services/geminiService.ts:139 | the de-duplicated values appear in the order of their first occurrence in the input |
| `GeminiService.LeadingTitles` | services/geminiService.ts:142 | at most three titles survive the slice |
| `GeminiService.Padded` | services/geminiService.ts:145-155 | padding yields three titles: the kept ones first, then the placeholders in order |
| `GeminiService.SanitizedTitles` | services/geminiService.ts:139-157 | the sanitised list always has exactly three entries |
| `GeminiService.LeadingTitlesAreFirstDistinct` | services/geminiService.ts:138-142 | the kept titles are distinct, untrimmed strings that occur in the input with non-blank trim, in first-seen order, both among the filtered titles and in the parsed array itself; they head the output, and any usable title left out comes after all of them, in both orders, and only once three are kept |
| `GeminiService.LeadingTitlesInInputOrder` | services/geminiService.ts:138-142 | the kept titles occur in the parsed array in the order they are kept, and every usable title of the array that is left out occurs after all of them, once three are kept |
| `GeminiService.SanitizeFixesDistinctTriples` | services/geminiService.ts:139-155 | three distinct non-blank strings come back unchanged |
| `GeminiService.SanitizedTitlesNonBlank` | services/geminiService.ts:139-155 | every output title has a non-blank trim |
| `GeminiService.SanitizedDistinctIff` | services/geminiService.ts:139-155 | the output is duplicate-free exactly when no kept title equals a placeholder used to pad it |
| `GeminiService.SanitizeIdempotentWhenDistinct` | services/geminiService.ts:139-157 | a duplicate-free output is a fixed point of sanitising |
| `GeminiService.DuplicateLadenExample` | services/geminiService.ts:139-155 | `["A","A","B","B","C"]` gives `["A","B","C"]` |
| `GeminiService.SingleTitleExample` | services/geminiService.ts:139-155 | `["OnlyOne"]` gives `["OnlyOne","A/B Test This Title","Try a More Emotional Angle"]` |
| `GeminiService.NoTitlesExample` | services/geminiService.ts:138-157 | an empty or missing titles array gives the three placeholders in order |
| `GeminiService.PlaceholdersNonBlankAndDistinct` | services/geminiService.ts:145-149 | the three placeholders are non-blank and distinct |
| `GeminiService.PlaceholderTitleIsDuplicated` | services/geminiService.ts:139-155 | `["A/B Test This Title"]` yields that title twice, so distinctness is not guaranteed |
| `GeminiService.SanitizeNotIdempotent` | services/geminiService.ts:139-155 | sanitising that duplicated output again changes it |
| `GeminiService.RepeatedPlaceholderFixedPoint` | services/geminiService.ts:139-155 | a list with a repeated placeholder can still come back unchanged |
| `GeminiService.Analysis` | services/geminiService.ts:133-165 | a failed request, a non-JSON reply and a record without `suggestions` all end in the one message 'Failed to get analysis from Gemini API.'; on success every field but the titles is the parsed value, unclamped, and the titles are the sanitised titles of the parsed array (an absent array counting as empty), three of them |
| `GeminiService.AnalyzeVideoContent` | services/geminiService.ts:133-165 | the service with its padding loop yields the result `Analysis` specifies; the loop's index stays below three, so `placeholders[i]` is always in bounds |
| `HistoryService.FullHistory` | services/historyService.ts:9-17 | a missing or unparseable stored value reads as the empty map, and reading never fails |
| `HistoryService.HistoryForVideo` | services/historyService.ts:27-30 | the corrected read: an id without an own entry has the empty list; otherwise its stored list |
| `HistoryService.Prepended` | services/historyService.ts:42 | the new entry is at index 0, the old list follows cut to fit, and the length is `min(old + 1, 10)` |
| `HistoryService.Saved` | services/historyService.ts:19-25 | a failed write is swallowed and leaves the stored value as it was |
| `HistoryService.AddedStore` | services/historyService.ts:32-46 | after an add, the id's list is the old one with the stamped report prepended, and the id is a key; other ids read as before; a failed write changes nothing |
| `HistoryService.AddAllKeepsNewest` | services/historyService.ts:42 | successive adds leave the added entries newest first, followed by the old list, cut to ten |
| `HistoryService.ElevenAddsKeepTenNewest` | services/historyService.ts:42 | after eleven adds the list holds exactly the ten most recent, newest first |
| `HistoryService.AddEachIsAddAll` | services/historyService.ts:32-46 | adding reports one after another to storage acts on the id's list as successive prepends |
| `HistoryService.HistoryStore.SaveFullHistory` | services/historyService.ts:19-25 | the stored value after a write attempt is `Saved` of the old one |
| `HistoryService.HistoryStore.AddAnalysisToHistory` | services/historyService.ts:32-46 | the imperative read-modify-write leaves the stored value `AddedStore` specifies |
| `HistoryService.LookupAsWritten` | services/historyService.ts:34 | `fullHistory[videoId]` yields an inherited member exactly when the id is not an own key and names an `Object.prototype` property |
| `HistoryService.HistoryForVideoAsWritten` | services/historyService.ts:27-30 | the read as written never yields undefined; it yields an inherited member exactly when the id is not an own key and names an `Object.prototype` property, and otherwise the list the corrected read gives |
| `HistoryService.ReadAsWrittenForConstructor` | services/historyService.ts:29 | for the id "constructor" with no list yet, the read as written yields the inherited member, where the corrected read gives the empty list |
| `HistoryService.AddAsWrittenAgrees` | services/historyService.ts:32-46 | away from inherited names, the add as written equals `AddedStore` |
| `HistoryService.AddAsWrittenThrowsForConstructor` | services/historyService.ts:34-42 | for the id "constructor" with no list yet, the add as written throws; the corrected add starts the list with the report |
| `YoutubeService.FetchVideoDetails` | services/youtubeService.ts:13-61 | the id is kept; an ok lookup gives its title verbatim, a non-ok status and an exception give their own placeholder titles, so for an id of whole characters failure never reaches the caller; the description quotes the title; the thumbnail URL, tags, date and duration are fixed; the four counts lie in their ranges |
| `YoutubeService.ThumbnailUrlDeterminesId` | services/youtubeService.ts:50 | two videos never share a thumbnail URL |
| `YoutubeService.DescriptionDeterminesTitle` | services/youtubeService.ts:40-49 | the description determines the title it embeds |
| `YoutubeService.PlaceholderTitlesDiffer` | services/youtubeService.ts:29-33 | the failed-lookup and errored-lookup titles differ |
| `VideoId.MatchAt` | App.tsx:22 | a match from a position captures an id token, right behind a `youtu.be/` there or somewhere behind a `youtube.com/` there |
| `VideoId.ExtractFrom` | App.tsx:22-24 | the result is an id token, the capture of the first matching position; no result means no position matches |
| `VideoId.ExtractVideoId` | App.tsx:21-25 | the result is 11 characters with no `"`, `&`, `?`, `/` or whitespace; null exactly when no start position matches |
| `VideoId.ExtractedIdIsLeftmostCapture` | App.tsx:22-24 | a returned id is the capture of the leftmost match, and a `youtube.com/` or `youtu.be/` precedes it |
| `VideoId.NoPrefixNoId` | App.tsx:22-24 | a URL with neither `youtube.com/` nor `youtu.be/` gives null |
| `VideoId.ShortLinkGivesId` | App.tsx:22 | `https://youtu.be/` + id gives id, whatever follows |
| `VideoId.WatchLinkGivesId` | App.tsx:22 | `https://www.youtube.com/watch?v=` + id gives id, when what follows has no `/` and no further `?v=` or `&v=` |
| `VideoId.EmbedLinkGivesId` | App.tsx:22 | `https://www.youtube.com/embed/` + id gives id, when what follows has no `/` |
| `VideoId.EquivalentLinksAgree` | App.tsx:22 | the short, watch and embed links of one id all give that id |
| `VideoId.EmbedTrailingSegmentWins` | App.tsx:22 | `…/embed/<a>/<b>` gives `b` |
| `VideoId.WatchLaterParameterWins` | App.tsx:22 | `…/watch?v=<a>&v=<b>` gives `b` |
| `App.Base64Payload` | App.tsx:40 | `split(',')[1]` is the comma-free text between the first comma and the next comma or the end, and undefined exactly when there is no comma |
| `App.DataUrlRoundTrip` | App.tsx:40 | a `data:<mime>;base64,<body>` URL gives back its body |
| `App.PayloadAfterFirstComma` | App.tsx:40 | the second comma field is recovered whatever comma fields follow it |
| `App.ThumbnailBase64` | App.tsx:27-45 | only a read data URL resolves, to its payload; a non-ok status rejects with the status message, a non-string result with 'FileReader did not return a string.', a reader failure with a non-Error value, a network failure with what it threw |
| `App.StatusMessageNamesStatus` | App.tsx:31 | the thrown message holds the status, which can be read back, and different statuses give different messages |
| `App.StageFailure` | App.tsx:61-79 | a run throws exactly when the thumbnail helper or the Gemini call does; the first of them to throw is reported |
| `App.ClickOutcome` | App.tsx:47-83 | an invalid URL sets only the invalid-URL error, over cleared state, and leaves loading and storage alone; otherwise loading ends false and the fetched details are shown; a stage error leaves no selection, an empty list, the error text with its details and storage untouched; success lists the id's stored list after the add and selects its element 0 |
| `App.ResultsShownIff` | App.tsx:47-126 | results render after a run exactly when the URL held an id, no stage threw and the id's list is non-empty |
| `App.SavedRunSelectsNewReport` | App.tsx:68-75 | a saved run selects the new stamped report, with three titles, at the head of the id's list |
| `App.FailedSaveShowsPreviousList` | App.tsx:68-75 | when the write fails, the page lists what was stored before, and shows results exactly when that list was non-empty |
| `App.ThumbnailFailureKeepsDetails` | App.tsx:62-126 | after a thumbnail failure the details stay set, yet results do not render |
| `App.StatusMessageFor500` | App.tsx:31 | status 500 is printed as `Status: 500` |
| `App.ProxyStatus500Reported` | App.tsx:30-79 | a 500 from the proxy reaches the page as the stage error with that status |
| `App.ReaderFailureIsUnknownError` | App.tsx:42-79 | a reader failure is reported as 'Unknown error' |
| `App.SecondRunListsBothReports` | App.tsx:68-75 | two saved runs for one video list both reports, newest first, on top of the earlier list |
| `App.ConstructorIsIdToken` | App.tsx:22 | "constructor" is a valid id token |
| `App.ConstructorIdReachesHistory` | App.tsx:22-68 | `https://youtu.be/constructor` yields the id "constructor", on which the history add as written throws and the history read as written yields the inherited `Object` function |
| `App.AppState.HandleAnalyzeClick` | App.tsx:47-83 | the setters, applied step by step, leave the page state and storage that `ClickOutcome` gives |
| `App.AppState.ClickAnalyzeButton` | App.tsx:102-106 | a disabled button, during a run or with an empty URL, changes nothing; an enabled click runs the handler and ends with loading off |
| `App.AppState.EditUrl` | App.tsx:96-103 | the disabled input keeps the URL during a run |
| `App.AppState.SelectAnalysis` | App.tsx:130-134 | picking a listed entry selects it and changes nothing else |
| `ScoreCard.StrokeColor` | components/ScoreCard.tsx:15-20 | highlighted cards use the gradient; otherwise red exactly below 40, yellow exactly in [40, 70), green exactly from 70 |
| `ScoreCard.BandsExhaustiveAndExclusive` | components/ScoreCard.tsx:17-19 | every unhighlighted score gets exactly one of three distinct band colours |
| `ScoreCard.BandsFollowScore` | components/ScoreCard.tsx:17-19 | a higher score never falls to a lower band |

## Left out

- The Gemini SDK call, its schema and its prompt: the reply is an input.
- A JSON reply that is not an object behaves like one without `suggestions`.
- A `titles` value that is not an array is not modelled: a truthy non-array there would make `filter` throw.
- `fetch`, the proxy, `Blob` and `FileReader` are browser I/O. Only their outcomes are modelled. The URL handed to the proxy does not influence the model.
- `localStorage`, `JSON.parse` and `JSON.stringify`: storage is a `Stored` value. A stored value that parses to something other than an object (`null`, a number) is not modelled.
- `Math.random()` and `new Date().toISOString()`: inputs, the draws constrained to their ranges.
- `YoutubeService.FetchVideoDetails`: leaves out an ok oEmbed response without a `title`, where the title becomes undefined. The initial title 'Title could not be fetched' is unreachable, because every path overwrites it.
- Scores are reals. NaN and floating-point rounding are not modelled. A NaN score would be coloured green.
- The ScoreCard ring geometry and `formatNumber` are floating point. The JSX rendering is presentational. `App.ResultsShown` keeps only the render condition of the results panel.
- Intermediate renders while a run is awaiting a stage are not modelled. During those renders `isLoading` is true, and the button and input are disabled.
- `App.AppState.HandleAnalyzeClick`: the data URL read from the thumbnail is not passed to the Gemini stage. The Gemini reply is an input.
- `App.ClickOutcome`: uses the corrected history add. The add as written throws for the id "constructor" (see Findings).
- `VideoId.ExtractVideoId`: strings are sequences of Unicode scalar values, while the regular expression, which has no `u` flag, counts UTF-16 code units. An 11-unit window that holds a character outside the Basic Multilingual Plane therefore matches differently: `https://youtu.be/aaaaaaaaa😀` (10 characters, 11 units) is an id in the application and null here, and `https://youtu.be/aaaaaaaaaa😀` captures 10 characters and half a surrogate pair in the application and 11 characters here. The results agree on text inside the Basic Multilingual Plane.
- `YoutubeService.FetchVideoDetails`: an id that ends in a lone surrogate (the second input above) makes `encodeURIComponent` at services/youtubeService.ts:18 throw a `URIError` before the `try`, so the application reports that error and shows no details. Ids here are whole characters, so that path is not modelled, and "failure never reaches the caller" holds only for them.
- `HistoryService.HistoryForVideo`: is the corrected read. The read as written (`HistoryService.HistoryForVideoAsWritten`) returns an inherited `Object.prototype` member, not a list, for an id that names such a member and has no own entry (see Findings). The page never shows it, because for these ids the add that runs before the read throws first.
- `HistoryService.AddAllKeepsNewest`: requires at least one add, or a stored list already within ten. Nothing bounds a list that was stored before any add.
- The API key check at module load is startup configuration.

## Findings

| source | as written | input that shows it | evidently intended | confidence | as-written member | corrected member |
|---|---|---|---|---|---|---|
| services/historyService.ts:34 | The lookup `fullHistory[videoId]`, with its fallback to `[]`, reads inherited `Object.prototype` members. For the id "constructor" it yields the `Object` function, and spreading that into the array literal at line 42 throws a TypeError. | the URL `https://youtu.be/constructor`, whose 11 characters pass the id pattern, with no stored list for it | an id without an own entry starts an empty list | not executed | `HistoryService.AddAsWrittenThrowsForConstructor` | `HistoryService.AddedStore` |
| services/historyService.ts:29 | The read `history[videoId]`, with its fallback to `[]`, returns inherited `Object.prototype` members. For the id "constructor" with no stored list, `getHistoryForVideo` returns the `Object` function instead of a list. | `getHistoryForVideo("constructor")` with no stored list for that id | an id without an own entry has the empty list | not executed | `HistoryService.ReadAsWrittenForConstructor` | `HistoryService.HistoryForVideo` |
