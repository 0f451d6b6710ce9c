# Worship setlist PDF export — a verified Dafny model

The web page lets a user search a song catalog, build an ordered setlist of
songs (each with a sheet-music image URL) and export the setlist as one PDF.
Each successfully loaded image fills its own page. This project models the
logic of `script.js` that does this:

- the setlist with its append and remove-by-index operations (`Setlist`);
- the search filter behind the search box (`Search`);
- `getProxiedUrl`, which sends images from hosts that block hot-linking through
  the wsrv.nl image cache (`Proxy`);
- the `fetchImage` fallback chain: a direct CORS fetch, then wsrv.nl, then
  corsproxy.io. It stops at the first OK response whose body can be read and
  converts that image to a JPEG data URL (`Fetch`);
- the scale-to-fit, centred placement of an image on a page (`Layout`);
- the dated file name `worship_songs_YYYY-MM-DD.pdf` (`FileName`);
- `generatePDF`: one outcome per song in setlist order, then a page loop that
  skips failures and adds one page per loaded image, then either an alert
  (nothing loaded) or a save (`Export`).

The network, `response.blob()`, the canvas re-encoding and jsPDF's
`getImageProperties` are oracles: functions passed in as parameters.
`encodeURIComponent` and `toLowerCase` are uninterpreted function parameters.
The local date and the page size are inputs.

Files: `wrappers.dfy` (Option, Result), `text.dfy` (substring search, decimal
numerals, `padStart`), `setlist.dfy`, `search.dfy`, `proxy.dfy`, `fetch.dfy`,
`layout.dfy`, `filename.dfy` and `export.dfy`.

Behaviour of the code worth noting:

- The strategy list is hard-coded in `fetchImage` (script.js:230-268).
- There is no per-request timeout.
- There is no bound on concurrent requests.
- The wsrv.nl request of the chain (script.js:245) lacks the `&bg=white`
  parameter that the display URL has (script.js:44); see
  `Fetch.ChainWsrvOmitsBackground`.

## Model

| member | source | states |
|---|---|---|
| Text.IncludesIff | script.js:41-42 | the `includes` scan is true exactly when the needle occurs at some position of the string |
| Text.IncludesInfix | script.js:41-42 | a string surrounded by anything still includes it |
| Text.OccursShift | script.js:41-42 | an occurrence in the tail of a string is an occurrence in the whole string one position further on, and conversely |
| Text.Includes | script.js:41-42 | no contract of its own; specified by `Text.IncludesIff` |
| Text.NatToString | script.js:210-213 | no contract of its own; specified by `Text.NatToStringRoundTrip` |
| Text.IntToString | script.js:210-213 | no contract of its own; specified by `FileName.YearRoundTrip` |
| Text.NatToStringRoundTrip | script.js:210-213 | `String(n)` is a non-empty digit string that reads back as `n`: exactly one digit below 10, no leading zero from 10 on, and at most two digits below 100 |
| Text.PadStart | script.js:211-212 | `padStart(width, fill)` keeps the string as its suffix, fills the rest of the width, and reaches the width whenever the string is shorter |
| Text.LeadingZeros | script.js:211-212 | zeros put in front of a digit string do not change its value |
| Text.PadStartRoundTrip | script.js:211-212 | a zero-padded numeral reads back as the number and has exactly the padded width when the numeral fits |
| Setlist.SpliceStart | script.js:95 | `splice` starts at the index itself when it is in range, and counts from the end for a negative index |
| Setlist.SpliceOne | script.js:95 | no contract of its own; specified by `Setlist.RemoveInRange`, `Setlist.RemovePastEnd`, `Setlist.RemoveNegative` and `Setlist.RemoveKeepsOrder` |
| Setlist.SongList.constructor | script.js:11 | the setlist starts empty |
| Setlist.SongList.Add | script.js:87-92 | `addToSetlist` appends the song at the end and leaves the rest untouched |
| Setlist.SongList.Remove | script.js:94-97 | `removeFromSetlist` leaves the list that `splice(index, 1)` leaves |
| Setlist.AddAppends | script.js:87-92 | appending grows the list by one and puts the song last, earlier entries unchanged; a song already present gains one more copy (no duplicate check) |
| Setlist.RemoveInRange | script.js:94-97 | an in-range index removes exactly that entry: length minus one, earlier entries stay, later ones shift down, one copy of the entry leaves the multiset |
| Setlist.RemovePastEnd | script.js:94-97 | an index at or past the end removes nothing |
| Setlist.RemoveNegative | script.js:94-97 | a negative index counts from the end, and one before the start removes the first entry |
| Setlist.RemoveKeepsOrder | script.js:94-97 | for any index the result is the list with at most one position cut out (relative order kept), and it is unchanged exactly when the start clamps to the end |
| Setlist.AddThenRemove | script.js:87-97 | removing the just-added song by its index or by -1 gives back the previous list |
| Search.Filter | script.js:23-26 | no contract of its own; specified by `Search.FilterMembers` and `Search.FilterConcat` |
| Search.SearchResults | script.js:22-27 | no contract of its own; specified by `Search.SearchResultsSpec` |
| Search.Matches | script.js:25 | no contract of its own; specified by `Search.FilterMembers` |
| Search.InitialResults | script.js:20 | no contract of its own; specified by `Search.EmptyInputShowsInitial` |
| Search.FilterMembers | script.js:23-26 | a song is in the filtered list exactly when it is in the catalog and its lower-cased title includes the query |
| Search.FilterConcat | script.js:23-26 | filtering distributes over concatenation, so catalog order is kept |
| Search.SearchResultsSpec | script.js:22-27 | at most 50 results, all matching catalog songs, a prefix of the matches in catalog order, exactly min(matches, 50) of them, so every match is shown when there are at most 50 |
| Search.FilterEmptyQuery | script.js:23-26 | the empty query keeps every song |
| Search.EmptyInputShowsInitial | script.js:20-27 | clearing the search box shows the same first 50 songs as the initial display |
| Proxy.GetProxiedUrl | script.js:38-47 | a URL in which `pstatic.net`, `blog.naver.com`, `daumcdn.net` or `kakaocdn.net` occurs becomes `https://wsrv.nl/?url=` + encoded URL + `&output=jpg&bg=white`; any other URL is returned unchanged |
| Proxy.HostFragmentIsProxied | script.js:38-47 | a URL with one of the four host fragments anywhere inside it, whatever surrounds it, is sent through wsrv.nl |
| Proxy.ProxyKeepsTarget | script.js:41-46 | for a URL that is not itself a wsrv.nl display URL, if decoding undoes encoding, the proxied URL designates exactly the original image |
| Fetch.Endpoint | script.js:233-257 | no contract of its own; its cases are the request URLs of script.js:233, 245 and 257, and the wsrv.nl case is related to `getProxiedUrl` by `Fetch.ChainWsrvOmitsBackground` |
| Fetch.Attempt | script.js:232-264 | no contract of its own; its cases are one `try` block of script.js:232-264 (a rejection, a non-OK status or an unreadable body falls through; an OK readable body settles with the conversion), and `Fetch.DecodeFailureEndsChain` and `Fetch.ResultOrigin` state what the chain does with them |
| Fetch.FetchImageSpec | script.js:230-267 | no contract of its own; specified by `Fetch.FetchImage`, `Fetch.ExhaustedIffAllFail` and `Fetch.ResultOrigin` |
| Fetch.AttemptsSpec | script.js:230-267 | no contract of its own; specified by `Fetch.FetchImage` |
| Fetch.FetchImage | script.js:230-268 | tries a prefix of direct → wsrv.nl → corsproxy.io in that order; every attempt but the last fell through; the result is that of the last attempt when it settled; exhaustion happens exactly after all three fell through; the result and the attempts agree with the three-`try` reference definition |
| Fetch.ExhaustedIffAllFail | script.js:230-267 | the "cannot load image" error is raised exactly when every strategy fell through |
| Fetch.SecondStrategyWins | script.js:242-250 | direct fails and wsrv.nl gives an OK, convertible response: the result is that conversion, and corsproxy.io is never asked |
| Fetch.DecodeFailureEndsChain | script.js:232-262 | a conversion rejection after an OK response ends the item with that error; no later strategy is tried |
| Fetch.ResultOrigin | script.js:230-268 | every result is the conversion of an OK response of the last strategy tried, that strategy's conversion failure, or exhaustion after corsproxy.io |
| Fetch.ChainWsrvOmitsBackground | script.js:242-246 | for a proxied-host URL, the display URL is the chain's wsrv.nl request plus `&bg=white`, so the two differ |
| Layout.FitCentered | script.js:183-196 | width-bound images get the full page width; the rest get the full page height; the rectangle is positive, keeps the image's aspect ratio, lies inside the page and has equal margins on both sides |
| Layout.FitIsLargest | script.js:183-196 | no rectangle with the image's proportions that fits the page is wider or taller than the chosen one |
| Layout.LandscapeOnA4 | script.js:183-196 | an 800 × 600 image on a 210 × 297 page is placed at (0, 69.75) with size 210 × 157.5 |
| FileName.TwoDigits | script.js:211-212 | no contract of its own; specified by `FileName.TwoDigitsRoundTrip` |
| FileName.DateStamp | script.js:209-213 | no contract of its own; specified by `FileName.DateStampRoundTrip` |
| FileName.SaveName | script.js:209-218 | no contract of its own; specified by `FileName.SaveNameRoundTrip` and `FileName.SaveNameLength` |
| FileName.YearRoundTrip | script.js:210-213 | the year as printed by a template literal, minus sign included, reads back as the year |
| FileName.TwoDigitsRoundTrip | script.js:211-212 | month and day fields are exactly two digits and read back as the number |
| FileName.DateStampRoundTrip | script.js:209-213 | the `YYYY-MM-DD` stamp of a valid date parses back to that date |
| FileName.SaveNameRoundTrip | script.js:209-218 | the saved file name parses back to the date, so different dates give different names |
| FileName.SaveNameLength | script.js:209-218 | for four-digit years the file name is 28 characters long |
| Export.OutcomeOf | script.js:153-161 | each outcome carries its song and exactly one of data and error; data is present exactly when the fetch chain resolved |
| Export.CollectOutcomes | script.js:153-163 | one outcome per song, same length and order as the setlist, each with exactly one of data and error |
| Export.Outcomes | script.js:153-163 | no contract of its own; specified by `Export.CollectOutcomes` and `Export.OutcomesConcat` |
| Export.OutcomesConcat | script.js:153-163 | the outcomes of a concatenated setlist are the outcomes of its parts: one song's failure neither removes nor reorders others |
| Export.Successes | script.js:170-171 | the outcomes that are placed are all placeable outcomes of the results, no more of them than results |
| Export.Placeable | script.js:171 | no contract of its own; specified by `Export.SuccessesMembers` |
| Export.SuccessesConcat | script.js:170-171 | skipping failures keeps the order of the rest |
| Export.SuccessesMembers | script.js:170-171 | an outcome is placed exactly when it is among the results and has data and no error |
| Export.PlaceOutcome | script.js:178-196 | no contract of its own; specified by `Export.DrawImage` and `Export.PagesHoldOneFittedImage` |
| Export.PlacedPages | script.js:168-200 | no contract of its own; specified by `Export.PlacedPagesMatchSuccesses` |
| Export.DocumentPages | script.js:168-200 | no contract of its own; specified by `Export.AddImagesToDocument` and `Export.PagesHoldOneFittedImage` |
| Export.PlacedPagesMatchSuccesses | script.js:168-200 | there are as many pages as successful outcomes, and the k-th page holds exactly the k-th successful image |
| Export.PdfDocument.constructor | script.js:150 | a new document has the given page size and one empty page |
| Export.PdfDocument.AddPage | script.js:174-176 | `addPage` appends one empty page |
| Export.PdfDocument.AddImage | script.js:198 | `addImage` draws on the last page and leaves the other pages alone |
| Export.DrawImage | script.js:178-198 | the image is drawn on the current page, at the scale-to-fit placement of its size |
| Export.AddImagesToDocument | script.js:168-200 | `pageIndex` ends as the number of successful outcomes; the document is one page per success in order, each holding its image, so `addPage` ran successes − 1 times; with no success the document keeps its single empty page |
| Export.SuccessesAreLoadedSongs | script.js:153-200 | the outcomes that reach the document are exactly those of the songs whose image loaded, in setlist order |
| Export.NothingLoadedNothingPlaced | script.js:202-204 | when no image loads, no outcome reaches the document |
| Export.NoLoadedSongs | script.js:153-163 | when no image loads, the loaded-songs list is empty |
| Export.PagesHoldOneFittedImage | script.js:168-200 | each page holds exactly one image, which is the corresponding successful data, fitted inside the page with its proportions |
| Export.ThirdStrategyForMiddleSong | script.js:142-204 | three songs where only the middle one needs corsproxy.io give three pages in setlist order, the middle showing the corsproxy.io image |
| Export.GeneratePdf | script.js:142-227 | an empty setlist does nothing; with songs but no loaded image the user is alerted and nothing is saved; otherwise the document of placed pages is saved as `worship_songs_<date>.pdf` |

## Left out

- DOM rendering, event wiring, the modal and the button's text and `disabled` state are display plumbing. This covers `renderSearchResults`, `renderSetlist`, `openModal`, `init`'s listeners and the `finally` block.
- `init`'s check that the catalog script loaded is left out: it shows an alert and stops. The catalog file `songs_data.js` is not part of this model, so a song's `id` is taken to be a string.
- `fetch`, `response.blob()` and the canvas work inside `convertBlobToJpeg` are foreign browser APIs. They are oracles: `net` is keyed by the endpoint URL and `convert` by the blob's bytes, so within one export the same URL always gets the same response and the same bytes always convert the same way. Two copies of a song in the setlist therefore load or fail together, where the real network could treat them differently.
- `Promise.all` concurrency is modelled as a sequential map. Only its settle-all, order-preserving result is kept.
- jsPDF internals are left out: the default A4 page size, `autoPrint` and the file write. The page size is an input. Saving is the `Saved` result carrying the name and the pages.
- `getImageProperties` is an oracle that always returns positive sizes.
- The alert text is left out: only the error kind is kept. `console` logging is left out.
- `toLowerCase` and `encodeURIComponent` are uninterpreted parameters. Unicode case mapping and percent-encoding are not modelled.
- Layout.FitCentered: computes with exact real numbers; IEEE double rounding in the placement arithmetic is not modelled.
- Export.GeneratePdf: does not model an exception thrown inside jsPDF (for example `getImageProperties` on an image it cannot read). The outer `catch` would turn it into an alert.
- Setlist.SongList.Remove: the index is an integer; the non-integer or `NaN` arguments that `splice` also accepts are not modelled (the page only passes list positions).
- `server.py` is not part of this model. It is a separate HTTP relay that the page's code never calls.
