# thesis-downloader: catalog search and download session

This project models the logic inside the single React component `src/App.js` of
thesis-downloader. The component lists a catalog of thesis documents, searches
their titles, and asks a render service to turn one document into a PDF that
the browser then saves. Three pieces of that component carry behaviour that can
be stated and proved:

- **Title search** (`handleSearch`). It filters the full catalog `data` and
  keeps the items whose lower-cased title contains the lower-cased query, in
  catalog order. The result goes to `filteredData`, which the table shows. It is
  modelled by the function `Catalog.Filter` over `seq<Item>`, with ASCII
  lower-casing `Text.Lower` and JavaScript's `includes` as `Text.Includes`. The
  two state variables `data` and `filteredData` form the class `Catalog.View`.
- **Output filename** (`item.key.slice(-5) + ".pdf"`). This is
  `Download.OutputFilename`, built on `Text.SliceFrom`. `Text.SliceFrom`
  follows how JavaScript's `String.prototype.slice` resolves a single start
  argument, but it counts characters rather than UTF-16 code units (see
  "Left out").
- **Download session** (`downloadFile`, `cancelDownload` and the button
  predicates). The class `Download.Session` holds the four state variables
  `downloadLoading`, `downloadError`, `isDownloadCancelled` and
  `abortController`:
  - `Start(item)` is the synchronous part of `downloadFile`, up to the awaited
    POST. It returns the `Request` that the call sends.
  - `Finish(req, outcome)` is the rest of `downloadFile`. The network result is
    passed in as an `Outcome`: either `Delivered`, or `Rejected` with the HTTP
    client's error, which says whether it is a cancellation and gives its code.
  - `Cancel()` is `cancelDownload`.
  - `LoadingOn`, `DownloadEnabled` and `CancelEnabled` are the button
    predicates. `DownloadClickable` combines the first two. A Download button
    in its loading state ignores clicks, because the antd `Button` component
    behaves that way.

  An abort controller is an integer id taken from the counter `nextController`.
  The ids of controllers whose `abort()` was called are kept in the set
  `aborted`.

The model follows the code as written, including these points where a reader
might expect something else:

- `downloadFile` does not refuse a second start while a download is in flight.
  Only the buttons prevent one. The Download buttons of the other rows are
  disabled, and the loading row's button ignores clicks, so no click starts an
  overlapping download (`DownloadClickableIffIdle`). `OverlappingStarts` shows
  what `downloadFile` itself would do if it ran twice.
- The render endpoint is the constant at src/App.js:51 (`Download.Endpoint`).
- `abortController` is never cleared after a download ends. `cancelDownload`
  therefore checks only that some controller exists, and after a completed
  download it still aborts the old controller and sets the cancelled flag
  (`CancelAfterCompletion`). No Cancel button is enabled at that point.
- A cancel does not itself end the session. The flag is set, and the
  in-flight request moves to its final state when the client rejects.

## Model

| member | source | states |
|---|---|---|
| `Text.Lower` | src/App.js:35 | lower-casing keeps the length, maps every character through ASCII case folding, and leaves no upper-case ASCII letter |
| `Text.LowerIdempotent` | src/App.js:35 | lower-casing an already lower-cased string changes nothing |
| `Text.Includes` | src/App.js:35 | a found substring is never longer than the text; the empty string and the text itself are always found |
| `Text.IncludesIff` | src/App.js:35 | `includes` answers true exactly when the query occurs at some position of the text |
| `Text.NotIncludesFirst` | src/App.js:35 | a text lacking the query's first character does not include the query |
| `Text.SliceFrom` | src/App.js:45 | `slice(start)` returns a suffix of the string; for a negative start its length is `min(-start, length)` |
| `Catalog.Matches` | src/App.js:35 | an item matches exactly when its ASCII-lower-cased title contains the ASCII-lower-cased query at some position |
| `Catalog.Filter` | src/App.js:34-36 | the search result is never longer than the catalog |
| `Catalog.FilterMembership` | src/App.js:34-36 | an item is in the result exactly when it is in the catalog and its lower-cased title contains the lower-cased query |
| `Catalog.FilterCount` | src/App.js:34-36 | a matching item appears in the result as many times as in the catalog, a non-matching one never |
| `Catalog.FilterIsSubsequence` | src/App.js:34-36 | the result is a subsequence of the catalog, so catalog order is kept |
| `Catalog.FilterAppend` | src/App.js:34-36 | filtering a concatenation is the concatenation of the filtered parts |
| `Catalog.FilterAllMatch` | src/App.js:34-36 | when every item matches, the result is the whole catalog |
| `Catalog.FilterEmptyQuery` | src/App.js:34-36 | the empty query returns the whole catalog, in order |
| `Catalog.FilterIdempotent` | src/App.js:33-37 | searching the result again with the same query changes nothing |
| `Catalog.FilterCaseInsensitive` | src/App.js:35 | two queries that differ only in ASCII letter case give the same result |
| `Catalog.SearchExample` | src/App.js:33-38 | on a two-item catalog, "learning" finds exactly "Machine Learning" and "zzz" finds nothing |
| `Catalog.View.constructor` | src/App.js:10-11 | both the catalog and the shown list start empty |
| `Catalog.View.Loaded` | src/App.js:23-24 | a successful fetch replaces both the catalog and the shown list with the response |
| `Catalog.View.HandleSearch` | src/App.js:33-38 | the shown list becomes the full catalog filtered by the new query, whatever was shown before; the catalog is unchanged |
| `Catalog.ShownItemsComeFromCatalog` | src/App.js:33-38 | the shown list is always a subsequence of the catalog, holding exactly the catalog items that match the last query |
| `Download.OutputFilename` | src/App.js:45 | the name is the last `min(length, 5)` characters of the key followed by `.pdf`, so it has length `min(length, 5) + 4`, and a key of at most 5 characters is used whole |
| `Download.OutputFilenameOfSuffix` | src/App.js:45 | everything before the key's last five characters is ignored |
| `Download.OutputFilenameCollides` | src/App.js:45 | two keys of at least five characters give the same file name exactly when their last five characters agree, so different documents can collide |
| `Download.Session.constructor` | src/App.js:12-15 | nothing loading, no error, not cancelled, no controller |
| `Download.Session.Start` | src/App.js:40-61 | the item's key is loading, the error is cleared, the cancelled flag is reset, and a new controller is installed that differs from every earlier and every aborted one; the request goes to the fixed endpoint with the item's URL template, the derived file name and a 900000 ms timeout; nothing is refused when a download is already in flight |
| `Download.Session.Finish` | src/App.js:62-87 | on every outcome the loading key ends cleared; delivery saves the file under the request's name, leaves the error as it was and shows a success toast; a cancellation, a timeout (`ECONNABORTED`, tested after cancellation) and any other error each set exactly their own message and toast |
| `Download.Session.Cancel` | src/App.js:90-95 | with no controller nothing changes; otherwise the current controller is aborted and the cancelled flag set; loading key and error are untouched |
| `Download.Session.DownloadClickable` | src/App.js:133-134 | a row's Download is neither disabled nor loading, which holds exactly when nothing is loading; that a loading button ignores clicks is an assumption listed under Left out |
| `Download.ButtonsWhileLoading` | src/App.js:130-145 | `LoadingOn`, `DownloadEnabled` and `CancelEnabled` are the `loading` and `disabled` props at src/App.js:133, 134 and 141; while key k is loading, only row k shows the spinner and has its Download button not disabled, and only row k may cancel, until a cancel has been issued |
| `Download.ButtonsWhenIdle` | src/App.js:130-145 | with nothing loading, every row's Download is enabled and clickable, and no row may cancel |
| `Download.DownloadClickableIffIdle` | src/App.js:130-137 | a Download click reaches `downloadFile` exactly when no download is in flight, on every row |
| `Download.CancelledThenRestarted` | src/App.js:40-95 | start then cancel disables the started row's Cancel, another row's Cancel and another row's Download; the cancellation rejection leaves the session idle with the cancellation message; a new start clears it under a different controller |
| `Download.OverlappingStarts` | src/App.js:40-87 | if `downloadFile` runs twice, which no button click allows, the first one's completion clears the loading key while the second is in flight, and a cancel aborts only the second one's controller |
| `Download.CancelAfterCompletion` | src/App.js:40-95 | a completed download saves the file under the derived name and leaves no error; afterwards no Cancel is enabled, but a cancel call still raises the cancelled flag, because the controller is never cleared |

## Left out

- The catalog fetch in `useEffect` (src/App.js:17-31) is network I/O, and its failure goes only to the console. Only the state assignment on success is modelled, as `Catalog.View.Loaded`.
- The POST itself, the 15-minute timer and the wiring of the abort signal (src/App.js:50-61) are asynchronous network and timing behaviour. Their effect is the `Outcome` passed to `Finish`. The model does not tie a cancellation rejection to an earlier `Cancel`, because the HTTP client decides that.
- Blob creation, the anchor click and the object-URL revocation (src/App.js:63-71) are browser side effects. The model records only the file name handed to the save, as `Finish`'s `saved` result.
- Toast notifications (src/App.js:73, 77, 80, 83) are presentation. `Finish` returns the toast's level and text and does not model its display.
- The table columns, the row-index renderer, pagination, JSX and styling (src/App.js:97-188) are presentation.
- The `localeCompare` sorters on title and year (src/App.js:117, 123) depend on locale collation, which has no faithful model here.
- `Text.SliceFrom`: counts characters (Unicode scalar values), not UTF-16 code units as JavaScript's `slice` does. A string with characters outside the Basic Multilingual Plane is therefore cut at a different place, and a cut through a surrogate pair cannot be represented.
- `Download.OutputFilename`: takes the last five characters, not the last five UTF-16 code units as `slice(-5)` does. For a key with characters outside the Basic Multilingual Plane, such as an emoji near its end, the real file name keeps fewer characters than the model's.
- The loading state of antd's `Button` (src/App.js:133) ignores clicks. That comes from the library, which is not part of this model. `DownloadClickable` states it as an assumption.
- `Text.Lower`: does not model full Unicode `toLowerCase`. It folds only ASCII `A`-`Z`, so a title with non-ASCII capitals may match differently in the real component.
- React's deferred state updates and stale closures are not modelled. Each setter is an immediate field assignment, so the `abortController` that `cancelDownload` reads is the latest one set.
