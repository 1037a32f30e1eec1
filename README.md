# Telugu song search: track rows and result post-processing

The program takes a word, translates it into Telugu with a translation service,
searches a lyrics service for Telugu songs containing the translation, and shows
the hits as a table of `{Song, Album}` rows. It has two entry points: a
command-line script (`app.py`) and a web form (`streamapp.py`). Nearly all of it is
HTTP and UI code. This model covers its two pieces of logic:

- **`getSongs`, after the search response is parsed** (`App.GetSongs`). An empty
  track list becomes one not-found row. Its Song is
  `"Couldn't find any songs with word " + word` and its Album is absent. A
  non-empty list becomes one row per track, in list order, built by appending in a
  loop as the source does. The loop is proved equal to the pure map
  `App.SongsFor` / `App.RecordsOf`.
- **Result post-processing.** The source writes
  `df.drop_duplicates(subset=["Song"], keep="first")[~df["Album"].str.contains("Hits")]`.
  The model is `App.PostProcess = DropExcluded(DedupFirst(rows))`. The boolean
  mask is built on the original frame but applied to the deduplicated one, and
  pandas aligns it by row label, so the effect is to filter the rows the dedup
  kept. The form (`StreamApp.ShownRecords`) shows a single row unchanged, and
  runs the same expression on any other number of rows.

Modules:

- `Records`: the `Track` and `SongRecord` values, plus the predicates for titles,
  distinct titles and present albums.
- `Text`: the case-sensitive substring test.
- `Subsequences`: order-preserving subsequences.
- `App`: `app.py`.
- `StreamApp`: `streamapp.py`.

Every row selection in the model is defined by peeling off the last row. This
mirrors how the source builds lists by appending.

On app.py's command-line path, the not-found row's `None` album reaches
`str.contains` and `~`. What pandas does with it there is library behaviour,
which is not modelled. So `App.PostProcess` requires every album to be present.
The form reaches the filter only when the row count is not one, and every row
`getSongs` then returns has an album (`App.SongsForAlbums`,
`StreamApp.ShownSearchResult`).

## Model

| member | source | states |
|---|---|---|
| `App.GetSongs` | app.py:111-126 | The loop that appends rows returns exactly `SongsFor(word, trackList)`, and never returns an empty list. An empty track list gives the single row `{Song: "Couldn't find any songs with word " + word, Album: absent}`. Otherwise there is one row per track, in the same order, with Song = track name and Album = album name. |
| `App.RecordsOf` | app.py:119-125 | Mapping tracks to rows keeps the length, and row i is built from track i. |
| `App.SongsForAlbums` | app.py:112-126 | Every row of `getSongs` has an album exactly when the track list is non-empty. Only the not-found row has an absent album. |
| `Text.ContainsIffOccurs` | app.py:145 | The substring test behind `str.contains("Hits")` holds exactly when the pattern occurs at some position of the album title. |
| `App.FirstIndex` | app.py:144 | For a title present in the rows, it returns the index of the first row with that title: that row has the title and no earlier row does. |
| `App.DedupFirst` | app.py:144 | `drop_duplicates(subset=["Song"])` returns rows with pairwise-distinct titles and exactly the input's set of titles. Every returned row comes from the input. |
| `App.DedupKeepsOnlyFirst` | app.py:144 | `keep="first"`: every row the dedup keeps is the first input row with its title. |
| `App.DedupKeepsEveryFirst` | app.py:144 | `keep="first"`: a row with no earlier row of the same title is kept. |
| `App.DedupFirstInFirstOccurrenceOrder` | app.py:144 | The kept rows come in the order in which their titles first appear in the input, which fixes the output's order even when a row repeats word for word. |
| `App.DedupFirstIsSubsequence` | app.py:144 | The dedup deletes rows and keeps the order of the rest. |
| `App.DedupFirstOfDistinct` | app.py:144 | Rows whose titles are already distinct pass through the dedup unchanged. |
| `App.DropExcluded` | app.py:145 | A row is kept by the `~str.contains("Hits")` mask exactly when it was in the input and its album does not contain "Hits". Every copy of an unmarked row is kept, and no copy of a marked one. |
| `App.DropExcludedIsSubsequence` | app.py:145 | The filter deletes rows and keeps the order of the rest. |
| `App.DropExcludedOfUnmarked` | app.py:145 | Rows none of whose albums contain "Hits" pass through the filter unchanged. |
| `App.PostProcess` | app.py:143-146 | Requires every album to be present. No two output rows share a Song. No output row has an album containing "Hits". Every output row is an input row. The output is an order-preserving subsequence of the input, so it is no longer than the input. |
| `App.PostProcessInFirstOccurrenceOrder` | app.py:144-146 | The post-processed rows come in the order in which their titles first appear in the input. |
| `App.PostProcessKeepsTitle` | app.py:144-146 | Dedup runs before the filter. Take the first row with a given title: that title survives exactly when this row's album lacks "Hits". A title first seen on a "Hits" album disappears entirely, even if later rows have other albums. |
| `App.PostProcessUnchanged` | app.py:143-146 | Rows with distinct titles and no "Hits" album come out exactly as they went in: same rows, same order. |
| `App.PostProcessIdempotent` | app.py:143-146 | Post-processing its own output changes nothing. |
| `App.DedupBeforeFilter` | app.py:144-146 | Take two rows with the same title, the first on a "Hits" album and the second not. Post-processing them yields nothing. Filtering first and deduplicating second would have kept the second row. |
| `StreamApp.ShownRecords` | streamapp.py:14-19 | A one-row input is shown unchanged. Any other input is shown as app.py's post-process of it, with distinct titles and no "Hits" album. The output is always an order-preserving subsequence of the input, so it is never longer. |
| `StreamApp.GuardKeepsSingleMarkedRow` | streamapp.py:14-15 | A single row whose album contains "Hits" is still shown, although app.py's post-process would drop it. |
| `StreamApp.ShownSearchResult` | streamapp.py:12-19 | For every track list, the rows `getSongs` returns meet the filter's requirement whenever the filter runs. An empty list shows only the not-found row, with an absent album. More than one track shows the post-processed rows of the tracks. |
| `StreamApp.SameNameScenario` | streamapp.py:12-20 | Take two tracks with the same name, the first on an album without "Hits" and the second on one with it. The form shows exactly one row, built from the first track. |
| `StreamApp.CheliScenario` | streamapp.py:12-20 | Two tracks titled "Cheli", the second on album "Cheli Hits", are shown as the single row ("Cheli", "Cheli"). |

## Left out

- The translation call (`getTeluguWords`, app.py:71-96) and the search request in `getSongs` (app.py:100-110) are network calls. The parsed track list is an input of `App.GetSongs` instead.
- Config loading (`getConfig`, app.py:59-68) and its error path are left out: it is file I/O.
- Logging (`TSLogger`, app.py:15-56), the global `urllib3` setting (app.py:12) and argument parsing (app.py:132-137) are left out: they are side effects outside the logic.
- The `TSException` wrapping of arbitrary failures (app.py:94-96, 127-129) is left out. Failures such as a missing JSON field depend on the response shape, which is not modelled.
- Table rendering (`to_string`, `st.table`) and the form widgets (streamapp.py:5-10) are output and UI.
- App.PostProcess: requires every album to be present. On the command-line path the not-found row's album is `None`, and what pandas then does in `str.contains` and `~` is library behaviour, which is not modelled. That case is covered only through the form's one-row guard.
- Text.Contains: is a plain substring test. pandas reads the pattern as a regular expression, which agrees only because "Hits" has no metacharacters.
- App.PostProcess: on an empty row list it returns no rows. In the source, `pd.DataFrame([])` has no `Album` column, so `df["Album"]` would raise `KeyError`. No run reaches this, because `getSongs` never returns an empty list (`App.GetSongs`).
- StreamApp.ShownRecords: on an empty row list it shows no rows, where the source's `df["Album"]` (streamapp.py:18) would raise `KeyError`. This cannot happen, because `getSongs` never returns an empty list (`App.GetSongs`).
- Rows are modelled as values in a sequence. pandas row labels, dtypes and the index alignment of the mask are not modelled; the mask is applied to the deduplicated rows, which is what the alignment achieves.
