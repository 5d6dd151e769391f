# Personality-coin dataset helpers and prediction panel, in Dafny

This project models two parts of the repository:

- The dataset helpers in `backend/utils.py`:
  - `image_exists` checks whether the `.jpg` file a record row names is present.
  - `rename_to_ascii_img` and `replace_space_with_underscore_image` rename directory entries.
  - `rename_to_ascii_csv` and `replace_space_with_underscore_csv` rewrite the `name` column of the record CSV.
  - `find_image_extremes` finds the smallest-area and largest-area image in a directory.
- The prediction panel in `frontend/src/predict_frame.py`:
  - `get_names` and `get_data` give the fixed coin and category tables and eleven random draws.
  - `segmented_button_callback` picks the label text and the chart data for a coin.
  - `show_chart` hands that data to the chart.
  - `save` builds the export text and writes it to the path the dialog returns.

Modules:

- `Common`: `Option` and `Result`.
- `Text`: decimal printing of integers, `sep.join`, `str.split("\n")`, and newline-terminated lines.
- `Filenames`: the ASCII test, `replace(" ", "_")`, `lower()`, the image-extension test and `os.path.join`.
- `ImageExtremes`: `find_image_extremes` as a method with a loop, proved against a left-fold specification `Scan`.
- `Tables`: a data frame as a `Table` value, with the two CSV rewrites and `image_exists`.
- `Renaming`: a directory as an `ImageDirectory` object whose `listing` the two renamers update in place. Each renamer returns the log of `Renamed '<from>' to '<to>'` messages it prints.
- `Predict`: the panel's tables, the label text and chart data per coin, and the export text. A `PredictFrame` class holds the label text, and its `Save` method builds the export in a loop.

The surroundings become parameters:

- The unidecode transliteration is a parameter `transliterate: string -> string`.
- The eleven `random.randint(55, 90)` draws are a parameter `draws` (`ValidDraws`).
- The save dialog's answer is a parameter `path`; an empty path means the dialog was cancelled.
- The set of regular files that `os.path.isfile` consults is a parameter `files`.
- Each image's decoded size comes with its directory entry (`Entry`).

The export groups categories differently from the labels. The labels show categories 0–2, 3–4, 5–8 and 9–10 under Human, Letter, Animal and Sexual (`DisplayBounds`). The export puts its headings before categories 0, 3, 7 and 9 (`SaveBounds`), so "Energy Animal" and "Info Animal" (categories 5 and 6) are exported under Letter. `SaveGroupingDiffersFromDisplay` proves that these two are the only categories grouped differently. The model keeps the code's grouping.

In `save`, the four `if i == …` tests are mutually exclusive, so the model writes them as one `if … else if` chain. This has the same effect on the text.

## Model

| member | source | states |
|---|---|---|
| Text.NatToStringRoundTrip | frontend/src/predict_frame.py:89 | the decimal text printed for a drawn value reads back as that value, has no leading zero and is all digits |
| Text.SplitTerminated | frontend/src/predict_frame.py:77-89 | text made of lines each ended by a new line splits back into exactly those lines plus an empty tail, when no line holds a new line |
| Text.JoinEndsWithLast | frontend/src/predict_frame.py:156-179 | lines joined with a separator end with the last line, with no trailing separator |
| Filenames.IsAsciiAllBelowLimit | backend/utils.py:54-57 | a name is ASCII exactly when every character's code is below the limit 128 |
| Filenames.HasSpaceSomeSpace | backend/utils.py:105 | a name has a space exactly when some position holds `' '` |
| Filenames.ReplaceSpaces | backend/utils.py:106 | `replace(" ", "_")` keeps the length, turns each space into an underscore and keeps every other character, leaves no space, leaves a space-free name unchanged and keeps ASCII text ASCII |
| Filenames.ReplaceSpacesIdempotent | backend/utils.py:106 | replacing spaces twice is replacing them once |
| Filenames.AsciiTarget | backend/utils.py:58 | the ASCII rename target has no space, is as long as the transliteration and is ASCII when the transliteration is |
| Filenames.HasImageExtension | backend/utils.py:88 | the extension test is `lower().endswith` of `.png`, `.jpg` or `.jpeg`; every name ending in one of them as written qualifies |
| Filenames.Lower | backend/utils.py:88 | `lower()` keeps the length and maps each of `A`–`Z` to its lower-case letter, leaving other characters as they are |
| Filenames.UpperCaseExtensionQualifies | backend/utils.py:88 | the extension test ignores case: any name ending in `.JPG` qualifies |
| Filenames.OtherExtensionExcluded | backend/utils.py:88 | a name ending in `.txt` does not qualify |
| Filenames.PathJoin | backend/utils.py:30 | `os.path.join` ends with its second part; an absolute second part replaces the first; otherwise the result starts with the first part, and a `/` comes between them when the first part is non-empty |
| ImageExtremes.FindImageExtremes | backend/utils.py:76-95 | the loop returns the left fold `Scan` over the listing: strict `<` and `>` on width × height over the entries with an image extension |
| ImageExtremes.ScanNoneIff | backend/utils.py:85-95 | each result is `None` exactly when no entry has an image extension |
| ImageExtremes.ScanSmallest | backend/utils.py:91-92 | a smallest result is the size of a qualifying entry of least area, and every earlier qualifying entry is strictly larger, so it is the first of least area |
| ImageExtremes.ScanLargest | backend/utils.py:93-94 | a largest result is the size of a qualifying entry of greatest area, and every earlier qualifying entry is strictly smaller, so it is the first of greatest area |
| ImageExtremes.TieKeepsFirst | backend/utils.py:91-94 | of two qualifying entries with equal area, the first is kept as both smallest and largest |
| ImageExtremes.DistinctSizes | backend/utils.py:85-95 | a 10×10 and a 100×50 image give (10,10) and (100,50) in either listing order |
| Tables.MapNameColumn | backend/utils.py:72 | applying a function to the `name` column changes only the `name` cells, each to the function's value on the old cell |
| Tables.RenameToAsciiCsv | backend/utils.py:65-73 | without a `name` column it raises `KeyError('name')` and nothing is written (it never takes the report-and-return path); otherwise only `name` cells change, each to its ASCII target, and in a well-formed table every new name is space-free |
| Tables.ReplaceSpaceCsv | backend/utils.py:113-129 | without a `name` column it reports the missing column and returns, never raising, and the file is left as it was; otherwise only `name` cells change, each to its space-replaced text |
| Tables.MissingNameColumn | backend/utils.py:72 | on a table without a `name` column the ASCII rewrite raises `KeyError('name')` while the space rewrite reports and returns, and neither changes the file |
| Tables.RenameToAsciiCsvIdempotent | backend/utils.py:72 | when the transliteration yields ASCII text and keeps ASCII text unchanged, rewriting the rewritten file again changes nothing |
| Tables.RewritesKeepWellFormed | backend/utils.py:71-73 | both rewrites keep every row's cells matching the table's columns |
| Tables.ReplaceSpaceCsvNoSpaces | backend/utils.py:120-123 | a table whose names hold no space is written back unchanged |
| Tables.ReplaceSpaceCsvIdempotent | backend/utils.py:113-129 | running the space rewrite on its own output changes nothing |
| Tables.ImagePath | backend/utils.py:30 | the looked-up path ends with `<name>.jpg` and starts with the directory when the name is relative |
| Tables.ImageExists | backend/utils.py:20-31 | a row without a `name` cell raises; otherwise the answer is true exactly when the row's `.jpg` path is a regular file |
| Tables.ImageExistsCreateDelete | backend/utils.py:30-31 | creating the row's file makes the answer true; deleting it makes it false |
| Tables.ImagePathInDirectory | backend/utils.py:30 | for a plain directory without a trailing slash, the path is the directory, `/`, the name and `.jpg` |
| Renaming.RenamedListing | backend/utils.py:56-61 | after the walk, each entry is renamed to its target exactly when selected, and the listing keeps its length and order |
| Renaming.RenameLog | backend/utils.py:62 | no more reports than entries, and every report is a rename of a selected entry to its target |
| Renaming.SelectedPositions | backend/utils.py:56-57 | the positions the walk selects, strictly increasing, each in range and selected, and every selected position among them |
| Renaming.RenameLogPositions | backend/utils.py:56-62 | the log has exactly one report per selected position, in listing order: report `k` renames the entry at the `k`-th selected position to its target |
| Renaming.RenameLogOncePerEntry | backend/utils.py:56-62 | in a listing without repeated names, no entry is reported twice |
| Renaming.RenameLogExactly | backend/utils.py:56-62 | an entry is reported exactly when it is listed and selected |
| Renaming.ImageDirectory.RenameSelected | backend/utils.py:56-62 | the loop leaves the listing and the log equal to `RenamedListing` and `RenameLog` of the listing taken at the start |
| Renaming.ImageDirectory.RenameToAscii | backend/utils.py:48-62 | the ASCII renamer renames, in place, the entries with a code point of 128 or more to their ASCII targets, and reports each rename |
| Renaming.ImageDirectory.ReplaceSpaceWithUnderscore | backend/utils.py:98-110 | the space renamer renames, in place, the entries with a space to their space-replaced names, and reports each rename |
| Renaming.RenameTwice | backend/utils.py:56-62 | when no target is itself selected, a second walk renames nothing and keeps the listing |
| Renaming.AsciiRenameSelection | backend/utils.py:54-62 | ASCII names are kept, every new name is space-free, and a name is reported exactly when listed and not ASCII |
| Renaming.AsciiRenameIdempotent | backend/utils.py:48-62 | when the transliteration yields ASCII text, a second ASCII pass renames nothing |
| Renaming.SpaceRenameSelection | backend/utils.py:104-110 | names without a space are kept, no name keeps a space, and a name is reported exactly when listed and holding a space |
| Renaming.SpaceRenameIdempotent | backend/utils.py:98-110 | a second space pass renames nothing and keeps the listing |
| Predict.GetNames | frontend/src/predict_frame.py:140-147 | four distinct coins and eleven category labels |
| Predict.GetData | frontend/src/predict_frame.py:109-138 | eleven categories, and eleven values in 55..90 that are the draws in order |
| Predict.PanelTable | frontend/src/predict_frame.py:151-153 | the panel's table has eleven entries and every value is in 55..90 |
| Predict.ItemLine | frontend/src/predict_frame.py:89 | the line `'<label>': <category> <value>%` holds no new line when its label and category hold none |
| Predict.ItemEndsWithPercent | frontend/src/predict_frame.py:157-159 | every category line ends with `%` |
| Predict.Selection | frontend/src/predict_frame.py:149-183 | a value that is no coin raises, because `text` is unbound; each coin gives a label text and chart data |
| Predict.CoinsDistinct | frontend/src/predict_frame.py:142 | the four coins differ, so at most one branch of the callback matches |
| Predict.SelectionShowsSlice | frontend/src/predict_frame.py:156-179 | coin `k` yields exactly the categories and values from `DisplayBounds[k]` up to `DisplayBounds[k + 1]` |
| Predict.PanelSelection | frontend/src/predict_frame.py:151-183 | on the panel, coin `k` charts its slice of the fixed category values and of the draws |
| Predict.LabelTextIsJoin | frontend/src/predict_frame.py:156-179 | coin `k`'s label is its categories' lines joined by blank lines |
| Predict.LabelTextEndsWithLast | frontend/src/predict_frame.py:156-179 | the label ends with its coin's last category line, hence with `%` |
| Predict.DisplayPartition | frontend/src/predict_frame.py:156-179 | the four labels split the eleven categories into contiguous groups, each category under exactly one coin |
| Predict.ExportPrefixTerminated | frontend/src/predict_frame.py:77-89 | after each iteration of `save`'s loop, the text so far is its lines, each ended by a new line |
| Predict.ExportText | frontend/src/predict_frame.py:77-89 | the text `save` builds begins with the header line and its new line, and ends with a new line |
| Predict.ExportLinesExpected | frontend/src/predict_frame.py:79-89 | the loop's lines are the header, then for each coin a blank line, `<coin> coins:` and the lines of categories `SaveBounds[k]` up to `SaveBounds[k + 1]` |
| Predict.PanelTableNoNewlines | frontend/src/predict_frame.py:109-147 | no fixed label or category holds a new line |
| Predict.ExportLines | frontend/src/predict_frame.py:77-89 | read line by line, the export is exactly the header and the four groups, followed by a final new line |
| Predict.ExportStartsWithHeader | frontend/src/predict_frame.py:77 | the export begins with `Predicted coins (method for prediction -> <method>):` and a new line |
| Predict.SaveGroupingDiffersFromDisplay | frontend/src/predict_frame.py:79-89 | categories 5 and 6 are exported under Letter but shown under Animal; every other category is grouped the same way |
| Predict.PredictFrame.constructor | frontend/src/predict_frame.py:53-54 | the panel opens on the first coin, Human, with its label text |
| Predict.PredictFrame.SegmentedButtonCallback | frontend/src/predict_frame.py:149-183 | for a coin, the label is set to its text and its categories and values are returned; otherwise it raises and the label is unchanged |
| Predict.PredictFrame.ShowChart | frontend/src/predict_frame.py:185-195 | the chart receives the selected coin's categories and values and the option's name; a value that is no coin raises |
| Predict.PredictFrame.Save | frontend/src/predict_frame.py:70-104 | the loop builds the export text; a cancelled dialog writes nothing, otherwise that text is written to the chosen path |

## Left out

- Widgets, layout, fonts, the hyperlink, `open_browser` and `back` in `frontend/src/predict_frame.py` are GUI plumbing with no logic to verify.
- The chart component (`ChartFrame`) and its drawing are not part of this model. `show_chart` ends at the `ChartRequest` it hands over.
- `save_image` (`backend/utils.py:34-45`) only wraps `os.makedirs` and `cv2.imwrite`, and those are file-system and image-encoding calls.
- The module-level path constants (`backend/utils.py:10-17`) depend on where the file is installed.
- Reading and writing files is not modelled:
  - A CSV file is a `Table` value; the CSV text format, pandas parsing and NaN cells are not part of this model.
  - The exported file is a `FileWrite(path, contents)` value.
  - Decoding an image is replaced by the size carried in each `Entry`.
- Printed messages are not modelled. The rename messages become the returned rename log; the other messages (cancel, saved, CSV modified or column missing) are not modelled.
- `replace_space_with_underscore_csv` catches every exception and prints it. The model has only the missing-column path; read errors are file-system behaviour.
- The unidecode transliteration table is outside the model. It is the `transliterate` parameter. Only the idempotence lemmas assume anything about it: `AsciiRenameIdempotent` assumes that its output is ASCII, and `RenameToAsciiCsvIdempotent` assumes that too and that it keeps ASCII text unchanged.
- The order of `os.listdir` is whatever the listing sequence holds.
- Rename collisions and failures are not modelled: a rename onto an existing name, or a rename that fails.
- Filenames.Lower: maps only `A`–`Z`, not the full Unicode case mapping of Python's `lower()`; this is enough for the ASCII extension test.
- Tables.ImageExists: `os.path.isfile` is membership of the path in the `files` set, without path normalisation or symbolic links.
- Filenames.PathJoin: POSIX `os.path.join` with two parts; Windows drive and separator rules are not modelled.
- The random draws are a parameter, so nothing is proved about their distribution. Each call to `get_data` draws anew; the model passes the draws of that call.
