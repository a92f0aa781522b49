# Character dataset creator — drawing engine in Dafny

This is a Dafny model of `HindiCharacterDrawingApp` (`app.py`), a desktop tool
for collecting handwritten samples of characters. The user chooses an output
folder, a text file of labels (one per line) and a frequency. Each label is
then drawn `frequency` times on a square grid of cells. Every save writes the
grid as a greyscale PNG to `<base>/<label>/<label>_<n>.png`. Closing a session
writes the labels still to draw to `<base>/resume_<label file name>`.

Modules:

- `Optional` (`option.dfy`) holds the `Option` type. It stands for a typed
  entry that may not parse as an integer, a file that may not be readable, and
  a resume file that may not be written.
- `Util` (`util.dfy`) holds facts about sequences (associativity, cancelling
  a common prefix or suffix) and about integer multiplication and division
  that the other modules use.
- `Labels` (`labels.dfy`) holds the label-file format.
  - `ParseLabels` reads a file: its lines, stripped as Python's
    `str.strip()` strips, with blank lines dropped, in order and with
    duplicates kept.
  - `JoinLines` writes a list back as Python's `'\n'.join` does.
  - The two are proved to round-trip.
- `Paths` (`paths.dfy`) holds the file names a session writes. It models POSIX
  `os.path.join` and `os.path.basename`, and the decimal notation of the
  drawing number.
- `LabelQueue` (`queue.dfy`) holds the queue counters as a pure value
  (`Progress`). It covers how a save advances the counters, which path the
  k-th save of a session writes, and the resume list.
- `DrawingApp` (`app.dfy`) holds the application object itself, the class
  `HindiCharacterDrawingApp`. Its fields are updated in place as in the
  source:
  - the grid is an `array2<int>` of 0 (white) and 1 (black);
  - the undo history is a sequence of (row, column) cells;
  - its methods are the button and pointer handlers.

  The invariant `Valid()` states that the grid's black cells are exactly the
  cells in the history, each recorded once. Every handler keeps it.
- `QueueScenarios` (`queue_scenarios.dfy`) holds small concrete queues. Labels
  A and B at frequency 2 in the folder `out` are saved as `out/A/A_1.png`,
  `out/A/A_2.png`, `out/B/B_1.png` and `out/B/B_2.png`. The resume list after
  one save is A, B. A duplicated label writes the same file twice.
- `AppScenarios` (`app_scenarios.dfy`) runs the application object through
  whole interactions:
  - fifteen strokes followed by one undo;
  - a session's first save, followed by the resume list it would leave;
  - a session that ends, followed by a further save and a new start.

Behaviour of the source that the model keeps on purpose:

- A new session (`StartDrawing`) does not reset the label index or the
  drawing number. If the index left from an earlier session is past the end
  of the new list, the drawing screen fails with an IndexError
  (`app.py:98`). The model reports this as the `StaleIndex` outcome and
  leaves the grid alone.
- A save with no current label fails with an IndexError before anything
  happens (`app.py:180`). The model reports this as `NoCurrentLabel`. This
  happens when Enter is pressed after a session ends, because the key
  binding made at `app.py:126` outlives the drawing screen.
- A label listed twice is drawn twice into the same files, so the second pass
  overwrites the first (`QueueScenarios.DuplicateLabelsShareFiles`).
- The resume list repeats the current label once for each drawing still
  owed. Loading that list as a new label file gives each of those entries
  `frequency` drawings again, so a resumed session draws exactly what was
  left only when the frequency is 1 (`LabelQueue.ResumedSessionLength`).
- The last save of a session leaves the grid as it was; every other save
  clears it.
- A failed check in `start_drawing` keeps what was assigned before it:
  - the folder entry is always stored;
  - a frequency below 1 is stored before it is rejected;
  - an empty label list replaces the previous list.

## Model

| member | source | states |
|---|---|---|
| Labels.TrimStart | app.py:84 | The characters dropped from the front are whitespace, and the result does not start with whitespace. |
| Labels.TrimStartIsSuffix | app.py:84 | What is left after dropping leading whitespace is a suffix of the line. |
| Labels.TrimEnd | app.py:84 | The characters dropped from the end are whitespace, and the result does not end with whitespace. |
| Labels.TrimEndIsPrefix | app.py:84 | What is left after dropping trailing whitespace is a prefix of the line. |
| Labels.Strip | app.py:84 | `line.strip()`: the result is no longer than the line and neither starts nor ends with whitespace. `StripProperties` gives the rest of the promise. |
| Labels.StripProperties | app.py:84 | A stripped line neither starts nor ends with whitespace. It is empty exactly when the line is all whitespace. It holds only characters of the line. |
| Labels.StripFixedPoints | app.py:84 | Stripping leaves a string unchanged exactly when it is empty or has no whitespace at either end. |
| Labels.StripIdempotent | app.py:84 | Stripping twice is stripping once. |
| Labels.SplitLines | app.py:83-84 | A text with n line breaks gives n + 1 pieces. Python's line iteration can give fewer, and the extra pieces are empty (see Left out). |
| Labels.SplitLinesHaveNoBreaks | app.py:83-84 | No line holds a line break. |
| Labels.SplitLinesConcat | app.py:83-84 | The lines of two texts joined by a line break are the lines of the first followed by those of the second. |
| Labels.SplitLinesSingle | app.py:83-84 | A text without line breaks is one line. |
| Labels.NonBlank | app.py:84 | The comprehension keeps at most one entry per line, and every entry it keeps is non-empty. `NonBlankConcat` and `NonBlankAreLabels` give its order and the shape of its entries. |
| Labels.ParseLabels | app.py:83-84 | A label file gives at most one label per line. `ParsedLabelsAreLabels`, `ParseLabelsConcat` and `ParseJoinRoundTrip` give the shape of the labels, their order and the round trip. |
| Labels.JoinLines | app.py:223 | `'\n'.join`: labels without line breaks give a text with exactly one break between each two of them, so it splits back into as many lines as there are labels. `ParseJoinRoundTrip` is its round trip. |
| Labels.NonBlankConcat | app.py:84 | The comprehension keeps order: filtering a concatenation filters each part. |
| Labels.NonBlankAreLabels | app.py:84 | Every entry the comprehension keeps is non-empty, stripped and a single line. |
| Labels.ParsedLabelsAreLabels | app.py:83-84 | Every label read from a file is non-empty, stripped and a single line. |
| Labels.ParseLabelsConcat | app.py:83-84 | Labels come out in file order across a line break. |
| Labels.ParseSingleLabel | app.py:84 | A file holding one label gives exactly that label. |
| Labels.ParseEmpty | app.py:84-86 | An empty file gives no labels, which the start rejects. |
| Labels.ParseCons | app.py:84 | A label line followed by a text gives that label followed by the text's labels. |
| Labels.ParseJoinRoundTrip | app.py:223 | Labels written one per line read back as the same labels, in order and with duplicates kept. |
| Paths.NatToString | app.py:193 | The drawing number is written as decimal digits, non-empty, with no leading zero. |
| Paths.DecimalRoundTrip | app.py:193 | Reading back the written drawing number gives the number. |
| Paths.NatToStringInjective | app.py:193 | Different drawing numbers are written differently. |
| Paths.PathJoin | app.py:181 | POSIX `os.path.join`, stated by `PathJoinParts`; `BasenameOfJoin` and `PrefixedNameInFolder` give the base name of a joined path. |
| Paths.PathJoinParts | app.py:181 | The second part always ends the joined path, and an absolute second part is the whole path. A relative second part follows all of the first part, with one '/' between them exactly when the first part is non-empty and does not already end with '/'. |
| Paths.JoinPrefix | app.py:181 | What is put before a relative second part is empty or ends with '/'. |
| Paths.Basename | app.py:219 | The base name holds no '/'. |
| Paths.BasenameIsSuffix | app.py:219 | The base name is a suffix of the path, preceded by '/' unless it is the whole path. |
| Paths.BasenameAfterSlash | app.py:219 | After a prefix ending in '/', a slash-free name is the base name. |
| Paths.BasenameOfJoin | app.py:219-221 | Joining a folder and a slash-free name and taking the base name gives the name back. |
| Paths.PrefixedNameInFolder | app.py:219-221 | A slash-free name with a slash-free prefix, joined to a folder, lies directly in that folder under that name. |
| Paths.ResumePath | app.py:219-221 | The base name of the resume path is `resume_` followed by the base name of the label file. |
| Paths.ResumePathName | app.py:219-221 | The resume file lies directly in the base folder: its path is the base folder, a separating '/' where needed, and its name. |
| Paths.ArtifactName | app.py:193 | The file name `<label>_<n>.png` starts with the label and holds a '/' exactly when the label does. |
| Paths.ArtifactPath | app.py:181-193 | For a label without '/', the base name of the drawing's path is its file name `<label>_<n>.png`. |
| Paths.ArtifactPathShape | app.py:181-193 | With a base folder not ending in '/' and a label neither starting nor ending with '/', the path is `<base>/<label>/<label>_<n>.png`. |
| Paths.ArtifactPathsDistinct | app.py:181-193 | Two drawings of the same label with different numbers never share a path. |
| Paths.ArtifactNamesDistinct | app.py:193 | Different drawing numbers give different file names for the same label. |
| LabelQueue.Advance | app.py:197-200 | From a drawing number within the frequency, the new number is again within the frequency, and the label index moves on by at most one. |
| LabelQueue.AdvanceCompletesOne | app.py:197-200 | From a drawing number within the frequency, a save completes exactly one more drawing. |
| LabelQueue.AdvanceTimes | app.py:197-200 | After k saves from a drawing within the frequency, the drawing number is still within it and the label index has moved on by at most k. |
| LabelQueue.SavesFromStart | app.py:197-200 | After k saves from the start, k drawings are completed. |
| LabelQueue.SaveOrder | app.py:197-200 | The k-th save (from 0) draws label k div frequency for the (k mod frequency + 1)-th time. |
| LabelQueue.IndexBound | app.py:198-201 | With the drawing number within the frequency, the label index is below n exactly when fewer than n × frequency drawings are completed. |
| LabelQueue.SessionLength | app.py:197-203 | Exactly frequency × (number of labels) saves end the session. Every earlier save has a current label and a drawing number within the frequency. |
| LabelQueue.SavePath | app.py:180-193 | The k-th save of a session (from 0) writes drawing k mod frequency + 1 of label k div frequency, at the path `ArtifactPath` gives. |
| QueueScenarios.PathA1 | app.py:181-193 | Label A, drawing 1, in `out` is saved as `out/A/A_1.png`. |
| QueueScenarios.PathA2 | app.py:181-193 | Label A, drawing 2, in `out` is saved as `out/A/A_2.png`. |
| QueueScenarios.PathB1 | app.py:181-193 | Label B, drawing 1, in `out` is saved as `out/B/B_1.png`. |
| QueueScenarios.PathB2 | app.py:181-193 | Label B, drawing 2, in `out` is saved as `out/B/B_2.png`. |
| QueueScenarios.SaveExampleAt | app.py:180-201 | The k-th save of labels A and B at frequency 2 writes the k-th of A_1, A_2, B_1, B_2. |
| QueueScenarios.SavePathsExample | app.py:180-203 | Labels A and B with frequency 2 are saved as A_1, A_2, B_1, B_2, in that order, and the fourth save ends the session. |
| QueueScenarios.DuplicateLabelsShareFiles | app.py:181-193 | A label listed twice writes the same file on both passes. |
| LabelQueue.Repeat | app.py:215 | `[s] * n` has max(n, 0) entries, each equal to s. |
| LabelQueue.Remaining | app.py:211-217 | Within a session the resume list has as many entries as drawings still owed of the current label plus later labels. `RemainingShape` gives it entry by entry, and `ResumeRoundTrip` reads it back. |
| LabelQueue.RemainingShape | app.py:211-217 | The resume list holds the current label once per drawing not yet saved, then every later label once, in order. |
| LabelQueue.RemainingAtStart | app.py:211-217 | Before any save, the list is the first label `frequency` times, then the other labels. |
| LabelQueue.RemainingWithinLabel | app.py:197-217 | A save that is not the last of its label removes one entry from the front of the list. |
| LabelQueue.RemainingAfterLabel | app.py:197-217 | The last save of a label removes its last entry, and the next label then appears `frequency` times. After the last label the list is empty. |
| LabelQueue.RemainingEmptyIffExhausted | app.py:213-218 | Within a session, the list is empty exactly when every label is drawn. |
| LabelQueue.Resume | app.py:207-223 | A resume file is written exactly when labels are loaded, a label file is known and the list is non-empty. |
| LabelQueue.ResumeRoundTrip | app.py:218-223 | Reading the resume file back as a label file gives the remaining list. The file's base name is `resume_<label file name>`. |
| LabelQueue.RemainingFromList | app.py:214-217 | Every entry of the resume list is a label of the loaded list. |
| LabelQueue.ResumedSessionLength | app.py:213-217 | A session resumed from the resume file at the same frequency draws exactly the outstanding drawings if and only if the frequency is 1. |
| QueueScenarios.RemainingExample | app.py:211-217 | Labels A and B, frequency 2, after one save: the list is A, B. |
| DrawingApp.CellIndex | app.py:146-147 | The cell index of a pointer coordinate is the cell whose pixel span contains it. |
| DrawingApp.CellOnCanvas | app.py:116-148 | A pointer coordinate maps into the grid exactly when it lies on the canvas, which is grid size × cell size pixels wide. |
| DrawingApp.DistinctElementsCount | app.py:148-150 | A history without repeated cells has as many distinct cells as entries. |
| DrawingApp.HindiCharacterDrawingApp.GridInvariant | app.py:118-164 | The grid is grid size by grid size cells of 0 or 1, and its black cells are exactly the history's cells, each recorded once, all on the grid. Every handler keeps it. |
| DrawingApp.HindiCharacterDrawingApp.Valid | app.py:10-19 | `GridInvariant`, with the grid size within 4..100 and a drawing number of at least 1, as the constructor and `ChangeGridSize` leave them. |
| DrawingApp.HindiCharacterDrawingApp.BlackCellsAreHistory | app.py:148-164 | The black cells are the set of history cells, and there are as many as history entries. |
| DrawingApp.HindiCharacterDrawingApp.constructor | app.py:10-19 | Initial state: 32 × 32 cells, no labels, frequency 0, label index 0, drawing number 1, empty history. |
| DrawingApp.HindiCharacterDrawingApp.SelectFile | app.py:55-61 | A chosen file replaces the stored label file path. A cancelled dialog keeps it. |
| DrawingApp.HindiCharacterDrawingApp.ClearGrid | app.py:153-156 | Clear leaves every cell white and the history empty, and keeps the invariant. |
| DrawingApp.HindiCharacterDrawingApp.SetupDrawingUi | app.py:93-119 | The drawing screen needs a current label, and it gives a white grid with an empty history. |
| DrawingApp.HindiCharacterDrawingApp.DrawCell | app.py:144-150 | Exactly the cell under the pointer turns black and is appended to the history, and only if it is on the grid and white. Otherwise nothing changes. The invariant is kept. |
| DrawingApp.HindiCharacterDrawingApp.Undo | app.py:159-164 | The last min(10, length) history entries are removed and exactly those cells turn white. Earlier entries are kept. |
| DrawingApp.HindiCharacterDrawingApp.PopStroke | app.py:162-164 | One undo step removes the last history entry and turns that cell, and only that cell, white. The invariant is kept. |
| DrawingApp.HindiCharacterDrawingApp.ChangeGridSize | app.py:167-176 | A size succeeds if and only if it parses and lies in 4..100. Then the grid is that size, white, with an empty history. Otherwise nothing changes. |
| DrawingApp.HindiCharacterDrawingApp.Rasterize | app.py:185-190 | The image is grid size pixels square. Pixel (x, y) is 0 exactly when cell (row y, column x) is black, and 255 otherwise. |
| DrawingApp.HindiCharacterDrawingApp.SaveDrawing | app.py:178-205 | With no current label or a failed write, nothing changes. Otherwise: the raster of the grid goes to `<base>/<label>/<label>_<n>.png`; the counters advance as `LabelQueue.Advance`; the session ends exactly when the labels run out, with the grid kept; otherwise the grid is cleared. |
| DrawingApp.HindiCharacterDrawingApp.FinishSave | app.py:196-205 | After a write, the counters advance as `LabelQueue.Advance`. The session ends exactly when the labels run out, with the grid kept. Otherwise the grid is cleared. |
| DrawingApp.HindiCharacterDrawingApp.AdvanceCounters | app.py:197-200 | The label index and drawing number after a save are those of `LabelQueue.Advance`. |
| DrawingApp.HindiCharacterDrawingApp.StartDrawing | app.py:63-91 | The checks run in source order (folder, label file, frequency, contents) and the first failure is the outcome. It states which fields each check has already assigned. A start succeeds only with frequency ≥ 1, a non-empty list of stripped one-line labels and a current label. It then gives a white grid. |
| DrawingApp.HindiCharacterDrawingApp.LoadLabels | app.py:82-98 | The labels are those parsed from the file text and are stored even when the list is empty. An unreadable file or an empty list is rejected. Otherwise the start succeeds exactly when the kept label index is within the new list, and then gives a white grid with an empty history. |
| DrawingApp.HindiCharacterDrawingApp.SaveRemainingChars | app.py:207-223 | It changes nothing and writes exactly `LabelQueue.Resume` of the current state: the remaining list, one label per line, at `<base>/resume_<label file name>`. |
| AppScenarios.StrokesAlongTopRow | app.py:144-150 | n strokes 16 pixels apart along the top row of a fresh grid blacken and record the first n cells, in order. |
| AppScenarios.UndoAfterFifteenStrokes | app.py:144-164 | Fifteen strokes then one undo leave the first five cells black and recorded, and the other ten white. |
| AppScenarios.StartTwoLabels | app.py:63-91 | A label file holding a and b, at frequency 2, starts a session on a's first drawing. |
| AppScenarios.SaveThenResume | app.py:178-223 | The first save writes a's first drawing. The resume list then holds a once, then b. |
| AppScenarios.FirstSaveThenResume | app.py:63-223 | Starting, saving once and closing write `<base>/<a>/<a>_1.png` and a resume file holding a and b. |
| AppScenarios.StartSingleLabel | app.py:63-91 | A label file holding one label, at frequency 1, starts a session on that label. |
| AppScenarios.SaveOnlyDrawing | app.py:178-203 | With one label at frequency 1, the first save writes its drawing and ends the session. |
| AppScenarios.AfterSessionEnd | app.py:98-180 | After the session has ended, Enter finds no current label, and a new start with the same file fails on the kept label index. |
| AppScenarios.FinishedSessionThenRestart | app.py:63-205 | A one-label session ends at its first save. A further save finds no label, and a new start fails on the stale index. |

## Left out

- The Tk user interface is not modelled: windows, labels, entries, buttons, the canvas drawing of the grid (`draw_grid`), message boxes, and the folder dialog (`select_folder` only fills an entry). The folder entry's text and the file chosen in the file dialog are inputs.
- `start_drawing_cell` only forwards the click to `draw_cell`, so it is modelled by `DrawCell`.
- The file system is left out.
  - Whether the folder and the label file exist is an input.
  - So is the text of the label file (None when it cannot be read or decoded).
  - So is whether creating the folder and writing the image succeed.
  - The image and the resume file are returned, not written.
- Python's `int()` on an entry is not modelled. Its result is an input, None when it raises ValueError.
- The PNG encoding is not modelled. The model stops at the pixel array of the 8-bit greyscale image.
- `close_drawing` and `on_closing` are left out, because they only add exception handling and window changes around `SaveRemainingChars`. Two source quirks there are not captured by the model:
  - `save_remaining_chars` returns None, so the success message of `close_drawing` never appears;
  - `on_closing` swallows any error before the window is destroyed.
- DrawingApp.HindiCharacterDrawingApp.constructor: before the first drawing screen the source holds an empty list as its grid. No handler reachable from the start screen reads it, so the model starts from a white 32 × 32 grid.
- DrawingApp.HindiCharacterDrawingApp.ChangeGridSize requires a current label. Its button exists only on the drawing screen, which is built only after that label is looked up. Without a current label the source would fail at `app.py:98` after already storing the new size.
- Labels.SplitLines gives empty pieces that Python's line iteration does not produce. An empty text gives one empty piece where Python gives no line. A text ending in a line break gives a final empty piece where Python gives none. "\r\n" counts as two breaks and gives an extra empty piece, where Python's universal newlines see one break. `ParseLabels` drops every blank piece, so the labels are the same as the source's.
- Labels.IsSpace uses the whitespace set of `str.strip()` as a fixed list of code points. Unicode databases newer or older than the one this list follows are not modelled.
- DrawingApp.CellIndex uses Dafny's `/`. For the positive cell size this is the same as Python's floor division, negative coordinates included.
