/**
 * The drawing engine of the character dataset creator: a square grid of
 * cells the user blackens with the pointer, the history that undo pops, the
 * label queue a save advances, the greyscale image a save writes, and the
 * resume list written when a session is closed.
 */
module DrawingApp {
  import opened Optional
  import opened Util
  import opened Labels
  import opened Paths
  import opened LabelQueue

  /** A pixel of an 8-bit greyscale ("L" mode) image. */
  newtype Byte = x: int | 0 <= x < 256

  const White: Byte := 255
  const Black: Byte := 0

  /** Python's `coord // cell_size` for a positive cell size: the cell whose span of pixels holds `coord` (negative left of or above the canvas). */
  function CellIndex(coord: int, cellSize: int): (c: int)
    requires cellSize > 0
    ensures c * cellSize <= coord < c * cellSize + cellSize
  {
    coord / cellSize
  }

  /** A pointer position falls on a cell of an n-by-n grid exactly when it lies on the canvas, which is n * cellSize pixels wide. */
  lemma CellOnCanvas(coord: int, cellSize: int, n: int)
    requires cellSize > 0 && n >= 0
    ensures 0 <= CellIndex(coord, cellSize) < n <==> 0 <= coord < n * cellSize
  {
    var c := CellIndex(coord, cellSize);
    if 0 <= c < n {
      MulMonotone(0, c, cellSize);
      MulMonotone(c + 1, n, cellSize);
    }
    if 0 <= coord < n * cellSize {
      if c < 0 {
        MulMonotone(c + 1, 0, cellSize);
      }
      if c >= n {
        MulMonotone(n, c, cellSize);
      }
    }
  }

  predicate InGrid(cell: (int, int), n: int)
  {
    0 <= cell.0 < n && 0 <= cell.1 < n
  }

  function Min(a: int, b: int): int
  {
    if a <= b then a else b
  }

  /** The set of entries of a sequence. */
  function Elements<T>(s: seq<T>): set<T>
  {
    set k | 0 <= k < |s| :: s[k]
  }

  /** A sequence without repetitions has as many distinct entries as it is long. */
  lemma {:induction false} DistinctElementsCount<T>(s: seq<T>)
    requires forall a, b :: 0 <= a < b < |s| ==> s[a] != s[b]
    ensures |Elements(s)| == |s|
    decreases |s|
  {
    if s != [] {
      var init := s[..|s| - 1];
      DistinctElementsCount(init);
      assert Elements(s) == Elements(init) + {s[|s| - 1]};
      assert s[|s| - 1] !in Elements(init);
    }
  }

  /** How a session start ends: it goes on to the drawing screen, or it reports one of the checks that failed. */
  datatype StartOutcome =
    | Started
    | InvalidFolder
    | InvalidCharFile
    | InvalidFrequency
    | InvalidCharFileContents
      /** The label index kept from an earlier session is past the end of the new list (an IndexError). */
    | StaleIndex

  /** How a save ends. */
  datatype SaveOutcome =
      /** The image was written to `path`; `finished` when that was the last drawing of the session. */
    | Saved(path: string, finished: bool)
      /** Creating the folder or writing the image failed: nothing was advanced. */
    | WriteFailed
      /** There is no current label (the queue is exhausted): an IndexError before anything happens. */
    | NoCurrentLabel

  class HindiCharacterDrawingApp {
    var gridSize: int
    const cellSize: int := 16
    var characters: seq<string>
    var frequency: int
    var currentCharIndex: nat
    var currentDrawNumber: int
    var baseFolder: string
    var charFilePath: string
    /** `gridState[i, j]` is row i, column j: 0 white, 1 black. */
    var gridState: array2<int>
    /** The cells blackened, in the order they were blackened. */
    var drawHistory: seq<(int, int)>

    /** The grid is gridSize by gridSize; its black cells are exactly the cells in the history, each recorded once. */
    ghost predicate GridInvariant()
      reads this`gridSize, this`gridState, this`drawHistory, gridState
    {
      && gridState.Length0 == gridSize && gridState.Length1 == gridSize
      && (forall k :: 0 <= k < |drawHistory| ==> InGrid(drawHistory[k], gridSize))
      && (forall a, b :: 0 <= a < b < |drawHistory| ==> drawHistory[a] != drawHistory[b])
      && (forall i, j :: 0 <= i < gridSize && 0 <= j < gridSize ==>
            && (gridState[i, j] == 0 || gridState[i, j] == 1)
            && (gridState[i, j] == 1 <==> (i, j) in drawHistory))
    }

    ghost predicate Valid()
      reads this`gridSize, this`currentDrawNumber, this`gridState, this`drawHistory, gridState
    {
      4 <= gridSize <= 100 && currentDrawNumber >= 1 && GridInvariant()
    }

    /** The cells that are black. */
    ghost function BlackCells(): set<(int, int)>
      reads this`gridSize, this`gridState, gridState
      requires gridState.Length0 == gridSize && gridState.Length1 == gridSize
    {
      set i, j | 0 <= i < gridSize && 0 <= j < gridSize && gridState[i, j] == 1 :: (i, j)
    }

    /** The black cells are the cells in the history, and there are as many of them as history entries. */
    lemma BlackCellsAreHistory()
      requires Valid()
      ensures BlackCells() == Elements(drawHistory)
      ensures |BlackCells()| == |drawHistory|
    {
      forall c | c in Elements(drawHistory) ensures c in BlackCells() {
        var k :| 0 <= k < |drawHistory| && drawHistory[k] == c;
        assert InGrid(drawHistory[k], gridSize);
        assert gridState[c.0, c.1] == 1;
      }
      forall c | c in BlackCells() ensures c in Elements(drawHistory) {
        assert c in drawHistory;
      }
      DistinctElementsCount(drawHistory);
    }

    /**
     * The state of a new application. The source keeps an empty list as its
     * grid until the drawing screen is first set up; no operation reads the
     * grid before then, so the model starts from a white grid of the default size.
     */
    constructor ()
      ensures Valid() && fresh(gridState)
      ensures gridSize == 32 && characters == [] && frequency == 0
      ensures currentCharIndex == 0 && currentDrawNumber == 1
      ensures baseFolder == [] && charFilePath == [] && drawHistory == []
    {
      gridSize := 32;
      characters := [];
      frequency := 0;
      currentCharIndex := 0;
      currentDrawNumber := 1;
      baseFolder := [];
      charFilePath := [];
      gridState := new int[32, 32]((i, j) => 0);
      drawHistory := [];
    }

    /** The file chosen in the label file dialog; a cancelled dialog (an empty name) keeps the previous choice. */
    method SelectFile(file: string)
      modifies this`charFilePath
      ensures charFilePath == if file != [] then file else old(charFilePath)
    {
      if file != [] {
        charFilePath := file;
      }
    }

    /** Every cell white and the history empty, at the current grid size. */
    method ClearGrid()
      requires 4 <= gridSize <= 100 && currentDrawNumber >= 1
      modifies this`gridState, this`drawHistory
      ensures Valid() && fresh(gridState)
      ensures drawHistory == []
      ensures forall i, j :: 0 <= i < gridSize && 0 <= j < gridSize ==> gridState[i, j] == 0
    {
      gridState := new int[gridSize, gridSize]((i, j) => 0);
      drawHistory := [];
    }

    /**
     * The grid reset of the drawing screen. The screen first looks up the
     * current label (app.py:98), which fails without one; the second requires
     * stands for that lookup.
     */
    method SetupDrawingUi()
      requires 4 <= gridSize <= 100 && currentDrawNumber >= 1
      requires currentCharIndex < |characters|
      modifies this`gridState, this`drawHistory
      ensures Valid() && fresh(gridState)
      ensures drawHistory == []
      ensures forall i, j :: 0 <= i < gridSize && 0 <= j < gridSize ==> gridState[i, j] == 0
    {
      ClearGrid();
    }

    /**
     * A pointer event at pixel (x, y). The cell under it turns black and is
     * recorded only when it lies on the grid and is still white; otherwise
     * nothing changes.
     */
    method DrawCell(x: int, y: int)
      requires Valid()
      modifies this`drawHistory, gridState
      ensures Valid()
      ensures var cell := (CellIndex(y, cellSize), CellIndex(x, cellSize));
        var drawn := InGrid(cell, gridSize) && old(gridState[cell.0, cell.1]) == 0;
        && drawHistory == (if drawn then old(drawHistory) + [cell] else old(drawHistory))
        && forall i, j :: 0 <= i < gridSize && 0 <= j < gridSize ==>
             gridState[i, j] == (if drawn && (i, j) == cell then 1 else old(gridState[i, j]))
    {
      var j := CellIndex(x, cellSize);
      var i := CellIndex(y, cellSize);
      if 0 <= i < gridSize && 0 <= j < gridSize && gridState[i, j] == 0 {
        assert (i, j) !in drawHistory;
        gridState[i, j] := 1;
        drawHistory := drawHistory + [(i, j)];
      }
    }

    /**
     * Undo: the last min(10, |history|) history entries are removed and exactly
     * those cells turn white again; earlier entries and their cells stay.
     */
    method Undo()
      requires Valid()
      modifies this`drawHistory, gridState
      ensures Valid()
      ensures var kept := |old(drawHistory)| - Min(10, |old(drawHistory)|);
        && drawHistory == old(drawHistory)[..kept]
        && forall i, j :: 0 <= i < gridSize && 0 <= j < gridSize ==>
             gridState[i, j] == (if (i, j) in old(drawHistory)[kept..] then 0 else old(gridState[i, j]))
    {
      ghost var h := drawHistory;
      var count := Min(10, |drawHistory|);
      var undone := 0;
      while undone < count
        invariant 0 <= undone <= count
        invariant drawHistory == h[..|h| - undone]
        invariant Valid()
        invariant forall i, j :: 0 <= i < gridSize && 0 <= j < gridSize ==>
            gridState[i, j] == (if (i, j) in h[|h| - undone..] then 0 else old(gridState[i, j]))
      {
        if drawHistory != [] {
          var n := |h| - undone;
          assert h[n - 1..] == [h[n - 1]] + h[n..];
          assert drawHistory[|drawHistory| - 1] == h[n - 1];
          PopStroke();
          assert drawHistory == h[..n - 1];
        }
        undone := undone + 1;
      }
    }

    /** One step of undo: the last history entry is removed and its cell, and only that cell, turns white. */
    method PopStroke()
      requires Valid() && drawHistory != []
      modifies this`drawHistory, gridState
      ensures Valid()
      ensures drawHistory == old(drawHistory)[..|old(drawHistory)| - 1]
      ensures forall i, j :: 0 <= i < gridSize && 0 <= j < gridSize ==>
        gridState[i, j] == (if (i, j) == old(drawHistory)[|old(drawHistory)| - 1] then 0 else old(gridState[i, j]))
    {
      var last := |drawHistory| - 1;
      var (i, j) := drawHistory[last];
      assert drawHistory == drawHistory[..last] + [(i, j)];
      assert (i, j) !in drawHistory[..last];
      drawHistory := drawHistory[..last];
      gridState[i, j] := 0;
    }

    /**
     * The "Change Grid" button with the parsed entry (None when it is not an
     * integer). Only a size from 4 to 100 is taken, and it gives a white grid
     * of that size with an empty history; anything else changes nothing.
     */
    method ChangeGridSize(entry: Option<int>) returns (ok: bool)
      requires Valid() && currentCharIndex < |characters|
      modifies this`gridSize, this`gridState, this`drawHistory
      ensures Valid()
      ensures ok <==> entry.Some? && 4 <= entry.value <= 100
      ensures ok ==> gridSize == entry.value && fresh(gridState) && drawHistory == []
      ensures ok ==> forall i, j :: 0 <= i < gridSize && 0 <= j < gridSize ==> gridState[i, j] == 0
      ensures !ok ==> gridSize == old(gridSize) && gridState == old(gridState) && drawHistory == old(drawHistory)
    {
      if entry.None? || entry.value < 4 || entry.value > 100 {
        return false;
      }
      gridSize := entry.value;
      SetupDrawingUi();
      ok := true;
    }

    /** The image a save writes: gridSize pixels square, pixel (x, y) black exactly when cell (row y, column x) is, white otherwise. */
    method Rasterize() returns (image: array2<Byte>)
      requires Valid()
      ensures image.Length0 == gridSize && image.Length1 == gridSize
      ensures forall x, y :: 0 <= x < gridSize && 0 <= y < gridSize ==>
        && (image[x, y] == Black <==> gridState[y, x] == 1)
        && (image[x, y] == Black || image[x, y] == White)
    {
      image := new Byte[gridSize, gridSize]((x, y) => White);
      var i := 0;
      while i < gridSize
        invariant 0 <= i <= gridSize
        invariant forall x, y :: 0 <= x < gridSize && 0 <= y < gridSize ==>
          image[x, y] == (if y < i && gridState[y, x] != 0 then Black else White)
      {
        var j := 0;
        while j < gridSize
          invariant 0 <= j <= gridSize
          invariant forall x, y :: 0 <= x < gridSize && 0 <= y < gridSize ==>
            image[x, y] == (if (y < i || (y == i && x < j)) && gridState[y, x] != 0 then Black else White)
        {
          if gridState[i, j] != 0 {
            image[j, i] := Black;
          }
          j := j + 1;
        }
        i := i + 1;
      }
    }

    /**
     * Save: writes the grid as an image to `base/char/char_n.png` for the
     * current label and drawing number, then advances the queue (see
     * `LabelQueue.Advance`). After the last drawing of the last label the
     * session ends with the grid as it was; otherwise the grid is cleared.
     * `stored` says whether creating the folder and writing the file succeeded;
     * when they fail nothing changes.
     */
    method SaveDrawing(stored: bool) returns (outcome: SaveOutcome, image: array2<Byte>)
      requires Valid()
      modifies this`currentCharIndex, this`currentDrawNumber, this`gridState, this`drawHistory
      ensures Valid()
      ensures old(currentCharIndex) >= |characters| || !stored ==>
        && outcome == (if old(currentCharIndex) >= |characters| then NoCurrentLabel else WriteFailed)
        && currentCharIndex == old(currentCharIndex) && currentDrawNumber == old(currentDrawNumber)
        && gridState == old(gridState) && drawHistory == old(drawHistory)
      ensures old(currentCharIndex) < |characters| ==>
        && image.Length0 == gridSize && image.Length1 == gridSize
        && forall x, y :: 0 <= x < gridSize && 0 <= y < gridSize ==>
             && (image[x, y] == Black <==> old(gridState[y, x]) == 1)
             && (image[x, y] == Black || image[x, y] == White)
      ensures old(currentCharIndex) < |characters| && stored ==>
        var next := Advance(Progress(old(currentCharIndex), old(currentDrawNumber)), frequency);
        && outcome == Saved(ArtifactPath(baseFolder, characters[old(currentCharIndex)], old(currentDrawNumber)), next.index >= |characters|)
        && currentCharIndex == next.index && currentDrawNumber == next.drawNumber
        && (next.index >= |characters| ==> gridState == old(gridState) && drawHistory == old(drawHistory))
        && (next.index < |characters| ==> fresh(gridState) && drawHistory == [])
        && (next.index < |characters| ==> forall i, j :: 0 <= i < gridSize && 0 <= j < gridSize ==> gridState[i, j] == 0)
    {
      if currentCharIndex >= |characters| {
        outcome := NoCurrentLabel;
        image := new Byte[0, 0];
        return;
      }
      var currentChar := characters[currentCharIndex];
      image := Rasterize();
      var filename := ArtifactPath(baseFolder, currentChar, currentDrawNumber);
      if !stored {
        outcome := WriteFailed;
        return;
      }
      outcome := FinishSave(filename);
    }

    /**
     * What follows a successful write: the counters advance and, unless that
     * ends the session, the grid is cleared for the next drawing.
     */
    method FinishSave(filename: string) returns (outcome: SaveOutcome)
      requires Valid() && currentCharIndex < |characters|
      modifies this`currentCharIndex, this`currentDrawNumber, this`gridState, this`drawHistory
      ensures Valid()
      ensures var next := Advance(Progress(old(currentCharIndex), old(currentDrawNumber)), frequency);
        && outcome == Saved(filename, next.index >= |characters|)
        && currentCharIndex == next.index && currentDrawNumber == next.drawNumber
        && (next.index >= |characters| ==> gridState == old(gridState) && drawHistory == old(drawHistory))
        && (next.index < |characters| ==> fresh(gridState) && drawHistory == [])
        && (next.index < |characters| ==> forall i, j :: 0 <= i < gridSize && 0 <= j < gridSize ==> gridState[i, j] == 0)
    {
      AdvanceCounters();
      if currentCharIndex >= |characters| {
        outcome := Saved(filename, true);
        return;
      }
      ClearGrid();
      SetupDrawingUi();
      outcome := Saved(filename, false);
    }

    /** The counter update after a save, as `LabelQueue.Advance` describes it. */
    method AdvanceCounters()
      modifies this`currentCharIndex, this`currentDrawNumber
      ensures Progress(currentCharIndex, currentDrawNumber) == Advance(Progress(old(currentCharIndex), old(currentDrawNumber)), frequency)
    {
      currentDrawNumber := currentDrawNumber + 1;
      if currentDrawNumber > frequency {
        currentCharIndex := currentCharIndex + 1;
        currentDrawNumber := 1;
      }
    }

    /**
     * The "Start Drawing" button. The folder entry, whether the folder and the
     * chosen label file exist, the parsed frequency entry (None when it is not
     * an integer) and the text of the label file (None when it cannot be read)
     * are inputs. The checks run in order and the first failure stops the
     * start, leaving what was assigned before it. The queue counters are not
     * reset: a label index left past the end of the new list is an IndexError.
     */
    method StartDrawing(folderEntry: string, folderExists: bool, charFileExists: bool,
                        frequencyEntry: Option<int>, fileText: Option<string>)
      returns (outcome: StartOutcome)
      requires Valid()
      modifies this`baseFolder, this`frequency, this`characters, this`gridState, this`drawHistory
      ensures Valid()
      ensures baseFolder == folderEntry
      ensures folderEntry == [] || !folderExists ==> outcome == InvalidFolder
      ensures folderEntry != [] && folderExists && (charFilePath == [] || !charFileExists) ==> outcome == InvalidCharFile
      ensures folderEntry != [] && folderExists && charFilePath != [] && charFileExists ==>
        && frequency == (if frequencyEntry.Some? then frequencyEntry.value else old(frequency))
        && (frequencyEntry.None? || frequencyEntry.value < 1 ==> outcome == InvalidFrequency)
      ensures !(folderEntry != [] && folderExists && charFilePath != [] && charFileExists) ==> frequency == old(frequency)
      ensures folderEntry != [] && folderExists && charFilePath != [] && charFileExists && frequencyEntry.Some? && frequencyEntry.value >= 1 ==>
        && characters == (if fileText.Some? then ParseLabels(fileText.value) else old(characters))
        && (fileText.None? || characters == [] ==> outcome == InvalidCharFileContents)
        && (fileText.Some? && characters != [] ==> outcome == if currentCharIndex < |characters| then Started else StaleIndex)
      ensures !(folderEntry != [] && folderExists && charFilePath != [] && charFileExists && frequencyEntry.Some? && frequencyEntry.value >= 1) ==>
        characters == old(characters)
      ensures outcome == Started ==> frequency >= 1 && characters != [] && currentCharIndex < |characters|
      ensures outcome == Started ==> forall k :: 0 <= k < |characters| ==> IsLabel(characters[k])
      ensures outcome == Started ==> fresh(gridState) && drawHistory == []
      ensures outcome == Started ==> forall i, j :: 0 <= i < gridSize && 0 <= j < gridSize ==> gridState[i, j] == 0
      ensures outcome != Started ==> gridState == old(gridState) && drawHistory == old(drawHistory)
    {
      baseFolder := folderEntry;
      if baseFolder == [] || !folderExists {
        return InvalidFolder;
      }
      if charFilePath == [] || !charFileExists {
        return InvalidCharFile;
      }
      if frequencyEntry.None? {
        return InvalidFrequency;
      }
      frequency := frequencyEntry.value;
      if frequency < 1 {
        return InvalidFrequency;
      }
      outcome := LoadLabels(fileText);
    }

    /**
     * The rest of the start once the folder, the label file and the frequency
     * have passed: the labels are read from the file text (None when it cannot
     * be read), an empty list is rejected after it is stored, and the drawing
     * screen is set up on the current label.
     */
    method LoadLabels(fileText: Option<string>) returns (outcome: StartOutcome)
      requires Valid()
      modifies this`characters, this`gridState, this`drawHistory
      ensures Valid()
      ensures characters == (if fileText.Some? then ParseLabels(fileText.value) else old(characters))
      ensures fileText.None? || characters == [] ==> outcome == InvalidCharFileContents
      ensures fileText.Some? && characters != [] ==> outcome == if currentCharIndex < |characters| then Started else StaleIndex
      ensures outcome == Started ==> forall k :: 0 <= k < |characters| ==> IsLabel(characters[k])
      ensures outcome == Started ==> fresh(gridState) && drawHistory == []
      ensures outcome == Started ==> forall i, j :: 0 <= i < gridSize && 0 <= j < gridSize ==> gridState[i, j] == 0
      ensures outcome != Started ==> gridState == old(gridState) && drawHistory == old(drawHistory)
    {
      if fileText.None? {
        return InvalidCharFileContents;
      }
      characters := ParseLabels(fileText.value);
      ParsedLabelsAreLabels(fileText.value);
      if characters == [] {
        return InvalidCharFileContents;
      }
      if currentCharIndex >= |characters| {
        return StaleIndex;
      }
      SetupDrawingUi();
      outcome := Started;
    }

    /**
     * What closing the session writes (None: no file). Reads the queue and
     * changes nothing: the current label for each drawing of it not yet saved,
     * then every later label once, only when that list is non-empty and a
     * label list and label file are known.
     */
    method SaveRemainingChars() returns (written: Option<ResumeFile>)
      ensures written == Resume(baseFolder, charFilePath, characters, frequency, Progress(currentCharIndex, currentDrawNumber))
    {
      if characters == [] || charFilePath == [] {
        return None;
      }
      var remaining: seq<string> := [];
      if currentCharIndex < |characters| && currentDrawNumber <= frequency {
        var currentChar := characters[currentCharIndex];
        remaining := remaining + Repeat(currentChar, frequency - currentDrawNumber + 1);
      }
      if currentCharIndex + 1 <= |characters| {
        remaining := remaining + characters[currentCharIndex + 1..];
      }
      assert remaining == Remaining(characters, frequency, Progress(currentCharIndex, currentDrawNumber));
      if remaining != [] {
        written := Some(ResumeFile(ResumePath(baseFolder, charFilePath), JoinLines(remaining)));
      } else {
        written := None;
      }
    }
  }
}
