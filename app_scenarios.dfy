/**
 * Concrete runs of the application object: fifteen strokes followed by an
 * undo, a session's first save and its resume list, and a finished session
 * followed by a further save and a new start.
 */
module AppScenarios {
  import opened Optional
  import opened Labels
  import opened Paths
  import opened LabelQueue
  import opened DrawingApp

  /** `n` strokes along the top row of a fresh grid, one cell (16 pixels) apart: the first n cells are black and recorded in order. */
  method StrokesAlongTopRow(n: nat) returns (app: HindiCharacterDrawingApp)
    requires n <= 32
    ensures fresh(app) && fresh(app.gridState)
    ensures app.Valid() && app.gridSize == 32
    ensures |app.drawHistory| == n && forall m :: 0 <= m < n ==> app.drawHistory[m] == (0, m)
    ensures forall j :: 0 <= j < 32 ==> app.gridState[0, j] == if j < n then 1 else 0
  {
    app := new HindiCharacterDrawingApp();
    var k := 0;
    while k < n
      invariant 0 <= k <= n
      invariant fresh(app) && fresh(app.gridState)
      invariant app.Valid() && app.gridSize == 32
      invariant |app.drawHistory| == k
      invariant forall m :: 0 <= m < k ==> app.drawHistory[m] == (0, m)
      invariant forall j :: 0 <= j < 32 ==> app.gridState[0, j] == if j < k then 1 else 0
    {
      app.DrawCell(k * 16, 0);
      k := k + 1;
    }
  }

  /**
   * Fifteen strokes along the top row of a fresh grid, then one undo: the
   * first five cells stay black and recorded, the other ten are white again.
   */
  method UndoAfterFifteenStrokes() returns (app: HindiCharacterDrawingApp)
    ensures app.Valid() && app.gridSize == 32
    ensures app.drawHistory == [(0, 0), (0, 1), (0, 2), (0, 3), (0, 4)]
    ensures forall j :: 0 <= j < 32 ==> app.gridState[0, j] == if j < 5 then 1 else 0
  {
    app := StrokesAlongTopRow(15);
    ghost var h := app.drawHistory;
    app.Undo();
    assert app.drawHistory == h[..5];
    forall j | 0 <= j < 32
      ensures app.gridState[0, j] == if j < 5 then 1 else 0
    {
      if 5 <= j < 15 {
        assert h[j] == (0, j);
        assert (0, j) in h[5..] by { assert h[5..][j - 5] == h[j]; }
      } else {
        assert (0, j) !in h[5..];
      }
    }
  }

  /** Starting a session on a label file that holds the labels a and b (one per line), at frequency 2. */
  method StartTwoLabels(base: string, file: string, a: string, b: string)
    returns (app: HindiCharacterDrawingApp, started: StartOutcome)
    requires base != [] && file != [] && IsLabel(a) && IsLabel(b)
    ensures fresh(app) && app.Valid()
    ensures started == Started
    ensures app.characters == [a, b] && app.frequency == 2 && app.baseFolder == base && app.charFilePath == file
    ensures app.currentCharIndex == 0 && app.currentDrawNumber == 1
  {
    ParseSingleLabel(b);
    ParseCons(a, b, [b]);
    app := new HindiCharacterDrawingApp();
    app.SelectFile(file);
    assert app.charFilePath == file && app.currentCharIndex == 0;
    var contents := Some(a + "\n" + b);
    assert ParseLabels(contents.value) == [a, b];
    started := app.StartDrawing(base, true, true, Some(2), contents);
    assert started == Started;
  }

  /** With labels a and b at frequency 2, the first save writes a's first drawing; closing then would leave a (once) and b to resume. */
  method SaveThenResume(app: HindiCharacterDrawingApp, base: string, file: string, a: string, b: string)
    returns (saved: SaveOutcome, resume: Option<ResumeFile>)
    requires app.Valid()
    requires app.characters == [a, b] && app.frequency == 2 && app.baseFolder == base && app.charFilePath == file
    requires app.currentCharIndex == 0 && app.currentDrawNumber == 1
    requires file != []
    modifies app
    ensures saved == Saved(ArtifactPath(base, a, 1), false)
    ensures resume == Some(ResumeFile(ResumePath(base, file), a + "\n" + b))
  {
    var image;
    saved, image := app.SaveDrawing(true);
    assert app.currentCharIndex == 0 && app.currentDrawNumber == 2;
    resume := app.SaveRemainingChars();
    assert Repeat(a, 1) == [a];
    assert Remaining([a, b], 2, Progress(0, 2)) == [a, b];
    assert [a, b][1..] == [b];
    assert JoinLines([a, b]) == a + "\n" + b;
  }

  /**
   * A session with a label file holding the labels a and b (one per line) at
   * frequency 2: it starts, the first save writes a's first drawing, and
   * closing then would leave a (once) and b to resume.
   */
  method FirstSaveThenResume(base: string, file: string, a: string, b: string)
    returns (started: StartOutcome, saved: SaveOutcome, resume: Option<ResumeFile>)
    requires base != [] && file != [] && IsLabel(a) && IsLabel(b)
    ensures started == Started
    ensures saved == Saved(ArtifactPath(base, a, 1), false)
    ensures resume == Some(ResumeFile(ResumePath(base, file), a + "\n" + b))
  {
    var app;
    app, started := StartTwoLabels(base, file, a, b);
    saved, resume := SaveThenResume(app, base, file, a, b);
  }

  /** Starting a session on a label file that holds the one label a, at frequency 1. */
  method StartSingleLabel(base: string, file: string, a: string)
    returns (app: HindiCharacterDrawingApp, started: StartOutcome)
    requires base != [] && file != [] && IsLabel(a)
    ensures fresh(app) && app.Valid()
    ensures started == Started
    ensures app.characters == [a] && app.frequency == 1 && app.baseFolder == base && app.charFilePath == file
    ensures app.currentCharIndex == 0 && app.currentDrawNumber == 1
  {
    ParseSingleLabel(a);
    app := new HindiCharacterDrawingApp();
    app.SelectFile(file);
    assert app.charFilePath == file && app.currentCharIndex == 0;
    var contents := Some(a);
    assert ParseLabels(contents.value) == [a];
    started := app.StartDrawing(base, true, true, Some(1), contents);
    assert started == Started;
  }

  /** With one label at frequency 1, the first save writes that label's drawing and ends the session. */
  method SaveOnlyDrawing(app: HindiCharacterDrawingApp, base: string, a: string) returns (saved: SaveOutcome)
    requires app.Valid()
    requires app.characters == [a] && app.frequency == 1 && app.baseFolder == base
    requires app.currentCharIndex == 0 && app.currentDrawNumber == 1
    modifies app
    ensures app.Valid()
    ensures saved == Saved(ArtifactPath(base, old(app.characters[0]), 1), true)
    ensures app.currentCharIndex == 1
    ensures app.characters == old(app.characters) && app.charFilePath == old(app.charFilePath)
  {
    var image;
    saved, image := app.SaveDrawing(true);
  }

  /**
   * After the session has ended, a further save (the Enter key is still
   * bound) finds no label, and starting again with the same one-label file
   * fails on the label index kept from the finished session.
   */
  method AfterSessionEnd(app: HindiCharacterDrawingApp, base: string, a: string)
    returns (again: SaveOutcome, restarted: StartOutcome)
    requires app.Valid() && base != [] && IsLabel(a)
    requires app.characters == [a] && app.currentCharIndex == 1 && app.charFilePath != []
    modifies app
    ensures again == NoCurrentLabel
    ensures restarted == StaleIndex
  {
    ParseSingleLabel(a);
    var image;
    again, image := app.SaveDrawing(true);
    assert app.currentCharIndex == 1 && app.characters == [a] && app.charFilePath != [];
    var contents := Some(a);
    assert ParseLabels(contents.value) == [a];
    restarted := app.StartDrawing(base, true, true, Some(1), contents);
  }

  /** The two steps above in a row, as the application runs them. */
  method FinishedSessionThenRestart(base: string, file: string, a: string)
    returns (started: StartOutcome, saved: SaveOutcome, again: SaveOutcome, restarted: StartOutcome)
    requires base != [] && file != [] && IsLabel(a)
    ensures started == Started
    ensures saved == Saved(ArtifactPath(base, a, 1), true)
    ensures again == NoCurrentLabel
    ensures restarted == StaleIndex
  {
    var app;
    app, started := StartSingleLabel(base, file, a);
    saved := SaveOnlyDrawing(app, base, a);
    again, restarted := AfterSessionEnd(app, base, a);
  }
}
