/**
 * What the loader of src/main.py returns on particular inputs: the embedded
 * table, and each way the choice of table can go.
 */
module MainLoaderFacts {
  import opened Common
  import opened PyText
  import opened Frames
  import opened MainLoader

  /** The data rows of the embedded table need no cleaning. */
  lemma MockRow1Clean()
    ensures CleanRow(MockRow1(), MockQuestion1())
  {
    assert Show(1) == "1";
  }

  lemma MockRow2Clean()
    ensures CleanRow(MockRow2(), MockQuestion2())
  {
    assert Show(2) == "2";
  }

  lemma MockRow3Clean()
    ensures CleanRow(MockRow3(), MockQuestion3())
  {
    assert Show(3) == "3";
  }

  lemma MockRow4Clean()
    ensures CleanRow(MockRow4(), MockQuestion4())
  {
    assert Show(4) == "4";
  }

  /** The embedded table is laid out as `LaidOutNormalizes` needs. */
  lemma MockTableClean(f: Frame)
    requires f == MockFrame()
    ensures Ready(f) && MockLayout(f.headers) && |f.rows| == |MockQuestions()|
    ensures forall i :: 0 <= i < |f.rows| ==> CleanRow(f.rows[i], MockQuestions()[i])
  {
    MockRow1Clean();
    MockRow2Clean();
    MockRow3Clean();
    MockRow4Clean();
    forall i | 0 <= i < |f.rows|
      ensures CleanRow(f.rows[i], MockQuestions()[i])
    {
      if i == 0 {} else if i == 1 {} else if i == 2 {} else {}
    }
  }

  /** The embedded table normalises to its four questions, in table order. */
  lemma MockNormalizes(f: Frame)
    requires f == MockFrame()
    ensures Ready(f)
    ensures Normalize(f) == Ok(MockQuestions())
  {
    MockTableClean(f);
    LaidOutNormalizes(f, MockQuestions());
  }

  /** The path `main` passes names a spreadsheet, so the file branch is taken when the service answers other than 200. */
  lemma MainPathIsSpreadsheet()
    ensures IsSpreadsheetPath(Some(FilePath))
  {
    assert FilePath[|FilePath| - 4..] == ".ods";
  }

  /**
   * Without a 200 answer, and without a readable spreadsheet at a
   * spreadsheet path, the loader returns the embedded table's four questions.
   */
  lemma LoadFallsBackToMock(remote: Remote, filepath: Option<string>, fileRead: Option<Frame>)
    requires fileRead.Some? ==> fileRead.value.Valid()
    requires remote.Responded? && remote.status != 200
    requires !IsSpreadsheetPath(filepath) || fileRead.None?
    ensures Load(remote, filepath, fileRead) == Ok(MockQuestions())
  {
    var picked := SelectSource(remote, filepath, fileRead);
    assert picked == Ok(Picked(FromMock, MockFrame()));
    MockNormalizes(picked.value.frame);
  }

  /** What `main` gets when the service answers other than 200 and the spreadsheet reads: that table's normalisation. */
  lemma LoadFromMainPath(remote: Remote, sheet: Frame)
    requires sheet.Valid()
    requires remote.Responded? && remote.status != 200
    ensures Load(remote, Some(FilePath), Some(sheet)) ==
      match Normalize(sheet)
      case Ok(qs) => Ok(qs)
      case Err(e) => Err(RowFailed(e))
  {
    MainPathIsSpreadsheet();
  }

  /** Every question the row loop returns is well formed. */
  lemma NormalizeIsWellFormed(f: Frame)
    requires f.Valid() && Normalize(f).Ok?
    ensures forall k :: 0 <= k < |Normalize(f).value| ==> WellFormed(Normalize(f).value[k])
  {
    if HasRequiredColumns(f.headers) {
      var rs := RowResults(f);
      RowResultsAt(f);
      GatherIsWellFormed(rs);
    }
  }

  /**
   * Whatever the loader returns can start a session once `main` has checked
   * that it is not empty: every question is well formed.
   */
  lemma LoadIsWellFormed(remote: Remote, filepath: Option<string>, fileRead: Option<Frame>)
    requires fileRead.Some? ==> fileRead.value.Valid()
    requires Load(remote, filepath, fileRead).Ok?
    ensures var qs := Load(remote, filepath, fileRead).value;
      forall k :: 0 <= k < |qs| ==> WellFormed(qs[k])
  {
    NormalizeIsWellFormed(SelectSource(remote, filepath, fileRead).value.frame);
  }
}
