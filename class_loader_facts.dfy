/**
 * What the loader of src/main_class.py returns on particular inputs: the
 * embedded table, the path `main` passes, and a spreadsheet path.
 */
module ClassLoaderFacts {
  import opened Common
  import opened PyText
  import opened Frames
  import opened ClassLoader

  /** The data rows of the embedded table need no cleaning. */
  lemma MockRow1Clean()
    ensures CleanRow(MockRow1(), MockQuestion1())
  {
  }

  lemma MockRow2Clean()
    ensures CleanRow(MockRow2(), MockQuestion2())
  {
  }

  lemma MockRow3Clean()
    ensures CleanRow(MockRow3(), MockQuestion3())
  {
  }

  lemma MockRow4Clean()
    ensures CleanRow(MockRow4(), MockQuestion4())
  {
  }

  /** The embedded table is laid out as `LaidOutConverts` needs. */
  lemma MockTableClean(f: Frame)
    requires f == MockFrame()
    ensures f.Valid() && MockLayout(f.headers) && |f.rows| == |MockQuestions()|
    ensures forall i :: 0 <= i < |f.rows| ==> CleanRow(f.rows[i], MockQuestions()[i])
  {
    MockRow1Clean();
    MockRow2Clean();
    MockRow3Clean();
    MockRow4Clean();
    forall i | 0 <= i < |f.rows|
      ensures CleanRow(f.rows[i], MockQuestions()[i])
    {
      if i == 0 {} else if i == 1 {} else if i == 2 {} else {}
    }
  }

  /** The embedded table loads as its four records, in table order. */
  lemma MockConverts(f: Frame)
    requires f == MockFrame()
    ensures f.Valid()
    ensures Convert(f) == Ok(MockQuestions())
  {
    MockTableClean(f);
    LaidOutConverts(f, MockQuestions());
  }

  /** The path `main` passes is not a `.xlsx` path. */
  lemma MainPathIsNotXlsx()
    ensures !EndsWith(FilePath, ".xlsx")
  {
    assert FilePath[|FilePath| - 5..] == "e.ods";
  }

  /** Whatever the file holds, `main` gets the embedded table's four records. */
  lemma MainPathLoadsMock(fileRead: Option<Frame>)
    requires fileRead.Some? ==> fileRead.value.Valid()
    ensures Load(Some(FilePath), fileRead) == Ok(MockQuestions())
  {
    MainPathIsNotXlsx();
    MockConverts(SelectFrame(Some(FilePath), fileRead));
  }

  /** A `.xlsx` spreadsheet that reads is loaded row by row, without validation. */
  lemma XlsxLoadsSheet(filepath: string, sheet: Frame)
    requires sheet.Valid() && EndsWith(filepath, ".xlsx")
    ensures Load(Some(filepath), Some(sheet)) == Convert(sheet)
  {
  }

  /** Every answer of the embedded table names one of its options. */
  lemma MockAnswersAreOptions()
    ensures forall k :: 0 <= k < |MockQuestions()| ==> MockQuestions()[k].answer in MockQuestions()[k].options
  {
  }
}
