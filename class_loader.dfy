/**
 * The loader of src/main_class.py: it picks a spreadsheet (only for a
 * `.xlsx` path) or the embedded table, and turns every row into a question
 * record without validating anything; the answer text is stored as it is.
 */
module ClassLoader {
  import opened Common
  import opened PyText
  import opened Frames

  /** One question record: the prompt, four labelled options, and the answer text copied from the row. */
  datatype Question = Question(question: string, options: map<string, string>, answer: string)

  /** `row[name]` raised `KeyError`: the table has no column `name`. */
  datatype LoadError = MissingColumn(name: string)

  /** The path `main` passes to the loader (line 1). */
  const FilePath: string := "mcq_algae.ods"

  /** The columns each row is read from, in the order the record's fields are evaluated. */
  const ColumnOrder: seq<string> := ["Question", "A", "B", "C", "D", "Answer"]

  /** The embedded CSV table, as `pd.read_csv` parses it: a header row and four data rows. */
  function MockFrame(): Frame {
    Frame(MockHeader(), [MockRow1(), MockRow2(), MockRow3(), MockRow4()])
  }

  function MockHeader(): seq<string> {
    ["Question", "A", "B", "C", "D", "Answer"]
  }

  function MockRow1(): seq<string> {
    ["What is the capital of France?", "Berlin", "Madrid", "Paris", "Rome", "option C"]
  }

  function MockRow2(): seq<string> {
    ["What is the chemical symbol for water?", "O2", "H2O", "CO2", "NaCl", "option B"]
  }

  function MockRow3(): seq<string> {
    ["Which planet is known as the Red Planet?", "Venus", "Mars", "Jupiter", "Saturn", "option B"]
  }

  function MockRow4(): seq<string> {
    ["Who wrote 'To Kill a Mockingbird'?", "J.K. Rowling", "Ernest Hemingway", "Harper Lee", "F. Scott Fitzgerald", "option C"]
  }

  /** The four records the loader makes of the embedded table. */
  function MockQuestions(): seq<Question> {
    [MockQuestion1(), MockQuestion2(), MockQuestion3(), MockQuestion4()]
  }

  function MockQuestion1(): Question {
    Question("What is the capital of France?", Options("Berlin", "Madrid", "Paris", "Rome"), "option C")
  }

  function MockQuestion2(): Question {
    Question("What is the chemical symbol for water?", Options("O2", "H2O", "CO2", "NaCl"), "option B")
  }

  function MockQuestion3(): Question {
    Question("Which planet is known as the Red Planet?", Options("Venus", "Mars", "Jupiter", "Saturn"), "option B")
  }

  function MockQuestion4(): Question {
    Question("Who wrote 'To Kill a Mockingbird'?", Options("J.K. Rowling", "Ernest Hemingway", "Harper Lee", "F. Scott Fitzgerald"), "option C")
  }

  /** The first column, in evaluation order, that the table lacks: the one whose lookup raises. */
  function FirstMissing(headers: seq<string>): (r: Option<string>)
    ensures r.None? <==> && "Question" in headers && "A" in headers && "B" in headers
                         && "C" in headers && "D" in headers && "Answer" in headers
    ensures r.Some? ==> r.value !in headers
  {
    if "Question" !in headers then Some("Question")
    else if "A" !in headers then Some("A")
    else if "B" !in headers then Some("B")
    else if "C" !in headers then Some("C")
    else if "D" !in headers then Some("D")
    else if "Answer" !in headers then Some("Answer")
    else None
  }

  /** The column named is the first of the six, in evaluation order, that is missing. */
  lemma FirstMissingIsFirst(headers: seq<string>)
    ensures FirstMissing(headers).None? <==> forall c :: c in ColumnOrder ==> c in headers
    ensures FirstMissing(headers).Some? ==>
      exists k :: 0 <= k < |ColumnOrder| && ColumnOrder[k] == FirstMissing(headers).value &&
        forall j :: 0 <= j < k ==> ColumnOrder[j] in headers
  {
    var r := FirstMissing(headers);
    if r.Some? {
      var k := if r.value == "Question" then 0 else if r.value == "A" then 1 else if r.value == "B" then 2
        else if r.value == "C" then 3 else if r.value == "D" then 4 else 5;
      assert ColumnOrder[k] == r.value;
      assert forall j :: 0 <= j < k ==> ColumnOrder[j] in headers;
    } else {
      forall c | c in ColumnOrder
        ensures c in headers
      {
        assert c == ColumnOrder[0] || c == ColumnOrder[1] || c == ColumnOrder[2] || c == ColumnOrder[3]
          || c == ColumnOrder[4] || c == ColumnOrder[5];
      }
    }
  }

  /** A table every row of which can be read. */
  predicate Readable(f: Frame) {
    f.Valid() && FirstMissing(f.headers).None?
  }

  /**
   * The record built from row `i` (lines 45-55): every cell stripped, option X
   * from column X, and the answer cell stored as it is, with nothing checked.
   */
  function Record(f: Frame, i: nat): (q: Question)
    requires Readable(f) && i < |f.rows|
    ensures q.options.Keys == Labels
    ensures IsTrimmed(q.question) && IsTrimmed(q.answer)
    ensures forall l :: l in q.options ==> IsTrimmed(q.options[l])
    ensures q.question == Trim(Field(f, i, "Question")) && q.answer == Trim(Field(f, i, "Answer"))
    ensures q.options == Options(Trim(Field(f, i, "A")), Trim(Field(f, i, "B")), Trim(Field(f, i, "C")), Trim(Field(f, i, "D")))
  {
    var question, a, b := Field(f, i, "Question"), Field(f, i, "A"), Field(f, i, "B");
    var c, d, answer := Field(f, i, "C"), Field(f, i, "D"), Field(f, i, "Answer");
    Stripped(question, a, b, c, d, answer)
  }

  /** The record of six cell texts, each stripped. */
  function Stripped(question: string, a: string, b: string, c: string, d: string, answer: string): (q: Question)
    ensures q.options.Keys == Labels
    ensures IsTrimmed(q.question) && IsTrimmed(q.answer)
    ensures forall l :: l in q.options ==> IsTrimmed(q.options[l])
  {
    Question(Trim(question), Options(Trim(a), Trim(b), Trim(c), Trim(d)), Trim(answer))
  }

  /** One record per row, in row order. */
  function Records(f: Frame): (qs: seq<Question>)
    requires Readable(f)
    ensures |qs| == |f.rows|
    ensures forall i :: 0 <= i < |f.rows| ==> qs[i] == Record(f, i)
  {
    seq(|f.rows|, i requires 0 <= i < |f.rows| => Record(f, i))
  }

  /** Lines 41-58 on a given table: one record per row, or `KeyError` at the first row if a column is missing. */
  function Convert(f: Frame): (r: Result<seq<Question>, LoadError>)
    requires f.Valid()
    ensures r.Ok? ==> |r.value| == |f.rows|
    ensures r.Err? ==> f.rows != [] && r.error.name !in f.headers
  {
    if f.rows == [] then Ok([])
    else match FirstMissing(f.headers)
      case Some(c) => Err(MissingColumn(c))
      case None => Ok(Records(f))
  }

  /**
   * The loader raises exactly when there is a row and a column is missing,
   * naming the first missing column; otherwise every row becomes a record.
   */
  lemma ConvertKeepsEveryRow(f: Frame)
    requires f.Valid()
    ensures Convert(f).Err? <==> f.rows != [] && FirstMissing(f.headers).Some?
    ensures Convert(f).Err? ==> Convert(f).error == MissingColumn(FirstMissing(f.headers).value)
    ensures Convert(f).Ok? ==> |Convert(f).value| == |f.rows|
    ensures Convert(f).Ok? && f.rows != [] ==>
      Readable(f) && forall i :: 0 <= i < |f.rows| ==> Convert(f).value[i] == Record(f, i)
    ensures Convert(f).Ok? && f.rows != [] ==> forall i :: 0 <= i < |f.rows| ==>
      Convert(f).value[i] == Question(Trim(Field(f, i, "Question")),
                                      Options(Trim(Field(f, i, "A")), Trim(Field(f, i, "B")), Trim(Field(f, i, "C")), Trim(Field(f, i, "D"))),
                                      Trim(Field(f, i, "Answer")))
  {
  }

  /** The loop body of lines 43-56 over the rows of a table. */
  method LoadFrame(f: Frame) returns (r: Result<seq<Question>, LoadError>)
    requires f.Valid()
    ensures r == Convert(f)
  {
    var missing := FirstMissing(f.headers);
    var questions: seq<Question> := [];
    for i := 0 to |f.rows|
      invariant i > 0 ==> Readable(f) && questions == Records(f)[..i]
      invariant i == 0 ==> questions == []
    {
      // `row["Question"]` and the other lookups raise on the first row already.
      match missing
      case Some(c) =>
        return Err(MissingColumn(c));
      case None =>
        PrefixStep(Records(f), i);
        questions := questions + [Record(f, i)];
    }
    if f.rows != [] {
      assert questions == Records(f);
    }
    return Ok(questions);
  }

  /** Lines 30-39: a spreadsheet only for a `.xlsx` path that reads, else the embedded table. */
  function SelectFrame(filepath: Option<string>, fileRead: Option<Frame>): (f: Frame)
    requires fileRead.Some? ==> fileRead.value.Valid()
    ensures f.Valid()
    ensures filepath.Some? && EndsWith(filepath.value, ".xlsx") && fileRead.Some? ==> f == fileRead.value
    ensures !(filepath.Some? && EndsWith(filepath.value, ".xlsx")) || fileRead.None? ==> f == MockFrame()
  {
    if filepath.Some? && EndsWith(filepath.value, ".xlsx") && fileRead.Some? then
      fileRead.value
    else
      MockFrame()
  }

  /** The whole of `load_questions_from_excel` in src/main_class.py. */
  function Load(filepath: Option<string>, fileRead: Option<Frame>): (r: Result<seq<Question>, LoadError>)
    requires fileRead.Some? ==> fileRead.value.Valid()
    ensures r.Err? ==> filepath.Some? && EndsWith(filepath.value, ".xlsx") && fileRead.Some?
    ensures r.Err? ==> r.error.name !in fileRead.value.headers
  {
    MockColumns(MockFrame().headers);
    Convert(SelectFrame(filepath, fileRead))
  }

  /** `load_questions_from_excel(filepath)`: choose the table, then build one record per row. */
  method LoadQuestionsFromExcel(filepath: Option<string>, fileRead: Option<Frame>)
    returns (r: Result<seq<Question>, LoadError>)
    requires fileRead.Some? ==> fileRead.value.Valid()
    ensures r == Load(filepath, fileRead)
  {
    var f := SelectFrame(filepath, fileRead);
    r := LoadFrame(f);
  }

  // ---------------------------------------------------------------------
  // Tables laid out as the embedded one
  // ---------------------------------------------------------------------

  /** The answer text is stored as it is: the record's answer is one of its option keys exactly when the stripped cell is. */
  lemma AnswerIsOptionIff(f: Frame, i: nat)
    requires Readable(f) && i < |f.rows|
    ensures Record(f, i).answer in Record(f, i).options <==> Trim(Field(f, i, "Answer")) in Labels
  {
  }

  /** The header row of the embedded table, in its order. */
  predicate MockLayout(h: seq<string>) {
    && |h| == 6 && h[0] == "Question" && h[1] == "A" && h[2] == "B"
    && h[3] == "C" && h[4] == "D" && h[5] == "Answer"
  }

  /** Column positions in a header row laid out as the embedded table's. */
  lemma MockColumns(h: seq<string>)
    requires MockLayout(h)
    ensures FirstMissing(h).None?
    ensures && ColumnIndex(h, "Question") == Some(0) && ColumnIndex(h, "A") == Some(1)
            && ColumnIndex(h, "B") == Some(2) && ColumnIndex(h, "C") == Some(3)
            && ColumnIndex(h, "D") == Some(4) && ColumnIndex(h, "Answer") == Some(5)
  {
    assert h[0] in h && h[1] in h && h[2] in h && h[3] in h && h[4] in h && h[5] in h;
  }

  /** A row whose six cells are already stripped; `q` is the record made of them. */
  predicate CleanRow(row: seq<string>, q: Question) {
    && |row| == 6
    && IsTrimmed(row[0]) && IsTrimmed(row[1]) && IsTrimmed(row[2])
    && IsTrimmed(row[3]) && IsTrimmed(row[4]) && IsTrimmed(row[5])
    && q == Question(row[0], Options(row[1], row[2], row[3], row[4]), row[5])
  }

  /** Under the embedded table's header row, a clean row becomes exactly the record of its cells. */
  lemma LaidOutRecord(f: Frame, i: nat, q: Question)
    requires f.Valid() && MockLayout(f.headers) && i < |f.rows| && CleanRow(f.rows[i], q)
    ensures Readable(f) && Record(f, i) == q
  {
    MockColumns(f.headers);
    var row := f.rows[i];
    TrimOfTrimmed(row[0]);
    TrimOfTrimmed(row[1]);
    TrimOfTrimmed(row[2]);
    TrimOfTrimmed(row[3]);
    TrimOfTrimmed(row[4]);
    TrimOfTrimmed(row[5]);
  }

  /** A table laid out as the embedded one, every row clean, loads as the records of its rows. */
  lemma LaidOutConverts(f: Frame, qs: seq<Question>)
    requires f.Valid() && MockLayout(f.headers) && |qs| == |f.rows|
    requires forall i :: 0 <= i < |f.rows| ==> CleanRow(f.rows[i], qs[i])
    ensures Convert(f) == Ok(qs)
  {
    MockColumns(f.headers);
    forall i | 0 <= i < |f.rows|
      ensures Records(f)[i] == qs[i]
    {
      LaidOutRecord(f, i, qs[i]);
    }
    assert Records(f) == qs;
  }
}
