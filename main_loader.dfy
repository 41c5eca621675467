/**
 * The question loader of src/main.py: it picks a table (the remote service,
 * a spreadsheet file, or the embedded mock), checks the mandatory columns,
 * and turns every row whose answer is a letter A-D into a question record,
 * skipping the others.
 */
module MainLoader {
  import opened Common
  import opened PyText
  import opened Frames

  /** One question as the loader builds it: `qn`, the prompt, four labelled options, the correct label. */
  datatype Question = Question(qn: int, question: string, options: map<string, string>, answer: string)

  /** Why the loader raises after the schema check: `row['QN']` is missing, or `int()` rejects its text. */
  datatype LoadError = MissingQnColumn | BadQn(row: nat, text: string)

  /** What happens to one row: skipped for a bad answer code, kept as a question, or the loader raises. */
  datatype RowResult = Skip | Keep(q: Question) | Fail(e: LoadError)

  /** The path `main` passes to the loader. */
  const FilePath: string := "src/MCQ_files/mcq_algae.ods"

  const RequiredColumns: seq<string> := ["Question", "A", "B", "C", "D", "Answer"]

  /** The answer codes accepted after trimming and upper-casing. */
  const Letters: seq<string> := ["A", "B", "C", "D"]

  /** The embedded CSV table, as `pd.read_csv` parses it: a header row and four data rows. */
  function MockFrame(): Frame {
    Frame(MockHeader(), [MockRow1(), MockRow2(), MockRow3(), MockRow4()])
  }

  function MockHeader(): seq<string> {
    ["QN", "Question", "A", "B", "C", "D", "Answer"]
  }

  function MockRow1(): seq<string> {
    ["1", "What is the capital of France?", "Berlin", "Madrid", "Paris", "Rome", "C"]
  }

  function MockRow2(): seq<string> {
    ["2", "What is the chemical symbol for water?", "O2", "H2O", "CO2", "NaCl", "B"]
  }

  function MockRow3(): seq<string> {
    ["3", "Which planet is known as the Red Planet?", "Venus", "Mars", "Jupiter", "Saturn", "B"]
  }

  function MockRow4(): seq<string> {
    ["4", "Who wrote 'To Kill a Mockingbird'?", "J.K. Rowling", "Ernest Hemingway", "Harper Lee", "F. Scott Fitzgerald", "C"]
  }

  /** The four questions the loader makes of the embedded table. */
  function MockQuestions(): seq<Question> {
    [MockQuestion1(), MockQuestion2(), MockQuestion3(), MockQuestion4()]
  }

  function MockQuestion1(): Question {
    Question(1, "What is the capital of France?", Options("Berlin", "Madrid", "Paris", "Rome"), "option C")
  }

  function MockQuestion2(): Question {
    Question(2, "What is the chemical symbol for water?", Options("O2", "H2O", "CO2", "NaCl"), "option B")
  }

  function MockQuestion3(): Question {
    Question(3, "Which planet is known as the Red Planet?", Options("Venus", "Mars", "Jupiter", "Saturn"), "option B")
  }

  function MockQuestion4(): Question {
    Question(4, "Who wrote 'To Kill a Mockingbird'?", Options("J.K. Rowling", "Ernest Hemingway", "Harper Lee", "F. Scott Fitzgerald"), "option C")
  }

  /** `all(col in df.columns for col in required_cols)`, written out name by name. */
  predicate HasRequiredColumns(headers: seq<string>) {
    && "Question" in headers && "A" in headers && "B" in headers
    && "C" in headers && "D" in headers && "Answer" in headers
  }

  /** The written-out check is the check over the list of mandatory columns. */
  lemma HasRequiredColumnsIff(headers: seq<string>)
    ensures HasRequiredColumns(headers) <==> forall c :: c in RequiredColumns ==> c in headers
  {
    if forall c :: c in RequiredColumns ==> c in headers {
      assert RequiredColumns[0] in headers && RequiredColumns[1] in headers && RequiredColumns[2] in headers;
      assert RequiredColumns[3] in headers && RequiredColumns[4] in headers && RequiredColumns[5] in headers;
    }
  }

  /** A frame the per-row loop can run on: rectangular, with the mandatory columns. */
  predicate Ready(f: Frame) {
    f.Valid() && HasRequiredColumns(f.headers)
  }

  /** What the presentation layer relies on: the answer is one of the four option keys, and texts are trimmed. */
  predicate WellFormed(q: Question) {
    && q.options.Keys == Labels
    && q.answer in q.options
    && IsTrimmed(q.question)
    && forall l :: l in q.options ==> IsTrimmed(q.options[l])
  }

  /** The row's answer cell, trimmed and upper-cased. */
  function AnswerKey(f: Frame, i: nat): (r: string)
    requires Ready(f) && i < |f.rows|
    ensures |r| == |Trim(Field(f, i, "Answer"))|
  {
    Upper(Trim(Field(f, i, "Answer")))
  }

  predicate ValidAnswer(f: Frame, i: nat)
    requires Ready(f) && i < |f.rows|
  {
    AnswerKey(f, i) in Letters
  }

  /** A row's answer code is valid exactly when its stripped answer cell is one letter A-D, in either case. */
  lemma ValidAnswerIff(f: Frame, i: nat)
    requires Ready(f) && i < |f.rows|
    ensures ValidAnswer(f, i) <==> Trim(Field(f, i, "Answer")) in ["A", "B", "C", "D", "a", "b", "c", "d"]
  {
    var s := Trim(Field(f, i, "Answer"));
    UpperIsLetter(s, 'A');
    UpperIsLetter(s, 'B');
    UpperIsLetter(s, 'C');
    UpperIsLetter(s, 'D');
  }

  /** One pass of the loop body on row `i`. */
  function ConvertRow(f: Frame, i: nat): (r: RowResult)
    requires Ready(f) && i < |f.rows|
    ensures r.Skip? <==> !ValidAnswer(f, i)
    ensures r == Fail(MissingQnColumn) <==> ValidAnswer(f, i) && "QN" !in f.headers
    ensures r.Fail? && r.e.BadQn? ==>
      && "QN" in f.headers && r.e.row == i
      && r.e.text == Trim(Field(f, i, "QN")) && ParseInt(r.e.text).None?
    ensures r.Keep? ==> "QN" in f.headers && ParseInt(Trim(Field(f, i, "QN"))) == Some(r.q.qn)
    ensures r.Keep? ==> WellFormed(r.q) && r.q.answer == "option " + AnswerKey(f, i)
    ensures r.Keep? ==> r.q.question == Trim(Field(f, i, "Question"))
    ensures r.Keep? ==> r.q.options == Options(Trim(Field(f, i, "A")), Trim(Field(f, i, "B")), Trim(Field(f, i, "C")), Trim(Field(f, i, "D")))
  {
    var key := AnswerKey(f, i);
    if key !in Letters then Skip
    else if "QN" !in f.headers then Fail(MissingQnColumn)
    else
      var qnText := Trim(Field(f, i, "QN"));
      match ParseInt(qnText)
      case None => Fail(BadQn(i, qnText))
      case Some(n) =>
        var question := Trim(Field(f, i, "Question"));
        var optA, optB := Trim(Field(f, i, "A")), Trim(Field(f, i, "B"));
        var optC, optD := Trim(Field(f, i, "C")), Trim(Field(f, i, "D"));
        BuiltQuestionIsWellFormed(n, question, optA, optB, optC, optD, key);
        Keep(Question(n, question, Options(optA, optB, optC, optD), "option " + key))
  }

  /** A question built from trimmed cells and an answer code A-D is well formed. */
  lemma BuiltQuestionIsWellFormed(qn: int, question: string, a: string, b: string, c: string, d: string, key: string)
    requires IsTrimmed(question) && IsTrimmed(a) && IsTrimmed(b) && IsTrimmed(c) && IsTrimmed(d)
    requires key in Letters
    ensures WellFormed(Question(qn, question, Options(a, b, c, d), "option " + key))
  {
    var m := Options(a, b, c, d);
    assert m.Keys == Labels;
    assert key == "A" || key == "B" || key == "C" || key == "D";
    if key == "A" { assert "option " + key == "option A"; }
    else if key == "B" { assert "option " + key == "option B"; }
    else if key == "C" { assert "option " + key == "option C"; }
    else { assert "option " + key == "option D"; }
  }

  /** The outcome of the loop body on each of the first `n` rows, in row order. */
  function RowsUpTo(f: Frame, n: nat): (rs: seq<RowResult>)
    requires Ready(f) && n <= |f.rows|
    ensures |rs| == n
  {
    if n == 0 then [] else RowsUpTo(f, n - 1) + [ConvertRow(f, n - 1)]
  }

  lemma {:induction false} RowsUpToAt(f: Frame, n: nat, i: nat)
    requires Ready(f) && i < n <= |f.rows|
    ensures RowsUpTo(f, n)[i] == ConvertRow(f, i)
  {
    var rs := RowsUpTo(f, n - 1);
    assert RowsUpTo(f, n) == rs + [ConvertRow(f, n - 1)];
    if i < n - 1 {
      RowsUpToAt(f, n - 1, i);
      assert (rs + [ConvertRow(f, n - 1)])[i] == rs[i];
    }
  }

  lemma {:induction false} RowsUpToPrefix(f: Frame, n: nat, m: nat)
    requires Ready(f) && n <= m <= |f.rows|
    ensures RowsUpTo(f, m)[..n] == RowsUpTo(f, n)
    decreases m
  {
    if n < m {
      RowsUpToPrefix(f, n, m - 1);
      SnocPrefix(RowsUpTo(f, m - 1), ConvertRow(f, m - 1), n);
    } else {
      assert RowsUpTo(f, m)[..n] == RowsUpTo(f, m);
    }
  }

  /** The outcome of the loop body on every row. */
  function RowResults(f: Frame): (rs: seq<RowResult>)
    requires Ready(f)
    ensures |rs| == |f.rows|
  {
    RowsUpTo(f, |f.rows|)
  }

  lemma RowResultsAt(f: Frame)
    requires Ready(f)
    ensures forall i :: 0 <= i < |f.rows| ==> RowResults(f)[i] == ConvertRow(f, i)
  {
    forall i | 0 <= i < |f.rows|
      ensures RowResults(f)[i] == ConvertRow(f, i)
    {
      RowsUpToAt(f, |f.rows|, i);
    }
  }

  /** The loop over a run of row outcomes: the questions appended so far, or the first error raised. */
  function Gather(rs: seq<RowResult>): (r: Result<seq<Question>, LoadError>)
    ensures r.Ok? ==> |r.value| <= |rs|
  {
    if rs == [] then Ok([])
    else match Gather(rs[..|rs| - 1])
      case Err(e) => Err(e)
      case Ok(qs) =>
        match rs[|rs| - 1]
        case Skip => Ok(qs)
        case Keep(q) => Ok(qs + [q])
        case Fail(e) => Err(e)
  }

  /** `load_questions_from_excel` from the schema check on. */
  function Normalize(f: Frame): (r: Result<seq<Question>, LoadError>)
    requires f.Valid()
    ensures !HasRequiredColumns(f.headers) ==> r == Ok([])
  {
    if !HasRequiredColumns(f.headers) then Ok([]) else Gather(RowResults(f))
  }

  /** The positions, in increasing order, of the outcomes that are not skips. */
  function Kept(rs: seq<RowResult>): (r: seq<nat>)
    ensures forall k :: 0 <= k < |r| ==> r[k] < |rs|
    ensures forall i: nat :: i in r <==> i < |rs| && !rs[i].Skip?
    ensures forall j, k :: 0 <= j < k < |r| ==> r[j] < r[k]
    ensures |r| + Skipped(rs) == |rs|
  {
    if rs == [] then []
    else
      var prev := Kept(rs[..|rs| - 1]);
      var r := prev + (if rs[|rs| - 1].Skip? then [] else [|rs| - 1]);
      assert forall k :: 0 <= k < |prev| ==> r[k] == prev[k];
      r
  }

  /** How many outcomes are skips. */
  function Skipped(rs: seq<RowResult>): nat {
    if rs == [] then 0
    else Skipped(rs[..|rs| - 1]) + (if rs[|rs| - 1].Skip? then 1 else 0)
  }

  /**
   * When the loop completes, its output is exactly the questions of the
   * rows that were not skipped, in row order.
   */
  lemma {:induction false} GatherIsKeptInOrder(rs: seq<RowResult>)
    requires Gather(rs).Ok?
    ensures |Gather(rs).value| == |Kept(rs)|
    ensures forall k :: 0 <= k < |Kept(rs)| ==> rs[Kept(rs)[k]] == Keep(Gather(rs).value[k])
  {
    if rs != [] {
      var init := rs[..|rs| - 1];
      GatherIsKeptInOrder(init);
      var qs, ks := Gather(init).value, Kept(init);
      var last := rs[|rs| - 1];
      if last.Keep? {
        var out, kr := qs + [last.q], ks + [|rs| - 1];
        assert Gather(rs).value == out;
        assert Kept(rs) == kr;
        forall k | 0 <= k < |kr|
          ensures rs[kr[k]] == Keep(out[k])
        {
          if k < |ks| {
            assert kr[k] == ks[k] && out[k] == qs[k] && rs[ks[k]] == init[ks[k]];
          }
        }
      } else {
        assert Kept(rs) == ks;
        forall k | 0 <= k < |ks|
          ensures rs[ks[k]] == Keep(qs[k])
        {
          assert rs[ks[k]] == init[ks[k]];
        }
      }
    }
  }

  /** The loop raises exactly when some row raises, and the error is that of the first such row. */
  lemma {:induction false} GatherFailsAtFirstBadRow(rs: seq<RowResult>)
    ensures Gather(rs).Err? <==> exists i :: 0 <= i < |rs| && rs[i].Fail?
    ensures Gather(rs).Err? ==>
      exists i :: 0 <= i < |rs| && rs[i] == Fail(Gather(rs).error) &&
        forall j :: 0 <= j < i ==> !rs[j].Fail?
  {
    if rs != [] {
      var init := rs[..|rs| - 1];
      GatherFailsAtFirstBadRow(init);
      assert forall j :: 0 <= j < |init| ==> init[j] == rs[j];
      if Gather(init).Err? {
        var i :| 0 <= i < |init| && init[i] == Fail(Gather(init).error) &&
          forall j :: 0 <= j < i ==> !init[j].Fail?;
        assert rs[i] == Fail(Gather(rs).error);
      }
    }
  }

  /** Once the loop has raised, later rows change nothing. */
  lemma {:induction false} GatherErrSticks(rs: seq<RowResult>, n: nat)
    requires n <= |rs| && Gather(rs[..n]).Err?
    ensures Gather(rs) == Gather(rs[..n])
    decreases |rs|
  {
    if n < |rs| {
      var init := rs[..|rs| - 1];
      assert init[..n] == rs[..n];
      GatherErrSticks(init, n);
    } else {
      assert rs[..n] == rs;
    }
  }

  /** Every question the loop returns came from a kept row, so it is well formed. */
  lemma GatherIsWellFormed(rs: seq<RowResult>)
    requires forall i :: 0 <= i < |rs| && rs[i].Keep? ==> WellFormed(rs[i].q)
    requires Gather(rs).Ok?
    ensures forall k :: 0 <= k < |Gather(rs).value| ==> WellFormed(Gather(rs).value[k])
  {
    GatherIsKeptInOrder(rs);
  }

  /**
   * The batch-level promise: with the mandatory columns present and no row
   * raising, the output has one question per row whose answer code is A-D,
   * in row order, so its length is the row count less the skipped rows; and
   * every question's answer is one of its option keys.
   */
  lemma NormalizeKeepsValidRowsInOrder(f: Frame)
    requires Ready(f) && Normalize(f).Ok?
    ensures var qs, ks := Normalize(f).value, Kept(RowResults(f));
      && |qs| == |ks| == |f.rows| - Skipped(RowResults(f))
      && (forall i: nat :: i in ks <==> i < |f.rows| && ValidAnswer(f, i))
      && (forall j, k :: 0 <= j < k < |ks| ==> ks[j] < ks[k])
      && (forall k :: 0 <= k < |qs| ==> ConvertRow(f, ks[k]) == Keep(qs[k]))
      && (forall k :: 0 <= k < |qs| ==> WellFormed(qs[k]))
  {
    var rs := RowResults(f);
    RowResultsAt(f);
    GatherIsKeptInOrder(rs);
    GatherIsWellFormed(rs);
  }

  /**
   * The loader raises exactly when a row with a valid answer code has no
   * `QN` column to read, or a `QN` cell that `int()` refuses.
   */
  lemma NormalizeFailsIff(f: Frame)
    requires Ready(f)
    ensures Normalize(f).Err? <==> exists i :: 0 <= i < |f.rows| && BadQnRow(f, i)
  {
    RowResultsAt(f);
    GatherFailsAtFirstBadRow(RowResults(f));
    forall i | 0 <= i < |f.rows|
      ensures ConvertRow(f, i).Fail? <==> BadQnRow(f, i)
    {
    }
  }

  /** A row whose answer code is valid but whose question number cannot be read. */
  predicate BadQnRow(f: Frame, i: nat)
    requires Ready(f) && i < |f.rows|
  {
    ValidAnswer(f, i) && ("QN" !in f.headers || ParseInt(Trim(Field(f, i, "QN"))).None?)
  }

  /** An error raised at row `n - 1`, with no error before it, is the loader's result. */
  lemma StopsAtError(f: Frame, n: nat)
    requires Ready(f) && 0 < n <= |f.rows| && Gather(RowsUpTo(f, n)).Err?
    ensures Normalize(f) == Gather(RowsUpTo(f, n))
  {
    RowsUpToPrefix(f, n, |f.rows|);
    GatherErrSticks(RowResults(f), n);
  }

  /**
   * `load_questions_from_excel` (lines 81-114) on a given frame, with the
   * loop over `df.iterrows()` that skips bad answer codes and appends the rest.
   */
  method NormalizeFrame(f: Frame) returns (r: Result<seq<Question>, LoadError>)
    requires f.Valid()
    ensures r == Normalize(f)
  {
    if !HasRequiredColumns(f.headers) {
      return Ok([]);
    }
    var questions: seq<Question> := [];
    for i := 0 to |f.rows|
      invariant Gather(RowsUpTo(f, i)) == Ok(questions)
    {
      var outcome := ConvertRow(f, i);
      assert RowsUpTo(f, i + 1)[..i] == RowsUpTo(f, i);
      match outcome
      case Skip =>
        continue;
      case Fail(e) =>
        StopsAtError(f, i + 1);
        return Err(e);
      case Keep(q) =>
        questions := questions + [q];
    }
    return Ok(questions);
  }

  // ---------------------------------------------------------------------
  // Choosing the table (lines 48-79)
  // ---------------------------------------------------------------------

  /**
   * What `requests.get` gave: a `ConnectionError`, or a response with a status
   * code and, when the body decodes as JSON with a `questions` list, that list
   * of rows (header row first).
   */
  datatype Remote = ConnectionFailed | Responded(status: int, body: Option<seq<seq<string>>>)

  /** Where the table came from. */
  datatype Source = FromRemote | FromFile | FromMock

  /** The ways the table choice raises before any row is read. */
  datatype Crash =
    | UnboundResponse   // `response` was never bound: the `ConnectionError` handler only sets a flag
    | UnusableBody      // `response.json()` fails, or it has no `questions` entry
    | NoHeaderRow       // `questions[0]` on an empty list
    | RowTooLong(row: nat)  // `pd.DataFrame` refuses a data row with more cells than there are columns
    | NoFullRow         // ... and data whose widest row is narrower than the header row

  datatype Picked = Picked(source: Source, frame: Frame)

  /** `load_questions_from_excel` as a whole: a list of questions, or the exception it raises. */
  datatype Failure = SourceFailed(crash: Crash) | RowFailed(error: LoadError)

  /** The text of a cell that `pd.DataFrame` adds to a data row shorter than the header row. */
  const MissingCell: string := "None"

  /** `row` padded on the right with missing cells up to `n` cells. */
  function Pad(row: seq<string>, n: nat): (r: seq<string>)
    requires |row| <= n
    ensures |r| == n && r[..|row|] == row
    ensures forall j :: |row| <= j < n ==> r[j] == MissingCell
  {
    row + seq(n - |row|, _ => MissingCell)
  }

  /** The first data row (1-based within the table) longer than the header row, if any. */
  function FirstTooLong(table: seq<seq<string>>, from: nat): (r: Option<nat>)
    requires table != [] && 1 <= from <= |table|
    ensures r.None? <==> forall i :: from <= i < |table| ==> |table[i]| <= |table[0]|
    ensures r.Some? ==> from <= r.value < |table| && |table[r.value]| > |table[0]|
    ensures r.Some? ==> forall i :: from <= i < r.value ==> |table[i]| <= |table[0]|
    decreases |table| - from
  {
    if from == |table| then None
    else if |table[from]| > |table[0]| then Some(from)
    else FirstTooLong(table, from + 1)
  }

  /** Some data row has exactly as many cells as the header row. */
  predicate HasFullRow(table: seq<seq<string>>)
    requires table != []
  {
    exists i :: 1 <= i < |table| && |table[i]| == |table[0]|
  }

  /**
   * `pd.DataFrame(questions[1:], columns=questions[0])` (lines 64-67): the
   * first row labels the columns, the rest are the data, each padded to the
   * header's width. pandas takes the data's width from its widest row and
   * raises unless that is the header's width; with no data rows at all the
   * frame is empty.
   */
  function RemoteFrame(table: seq<seq<string>>): (r: Result<Frame, Crash>)
    ensures table == [] ==> r == Err(NoHeaderRow)
    ensures r.Ok? ==> && r.value.Valid()
                      && r.value.headers == table[0]
                      && |r.value.rows| == |table| - 1
    ensures r.Ok? ==> forall i :: 0 <= i < |r.value.rows| ==>
      |table[i + 1]| <= |table[0]| && r.value.rows[i] == Pad(table[i + 1], |table[0]|)
    ensures r.Err? && table != [] ==> r.error.RowTooLong? || r.error.NoFullRow?
    ensures r.Err? && r.error.RowTooLong? ==> 1 <= r.error.row < |table| && |table[r.error.row]| > |table[0]|
    ensures r.Err? && r.error.NoFullRow? ==>
      && |table| > 1
      && forall i :: 1 <= i < |table| ==> |table[i]| < |table[0]|
    ensures table != [] ==>
      (r.Ok? <==> && (forall i :: 1 <= i < |table| ==> |table[i]| <= |table[0]|)
                  && (|table| == 1 || exists i :: 1 <= i < |table| && |table[i]| == |table[0]|))
  {
    if table == [] then Err(NoHeaderRow)
    else match FirstTooLong(table, 1)
      case Some(i) => Err(RowTooLong(i))
      case None =>
        if |table| > 1 && !HasFullRow(table) then Err(NoFullRow)
        else Ok(Frame(table[0], seq(|table| - 1, i requires 0 <= i < |table| - 1 => Pad(table[i + 1], |table[0]|))))
  }

  /** The `elif` guard of line 70: a path ending in `.xlsx` or `.ods` (which is then not empty). */
  predicate IsSpreadsheetPath(filepath: Option<string>) {
    filepath.Some? && (EndsWith(filepath.value, ".xlsx") || EndsWith(filepath.value, ".ods"))
  }

  /**
   * Lines 48-79: the table the loader goes on to normalise. The request's
   * outcome and the spreadsheet reader's outcome (`None` when `pd.read_excel`
   * raises) are parameters.
   */
  function SelectSource(remote: Remote, filepath: Option<string>, fileRead: Option<Frame>): (r: Result<Picked, Crash>)
    requires fileRead.Some? ==> fileRead.value.Valid()
    ensures remote.ConnectionFailed? <==> r == Err(UnboundResponse)
    ensures r.Ok? ==> r.value.frame.Valid()
    ensures r.Err? ==> remote.ConnectionFailed? || remote.status == 200
    ensures r.Ok? && r.value.source == FromRemote <==>
      remote.Responded? && remote.status == 200 && r.Ok?
    ensures r.Ok? && r.value.source == FromRemote ==>
      remote.body.Some? && RemoteFrame(remote.body.value) == Ok(r.value.frame)
    ensures remote.Responded? && remote.status == 200 ==>
      (r.Ok? <==> remote.body.Some? && RemoteFrame(remote.body.value).Ok?)
    ensures remote.Responded? && remote.status == 200 && remote.body.None? ==> r == Err(UnusableBody)
    ensures remote.Responded? && remote.status == 200 && remote.body.Some? && r.Err? ==>
      RemoteFrame(remote.body.value) == Err(r.error)
    ensures r.Ok? && r.value.source == FromFile <==>
      remote.Responded? && remote.status != 200 && IsSpreadsheetPath(filepath) && fileRead.Some?
    ensures r.Ok? && r.value.source == FromFile ==> r.value.frame == fileRead.value
    ensures r.Ok? && r.value.source == FromMock ==> r.value.frame == MockFrame()
  {
    match remote
    case ConnectionFailed => Err(UnboundResponse)
    case Responded(status, body) =>
      if status == 200 then
        match body
        case None => Err(UnusableBody)
        case Some(table) =>
          match RemoteFrame(table)
          case Err(c) => Err(c)
          case Ok(frame) => Ok(Picked(FromRemote, frame))
      else if IsSpreadsheetPath(filepath) && fileRead.Some? then
        Ok(Picked(FromFile, fileRead.value))
      else
        Ok(Picked(FromMock, MockFrame()))
  }

  /** The whole of `load_questions_from_excel`. */
  function Load(remote: Remote, filepath: Option<string>, fileRead: Option<Frame>): (r: Result<seq<Question>, Failure>)
    requires fileRead.Some? ==> fileRead.value.Valid()
    ensures remote.ConnectionFailed? ==> r == Err(SourceFailed(UnboundResponse))
    ensures r.Err? && r.error.SourceFailed? ==> remote.ConnectionFailed? || remote.status == 200
  {
    match SelectSource(remote, filepath, fileRead)
    case Err(c) => Err(SourceFailed(c))
    case Ok(picked) =>
      match Normalize(picked.frame)
      case Err(e) => Err(RowFailed(e))
      case Ok(qs) => Ok(qs)
  }

  /** `load_questions_from_excel(filepath)`: choose the table, then run the row loop on it. */
  method LoadQuestionsFromExcel(remote: Remote, filepath: Option<string>, fileRead: Option<Frame>)
    returns (r: Result<seq<Question>, Failure>)
    requires fileRead.Some? ==> fileRead.value.Valid()
    ensures r == Load(remote, filepath, fileRead)
  {
    var picked := SelectSource(remote, filepath, fileRead);
    if picked.Err? {
      return Err(SourceFailed(picked.error));
    }
    var normalized := NormalizeFrame(picked.value.frame);
    if normalized.Err? {
      return Err(RowFailed(normalized.error));
    }
    return Ok(normalized.value);
  }

  // ---------------------------------------------------------------------
  // What the loader returns in particular cases
  // ---------------------------------------------------------------------

  /** The upper-case answer codes are their own `strip().upper()`. */
  lemma CleanLetter(s: string)
    requires s in Letters
    ensures Upper(Trim(s)) == s
  {
    TrimOfTrimmed(s);
    assert Upper(s)[0] == s[0];
  }

  /**
   * A row whose cells are already stripped, whose answer is an upper-case
   * letter A-D and whose `QN` cell is an integer's spelling becomes exactly
   * the question built from those cells.
   */
  lemma CleanRowKept(f: Frame, i: nat, n: int)
    requires Ready(f) && i < |f.rows| && "QN" in f.headers
    requires Field(f, i, "QN") == Show(n)
    requires Field(f, i, "Answer") in Letters
    requires IsTrimmed(Field(f, i, "Question"))
    requires IsTrimmed(Field(f, i, "A")) && IsTrimmed(Field(f, i, "B"))
    requires IsTrimmed(Field(f, i, "C")) && IsTrimmed(Field(f, i, "D"))
    ensures ConvertRow(f, i) == Keep(Question(n, Field(f, i, "Question"),
      Options(Field(f, i, "A"), Field(f, i, "B"), Field(f, i, "C"), Field(f, i, "D")),
      "option " + Field(f, i, "Answer")))
  {
    CleanLetter(Field(f, i, "Answer"));
    TrimOfTrimmed(Show(n));
    ParseShow(n);
    TrimOfTrimmed(Field(f, i, "Question"));
    TrimOfTrimmed(Field(f, i, "A"));
    TrimOfTrimmed(Field(f, i, "B"));
    TrimOfTrimmed(Field(f, i, "C"));
    TrimOfTrimmed(Field(f, i, "D"));
  }

  /** A run of outcomes in which every row is kept gathers to exactly those questions. */
  lemma {:induction false} GatherKeeps(rs: seq<RowResult>, qs: seq<Question>)
    requires |rs| == |qs| && forall i :: 0 <= i < |rs| ==> rs[i] == Keep(qs[i])
    ensures Gather(rs) == Ok(qs)
  {
    if rs != [] {
      var n := |rs| - 1;
      GatherKeeps(rs[..n], qs[..n]);
      assert qs[..n] + [qs[n]] == qs;
    }
  }

  /** Column positions in a header row laid out as the embedded table's. */
  lemma MockColumns(h: seq<string>)
    requires MockLayout(h)
    ensures && ColumnIndex(h, "QN") == Some(0) && ColumnIndex(h, "Question") == Some(1)
            && ColumnIndex(h, "A") == Some(2) && ColumnIndex(h, "B") == Some(3)
            && ColumnIndex(h, "C") == Some(4) && ColumnIndex(h, "D") == Some(5)
            && ColumnIndex(h, "Answer") == Some(6)
  {
  }

  /** The header row of the embedded table, in its order. */
  predicate MockLayout(h: seq<string>) {
    && |h| == 7 && h[0] == "QN" && h[1] == "Question" && h[2] == "A" && h[3] == "B"
    && h[4] == "C" && h[5] == "D" && h[6] == "Answer"
  }

  /**
   * A row, under the embedded table's header row, that needs no cleaning:
   * stripped cells, an upper-case answer letter, an integer's spelling
   * under `QN`; `q` is the question made of its cells.
   */
  predicate CleanRow(row: seq<string>, q: Question) {
    && |row| == 7
    && row[0] == Show(q.qn) && row[6] in Letters
    && IsTrimmed(row[1]) && IsTrimmed(row[2]) && IsTrimmed(row[3]) && IsTrimmed(row[4]) && IsTrimmed(row[5])
    && q == Question(q.qn, row[1], Options(row[2], row[3], row[4], row[5]), "option " + row[6])
  }

  lemma LaidOutRowKept(f: Frame, i: nat, q: Question)
    requires Ready(f) && i < |f.rows| && MockLayout(f.headers) && CleanRow(f.rows[i], q)
    ensures ConvertRow(f, i) == Keep(q)
  {
    MockColumns(f.headers);
    CleanRowKept(f, i, q.qn);
  }

  /** A table laid out as the embedded one, every row clean, normalises to the questions made of its rows. */
  lemma LaidOutNormalizes(f: Frame, qs: seq<Question>)
    requires Ready(f) && MockLayout(f.headers) && |qs| == |f.rows|
    requires forall i :: 0 <= i < |f.rows| ==> CleanRow(f.rows[i], qs[i])
    ensures Normalize(f) == Ok(qs)
  {
    var rs := RowResults(f);
    forall i | 0 <= i < |rs|
      ensures rs[i] == Keep(qs[i])
    {
      RowsUpToAt(f, |f.rows|, i);
      LaidOutRowKept(f, i, qs[i]);
    }
    GatherKeeps(rs, qs);
  }

  /** A run of outcomes that are all skips or one and the same error gathers to nothing, or to that error. */
  lemma {:induction false} GatherSkipsOrFails(rs: seq<RowResult>, e: LoadError)
    requires forall i :: 0 <= i < |rs| ==> rs[i] == Skip || rs[i] == Fail(e)
    ensures Gather(rs) == if forall i :: 0 <= i < |rs| ==> rs[i] == Skip then Ok([]) else Err(e)
  {
    if rs != [] {
      var init := rs[..|rs| - 1];
      GatherSkipsOrFails(init, e);
      assert forall i :: 0 <= i < |init| ==> init[i] == rs[i];
    }
  }

  /**
   * `QN` is not among the mandatory columns, yet every kept row reads it:
   * without that column the loader returns nothing when every row is
   * skipped, and otherwise raises `KeyError` at the first row with a valid
   * answer code.
   */
  lemma NormalizeWithoutQnColumn(f: Frame)
    requires Ready(f) && "QN" !in f.headers
    ensures Normalize(f) == if forall i :: 0 <= i < |f.rows| ==> !ValidAnswer(f, i) then Ok([]) else Err(MissingQnColumn)
  {
    var rs := RowResults(f);
    RowResultsAt(f);
    assert forall i :: 0 <= i < |rs| ==> rs[i] == Skip || rs[i] == Fail(MissingQnColumn);
    assert forall i :: 0 <= i < |rs| ==> (rs[i] == Skip <==> !ValidAnswer(f, i));
    GatherSkipsOrFails(rs, MissingQnColumn);
    if forall i :: 0 <= i < |f.rows| ==> !ValidAnswer(f, i) {
      assert forall i :: 0 <= i < |rs| ==> rs[i] == Skip;
    } else {
      var i :| 0 <= i < |f.rows| && ValidAnswer(f, i);
      assert rs[i] != Skip;
    }
  }

  /** A table whose data rows all have the header's width becomes exactly that header and those rows. */
  lemma RemoteFrameOfRectangular(table: seq<seq<string>>)
    requires table != [] && forall i :: 1 <= i < |table| ==> |table[i]| == |table[0]|
    ensures RemoteFrame(table) == Ok(Frame(table[0], table[1..]))
  {
    var r := RemoteFrame(table);
    assert r.Ok?;
    var rows := r.value.rows;
    forall i | 0 <= i < |rows|
      ensures rows[i] == table[1..][i]
    {
      assert Pad(table[i + 1], |table[0]|) == table[i + 1];
    }
    assert rows == table[1..];
  }
}
