/** The `columnValuesMissingCountToBeEqual` data-quality test: the number of
    missing values of a column (its NULLs, plus the rows holding one of the
    configured "missing" markers) must equal an expected count. */
module ColumnValuesMissingCount {
  import opened Wrappers
  import opened PyBuiltins

  datatype TestCaseStatus = Success | Failed | Aborted

  datatype TestResultValue = TestResultValue(name: string, value: Option<string>)

  datatype TestCaseResult = TestCaseResult(
    timestamp: int,
    testCaseStatus: TestCaseStatus,
    result: string,
    testResultValue: seq<TestResultValue>)

  /** A parameter of the test case, its text already evaluated as a literal. */
  datatype TestCaseParameterValue = TestCaseParameterValue(name: string, value: PyValue)

  datatype TestCase = TestCase(
    name: string,
    entityLink: string,
    parameterValues: seq<TestCaseParameterValue>)

  /** What running one metric query gives: an error with its message, or the
      metric's value in the first row, which SQL may leave NULL. */
  datatype QueryResult = QueryError(message: string) | QueryRow(value: Option<int>)

  /** An exception that escapes the validation. */
  datatype UncaughtError = StopIteration

  const LinkSeparator := "::"
  const MissingValueMatch := "missingValueMatch"
  const MissingCountValue := "missingCountValue"
  /** The class name of a test case, which the second error message names. */
  const TestCaseClassName := "TestCase"

  /** The column an entity link points at: the text after its last "::", with
      the closing '>' dropped. */
  function ColumnName(entityLink: string): (name: string)
    ensures '>' !in name
  {
    RemoveAll(Last(Split(entityLink, LinkSeparator)), '>')
  }

  /** A column link `<#E::table::<table fqn>::columns::<column>>` names its
      column, provided the part before the last "::" is empty or does not end
      in ':', and the column holds neither ':' nor '>'. */
  lemma ColumnNameOfLink(prefix: string, column: string)
    requires prefix == [] || prefix[|prefix| - 1] != ':'
    requires ':' !in column && '>' !in column
    ensures ColumnName(prefix + "::" + column + ">") == column
  {
    var tail := column + ">";
    calc {
      ColumnName(prefix + "::" + column + ">");
      == { assert prefix + "::" + column + ">" == prefix + "::" + tail; }
      RemoveAll(Last(Split(prefix + "::" + tail, "::")), '>');
      == { assert ':' !in tail;
           SplitAtDoubleColon(prefix, tail);
           FirstCharAbsent(tail, "::");
           SplitWithoutSeparator(tail, "::"); }
      RemoveAll(Last(Split(prefix, "::") + [tail]), '>');
      ==
      RemoveAll(tail, '>');
      == { RemoveAllAppend(column, ">", '>'); }
      RemoveAll(column, '>') + RemoveAll(">", '>');
      == { assert RemoveAll(">", '>') == []; }
      column;
    }
  }

  /** The value of the first parameter called `name`, if any. */
  function FirstParam(params: seq<TestCaseParameterValue>, name: string): (v: Option<PyValue>)
    ensures v.None? <==> forall i | 0 <= i < |params| :: params[i].name != name
    ensures v.Some? ==> exists i | 0 <= i < |params| ::
      params[i] == TestCaseParameterValue(name, v.value) &&
      forall j | 0 <= j < i :: params[j].name != name
    decreases |params|
  {
    if params == [] then None
    else if params[0].name == name then Some(params[0].value)
    else
      var v := FirstParam(params[1..], name);
      assert v.Some? ==> exists i | 0 <= i < |params[1..]| ::
        params[1..][i] == TestCaseParameterValue(name, v.value) &&
        forall j | 0 <= j < i :: params[1..][j].name != name;
      v
  }

  /** Whether missing-value markers are configured: the first
      `missingValueMatch` parameter exists and is truthy. */
  function MatchingEnabled(testCase: TestCase): (enabled: bool)
    ensures enabled <==> exists i | 0 <= i < |testCase.parameterValues| ::
      testCase.parameterValues[i].name == MissingValueMatch &&
      Truthy(testCase.parameterValues[i].value) &&
      forall j | 0 <= j < i :: testCase.parameterValues[j].name != MissingValueMatch
  {
    var m := FirstParam(testCase.parameterValues, MissingValueMatch);
    m.Some? && Truthy(m.value)
  }

  /** The text of an aborted run: what was being computed, for which table,
      then the underlying error. */
  function ErrorMessage(subject: string, tableName: string, err: string): (msg: string)
    ensures |msg| >= |err| && msg[|msg| - |err|..] == err
    ensures |msg| >= 16 && msg[..16] == "Error computing "
  {
    "Error computing " + subject + " for " + tableName + " - " + err
  }

  /** The result of a validation that could not compute its metric. */
  function Abort(executionDate: int, msg: string): (r: TestCaseResult)
    ensures r.testCaseStatus == Aborted && r.timestamp == executionDate && r.result == msg
    ensures r.testResultValue == [TestResultValue("nullCount", None)]
  {
    TestCaseResult(executionDate, Aborted, msg, [TestResultValue("nullCount", None)])
  }

  function TypeName(count: Option<int>): string
  {
    if count.Some? then "int" else "NoneType"
  }

  /** `total += extra` on two nullable counts: Python refuses to add None. */
  function AddCounts(total: Option<int>, extra: Option<int>): (r: Result<int, string>)
    ensures r.Ok? <==> total.Some? && extra.Some?
    ensures r.Ok? ==> r.value == total.value + extra.value
  {
    if total.Some? && extra.Some? then Ok(total.value + extra.value)
    else Err("unsupported operand type(s) for +=: '" + TypeName(total) + "' and '" + TypeName(extra) + "'")
  }

  /** The verdict on a computed missing count. */
  function Verdict(executionDate: int, missingCount: Option<int>, expected: PyValue): (r: TestCaseResult)
    ensures r.timestamp == executionDate
    ensures r.testCaseStatus == Success <==> FromCount(missingCount) == expected
    ensures r.testCaseStatus != Aborted
    ensures r.result == "Found missingCount=" + Str(FromCount(missingCount)) + ". It should be " + Str(expected) + "."
    ensures r.testResultValue == [TestResultValue("missingCount", Some(Str(FromCount(missingCount))))]
  {
    var found := FromCount(missingCount);
    TestCaseResult(
      executionDate,
      if found == expected then Success else Failed,
      "Found missingCount=" + Str(found) + ". It should be " + Str(expected) + ".",
      [TestResultValue("missingCount", Some(Str(found)))])
  }

  /** The missing count the test compares: the NULL count, plus the count of
      marker values when markers are configured. A NULL on either side of that
      sum gives no count (and the run aborts before it is compared). */
  function MissingCount(testCase: TestCase, nullCount: Option<int>, inSetCountQuery: QueryResult): (m: Option<int>)
    ensures !MatchingEnabled(testCase) ==> m == nullCount
    ensures MatchingEnabled(testCase) ==>
      (m.Some? <==> nullCount.Some? && inSetCountQuery.QueryRow? && inSetCountQuery.value.Some?)
    ensures MatchingEnabled(testCase) && m.Some? ==> m.value == nullCount.value + inSetCountQuery.value.value
  {
    if !MatchingEnabled(testCase) then nullCount
    else if nullCount.Some? && inSetCountQuery.QueryRow? && inSetCountQuery.value.Some? then
      Some(nullCount.value + inSetCountQuery.value.value)
    else None
  }

  /** Runs the test on a table whose column names are `columns`, given what the
      NULL-count query and the count-in-set query give back. */
  function ColumnValuesMissingCountToBeEqual(
    testCase: TestCase,
    executionDate: int,
    tableName: string,
    columns: seq<string>,
    nullCountQuery: QueryResult,
    inSetCountQuery: QueryResult
  ): (r: Result<TestCaseResult, UncaughtError>)
    ensures r.Err? <==>
      ColumnName(testCase.entityLink) in columns && nullCountQuery.QueryRow? &&
      FirstParam(testCase.parameterValues, MissingCountValue).None?
    ensures r.Ok? ==> r.value.timestamp == executionDate
    ensures r.Ok? ==> (r.value.testCaseStatus == Aborted <==>
      ColumnName(testCase.entityLink) !in columns || nullCountQuery.QueryError? ||
      (MatchingEnabled(testCase) &&
       (inSetCountQuery.QueryError? || nullCountQuery.value.None? || inSetCountQuery.value.None?)))
    ensures r.Ok? && r.value.testCaseStatus == Aborted ==>
      r.value.testResultValue == [TestResultValue("nullCount", None)]
    ensures r.Ok? && r.value.testCaseStatus != Aborted ==>
      var expected := FirstParam(testCase.parameterValues, MissingCountValue).value;
      var found := FromCount(MissingCount(testCase, nullCountQuery.value, inSetCountQuery));
      && (r.value.testCaseStatus == Success <==> found == expected)
      && r.value.result == "Found missingCount=" + Str(found) + ". It should be " + Str(expected) + "."
      && r.value.testResultValue == [TestResultValue("missingCount", Some(Str(found)))]
  {
    var column := ColumnName(testCase.entityLink);
    if column !in columns then
      Ok(Abort(executionDate, ErrorMessage(testCase.name, tableName,
        "Cannot find the configured column " + column + " for test case " + testCase.name)))
    else if nullCountQuery.QueryError? then
      Ok(Abort(executionDate, ErrorMessage(testCase.name, tableName, nullCountQuery.message)))
    else
      var expected := FirstParam(testCase.parameterValues, MissingCountValue);
      if expected.None? then Err(StopIteration)
      else if MatchingEnabled(testCase) then
        if inSetCountQuery.QueryError? then
          Ok(Abort(executionDate, ErrorMessage(TestCaseClassName, tableName, inSetCountQuery.message)))
        else
          match AddCounts(nullCountQuery.value, inSetCountQuery.value)
          case Err(msg) => Ok(Abort(executionDate, ErrorMessage(TestCaseClassName, tableName, msg)))
          case Ok(total) => Ok(Verdict(executionDate, Some(total), expected.value))
      else
        Ok(Verdict(executionDate, nullCountQuery.value, expected.value))
  }

  /** When every query gives a number, the test reports the NULL count plus,
      if markers are configured, the count of marker values; the reported text
      reads back as that number, and the test passes exactly when it is the
      expected count. */
  lemma ReportedMissingCount(
    testCase: TestCase,
    executionDate: int,
    tableName: string,
    columns: seq<string>,
    nullCount: int,
    inSetCount: int
  )
    requires ColumnName(testCase.entityLink) in columns
    requires FirstParam(testCase.parameterValues, MissingCountValue).Some?
    ensures
      var missing := nullCount + (if MatchingEnabled(testCase) then inSetCount else 0);
      var r := ColumnValuesMissingCountToBeEqual(testCase, executionDate, tableName, columns,
        QueryRow(Some(nullCount)), QueryRow(Some(inSetCount)));
      var expected := FirstParam(testCase.parameterValues, MissingCountValue).value;
      r.Ok? && r.value.testCaseStatus != Aborted &&
      (r.value.testCaseStatus == Success <==> expected == PyInt(missing)) &&
      r.value.result == "Found missingCount=" + IntToString(missing) + ". It should be " + Str(expected) + "." &&
      |r.value.testResultValue| == 1 &&
      r.value.testResultValue[0].value.Some? &&
      ParseInt(r.value.testResultValue[0].value.value) == Some(missing)
  {
    var missing := nullCount + (if MatchingEnabled(testCase) then inSetCount else 0);
    IntToStringRoundTrip(missing);
  }

  /** Without markers, a NULL count (a SUM over no rows) is not an error: the
      test reports "missingCount=None" and passes exactly when the expected
      value is None. */
  lemma NullCountWithoutMarkers(
    testCase: TestCase,
    executionDate: int,
    tableName: string,
    columns: seq<string>,
    inSetCountQuery: QueryResult
  )
    requires ColumnName(testCase.entityLink) in columns
    requires FirstParam(testCase.parameterValues, MissingCountValue).Some?
    requires !MatchingEnabled(testCase)
    ensures
      var expected := FirstParam(testCase.parameterValues, MissingCountValue).value;
      var r := ColumnValuesMissingCountToBeEqual(testCase, executionDate, tableName, columns,
        QueryRow(None), inSetCountQuery);
      r.Ok? && r.value.testCaseStatus != Aborted &&
      (r.value.testCaseStatus == Success <==> expected == PyNone) &&
      r.value.result == "Found missingCount=" + "None" + ". It should be " + Str(expected) + "." &&
      r.value.testResultValue == [TestResultValue("missingCount", Some("None"))]
  {
    var expected := FirstParam(testCase.parameterValues, MissingCountValue).value;
    var r := ColumnValuesMissingCountToBeEqual(testCase, executionDate, tableName, columns,
      QueryRow(None), inSetCountQuery);
    assert MissingCount(testCase, None, inSetCountQuery) == None;
    assert Str(FromCount(None)) == "None";
  }
}
