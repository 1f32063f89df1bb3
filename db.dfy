/**
 * The SQLite store written by the trace decoder (src/db.ts): five tables,
 * each an ordered list of rows with an AUTOINCREMENT id, and the four write
 * operations startTrial, addStacktrace, addLineInspect and functionReturn.
 *
 * Each `db.run` statement is one step below. A statement that would break a
 * NOT NULL or UNIQUE constraint fails as a whole: its table, and the table's
 * AUTOINCREMENT counter, are left as they were, and later statements still
 * run. Foreign keys are declared in the schema but SQLite does not enforce
 * them unless `PRAGMA foreign_keys` is switched on, which the code never
 * does, so they are not guards here. A scalar subquery that finds no row
 * yields NULL, and `column = NULL` is never true.
 */
module Db {
  import opened Text

  /** A row: its AUTOINCREMENT key and its other columns. */
  datatype Row<T> = Row(id: nat, cols: T)

  datatype FileCols = FileCols(path: string, source: string, commitHash: string)
  datatype FunctionCols = FunctionCols(fileId: nat, name: string, lineStart: int, lineEnd: int)
  datatype TrialCols = TrialCols(time: int, returnTime: int, returnLine: int, functionId: nat)
  datatype StacktraceCols = StacktraceCols(trialId: nat, stacktrace: string, sum: int)
  datatype InspectCols = InspectCols(trialId: nat, line: int, varName: string, varValue: string, msg: string)

  /**
   * AUTOINCREMENT without deletions: the k-th row has id k, and the table's
   * counter (its `sqlite_sequence` entry) is the number of rows. A failed
   * INSERT does not advance the counter.
   */
  predicate DenseIds<T>(t: seq<Row<T>>, counter: nat) {
    counter == |t| && forall i :: 0 <= i < |t| ==> t[i].id == i + 1
  }

  /** An INSERT that succeeds: the new row's id is one past the counter. */
  function Append<T>(t: seq<Row<T>>, counter: nat, cols: T): (r: (seq<Row<T>>, nat))
    ensures DenseIds(t, counter) ==> DenseIds(r.0, r.1)
  {
    (t + [Row(counter + 1, cols)], counter + 1)
  }

  // ---------------------------------------------------------------------------
  // The scalar subqueries of the statements

  /** `(SELECT id FROM file WHERE path = $path LIMIT 1)`: the first matching row in table order. */
  function FileIdByPath(files: seq<Row<FileCols>>, path: string): (r: Option<nat>)
    ensures r.None? <==> forall i :: 0 <= i < |files| ==> files[i].cols.path != path
    ensures r.Some? ==> exists i :: 0 <= i < |files| && files[i].cols.path == path && files[i].id == r.value
                          && forall j :: 0 <= j < i ==> files[j].cols.path != path
  {
    if files == [] then None
    else if files[0].cols.path == path then Some(files[0].id)
    else
      var r := FileIdByPath(files[1..], path);
      assert forall i :: 1 <= i < |files| ==> files[i] == files[1..][i - 1];
      r
  }

  predicate NamedIn(f: Row<FunctionCols>, fileId: Option<nat>, name: string) {
    fileId.Some? && f.cols.fileId == fileId.value && f.cols.name == name
  }

  predicate SpansLine(f: Row<FunctionCols>, fileId: Option<nat>, line: int) {
    fileId.Some? && f.cols.fileId == fileId.value && f.cols.lineStart <= line && f.cols.lineEnd >= line
  }

  predicate TrialOf(t: Row<TrialCols>, functionId: Option<nat>) {
    functionId.Some? && t.cols.functionId == functionId.value
  }

  /**
   * `(SELECT id FROM function WHERE name = $funName AND file_id = <fileId>
   * ORDER BY id DESC LIMIT 1)`: the largest id among the matching rows.
   */
  function NewestFunctionNamed(functions: seq<Row<FunctionCols>>, fileId: Option<nat>, name: string): (r: Option<nat>)
    ensures r.None? <==> forall i :: 0 <= i < |functions| ==> !NamedIn(functions[i], fileId, name)
    ensures r.Some? ==> exists i :: 0 <= i < |functions| && NamedIn(functions[i], fileId, name) && functions[i].id == r.value
    ensures r.Some? ==> forall i :: 0 <= i < |functions| && NamedIn(functions[i], fileId, name) ==> functions[i].id <= r.value
  {
    if functions == [] then None
    else
      var init := functions[..|functions| - 1];
      var last := functions[|functions| - 1];
      assert functions == init + [last];
      var r := NewestFunctionNamed(init, fileId, name);
      if NamedIn(last, fileId, name) && (r.None? || r.value < last.id) then Some(last.id) else r
  }

  /**
   * `(SELECT id FROM function WHERE line_start <= $line AND line_end >= $line
   * AND file_id = <fileId> ORDER BY id DESC LIMIT 1)`.
   */
  function NewestFunctionAt(functions: seq<Row<FunctionCols>>, fileId: Option<nat>, line: int): (r: Option<nat>)
    ensures r.None? <==> forall i :: 0 <= i < |functions| ==> !SpansLine(functions[i], fileId, line)
    ensures r.Some? ==> exists i :: 0 <= i < |functions| && SpansLine(functions[i], fileId, line) && functions[i].id == r.value
    ensures r.Some? ==> forall i :: 0 <= i < |functions| && SpansLine(functions[i], fileId, line) ==> functions[i].id <= r.value
  {
    if functions == [] then None
    else
      var init := functions[..|functions| - 1];
      var last := functions[|functions| - 1];
      assert functions == init + [last];
      var r := NewestFunctionAt(init, fileId, line);
      if SpansLine(last, fileId, line) && (r.None? || r.value < last.id) then Some(last.id) else r
  }

  /** `(SELECT id FROM trial WHERE function_id = <functionId> ORDER BY id DESC LIMIT 1)`. */
  function NewestTrial(trials: seq<Row<TrialCols>>, functionId: Option<nat>): (r: Option<nat>)
    ensures r.None? <==> forall i :: 0 <= i < |trials| ==> !TrialOf(trials[i], functionId)
    ensures r.Some? ==> exists i :: 0 <= i < |trials| && TrialOf(trials[i], functionId) && trials[i].id == r.value
    ensures r.Some? ==> forall i :: 0 <= i < |trials| && TrialOf(trials[i], functionId) ==> trials[i].id <= r.value
  {
    if trials == [] then None
    else
      var init := trials[..|trials| - 1];
      var last := trials[|trials| - 1];
      assert trials == init + [last];
      var r := NewestTrial(init, functionId);
      if TrialOf(last, functionId) && (r.None? || r.value < last.id) then Some(last.id) else r
  }

  // ---------------------------------------------------------------------------
  // UNIQUE constraints

  predicate FileKeysUnique(files: seq<Row<FileCols>>) {
    forall i, j :: 0 <= i < j < |files| ==> files[i].cols != files[j].cols
  }

  predicate FunctionKeysUnique(functions: seq<Row<FunctionCols>>) {
    forall i, j :: 0 <= i < j < |functions| ==>
      functions[i].cols.fileId != functions[j].cols.fileId || functions[i].cols.name != functions[j].cols.name
  }

  /** `UNIQUE(file_id, name)` makes the newest matching function the only one. */
  lemma NamedFunctionIsUnique(functions: seq<Row<FunctionCols>>, fileId: Option<nat>, name: string, i: nat)
    requires FunctionKeysUnique(functions)
    requires i < |functions| && NamedIn(functions[i], fileId, name)
    ensures NewestFunctionNamed(functions, fileId, name) == Some(functions[i].id)
  {
    var r := NewestFunctionNamed(functions, fileId, name);
    var k :| 0 <= k < |functions| && NamedIn(functions[k], fileId, name) && functions[k].id == r.value;
    assert k == i by {
      if k < i { assert functions[k].cols.name == functions[i].cols.name; }
      else if k > i { assert functions[i].cols.name == functions[k].cols.name; }
    }
  }

  /** With UNIQUE(path, source, commit_hash) and every source and commit empty, a path has one file row. */
  lemma OneFileRowPerPath(files: seq<Row<FileCols>>)
    requires FileKeysUnique(files)
    requires forall k :: 0 <= k < |files| ==> files[k].cols.source == "" && files[k].cols.commitHash == ""
    ensures forall i, j :: 0 <= i < j < |files| ==> files[i].cols.path != files[j].cols.path
  {
  }

  /**
   * The columns that `addLineInspect` writes: a name/value pair when a
   * truthy (present and non-empty) value is given, otherwise `key` as a
   * free-form message.
   */
  function InspectRowFor(trialId: nat, line: int, key: string, value: Option<string>): (r: InspectCols)
    ensures r.trialId == trialId && r.line == line
    ensures value.Some? && value.value != "" ==> r.varName == key && r.varValue == value.value && r.msg == ""
    ensures !(value.Some? && value.value != "") ==> r.varName == "" && r.varValue == "" && r.msg == key
  {
    if value.Some? && value.value != "" then InspectCols(trialId, line, key, value.value, "")
    else InspectCols(trialId, line, "", "", key)
  }

  /** The trials after `UPDATE trial SET return_time, return_line WHERE function_id = <functionId>`. */
  function SetReturn(trials: seq<Row<TrialCols>>, functionId: Option<nat>, time: int, line: int): (r: seq<Row<TrialCols>>)
    ensures |r| == |trials|
    ensures forall i :: 0 <= i < |trials| ==>
              (r[i].id == trials[i].id && r[i].cols.time == trials[i].cols.time && r[i].cols.functionId == trials[i].cols.functionId)
    ensures forall i :: 0 <= i < |trials| && TrialOf(trials[i], functionId) ==>
              r[i].cols.returnTime == time && r[i].cols.returnLine == line
    ensures forall i :: 0 <= i < |trials| && !TrialOf(trials[i], functionId) ==> r[i] == trials[i]
  {
    if trials == [] then []
    else
      var t := trials[0];
      var head := if TrialOf(t, functionId) then Row(t.id, t.cols.(returnTime := time, returnLine := line)) else t;
      [head] + SetReturn(trials[1..], functionId, time, line)
  }

  lemma SetReturnKeepsDenseIds(trials: seq<Row<TrialCols>>, functionId: Option<nat>, time: int, line: int, counter: nat)
    requires DenseIds(trials, counter)
    ensures DenseIds(SetReturn(trials, functionId, time, line), counter)
  {
    var r := SetReturn(trials, functionId, time, line);
    assert forall i :: 0 <= i < |trials| ==> r[i].id == trials[i].id;
  }

  class Database {
    var files: seq<Row<FileCols>>
    var functions: seq<Row<FunctionCols>>
    var trials: seq<Row<TrialCols>>
    var stacktraces: seq<Row<StacktraceCols>>
    var inspects: seq<Row<InspectCols>>
    // the sqlite_sequence entries of the five AUTOINCREMENT keys
    var fileSeq: nat
    var functionSeq: nat
    var trialSeq: nat
    var stacktraceSeq: nat
    var inspectSeq: nat

    ghost predicate Valid()
      reads this
    {
      && DenseIds(files, fileSeq)
      && DenseIds(functions, functionSeq)
      && DenseIds(trials, trialSeq)
      && DenseIds(stacktraces, stacktraceSeq)
      && DenseIds(inspects, inspectSeq)
      && FileKeysUnique(files)
      && FunctionKeysUnique(functions)
      // startTrial is the only writer of `file`, and it leaves source and commit empty
      && (forall i :: 0 <= i < |files| ==> files[i].cols.source == "" && files[i].cols.commitHash == "")
    }

    /** The tables as freshly created by the DROP/CREATE statements of the constructor. */
    constructor ()
      ensures Valid()
      ensures files == [] && functions == [] && trials == [] && stacktraces == [] && inspects == []
    {
      files, functions, trials, stacktraces, inspects := [], [], [], [], [];
      fileSeq, functionSeq, trialSeq, stacktraceSeq, inspectSeq := 0, 0, 0, 0, 0;
    }

    /** `INSERT INTO file (path, source, commit_hash) VALUES ($path, "", "")`. */
    method InsertFile(path: string) returns (ok: bool)
      requires Valid()
      modifies this
      ensures Valid()
      ensures ok <==> forall i :: 0 <= i < |old(files)| ==> old(files)[i].cols != FileCols(path, "", "")
      ensures ok ==> (files, fileSeq) == Append(old(files), old(fileSeq), FileCols(path, "", ""))
      ensures !ok ==> files == old(files) && fileSeq == old(fileSeq)
      ensures functions == old(functions) && trials == old(trials) && stacktraces == old(stacktraces) && inspects == old(inspects)
      ensures functionSeq == old(functionSeq) && trialSeq == old(trialSeq)
      ensures stacktraceSeq == old(stacktraceSeq) && inspectSeq == old(inspectSeq)
    {
      var cols := FileCols(path, "", "");
      ok := forall i :: 0 <= i < |files| ==> files[i].cols != cols;
      if ok {
        files, fileSeq := files + [Row(fileSeq + 1, cols)], fileSeq + 1;
      }
    }

    /** `INSERT INTO function (name, line_start, line_end, file_id) VALUES (…, <fileId>)`. */
    method InsertFunction(name: string, lineStart: int, lineEnd: int, fileId: Option<nat>) returns (ok: bool)
      requires Valid()
      modifies this
      ensures Valid()
      ensures ok <==> fileId.Some? && forall i :: 0 <= i < |old(functions)| ==> !NamedIn(old(functions)[i], fileId, name)
      ensures ok ==> (functions, functionSeq) == Append(old(functions), old(functionSeq), FunctionCols(fileId.value, name, lineStart, lineEnd))
      ensures !ok ==> functions == old(functions) && functionSeq == old(functionSeq)
      ensures files == old(files) && trials == old(trials) && stacktraces == old(stacktraces) && inspects == old(inspects)
      ensures fileSeq == old(fileSeq) && trialSeq == old(trialSeq)
      ensures stacktraceSeq == old(stacktraceSeq) && inspectSeq == old(inspectSeq)
    {
      // NOT NULL file_id, then UNIQUE(file_id, name)
      ok := fileId.Some? && forall i :: 0 <= i < |functions| ==> !NamedIn(functions[i], fileId, name);
      if ok {
        functions, functionSeq := functions + [Row(functionSeq + 1, FunctionCols(fileId.value, name, lineStart, lineEnd))], functionSeq + 1;
      }
    }

    /** `INSERT INTO trial (time, return_time, return_line, function_id) VALUES ($time, 0, 0, <functionId>)`. */
    method InsertTrial(time: int, functionId: Option<nat>) returns (ok: bool)
      requires Valid()
      modifies this
      ensures Valid()
      ensures ok <==> functionId.Some?
      ensures ok ==> (trials, trialSeq) == Append(old(trials), old(trialSeq), TrialCols(time, 0, 0, functionId.value))
      ensures !ok ==> trials == old(trials) && trialSeq == old(trialSeq)
      ensures files == old(files) && functions == old(functions) && stacktraces == old(stacktraces) && inspects == old(inspects)
      ensures fileSeq == old(fileSeq) && functionSeq == old(functionSeq)
      ensures stacktraceSeq == old(stacktraceSeq) && inspectSeq == old(inspectSeq)
    {
      ok := functionId.Some?;
      if ok {
        trials, trialSeq := trials + [Row(trialSeq + 1, TrialCols(time, 0, 0, functionId.value))], trialSeq + 1;
      }
    }

    /**
     * startTrial: the file row, the function row and the trial row, in that
     * order. `calledFrom` is accepted and not stored.
     */
    method StartTrial(file: string, line: int, endLine: int, funName: string, time: int, calledFrom: string)
      requires Valid()
      modifies this
      ensures Valid()
      // a file row only for a path not seen before
      ensures FileIdByPath(old(files), file).Some? ==> files == old(files)
      ensures FileIdByPath(old(files), file).None? ==> files == old(files) + [Row(old(fileSeq) + 1, FileCols(file, "", ""))]
      ensures FileIdByPath(files, file).Some?
      // a function row only for a name not yet in that file; an existing row keeps its first-seen range
      ensures NewestFunctionNamed(old(functions), FileIdByPath(files, file), funName).Some? ==> functions == old(functions)
      ensures NewestFunctionNamed(old(functions), FileIdByPath(files, file), funName).None? ==>
                functions == old(functions) + [Row(old(functionSeq) + 1, FunctionCols(FileIdByPath(files, file).value, funName, line, endLine))]
      // exactly one trial row, open, owned by the newest function of that name in that file
      ensures NewestFunctionNamed(functions, FileIdByPath(files, file), funName).Some?
      ensures trials == old(trials) + [Row(old(trialSeq) + 1,
                TrialCols(time, 0, 0, NewestFunctionNamed(functions, FileIdByPath(files, file), funName).value))]
      ensures stacktraces == old(stacktraces) && inspects == old(inspects)
    {
      var okFile := InsertFile(file);
      assert okFile ==> files == old(files) + [Row(old(fileSeq) + 1, FileCols(file, "", ""))];
      assert FileIdByPath(old(files), file).Some? ==> !okFile by {
        if FileIdByPath(old(files), file).Some? {
          var i :| 0 <= i < |old(files)| && old(files)[i].cols.path == file;
          assert old(files)[i].cols == FileCols(file, "", "");
        }
      }
      assert FileIdByPath(old(files), file).None? ==> okFile;
      var fileId := FileIdByPath(files, file);
      assert fileId.Some? by {
        if okFile { assert files[|files| - 1].cols.path == file; }
      }
      var okFun := InsertFunction(funName, line, endLine, fileId);
      assert okFun ==> functions == old(functions) + [Row(old(functionSeq) + 1, FunctionCols(fileId.value, funName, line, endLine))];
      var functionId := NewestFunctionNamed(functions, fileId, funName);
      assert functionId.Some? by {
        if okFun { assert NamedIn(functions[|functions| - 1], fileId, funName); }
        else {
          var i :| 0 <= i < |functions| && NamedIn(functions[i], fileId, funName);
        }
      }
      var okTrial := InsertTrial(time, functionId);
      assert trials == old(trials) + [Row(old(trialSeq) + 1, TrialCols(time, 0, 0, functionId.value))];
    }

    /**
     * addStacktrace: one stacktrace row for the newest trial of the newest
     * function `funName` in `file`; none when there is no such trial.
     */
    method AddStacktrace(file: string, funName: string, stacktrace: string, sum: int)
      requires Valid()
      modifies this
      ensures Valid()
      ensures var trialId := NewestTrial(trials, NewestFunctionNamed(functions, FileIdByPath(files, file), funName));
              && (trialId.None? ==> stacktraces == old(stacktraces) && stacktraceSeq == old(stacktraceSeq))
              && (trialId.Some? ==> stacktraces == old(stacktraces) + [Row(old(stacktraceSeq) + 1, StacktraceCols(trialId.value, stacktrace, sum))])
      ensures files == old(files) && functions == old(functions) && trials == old(trials) && inspects == old(inspects)
    {
      var trialId := NewestTrial(trials, NewestFunctionNamed(functions, FileIdByPath(files, file), funName));
      // NOT NULL trial_id
      if trialId.Some? {
        stacktraces, stacktraceSeq := stacktraces + [Row(stacktraceSeq + 1, StacktraceCols(trialId.value, stacktrace, sum))], stacktraceSeq + 1;
      }
    }

    /**
     * addLineInspect: one inspect row for the newest trial of the newest
     * function of `file` whose line range contains `line`; none when there
     * is no such trial.
     */
    method AddLineInspect(file: string, line: int, key: string, value: Option<string>)
      requires Valid()
      modifies this
      ensures Valid()
      ensures var trialId := NewestTrial(trials, NewestFunctionAt(functions, FileIdByPath(files, file), line));
              && (trialId.None? ==> inspects == old(inspects) && inspectSeq == old(inspectSeq))
              && (trialId.Some? ==> inspects == old(inspects) + [Row(old(inspectSeq) + 1, InspectRowFor(trialId.value, line, key, value))])
      ensures files == old(files) && functions == old(functions) && trials == old(trials) && stacktraces == old(stacktraces)
    {
      var varName := key;
      var varValue := "";
      var msg := "";
      if value.Some? && value.value != "" {
        varValue := value.value;
      } else {
        msg := varName;
        varName := "";
      }
      var trialId := NewestTrial(trials, NewestFunctionAt(functions, FileIdByPath(files, file), line));
      // NOT NULL trial_id
      if trialId.Some? {
        assert InspectCols(trialId.value, line, varName, varValue, msg) == InspectRowFor(trialId.value, line, key, value);
        inspects, inspectSeq := inspects + [Row(inspectSeq + 1, InspectCols(trialId.value, line, varName, varValue, msg))], inspectSeq + 1;
      }
    }

    /**
     * `UPDATE trial SET return_time = $time, return_line = $line WHERE
     * function_id = <newest function funName in file>`.
     */
    method UpdateReturn(file: string, funName: string, time: int, line: int)
      requires Valid()
      modifies this
      ensures Valid()
      ensures trials == SetReturn(old(trials), NewestFunctionNamed(functions, FileIdByPath(files, file), funName), time, line)
      ensures files == old(files) && functions == old(functions) && stacktraces == old(stacktraces) && inspects == old(inspects)
      ensures fileSeq == old(fileSeq) && functionSeq == old(functionSeq) && trialSeq == old(trialSeq)
      ensures stacktraceSeq == old(stacktraceSeq) && inspectSeq == old(inspectSeq)
    {
      var functionId := NewestFunctionNamed(functions, FileIdByPath(files, file), funName);
      SetReturnKeepsDenseIds(trials, functionId, time, line, trialSeq);
      trials := SetReturn(trials, functionId, time, line);
    }

    /**
     * functionReturn: closes every trial of the newest function `funName` in
     * `file` (a missing line counts as 0), then records `key`/`value` as an
     * inspect at that line when a non-empty key is given.
     */
    method FunctionReturn(file: string, funName: string, time: int, line: Option<int>, key: Option<string>, value: Option<string>)
      requires Valid()
      modifies this
      ensures Valid()
      ensures var l := if line.Some? then line.value else 0;
              trials == SetReturn(old(trials), NewestFunctionNamed(functions, FileIdByPath(files, file), funName), time, l)
      ensures !(key.Some? && key.value != "") ==> inspects == old(inspects)
      ensures key.Some? && key.value != "" ==>
                var l := if line.Some? then line.value else 0;
                var trialId := NewestTrial(trials, NewestFunctionAt(functions, FileIdByPath(files, file), l));
                && (trialId.None? ==> inspects == old(inspects))
                && (trialId.Some? ==> inspects == old(inspects) + [Row(old(inspectSeq) + 1, InspectRowFor(trialId.value, l, key.value, value))])
      ensures files == old(files) && functions == old(functions) && stacktraces == old(stacktraces)
    {
      var l := if line.Some? then line.value else 0;
      UpdateReturn(file, funName, time, l);
      assert inspects == old(inspects) && inspectSeq == old(inspectSeq);
      if key.Some? && key.value != "" {
        AddLineInspect(file, l, key.value, value);
      }
    }
  }
}
