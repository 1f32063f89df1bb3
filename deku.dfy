/**
 * The DEKU integration of DekuIntegration.ts: the list of functions to
 * inspect, kept in the `tracefile` of the DEKU working directory as one
 * `file:fun:pattern` line per entry, and the reading of the reply the DEKU
 * deploy server sends after an apply. The file system and the HTTP request
 * are left to the caller: `Read` takes the text of the tracefile, the
 * writers return the text they would write, and `DeployNotice` takes the
 * response body.
 */
module DekuIntegration {
  import opened Text
  import Ftrace

  // ---------------------------------------------------------------------------
  // Entries of the tracefile

  datatype InspectFunction = InspectFunction(file: string, fun: string, pattern: string)

  /** `[\w/\.-]`. */
  predicate IsPathChar(c: char) {
    IsWordChar(c) || c == '/' || c == '.' || c == '-'
  }

  predicate AllPathChars(s: string) {
    forall i :: 0 <= i < |s| ==> IsPathChar(s[i])
  }

  /** An entry `read` can produce and `save` can write back: the groups of `^([\w/\.-]+):(\w+):(.+)$`. */
  predicate ValidEntry(e: InspectFunction) {
    e.file != [] && AllPathChars(e.file)
    && e.fun != [] && AllWordChars(e.fun)
    && e.pattern != [] && NoLineTerminator(e.pattern)
  }

  /** The line `save` writes for an entry, without its newline. */
  function EntryLine(e: InspectFunction): string {
    e.file + ":" + e.fun + ":" + e.pattern
  }

  /** The first ':' at or after `i`, or `|s|`. */
  function ColonFrom(s: string, i: nat): (k: nat)
    requires i <= |s|
    ensures i <= k <= |s|
    ensures k < |s| ==> s[k] == ':'
    ensures forall j :: i <= j < k ==> s[j] != ':'
    decreases |s| - i
  {
    if i == |s| || s[i] == ':' then i else ColonFrom(s, i + 1)
  }

  /**
   * The tracefile expression applied to one line. Neither the file nor the
   * function group can hold a ':', so a match splits the line at its first
   * two colons and the pattern is the rest.
   */
  function ParseLine(line: string): Option<InspectFunction> {
    var i := ColonFrom(line, 0);
    if i == |line| then None
    else
      var j := ColonFrom(line, i + 1);
      if j == |line| then None
      else
        var e := InspectFunction(line[..i], line[i + 1..j], line[j + 1..]);
        if ValidEntry(e) then Some(e) else None
  }

  /** What `ParseLine` accepts is exactly the lines of valid entries. */
  lemma ParseLineSound(line: string)
    ensures ParseLine(line).Some? ==> ValidEntry(ParseLine(line).value) && EntryLine(ParseLine(line).value) == line
  {
    var i := ColonFrom(line, 0);
    if i < |line| {
      var j := ColonFrom(line, i + 1);
      if j < |line| {
        assert line == line[..i] + ":" + line[i + 1..j] + ":" + line[j + 1..];
      }
    }
  }

  lemma ParseLineComplete(e: InspectFunction)
    requires ValidEntry(e)
    ensures ParseLine(EntryLine(e)) == Some(e)
  {
    var line := EntryLine(e);
    var i, j := |e.file|, |e.file| + 1 + |e.fun|;
    EntryLineParts(e);
    assert ColonFrom(line, 0) == i by {
      forall k | 0 <= k < i ensures line[k] != ':' {
        assert line[k] == line[..i][k];
      }
    }
    assert ColonFrom(line, i + 1) == j by {
      forall k | i + 1 <= k < j ensures line[k] != ':' {
        assert line[k] == line[i + 1..j][k - i - 1];
      }
    }
  }

  /** The three fields of an entry's line, and the colons between them. */
  lemma EntryLineParts(e: InspectFunction)
    ensures var line, i, j := EntryLine(e), |e.file|, |e.file| + 1 + |e.fun|;
      j < |line| && line[..i] == e.file && line[i] == ':' && line[i + 1..j] == e.fun
      && line[j] == ':' && line[j + 1..] == e.pattern
  {
    var line := EntryLine(e);
    var i, j := |e.file|, |e.file| + 1 + |e.fun|;
    var rest := ":" + e.pattern;
    assert line == e.file + ([':'] + (e.fun + rest));
    assert line[i + 1..] == e.fun + rest;
    assert line[i + 1..][..|e.fun|] == e.fun && line[i + 1..][|e.fun|..] == rest;
  }

  /** The entries of the matching lines, in order. */
  function Parse(lines: seq<string>): seq<InspectFunction> {
    if lines == [] then []
    else
      var e := ParseLine(lines[|lines| - 1]);
      Parse(lines[..|lines| - 1]) + (if e.Some? then [e.value] else [])
  }

  function EntryLines(list: seq<InspectFunction>): (r: seq<string>)
    ensures |r| == |list|
  {
    if list == [] then [] else EntryLines(list[..|list| - 1]) + [EntryLine(list[|list| - 1])]
  }

  /** The text `save` writes: every entry's line followed by a newline. */
  function Serialize(list: seq<InspectFunction>): string {
    Ftrace.FunctionList(EntryLines(list))
  }

  lemma {:induction false} EntryLinesOneLine(list: seq<InspectFunction>)
    requires forall i :: 0 <= i < |list| ==> ValidEntry(list[i])
    ensures forall i :: 0 <= i < |list| ==> '\n' !in EntryLines(list)[i]
  {
    if list != [] {
      var init := list[..|list| - 1];
      EntryLinesOneLine(init);
      var e := list[|list| - 1];
      assert '\n' !in EntryLine(e) by {
        assert forall k :: 0 <= k < |e.file| ==> e.file[k] != '\n';
        assert forall k :: 0 <= k < |e.fun| ==> e.fun[k] != '\n';
        assert forall k :: 0 <= k < |e.pattern| ==> e.pattern[k] != '\n';
      }
    }
  }

  lemma {:induction false} ParseEntryLines(list: seq<InspectFunction>)
    requires forall i :: 0 <= i < |list| ==> ValidEntry(list[i])
    ensures Parse(EntryLines(list)) == list
  {
    if list != [] {
      var init := list[..|list| - 1];
      ParseEntryLines(init);
      ParseLineComplete(list[|list| - 1]);
      var lines := EntryLines(list);
      assert lines == EntryLines(init) + [EntryLine(list[|list| - 1])];
      assert lines[..|lines| - 1] == EntryLines(init);
      assert lines[|lines| - 1] == EntryLine(list[|list| - 1]);
      assert Parse(lines) == Parse(EntryLines(init)) + [list[|list| - 1]];
      assert init + [list[|list| - 1]] == list;
    }
  }

  /** Reading back what `save` wrote gives the same list. */
  lemma ReadSaved(list: seq<InspectFunction>)
    requires forall i :: 0 <= i < |list| ==> ValidEntry(list[i])
    ensures Parse(Split(Serialize(list), '\n')) == list
  {
    EntryLinesOneLine(list);
    Ftrace.FunctionListLines(EntryLines(list));
    var lines := EntryLines(list) + [""];
    assert lines[..|lines| - 1] == EntryLines(list);
    assert ParseLine("") == None;
    ParseEntryLines(list);
  }

  // ---------------------------------------------------------------------------
  // Looking entries up and removing them

  predicate Matches(e: InspectFunction, file: string, fun: string) {
    e.file == file && e.fun == fun
  }

  predicate HasEntry(list: seq<InspectFunction>, file: string, fun: string) {
    exists i :: 0 <= i < |list| && Matches(list[i], file, fun)
  }

  /** `findIndex` on equal file and function. */
  function FindIndex(list: seq<InspectFunction>, file: string, fun: string): (r: int)
    ensures r == -1 <==> !HasEntry(list, file, fun)
    ensures r != -1 ==> 0 <= r < |list| && Matches(list[r], file, fun)
    ensures r != -1 ==> forall j :: 0 <= j < r ==> !Matches(list[j], file, fun)
  {
    if list == [] then -1
    else if Matches(list[0], file, fun) then 0
    else
      var k := FindIndex(list[1..], file, fun);
      assert forall j :: 0 < j < |list| ==> list[1..][j - 1] == list[j];
      if k == -1 then -1 else k + 1
  }

  /** `splice(start, 1)`: a negative start counts from the end, one past the end removes nothing. */
  function SpliceOne<T>(list: seq<T>, start: int): (r: seq<T>)
    ensures -|list| <= start < |list| ==> |r| == |list| - 1
    ensures start >= |list| ==> r == list
    ensures 0 <= start < |list| ==> r == list[..start] + list[start + 1..]
  {
    var k := if start < 0 then (if |list| + start < 0 then 0 else |list| + start) else start;
    if k < |list| then list[..k] + list[k + 1..] else list
  }

  /** `removeInspect` as written: it tests `if (idx)`, which is false for 0 and true for -1. */
  function RemoveAsWritten(list: seq<InspectFunction>, file: string, fun: string): seq<InspectFunction> {
    var idx := FindIndex(list, file, fun);
    if idx != 0 then SpliceOne(list, idx) else list
  }

  /** `removeInspect` as intended: the first matching entry is removed, if there is one. */
  function RemoveFirst(list: seq<InspectFunction>, file: string, fun: string): (r: seq<InspectFunction>)
    ensures !HasEntry(list, file, fun) ==> r == list
    ensures HasEntry(list, file, fun) ==> |r| == |list| - 1
    ensures HasEntry(list, file, fun) ==>
      multiset(r) + multiset{list[FindIndex(list, file, fun)]} == multiset(list)
  {
    var idx := FindIndex(list, file, fun);
    if idx == -1 then list
    else
      assert list == list[..idx] + [list[idx]] + list[idx + 1..];
      list[..idx] + list[idx + 1..]
  }

  /** Entries that do not match the removed one keep their relative order. */
  lemma RemoveFirstKeepsOthers(list: seq<InspectFunction>, file: string, fun: string, i: int)
    requires 0 <= i < |list| && HasEntry(list, file, fun)
    ensures i < FindIndex(list, file, fun) ==> RemoveFirst(list, file, fun)[i] == list[i]
    ensures i > FindIndex(list, file, fun) ==> RemoveFirst(list, file, fun)[i - 1] == list[i]
  {
    var idx := FindIndex(list, file, fun);
    var rest := list[..idx] + list[idx + 1..];
    assert RemoveFirst(list, file, fun) == rest;
    if i < idx {
      assert rest[i] == list[..idx][i];
    } else if i > idx {
      assert rest[i - 1] == list[idx + 1..][i - 1 - idx];
    }
  }

  /** With the intended removal, adding an entry and removing it again leaves the list as it was. */
  lemma RemoveAfterAdd(list: seq<InspectFunction>, e: InspectFunction)
    requires !HasEntry(list, e.file, e.fun)
    ensures FindIndex(list + [e], e.file, e.fun) == |list|
    ensures RemoveFirst(list + [e], e.file, e.fun) == list
  {
    var l := list + [e];
    assert Matches(l[|list|], e.file, e.fun);
    assert forall j :: 0 <= j < |list| ==> l[j] == list[j];
    assert FindIndex(l, e.file, e.fun) == |list|;
    assert l[..|list|] == list;
  }

  /** `splice(-1, 1)` drops the last element. */
  lemma SpliceLast<T>(list: seq<T>)
    requires list != []
    ensures SpliceOne(list, -1) == list[..|list| - 1]
  {
  }

  /**
   * The two quirks of `if (idx)`: an entry matched first in the list is
   * never removed, and a missing entry removes the last one instead; the
   * intended removal drops the first entry and keeps the list.
   */
  lemma RemoveAsWrittenQuirks(list: seq<InspectFunction>, file: string, fun: string)
    ensures FindIndex(list, file, fun) == 0 ==>
      RemoveAsWritten(list, file, fun) == list && RemoveFirst(list, file, fun) == list[1..]
    ensures !HasEntry(list, file, fun) ==>
      RemoveAsWritten(list, file, fun) == (if list == [] then [] else list[..|list| - 1])
      && RemoveFirst(list, file, fun) == list
  {
    if !HasEntry(list, file, fun) && list != [] {
      SpliceLast(list);
    }
  }

  /** A one-entry list shows both: its own entry stays, and another one goes. */
  lemma RemoveAsWrittenSingle(e: InspectFunction, other: InspectFunction)
    requires !Matches(other, e.file, e.fun)
    ensures RemoveAsWritten([e], e.file, e.fun) == [e]
    ensures RemoveAsWritten([other], e.file, e.fun) == []
    ensures RemoveFirst([e], e.file, e.fun) == []
    ensures RemoveFirst([other], e.file, e.fun) == [other]
  {
    assert Matches([e][0], e.file, e.fun);
    RemoveAsWrittenQuirks([e], e.file, e.fun);
    assert !HasEntry([other], e.file, e.fun);
    RemoveAsWrittenQuirks([other], e.file, e.fun);
  }

  /**
   * In the source, removing an entry just added takes it out again unless
   * the list was empty, where it stays (index 0).
   */
  lemma RemoveAsWrittenAfterAdd(list: seq<InspectFunction>, e: InspectFunction)
    requires !HasEntry(list, e.file, e.fun)
    ensures RemoveAsWritten(list + [e], e.file, e.fun) == (if list == [] then [e] else list)
  {
    RemoveAfterAdd(list, e);
    if list != [] {
      RemoveAsWrittenLater(list + [e], e.file, e.fun);
    } else {
      assert list + [e] == [e];
      assert Matches([e][0], e.file, e.fun);
    }
  }

  /** Past the first entry the source removes the right one. */
  lemma RemoveAsWrittenLater(list: seq<InspectFunction>, file: string, fun: string)
    requires FindIndex(list, file, fun) > 0
    ensures RemoveAsWritten(list, file, fun) == RemoveFirst(list, file, fun)
  {
  }

  // ---------------------------------------------------------------------------
  // The inspection list

  class InspectFiles {
    var inspections: seq<InspectFunction>

    constructor ()
      ensures inspections == []
    {
      inspections := [];
    }

    /** `read`, given the text of the tracefile: the entries of its matching lines are appended. */
    method Read(buffer: string)
      modifies this
      ensures inspections == old(inspections) + Parse(Split(buffer, '\n'))
    {
      var lines := Split(buffer, '\n');
      ghost var before := inspections;
      for i := 0 to |lines|
        invariant inspections == before + Parse(lines[..i])
      {
        assert lines[..i + 1][..i] == lines[..i];
        var entry := ParseLine(lines[i]);
        if entry.Some? {
          inspections := inspections + [entry.value];
        }
      }
      assert lines[..|lines|] == lines;
    }

    /** `save`: the text written to the tracefile. */
    method Save() returns (content: string)
      ensures content == Serialize(inspections)
    {
      content := "";
      for i := 0 to |inspections|
        invariant content == Serialize(inspections[..i])
      {
        var val := inspections[i];
        assert inspections[..i + 1][..i] == inspections[..i];
        content := content + val.file + ":" + val.fun + ":" + val.pattern + "\n";
      }
      assert inspections[..|inspections|] == inspections;
    }

    method AddInspect(file: string, fun: string, pattern: string) returns (content: string)
      modifies this
      ensures inspections == old(inspections) + [InspectFunction(file, fun, pattern)]
      ensures content == Serialize(inspections)
    {
      inspections := inspections + [InspectFunction(file, fun, pattern)];
      content := Save();
    }

    /** `removeInspect`, with the `if (idx)` test as written (see `RemoveAsWrittenQuirks`). */
    method RemoveInspect(file: string, fun: string) returns (content: string)
      modifies this
      ensures inspections == RemoveAsWritten(old(inspections), file, fun)
      ensures content == Serialize(inspections)
    {
      var idx := FindIndex(inspections, file, fun);
      if idx != 0 {
        inspections := SpliceOne(inspections, idx);
      }
      content := Save();
    }

    function IsInspected(file: string, fun: string): (r: bool)
      reads this
      ensures r <==> HasEntry(inspections, file, fun)
    {
      FindIndex(inspections, file, fun) != -1
    }
  }

  // ---------------------------------------------------------------------------
  // The deploy reply

  /** The message the editor shows after an apply. */
  datatype Notice = Information(message: string) | Error(message: string)

  const NoChangesText := "No changes detected since last run"
  const ApplyErrorText := "An error has occurred when performed DEKU Apply. See the logs for details."

  /** The line of the reply that holds the result: the last one, or the one before a final empty line. */
  function ResultLine(text: string): (r: string)
    ensures '\n' !in r
  {
    var lines := Split(text, '\n');
    var result := lines[|lines| - 1];
    if result == "" && |lines| > 1 then lines[|lines| - 2] else result
  }

  /** `[0;` at index 1 marks a line wrapped in a terminal colour code, whose first 7 and last 4 characters are dropped. */
  function StripColour(result: string): string {
    if IndexOf(result, "[0;") == 1 then Substring(result, 7, |result| - 4) else result
  }

  function Classify(result: string): (n: Notice)
    ensures n.Information? ==> n.message == result || n.message == NoChangesText
    ensures Includes(result, "successfully") || Includes(result, "done") ==> n == Information(result)
    ensures !Includes(result, "successfully") && !Includes(result, "done") && Includes(result, "No modules need to upload")
      ==> n == Information(NoChangesText)
    ensures n == Error(ApplyErrorText) <==>
      !Includes(result, "successfully") && !Includes(result, "done") && !Includes(result, "No modules need to upload")
  {
    if Includes(result, "successfully") || Includes(result, "done") then Information(result)
    else if Includes(result, "No modules need to upload") then Information(NoChangesText)
    else Error(ApplyErrorText)
  }

  /** The notice for a deploy reply. */
  function DeployNotice(text: string): Notice {
    Classify(StripColour(ResultLine(text)))
  }

  /** On a reply made of whole lines, the result line is the last piece, or the one before an empty last piece. */
  lemma ResultLineOf(parts: seq<string>)
    requires |parts| >= 1 && forall i :: 0 <= i < |parts| ==> '\n' !in parts[i]
    ensures ResultLine(Join(parts, '\n'))
      == if parts[|parts| - 1] == "" && |parts| > 1 then parts[|parts| - 2] else parts[|parts| - 1]
  {
    SplitJoin(parts, '\n');
  }

  /** Lines followed by one more: each piece is a line. */
  lemma LinesThen(lines: seq<string>, more: seq<string>)
    requires forall i :: 0 <= i < |lines| ==> '\n' !in lines[i]
    requires forall i :: 0 <= i < |more| ==> '\n' !in more[i]
    ensures forall i :: 0 <= i < |lines + more| ==> '\n' !in (lines + more)[i]
  {
    forall i | 0 <= i < |lines + more| ensures '\n' !in (lines + more)[i] {
      if i < |lines| {
        assert (lines + more)[i] == lines[i];
      } else {
        assert (lines + more)[i] == more[i - |lines|];
      }
    }
  }

  /** The last line of a reply is its result line. */
  lemma ResultLineLast(lines: seq<string>, last: string)
    requires forall i :: 0 <= i < |lines| ==> '\n' !in lines[i]
    requires '\n' !in last && last != ""
    ensures ResultLine(Join(lines + [last], '\n')) == last
  {
    LinesThen(lines, [last]);
    ResultLineOf(lines + [last]);
  }

  /** So is the line before a final newline. */
  lemma ResultLineBeforeNewline(lines: seq<string>, last: string)
    requires forall i :: 0 <= i < |lines| ==> '\n' !in lines[i]
    requires '\n' !in last && last != ""
    ensures ResultLine(Join(lines + [last, ""], '\n')) == last
  {
    var more := [last, ""];
    assert forall i :: 0 <= i < |more| ==> '\n' !in more[i];
    LinesThen(lines, more);
    var parts := lines + more;
    ResultLineOf(parts);
    assert parts[|parts| - 1] == "" && parts[|parts| - 2] == last;
  }

  /** A coloured result line: ESC "[0;" two digits "m", the message, ESC "[0m". */
  function Coloured(code: string, message: string): string {
    ['\U{1B}'] + "[0;" + code + "m" + message + ['\U{1B}'] + "[0m"
  }

  /** Dropping the colour codes gives back the message. */
  lemma StripColoured(code: string, message: string)
    requires |code| == 2
    ensures StripColour(Coloured(code, message)) == message
  {
    var line := Coloured(code, message);
    assert line[0] == '\U{1B}' && line[1..4] == "[0;";
    assert !OccursAt(line, "[0;", 0);
    assert OccursAt(line, "[0;", 1);
    assert line[7..|line| - 4] == message;
  }

  lemma ColouredOneLine(code: string, message: string)
    requires '\n' !in code && '\n' !in message
    ensures '\n' !in Coloured(code, message)
  {
    var line := Coloured(code, message);
    assert line == ['\U{1B}', '[', '0', ';'] + code + ['m'] + message + ['\U{1B}', '[', '0', 'm'];
  }

  /** A reply whose last line is a coloured message is classified by the message. */
  lemma DeployColouredReply(lines: seq<string>, code: string, message: string)
    requires forall i :: 0 <= i < |lines| ==> '\n' !in lines[i]
    requires |code| == 2 && '\n' !in code && '\n' !in message
    ensures DeployNotice(Join(lines + [Coloured(code, message), ""], '\n')) == Classify(message)
  {
    ColouredOneLine(code, message);
    ResultLineBeforeNewline(lines, Coloured(code, message));
    StripColoured(code, message);
  }
}
