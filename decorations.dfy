/**
 * The change decorations of outline.ts: `decorateChanges` reads the output
 * of `git diff -U0 <file>` line by line and highlights, for every hunk,
 * the lines it adds to the new version of the file. The three regular
 * expressions it applies to each line are written out as matchers on
 * characters.
 */
module Decorations {
  import opened Text
  import Ftrace

  // ---------------------------------------------------------------------------
  // Line matchers

  /** `/\+\+\+\ (b\/)?(.+)/` matches at `k`: "+++ " and then a character `.` accepts. */
  predicate FileHeaderAt(line: string, k: int) {
    0 <= k && k + 4 < |line|
    && line[k] == '+' && line[k + 1] == '+' && line[k + 2] == '+' && line[k + 3] == ' '
    && !IsLineTerminator(line[k + 4])
  }

  /** The unanchored file-header expression matches somewhere in the line. */
  predicate IsFileHeader(line: string) {
    exists k :: 0 <= k < |line| && FileHeaderAt(line, k)
  }

  /** `, [0-9]+` at `i` when it is there (the optional line counts): where it ends, else `i`. */
  function OptionalCount(line: string, i: nat): (r: nat)
    requires i <= |line|
    ensures i <= r <= |line|
  {
    if i < |line| && line[i] == ',' && Ftrace.DigitsFrom(line, i + 1) > 0 then i + 1 + Ftrace.DigitsFrom(line, i + 1)
    else i
  }

  /**
   * `/@@\ -[0-9]+(,[0-9]+)?\ \+([0-9]+)(,[0-9]+)?\ @@.*` matched at `k`,
   * with `Number.parseInt` of the second group. Each digit run is taken
   * whole, and `HeaderAtIff` shows that no other reading matches.
   */
  function HeaderAt(line: string, k: nat): Option<nat>
    requires k <= |line|
  {
    match HeadAt(line, k)
    case None => None
    case Some(p) => TailAt(line, p)
  }

  /** `@@\ -[0-9]+(,[0-9]+)?\ \+` at `k`: where the second group starts. */
  function HeadAt(line: string, k: nat): (r: Option<nat>)
    requires k <= |line|
    ensures r.Some? ==> r.value <= |line|
  {
    if !(k + 4 <= |line| && line[k] == '@' && line[k + 1] == '@' && line[k + 2] == ' ' && line[k + 3] == '-') then None
    else
      var d1 := Ftrace.DigitsFrom(line, k + 4);
      var q := OptionalCount(line, k + 4 + d1);
      if d1 == 0 || !(q + 2 <= |line| && line[q] == ' ' && line[q + 1] == '+') then None
      else Some(q + 2)
  }

  /** `([0-9]+)(,[0-9]+)?\ @@` at `p`: the value of the group. */
  function TailAt(line: string, p: nat): Option<nat>
    requires p <= |line|
  {
    var d2 := Ftrace.DigitsFrom(line, p);
    var r := OptionalCount(line, p + d2);
    if d2 == 0 || !(r + 3 <= |line| && line[r] == ' ' && line[r + 1] == '@' && line[r + 2] == '@') then None
    else Some(NumberAt(line, p, d2))
  }

  /**
   * The value of the decimal digits `line[i..i + n]`, most significant
   * first (see `NumberAtParse` for `Number.parseInt` of the group).
   */
  function NumberAt(line: string, i: nat, n: nat): nat
    requires i + n <= |line|
    decreases n
  {
    if n == 0 then 0
    else NumberAt(line, i, n - 1) * 10 + (if IsDigit(line[i + n - 1]) then DigitValue(line[i + n - 1]) else 0)
  }

  /** On a run of digits, `NumberAt` is the value their text has. */
  lemma {:induction false} NumberAtValue(line: string, i: nat, n: nat)
    requires i + n <= |line| && forall j :: i <= j < i + n ==> IsDigit(line[j])
    ensures NumberAt(line, i, n) == DigitsValue(line[i..i + n])
    decreases n
  {
    if n > 0 {
      NumberAtValue(line, i, n - 1);
      assert line[i..i + n][..n - 1] == line[i..i + n - 1];
    }
  }

  /** `Number.parseInt` of a run of digits reads `NumberAt` of it. */
  lemma NumberAtParse(line: string, i: nat, n: nat)
    requires 1 <= n && i + n <= |line| && forall j :: i <= j < i + n ==> IsDigit(line[j])
    ensures ParseInt(line[i..i + n]) == Some(NumberAt(line, i, n))
  {
    var g := line[i..i + n];
    NumberAtValue(line, i, n);
    assert IsDigit(g[0]);
    assert LeadingSpace(g) == 0;
    assert g[0..] == g;
    assert SignFree(g) == g;
    DigitRunAll(g);
    assert g[..n] == g;
  }

  /** The leftmost match at or after `k`. */
  function HunkStartFrom(line: string, k: nat): Option<nat>
    requires k <= |line|
    decreases |line| - k
  {
    if k == |line| then None
    else match HeaderAt(line, k)
      case Some(n) => Some(n)
      case None => HunkStartFrom(line, k + 1)
  }

  /** The first line of the new file a hunk header names. */
  function HunkStart(line: string): Option<nat> {
    HunkStartFrom(line, 0)
  }

  /** The end of the run of `[0-9;]` starting at `i`. */
  function CodeRunEnd(line: string, i: nat): (j: nat)
    requires i <= |line|
    ensures i <= j <= |line|
    ensures forall t :: i <= t < j ==> IsCodeChar(line[t])
    ensures j < |line| ==> !IsCodeChar(line[j])
    decreases |line| - i
  {
    if i < |line| && IsCodeChar(line[i]) then CodeRunEnd(line, i + 1) else i
  }

  /**
   * `/^(\[[0-9;]*m)*([\ +-])/` from `i`: the marker character after any
   * colour codes. The codes end in 'm' and the marker is never '[', so the
   * codes are skipped whole or the match fails.
   */
  function MarkerFrom(line: string, i: nat): Option<char>
    requires i <= |line|
    decreases |line| - i
  {
    if i == |line| then None
    else if line[i] == '[' then
      var j := CodeRunEnd(line, i + 1);
      if j < |line| && line[j] == 'm' then MarkerFrom(line, j + 1) else None
    else if line[i] == ' ' || line[i] == '+' || line[i] == '-' then Some(line[i])
    else None
  }

  /** `[0-9;]`. */
  predicate IsCodeChar(c: char) {
    IsDigit(c) || c == ';'
  }

  // ---------------------------------------------------------------------------
  // What the hunk-header and marker expressions match

  /** `[0-9]+` on `line[i..i + n]`. */
  predicate DigitsAt(line: string, i: int, n: int) {
    0 <= i && 1 <= n && i + n <= |line| && forall j :: i <= j < i + n ==> IsDigit(line[j])
  }

  /** `(,[0-9]+)?` on `line[i..i + n]`: nothing when `n` is 0, else ',' and digits. */
  predicate OptionalCountAt(line: string, i: int, n: int) {
    n == 0 || (0 <= i < |line| && line[i] == ',' && DigitsAt(line, i + 1, n - 1))
  }

  /** `@@\ -[0-9]+(,[0-9]+)?\ \+` on `line[k..k + 4 + a + b + 2]`, `b` counting the comma (0 when absent). */
  predicate HeadShape(line: string, k: int, a: int, b: int) {
    0 <= k && k + 4 <= |line| && line[k] == '@' && line[k + 1] == '@' && line[k + 2] == ' ' && line[k + 3] == '-'
    && DigitsAt(line, k + 4, a) && OptionalCountAt(line, k + 4 + a, b)
    && k + 4 + a + b + 2 <= |line| && line[k + 4 + a + b] == ' ' && line[k + 4 + a + b + 1] == '+'
  }

  /** `([0-9]+)(,[0-9]+)?\ @@` on `line[p..p + c + d + 3]`. */
  predicate TailShape(line: string, p: int, c: int, d: int) {
    DigitsAt(line, p, c) && OptionalCountAt(line, p + c, d)
    && p + c + d + 3 <= |line| && line[p + c + d] == ' ' && line[p + c + d + 1] == '@' && line[p + c + d + 2] == '@'
  }

  /**
   * The hunk-header expression matches at `k` with its four parts taking
   * `a`, `b`, `c` and `d` characters; `.*` matches the empty rest.
   */
  predicate HeaderShape(line: string, k: int, a: int, b: int, c: int, d: int) {
    HeadShape(line, k, a, b) && TailShape(line, k + 4 + a + b + 2, c, d)
  }

  /** `Number.parseInt` of the second group of that match. */
  function HeaderGroup(line: string, k: int, a: int, b: int, c: int, d: int): nat
    requires HeaderShape(line, k, a, b, c, d)
  {
    NumberAt(line, k + 4 + a + b + 2, c)
  }

  /** A colour code `\[[0-9;]*m` on `line[i..j]`. */
  predicate CodeAt(line: string, i: int, j: int) {
    0 <= i && i + 2 <= j <= |line| && line[i] == '[' && line[j - 1] == 'm'
    && forall t :: i < t < j - 1 ==> IsCodeChar(line[t])
  }

  /** `(\[[0-9;]*m)*` on `line[i..p]`: colour codes one after another. */
  predicate Codes(line: string, i: int, p: int)
    decreases p - i
  {
    i == p || exists j :: i < j <= p && CodeAt(line, i, j) && Codes(line, j, p)
  }

  /** The marker expression matches from `i` with its marker at `p`. */
  predicate MarkerShape(line: string, i: int, p: int) {
    0 <= i <= p < |line| && Codes(line, i, p) && (line[p] == ' ' || line[p] == '+' || line[p] == '-')
  }

  /**
   * A number and its optional count, followed by the ' ' the expression
   * needs next, are the digit run and the optional part the matcher takes.
   */
  lemma NumberComplete(line: string, i: nat, a: int, n: int)
    requires DigitsAt(line, i, a) && OptionalCountAt(line, i + a, n) && i + a + n < |line| && line[i + a + n] == ' '
    ensures Ftrace.DigitsFrom(line, i) == a && OptionalCount(line, i + a) == i + a + n
  {
    assert Ftrace.DigitsFrom(line, i) == a;
    if n > 0 {
      assert Ftrace.DigitsFrom(line, i + a + 1) == n - 1;
    }
  }

  /** The digit run and optional part the matcher takes have the expression's shape. */
  lemma NumberSound(line: string, i: nat)
    requires i <= |line| && Ftrace.DigitsFrom(line, i) > 0
    ensures var a := Ftrace.DigitsFrom(line, i);
      DigitsAt(line, i, a) && OptionalCountAt(line, i + a, OptionalCount(line, i + a) - (i + a))
  {
  }

  lemma HeadSound(line: string, k: nat) returns (a: nat, b: nat)
    requires k <= |line| && HeadAt(line, k).Some?
    ensures HeadShape(line, k, a, b) && HeadAt(line, k) == Some(k + 4 + a + b + 2)
  {
    a := Ftrace.DigitsFrom(line, k + 4);
    NumberSound(line, k + 4);
    b := OptionalCount(line, k + 4 + a) - (k + 4 + a);
  }

  lemma HeadComplete(line: string, k: nat, a: int, b: int)
    requires k <= |line| && HeadShape(line, k, a, b)
    ensures HeadAt(line, k) == Some(k + 4 + a + b + 2)
  {
    NumberComplete(line, k + 4, a, b);
  }

  lemma TailSound(line: string, p: nat) returns (c: nat, d: nat)
    requires p <= |line| && TailAt(line, p).Some?
    ensures TailShape(line, p, c, d) && TailAt(line, p) == Some(NumberAt(line, p, c))
  {
    c := Ftrace.DigitsFrom(line, p);
    NumberSound(line, p);
    d := OptionalCount(line, p + c) - (p + c);
  }

  lemma TailComplete(line: string, p: nat, c: int, d: int)
    requires p <= |line| && TailShape(line, p, c, d)
    ensures TailAt(line, p) == Some(NumberAt(line, p, c))
  {
    NumberComplete(line, p, c, d);
  }

  /** A match found by `HeaderAt` has the expression's shape and the value of its group. */
  lemma HeaderAtSound(line: string, k: nat) returns (a: nat, b: nat, c: nat, d: nat)
    requires k <= |line| && HeaderAt(line, k).Some?
    ensures HeaderShape(line, k, a, b, c, d) && HeaderAt(line, k) == Some(HeaderGroup(line, k, a, b, c, d))
  {
    a, b := HeadSound(line, k);
    c, d := TailSound(line, k + 4 + a + b + 2);
  }

  /** Every occurrence of the shape at `k` is the one `HeaderAt` finds. */
  lemma HeaderAtComplete(line: string, k: nat, a: int, b: int, c: int, d: int)
    requires k <= |line| && HeaderShape(line, k, a, b, c, d)
    ensures HeaderAt(line, k) == Some(HeaderGroup(line, k, a, b, c, d))
  {
    HeadComplete(line, k, a, b);
    TailComplete(line, k + 4 + a + b + 2, c, d);
  }

  /** `HeaderAt` succeeds exactly where the expression matches, with the group's value. */
  lemma HeaderAtIff(line: string, k: nat)
    requires k <= |line|
    ensures HeaderAt(line, k).Some? <==> exists a, b, c, d :: HeaderShape(line, k, a, b, c, d)
    ensures forall a, b, c, d :: HeaderShape(line, k, a, b, c, d) ==> HeaderAt(line, k) == Some(HeaderGroup(line, k, a, b, c, d))
  {
    if HeaderAt(line, k).Some? {
      var a, b, c, d := HeaderAtSound(line, k);
    }
    forall a, b, c, d | HeaderShape(line, k, a, b, c, d)
      ensures HeaderAt(line, k) == Some(HeaderGroup(line, k, a, b, c, d))
    {
      HeaderAtComplete(line, k, a, b, c, d);
    }
  }

  /** No match at or after `k` exactly when the shape occurs nowhere from `k` on. */
  lemma {:induction false} HunkStartFromNone(line: string, k: nat)
    requires k <= |line|
    ensures HunkStartFrom(line, k).None? <==> forall j, a, b, c, d :: k <= j ==> !HeaderShape(line, j, a, b, c, d)
    decreases |line| - k
  {
    HeaderAtIff(line, k);
    if k < |line| {
      HunkStartFromNone(line, k + 1);
    }
  }

  /** With no occurrence of the shape between `k` and `j`, the search returns the group of the one at `j`. */
  lemma {:induction false} HunkStartFromLeftmost(line: string, k: nat, j: nat, a: int, b: int, c: int, d: int)
    requires k <= j <= |line| && HeaderShape(line, j, a, b, c, d)
    requires forall i, a', b', c', d' :: k <= i < j ==> !HeaderShape(line, i, a', b', c', d')
    ensures HunkStartFrom(line, k) == Some(HeaderGroup(line, j, a, b, c, d))
    decreases j - k
  {
    HeaderAtIff(line, k);
    if k < j {
      HunkStartFromLeftmost(line, k + 1, j, a, b, c, d);
    }
  }

  /** A marker found by `MarkerFrom` is a run of colour codes and then a marker character. */
  lemma {:induction false} MarkerFromSound(line: string, i: nat) returns (p: nat)
    requires i <= |line| && MarkerFrom(line, i).Some?
    ensures MarkerShape(line, i, p) && MarkerFrom(line, i) == Some(line[p])
    decreases |line| - i
  {
    if line[i] == '[' {
      var j := CodeRunEnd(line, i + 1);
      p := MarkerFromSound(line, j + 1);
      assert CodeAt(line, i, j + 1);
    } else {
      p := i;
    }
  }

  /** Every match of the marker expression is the one `MarkerFrom` finds. */
  lemma {:induction false} MarkerFromComplete(line: string, i: nat, p: nat)
    requires MarkerShape(line, i, p)
    ensures MarkerFrom(line, i) == Some(line[p])
    decreases p - i
  {
    if i < p {
      var j :| i < j <= p && CodeAt(line, i, j) && Codes(line, j, p);
      assert CodeRunEnd(line, i + 1) == j - 1;
      MarkerFromComplete(line, j, p);
    }
  }

  /** `MarkerFrom` succeeds exactly where the marker expression matches, with the marker it captures. */
  lemma MarkerFromIff(line: string, i: nat)
    requires i <= |line|
    ensures MarkerFrom(line, i).Some? <==> exists p :: MarkerShape(line, i, p)
    ensures forall p :: MarkerShape(line, i, p) ==> MarkerFrom(line, i) == Some(line[p])
  {
    if MarkerFrom(line, i).Some? {
      var p := MarkerFromSound(line, i);
    }
    forall p | MarkerShape(line, i, p) ensures MarkerFrom(line, i) == Some(line[p]) {
      MarkerFromComplete(line, i, p);
    }
  }

  // ---------------------------------------------------------------------------
  // The hunk scan

  /**
   * The listener's state: the chunks `[start, end]` pushed so far (`end`
   * -1 until a line is added) and `lineNo`, the new-file line of the next
   * added line, -1 outside a hunk. The source keeps a reference `chunk` to
   * the last chunk pushed; writing through it updates that last chunk.
   */
  datatype Scan = Scan(chunks: seq<(int, int)>, lineNo: int)

  const Start := Scan([], -1)

  /** `chunk[1] = e`. */
  function SetLastEnd(chunks: seq<(int, int)>, e: int): (r: seq<(int, int)>)
    ensures |r| == |chunks|
    ensures forall i :: 0 <= i < |chunks| - 1 ==> r[i] == chunks[i]
    ensures chunks != [] ==> r[|r| - 1] == (chunks[|chunks| - 1].0, e)
  {
    if chunks == [] then chunks else chunks[|chunks| - 1 := (chunks[|chunks| - 1].0, e)]
  }

  /** A line after the file-header test: a hunk header opens a chunk; inside a hunk an added line extends it. */
  function HunkStep(st: Scan, line: string): Scan {
    match HunkStart(line)
    case Some(n) => Scan(st.chunks + [(n, -1)], n)
    case None =>
      if st.lineNo == -1 then st
      else match MarkerFrom(line, 0)
        case None => Scan(st.chunks, -1)
        case Some(c) => if c == '+' then Scan(SetLastEnd(st.chunks, st.lineNo), st.lineNo + 1) else st
  }

  /** One line as the source handles it: any line with "+++ " in it is skipped. */
  function StepAsWritten(st: Scan, line: string): Scan {
    if IsFileHeader(line) then st else HunkStep(st, line)
  }

  /** One line, with the file-header test applied only outside a hunk. */
  function Step(st: Scan, line: string): Scan {
    if st.lineNo == -1 && IsFileHeader(line) then st else HunkStep(st, line)
  }

  function RunAsWritten(st: Scan, lines: seq<string>): Scan
    decreases |lines|
  {
    if lines == [] then st else RunAsWritten(StepAsWritten(st, lines[0]), lines[1..])
  }

  function Run(st: Scan, lines: seq<string>): Scan
    decreases |lines|
  {
    if lines == [] then st else Run(Step(st, lines[0]), lines[1..])
  }

  /** The zero-based ranges of the chunks that added lines. */
  function Ranges(chunks: seq<(int, int)>): seq<(int, int)> {
    if chunks == [] then []
    else
      var c := chunks[|chunks| - 1];
      Ranges(chunks[..|chunks| - 1]) + (if c.1 != -1 then [(c.0 - 1, c.1 - 1)] else [])
  }

  /** The decorations the source computes for a diff. */
  function Decorations(stdout: string): seq<(int, int)> {
    Ranges(RunAsWritten(Start, Split(stdout, '\n')).chunks)
  }

  /** The decorations of the corrected scan. */
  function DecorationsCorrected(stdout: string): seq<(int, int)> {
    Ranges(Run(Start, Split(stdout, '\n')).chunks)
  }

  /** The `exec` callback on the diff output. */
  method DecorateChanges(stdout: string) returns (ranges: seq<(int, int)>)
    ensures ranges == Decorations(stdout)
  {
    var lines := Split(stdout, '\n');
    var chunks: seq<(int, int)> := [];
    var lineNo: int := -1;
    for i := 0 to |lines|
      invariant RunAsWritten(Scan(chunks, lineNo), lines[i..]) == RunAsWritten(Start, lines)
    {
      var line := lines[i];
      RunAsWrittenUnfold(Scan(chunks, lineNo), lines, i);
      if IsFileHeader(line) {
        continue;
      }
      var start := HunkStart(line);
      if start.Some? {
        lineNo := start.value;
        chunks := chunks + [(lineNo, -1)];
      } else if lineNo != -1 {
        var marker := MarkerFrom(line, 0);
        if marker.None? {
          lineNo := -1;
        } else if marker.value == '+' {
          chunks := SetLastEnd(chunks, lineNo);
          lineNo := lineNo + 1;
        }
      }
    }
    assert lines[|lines|..] == [];
    ranges := RangesOf(chunks);
  }

  /** The `forEach` over the chunks. */
  method RangesOf(chunks: seq<(int, int)>) returns (ranges: seq<(int, int)>)
    ensures ranges == Ranges(chunks)
  {
    ranges := [];
    for j := 0 to |chunks|
      invariant ranges == Ranges(chunks[..j])
    {
      assert chunks[..j + 1][..j] == chunks[..j];
      if chunks[j].1 != -1 {
        ranges := ranges + [(chunks[j].0 - 1, chunks[j].1 - 1)];
      }
    }
    assert chunks[..|chunks|] == chunks;
  }

  lemma RunAsWrittenUnfold(st: Scan, lines: seq<string>, i: nat)
    requires i < |lines|
    ensures RunAsWritten(st, lines[i..]) == RunAsWritten(StepAsWritten(st, lines[i]), lines[i + 1..])
  {
    assert lines[i..][1..] == lines[i + 1..];
  }

  // ---------------------------------------------------------------------------
  // Properties of the scan

  /**
   * Every chunk starts at a line of the file and ends, once it has added
   * lines, at or after its start; inside a hunk `lineNo` is the line after
   * the last chunk's added lines.
   */
  predicate WellFormed(st: Scan) {
    (forall i :: 0 <= i < |st.chunks| ==> st.chunks[i].0 >= 0 && (st.chunks[i].1 == -1 || st.chunks[i].0 <= st.chunks[i].1))
    && st.lineNo >= -1
    && (st.lineNo != -1 ==>
          |st.chunks| > 0
          && var last := st.chunks[|st.chunks| - 1];
          if last.1 == -1 then st.lineNo == last.0 else st.lineNo == last.1 + 1)
  }

  lemma HunkStepWellFormed(st: Scan, line: string)
    requires WellFormed(st)
    ensures WellFormed(HunkStep(st, line))
  {
  }

  lemma {:induction false} RunAsWrittenWellFormed(st: Scan, lines: seq<string>)
    requires WellFormed(st)
    ensures WellFormed(RunAsWritten(st, lines))
    decreases |lines|
  {
    if lines != [] {
      HunkStepWellFormed(st, lines[0]);
      RunAsWrittenWellFormed(StepAsWritten(st, lines[0]), lines[1..]);
    }
  }

  lemma {:induction false} RunWellFormed(st: Scan, lines: seq<string>)
    requires WellFormed(st)
    ensures WellFormed(Run(st, lines))
    decreases |lines|
  {
    if lines != [] {
      HunkStepWellFormed(st, lines[0]);
      RunWellFormed(Step(st, lines[0]), lines[1..]);
    }
  }

  lemma {:induction false} RangesOrdered(chunks: seq<(int, int)>)
    requires forall i :: 0 <= i < |chunks| ==> chunks[i].0 >= 0 && (chunks[i].1 == -1 || chunks[i].0 <= chunks[i].1)
    ensures forall i :: 0 <= i < |Ranges(chunks)| ==> -1 <= Ranges(chunks)[i].0 <= Ranges(chunks)[i].1
  {
    if chunks != [] {
      RangesOrdered(chunks[..|chunks| - 1]);
    }
  }

  /** Every decorated range starts no earlier than the file and ends no earlier than it starts. */
  lemma DecorationsOrdered(stdout: string)
    ensures forall i :: 0 <= i < |Decorations(stdout)| ==> -1 <= Decorations(stdout)[i].0 <= Decorations(stdout)[i].1
  {
    RunAsWrittenWellFormed(Start, Split(stdout, '\n'));
    RangesOrdered(RunAsWritten(Start, Split(stdout, '\n')).chunks);
  }

  /** The same holds of the corrected scan. */
  lemma DecorationsCorrectedOrdered(stdout: string)
    ensures forall i :: 0 <= i < |DecorationsCorrected(stdout)| ==> -1 <= DecorationsCorrected(stdout)[i].0 <= DecorationsCorrected(stdout)[i].1
  {
    RunWellFormed(Start, Split(stdout, '\n'));
    RangesOrdered(Run(Start, Split(stdout, '\n')).chunks);
  }

  /** Where no line holds "+++ ", the source's scan and the corrected one agree. */
  lemma {:induction false} ScansAgree(st: Scan, lines: seq<string>)
    requires forall i :: 0 <= i < |lines| ==> !IsFileHeader(lines[i])
    ensures RunAsWritten(st, lines) == Run(st, lines)
    decreases |lines|
  {
    if lines != [] {
      assert !IsFileHeader(lines[0]);
      ScansAgree(HunkStep(st, lines[0]), lines[1..]);
    }
  }

  /** A line with "+++ " in it leaves the source's scan where it was, inside a hunk or not. */
  lemma {:induction false} FileHeaderSkipped(st: Scan, line: string, lines: seq<string>)
    requires IsFileHeader(line)
    ensures RunAsWritten(st, [line] + lines) == RunAsWritten(st, lines)
  {
    assert ([line] + lines)[1..] == lines;
  }

  /** A line the diff prints for an added line: '+' first and no hunk header in it. */
  predicate AddedLine(line: string) {
    |line| > 0 && line[0] == '+' && HunkStart(line).None?
  }

  /** Every line is an added line. */
  predicate AllAdded(adds: seq<string>) {
    adds == [] || (AddedLine(adds[0]) && AllAdded(adds[1..]))
  }

  /** Every line is an added line without "+++ " in it. */
  predicate AllPlainAdded(adds: seq<string>) {
    adds == [] || (AddedLine(adds[0]) && !IsFileHeader(adds[0]) && AllPlainAdded(adds[1..]))
  }

  /** In the source's scan, each added line without "+++ " extends the last chunk to that line. */
  lemma {:induction false} AddedLinesExtendAsWritten(pre: seq<(int, int)>, start: int, end: int, lineNo: nat, adds: seq<string>)
    requires AllPlainAdded(adds)
    ensures RunAsWritten(Scan(pre + [(start, end)], lineNo), adds)
      == Scan(pre + [(start, if adds == [] then end else lineNo + |adds| - 1)], lineNo + |adds|)
    decreases |adds|
  {
    if adds != [] {
      var st := Scan(pre + [(start, end)], lineNo);
      assert SetLastEnd(st.chunks, lineNo) == pre + [(start, lineNo)];
      assert StepAsWritten(st, adds[0]) == Scan(pre + [(start, lineNo)], lineNo + 1);
      AddedLinesExtendAsWritten(pre, start, lineNo, lineNo + 1, adds[1..]);
    }
  }

  /**
   * A line the source reads as part of an open hunk: no hunk header, no
   * "+++ ", and a ' ', '+' or '-' marker after any colour codes.
   */
  predicate BodyLine(line: string) {
    HunkStart(line).None? && !IsFileHeader(line) && MarkerFrom(line, 0).Some?
  }

  /** Every line is a hunk body line. */
  predicate AllBody(body: seq<string>) {
    forall i :: 0 <= i < |body| ==> BodyLine(body[i])
  }

  /** The number of added lines, those whose marker is '+'. */
  function PlusCount(body: seq<string>): nat
    requires AllBody(body)
  {
    if body == [] then 0
    else (if MarkerFrom(body[0], 0) == Some('+') then 1 else 0) + PlusCount(body[1..])
  }

  /**
   * In the source's scan, a run of hunk body lines moves `lineNo` on by the
   * number of added lines among them, and sets the last chunk's end to the
   * line of the last one; context and removed lines change nothing.
   */
  lemma {:induction false} HunkBodyCounted(pre: seq<(int, int)>, s: int, e: int, n: nat, body: seq<string>)
    requires AllBody(body)
    ensures RunAsWritten(Scan(pre + [(s, e)], n), body)
      == Scan(pre + [(s, if PlusCount(body) == 0 then e else n + PlusCount(body) - 1)], n + PlusCount(body))
    decreases |body|
  {
    if body != [] {
      var st := Scan(pre + [(s, e)], n);
      assert BodyLine(body[0]);
      assert AllBody(body[1..]) by {
        forall i | 0 <= i < |body[1..]| ensures BodyLine(body[1..][i]) {
          assert body[1..][i] == body[i + 1];
        }
      }
      if MarkerFrom(body[0], 0) == Some('+') {
        assert SetLastEnd(st.chunks, n) == pre + [(s, n)];
        assert StepAsWritten(st, body[0]) == Scan(pre + [(s, n)], n + 1);
        HunkBodyCounted(pre, s, n, n + 1, body[1..]);
      } else {
        assert StepAsWritten(st, body[0]) == st;
        HunkBodyCounted(pre, s, e, n, body[1..]);
      }
    }
  }

  /**
   * Inside a hunk, a line that is no header, holds no "+++ " and has no
   * marker closes the hunk and keeps the chunks.
   */
  lemma HunkClosed(st: Scan, line: string)
    requires st.lineNo != -1
    requires HunkStart(line).None? && !IsFileHeader(line) && MarkerFrom(line, 0).None?
    ensures StepAsWritten(st, line) == Scan(st.chunks, -1)
  {
  }

  /**
   * In the source's scan, a hunk header for line `n`, its body lines and a
   * closing line decorate the new-file lines `n` to `n + P - 1`, where P is
   * the number of added lines in the body, and leave the hunk closed.
   */
  lemma HunkLinesCounted(st: Scan, header: string, n: nat, body: seq<string>, close: string)
    requires HunkStart(header) == Some(n) && !IsFileHeader(header)
    requires AllBody(body)
    requires HunkStart(close).None? && !IsFileHeader(close) && MarkerFrom(close, 0).None?
    ensures RunAsWritten(st, [header] + body + [close])
      == Scan(st.chunks + [(n, if PlusCount(body) == 0 then -1 else n + PlusCount(body) - 1)], -1)
  {
    HeaderStep(st, header, n);
    RunAsWrittenCons(st, header, body + [close]);
    assert [header] + body + [close] == [header] + (body + [close]);
    HunkBodyCounted(st.chunks, n, -1, n, body);
    var mid := RunAsWritten(Scan(st.chunks + [(n, -1)], n), body);
    RunAsWrittenAppend(Scan(st.chunks + [(n, -1)], n), body, [close]);
    HunkClosed(mid, close);
    assert [close][1..] == [];
  }

  lemma {:induction false} RunAsWrittenAppend(st: Scan, a: seq<string>, b: seq<string>)
    ensures RunAsWritten(st, a + b) == RunAsWritten(RunAsWritten(st, a), b)
    decreases |a|
  {
    if a != [] {
      assert (a + b)[0] == a[0] && (a + b)[1..] == a[1..] + b;
      RunAsWrittenAppend(StepAsWritten(st, a[0]), a[1..], b);
    } else {
      assert a + b == b;
    }
  }

  /** Plain added lines are body lines, each of them added. */
  lemma {:induction false} PlainAddedBody(adds: seq<string>)
    requires AllPlainAdded(adds)
    ensures AllBody(adds) && PlusCount(adds) == |adds|
    decreases |adds|
  {
    if adds != [] {
      PlainAddedBody(adds[1..]);
      assert MarkerFrom(adds[0], 0) == Some('+');
      forall i | 0 <= i < |adds| ensures BodyLine(adds[i]) {
        if i > 0 {
          assert adds[i] == adds[1..][i - 1];
        }
      }
    }
  }

  /**
   * In the source's scan, a hunk header for line `n` followed by `k` added
   * lines, none holding "+++ ", decorates the new-file lines `n` to `n + k - 1`.
   */
  lemma HunkCountedAsWritten(st: Scan, header: string, n: nat, adds: seq<string>)
    requires HunkStart(header) == Some(n)
    requires !IsFileHeader(header)
    requires AllPlainAdded(adds)
    ensures RunAsWritten(st, [header] + adds)
      == Scan(st.chunks + [(n, if adds == [] then -1 else n + |adds| - 1)], n + |adds|)
  {
    HeaderStep(st, header, n);
    RunAsWrittenCons(st, header, adds);
    AddedLinesExtendAsWritten(st.chunks, n, -1, n, adds);
  }

  lemma RunAsWrittenCons(st: Scan, line: string, lines: seq<string>)
    ensures RunAsWritten(st, [line] + lines) == RunAsWritten(StepAsWritten(st, line), lines)
  {
    assert ([line] + lines)[1..] == lines;
  }

  /** In the corrected scan, each added line extends the last chunk to that line. */
  lemma {:induction false} AddedLinesExtend(pre: seq<(int, int)>, start: int, end: int, lineNo: nat, adds: seq<string>)
    requires AllAdded(adds)
    ensures Run(Scan(pre + [(start, end)], lineNo), adds)
      == Scan(pre + [(start, if adds == [] then end else lineNo + |adds| - 1)], lineNo + |adds|)
    decreases |adds|
  {
    if adds != [] {
      var st := Scan(pre + [(start, end)], lineNo);
      assert SetLastEnd(st.chunks, lineNo) == pre + [(start, lineNo)];
      assert Step(st, adds[0]) == Scan(pre + [(start, lineNo)], lineNo + 1);
      AddedLinesExtend(pre, start, lineNo, lineNo + 1, adds[1..]);
    }
  }

  /**
   * In the corrected scan, a hunk header for line `n` followed by `k` added
   * lines decorates the new-file lines `n` to `n + k - 1`, whatever the
   * added lines hold.
   */
  lemma HunkCounted(st: Scan, header: string, n: nat, adds: seq<string>)
    requires HunkStart(header) == Some(n)
    requires !IsFileHeader(header)
    requires AllAdded(adds)
    ensures Run(st, [header] + adds)
      == Scan(st.chunks + [(n, if adds == [] then -1 else n + |adds| - 1)], n + |adds|)
  {
    HeaderStep(st, header, n);
    RunCons(st, header, adds);
    AddedLinesExtend(st.chunks, n, -1, n, adds);
  }

  lemma HeaderStep(st: Scan, header: string, n: nat)
    requires HunkStart(header) == Some(n) && !IsFileHeader(header)
    ensures StepAsWritten(st, header) == Scan(st.chunks + [(n, -1)], n)
    ensures Step(st, header) == Scan(st.chunks + [(n, -1)], n)
  {
  }

  lemma RunCons(st: Scan, line: string, lines: seq<string>)
    ensures Run(st, [line] + lines) == Run(Step(st, line), lines)
  {
    assert ([line] + lines)[1..] == lines;
  }

  /** A line without '@' holds no hunk header. */
  lemma {:induction false} NoHeaderWithoutAt(line: string, k: nat)
    requires k <= |line|
    requires forall j :: 0 <= j < |line| ==> line[j] != '@'
    ensures HunkStartFrom(line, k) == None
    decreases |line| - k
  {
    if k < |line| {
      NoHeaderWithoutAt(line, k + 1);
    }
  }

  // ---------------------------------------------------------------------------
  // An added line that reads "+++ "

  const DiffHeader := "@@ -0,0 +1,2 @@"
  const AddedA := "+a"
  const AddedPlus := "+++ x"

  /** `@@ -0,0 +1,2 @@` opens a hunk at line 1. */
  lemma DiffHeaderStart(line: string)
    requires line == DiffHeader
    ensures HunkStart(line) == Some(1)
    ensures !IsFileHeader(line)
  {
    assert line == ['@', '@', ' ', '-', '0', ',', '0', ' ', '+', '1', ',', '2', ' ', '@', '@'];
    HeaderLine(line);
    forall k | 0 <= k < |line| ensures !FileHeaderAt(line, k) {
      SinglePlus(line, k);
    }
  }

  /** The characters of the header, one by one. */
  lemma HeaderLine(line: string)
    requires line == ['@', '@', ' ', '-', '0', ',', '0', ' ', '+', '1', ',', '2', ' ', '@', '@']
    ensures HeaderAt(line, 0) == Some(1)
  {
    assert Ftrace.DigitsFrom(line, 5) == 0;
    assert Ftrace.DigitsFrom(line, 4) == 1;
    assert Ftrace.DigitsFrom(line, 7) == 0;
    assert Ftrace.DigitsFrom(line, 6) == 1;
    assert OptionalCount(line, 5) == 7;
    assert Ftrace.DigitsFrom(line, 10) == 0;
    assert Ftrace.DigitsFrom(line, 9) == 1;
    assert Ftrace.DigitsFrom(line, 12) == 0;
    assert Ftrace.DigitsFrom(line, 11) == 1;
    assert OptionalCount(line, 10) == 12;
    assert NumberAt(line, 9, 1) == 1;
  }

  /** The header has one '+' only, at index 8, so "+++ " is nowhere in it. */
  lemma SinglePlus(line: string, k: nat)
    requires line == ['@', '@', ' ', '-', '0', ',', '0', ' ', '+', '1', ',', '2', ' ', '@', '@']
    ensures !FileHeaderAt(line, k)
  {
    if k == 8 {
      assert line[9] != '+';
    } else if k < |line| {
      assert line[k] != '+';
    }
  }

  /** Lines that start with '+' and hold no '@' are added lines; the second one reads as a file header. */
  lemma AddedLinesShape(a: string, b: string)
    requires a == AddedA && b == AddedPlus
    ensures AddedLine(a) && AddedLine(b)
    ensures IsFileHeader(b) && !IsFileHeader(a)
  {
    assert |a| == 2 && a[0] == '+' && a[1] == 'a';
    assert |b| == 5 && b[0] == '+' && b[1] == '+' && b[2] == '+' && b[3] == ' ' && b[4] == 'x';
    NoHeaderWithoutAt(a, 0);
    NoHeaderWithoutAt(b, 0);
    assert FileHeaderAt(b, 0);
  }

  /** As written: an added line that reads as a file header is dropped from its hunk. */
  lemma {:induction false} AsWrittenDropsLine(h: string, a: string, b: string, n: nat)
    requires HunkStart(h) == Some(n) && !IsFileHeader(h)
    requires AddedLine(a) && !IsFileHeader(a)
    requires AddedLine(b) && IsFileHeader(b)
    ensures RunAsWritten(Start, [h, a, b]) == Scan([(n, n)], n + 1)
  {
    var s1 := Scan([(n, -1)], n);
    var s2 := Scan([(n, n)], n + 1);
    assert StepAsWritten(Start, h) == s1;
    assert StepAsWritten(s1, a) == s2;
    assert StepAsWritten(s2, b) == s2;
    assert [h, a, b][1..] == [a, b] && [a, b][1..] == [b] && [b][1..] == [];
    assert RunAsWritten(s2, [b]) == RunAsWritten(s2, []);
    assert RunAsWritten(s1, [a, b]) == RunAsWritten(s2, [b]);
  }

  /** Corrected: the same lines extend the hunk by two. */
  lemma CorrectedKeepsLine(h: string, a: string, b: string, n: nat)
    requires HunkStart(h) == Some(n) && !IsFileHeader(h)
    requires AddedLine(a) && AddedLine(b)
    ensures Run(Start, [h, a, b]) == Scan([(n, n + 1)], n + 2)
  {
    assert [a, b][1..] == [b] && [b][1..] == [];
    assert AllAdded([a, b]);
    HunkCounted(Start, h, n, [a, b]);
    assert [h] + [a, b] == [h, a, b];
  }

  /**
   * A hunk adding "a" and "++ x" (printed as "+a" and "+++ x"): the source
   * skips the second as if it were a file header, so only line 1 is
   * decorated; the corrected scan decorates lines 1 and 2.
   */
  lemma AddedLineSkipped(h: string, a: string, b: string)
    requires h == DiffHeader && a == AddedA && b == AddedPlus
    ensures Ranges(RunAsWritten(Start, [h, a, b]).chunks) == [(0, 0)]
    ensures Ranges(Run(Start, [h, a, b]).chunks) == [(0, 1)]
  {
    DiffHeaderStart(h);
    AddedLinesShape(a, b);
    AsWrittenDropsLine(h, a, b, 1);
    CorrectedKeepsLine(h, a, b, 1);
    assert Ranges([(1, 1)]) == [(0, 0)] by {
      assert [(1, 1)][..0] == [];
    }
    assert Ranges([(1, 2)]) == [(0, 1)] by {
      assert [(1, 2)][..0] == [];
    }
  }
}
