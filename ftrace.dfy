/**
 * Function tracing over ssh: the two byte-stream framers (the command
 * runner's and the trace-pipe listener's), the recogniser for ftrace
 * `function` tracer lines, and the per-function call histogram that the
 * listener keeps.
 */
module Ftrace {
  import opened Text
  import OM = OrderedMap

  // ---------------------------------------------------------------------------
  // Framing bytes into lines

  /** Capacity of the framing buffer (`Buffer.alloc(1024 * 100)`). */
  const BufferSize: nat := 1024 * 100

  /** How many of `n` written bytes the fixed buffer actually holds. */
  function Stored(n: nat): (r: nat)
    ensures r <= n && r <= BufferSize
    ensures r == n || r == BufferSize
  {
    if n < BufferSize then n else BufferSize
  }

  /** Bytes as text, one character per byte (exact for ASCII trace output). */
  function Decode(b: seq<byte>): (s: string)
    ensures |s| == |b|
    ensures forall i :: 0 <= i < |b| ==> s[i] as int == b[i]
  {
    seq(|b|, i requires 0 <= i < |b| => b[i] as char)
  }

  /**
   * The line emitted for the bytes written since the last line end:
   * `buffer.slice(0, bufferIndex).toString().trim()`, where the slice is cut
   * at the buffer's capacity.
   */
  function LineText(pending: seq<byte>): string {
    Trim(Decode(pending[..Stored(|pending|)]))
  }

  /** Lines emitted before a framing state and what that state goes on to emit. */
  function Prepend(lines: seq<string>, rest: (seq<string>, seq<byte>)): (seq<string>, seq<byte>) {
    (lines + rest.0, rest.1)
  }

  /**
   * The command runner's framer: every byte 10 ends a line; all other bytes
   * are written to the buffer. Returns the lines and the bytes still pending.
   */
  function CommandFrames(pending: seq<byte>, data: seq<byte>): (seq<string>, seq<byte>)
    decreases |data|
  {
    if data == [] then ([], pending)
    else if data[0] == 10 then Prepend([LineText(pending)], CommandFrames([], data[1..]))
    else CommandFrames(pending + [data[0]], data[1..])
  }

  /**
   * The listener's framer: bytes 10 and 13 both end a line, and a byte 10
   * right after the line end, in the same chunk, is skipped with it.
   */
  function PipeFrames(pending: seq<byte>, data: seq<byte>): (seq<string>, seq<byte>)
    decreases |data|
  {
    if data == [] then ([], pending)
    else if data[0] == 10 || data[0] == 13 then
      var next := if |data| > 1 && data[1] == 10 then data[2..] else data[1..];
      Prepend([LineText(pending)], PipeFrames([], next))
    else PipeFrames(pending + [data[0]], data[1..])
  }

  /** The command framer does not depend on how the stream is cut into chunks. */
  lemma {:induction false} CommandFramesConcat(pending: seq<byte>, a: seq<byte>, b: seq<byte>)
    ensures CommandFrames(pending, a + b)
         == Prepend(CommandFrames(pending, a).0, CommandFrames(CommandFrames(pending, a).1, b))
    decreases |a|
  {
    if a == [] {
      assert a + b == b;
      assert [] + CommandFrames(pending, b).0 == CommandFrames(pending, b).0;
    } else {
      assert (a + b)[0] == a[0];
      assert (a + b)[1..] == a[1..] + b;
      if a[0] == 10 {
        CommandFramesConcat([], a[1..], b);
        var r1 := CommandFrames([], a[1..]);
        var r2 := CommandFrames(r1.1, b);
        assert [LineText(pending)] + (r1.0 + r2.0) == ([LineText(pending)] + r1.0) + r2.0;
      } else {
        CommandFramesConcat(pending + [a[0]], a[1..], b);
      }
    }
  }

  /** Without a byte 10 a chunk only extends the pending line. */
  lemma {:induction false} CommandFramesNoNewline(pending: seq<byte>, data: seq<byte>)
    requires 10 !in data
    ensures CommandFrames(pending, data) == ([], pending + data)
    decreases |data|
  {
    if data == [] {
      assert pending + data == pending;
    } else {
      assert 10 !in data[1..] by {
        forall i | 0 <= i < |data[1..]| ensures data[1..][i] != 10 { assert data[1..][i] == data[i + 1]; }
      }
      CommandFramesNoNewline(pending + [data[0]], data[1..]);
      assert pending + [data[0]] + data[1..] == pending + data;
    }
  }

  /**
   * The line a byte 10 ends is made of the bytes pending from earlier chunks
   * followed by this chunk's bytes before it.
   */
  lemma CommandLineSpansChunks(pending: seq<byte>, a: seq<byte>, b: seq<byte>)
    requires 10 !in a
    ensures CommandFrames(pending, a + [10] + b).0
         == [LineText(pending + a)] + CommandFrames([], b).0
  {
    CommandFramesNoNewline(pending, a);
    CommandFramesConcat(pending, a, [10] + b);
    assert a + ([10] + b) == a + [10] + b;
    assert ([10] + b)[1..] == b;
  }

  /** Bytes beyond the buffer's capacity never reach the emitted line. */
  lemma LongLineTruncated(pending: seq<byte>, extra: seq<byte>)
    requires |pending| >= BufferSize
    ensures LineText(pending + extra) == LineText(pending)
    ensures LineText(pending) == Trim(Decode(pending[..BufferSize]))
  {
    assert (pending + extra)[..BufferSize] == pending[..BufferSize];
  }

  /** The listener framer is chunk-independent when a chunk does not end on a line end. */
  lemma {:induction false} PipeFramesConcat(pending: seq<byte>, a: seq<byte>, b: seq<byte>)
    requires a == [] || (a[|a| - 1] != 10 && a[|a| - 1] != 13)
    ensures PipeFrames(pending, a + b)
         == Prepend(PipeFrames(pending, a).0, PipeFrames(PipeFrames(pending, a).1, b))
    decreases |a|
  {
    if a == [] {
      assert a + b == b;
      assert [] + PipeFrames(pending, b).0 == PipeFrames(pending, b).0;
    } else {
      assert (a + b)[0] == a[0];
      assert (a + b)[1..] == a[1..] + b;
      if a[0] == 10 || a[0] == 13 {
        assert |a| > 1;
        assert (a + b)[1] == a[1];
        var next := if a[1] == 10 then a[2..] else a[1..];
        assert (a + b)[2..] == a[2..] + b;
        assert (if (a + b)[1] == 10 then (a + b)[2..] else (a + b)[1..]) == next + b;
        assert next == [] || (next[|next| - 1] != 10 && next[|next| - 1] != 13);
        PipeFramesConcat([], next, b);
        var r1 := PipeFrames([], next);
        var r2 := PipeFrames(r1.1, b);
        assert [LineText(pending)] + (r1.0 + r2.0) == ([LineText(pending)] + r1.0) + r2.0;
      } else {
        PipeFramesConcat(pending + [a[0]], a[1..], b);
      }
    }
  }

  /**
   * A CR LF pair in one chunk ends one line; the same pair split across two
   * chunks ends two, the second of them empty.
   */
  lemma PipeCrLf(pending: seq<byte>)
    ensures PipeFrames(pending, [13, 10]) == ([LineText(pending)], [])
    ensures PipeFrames(pending, [13]) == ([LineText(pending)], [])
    ensures PipeFrames([], [10]) == ([""], [])
  {
    var crlf: seq<byte> := [13, 10];
    var cr: seq<byte> := [13];
    var lf: seq<byte> := [10];
    assert crlf[2..] == [] && cr[1..] == [] && lf[1..] == [];
    assert PipeFrames([], []) == ([], []);
    assert [LineText(pending)] + [] == [LineText(pending)];
    assert LineText([]) == "" by { assert Decode([]) == []; }
    assert [""] + [] == [""];
  }

  /** The framing state of one stream: the fixed buffer and the write index. */
  class LineFramer {
    const buffer: array<byte>
    var bufferIndex: nat
    /** Every byte written since the last line end, including those the buffer dropped. */
    ghost var pending: seq<byte>

    ghost predicate Valid()
      reads this, buffer
    {
      buffer.Length == BufferSize
      && bufferIndex == |pending|
      && buffer[..Stored(bufferIndex)] == pending[..Stored(bufferIndex)]
    }

    constructor ()
      ensures Valid() && pending == []
    {
      buffer := new byte[BufferSize](_ => 0);
      bufferIndex := 0;
      pending := [];
    }

    /** `buffer[bufferIndex++] = d`: a write past the capacity is dropped. */
    method Write(d: byte)
      requires Valid()
      modifies this, buffer
      ensures Valid() && pending == old(pending) + [d]
    {
      if bufferIndex < buffer.Length {
        buffer[bufferIndex] := d;
        assert buffer[..bufferIndex + 1] == old(buffer[..bufferIndex]) + [d];
      } else {
        assert buffer[..Stored(bufferIndex + 1)] == old(buffer[..Stored(bufferIndex)]);
      }
      bufferIndex := bufferIndex + 1;
      pending := pending + [d];
      assert pending[..Stored(bufferIndex)] == old(pending)[..Stored(bufferIndex - 1)] + (if bufferIndex <= BufferSize then [d] else []);
    }

    /** Emit the buffered line and reset the index. */
    method TakeLine() returns (line: string)
      requires Valid()
      modifies this
      ensures Valid() && pending == [] && line == LineText(old(pending))
    {
      line := Trim(Decode(buffer[..Stored(bufferIndex)]));
      bufferIndex := 0;
      pending := [];
    }

    /**
     * The command runner's `data` handler. Without a line callback the
     * chunk is dropped.
     */
    method FeedCommandOutput(data: seq<byte>, hasLineCallback: bool) returns (lines: seq<string>)
      requires Valid()
      modifies this, buffer
      ensures Valid()
      ensures hasLineCallback ==> (lines, pending) == CommandFrames(old(pending), data)
      ensures !hasLineCallback ==> lines == [] && pending == old(pending)
    {
      lines := [];
      if !hasLineCallback {
        return;
      }
      var i := 0;
      assert data[i..] == data;
      assert [] + CommandFrames(pending, data).0 == CommandFrames(pending, data).0;
      while i < |data|
        invariant 0 <= i <= |data|
        invariant Valid()
        invariant CommandFrames(old(pending), data) == Prepend(lines, CommandFrames(pending, data[i..]))
      {
        assert data[i..][1..] == data[i + 1..];
        if data[i] == 10 {
          ghost var rest := CommandFrames([], data[i + 1..]);
          var line := TakeLine();
          assert (lines + [line]) + rest.0 == lines + ([line] + rest.0);
          lines := lines + [line];
        } else {
          Write(data[i]);
        }
        i := i + 1;
      }
      assert data[i..] == [];
      assert lines + [] == lines;
    }

    /** The listener's `data` handler, up to (not including) parsing each line. */
    method FeedTracePipe(data: seq<byte>) returns (lines: seq<string>)
      requires Valid()
      modifies this, buffer
      ensures Valid()
      ensures (lines, pending) == PipeFrames(old(pending), data)
    {
      lines := [];
      var i := 0;
      assert data[i..] == data;
      assert [] + PipeFrames(pending, data).0 == PipeFrames(pending, data).0;
      while i < |data|
        invariant 0 <= i <= |data|
        invariant Valid()
        invariant PipeFrames(old(pending), data) == Prepend(lines, PipeFrames(pending, data[i..]))
      {
        assert data[i..][1..] == data[i + 1..];
        if data[i] == 10 || data[i] == 13 {
          ghost var next := if i + 1 < |data| && data[i + 1] == 10 then data[i + 2..] else data[i + 1..];
          if i + 1 < |data| { assert data[i..][2..] == data[i + 2..]; }
          ghost var rest := PipeFrames([], next);
          var line := TakeLine();
          assert (lines + [line]) + rest.0 == lines + ([line] + rest.0);
          lines := lines + [line];
          if i + 1 < |data| && data[i + 1] == 10 {
            i := i + 1;
          }
        } else {
          Write(data[i]);
        }
        i := i + 1;
      }
      assert data[i..] == [];
      assert lines + [] == lines;
    }
  }

  // ---------------------------------------------------------------------------
  // Recognising trace lines
  //
  // The call-line pattern `.* (\d+\.\d+): (.+) <-(.+)$` has one way to match
  // per choice of two positions: `p`, the space before the timestamp, and
  // `q`, the length of the function name. The regular-expression engine
  // takes the largest `p` for which some `q` works, then the largest `q`.

  /** Length of the run of digits in `s` that starts at `i`. */
  function DigitsFrom(s: string, i: nat): (n: nat)
    requires i <= |s|
    ensures i + n <= |s|
    ensures forall j :: i <= j < i + n ==> IsDigit(s[j])
    ensures i + n < |s| ==> !IsDigit(s[i + n])
    decreases |s| - i
  {
    if i == |s| || !IsDigit(s[i]) then 0 else 1 + DigitsFrom(s, i + 1)
  }

  /** Length of the run of digits in `s` that ends just before `e`. */
  function DigitsBefore(s: string, e: nat): (n: nat)
    requires e <= |s|
    ensures n <= e
    ensures forall j :: e - n <= j < e ==> IsDigit(s[j])
    ensures n < e ==> !IsDigit(s[e - n - 1])
  {
    if e == 0 || !IsDigit(s[e - 1]) then 0 else 1 + DigitsBefore(s, e - 1)
  }

  /** Index just past ` digits.digits: ` when that text starts at `p`. */
  function TimestampEnd(line: string, p: nat): (r: Option<nat>)
    ensures r.Some? ==> p + 6 <= r.value <= |line|
  {
    if p >= |line| || line[p] != ' ' then None
    else
      var d1 := DigitsFrom(line, p + 1);
      var dot := p + 1 + d1;
      if d1 == 0 || dot >= |line| || line[dot] != '.' then None
      else
        var d2 := DigitsFrom(line, dot + 1);
        var colon := dot + 1 + d2;
        if d2 == 0 || colon + 1 >= |line| || line[colon] != ':' || line[colon + 1] != ' ' then None
        else Some(colon + 2)
  }

  /** `.` matches every character from `t` on. */
  predicate NoTerminatorFrom(line: string, t: nat) {
    forall i :: t <= i < |line| ==> !IsLineTerminator(line[i])
  }

  /** ` <-` follows a function name of length `q` that starts at `t`, with a non-empty parent after it. */
  predicate ArrowAt(line: string, t: nat, q: int) {
    1 <= q && t + q + 3 < |line| && line[t + q] == ' ' && line[t + q + 1] == '<' && line[t + q + 2] == '-'
  }

  /** The call pattern matches with the timestamp's space at `p` and a name of length `q`. */
  predicate CallAt(line: string, p: int, q: int) {
    0 <= p
    && TimestampEnd(line, p).Some?
    && NoTerminatorFrom(line, TimestampEnd(line, p).value)
    && ArrowAt(line, TimestampEnd(line, p).value, q)
  }

  /** The largest name length up to `q` that an arrow follows. */
  function LastArrow(line: string, t: nat, q: nat): (r: Option<nat>)
    ensures r.None? ==> forall q' :: q' <= q ==> !ArrowAt(line, t, q')
    ensures r.Some? ==> r.value <= q && ArrowAt(line, t, r.value)
    ensures r.Some? ==> forall q' :: r.value < q' <= q ==> !ArrowAt(line, t, q')
    decreases q
  {
    if q == 0 then None
    else if ArrowAt(line, t, q) then Some(q)
    else LastArrow(line, t, q - 1)
  }

  /** The longest name length that matches with the timestamp's space at `p`, if any does. */
  function NameLengthAt(line: string, p: nat): (r: Option<nat>)
    ensures r.None? ==> forall q :: !CallAt(line, p, q)
    ensures r.Some? ==> CallAt(line, p, r.value)
    ensures r.Some? ==> forall q :: CallAt(line, p, q) ==> q <= r.value
  {
    var here := TimestampEnd(line, p);
    if here.Some? && NoTerminatorFrom(line, here.value) then LastArrow(line, here.value, |line|) else None
  }

  /** The match with the largest timestamp position below `p`, and its largest name length. */
  function MatchCallBelow(line: string, p: nat): (r: Option<(nat, nat)>)
    ensures r.None? ==> forall p', q :: p' < p ==> !CallAt(line, p', q)
    ensures r.Some? ==> r.value.0 < p && CallAt(line, r.value.0, r.value.1)
    ensures r.Some? ==> forall p', q :: r.value.0 < p' < p ==> !CallAt(line, p', q)
    ensures r.Some? ==> forall q :: CallAt(line, r.value.0, q) ==> q <= r.value.1
    decreases p
  {
    if p == 0 then None
    else
      match NameLengthAt(line, p - 1)
      case Some(q) => Some((p - 1, q))
      case None => MatchCallBelow(line, p - 1)
  }

  /** The groups `(.+) <-(.+)` of the call pattern, for the match the engine picks. */
  function MatchCall(line: string): Option<(string, string)> {
    match MatchCallBelow(line, |line|)
    case None => None
    case Some((p, q)) =>
      var t := TimestampEnd(line, p).value;
      Some((line[t..t + q], line[t + q + 3..]))
  }

  /**
   * The call pattern matches iff some choice of positions fits, and the
   * groups are those of the largest timestamp position, then the longest name.
   */
  lemma MatchCallSpec(line: string)
    ensures MatchCall(line).None? <==> forall p, q :: !CallAt(line, p, q)
    ensures MatchCall(line).Some? ==> exists p, q ::
      CallAt(line, p, q)
      && (forall p', q' :: CallAt(line, p', q') ==> p' <= p)
      && (forall q' :: CallAt(line, p, q') ==> q' <= q)
      && MatchCall(line).value == (line[TimestampEnd(line, p).value..TimestampEnd(line, p).value + q],
                                   line[TimestampEnd(line, p).value + q + 3..])
  {
    assert forall p', q' :: CallAt(line, p', q') ==> p' < |line|;
    match MatchCallBelow(line, |line|)
    case None =>
    case Some((p, q)) =>
      assert CallAt(line, p, q);
  }

  predicate AllDigits(s: string) {
    forall i :: 0 <= i < |s| ==> IsDigit(s[i])
  }

  /** The lost-events pattern `.* \[LOST (\d+) EVENTS\]$` with ` [LOST ` at `k`. */
  predicate LostAt(line: string, k: int) {
    0 <= k && k + 16 <= |line|
    && line[k..k + 7] == " [LOST "
    && line[|line| - 8..] == " EVENTS]"
    && forall j :: k + 7 <= j < |line| - 8 ==> IsDigit(line[j])
  }

  /** The event count group of the lost-events pattern. */
  function MatchLost(line: string): (r: Option<string>)
    ensures r.None? <==> forall k :: !LostAt(line, k)
    ensures r.Some? ==> exists k :: LostAt(line, k) && r.value == line[k + 7..|line| - 8]
  {
    if |line| < 16 || line[|line| - 8..] != " EVENTS]" then None
    else
      var e := |line| - 8;
      var d := DigitsBefore(line, e);
      if d == 0 || e - d < 7 || line[e - d - 7..e - d] != " [LOST " then
        assert forall k :: LostAt(line, k) ==> k == e - d - 7 by {
          forall k | LostAt(line, k) ensures k == e - d - 7 {
            assert line[k + 6] == line[k..k + 7][6];
          }
        }
        None
      else
        assert LostAt(line, e - d - 7);
        Some(line[e - d..e])
  }

  /** How `parseFtraceLine` reads a line. */
  datatype TraceLine = CallLine(fun: string, parent: string) | LostLine(lost: string) | OtherLine

  function ClassifyLine(line: string): (r: TraceLine)
    ensures r.CallLine? <==> MatchCall(line).Some?
    ensures r.CallLine? ==> (r.fun, r.parent) == MatchCall(line).value
    ensures r.LostLine? <==> MatchCall(line).None? && MatchLost(line).Some?
    ensures r.LostLine? ==> r.lost == MatchLost(line).value
  {
    match MatchCall(line)
    case Some((fun, parent)) => CallLine(fun, parent)
    case None =>
      match MatchLost(line)
      case Some(n) => LostLine(n)
      case None => OtherLine
  }

  /**
   * The shape of a function-tracer line, by position: a space at `p0`,
   * digits, '.' at `dot`, digits, ": " ending before `t`, a C identifier
   * on [t, a), " <-" at `a`, then word characters to the end.
   */
  predicate TracerLayout(line: string, p0: nat, dot: nat, t: nat, a: nat) {
    p0 + 1 < dot && dot + 1 < t - 2 && t < a && a + 3 < |line|
    && line[p0] == ' ' && line[dot] == '.' && line[t - 2] == ':' && line[t - 1] == ' '
    && (forall i :: p0 < i < dot ==> IsDigit(line[i]))
    && (forall i :: dot < i < t - 2 ==> IsDigit(line[i]))
    && (forall i :: t <= i < a ==> IsWordChar(line[i]))
    && !IsDigit(line[t])
    && line[a] == ' ' && line[a + 1] == '<' && line[a + 2] == '-'
    && (forall i :: a + 3 <= i < |line| ==> IsWordChar(line[i]))
  }

  lemma LayoutTimestamp(line: string, p0: nat, dot: nat, t: nat, a: nat)
    requires TracerLayout(line, p0, dot, t, a)
    ensures TimestampEnd(line, p0) == Some(t)
    ensures CallAt(line, p0, a - t)
  {
    assert DigitsFrom(line, p0 + 1) == dot - p0 - 1;
    assert DigitsFrom(line, dot + 1) == t - 2 - dot - 1;
    assert NoTerminatorFrom(line, t) by {
      forall i | t <= i < |line| ensures !IsLineTerminator(line[i]) {
        if i < a || i >= a + 3 {
          assert IsWordChar(line[i]);
        }
      }
    }
  }

  lemma LayoutNoLaterCall(line: string, p0: nat, dot: nat, t: nat, a: nat)
    requires TracerLayout(line, p0, dot, t, a)
    ensures forall p, q :: p0 < p ==> !CallAt(line, p, q)
  {
    forall p, q | p0 < p && 0 <= p < |line| && line[p] == ' ' ensures !CallAt(line, p, q) {
      assert p == t - 1 || p == a;
    }
  }

  lemma LayoutOnlyArrow(line: string, p0: nat, dot: nat, t: nat, a: nat)
    requires TracerLayout(line, p0, dot, t, a)
    ensures forall q :: ArrowAt(line, t, q) ==> q == a - t
  {
    forall q | ArrowAt(line, t, q) ensures q == a - t {
    }
  }

  /** A line laid out as a tracer line is read as a call with the identifier and the parent. */
  lemma LayoutCall(line: string, p0: nat, dot: nat, t: nat, a: nat)
    requires TracerLayout(line, p0, dot, t, a)
    ensures ClassifyLine(line) == CallLine(line[t..a], line[a + 3..])
  {
    LayoutMatch(line, p0, dot, t, a);
  }

  lemma LayoutMatch(line: string, p0: nat, dot: nat, t: nat, a: nat)
    requires TracerLayout(line, p0, dot, t, a)
    ensures MatchCall(line) == Some((line[t..a], line[a + 3..]))
  {
    LayoutTimestamp(line, p0, dot, t, a);
    LayoutNoLaterCall(line, p0, dot, t, a);
    LayoutOnlyArrow(line, p0, dot, t, a);
    var r := MatchCallBelow(line, |line|);
    assert r.Some? && r.value.0 == p0;
    assert r.value.1 == a - t;
  }

  /**
   * A function-tracer line `<prefix> <secs>.<frac>: <fun> <-<parent>`, with
   * a C identifier for `fun` and a word for `parent`, is read as a call of
   * `fun` from `parent`, whatever the prefix holds.
   */
  lemma TracerLine(prefix: string, secs: string, frac: string, fun: string, parent: string)
    requires secs != [] && AllDigits(secs) && frac != [] && AllDigits(frac)
    requires fun != [] && AllWordChars(fun) && !IsDigit(fun[0])
    requires parent != [] && AllWordChars(parent)
    ensures ClassifyLine(prefix + " " + secs + "." + frac + ": " + fun + " <-" + parent) == CallLine(fun, parent)
  {
    var line := prefix + " " + secs + "." + frac + ": " + fun + " <-" + parent;
    var p0 := |prefix|;
    var dot := p0 + 1 + |secs|;
    var t := dot + |frac| + 3;
    var a := t + |fun|;
    assert line == prefix + " " + secs + "." + frac + ": " + fun + " <-" + parent;
    assert line[t..a] == fun && line[a + 3..] == parent;
    assert TracerLayout(line, p0, dot, t, a) by {
      assert forall i :: p0 < i < dot ==> line[i] == secs[i - p0 - 1];
      assert forall i :: dot < i < t - 2 ==> line[i] == frac[i - dot - 1];
      assert forall i :: t <= i < a ==> line[i] == fun[i - t];
      assert forall i :: a + 3 <= i < |line| ==> line[i] == parent[i - a - 3];
    }
    LayoutCall(line, p0, dot, t, a);
  }

  // ---------------------------------------------------------------------------
  // The call histogram, as values

  /** What a `TracedFunction` holds: its call count and the calls per calling function. */
  datatype Tally = Tally(count: int, parents: seq<(string, int)>)

  function SumCounts(parents: seq<(string, int)>): int {
    if parents == [] then 0 else parents[0].1 + SumCounts(parents[1..])
  }

  /** The count is the sum of the per-parent counts. */
  predicate Balanced(t: Tally) {
    OM.DistinctKeys(t.parents) && t.count == SumCounts(t.parents)
  }

  /** A call of the function from `parent` added to its tally. */
  function Bump(t: Tally, parent: string): Tally {
    Tally(t.count + 1, OM.Set(t.parents, parent, OM.GetOr(t.parents, parent, 0) + 1))
  }

  /** A call of `fun` from `parent`: counted only when the histogram lists `fun`. */
  function RecordCall(h: seq<(string, Tally)>, fun: string, parent: string): seq<(string, Tally)> {
    match OM.Find(h, fun)
    case Some(k) => h[k := (fun, Bump(h[k].1, parent))]
    case None => h
  }

  /** `parseFtraceLine` on the histogram. */
  function RecordLine(h: seq<(string, Tally)>, line: string): seq<(string, Tally)> {
    match ClassifyLine(line)
    case CallLine(fun, parent) => RecordCall(h, fun, parent)
    case _ => h
  }

  /** The histogram after a sequence of lines. */
  function RecordLines(h: seq<(string, Tally)>, lines: seq<string>): seq<(string, Tally)>
    decreases |lines|
  {
    if lines == [] then h else RecordLines(RecordLine(h, lines[0]), lines[1..])
  }

  lemma {:induction false} SumCountsAppend(m: seq<(string, int)>, e: (string, int))
    ensures SumCounts(m + [e]) == SumCounts(m) + e.1
  {
    if m != [] {
      assert (m + [e])[1..] == m[1..] + [e];
      SumCountsAppend(m[1..], e);
    } else {
      assert [e][1..] == [];
    }
  }

  lemma {:induction false} SumCountsUpdate(m: seq<(string, int)>, i: nat, e: (string, int))
    requires i < |m|
    ensures SumCounts(m[i := e]) == SumCounts(m) - m[i].1 + e.1
  {
    if i > 0 {
      assert m[i := e][1..] == m[1..][i - 1 := e];
      SumCountsUpdate(m[1..], i - 1, e);
    }
  }

  /** Setting one parent's count changes the sum by the difference. */
  lemma SumCountsSet(m: seq<(string, int)>, k: string, v: int)
    requires OM.DistinctKeys(m)
    ensures SumCounts(OM.Set(m, k, v)) == SumCounts(m) - OM.GetOr(m, k, 0) + v
  {
    match OM.Find(m, k)
    case None => SumCountsAppend(m, (k, v));
    case Some(i) => SumCountsUpdate(m, i, (k, v));
  }

  /** A call adds one to the count and one to the caller's count, so the balance is kept. */
  lemma BumpBalanced(t: Tally, parent: string)
    requires Balanced(t)
    ensures Balanced(Bump(t, parent))
    ensures Bump(t, parent).count == t.count + 1
  {
    SumCountsSet(t.parents, parent, OM.GetOr(t.parents, parent, 0) + 1);
    OM.SetDistinct(t.parents, parent, OM.GetOr(t.parents, parent, 0) + 1);
  }

  /** A call adds one to the caller's count (from 0 for a new caller) and leaves the other callers' counts. */
  lemma BumpParents(t: Tally, parent: string)
    ensures OM.Get(Bump(t, parent).parents, parent) == Some(OM.GetOr(t.parents, parent, 0) + 1)
    ensures forall p :: p != parent ==> OM.Get(Bump(t, parent).parents, p) == OM.Get(t.parents, p)
  {
    OM.SetGet(t.parents, parent, OM.GetOr(t.parents, parent, 0) + 1);
    forall p | p != parent ensures OM.Get(Bump(t, parent).parents, p) == OM.Get(t.parents, p) {
      OM.SetOther(t.parents, parent, OM.GetOr(t.parents, parent, 0) + 1, p);
    }
  }

  predicate AllBalanced(h: seq<(string, Tally)>) {
    forall i :: 0 <= i < |h| ==> Balanced(h[i].1)
  }

  /**
   * A call changes at most the tally of the called function, by one call
   * from its caller; the listed names and their order never change.
   */
  lemma RecordCallEffect(h: seq<(string, Tally)>, fun: string, parent: string)
    ensures OM.Keys(RecordCall(h, fun, parent)) == OM.Keys(h)
    ensures AllBalanced(h) ==> AllBalanced(RecordCall(h, fun, parent))
    ensures forall g :: g != fun ==> OM.Get(RecordCall(h, fun, parent), g) == OM.Get(h, g)
    ensures OM.Get(h, fun).None? ==> RecordCall(h, fun, parent) == h
    ensures OM.Get(h, fun).Some? ==> OM.Get(RecordCall(h, fun, parent), fun) == Some(Bump(OM.Get(h, fun).value, parent))
  {
    if AllBalanced(h) {
      RecordCallBalanced(h, fun, parent);
    }
    match OM.Find(h, fun)
    case Some(k) =>
      assert RecordCall(h, fun, parent) == h[k := (fun, Bump(h[k].1, parent))];
      OM.UpdateValue(h, k, Bump(h[k].1, parent));
    case None =>
  }

  lemma RecordCallBalanced(h: seq<(string, Tally)>, fun: string, parent: string)
    requires AllBalanced(h)
    ensures AllBalanced(RecordCall(h, fun, parent))
  {
    match OM.Find(h, fun)
    case Some(k) =>
      var r := h[k := (fun, Bump(h[k].1, parent))];
      assert RecordCall(h, fun, parent) == r;
      BumpBalanced(h[k].1, parent);
      forall i | 0 <= i < |r|
        ensures Balanced(r[i].1)
      {
        if i != k {
          assert r[i] == h[i];
        }
      }
    case None =>
  }

  /** Lines other than call lines leave the histogram as it is. */
  lemma RecordLineEffect(h: seq<(string, Tally)>, line: string)
    ensures OM.Keys(RecordLine(h, line)) == OM.Keys(h)
    ensures AllBalanced(h) ==> AllBalanced(RecordLine(h, line))
    ensures !ClassifyLine(line).CallLine? ==> RecordLine(h, line) == h
  {
    if ClassifyLine(line).CallLine? {
      RecordCallEffect(h, ClassifyLine(line).fun, ClassifyLine(line).parent);
    }
  }

  /** Balance holds for every tally after any sequence of lines. */
  lemma {:induction false} RecordLinesBalanced(h: seq<(string, Tally)>, lines: seq<string>)
    requires AllBalanced(h)
    ensures AllBalanced(RecordLines(h, lines))
    ensures OM.Keys(RecordLines(h, lines)) == OM.Keys(h)
    decreases |lines|
  {
    if lines != [] {
      RecordLineEffect(h, lines[0]);
      RecordLinesBalanced(RecordLine(h, lines[0]), lines[1..]);
    }
  }

  /** Empty lines (such as the one a CR LF split across chunks leaves) change nothing. */
  lemma EmptyLineIgnored(h: seq<(string, Tally)>)
    ensures ClassifyLine("") == OtherLine
    ensures RecordLine(h, "") == h
  {
  }

  // ---------------------------------------------------------------------------
  // The function list sent to the device

  /** Each name followed by a newline, in iteration order. */
  function FunctionList(funcs: seq<string>): string {
    if funcs == [] then "" else FunctionList(funcs[..|funcs| - 1]) + funcs[|funcs| - 1] + "\n"
  }

  /** The device-side `while read fun` sees exactly the names, then an empty remainder. */
  lemma {:induction false} FunctionListLines(funcs: seq<string>)
    requires forall i :: 0 <= i < |funcs| ==> '\n' !in funcs[i]
    ensures Split(FunctionList(funcs), '\n') == funcs + [""]
    decreases |funcs|
  {
    if funcs != [] {
      FunctionListFront(funcs);
      FunctionListLines(funcs[1..]);
      SplitPrefix(funcs[0], FunctionList(funcs[1..]), '\n');
      assert FunctionList(funcs) == funcs[0] + ['\n'] + FunctionList(funcs[1..]);
      assert [funcs[0]] + (funcs[1..] + [""]) == funcs + [""];
    }
  }

  lemma {:induction false} FunctionListFront(funcs: seq<string>)
    requires funcs != []
    ensures FunctionList(funcs) == funcs[0] + "\n" + FunctionList(funcs[1..])
    decreases |funcs|
  {
    if |funcs| > 1 {
      var init := funcs[..|funcs| - 1];
      FunctionListFront(init);
      assert init[1..] == funcs[1..][..|funcs[1..]| - 1];
      assert init[0] == funcs[0];
    } else {
      assert funcs[..0] == [] && funcs[1..] == [];
    }
  }

  /** The script that stores the list on the device (`cat > /tmp/functions_to_trace << EOF`). */
  function TraceScript(funcs: seq<string>): string {
    "echo function > /sys/kernel/tracing/current_tracer;"
    + "cat > /tmp/functions_to_trace << EOF\n" + FunctionList(funcs) + "EOF"
  }

  // ---------------------------------------------------------------------------
  // The objects

  class TracedFunction {
    const funName: string
    var count: int
    var parents: seq<(string, int)>

    constructor (funName: string)
      ensures this.funName == funName && count == 0 && parents == []
    {
      this.funName := funName;
      count := 0;
      parents := [];
    }

    /** The constructor with its optional `count` given. */
    constructor WithCount(funName: string, count: int)
      ensures this.funName == funName && this.count == count && parents == []
    {
      this.funName := funName;
      this.count := count;
      parents := [];
    }

    ghost function Snapshot(): Tally
      reads this
    {
      Tally(count, parents)
    }

    /** One call from `parent`: `count++` and `parents[parent]` up by one, starting from 0. */
    method CalledFrom(parent: string)
      modifies this
      ensures Snapshot() == Bump(old(Snapshot()), parent)
    {
      ghost var before := Snapshot();
      var parentsCount := OM.GetOr(parents, parent, 0);
      var updated := OM.Set(parents, parent, parentsCount + 1);
      assert Tally(count + 1, updated) == Bump(before, parent);
      count, parents := count + 1, updated;
    }
  }

  /** What the listener reports for a line (the callbacks and the log). */
  datatype Notice = FunctionTraced(fun: string) | LostEventsWarning(lost: string) | UnknownTrace(line: string) | NoNotice

  /** The report for `line`, given the histogram before it. */
  function NoticeFor(h: seq<(string, Tally)>, line: string): (n: Notice)
    ensures n.FunctionTraced? <==> ClassifyLine(line).CallLine? && OM.Has(h, ClassifyLine(line).fun)
    ensures n.LostEventsWarning? <==> ClassifyLine(line).LostLine?
    ensures n.UnknownTrace? <==> ClassifyLine(line).OtherLine? && line != ""
    ensures n.FunctionTraced? ==> n.fun == ClassifyLine(line).fun
    ensures n.LostEventsWarning? ==> n.lost == ClassifyLine(line).lost
  {
    match ClassifyLine(line)
    case CallLine(fun, _) => if OM.Find(h, fun).Some? then FunctionTraced(fun) else NoNotice
    case LostLine(n) => LostEventsWarning(n)
    case OtherLine => if line != "" then UnknownTrace(line) else NoNotice
  }

  class Ftrace {
    var histogram: seq<(string, TracedFunction)>
    var avaiableTraces: seq<(string, seq<TracedFunction>)>
    /** The paths `traceFunctions` has been called for. */
    ghost var requestedPaths: set<string>
    /** How many times `onUpdated` has fired. */
    ghost var updates: nat

    ghost function Traced(): set<TracedFunction>
      reads this
    {
      TracedIn(histogram)
    }

    ghost function Listed(): set<TracedFunction>
      reads this
    {
      ListedIn(avaiableTraces)
    }

    ghost predicate Valid()
      reads this, Traced(), Listed()
    {
      OM.DistinctKeys(histogram)
      && OM.DistinctKeys(avaiableTraces)
      && (forall p :: OM.Has(avaiableTraces, p) <==> p in requestedPaths)
      && Injective(histogram)
      && NamesMatch(histogram)
      && (forall t :: t in Traced() ==> Balanced(t.Snapshot()))
      && (forall t :: t in Listed() ==> Balanced(t.Snapshot()))
    }

    /** The histogram as values. */
    ghost function Tallies(): (r: seq<(string, Tally)>)
      reads this, Traced()
      ensures |r| == |histogram|
      ensures forall i :: 0 <= i < |histogram| ==> r[i] == (histogram[i].0, histogram[i].1.Snapshot())
    {
      seq(|histogram|, i reads this, Traced() requires 0 <= i < |histogram| => (histogram[i].0, histogram[i].1.Snapshot()))
    }

    constructor ()
      ensures Valid() && histogram == [] && avaiableTraces == [] && requestedPaths == {}
    {
      histogram := [];
      avaiableTraces := [];
      requestedPaths := {};
      updates := 0;
    }

    predicate IsTracing(path: string)
      reads this
    {
      OM.Has(avaiableTraces, path)
    }

    /** `isTracing(path)` holds exactly for the paths `traceFunctions` was called for. */
    lemma IsTracingRequested(path: string)
      requires Valid()
      ensures IsTracing(path) <==> path in requestedPaths
    {
    }

    /**
     * `traceFunctions`: the path's list is reset to empty and the script
     * that stores the function list on the device is built.
     */
    method TraceFunctions(funcs: seq<string>, path: string) returns (script: string)
      requires Valid()
      modifies this
      ensures Valid()
      ensures avaiableTraces == OM.Set(old(avaiableTraces), path, [])
      ensures histogram == old(histogram) && requestedPaths == old(requestedPaths) + {path}
      ensures script == TraceScript(funcs)
    {
      var funcsList := "";
      avaiableTraces := OM.Set(avaiableTraces, path, []);
      requestedPaths := requestedPaths + {path};
      ListsValid(old(avaiableTraces), path, [], old(requestedPaths));
      ListedAfterSet(old(avaiableTraces), path, []);
      var i := 0;
      while i < |funcs|
        invariant 0 <= i <= |funcs|
        invariant funcsList == FunctionList(funcs[..i])
      {
        assert funcs[..i + 1][..i] == funcs[..i];
        funcsList := funcsList + funcs[i] + "\n";
        i := i + 1;
      }
      assert funcs[..i] == funcs;
      script := "echo function > /sys/kernel/tracing/current_tracer;"
        + "cat > /tmp/functions_to_trace << EOF\n" + funcsList + "EOF";
    }

    /**
     * The progress handler of `traceFunctions` for one output line of the
     * device-side loop: a line starting with 'O' (the loop prints
     * `O:name`) registers a fresh, uncalled `TracedFunction` named by the
     * line from index 2 on, in the histogram and in the path's list; a line
     * starting with any other character (the loop prints `N:name`) changes
     * nothing. Returns what `onProgress` receives.
     */
    method OnTraceProgress(path: string, line: string) returns (fun: string, isOk: bool)
      requires Valid()
      modifies this
      ensures Valid()
      ensures isOk == (|line| > 0 && line[0] == 'O')
      ensures fun == Substring(line, 2, |line|)
      ensures requestedPaths == old(requestedPaths)
      ensures !isOk ==> histogram == old(histogram) && avaiableTraces == old(avaiableTraces)
      ensures forall k :: OM.Has(histogram, k) <==> OM.Has(old(histogram), k) || (isOk && k == fun)
      ensures isOk ==> exists t: TracedFunction ::
        fresh(t) && t.funName == fun && t.Snapshot() == Tally(0, [])
        && histogram == OM.Set(old(histogram), fun, t)
        && avaiableTraces == (if OM.Has(old(avaiableTraces), path)
                              then OM.Set(old(avaiableTraces), path, OM.Get(old(avaiableTraces), path).value + [t])
                              else old(avaiableTraces))
    {
      isOk := |line| > 0 && line[0] == 'O';
      fun := Substring(line, 2, |line|);
      if isOk {
        var trace := new TracedFunction(fun);
        Register(path, trace);
        forall k
          ensures OM.Has(histogram, k) <==> OM.Has(old(histogram), k) || k == fun
        {
          OM.SetHas(old(histogram), fun, trace, k);
        }
      }
    }

    /** `traces?.push(trace)` and `histogram.set(trace.funName, trace)` for a new object. */
    method Register(path: string, trace: TracedFunction)
      requires Valid() && trace !in Traced() && trace !in Listed() && trace.Snapshot() == Tally(0, [])
      modifies this
      ensures Valid()
      ensures requestedPaths == old(requestedPaths)
      ensures histogram == OM.Set(old(histogram), trace.funName, trace)
      ensures avaiableTraces == (if OM.Has(old(avaiableTraces), path)
                                 then OM.Set(old(avaiableTraces), path, OM.Get(old(avaiableTraces), path).value + [trace])
                                 else old(avaiableTraces))
    {
      AddToList(path, trace);
      TracedAfterSet(histogram, trace.funName, trace);
      histogram := OM.Set(histogram, trace.funName, trace);
    }

    /** `this.avaiableTraces.get(path)?.push(trace)`. */
    method AddToList(path: string, trace: TracedFunction)
      requires Valid() && trace !in Traced() && trace.Snapshot() == Tally(0, [])
      modifies this
      ensures Valid() && trace !in Traced()
      ensures requestedPaths == old(requestedPaths) && histogram == old(histogram)
      ensures avaiableTraces == (if OM.Has(old(avaiableTraces), path)
                                 then OM.Set(old(avaiableTraces), path, OM.Get(old(avaiableTraces), path).value + [trace])
                                 else old(avaiableTraces))
    {
      match OM.Find(avaiableTraces, path) {
        case Some(k) =>
          var traces := avaiableTraces[k].1 + [trace];
          assert OM.Get(avaiableTraces, path) == Some(avaiableTraces[k].1);
          var updated := OM.Set(avaiableTraces, path, traces);
          assert updated == avaiableTraces[k := (path, traces)];
          ListedAfterSet(avaiableTraces, path, traces);
          ListsValid(avaiableTraces, path, traces, requestedPaths);
          assert requestedPaths + {path} == requestedPaths;
          avaiableTraces := updated;
          assert Listed() <= old(Listed()) + {trace};
        case None =>
      }
    }

    /** The histogram side of a call line: one call of `fun` from `parent`, if `fun` is listed. */
    method CountCall(fun: string, parent: string) returns (traced: bool)
      requires Valid()
      modifies Traced()
      ensures Valid()
      ensures Tallies() == RecordCall(old(Tallies()), fun, parent)
      ensures traced == OM.Has(old(Tallies()), fun)
    {
      ghost var before := Tallies();
      var found := OM.Find(histogram, fun);
      OM.FindSameKeys(histogram, before, fun);
      if found.Some? {
        var trace := histogram[found.value].1;
        BumpBalanced(trace.Snapshot(), parent);
        trace.CalledFrom(parent);
        assert Tallies() == before[found.value := (fun, Bump(before[found.value].1, parent))];
      }
      traced := found.Some?;
    }

    /**
     * `parseFtraceLine`: a call line for a function in the histogram adds
     * one call, from its caller, to that function's `TracedFunction`;
     * nothing else changes.
     */
    method ParseFtraceLine(line: string) returns (notice: Notice)
      requires Valid()
      modifies Traced()
      ensures Valid()
      ensures Tallies() == RecordLine(old(Tallies()), line)
      ensures notice == NoticeFor(old(Tallies()), line)
    {
      var c := ClassifyLine(line);
      if c.CallLine? {
        var traced := CountCall(c.fun, c.parent);
        notice := if traced then FunctionTraced(c.fun) else NoNotice;
      } else if c.LostLine? {
        notice := LostEventsWarning(c.lost);
      } else {
        notice := if line != "" then UnknownTrace(line) else NoNotice;
      }
    }

    /**
     * The listener's `data` handler: the chunk's lines are parsed in order
     * and `onUpdated` fires once after them.
     */
    method OnTracePipeData(framer: LineFramer, data: seq<byte>) returns (notices: seq<Notice>)
      requires Valid() && framer.Valid()
      modifies this, framer, framer.buffer, Traced()
      ensures Valid() && framer.Valid()
      ensures histogram == old(histogram) && avaiableTraces == old(avaiableTraces)
      ensures requestedPaths == old(requestedPaths)
      ensures framer.pending == PipeFrames(old(framer.pending), data).1
      ensures Tallies() == RecordLines(old(Tallies()), PipeFrames(old(framer.pending), data).0)
      ensures notices == NoticesFor(old(Tallies()), PipeFrames(old(framer.pending), data).0)
      ensures updates == old(updates) + 1
    {
      var lines := framer.FeedTracePipe(data);
      notices := ParseLines(lines);
      updates := updates + 1;
    }

    /** `parseFtraceLine` on each line in turn. */
    method ParseLines(lines: seq<string>) returns (notices: seq<Notice>)
      requires Valid()
      modifies Traced()
      ensures Valid()
      ensures Tallies() == RecordLines(old(Tallies()), lines)
      ensures notices == NoticesFor(old(Tallies()), lines)
    {
      notices := [];
      var i := 0;
      while i < |lines|
        invariant 0 <= i <= |lines|
        invariant Valid()
        invariant RecordLines(Tallies(), lines[i..]) == RecordLines(old(Tallies()), lines)
        invariant notices + NoticesFor(Tallies(), lines[i..]) == NoticesFor(old(Tallies()), lines)
      {
        ghost var h := Tallies();
        LinesCons(h, lines, i);
        var notice := ParseFtraceLine(lines[i]);
        assert notices + [notice] + NoticesFor(Tallies(), lines[i + 1..]) == notices + ([notice] + NoticesFor(Tallies(), lines[i + 1..]));
        notices := notices + [notice];
        i := i + 1;
      }
      assert lines[i..] == [];
      assert notices + [] == notices;
    }

    /**
     * The command runner's `data` handler while the device registers the
     * functions: each framed line goes to the progress handler, in order.
     * Returns the `onProgress` arguments.
     */
    method OnProgressOutput(framer: LineFramer, path: string, data: seq<byte>) returns (reports: seq<(string, bool)>)
      requires Valid() && framer.Valid()
      modifies this, framer, framer.buffer
      ensures Valid() && framer.Valid()
      ensures requestedPaths == old(requestedPaths)
      ensures framer.pending == CommandFrames(old(framer.pending), data).1
      ensures reports == ProgressReports(CommandFrames(old(framer.pending), data).0)
      ensures forall k :: OM.Has(histogram, k) <==> OM.Has(old(histogram), k) || Registered(reports, k)
    {
      var lines := framer.FeedCommandOutput(data, true);
      reports := [];
      var i := 0;
      while i < |lines|
        invariant 0 <= i <= |lines|
        invariant Valid() && framer.Valid()
        invariant framer.pending == CommandFrames(old(framer.pending), data).1
        invariant requestedPaths == old(requestedPaths)
        invariant reports == ProgressReports(lines[..i])
        invariant forall k :: OM.Has(histogram, k) <==> OM.Has(old(histogram), k) || Registered(reports, k)
      {
        assert lines[..i + 1][..i] == lines[..i];
        var fun, isOk := OnTraceProgress(path, lines[i]);
        RegisteredSnoc(reports, fun, isOk);
        reports := reports + [(fun, isOk)];
        i := i + 1;
      }
      assert lines[..i] == lines;
    }
  }

  /** Notices for a sequence of lines, each against the histogram the earlier ones left. */
  function NoticesFor(h: seq<(string, Tally)>, lines: seq<string>): (ns: seq<Notice>)
    ensures |ns| == |lines|
    decreases |lines|
  {
    if lines == [] then [] else [NoticeFor(h, lines[0])] + NoticesFor(RecordLine(h, lines[0]), lines[1..])
  }

  /** Both folds over `lines[i..]`, split after their first line. */
  lemma LinesCons(h: seq<(string, Tally)>, lines: seq<string>, i: nat)
    requires i < |lines|
    ensures RecordLines(h, lines[i..]) == RecordLines(RecordLine(h, lines[i]), lines[i + 1..])
    ensures NoticesFor(h, lines[i..]) == [NoticeFor(h, lines[i])] + NoticesFor(RecordLine(h, lines[i]), lines[i + 1..])
  {
    assert lines[i..][1..] == lines[i + 1..];
  }

  /** Some report registered `k`. */
  predicate Registered(reports: seq<(string, bool)>, k: string) {
    exists i :: 0 <= i < |reports| && reports[i].1 && reports[i].0 == k
  }

  lemma RegisteredSnoc(reports: seq<(string, bool)>, fun: string, isOk: bool)
    ensures forall k :: Registered(reports + [(fun, isOk)], k) <==> Registered(reports, k) || (isOk && k == fun)
  {
    forall k | Registered(reports + [(fun, isOk)], k)
      ensures Registered(reports, k) || (isOk && k == fun)
    {
      var i :| 0 <= i < |reports| + 1 && (reports + [(fun, isOk)])[i].1 && (reports + [(fun, isOk)])[i].0 == k;
      if i < |reports| { assert reports[i] == (reports + [(fun, isOk)])[i]; }
    }
    forall k | Registered(reports, k)
      ensures Registered(reports + [(fun, isOk)], k)
    {
      var i :| 0 <= i < |reports| && reports[i].1 && reports[i].0 == k;
      assert (reports + [(fun, isOk)])[i] == reports[i];
    }
    if isOk { assert (reports + [(fun, isOk)])[|reports|] == (fun, isOk); }
  }

  /** What `onProgress` receives for a line of the registration loop's output. */
  function ProgressReport(line: string): (string, bool) {
    (Substring(line, 2, |line|), |line| > 0 && line[0] == 'O')
  }

  function ProgressReports(lines: seq<string>): (rs: seq<(string, bool)>)
    ensures |rs| == |lines|
    ensures forall i :: 0 <= i < |lines| ==> rs[i] == ProgressReport(lines[i])
  {
    if lines == [] then [] else ProgressReports(lines[..|lines| - 1]) + [ProgressReport(lines[|lines| - 1])]
  }

  /** The objects a histogram refers to. */
  ghost function TracedIn(h: seq<(string, TracedFunction)>): set<TracedFunction> {
    set i | 0 <= i < |h| :: h[i].1
  }

  /** The objects the per-path lists refer to. */
  ghost function ListedIn(m: seq<(string, seq<TracedFunction>)>): set<TracedFunction> {
    set i, j | 0 <= i < |m| && 0 <= j < |m[i].1| :: m[i].1[j]
  }

  /** Each name has its own object. */
  predicate Injective(h: seq<(string, TracedFunction)>) {
    forall i, j :: 0 <= i < j < |h| ==> h[i].1 != h[j].1
  }

  /** Each object sits under its own name. */
  predicate NamesMatch(h: seq<(string, TracedFunction)>) {
    forall i :: 0 <= i < |h| ==> h[i].1.funName == h[i].0
  }

  /** `histogram.set(k, t)` with an object not yet in the histogram. */
  lemma TracedAfterSet(h: seq<(string, TracedFunction)>, k: string, t: TracedFunction)
    requires t !in TracedIn(h) && t.funName == k
    ensures TracedIn(OM.Set(h, k, t)) <= TracedIn(h) + {t}
    ensures Injective(h) ==> Injective(OM.Set(h, k, t))
    ensures NamesMatch(h) ==> NamesMatch(OM.Set(h, k, t))
  {
    var r := OM.Set(h, k, t);
    match OM.Find(h, k)
    case None =>
      assert forall i :: 0 <= i < |h| ==> r[i] == h[i];
    case Some(x) =>
      assert forall i :: 0 <= i < |h| && i != x ==> r[i] == h[i];
  }

  /** Setting a path keeps the per-path lists keyed by exactly the requested paths, that one included. */
  lemma ListsValid(m: seq<(string, seq<TracedFunction>)>, k: string, v: seq<TracedFunction>, requested: set<string>)
    requires OM.DistinctKeys(m) && (forall p :: OM.Has(m, p) <==> p in requested)
    ensures OM.DistinctKeys(OM.Set(m, k, v))
    ensures forall p :: OM.Has(OM.Set(m, k, v), p) <==> p in requested + {k}
  {
    OM.SetDistinct(m, k, v);
    forall p ensures OM.Has(OM.Set(m, k, v), p) <==> p in requested + {k} {
      OM.SetHas(m, k, v, p);
    }
  }

  /** `avaiableTraces.set(k, v)` only drops objects or adds those of `v`. */
  lemma ListedAfterSet(m: seq<(string, seq<TracedFunction>)>, k: string, v: seq<TracedFunction>)
    ensures ListedIn(OM.Set(m, k, v)) <= ListedIn(m) + (set x | x in v)
  {
    var r := OM.Set(m, k, v);
    match OM.Find(m, k)
    case None =>
      assert forall i :: 0 <= i < |m| ==> r[i] == m[i];
    case Some(x) =>
      assert forall i :: 0 <= i < |m| && i != x ==> r[i] == m[i];
  }
}
