/**
 * The C function-list extractor: a character scanner that collapses
 * comments, preprocessor directives and brace bodies of a source file to
 * their newlines, and a search for function definitions with empty
 * bodies in the collapsed text that maps line numbers to function names.
 */
module Parser {
  import opened Text
  import OM = OrderedMap

  // ---------------------------------------------------------------------------
  // Collapsing

  /** `k` newline characters. */
  function Newlines(k: nat): (s: string)
    ensures |s| == k && forall i :: 0 <= i < k ==> s[i] == '\n'
  {
    seq(k, _ => '\n')
  }

  lemma {:induction false} NewlinesCount(k: nat)
    ensures Count(Newlines(k), '\n') == k
  {
    if k > 0 {
      assert Newlines(k)[1..] == Newlines(k - 1);
      NewlinesCount(k - 1);
    }
  }

  lemma CountSnoc(s: string, c: char)
    ensures Count(s + [c], '\n') == Count(s, '\n') + (if c == '\n' then 1 else 0)
  {
    CountAppend(s, [c], '\n');
    assert [c][1..] == [];
  }

  /** Where the `//` loop stops: the next newline, or the end of the text. */
  function LineEnd(b: string, i: nat): (j: nat)
    requires i <= |b|
    ensures i <= j <= |b|
    ensures j < |b| ==> b[j] == '\n'
    ensures forall k :: i <= k < j ==> b[k] != '\n'
    decreases |b| - i
  {
    if i == |b| || b[i] == '\n' then i else LineEnd(b, i + 1)
  }

  /** `buffer[i-1] == '*' && buffer[i] == '/'` (false at index 0, where `buffer[-1]` is undefined). */
  predicate CommentClosesAt(b: string, j: nat) {
    1 <= j < |b| && b[j - 1] == '*' && b[j] == '/'
  }

  /** Where the block-comment loop stops: at a closing `/` or at the last character. */
  function CommentEnd(b: string, i: nat): (j: nat)
    requires i < |b|
    ensures i <= j < |b|
    ensures j < |b| - 1 ==> CommentClosesAt(b, j)
    ensures forall k :: i <= k < j ==> !CommentClosesAt(b, k)
    decreases |b| - i
  {
    if i >= |b| - 1 || CommentClosesAt(b, i) then i else CommentEnd(b, i + 1)
  }

  /** `buffer[i-1] != '\\' && buffer[i] == '\n'`: a newline that no backslash continues. */
  predicate DirectiveEndsAt(b: string, j: nat) {
    j < |b| && b[j] == '\n' && (j == 0 || b[j - 1] != '\\')
  }

  /** Where the directive loop stops: at an unescaped newline or at the last character. */
  function DirectiveEnd(b: string, i: nat): (j: nat)
    requires i < |b|
    ensures i <= j < |b|
    ensures j < |b| - 1 ==> DirectiveEndsAt(b, j)
    ensures forall k :: i <= k < j ==> !DirectiveEndsAt(b, k)
    decreases |b| - i
  {
    if i >= |b| - 1 || DirectiveEndsAt(b, i) then i else DirectiveEnd(b, i + 1)
  }

  /** Nesting depth after the character `ch` when it was `depth` before. */
  function Depth(depth: int, ch: char): int {
    depth + (if ch == '{' then 1 else 0) - (if ch == '}' then 1 else 0)
  }

  /**
   * Where the brace loop stops: at the `}` that brings the depth back to 0,
   * or at the last character (which it does not examine).
   */
  function BlockEnd(b: string, i: nat, depth: int): (j: nat)
    requires i < |b|
    ensures i <= j < |b|
    ensures j < |b| - 1 ==> b[j] == '}'
    decreases |b| - i
  {
    if i >= |b| - 1 then i
    else if b[i] == '}' && Depth(depth, b[i]) == 0 then i
    else BlockEnd(b, i + 1, Depth(depth, b[i]))
  }

  /** What one iteration of the outer loop adds, where it resumes, and whether `prevChar` is a newline. */
  datatype Step = Step(out: string, next: nat, prevNewline: bool)

  /** One iteration of the outer loop, started at `i`. */
  function StepAt(b: string, i: nat, prevNewline: bool): (st: Step)
    requires i < |b| - 1
    ensures st.next > i
  {
    if b[i] == '/' && b[i + 1] == '/' then LineCommentStep(b, i)
    else if b[i] == '/' && b[i + 1] == '*' then BlockCommentStep(b, i)
    else if b[i] == '#' && prevNewline then DirectiveStep(b, i)
    else if b[i] == '{' then BlockStep(b, i)
    else CopyStep(b, i)
  }

  /** A `//` comment becomes one newline. */
  function LineCommentStep(b: string, i: nat): (st: Step)
    requires i < |b|
    ensures st.next > i
  {
    var j := LineEnd(b, i);
    Step("\n", j + 1, j < |b|)
  }

  /** A block comment becomes its newlines. */
  function BlockCommentStep(b: string, i: nat): (st: Step)
    requires i < |b|
    ensures st.next > i
  {
    var j := CommentEnd(b, i);
    Step(Newlines(Count(b[i..j], '\n')), j + 1, b[j] == '\n')
  }

  /** A directive (with its continuation lines) becomes its newlines. */
  function DirectiveStep(b: string, i: nat): (st: Step)
    requires i < |b|
    ensures st.next > i
  {
    var j := DirectiveEnd(b, i);
    Step(Newlines(Count(b[i..j], '\n')) + "\n", j + 1, b[j] == '\n')
  }

  /** A brace block becomes `{`, its newlines, `}`. */
  function BlockStep(b: string, i: nat): (st: Step)
    requires i < |b|
    ensures st.next > i
  {
    var j := BlockEnd(b, i, 0);
    Step("{" + Newlines(Count(b[i..j], '\n')) + "}", j + 1, b[j] == '\n')
  }

  /** Any other character is copied. */
  function CopyStep(b: string, i: nat): (st: Step)
    requires i < |b|
    ensures st.next > i
  {
    Step([b[i]], i + 1, b[i] == '\n')
  }

  /** The collapsed text produced from index `i` on. */
  function CollapseFrom(b: string, i: nat, prevNewline: bool): string
    decreases |b| - i
  {
    if i >= |b| - 1 then ""
    else
      var st := StepAt(b, i, prevNewline);
      st.out + CollapseFrom(b, st.next, st.prevNewline)
  }

  /** The collapsed text of a whole file; `prevChar` starts as a newline. */
  function Collapse(b: string): string {
    CollapseFrom(b, 0, true)
  }

  /**
   * A step that ends inside the text gives out exactly as many newlines as
   * it consumed, so the collapsed text keeps the file's line numbers.
   */
  lemma StepKeepsNewlines(b: string, i: nat, prevNewline: bool)
    requires i < |b| - 1
    requires StepAt(b, i, prevNewline).next < |b|
    ensures Count(StepAt(b, i, prevNewline).out, '\n') == Count(b[i..StepAt(b, i, prevNewline).next], '\n')
  {
    if b[i] == '/' && b[i + 1] == '/' {
      LineNewlines(b, i);
    } else if b[i] == '/' && b[i + 1] == '*' {
      CommentNewlines(b, i);
    } else if b[i] == '#' && prevNewline {
      DirectiveNewlines(b, i);
    } else if b[i] == '{' {
      BlockNewlines(b, i);
    } else {
      ConsumedLast(b, i, i);
      CountSnoc("", b[i]);
    }
  }

  lemma CommentNewlines(b: string, i: nat)
    requires i < |b| && BlockCommentStep(b, i).next < |b|
    ensures Count(BlockCommentStep(b, i).out, '\n') == Count(b[i..BlockCommentStep(b, i).next], '\n')
  {
    var j := CommentEnd(b, i);
    var k := Count(b[i..j], '\n');
    ConsumedLast(b, i, j);
    assert Count(b[i..j + 1], '\n') == k;
    NewlinesCount(k);
    assert BlockCommentStep(b, i) == Step(Newlines(k), j + 1, b[j] == '\n');
  }

  lemma DirectiveNewlines(b: string, i: nat)
    requires i < |b| && DirectiveStep(b, i).next < |b|
    ensures Count(DirectiveStep(b, i).out, '\n') == Count(b[i..DirectiveStep(b, i).next], '\n')
  {
    var j := DirectiveEnd(b, i);
    var k := Count(b[i..j], '\n');
    ConsumedLast(b, i, j);
    assert Count(b[i..j + 1], '\n') == k + 1;
    NewlinesCount(k);
    CountSnoc(Newlines(k), '\n');
    assert DirectiveStep(b, i) == Step(Newlines(k) + "\n", j + 1, b[j] == '\n');
  }

  lemma BlockNewlines(b: string, i: nat)
    requires i < |b| && BlockStep(b, i).next < |b|
    ensures Count(BlockStep(b, i).out, '\n') == Count(b[i..BlockStep(b, i).next], '\n')
  {
    var j := BlockEnd(b, i, 0);
    var k := Count(b[i..j], '\n');
    assert b[j] == '}';
    ConsumedLast(b, i, j);
    assert Count(b[i..j + 1], '\n') == k;
    NewlinesCount(k);
    CountBraced(Newlines(k));
    assert BlockStep(b, i) == Step("{" + Newlines(k) + "}", j + 1, b[j] == '\n');
  }

  /** Braces around a text add no newline. */
  lemma CountBraced(s: string)
    ensures Count("{" + s + "}", '\n') == Count(s, '\n')
  {
    CountSnoc("{" + s, '}');
    assert ("{" + s)[1..] == s;
  }

  /** Counting one more character of the text. */
  lemma ConsumedLast(b: string, i: nat, j: nat)
    requires i <= j < |b|
    ensures Count(b[i..j + 1], '\n') == Count(b[i..j], '\n') + (if b[j] == '\n' then 1 else 0)
  {
    assert b[i..j + 1] == b[i..j] + [b[j]];
    CountSnoc(b[i..j], b[j]);
  }

  /** A `//` comment that ends at a newline holds exactly that one newline. */
  lemma LineNewlines(b: string, i: nat)
    requires i < |b| && LineCommentStep(b, i).next < |b|
    ensures Count(LineCommentStep(b, i).out, '\n') == Count(b[i..LineCommentStep(b, i).next], '\n')
  {
    var j := LineEnd(b, i);
    assert '\n' !in b[i..j];
    CountZero(b[i..j], '\n');
    ConsumedLast(b, i, j);
    CountSnoc("", '\n');
  }

  /**
   * The outer loop of `generateFunctionList`: returns the collapsed text and
   * the newline counter.
   */
  method CollapseSource(buffer: string) returns (content: string, lines: nat)
    ensures content == Collapse(buffer)
    ensures lines == Count(content, '\n')
  {
    content := "";
    var prevChar := '\n';
    lines := 0;
    var i := 0;
    while i < |buffer| - 1
      invariant lines == Count(content, '\n')
      invariant content + CollapseFrom(buffer, i, prevChar == '\n') == Collapse(buffer)
      decreases |buffer| - i
    {
      ghost var before := content;
      CollapseUnfold(buffer, i, prevChar == '\n');
      ghost var st := StepAt(buffer, i, prevChar == '\n');
      i, prevChar, content, lines := CollapseOne(buffer, i, prevChar, content, lines);
      Assoc(before, st.out, CollapseFrom(buffer, i, prevChar == '\n'));
    }
    assert content + "" == content;
  }

  /** One iteration of the outer loop, with its closing `i++`: it appends what `StepAt` gives out. */
  method CollapseOne(buffer: string, start: nat, prevChar0: char, content0: string, lines0: nat)
    returns (i: nat, prevChar: char, content: string, lines: nat)
    requires start < |buffer| - 1 && lines0 == Count(content0, '\n')
    ensures content == content0 + StepAt(buffer, start, prevChar0 == '\n').out
    ensures i == StepAt(buffer, start, prevChar0 == '\n').next
    ensures (prevChar == '\n') == StepAt(buffer, start, prevChar0 == '\n').prevNewline
    ensures lines == Count(content, '\n')
  {
    i, prevChar, content, lines := start, prevChar0, content0, lines0;
    var c := buffer[i];
    if c == '/' && buffer[i + 1] == '/' {
      i := SkipLine(buffer, i);
      prevChar := if i < |buffer| then buffer[i] else '\0';
      CountSnoc(content, '\n');
      content := content + "\n";
      lines := lines + 1;
    } else if c == '/' && buffer[i + 1] == '*' {
      i, content, lines := SkipComment(buffer, i, content, lines);
      prevChar := buffer[i];
    } else if c == '#' && prevChar == '\n' {
      i, content, lines := SkipDirective(buffer, i, content, lines);
      CountSnoc(content, '\n');
      content := content + "\n";
      lines := lines + 1;
      prevChar := buffer[i];
      Assoc(content0, Newlines(Count(buffer[start..i], '\n')), "\n");
    } else if c == '{' {
      CountSnoc(content, '{');
      content := content + [c];
      i, content, lines := SkipBlock(buffer, i, content, lines);
      CountSnoc(content, '}');
      Assoc3(content0, "{", Newlines(Count(buffer[start..i], '\n')), "}");
      content := content + "}";
      prevChar := buffer[i];
    } else {
      CountSnoc(content, c);
      content := content + [c];
      if c == '\n' {
        lines := lines + 1;
      }
      prevChar := buffer[i];
    }
    i := i + 1;
  }

  lemma CollapseUnfold(b: string, i: nat, prevNewline: bool)
    requires i < |b| - 1
    ensures CollapseFrom(b, i, prevNewline)
         == StepAt(b, i, prevNewline).out + CollapseFrom(b, StepAt(b, i, prevNewline).next, StepAt(b, i, prevNewline).prevNewline)
  {
  }

  /** `for (; i < buffer.length && buffer[i] != '\n'; i++);` */
  method SkipLine(b: string, start: nat) returns (i: nat)
    requires start <= |b|
    ensures i == LineEnd(b, start)
  {
    i := start;
    while i < |b| && b[i] != '\n'
      invariant start <= i <= |b|
      invariant LineEnd(b, i) == LineEnd(b, start)
      decreases |b| - i
    {
      i := i + 1;
    }
  }

  /** The block-comment loop: only the comment's newlines reach `content`. */
  method SkipComment(b: string, start: nat, content0: string, lines0: nat) returns (i: nat, content: string, lines: nat)
    requires start < |b| && lines0 == Count(content0, '\n')
    ensures i == CommentEnd(b, start)
    ensures content == content0 + Newlines(Count(b[start..i], '\n'))
    ensures lines == Count(content, '\n')
  {
    i, content, lines := start, content0, lines0;
    while i < |b| - 1 && !(i >= 1 && b[i - 1] == '*' && b[i] == '/')
      invariant start <= i < |b|
      invariant CommentEnd(b, i) == CommentEnd(b, start)
      invariant content == content0 + Newlines(Count(b[start..i], '\n'))
      invariant lines == Count(content, '\n')
      decreases |b| - i
    {
      NewlineStep(b, start, i, content0, content);
      if b[i] == '\n' {
        content := content + "\n";
        lines := lines + 1;
      }
      i := i + 1;
    }
  }

  /** The directive loop: only backslash-continued newlines reach `content`. */
  method SkipDirective(b: string, start: nat, content0: string, lines0: nat) returns (i: nat, content: string, lines: nat)
    requires start < |b| && lines0 == Count(content0, '\n')
    ensures i == DirectiveEnd(b, start)
    ensures content == content0 + Newlines(Count(b[start..i], '\n'))
    ensures lines == Count(content, '\n')
  {
    i, content, lines := start, content0, lines0;
    while i < |b| - 1 && !((i == 0 || b[i - 1] != '\\') && b[i] == '\n')
      invariant start <= i < |b|
      invariant DirectiveEnd(b, i) == DirectiveEnd(b, start)
      invariant content == content0 + Newlines(Count(b[start..i], '\n'))
      invariant lines == Count(content, '\n')
      decreases |b| - i
    {
      NewlineStep(b, start, i, content0, content);
      if b[i] == '\n' {
        content := content + "\n";
        lines := lines + 1;
      }
      i := i + 1;
    }
  }

  /** The brace loop: the body's newlines reach `content`; it stops at the matching `}`. */
  method SkipBlock(b: string, start: nat, content0: string, lines0: nat) returns (i: nat, content: string, lines: nat)
    requires start < |b| && lines0 == Count(content0, '\n')
    ensures i == BlockEnd(b, start, 0)
    ensures content == content0 + Newlines(Count(b[start..i], '\n'))
    ensures lines == Count(content, '\n')
  {
    i, content, lines := start, content0, lines0;
    var cnt := 0;
    while i < |b| - 1
      invariant start <= i < |b|
      invariant BlockEnd(b, i, cnt) == BlockEnd(b, start, 0)
      invariant content == content0 + Newlines(Count(b[start..i], '\n'))
      invariant lines == Count(content, '\n')
      decreases |b| - i
    {
      NewlineStep(b, start, i, content0, content);
      if b[i] == '\n' {
        content := content + "\n";
        lines := lines + 1;
      }
      if b[i] == '{' {
        cnt := cnt + 1;
      }
      if b[i] == '}' {
        cnt := cnt - 1;
        if cnt == 0 {
          assert b[start..i + 1] == b[start..i] + ['}'];
          CountSnoc(b[start..i], '}');
          break;
        }
      }
      i := i + 1;
    }
  }

  /** Bookkeeping for one character of an inner loop. */
  lemma NewlineStep(b: string, start: nat, i: nat, content0: string, content: string)
    requires start <= i < |b|
    requires content == content0 + Newlines(Count(b[start..i], '\n'))
    ensures content + (if b[i] == '\n' then "\n" else "") == content0 + Newlines(Count(b[start..i + 1], '\n'))
    ensures Count(content + (if b[i] == '\n' then "\n" else ""), '\n') == Count(content, '\n') + (if b[i] == '\n' then 1 else 0)
  {
    assert b[start..i + 1] == b[start..i] + [b[i]];
    CountSnoc(b[start..i], b[i]);
    CountSnoc(content, '\n');
    assert content + "" == content;
  }

  // ---------------------------------------------------------------------------
  // Properties of the collapsed text

  /** Where the outer loop stops. */
  function ScanEnd(b: string, i: nat, prevNewline: bool): (e: nat)
    ensures e >= i
    decreases |b| - i
  {
    if i >= |b| - 1 then i
    else
      var st := StepAt(b, i, prevNewline);
      ScanEnd(b, st.next, st.prevNewline)
  }

  lemma ScanEndUnfold(b: string, i: nat, prevNewline: bool)
    requires i < |b| - 1
    ensures ScanEnd(b, i, prevNewline)
         == ScanEnd(b, StepAt(b, i, prevNewline).next, StepAt(b, i, prevNewline).prevNewline)
  {
  }

  /**
   * When the scan ends exactly on the last character (as it does for a
   * file ending in, say, `}` and a newline), the collapsed text holds as
   * many newlines as the file before its last character.
   */
  lemma {:induction false} CollapseKeepsLines(b: string, i: nat, prevNewline: bool)
    requires ScanEnd(b, i, prevNewline) == |b| - 1
    ensures Count(CollapseFrom(b, i, prevNewline), '\n') == Count(b[i..|b| - 1], '\n')
    decreases |b| - i
  {
    if i < |b| - 1 {
      var st := StepAt(b, i, prevNewline);
      ScanEndUnfold(b, i, prevNewline);
      assert st.next <= ScanEnd(b, st.next, st.prevNewline);
      StepKeepsNewlines(b, i, prevNewline);
      CollapseKeepsLines(b, st.next, st.prevNewline);
      CollapseUnfold(b, i, prevNewline);
      CountSplit(b, i, st.next, |b| - 1);
      CountAppend(st.out, CollapseFrom(b, st.next, st.prevNewline), '\n');
    } else {
      assert i == |b| - 1;
    }
  }

  /** Counting a slice in two parts. */
  lemma CountSplit(b: string, i: nat, k: nat, j: nat)
    requires i <= k <= j <= |b|
    ensures Count(b[i..j], '\n') == Count(b[i..k], '\n') + Count(b[k..j], '\n')
  {
    assert b[i..j] == b[i..k] + b[k..j];
    CountAppend(b[i..k], b[k..j], '\n');
  }

  /** Text without `/`, `#` and `{` is copied verbatim, all but its last character. */
  lemma {:induction false} PlainTextCopied(b: string, i: nat, prevNewline: bool)
    requires i < |b|
    requires forall k :: i <= k < |b| ==> b[k] != '/' && b[k] != '#' && b[k] != '{'
    ensures CollapseFrom(b, i, prevNewline) == b[i..|b| - 1]
    decreases |b| - i
  {
    if i < |b| - 1 {
      PlainTextCopied(b, i + 1, b[i] == '\n');
      assert b[i..|b| - 1] == [b[i]] + b[i + 1..|b| - 1];
    }
  }

  /**
   * The last character is never copied: appending any character other
   * than `/` or `*` (which could open a comment with the one before it)
   * gives the same collapsed text.
   */
  lemma {:induction false} LastCharNotCopied(s: string, c: char, d: char, i: nat, prevNewline: bool)
    requires c != '/' && c != '*' && d != '/' && d != '*'
    requires i <= |s|
    ensures CollapseFrom(s + [c], i, prevNewline) == CollapseFrom(s + [d], i, prevNewline)
    decreases |s| - i
  {
    var b1, b2 := s + [c], s + [d];
    if i < |s| {
      assert b1[i] == b2[i] == s[i];
      assert (b1[i + 1] == '/') == (b2[i + 1] == '/') && (b1[i + 1] == '*') == (b2[i + 1] == '*');
      var st1, st2 := StepAt(b1, i, prevNewline), StepAt(b2, i, prevNewline);
      if b1[i] == '/' && b1[i + 1] == '/' {
        LineEndAgree(s, c, d, i);
      } else if b1[i] == '/' && b1[i + 1] == '*' {
        CommentEndAgree(s, c, d, i);
        SameSlice(s, c, d, i, CommentEnd(b1, i));
      } else if b1[i] == '#' && prevNewline {
        DirectiveEndAgree(s, c, d, i);
        SameSlice(s, c, d, i, DirectiveEnd(b1, i));
      } else if b1[i] == '{' {
        BlockEndAgree(s, c, d, i, 0);
        SameSlice(s, c, d, i, BlockEnd(b1, i, 0));
      }
      assert st1.out == st2.out;
      if st1.next < |s| {
        assert st1.next == st2.next && st1.prevNewline == st2.prevNewline;
        LastCharNotCopied(s, c, d, st1.next, st1.prevNewline);
      }
    }
  }

  lemma SameSlice(s: string, c: char, d: char, i: nat, j: nat)
    requires i <= j <= |s|
    ensures (s + [c])[i..j] == (s + [d])[i..j] == s[i..j]
  {
  }

  lemma {:induction false} LineEndAgree(s: string, c: char, d: char, i: nat)
    requires i <= |s|
    ensures LineEnd(s + [c], i) >= |s| <==> LineEnd(s + [d], i) >= |s|
    ensures LineEnd(s + [c], i) < |s| ==> LineEnd(s + [c], i) == LineEnd(s + [d], i)
    decreases |s| - i
  {
    if i < |s| && s[i] != '\n' {
      assert (s + [c])[i] == (s + [d])[i] == s[i];
      LineEndAgree(s, c, d, i + 1);
    }
  }

  lemma {:induction false} CommentEndAgree(s: string, c: char, d: char, i: nat)
    requires i <= |s|
    ensures CommentEnd(s + [c], i) == CommentEnd(s + [d], i)
    decreases |s| - i
  {
    if i < |s| {
      assert CommentClosesAt(s + [c], i) == CommentClosesAt(s + [d], i);
      CommentEndAgree(s, c, d, i + 1);
    }
  }

  lemma {:induction false} DirectiveEndAgree(s: string, c: char, d: char, i: nat)
    requires i <= |s|
    ensures DirectiveEnd(s + [c], i) == DirectiveEnd(s + [d], i)
    decreases |s| - i
  {
    if i < |s| {
      assert DirectiveEndsAt(s + [c], i) == DirectiveEndsAt(s + [d], i);
      DirectiveEndAgree(s, c, d, i + 1);
    }
  }

  lemma {:induction false} BlockEndAgree(s: string, c: char, d: char, i: nat, depth: int)
    requires i <= |s|
    ensures BlockEnd(s + [c], i, depth) == BlockEnd(s + [d], i, depth)
    decreases |s| - i
  {
    if i < |s| {
      assert (s + [c])[i] == (s + [d])[i] == s[i];
      BlockEndAgree(s, c, d, i + 1, Depth(depth, s[i]));
    }
  }

  // ---------------------------------------------------------------------------
  // Function definitions in the collapsed text

  /** The character classes the function regex uses. */
  datatype CharClass =
    | Word        // \w
    | Space       // \s
    | TypeGap     // [\s\\*]: between a return type and the name
    | Parameters  // [\w\s,\\*]: inside the parentheses

  predicate In(cls: CharClass, ch: char) {
    match cls
      case Word => IsWordChar(ch)
      case Space => IsSpace(ch)
      case TypeGap => IsSpace(ch) || ch == '\\' || ch == '*'
      case Parameters => IsWordChar(ch) || IsSpace(ch) || ch == ',' || ch == '\\' || ch == '*'
  }

  /** All of `c[i..j]` is in `cls`. */
  predicate AllIn(c: string, i: int, j: int, cls: CharClass)
    requires 0 <= i && j <= |c|
  {
    forall k :: i <= k < j ==> In(cls, c[k])
  }

  /** The end of the greedy run of `cls` characters that starts at `i`. */
  function RunEnd(c: string, i: nat, cls: CharClass): (j: nat)
    requires i <= |c|
    ensures i <= j <= |c|
    ensures AllIn(c, i, j, cls)
    ensures j < |c| ==> !In(cls, c[j])
    decreases |c| - i
  {
    if i == |c| || !In(cls, c[i]) then i else RunEnd(c, i + 1, cls)
  }

  /** A run that stops where the class fails is the run `RunEnd` finds. */
  lemma {:induction false} RunEndUnique(c: string, i: nat, j: nat, cls: CharClass)
    requires i <= j <= |c|
    requires AllIn(c, i, j, cls)
    requires j < |c| ==> !In(cls, c[j])
    ensures RunEnd(c, i, cls) == j
    decreases j - i
  {
    if i < j {
      RunEndUnique(c, i + 1, j, cls);
    }
  }

  /** A match: where it starts, where the captured name is, and where it ends. */
  datatype FunMatch = FunMatch(start: nat, nameStart: nat, nameEnd: nat, end: nat)

  predicate Placed(c: string, m: FunMatch) {
    m.start < m.nameStart < m.nameEnd < m.end <= |c|
  }

  /**
   * The regex `\w+[\s\\*]*\s+(\w+)\([\w\s,\\*]*\)\s*{\s+}` matches
   * `c[s..e6 + 1]` with group 1 `c[ns..ne]`, split at `e1`, `e4` and `e5`.
   */
  predicate ShapeAt(c: string, s: nat, e1: nat, ns: nat, ne: nat, e4: nat, e5: nat, e6: nat) {
    s < e1 < ns < ne < e4 < e5 < e6 < |c|
    && AllIn(c, s, e1, Word)
    && AllIn(c, e1, ns, TypeGap) && IsSpace(c[ns - 1])
    && AllIn(c, ns, ne, Word) && c[ne] == '('
    && AllIn(c, ne + 1, e4, Parameters) && c[e4] == ')'
    && AllIn(c, e4 + 1, e5, Space) && c[e5] == '{'
    && e5 + 1 < e6 && AllIn(c, e5 + 1, e6, Space) && c[e6] == '}'
  }

  /** The match of the function regex starting exactly at `s`, if any. */
  function MatchAt(c: string, s: nat): (r: Option<FunMatch>)
    ensures r.Some? ==> r.value.start == s && Placed(c, r.value)
  {
    if s >= |c| || !IsWordChar(c[s]) then None
    else
      var e1 := RunEnd(c, s, Word);
      var ns := RunEnd(c, e1, TypeGap);
      if ns == e1 || ns == |c| || !IsSpace(c[ns - 1]) || !IsWordChar(c[ns]) then None
      else
        var ne := RunEnd(c, ns, Word);
        if ne == |c| || c[ne] != '(' then None
        else
          var e4 := RunEnd(c, ne + 1, Parameters);
          if e4 == |c| || c[e4] != ')' then None
          else
            var e5 := RunEnd(c, e4 + 1, Space);
            if e5 == |c| || c[e5] != '{' then None
            else
              var e6 := RunEnd(c, e5 + 1, Space);
              if e6 == e5 + 1 || e6 == |c| || c[e6] != '}' then None
              else Some(FunMatch(s, ns, ne, e6 + 1))
  }

  /**
   * The matcher is the regex: it matches at `s`, with the name at
   * `c[ns..ne]` and the closing `}` at `e6`, exactly when the text there
   * has the regex's shape for some split points. So the match at `s` is
   * unique, whatever order of backtracking the engine uses.
   */
  lemma MatchAtIff(c: string, s: nat, ns: nat, ne: nat, e6: nat)
    ensures MatchAt(c, s) == Some(FunMatch(s, ns, ne, e6 + 1))
        <==> exists e1, e4, e5 :: ShapeAt(c, s, e1, ns, ne, e4, e5, e6)
  {
    if MatchAt(c, s) == Some(FunMatch(s, ns, ne, e6 + 1)) {
      var e1 := RunEnd(c, s, Word);
      var e4 := RunEnd(c, ne + 1, Parameters);
      var e5 := RunEnd(c, e4 + 1, Space);
      assert ShapeAt(c, s, e1, ns, ne, e4, e5, e6);
    }
    if exists e1, e4, e5 :: ShapeAt(c, s, e1, ns, ne, e4, e5, e6) {
      var e1, e4, e5 :| ShapeAt(c, s, e1, ns, ne, e4, e5, e6);
      MatchAtComplete(c, s, e1, ns, ne, e4, e5, e6);
    }
  }

  lemma MatchAtComplete(c: string, s: nat, e1: nat, ns: nat, ne: nat, e4: nat, e5: nat, e6: nat)
    requires ShapeAt(c, s, e1, ns, ne, e4, e5, e6)
    ensures MatchAt(c, s) == Some(FunMatch(s, ns, ne, e6 + 1))
  {
    RunEndUnique(c, s, e1, Word);
    RunEndUnique(c, e1, ns, TypeGap);
    RunEndUnique(c, ns, ne, Word);
    RunEndUnique(c, ne + 1, e4, Parameters);
    RunEndUnique(c, e4 + 1, e5, Space);
    RunEndUnique(c, e5 + 1, e6, Space);
  }

  /** `regex.exec(content)` with `lastIndex == from`: the leftmost match at or after `from`. */
  function FirstMatch(c: string, from: nat): (r: Option<FunMatch>)
    ensures r.Some? ==> from <= r.value.start && MatchAt(c, r.value.start) == r
    decreases |c| - from
  {
    if from >= |c| then None
    else
      var here := MatchAt(c, from);
      if here.Some? then here else FirstMatch(c, from + 1)
  }

  /**
   * The match found is the leftmost: no position from `from` up to it
   * matches, and none at all when nothing is found.
   */
  lemma {:induction false} FirstMatchLeftmost(c: string, from: nat, s: nat)
    requires from <= s
    requires FirstMatch(c, from).Some? ==> s < FirstMatch(c, from).value.start
    ensures MatchAt(c, s).None?
    decreases s - from
  {
    if from < |c| && from < s {
      assert MatchAt(c, from).None?;
      assert FirstMatch(c, from) == FirstMatch(c, from + 1);
      FirstMatchLeftmost(c, from + 1, s);
    }
  }

  /** All matches found by repeated `exec` calls from `lastIndex == from`. */
  function MatchesFrom(c: string, from: nat): (ms: seq<FunMatch>)
    requires from <= |c|
    ensures forall k :: 0 <= k < |ms| ==> Placed(c, ms[k]) && from <= ms[k].start
    ensures forall k :: 0 <= k < |ms| - 1 ==> ms[k].end <= ms[k + 1].start
    decreases |c| - from
  {
    match FirstMatch(c, from)
      case None => []
      case Some(m) => [m] + MatchesFrom(c, m.end)
  }

  /** The captured function name. */
  function Name(c: string, m: FunMatch): string
    requires Placed(c, m)
  {
    c[m.nameStart..m.nameEnd]
  }

  /** The line of the captured name: 1 plus the newlines before it. */
  function NameLine(c: string, m: FunMatch): int
    requires Placed(c, m)
  {
    1 + Count(c[..m.nameStart], '\n')
  }

  /**
   * The line as the source computes it: the newlines before the match,
   * plus those in the match before the first occurrence of the name in it.
   */
  function LineAsWritten(c: string, m: FunMatch): int
    requires Placed(c, m)
  {
    1 + Count(c[..m.start], '\n') + Count(c[m.start..m.end][..NameIndex(c, m)], '\n')
  }

  /** `funDef.indexOf(fun)`: found, at or before the offset where the match captured the name. */
  function NameIndex(c: string, m: FunMatch): (index: nat)
    requires Placed(c, m)
    ensures index <= m.nameStart - m.start
  {
    NameInMatch(c, m);
    IndexOf(c[m.start..m.end], Name(c, m))
  }

  /** The captured name occurs in the matched text, where the match captured it. */
  lemma NameInMatch(c: string, m: FunMatch)
    requires Placed(c, m)
    ensures OccursAt(c[m.start..m.end], Name(c, m), m.nameStart - m.start)
  {
    var funDef := c[m.start..m.end];
    var k := m.nameStart - m.start;
    forall j | 0 <= j < m.nameEnd - m.nameStart
      ensures funDef[k..k + |Name(c, m)|][j] == Name(c, m)[j]
    {
      assert funDef[k + j] == c[m.nameStart + j];
    }
  }

  /** The two agree when the name does not occur earlier in the match. */
  lemma LineAsWrittenAgrees(c: string, m: FunMatch)
    requires Placed(c, m)
    requires IndexOf(c[m.start..m.end], Name(c, m)) == m.nameStart - m.start
    ensures LineAsWritten(c, m) == NameLine(c, m)
  {
    assert c[..m.nameStart] == c[..m.start] + c[m.start..m.end][..m.nameStart - m.start];
    CountAppend(c[..m.start], c[m.start..m.end][..m.nameStart - m.start], '\n');
  }

  /** `functionsMap.set(line(m), name(m))` for each match in turn. */
  function Entries(c: string, acc: seq<(int, string)>, ms: seq<FunMatch>, line: (string, FunMatch) --> int): seq<(int, string)>
    requires forall k :: 0 <= k < |ms| ==> Placed(c, ms[k])
    requires forall m :: Placed(c, m) ==> line.requires(c, m)
    decreases |ms|
  {
    if ms == [] then acc
    else Entries(c, OM.Set(acc, line(c, ms[0]), Name(c, ms[0])), ms[1..], line)
  }

  /** The name the last match on line `k` gives, if any match is on that line. */
  function LastOnLine(c: string, ms: seq<FunMatch>, line: (string, FunMatch) --> int, k: int): Option<string>
    requires forall j :: 0 <= j < |ms| ==> Placed(c, ms[j])
    requires forall m :: Placed(c, m) ==> line.requires(c, m)
    decreases |ms|
  {
    if ms == [] then None
    else match LastOnLine(c, ms[1..], line, k)
      case Some(v) => Some(v)
      case None => if line(c, ms[0]) == k then Some(Name(c, ms[0])) else None
  }

  /**
   * `functionsMap.get(k)` after the loop: the name of the last match on
   * line `k` (a later match overwrites an earlier one), else what was
   * there before.
   */
  lemma {:induction false} EntriesGet(c: string, acc: seq<(int, string)>, ms: seq<FunMatch>, line: (string, FunMatch) --> int, k: int)
    requires forall j :: 0 <= j < |ms| ==> Placed(c, ms[j])
    requires forall m :: Placed(c, m) ==> line.requires(c, m)
    ensures OM.Get(Entries(c, acc, ms, line), k)
         == match LastOnLine(c, ms, line, k) case Some(v) => Some(v) case None => OM.Get(acc, k)
    ensures OM.DistinctKeys(acc) ==> OM.DistinctKeys(Entries(c, acc, ms, line))
    decreases |ms|
  {
    if ms != [] {
      var key, name := line(c, ms[0]), Name(c, ms[0]);
      EntriesGet(c, OM.Set(acc, key, name), ms[1..], line, k);
      if key == k {
        OM.SetGet(acc, key, name);
      } else {
        OM.SetOther(acc, key, name, k);
      }
      if OM.DistinctKeys(acc) {
        OM.SetDistinct(acc, key, name);
      }
    }
  }

  /** The map the source builds: each match's name under the line it computes. */
  function FunctionMapAsWritten(b: string): seq<(int, string)> {
    var c := Collapse(b);
    Entries(c, [], MatchesFrom(c, 0), LineAsWritten)
  }

  /** Every key of the source's map holds the name of the last definition it puts on that line. */
  lemma FunctionMapAsWrittenLookup(b: string, k: int)
    ensures var c := Collapse(b);
      OM.Get(FunctionMapAsWritten(b), k) == LastOnLine(c, MatchesFrom(c, 0), LineAsWritten, k)
    ensures OM.DistinctKeys(FunctionMapAsWritten(b))
  {
    var c := Collapse(b);
    EntriesGet(c, [], MatchesFrom(c, 0), LineAsWritten, k);
  }

  /**
   * The line the source computes is never after the name's own line: the
   * first occurrence of the name in the match is at or before the captured
   * one, and it is exactly the name's line when no newline lies between them.
   */
  lemma LineAsWrittenEarlier(c: string, m: FunMatch)
    requires Placed(c, m)
    ensures LineAsWritten(c, m) <= NameLine(c, m)
    ensures LineAsWritten(c, m) == NameLine(c, m)
        <==> Count(c[m.start..m.end][NameIndex(c, m)..m.nameStart - m.start], '\n') == 0
  {
    var funDef := c[m.start..m.end];
    var index := NameIndex(c, m);
    var p := m.start + index;
    assert funDef[..index] == c[m.start..p];
    assert funDef[index..m.nameStart - m.start] == c[p..m.nameStart];
    assert c[..m.start] == c[0..m.start] && c[..m.nameStart] == c[0..m.nameStart];
    CountSplit(c, 0, m.start, m.nameStart);
    CountSplit(c, m.start, p, m.nameStart);
  }

  /** The map keyed by the line each name is on (see `LineAsWritten`). */
  function FunctionMap(b: string): seq<(int, string)> {
    var c := Collapse(b);
    Entries(c, [], MatchesFrom(c, 0), NameLine)
  }

  /** Every key holds the name of the last definition whose name is on that line. */
  lemma FunctionMapLookup(b: string, k: int)
    ensures var c := Collapse(b);
      OM.Get(FunctionMap(b), k) == LastOnLine(c, MatchesFrom(c, 0), NameLine, k)
    ensures OM.DistinctKeys(FunctionMap(b))
  {
    var c := Collapse(b);
    EntriesGet(c, [], MatchesFrom(c, 0), NameLine, k);
  }

  lemma CountPrefix(s: string, i: nat)
    requires i < |s|
    ensures Count(s[..i + 1], '\n') == Count(s[..i], '\n') + (if s[i] == '\n' then 1 else 0)
  {
    assert s[..i + 1] == s[..i] + [s[i]];
    CountSnoc(s[..i], s[i]);
  }

  /**
   * `generateFunctionList` on the file text: collapse it, then for each
   * match of the function regex count the newlines before the match and
   * before the first occurrence of the name inside it, and set that line
   * to the name.
   */
  method GenerateFunctionList(buffer: string) returns (functionsMap: seq<(int, string)>)
    ensures functionsMap == FunctionMapAsWritten(buffer)
  {
    var content, lines := CollapseSource(buffer);
    functionsMap := [];
    var lastIndex := 0;
    while true
      invariant lastIndex <= |content|
      invariant Entries(content, functionsMap, MatchesFrom(content, lastIndex), LineAsWritten) == FunctionMapAsWritten(buffer)
      decreases |content| - lastIndex
    {
      var arr := FirstMatch(content, lastIndex);
      if arr.None? {
        break;
      }
      var m := arr.value;
      var lineNo := LineOfMatch(content, m);
      var fun := content[m.nameStart..m.nameEnd];
      assert MatchesFrom(content, lastIndex)[1..] == MatchesFrom(content, m.end);
      functionsMap := OM.Set(functionsMap, lineNo, fun);
      lastIndex := m.end;
    }
  }

  /** The two counting loops for one match. */
  method LineOfMatch(content: string, m: FunMatch) returns (lineNo: int)
    requires Placed(content, m)
    ensures lineNo == LineAsWritten(content, m)
  {
    lineNo := 1;
    for i := 0 to m.start
      invariant lineNo == 1 + Count(content[..i], '\n')
    {
      CountPrefix(content, i);
      if content[i] == '\n' {
        lineNo := lineNo + 1;
      }
    }
    var funDef := content[m.start..m.end];
    var index := IndexOf(funDef, content[m.nameStart..m.nameEnd]);
    NameInMatch(content, m);
    for i := 0 to index
      invariant lineNo == 1 + Count(content[..m.start], '\n') + Count(funDef[..i], '\n')
    {
      CountPrefix(funDef, i);
      if funDef[i] == '\n' {
        lineNo := lineNo + 1;
      }
    }
  }

  lemma CopyUnfold(b: string, i: nat, prevNewline: bool)
    requires i < |b| - 1 && b[i] != '/' && b[i] != '#' && b[i] != '{'
    ensures CollapseFrom(b, i, prevNewline) == [b[i]] + CollapseFrom(b, i + 1, b[i] == '\n')
  {
    assert StepAt(b, i, prevNewline) == CopyStep(b, i);
  }

  /** Copying a run of plain characters. */
  lemma {:induction false} CopyRun(b: string, i: nat, j: nat, prevNewline: bool)
    requires i < j < |b|
    requires forall k :: i <= k < j ==> b[k] != '/' && b[k] != '#' && b[k] != '{'
    ensures CollapseFrom(b, i, prevNewline) == b[i..j] + CollapseFrom(b, j, b[j - 1] == '\n')
    decreases j - i
  {
    CopyUnfold(b, i, prevNewline);
    if i + 1 < j {
      CopyRun(b, i + 1, j, b[i] == '\n');
      ConsJoin(b, i, j, CollapseFrom(b, i + 1, b[i] == '\n'), CollapseFrom(b, j, b[j - 1] == '\n'));
    } else {
      assert b[i..j] == [b[i]];
    }
  }

  /** One character in front of a slice and what follows it. */
  lemma ConsJoin(b: string, i: nat, j: nat, tail: string, rest: string)
    requires i < j <= |b| && tail == b[i + 1..j] + rest
    ensures [b[i]] + tail == b[i..j] + rest
  {
    assert b[i..j] == [b[i]] + b[i + 1..j];
  }

  /**
   * A function whose name also ends its return type, on the line before:
   * `int` then `in(void) {}` on the next line.
   */
  const ExampleFile: string := "int\nin(void) {\n}\n"
  const ExampleContent: string := "int\nin(void) {\n}"
  const ExampleMatch: FunMatch := FunMatch(0, 4, 6, 16)

  lemma ExampleCollapse(b: string)
    requires b == ExampleFile
    ensures Collapse(b) == ExampleContent
  {
    ExampleHeadPlain();
    CopyRun(b, 0, 13, true);
    ExampleBlock(b);
    ExampleSplit(b);
  }

  lemma ExampleSplit(b: string)
    requires b == ExampleFile
    ensures ExampleContent == b[0..13] + "{\n}"
  {
    var head := "int\nin(void) ";
    assert b == head + "{\n}\n";
    assert b[0..13] == head;
  }

  lemma ExampleHeadPlain()
    ensures forall k :: 0 <= k < 13 ==> ExampleFile[k] != '/' && ExampleFile[k] != '#' && ExampleFile[k] != '{'
    ensures ExampleFile[12] == ' '
  {
    var b := ExampleFile;
    assert b[0] == 'i' && b[1] == 'n' && b[2] == 't' && b[3] == '\n';
    assert b[4] == 'i' && b[5] == 'n' && b[6] == '(';
    assert b[7] == 'v' && b[8] == 'o' && b[9] == 'i' && b[10] == 'd' && b[11] == ')' && b[12] == ' ';
  }

  lemma ExampleBlock(b: string)
    requires b == ExampleFile
    ensures CollapseFrom(b, 13, false) == "{\n}"
  {
    assert b[13] == '{' && b[14] == '\n' && b[15] == '}';
    assert BlockEnd(b, 15, 1) == 15;
    assert BlockEnd(b, 14, 1) == 15;
    assert BlockEnd(b, 13, 0) == 15;
    assert b[13..15] == "{\n";
    assert Count(b[13..15], '\n') == 1;
    assert StepAt(b, 13, false) == BlockStep(b, 13);
    assert BlockStep(b, 13) == Step("{\n}", 16, false);
    CollapseUnfold(b, 13, false);
  }

  lemma ExampleShape()
    ensures ShapeAt(ExampleContent, 0, 3, 4, 6, 11, 13, 15)
  {
    var c := ExampleContent;
    assert c[0] == 'i' && c[1] == 'n' && c[2] == 't' && c[3] == '\n';
    assert c[4] == 'i' && c[5] == 'n' && c[6] == '(';
    assert c[7] == 'v' && c[8] == 'o' && c[9] == 'i' && c[10] == 'd' && c[11] == ')';
    assert c[12] == ' ' && c[13] == '{' && c[14] == '\n' && c[15] == '}';
  }

  lemma ExampleMatches()
    ensures MatchesFrom(ExampleContent, 0) == [ExampleMatch]
  {
    ExampleShape();
    MatchAtComplete(ExampleContent, 0, 3, 4, 6, 11, 13, 15);
    assert MatchesFrom(ExampleContent, 16) == [];
  }

  lemma ExampleLines()
    ensures Placed(ExampleContent, ExampleMatch)
    ensures Name(ExampleContent, ExampleMatch) == "in"
    ensures LineAsWritten(ExampleContent, ExampleMatch) == 1
    ensures NameLine(ExampleContent, ExampleMatch) == 2
  {
    var c := ExampleContent;
    assert c[4] == 'i' && c[5] == 'n';
    assert Name(c, ExampleMatch) == "in";
    var funDef := c[0..16];
    assert funDef[0] == 'i' && funDef[1] == 'n';
    assert OccursAt(funDef, "in", 0);
    assert IndexOf(funDef, "in") == 0;
    assert funDef[..0] == [];
    assert c[..0] == [];
    assert c[..4] == "int\n";
  }

  /**
   * The source keys `in` by the line of `int`, one line early, because
   * `funDef.indexOf("in")` finds the `in` of `int`; keyed by the name's
   * own position it is line 2.
   */
  lemma NameFoundInReturnType()
    ensures FunctionMapAsWritten(ExampleFile) == [(1, "in")]
    ensures FunctionMap(ExampleFile) == [(2, "in")]
  {
    ExampleCollapse(ExampleFile);
    ExampleMatches();
    ExampleLines();
    var c := ExampleContent;
    assert [ExampleMatch][1..] == [];
  }
}
