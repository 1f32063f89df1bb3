/**
 * The data logic of the side-bar trees and the change decorations: the
 * ids the tree items carry and how a child request decodes them back into
 * a database query, the stacktrace summary, and the histogram children
 * and their tooltips.
 */
module Outline {
  import opened Text
  import OM = OrderedMap
  import Ftrace

  // ---------------------------------------------------------------------------
  // Tree-item ids

  /** `tag + "." + a + "." + b`, the shape of every tree-item id. */
  function Dotted(tag: string, a: string, b: string): string {
    tag + "." + a + "." + b
  }

  /** `"fun." + funName + "." + funId`. */
  function FunItemId(funName: string, funId: string): string {
    Dotted("fun", funName, funId)
  }

  /** `"ret." + retLine + "." + funId`. */
  function RetItemId(retLine: int, funId: int): string {
    Dotted("ret", IntToString(retLine), IntToString(funId))
  }

  /** `"stack." + sum + "." + funId`. */
  function StackItemId(sum: int, funId: int): string {
    Dotted("stack", IntToString(sum), IntToString(funId))
  }

  /** `id.split(".")[k]`; `None` is `undefined`, past the last field. */
  function Field(id: string, k: nat): Option<string> {
    var parts := Split(id, '.');
    if k < |parts| then Some(parts[k]) else None
  }

  /** `Number.parseInt(id.split(".")[k])`; `None` is NaN. */
  function IntField(id: string, k: nat): Option<int> {
    match Field(id, k)
      case None => None
      case Some(f) => ParseInt(f)
  }

  predicate StartsWith(s: string, prefix: string) {
    OccursAt(s, prefix, 0)
  }

  /** Three dot-free parts joined by dots split back into those parts. */
  lemma SplitThree(a: string, b: string, c: string)
    requires '.' !in a && '.' !in b && '.' !in c
    ensures Split(Dotted(a, b, c), '.') == [a, b, c]
  {
    SplitNoSep(c, '.');
    SplitPrefix(b, c, '.');
    SplitPrefix(a, b + "." + c, '.');
    assert a + "." + b + "." + c == a + ['.'] + (b + ['.'] + c);
  }

  /** The database query a child request issues. */
  datatype Query =
    | Trials(funIdText: Option<string>)
    | Funcs(file: string)
    | TrialsForReturnLine(funId: Option<int>, returnLine: Option<int>)
    | ReturnsForFun(funId: Option<int>)
    | FuncsWithReturns(file: string)
    | TrialsWithStacktrace(funId: Option<int>, sum: Option<int>)
    | StacktracesForFun(funId: Option<int>)
    | Files

  /**
   * `InspectsTreeProvider.getChildren`: `id` is the element's id, `None`
   * for the root or an item without an id.
   */
  function InspectsQuery(file: string, id: Option<string>): Query {
    if id.Some? && StartsWith(id.value, "fun.") then Trials(Field(id.value, 2))
    else Funcs(file)
  }

  /**
   * The items of `RegisteredInspectTreeProvider`: a collapsible file item
   * labelled with its path, and a function item labelled "path fun".
   */
  datatype RegisteredItem = FileItem(path: string) | FunctionItem(path: string, fun: string)

  function Label(item: RegisteredItem): string {
    match item
    case FileItem(path) => path
    case FunctionItem(path, fun) => path + " " + fun
  }

  /** Only file items are created collapsed; a function item has no children to ask for. */
  predicate Collapsible(item: RegisteredItem) {
    item.FileItem?
  }

  /**
   * `RegisteredInspectTreeProvider.getChildren`: the root asks for the
   * files, and an item asks for the functions of the file its label names.
   */
  function RegisteredQuery(element: Option<RegisteredItem>): (q: Query)
    ensures q == Files <==> element.None?
    ensures element.Some? ==> q.Funcs? && q.file == Label(element.value)
  {
    if element.Some? then Funcs(Label(element.value)) else Files
  }

  /**
   * Expanding the item made for a file asks for the functions of exactly
   * that file, so each file shows its own functions; function items are leaves.
   */
  lemma RegisteredFileChildren(path: string, fun: string)
    ensures RegisteredQuery(Some(FileItem(path))) == Funcs(path)
    ensures Collapsible(FileItem(path)) && !Collapsible(FunctionItem(path, fun))
    ensures RegisteredQuery(None) == Files
  {
  }

  /** `ReturnsTreeProvider.getChildren`. */
  function ReturnsQuery(file: string, id: Option<string>): Query {
    if id.Some? && StartsWith(id.value, "ret.") then
      TrialsForReturnLine(IntField(id.value, 2), IntField(id.value, 1))
    else if id.Some? && StartsWith(id.value, "fun.") then ReturnsForFun(IntField(id.value, 2))
    else FuncsWithReturns(file)
  }

  /** `StacktraceTreeProvider.getChildren`. */
  function StacktraceQuery(file: string, id: Option<string>): Query {
    if id.Some? && StartsWith(id.value, "stack.") then
      TrialsWithStacktrace(IntField(id.value, 2), IntField(id.value, 1))
    else if id.Some? && StartsWith(id.value, "fun.") then StacktracesForFun(IntField(id.value, 2))
    else FuncsWithReturns(file)
  }

  /** Expanding a function item of the inspects tree asks for the trials of that function id. */
  lemma InspectsFunItem(file: string, funName: string, funId: string)
    requires '.' !in funName && '.' !in funId
    ensures InspectsQuery(file, Some(FunItemId(funName, funId))) == Trials(Some(funId))
  {
    SplitThree("fun", funName, funId);
    assert FunItemId(funName, funId)[..4] == "fun.";
  }

  /** A function item with a numeric id: it starts with "fun." and field 2 parses back to the id. */
  lemma NumericFunId(funName: string, funId: int)
    requires '.' !in funName
    ensures StartsWith(FunItemId(funName, IntToString(funId)), "fun.")
    ensures !StartsWith(FunItemId(funName, IntToString(funId)), "ret.")
    ensures !StartsWith(FunItemId(funName, IntToString(funId)), "stack.")
    ensures IntField(FunItemId(funName, IntToString(funId)), 2) == Some(funId)
  {
    FunIdPrefix(funName, IntToString(funId));
    IntToStringNoDot(funId);
    SplitThree("fun", funName, IntToString(funId));
    ParseIntToString(funId);
  }

  lemma FunIdPrefix(funName: string, funId: string)
    ensures StartsWith(FunItemId(funName, funId), "fun.")
    ensures !StartsWith(FunItemId(funName, funId), "ret.")
    ensures !StartsWith(FunItemId(funName, funId), "stack.")
  {
    var id := FunItemId(funName, funId);
    assert id[..4] == "fun.";
    assert id[1] == 'u';
  }

  /** Expanding a function item of the returns tree asks for that function's return lines. */
  lemma ReturnsFunItem(file: string, funName: string, funId: int)
    requires '.' !in funName
    ensures ReturnsQuery(file, Some(FunItemId(funName, IntToString(funId)))) == ReturnsForFun(Some(funId))
  {
    NumericFunId(funName, funId);
  }

  /** Expanding a function item of the stacktrace tree asks for that function's stacktraces. */
  lemma StacktraceFunItem(file: string, funName: string, funId: int)
    requires '.' !in funName
    ensures StacktraceQuery(file, Some(FunItemId(funName, IntToString(funId)))) == StacktracesForFun(Some(funId))
  {
    NumericFunId(funName, funId);
  }

  /** Fields 1 and 2 of `tag.a.b` parse back to `a` and `b`. */
  lemma NumericFields(tag: string, a: int, b: int)
    requires '.' !in tag
    ensures IntField(Dotted(tag, IntToString(a), IntToString(b)), 1) == Some(a)
    ensures IntField(Dotted(tag, IntToString(a), IntToString(b)), 2) == Some(b)
  {
    IntToStringNoDot(a);
    IntToStringNoDot(b);
    SplitThree(tag, IntToString(a), IntToString(b));
    ParseIntToString(a);
    ParseIntToString(b);
  }

  lemma DottedStarts(tag: string, a: string, b: string)
    ensures StartsWith(Dotted(tag, a, b), tag + ".")
  {
    assert Dotted(tag, a, b)[..|tag| + 1] == tag + ".";
  }

  /** A return item decodes back to its line and function id. */
  lemma ReturnItem(file: string, retLine: int, funId: int)
    ensures ReturnsQuery(file, Some(RetItemId(retLine, funId))) == TrialsForReturnLine(Some(funId), Some(retLine))
  {
    NumericFields("ret", retLine, funId);
    DottedStarts("ret", IntToString(retLine), IntToString(funId));
    assert "ret" + "." == "ret.";
  }

  /** A stacktrace item decodes back to its sum and function id. */
  lemma StackItem(file: string, sum: int, funId: int)
    ensures StacktraceQuery(file, Some(StackItemId(sum, funId))) == TrialsWithStacktrace(Some(funId), Some(sum))
  {
    NumericFields("stack", sum, funId);
    DottedStarts("stack", IntToString(sum), IntToString(funId));
    assert "stack" + "." == "stack.";
  }

  // ---------------------------------------------------------------------------
  // Stacktrace items

  /** The frames of a stacktrace whose '+' comes after at least one character, cut at the '+'. */
  function Symbols(frames: seq<string>): (r: seq<string>)
    ensures |r| <= |frames|
  {
    if frames == [] then []
    else
      var f := frames[|frames| - 1];
      Symbols(frames[..|frames| - 1]) + (if HasOffset(f) then [Symbol(f)] else [])
  }

  /** `frame.split("+")[0]`: the symbol before the offset. */
  function Symbol(frame: string): string {
    Split(frame, '+')[0]
  }

  /** `frame.indexOf("+") > 0`: the frame carries an offset after its symbol. */
  predicate HasOffset(frame: string) {
    IndexOf(frame, "+") > 0
  }

  /** Each name followed by ", ". */
  function Listed(names: seq<string>): string {
    if names == [] then "" else Listed(names[..|names| - 1]) + names[|names| - 1] + ", "
  }

  /** The first `n` elements, or all of them. */
  function Take<T>(s: seq<T>, n: nat): (r: seq<T>)
    ensures |r| <= n && |r| <= |s| && r == s[..|r|]
    ensures |s| <= n ==> r == s
    ensures n <= |s| ==> |r| == n
  {
    if |s| <= n then s else s[..n]
  }

  datatype StackTreeItem = StackTreeItem(caption: string, tooltip: string, description: string, id: string)

  /**
   * `genItemForStacktrace`: the tooltip lists every frame on a line of its
   * own; the description names the symbols of the first four frames that
   * carry an offset, then "...".
   */
  method GenItemForStacktrace(index: int, sum: int, stacktrace: string, funId: int) returns (item: StackTreeItem)
    ensures item.caption == "#" + IntToString(index)
    ensures item.tooltip == Ftrace.FunctionList(Split(stacktrace, ','))
    ensures item.description == Listed(Take(Symbols(Split(stacktrace, ',')), 4)) + "..."
    ensures item.id == StackItemId(sum, funId)
  {
    var frames := Split(stacktrace, ',');
    var tooltip := FrameLines(frames);
    var description := FrameSymbols(frames);
    description := description + "...";
    item := StackTreeItem("#" + IntToString(index), tooltip, description, StackItemId(sum, funId));
  }

  /** The tooltip loop: `item.tooltip += line + "\n"` for each frame. */
  method FrameLines(frames: seq<string>) returns (tooltip: string)
    ensures tooltip == Ftrace.FunctionList(frames)
  {
    tooltip := "";
    for i := 0 to |frames|
      invariant tooltip == Ftrace.FunctionList(frames[..i])
    {
      assert frames[..i + 1][..i] == frames[..i];
      tooltip := tooltip + frames[i] + "\n";
    }
    assert frames[..|frames|] == frames;
  }

  /** The description loop, counting the symbols listed so far in `cnt`. */
  method FrameSymbols(frames: seq<string>) returns (description: string)
    ensures description == Listed(Take(Symbols(frames), 4))
  {
    description := "";
    var cnt := 0;
    for i := 0 to |frames|
      invariant cnt == |Take(Symbols(frames[..i]), 4)|
      invariant description == Listed(Take(Symbols(frames[..i]), 4))
    {
      var fun := frames[i];
      ghost var shown := Take(Symbols(frames[..i]), 4);
      ghost var next := Take(Symbols(frames[..i + 1]), 4);
      DescriptionStep(frames, i, shown, next);
      if cnt < 4 && HasOffset(fun) {
        description := description + Symbol(fun) + ", ";
        cnt := cnt + 1;
      }
    }
    assert frames[..|frames|] == frames;
  }

  /** One frame more adds its symbol to the description while fewer than four are listed. */
  lemma DescriptionStep(frames: seq<string>, i: nat, before: seq<string>, after: seq<string>)
    requires i < |frames|
    requires before == Take(Symbols(frames[..i]), 4) && after == Take(Symbols(frames[..i + 1]), 4)
    ensures |before| < 4 && HasOffset(frames[i]) ==>
      |after| == |before| + 1 && Listed(after) == Listed(before) + Symbol(frames[i]) + ", "
    ensures !(|before| < 4 && HasOffset(frames[i])) ==> after == before
  {
    var symbols := Symbols(frames[..i]);
    SymbolsSnoc(frames, i);
    if HasOffset(frames[i]) {
      var symbol := Symbol(frames[i]);
      TakeSnoc(symbols, symbol, 4);
      if |symbols| < 4 {
        ListedSnoc(symbols, symbol);
      }
    } else {
      assert symbols + [] == symbols;
    }
  }

  lemma SymbolsSnoc(frames: seq<string>, i: nat)
    requires i < |frames|
    ensures Symbols(frames[..i + 1]) ==
      Symbols(frames[..i]) + (if HasOffset(frames[i]) then [Symbol(frames[i])] else [])
  {
    assert frames[..i + 1][..i] == frames[..i];
  }

  lemma ListedSnoc(names: seq<string>, name: string)
    ensures Listed(names + [name]) == Listed(names) + name + ", "
  {
    assert (names + [name])[..|names|] == names;
  }

  lemma TakeSnoc<T>(s: seq<T>, x: T, n: nat)
    ensures Take(s + [x], n) == if |s| < n then s + [x] else Take(s, n)
  {
    if |s| >= n {
      assert (s + [x])[..n] == s[..n];
    }
  }

  /** The tooltip shows one line per frame (frames never contain a newline of their own). */
  lemma StackTooltipLines(stacktrace: string)
    requires '\n' !in stacktrace
    ensures Split(Ftrace.FunctionList(Split(stacktrace, ',')), '\n') == Split(stacktrace, ',') + [""]
  {
    var frames := Split(stacktrace, ',');
    forall i | 0 <= i < |frames| ensures '\n' !in frames[i] {
      FramesOfText(stacktrace, ',', i);
    }
    Ftrace.FunctionListLines(frames);
  }

  /** A character missing from a text is missing from each of its parts. */
  lemma FramesOfText(s: string, sep: char, i: nat)
    requires i < |Split(s, sep)|
    ensures forall c :: c !in s ==> c !in Split(s, sep)[i]
  {
    var parts := Split(s, sep);
    JoinHas(parts, sep, i);
  }

  /** Every part of a join is a piece of it. */
  lemma {:induction false} JoinHas(parts: seq<string>, sep: char, i: nat)
    requires |parts| >= 1 && i < |parts|
    ensures forall c :: c in parts[i] ==> c in Join(parts, sep)
    decreases |parts|
  {
    if |parts| > 1 {
      if i > 0 {
        JoinHas(parts[1..], sep, i - 1);
        assert parts[1..][i - 1] == parts[i];
      }
      assert Join(parts, sep) == parts[0] + [sep] + Join(parts[1..], sep);
    } else {
      assert Join(parts, sep) == parts[0];
    }
  }

  // ---------------------------------------------------------------------------
  // Histogram children

  /** A child of the histogram tree: a traced function, or the "Loading..." placeholder. */
  datatype Child = Item(funName: string, tally: Ftrace.Tally) | Loading

  /** The order `(a, b) => b.count - a.count` asks for: counts never increase. */
  predicate SortedByCount(s: seq<(string, Ftrace.Tally)>) {
    forall i, j :: 0 <= i < j < |s| ==> s[i].1.count >= s[j].1.count
  }

  /** `e` placed after every entry of `s` whose count is at least its own. */
  function InsertByCount(s: seq<(string, Ftrace.Tally)>, e: (string, Ftrace.Tally)): (r: seq<(string, Ftrace.Tally)>)
    ensures multiset(r) == multiset(s) + multiset{e}
    decreases |s|
  {
    if s == [] then [e]
    else if s[|s| - 1].1.count >= e.1.count then s + [e]
    else
      assert s == s[..|s| - 1] + [s[|s| - 1]];
      InsertByCount(s[..|s| - 1], e) + [s[|s| - 1]]
  }

  /** Inserting into a sorted list keeps it sorted. */
  lemma {:induction false} InsertSorted(s: seq<(string, Ftrace.Tally)>, e: (string, Ftrace.Tally))
    requires SortedByCount(s)
    ensures SortedByCount(InsertByCount(s, e))
    decreases |s|
  {
    if s != [] && s[|s| - 1].1.count < e.1.count {
      var init := s[..|s| - 1];
      var last := s[|s| - 1];
      InsertSorted(init, e);
      var front := InsertByCount(init, e);
      forall i | 0 <= i < |front| ensures front[i].1.count >= last.1.count {
        assert front[i] in multiset(init) + multiset{e};
        if front[i] != e {
          var k :| 0 <= k < |init| && init[k] == front[i];
        }
      }
    }
  }

  /**
   * `Array.prototype.sort` with the comparator `b.count - a.count`: the
   * specification of that method asks for a stable sort, which insertion
   * sort is.
   */
  function SortByCount(s: seq<(string, Ftrace.Tally)>): (r: seq<(string, Ftrace.Tally)>)
    ensures multiset(r) == multiset(s)
    ensures SortedByCount(r)
  {
    if s == [] then []
    else
      assert s == s[..|s| - 1] + [s[|s| - 1]];
      InsertSorted(SortByCount(s[..|s| - 1]), s[|s| - 1]);
      InsertByCount(SortByCount(s[..|s| - 1]), s[|s| - 1])
  }

  /** The histogram entries of the functions of the file, in histogram order. */
  function Tracked(funcsInFile: seq<string>, h: seq<(string, Ftrace.Tally)>): seq<(string, Ftrace.Tally)> {
    if h == [] then []
    else Tracked(funcsInFile, h[..|h| - 1]) + (if h[|h| - 1].0 in funcsInFile then [h[|h| - 1]] else [])
  }

  /** An entry is tracked exactly when the histogram holds it and the file defines its function. */
  lemma {:induction false} TrackedHas(funcsInFile: seq<string>, h: seq<(string, Ftrace.Tally)>, e: (string, Ftrace.Tally))
    ensures e in Tracked(funcsInFile, h) <==> e in h && e.0 in funcsInFile
  {
    if h != [] {
      TrackedHas(funcsInFile, h[..|h| - 1], e);
      assert h == h[..|h| - 1] + [h[|h| - 1]];
    }
  }

  /** The file's functions the histogram does not list, each with count -1, in file order. */
  function Untracked(funcsInFile: seq<string>, h: seq<(string, Ftrace.Tally)>): seq<Child> {
    if funcsInFile == [] then []
    else
      var fun := funcsInFile[|funcsInFile| - 1];
      Untracked(funcsInFile[..|funcsInFile| - 1], h) + (if !OM.Has(h, fun) then [Item(fun, Ftrace.Tally(-1, []))] else [])
  }

  /** The untracked children are the file's functions missing from the histogram. */
  lemma {:induction false} UntrackedHas(funcsInFile: seq<string>, h: seq<(string, Ftrace.Tally)>, c: Child)
    ensures c in Untracked(funcsInFile, h) <==>
      c.Item? && c.funName in funcsInFile && !OM.Has(h, c.funName) && c.tally == Ftrace.Tally(-1, [])
  {
    if funcsInFile != [] {
      var init := funcsInFile[..|funcsInFile| - 1];
      UntrackedHas(init, h, c);
      assert funcsInFile == init + [funcsInFile[|funcsInFile| - 1]];
    }
  }

  function ItemsOf(entries: seq<(string, Ftrace.Tally)>): (r: seq<Child>)
    ensures |r| == |entries|
    ensures forall i :: 0 <= i < |r| ==> r[i] == Item(entries[i].0, entries[i].1)
  {
    seq(|entries|, i requires 0 <= i < |entries| => Item(entries[i].0, entries[i].1))
  }

  /** The children `getChildren` lists before the placeholder is considered. */
  function Built(funcsInFile: seq<string>, h: seq<(string, Ftrace.Tally)>): seq<Child> {
    ItemsOf(SortByCount(Tracked(funcsInFile, h))) + Untracked(funcsInFile, h)
  }

  /**
   * `getChildren` with the histogram `h`: nothing without a path; otherwise
   * the traced functions of the file by descending count, then the ones the
   * tracer does not list, or the placeholder when that leaves nothing.
   */
  function Children(path: string, funcsInFile: seq<string>, h: seq<(string, Ftrace.Tally)>): Option<seq<Child>> {
    if path == "" then None
    else
      var c := Built(funcsInFile, h);
      Some(if c == [] then [Loading] else c)
  }

  /** Some function item of `c` is `fun`'s. */
  predicate Named(c: seq<Child>, fun: string) {
    exists i :: 0 <= i < |c| && c[i].Item? && c[i].funName == fun
  }

  function CountOf(c: Child): int {
    if c.Item? then c.tally.count else 0
  }

  /** Counts never increase along the list. */
  predicate DescendingCounts(c: seq<Child>) {
    forall i, j :: 0 <= i < j < |c| ==> CountOf(c[i]) >= CountOf(c[j])
  }

  /** The root has children exactly when a file is shown; the placeholder exactly when the file has no functions. */
  lemma ChildrenPlaceholder(path: string, funcsInFile: seq<string>, h: seq<(string, Ftrace.Tally)>)
    ensures Children(path, funcsInFile, h).None? <==> path == ""
    ensures path != "" ==> (Children(path, funcsInFile, h) == Some([Loading]) <==> funcsInFile == [])
  {
    if path != "" {
      if funcsInFile == [] {
        EmptyFileChildren(path, h);
      } else {
        FileChildren(path, funcsInFile, h);
      }
    }
  }

  lemma EmptyFileChildren(path: string, h: seq<(string, Ftrace.Tally)>)
    requires path != ""
    ensures Children(path, [], h) == Some([Loading])
  {
    var t := Tracked([], h);
    if t != [] {
      TrackedHas([], h, t[0]);
    }
    ChildrenOf(path, [], h, Built([], h));
  }

  lemma FileChildren(path: string, funcsInFile: seq<string>, h: seq<(string, Ftrace.Tally)>)
    requires path != "" && funcsInFile != []
    ensures Children(path, funcsInFile, h) != Some([Loading])
  {
    var c := Built(funcsInFile, h);
    NamedIfDefined(funcsInFile, h, funcsInFile[0]);
    var i :| 0 <= i < |c| && c[i].Item? && c[i].funName == funcsInFile[0];
    HasItem(c, i);
  }

  /** A list holding a function item is not the placeholder list. */
  lemma HasItem(c: seq<Child>, p: nat)
    requires p < |c| && c[p].Item?
    ensures c != [] && c != [Loading]
  {
  }

  /** The list `getChildren` builds, and the placeholder in place of nothing. */
  lemma ChildrenOf(path: string, funcsInFile: seq<string>, h: seq<(string, Ftrace.Tally)>, list: seq<Child>)
    requires path != ""
    requires list == Built(funcsInFile, h)
    ensures Children(path, funcsInFile, h) == Some(if |list| == 0 then list + [Loading] else list)
  {
    assert |list| == 0 ==> list + [Loading] == [Loading];
  }

  /** The items name exactly the file's functions. */
  lemma ChildrenNames(path: string, funcsInFile: seq<string>, h: seq<(string, Ftrace.Tally)>)
    requires path != ""
    ensures forall fun :: Named(Children(path, funcsInFile, h).value, fun) <==> fun in funcsInFile
  {
    var c := Built(funcsInFile, h);
    ChildrenOf(path, funcsInFile, h, c);
    forall fun ensures Named(Children(path, funcsInFile, h).value, fun) <==> fun in funcsInFile {
      if fun in funcsInFile {
        NamedIfDefined(funcsInFile, h, fun);
        assert c != [];
      }
      if Named(Children(path, funcsInFile, h).value, fun) {
        assert c != [];
        DefinedIfNamed(funcsInFile, h, fun);
      }
    }
  }

  /** Sorting keeps the entries. */
  lemma SortedHas(t: seq<(string, Ftrace.Tally)>, e: (string, Ftrace.Tally))
    ensures e in SortByCount(t) <==> e in t
  {
    assert e in t <==> e in multiset(t);
    assert e in SortByCount(t) <==> e in multiset(SortByCount(t));
  }

  /** An entry's item names its function. */
  lemma ItemNamed(sorted: seq<(string, Ftrace.Tally)>, u: seq<Child>, e: (string, Ftrace.Tally))
    requires e in sorted
    ensures Named(ItemsOf(sorted) + u, e.0)
  {
    var i :| 0 <= i < |sorted| && sorted[i] == e;
    assert (ItemsOf(sorted) + u)[i] == Item(e.0, e.1);
  }

  /** A later item is named too. */
  lemma RestNamed(items: seq<Child>, u: seq<Child>, c: Child)
    requires c in u && c.Item?
    ensures Named(items + u, c.funName)
  {
    var i :| 0 <= i < |u| && u[i] == c;
    assert (items + u)[|items| + i] == c;
  }

  /** Some item names each of the file's functions. */
  lemma NamedIfDefined(funcsInFile: seq<string>, h: seq<(string, Ftrace.Tally)>, fun: string)
    requires fun in funcsInFile
    ensures Named(Built(funcsInFile, h), fun)
  {
    var t := Tracked(funcsInFile, h);
    var u := Untracked(funcsInFile, h);
    match OM.Find(h, fun)
    case Some(k) =>
      TrackedHas(funcsInFile, h, h[k]);
      SortedHas(t, h[k]);
      ItemNamed(SortByCount(t), u, h[k]);
    case None =>
      var item := Item(fun, Ftrace.Tally(-1, []));
      UntrackedHas(funcsInFile, h, item);
      RestNamed(ItemsOf(SortByCount(t)), u, item);
  }

  /** Every item names one of the file's functions. */
  lemma DefinedIfNamed(funcsInFile: seq<string>, h: seq<(string, Ftrace.Tally)>, fun: string)
    requires Named(Built(funcsInFile, h), fun)
    ensures fun in funcsInFile
  {
    var t := Tracked(funcsInFile, h);
    var sorted := SortByCount(t);
    var u := Untracked(funcsInFile, h);
    var c := ItemsOf(sorted) + u;
    var i :| 0 <= i < |c| && c[i].Item? && c[i].funName == fun;
    if i < |sorted| {
      ItemAt(sorted, u, i);
      SortedHas(t, sorted[i]);
      TrackedHas(funcsInFile, h, sorted[i]);
    } else {
      RestAt(ItemsOf(sorted), u, i);
      UntrackedHas(funcsInFile, h, c[i]);
    }
  }

  lemma ItemAt(sorted: seq<(string, Ftrace.Tally)>, u: seq<Child>, i: nat)
    requires i < |sorted|
    ensures (ItemsOf(sorted) + u)[i] == Item(sorted[i].0, sorted[i].1)
  {
  }

  lemma RestAt(items: seq<Child>, u: seq<Child>, i: nat)
    requires |items| <= i < |items| + |u|
    ensures (items + u)[i] in u
  {
    assert (items + u)[i] == u[i - |items|];
  }

  /** With the tracer's counts, which are never negative, the list runs by descending count. */
  lemma ChildrenDescending(path: string, funcsInFile: seq<string>, h: seq<(string, Ftrace.Tally)>)
    requires path != ""
    requires forall i :: 0 <= i < |h| ==> h[i].1.count >= 0
    ensures DescendingCounts(Children(path, funcsInFile, h).value)
  {
    var t := Tracked(funcsInFile, h);
    var sorted := SortByCount(t);
    var items := ItemsOf(sorted);
    var u := Untracked(funcsInFile, h);
    forall i | 0 <= i < |sorted| ensures sorted[i].1.count >= 0 {
      assert sorted[i] in multiset(t);
      TrackedHas(funcsInFile, h, sorted[i]);
      var k :| 0 <= k < |h| && h[k] == sorted[i];
    }
    forall j | 0 <= j < |u| ensures CountOf(u[j]) == -1 {
      UntrackedHas(funcsInFile, h, u[j]);
    }
    DescendingJoin(sorted, u);
    ChildrenOf(path, funcsInFile, h, items + u);
  }

  /** Sorted non-negative counts followed by -1 counts run by descending count. */
  lemma DescendingJoin(sorted: seq<(string, Ftrace.Tally)>, u: seq<Child>)
    requires SortedByCount(sorted)
    requires forall i :: 0 <= i < |sorted| ==> sorted[i].1.count >= 0
    requires forall j :: 0 <= j < |u| ==> CountOf(u[j]) == -1
    ensures DescendingCounts(ItemsOf(sorted) + u)
    ensures DescendingCounts([Loading])
  {
    var c := ItemsOf(sorted) + u;
    forall i, j | 0 <= i < j < |c| ensures CountOf(c[i]) >= CountOf(c[j]) {
      if j < |sorted| {
        assert c[i] == Item(sorted[i].0, sorted[i].1) && c[j] == Item(sorted[j].0, sorted[j].1);
      } else if i < |sorted| {
        assert c[i] == Item(sorted[i].0, sorted[i].1) && c[j] == u[j - |sorted|];
      } else {
        assert c[i] == u[i - |sorted|] && c[j] == u[j - |sorted|];
      }
    }
  }

  /** The histogram tree: the file it shows and that file's functions. */
  class HistogramTree {
    var path: string
    var funcsInFile: seq<string>
    const ftrace: Ftrace.Ftrace

    constructor (ftrace: Ftrace.Ftrace)
      ensures this.ftrace == ftrace && path == "" && funcsInFile == []
    {
      this.ftrace := ftrace;
      path := "";
      funcsInFile := [];
    }

    /** `updatePath`. */
    method UpdatePath(path: string, funcsInFile: seq<string>)
      modifies this
      ensures this.path == path && this.funcsInFile == funcsInFile
    {
      this.path := path;
      this.funcsInFile := funcsInFile;
    }

    /** `getChildren`, reading the tracer's live histogram. */
    method GetChildren() returns (childs: Option<seq<Child>>)
      ensures childs == Children(path, funcsInFile, ftrace.Tallies())
    {
      if path == "" {
        return None;
      }
      ghost var h := ftrace.Tallies();
      var temp := CollectTracked();
      assert ftrace.Tallies() == h;
      var list := ItemsOf(SortByCount(temp));
      list := AppendUntracked(list);
      assert ftrace.Tallies() == h;
      ChildrenOf(path, funcsInFile, h, list);
      if |list| == 0 {
        list := list + [Loading];
      }
      childs := Some(list);
    }

    /** The first `forEach`: the histogram's traces of the file's functions. */
    method CollectTracked() returns (temp: seq<(string, Ftrace.Tally)>)
      ensures temp == Tracked(funcsInFile, ftrace.Tallies())
    {
      ghost var h := ftrace.Tallies();
      var histogram := ftrace.histogram;
      temp := [];
      for i := 0 to |histogram|
        invariant temp == Tracked(funcsInFile, h[..i])
      {
        var fun := histogram[i].0;
        var trace := histogram[i].1;
        assert h[..i + 1][..i] == h[..i];
        if fun in funcsInFile {
          temp := temp + [(fun, Ftrace.Tally(trace.count, trace.parents))];
        }
      }
      assert h[..|histogram|] == h;
    }

    /** The second `forEach`: a count -1 entry for each of the file's functions the histogram lacks. */
    method AppendUntracked(list0: seq<Child>) returns (list: seq<Child>)
      ensures list == list0 + Untracked(funcsInFile, ftrace.Tallies())
    {
      ghost var h := ftrace.Tallies();
      var histogram := ftrace.histogram;
      list := list0;
      for j := 0 to |funcsInFile|
        invariant list == list0 + Untracked(funcsInFile[..j], h)
      {
        var fun := funcsInFile[j];
        assert funcsInFile[..j + 1][..j] == funcsInFile[..j];
        ghost var before := Untracked(funcsInFile[..j], h);
        OM.FindSameKeys(histogram, h, fun);
        if OM.Find(histogram, fun).None? {
          var item := Item(fun, Ftrace.Tally(-1, []));
          assert Untracked(funcsInFile[..j + 1], h) == before + [item];
          list := list + [item];
          assert list == list0 + (before + [item]);
        } else {
          assert Untracked(funcsInFile[..j + 1], h) == before + [];
          assert before + [] == before;
        }
      }
      assert funcsInFile[..|funcsInFile|] == funcsInFile;
      assert h == ftrace.Tallies();
    }

    /** `getTreeItem`: the view of a child, built afresh. */
    method GetTreeItem(item: Child) returns (view: TreeView)
      ensures view == ViewOf(ftrace.Tallies(), item)
    {
      if item.Loading? {
        return TreeView(LoadingText, "", None);
      }
      ghost var h := ftrace.Tallies();
      var found := OM.Find(ftrace.histogram, item.funName);
      OM.FindSameKeys(ftrace.histogram, h, item.funName);
      var count := if found.None? then -1 else ftrace.histogram[found.value].1.count;
      assert count == ShownCount(h, item.funName);
      var tooltip := TooltipFor(count, item.tally.parents);
      view := TreeView(item.funName, tooltip, DescriptionFor(item.tally.count));
      assert h == ftrace.Tallies();
    }
  }

  // ---------------------------------------------------------------------------
  // Histogram tree items

  datatype TreeView = TreeView(caption: string, tooltip: string, description: Option<string>)

  /** The count the tree shows for a function: -1 when the tracer does not list it. */
  function ShownCount(h: seq<(string, Ftrace.Tally)>, funName: string): (count: int)
    ensures !OM.Has(h, funName) ==> count == -1
    ensures OM.Has(h, funName) ==> count == OM.Get(h, funName).value.count
  {
    match OM.Get(h, funName)
    case None => -1
    case Some(t) => t.count
  }

  /** The tree item of a child: the placeholder shows its text alone. */
  function ViewOf(h: seq<(string, Ftrace.Tally)>, item: Child): TreeView {
    match item
    case Loading => TreeView(LoadingText, "", None)
    case Item(funName, tally) =>
      TreeView(funName, TooltipText(ShownCount(h, funName), tally.parents), DescriptionFor(tally.count))
  }

  /** One line of the caller list. */
  function Bullet(parent: (string, int)): string {
    "* " + parent.0 + " (" + IntToString(parent.1) + " times)"
  }

  function Bullets(parents: seq<(string, int)>): (r: seq<string>)
    ensures |r| == |parents|
    ensures forall i :: 0 <= i < |r| ==> r[i] == Bullet(parents[i])
  {
    seq(|parents|, i requires 0 <= i < |parents| => Bullet(parents[i]))
  }

  const LoadingText := "Loading..."
  const InlinedText := "Can't track this function. This function might be inlined."
  const NotCalledText := "Function hasn't been called yet"
  const CallersHeader := "**Function called from:**"

  /** Each caller's line followed by a newline. */
  function CallerLines(parents: seq<(string, int)>): string {
    if parents == [] then "" else CallerLines(parents[..|parents| - 1]) + Bullet(parents[|parents| - 1]) + "\n"
  }

  /** The tooltip for a shown count and the callers of the function. */
  function TooltipText(count: int, parents: seq<(string, int)>): string {
    if count == -1 then InlinedText
    else if count == 0 then NotCalledText
    else CallersHeader + "\n" + CallerLines(parents)
  }

  /** The tooltip of `getTreeItem`: a fixed text, or the header and the caller loop. */
  method TooltipFor(count: int, parents: seq<(string, int)>) returns (tooltip: string)
    ensures tooltip == TooltipText(count, parents)
  {
    if count == -1 {
      tooltip := InlinedText;
    } else if count == 0 {
      tooltip := NotCalledText;
    } else {
      tooltip := AppendCallers(CallersHeader + "\n", parents);
    }
  }

  /** The `forEach` over the callers: `tooltip += "* parent (n times)\n"`. */
  method AppendCallers(prefix: string, parents: seq<(string, int)>) returns (tooltip: string)
    ensures tooltip == prefix + CallerLines(parents)
  {
    tooltip := prefix;
    for i := 0 to |parents|
      invariant tooltip == prefix + CallerLines(parents[..i])
    {
      CallerLinesSnoc(parents, i);
      Assoc3(prefix, CallerLines(parents[..i]), Bullet(parents[i]), "\n");
      tooltip := tooltip + Bullet(parents[i]) + "\n";
    }
    assert parents[..|parents|] == parents;
  }

  lemma CallerLinesSnoc(parents: seq<(string, int)>, i: nat)
    requires i < |parents|
    ensures CallerLines(parents[..i + 1]) == CallerLines(parents[..i]) + Bullet(parents[i]) + "\n"
  {
    assert parents[..i + 1][..i] == parents[..i];
  }

  /** The caller lines are the bullets, each closed by a newline. */
  lemma {:induction false} CallerLinesList(parents: seq<(string, int)>)
    ensures CallerLines(parents) == Ftrace.FunctionList(Bullets(parents))
  {
    if parents != [] {
      var init := parents[..|parents| - 1];
      CallerLinesList(init);
      assert Bullets(parents)[..|parents| - 1] == Bullets(init);
    }
  }

  /**
   * A called function's tooltip is the header line, then one line per
   * caller in the order the callers were first seen, each with its count.
   */
  lemma CallersTooltipLines(count: int, parents: seq<(string, int)>)
    requires count > 0
    requires forall i :: 0 <= i < |parents| ==> '\n' !in parents[i].0
    ensures Split(TooltipText(count, parents), '\n') == [CallersHeader] + Bullets(parents) + [""]
  {
    BulletsNoNewline(parents);
    CallerLinesList(parents);
    HeaderOneLine();
    HeadedLines(CallersHeader, Bullets(parents));
  }

  lemma HeaderOneLine()
    ensures '\n' !in CallersHeader
  {
    forall i | 0 <= i < |CallersHeader| ensures CallersHeader[i] != '\n' {
    }
  }

  lemma BulletsNoNewline(parents: seq<(string, int)>)
    requires forall i :: 0 <= i < |parents| ==> '\n' !in parents[i].0
    ensures forall i :: 0 <= i < |parents| ==> '\n' !in Bullets(parents)[i]
  {
    forall i | 0 <= i < |parents| ensures '\n' !in Bullet(parents[i]) {
      IntToStringNoNewline(parents[i].1);
    }
  }

  /** A header line over a list of lines splits back into the header and the lines. */
  lemma HeadedLines(header: string, lines: seq<string>)
    requires '\n' !in header
    requires forall i :: 0 <= i < |lines| ==> '\n' !in lines[i]
    ensures Split(header + "\n" + Ftrace.FunctionList(lines), '\n') == [header] + lines + [""]
  {
    Ftrace.FunctionListLines(lines);
    SplitPrefix(header, Ftrace.FunctionList(lines), '\n');
    assert header + "\n" + Ftrace.FunctionList(lines) == header + ['\n'] + Ftrace.FunctionList(lines);
  }

  const CalledPrefix := "(called: "

  /** `(called: n)` only for a function called at least once. */
  function DescriptionFor(count: int): (r: Option<string>)
    ensures r.Some? <==> count > 0
    ensures r.Some? ==> |r.value| > |CalledPrefix| + 1
    ensures r.Some? ==> r.value[..|CalledPrefix|] == CalledPrefix && ParseInt(r.value[|CalledPrefix|..]) == Some(count)
  {
    if count > 0 then
      DescriptionCount(CalledPrefix, count);
      Some(CalledPrefix + IntToString(count) + ")")
    else None
  }

  lemma DescriptionCount(prefix: string, count: int)
    requires count > 0
    ensures |prefix + IntToString(count) + ")"| > |prefix| + 1
    ensures (prefix + IntToString(count) + ")")[..|prefix|] == prefix
    ensures ParseInt((prefix + IntToString(count) + ")")[|prefix|..]) == Some(count)
  {
    var s := IntToString(count);
    var t := s + ")";
    assert (prefix + s + ")")[|prefix|..] == t;
    assert s == NatToString(count);
    assert IsDigit(t[0]);
    assert LeadingSpace(t) == 0;
    assert t[LeadingSpace(t)..] == t;
    assert SignFree(t) == t;
    DigitRunAll(s);
    assert DigitRun(t) == |s| by { assert !IsDigit(t[|s|]); }
    assert t[..|s|] == s;
    NatToStringValue(count);
  }
}
