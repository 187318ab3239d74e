/**
 * The tree builder of the TypeScript server
 * (`server/src/grammars/EscriptParserVisitorImpl.ts`): token ranges,
 * identifier and string text, the source type of a program, the
 * right-to-left scan of comma-separated lists with placeholders for missing
 * items, the lowering of `:=` expressions to assignments and the chaining of
 * `elseif` branches.
 */
module EscriptVisitor {
  import opened Common
  import opened TsUtils

  // ---------------------------------------------------------------------
  // Token ranges
  // ---------------------------------------------------------------------

  /** A lexer token: its 1-based line, 0-based column and text (possibly absent). */
  datatype Token = Token(line: int, charPositionInLine: int, text: Option<string>)

  function TextOf(t: Token): string
  {
    if t.text.Some? then t.text.value else ""
  }

  /** `getEndPos` of a token: the loop of `utils.ts` run from the token's 0-based line and its column. */
  method TokenEndPos(t: Token) returns (p: TsPosition)
    ensures p == EndPosAsWritten(TextOf(t), t.line - 1, t.charPositionInLine)
  {
    var line := t.line;
    var character := t.charPositionInLine;
    var str := TextOf(t);
    line := line - 1;
    var i := 0;
    while i < |str| - 1
      invariant 0 <= i && (i <= |str| - 1 || i == 0)
      invariant ScanEnd(str, i, TsPosition(line, character)) == ScanEnd(str, 0, TsPosition(t.line - 1, t.charPositionInLine))
      decreases |str| - i
    {
      if str[i] == '\r' && str[i + 1] == '\n' {
        line, character := line + 1, 1;
      } else if str[i] == '\r' {
        line, character := line + 1, 1;
      } else if str[i] == '\n' {
        line, character := line + 1, 1;
      } else {
        character := character + 1;
      }
      i := i + 1;
    }
    character := character + 1;
    p := TsPosition(line, character);
  }

  /** A single-line token of length n at line L, column c ends at (L - 1, c + n). */
  lemma SingleLineTokenEnd(t: Token)
    requires |TextOf(t)| > 0 && forall i :: 0 <= i < |TextOf(t)| - 1 ==> !IsLineTerminator(TextOf(t)[i])
    ensures EndPosAsWritten(TextOf(t), t.line - 1, t.charPositionInLine) == TsPosition(t.line - 1, t.charPositionInLine + |TextOf(t)|)
  {
    SingleLineEnd(TextOf(t), t.line - 1, t.charPositionInLine);
  }

  /**
   * `tokensToRange`: from the start token's 0-based position to the end
   * token's `getEndPos`. As written, that loop counts "\r\n" as two line
   * breaks, so the end line is the start line plus every '\r' and '\n'
   * before the last character.
   */
  function TokensToRange(start: Token, end: Token): (r: TsRange)
    ensures r.start == TsPosition(start.line - 1, start.charPositionInLine)
    ensures |TextOf(end)| > 0 ==> r.end.line == end.line - 1 + TerminatorCount(TextOf(end)[..|TextOf(end)| - 1])
  {
    var r := TsRange(TsPosition(start.line - 1, start.charPositionInLine), EndPosAsWritten(TextOf(end), end.line - 1, end.charPositionInLine));
    if |TextOf(end)| > 0 then
      EndPosCountsTerminators(TextOf(end), end.line - 1, end.charPositionInLine);
      r
    else r
  }

  /** The range of a one-line token of length n at line L, column c is (L - 1, c) to (L - 1, c + n). */
  lemma {:induction false} SingleTokenRange(t: Token)
    requires |TextOf(t)| > 0 && forall i :: 0 <= i < |TextOf(t)| ==> !IsLineTerminator(TextOf(t)[i])
    ensures TokensToRange(t, t) == TsRange(TsPosition(t.line - 1, t.charPositionInLine), TsPosition(t.line - 1, t.charPositionInLine + |TextOf(t)|))
  {
    SingleLineEnd(TextOf(t), t.line - 1, t.charPositionInLine);
  }

  /** The range `tokensToRange` evidently means: "\r\n" ends one line, so the end line counts line breaks. */
  function TokensToRangeCorrected(start: Token, end: Token): (r: TsRange)
    ensures r.start == TsPosition(start.line - 1, start.charPositionInLine)
    ensures |TextOf(end)| > 0 ==> r.end.line == end.line - 1 + LineBreaks(TextOf(end)[..|TextOf(end)| - 1])
  {
    var r := TsRange(TsPosition(start.line - 1, start.charPositionInLine), EndPosCorrected(TextOf(end), end.line - 1, end.charPositionInLine));
    if |TextOf(end)| > 0 then
      EndPosCorrectedCountsBreaks(TextOf(end), end.line - 1, end.charPositionInLine);
      r
    else r
  }

  /** Without a carriage return in the end token, the range as written is the intended one. */
  lemma {:induction false} TokensToRangeAgreeWithoutCr(start: Token, end: Token)
    requires forall i :: 0 <= i < |TextOf(end)| ==> TextOf(end)[i] != '\r'
    ensures TokensToRange(start, end) == TokensToRangeCorrected(start, end)
  {
    CorrectedAgreesWithoutCr(TextOf(end), 0, TsPosition(end.line - 1, end.charPositionInLine));
  }

  /** A token "a\r\nb" on line 1 at column 0 ends on 0-based line 2 as written, and on line 1 as intended. */
  lemma CrLfTokenRange()
    ensures var t := Token(1, 0, Some("a\r\nb"));
      TokensToRange(t, t).end.line == 2 && TokensToRangeCorrected(t, t).end.line == 1
  {
    var t := Token(1, 0, Some("a\r\nb"));
    var s := TextOf(t);
    assert s[..|s| - 1] == "a\r\n";
    assert TerminatorCount("a\r\n") == 2 by {
      assert "a\r\n"[..2] == "a\r" && "a\r"[..1] == "a" && "a"[..0] == "";
    }
    CrLfCountsTwice();
  }

  // ---------------------------------------------------------------------
  // Identifier and string text
  // ---------------------------------------------------------------------

  /**
   * `commentNode`: a text starting with '"' loses its first and last
   * characters. On a lone '"', JavaScript's `substring(1, 0)` swaps its
   * arguments and gives the '"' back.
   */
  function StripQuotes(text: string): (r: string)
    ensures !StartsWith(text, "\"") ==> r == text
  {
    if StartsWith(text, "\"") then (if |text| >= 2 then text[1..|text| - 1] else text) else text
  }

  /** A quoted string loses exactly its quotes. */
  lemma QuotedRoundTrip(s: string)
    ensures StripQuotes("\"" + s + "\"") == s
  {
    var q := "\"" + s + "\"";
    assert q[..1] == "\"";
    assert q[1..|q| - 1] == s;
  }

  /** A lone quote is kept. */
  lemma LoneQuoteKept()
    ensures StripQuotes("\"") == "\""
  {
    assert "\""[..1] == "\"";
  }

  // ---------------------------------------------------------------------
  // Source type
  // ---------------------------------------------------------------------

  datatype SourceType = Script | Include | Module

  /** The index just past the last '/' of `path`, or 0. */
  function BaseStart(path: string): (r: nat)
    ensures r <= |path|
    ensures r > 0 ==> path[r - 1] == '/'
    ensures forall k :: r <= k < |path| ==> path[k] != '/'
  {
    if path == [] then 0
    else if path[|path| - 1] == '/' then |path|
    else BaseStart(path[..|path| - 1])
  }

  /** `path` without the run of '/' at its end. */
  function TrimTrailingSlashes(path: string): (r: string)
    ensures |r| <= |path| && r == path[..|r|]
    ensures r == [] || r[|r| - 1] != '/'
    ensures forall k :: |r| <= k < |path| ==> path[k] == '/'
  {
    if path != [] && path[|path| - 1] == '/' then
      var r := TrimTrailingSlashes(path[..|path| - 1]);
      assert path[..|path| - 1][..|r|] == path[..|r|];
      r
    else path
  }

  /**
   * `path.extname`: trailing '/' are passed over; then the last component's
   * text from its last '.', or "" when it has no '.', when its only '.'
   * begins it, or when it is "..".
   */
  function Extname(path: string): (r: string)
    ensures r == [] || r[0] == '.'
  {
    var trimmed := TrimTrailingSlashes(path);
    BaseExtension(trimmed[BaseStart(trimmed)..])
  }

  /** A '/' at the end does not change the extension: "d/a.inc/" has extension ".inc". */
  lemma {:induction false} ExtnameTrailingSlash(path: string)
    ensures Extname(path + "/") == Extname(path)
  {
    var p := path + "/";
    assert p[..|p| - 1] == path;
  }

  /** The extension of a last path component. */
  function BaseExtension(base: string): (r: string)
    ensures r == [] || r[0] == '.'
  {
    var dot := LastIndexWhere(base, c => c == '.');
    if dot.None? || dot.value == 0 || base == ".." then "" else base[dot.value..]
  }

  /** The source type a compilation unit gets from its uri; module units are always modules. */
  function SourceTypeOf(uri: string, moduleUnit: bool): (r: SourceType)
    ensures moduleUnit ==> r == Module
    ensures !moduleUnit ==> (r == Include <==> EndsWith(Lower(Extname(uri)), ".inc"))
    ensures !moduleUnit ==> r != Module
  {
    if moduleUnit then Module
    else if EndsWith(Lower(Extname(uri)), ".inc") then Include
    else Script
  }

  lemma {:induction false} BaseStartAfterSlash(dir: string, rest: string)
    requires forall k :: 0 <= k < |rest| ==> rest[k] != '/'
    ensures BaseStart(dir + "/" + rest) == |dir| + 1
  {
    var path := dir + "/" + rest;
    if rest == [] {
      assert path[|path| - 1] == '/';
    } else {
      assert path[..|path| - 1] == dir + "/" + rest[..|rest| - 1];
      BaseStartAfterSlash(dir, rest[..|rest| - 1]);
    }
  }

  lemma ExtnameAfterSlash(dir: string, base: string)
    requires |base| > 0 && forall k :: 0 <= k < |base| ==> base[k] != '/'
    ensures Extname(dir + "/" + base) == BaseExtension(base)
  {
    assert TrimTrailingSlashes(dir + "/" + base) == dir + "/" + base;
    BaseStartAfterSlash(dir, base);
    assert (dir + "/" + base)[|dir| + 1..] == base;
  }

  lemma IncExtensionChars(ext: string)
    requires Lower(ext) == ".inc"
    ensures |ext| == 4 && ext[0] == '.' && forall k :: 1 <= k < |ext| ==> ext[k] != '/' && ext[k] != '.'
  {
    var l := Lower(ext);
    assert l[0] == '.' && l[1] == 'i' && l[2] == 'n' && l[3] == 'c';
    assert ext[0] == '.' by {
      assert l[0] == ToLowerChar(ext[0]);
    }
    forall k | 1 <= k < |ext|
      ensures ext[k] != '/' && ext[k] != '.'
    {
      assert l[k] == ToLowerChar(ext[k]) && 'a' <= l[k] <= 'z';
    }
  }

  lemma NamedExtension(name: string, ext: string)
    requires |name| > 0 && forall k :: 0 <= k < |name| ==> name[k] != '/' && name[k] != '.'
    requires |ext| == 4 && ext[0] == '.' && forall k :: 1 <= k < |ext| ==> ext[k] != '/' && ext[k] != '.'
    ensures BaseExtension(name + ext) == ext
    ensures forall k :: 0 <= k < |name + ext| ==> (name + ext)[k] != '/'
  {
    var base := name + ext;
    var dot := LastIndexWhere(base, c => c == '.');
    assert base[|name|] == '.';
    assert forall k :: |name| < k < |base| ==> base[k] == ext[k - |name|];
    assert dot == Some(|name|);
    assert base[|name|..] == ext;
  }

  lemma BareExtension(ext: string)
    requires |ext| == 4 && ext[0] == '.' && forall k :: 1 <= k < |ext| ==> ext[k] != '/' && ext[k] != '.'
    ensures BaseExtension(ext) == ""
  {
    assert LastIndexWhere(ext, c => c == '.') == Some(0);
  }

  /** A file named `name.inc`, in any case, is an include file; a file named just ".inc" is not, having no extension. */
  lemma IncludeByExtension(dir: string, name: string, ext: string)
    requires forall k :: 0 <= k < |name| ==> name[k] != '/' && name[k] != '.'
    requires Lower(ext) == ".inc"
    ensures |name| > 0 ==> SourceTypeOf(dir + "/" + name + ext, false) == Include
    ensures SourceTypeOf(dir + "/" + ext, false) == Script
  {
    IncExtensionChars(ext);
    if |name| > 0 {
      NamedInclude(dir, name, ext);
    }
    BareInclude(dir, ext);
  }

  lemma NamedInclude(dir: string, name: string, ext: string)
    requires |name| > 0 && forall k :: 0 <= k < |name| ==> name[k] != '/' && name[k] != '.'
    requires |ext| == 4 && ext[0] == '.' && forall k :: 1 <= k < |ext| ==> ext[k] != '/' && ext[k] != '.'
    requires Lower(ext) == ".inc"
    ensures Extname(dir + "/" + name + ext) == ext
  {
    NamedExtension(name, ext);
    assert dir + "/" + name + ext == dir + "/" + (name + ext);
    ExtnameAfterSlash(dir, name + ext);
  }

  lemma BareInclude(dir: string, ext: string)
    requires |ext| == 4 && ext[0] == '.' && forall k :: 1 <= k < |ext| ==> ext[k] != '/' && ext[k] != '.'
    ensures Extname(dir + "/" + ext) == ""
  {
    BareExtension(ext);
    ExtnameAfterSlash(dir, ext);
  }

  /** "dir/name.inc/", in any case, is an include: the trailing '/' is passed over. */
  lemma TrailingSlashInclude(dir: string, name: string, ext: string)
    requires |name| > 0 && forall k :: 0 <= k < |name| ==> name[k] != '/' && name[k] != '.'
    requires Lower(ext) == ".inc"
    ensures Extname(dir + "/" + name + ext + "/") == ext
    ensures SourceTypeOf(dir + "/" + name + ext + "/", false) == Include
  {
    IncExtensionChars(ext);
    NamedInclude(dir, name, ext);
    ExtnameTrailingSlash(dir + "/" + name + ext);
  }

  // ---------------------------------------------------------------------
  // Comma-separated lists
  // ---------------------------------------------------------------------

  /** The children of an expression or argument list: an item, or a comma token with its range. */
  datatype ListChild<T> = ItemChild(item: T) | CommaChild(range: TsRange)

  /** A built list element: an item, or the invalid placeholder standing where an item is missing. */
  datatype ListItem<T> = Item(item: T) | Placeholder(range: TsRange)

  /** Whether an item is expected at `i`: at the end, or before a comma. */
  predicate ExpectsItem<T>(cs: seq<ListChild<T>>, i: nat)
    requires i <= |cs|
  {
    i == |cs| || cs[i].CommaChild?
  }

  /** The elements the children from `i` on contribute: every item, and a placeholder for each comma with no item after it. */
  function ItemsFrom<T>(cs: seq<ListChild<T>>, i: nat): seq<ListItem<T>>
    requires i <= |cs|
    decreases |cs| - i
  {
    if i == |cs| then []
    else if cs[i].ItemChild? then [Item(cs[i].item)] + ItemsFrom(cs, i + 1)
    else if ExpectsItem(cs, i + 1) then [Placeholder(cs[i].range)] + ItemsFrom(cs, i + 1)
    else ItemsFrom(cs, i + 1)
  }

  /**
   * `visitExpressionList` and `visitMethodCallArgumentList`: the children
   * are scanned from the last, each item is put in front, and a comma found
   * while an item is still expected puts a placeholder in front.
   */
  method ScanList<T>(cs: seq<ListChild<T>>) returns (items: seq<ListItem<T>>)
    ensures items == ItemsFrom(cs, 0)
  {
    items := [];
    var expectExpr := true;
    var i := |cs|;
    while i > 0
      invariant 0 <= i <= |cs|
      invariant items == ItemsFrom(cs, i)
      invariant expectExpr == ExpectsItem(cs, i)
    {
      i := i - 1;
      var child := cs[i];
      if child.ItemChild? {
        items := [Item(child.item)] + items;
        expectExpr := false;
      } else if expectExpr {
        items := [Placeholder(child.range)] + items;
      } else {
        expectExpr := true;
      }
    }
  }

  function ItemsOf<T>(cs: seq<ListChild<T>>): seq<T>
  {
    if cs == [] then [] else (if cs[0].ItemChild? then [cs[0].item] else []) + ItemsOf(cs[1..])
  }

  function Present<T>(xs: seq<ListItem<T>>): seq<T>
  {
    if xs == [] then [] else (if xs[0].Item? then [xs[0].item] else []) + Present(xs[1..])
  }

  lemma {:induction false} PresentAppend<T>(a: seq<ListItem<T>>, b: seq<ListItem<T>>)
    ensures Present(a + b) == Present(a) + Present(b)
  {
    if a != [] {
      var h: seq<T> := if a[0].Item? then [a[0].item] else [];
      assert (a + b)[0] == a[0];
      assert (a + b)[1..] == a[1..] + b;
      PresentAppend(a[1..], b);
      assert Present(a + b) == h + Present(a[1..] + b);
      assert Present(a) == h + Present(a[1..]);
      assert h + (Present(a[1..]) + Present(b)) == (h + Present(a[1..])) + Present(b);
    } else {
      assert a + b == b;
    }
  }

  /** Every item of the list is kept, in order; the placeholders are all that is added. */
  lemma {:induction false} ItemsKept<T>(cs: seq<ListChild<T>>, i: nat)
    requires i <= |cs|
    ensures Present(ItemsFrom(cs, i)) == ItemsOf(cs[i..])
    decreases |cs| - i
  {
    if i < |cs| {
      ItemsKept(cs, i + 1);
      assert cs[i..][0] == cs[i] && cs[i..][1..] == cs[i + 1..];
      var head: seq<ListItem<T>> := if cs[i].ItemChild? then [Item(cs[i].item)] else if ExpectsItem(cs, i + 1) then [Placeholder(cs[i].range)] else [];
      assert ItemsFrom(cs, i) == head + ItemsFrom(cs, i + 1);
      PresentAppend(head, ItemsFrom(cs, i + 1));
    }
  }

  /** "a," gives [a, placeholder]; "a, b" gives [a, b]. */
  lemma TrailingCommaPlaceholder<T>(a: T, b: T, comma: TsRange)
    ensures ItemsFrom([ItemChild(a), CommaChild(comma)], 0) == [Item(a), Placeholder(comma)]
    ensures ItemsFrom([ItemChild(a), CommaChild(comma), ItemChild(b)], 0) == [Item(a), Item(b)]
  {
    var cs: seq<ListChild<T>> := [ItemChild(a), CommaChild(comma)];
    assert ItemsFrom(cs, 2) == [];
    assert ItemsFrom(cs, 1) == [Placeholder(comma)];
    var ds: seq<ListChild<T>> := [ItemChild(a), CommaChild(comma), ItemChild(b)];
    assert ItemsFrom(ds, 3) == [];
    assert ItemsFrom(ds, 2) == [Item(b)];
    assert ItemsFrom(ds, 1) == [Item(b)];
  }

  // ---------------------------------------------------------------------
  // Assignments
  // ---------------------------------------------------------------------

  datatype Expression =
    | Identifier(name: string)
    | MemberExpression(object: Expression, property: string)
    | BinaryExpression(operator: string, left: Expression, right: Expression)
    | OtherExpression(kind: string, operands: seq<Expression>)

  datatype Statement =
    | AssignStatement(operator: string, left: Expression, right: Expression)
    | ExpressionStatement(expression: Expression, terminated: bool)

  /** Whether an expression is one `visitStatement` turns into an assignment. */
  predicate IsAssignment(e: Expression)
  {
    e.BinaryExpression? && e.operator == ":=" && (e.left.Identifier? || e.left.MemberExpression?)
  }

  /** The statement an expression statement becomes: an assignment to a name or member, else the expression itself. */
  function LowerStatement(e: Expression): (s: Statement)
    ensures s.AssignStatement? <==> IsAssignment(e)
    ensures s.ExpressionStatement? ==> s.terminated
  {
    if e.BinaryExpression? && e.operator == ":=" && (e.left.Identifier? || e.left.MemberExpression?) then
      AssignStatement(e.operator, e.left, e.right)
    else ExpressionStatement(e, true)
  }

  /** The expression a statement stands for. */
  function StatementExpression(s: Statement): Expression
  {
    match s
    case AssignStatement(op, l, r) => BinaryExpression(op, l, r)
    case ExpressionStatement(e, _) => e
  }

  /** Lowering loses nothing: the statement gives its expression back. */
  lemma LoweringRoundTrip(e: Expression)
    ensures StatementExpression(LowerStatement(e)) == e
  {
  }

  /** An assignment to anything other than a name or member stays an expression statement. */
  lemma OtherTargetsNotLowered(e: Expression)
    requires e.BinaryExpression? && e.operator == ":=" && !e.left.Identifier? && !e.left.MemberExpression?
    ensures LowerStatement(e) == ExpressionStatement(e, true)
  {
  }

  // ---------------------------------------------------------------------
  // if / elseif / else
  // ---------------------------------------------------------------------

  datatype IfStatement<E, B> = IfStatement(test: E, consequent: B, alternate: Alternate<E, B>)
  datatype Alternate<E, B> = NoAlternate | ElseIf(branch: IfStatement<E, B>) | Else(block: B)

  /**
   * `visitIfStatement`: the first test and block make the root; each
   * `elseif` becomes the alternate of the one before; the `else` block, if
   * any, becomes the alternate of the last.
   */
  function IfChain<E, B>(tests: seq<E>, blocks: seq<B>, elseBlock: Option<B>): (r: IfStatement<E, B>)
    requires |tests| >= 1 && |blocks| == |tests|
    ensures r.test == tests[0] && r.consequent == blocks[0]
    ensures |tests| > 1 ==> r.alternate.ElseIf?
    decreases |tests|
  {
    IfStatement(tests[0], blocks[0],
      if |tests| == 1 then (if elseBlock.Some? then Else(elseBlock.value) else NoAlternate)
      else ElseIf(IfChain(tests[1..], blocks[1..], elseBlock)))
  }

  /** The tests along the chain of alternates. */
  function Tests<E, B>(s: IfStatement<E, B>): seq<E>
  {
    [s.test] + (if s.alternate.ElseIf? then Tests(s.alternate.branch) else [])
  }

  function Blocks<E, B>(s: IfStatement<E, B>): seq<B>
  {
    [s.consequent] + (if s.alternate.ElseIf? then Blocks(s.alternate.branch) else [])
  }

  /** The block the chain ends in, if it ends in an `else`. */
  function FinalElse<E, B>(s: IfStatement<E, B>): Option<B>
  {
    match s.alternate
    case NoAlternate => None
    case ElseIf(b) => FinalElse(b)
    case Else(b) => Some(b)
  }

  /** The chain gives back its tests and blocks in source order, and the `else` block at its end. */
  lemma IfChainFlattens<E, B>(tests: seq<E>, blocks: seq<B>, elseBlock: Option<B>)
    requires |tests| >= 1 && |blocks| == |tests|
    ensures Tests(IfChain(tests, blocks, elseBlock)) == tests
    ensures Blocks(IfChain(tests, blocks, elseBlock)) == blocks
    ensures FinalElse(IfChain(tests, blocks, elseBlock)) == elseBlock
  {
    ChainTests(tests, blocks, elseBlock);
    ChainBlocks(tests, blocks, elseBlock);
    ChainElse(tests, blocks, elseBlock);
  }

  lemma {:induction false} ChainTests<E, B>(tests: seq<E>, blocks: seq<B>, elseBlock: Option<B>)
    requires |tests| >= 1 && |blocks| == |tests|
    ensures Tests(IfChain(tests, blocks, elseBlock)) == tests
    decreases |tests|
  {
    var c := IfChain(tests, blocks, elseBlock);
    if |tests| > 1 {
      var t := IfChain(tests[1..], blocks[1..], elseBlock);
      assert c.alternate == ElseIf(t);
      ChainTests(tests[1..], blocks[1..], elseBlock);
      assert Tests(c) == [tests[0]] + tests[1..];
    } else {
      assert [tests[0]] == tests;
    }
  }

  lemma {:induction false} ChainBlocks<E, B>(tests: seq<E>, blocks: seq<B>, elseBlock: Option<B>)
    requires |tests| >= 1 && |blocks| == |tests|
    ensures Blocks(IfChain(tests, blocks, elseBlock)) == blocks
    decreases |tests|
  {
    var c := IfChain(tests, blocks, elseBlock);
    if |tests| > 1 {
      var t := IfChain(tests[1..], blocks[1..], elseBlock);
      assert c.alternate == ElseIf(t);
      ChainBlocks(tests[1..], blocks[1..], elseBlock);
      assert Blocks(c) == [blocks[0]] + blocks[1..];
    } else {
      assert [blocks[0]] == blocks;
    }
  }

  lemma {:induction false} ChainElse<E, B>(tests: seq<E>, blocks: seq<B>, elseBlock: Option<B>)
    requires |tests| >= 1 && |blocks| == |tests|
    ensures FinalElse(IfChain(tests, blocks, elseBlock)) == elseBlock
    decreases |tests|
  {
    if |tests| > 1 {
      ChainElse(tests[1..], blocks[1..], elseBlock);
    }
  }

  /** The statement for the parsed parts: the blocks are the `then` block, one per `elseif`, and the `else` block last. */
  function IfStatementOf<E, B>(tests: seq<E>, blocks: seq<B>, hasElse: bool): (r: IfStatement<E, B>)
    requires |tests| >= 1 && |blocks| == |tests| + (if hasElse then 1 else 0)
    ensures Tests(r) == tests
    ensures hasElse ==> Blocks(r) == blocks[..|tests|] && FinalElse(r) == Some(blocks[|blocks| - 1])
    ensures !hasElse ==> Blocks(r) == blocks && FinalElse(r).None?
  {
    var elseBlock := if hasElse then Some(blocks[|blocks| - 1]) else None;
    IfChainFlattens(tests, blocks[..|tests|], elseBlock);
    assert !hasElse ==> blocks[..|tests|] == blocks;
    IfChain(tests, blocks[..|tests|], elseBlock)
  }
}
