/**
 * `JsonAstBuilder`: the parse tree as a JSON value for the formatter. Every
 * token gets a character offset span; tokens are laid end to end, so the
 * spans are contiguous. Nodes carry their range and the offset span of their
 * first and last tokens. Rule results are folded with `aggregateResult`,
 * which flattens array results one level; an if/elseif/else statement is
 * folded from its last condition to its first into nested if nodes.
 */
module JsonAst {
  import opened Common
  import opened CompilerModel

  /** A JSON value as the builder produces it; a node is an object with a type, range and offsets. */
  datatype Json =
    | JNull
    | JBool(b: bool)
    | JString(s: string)
    | JArray(items: seq<Json>)
    | JNode(nodeType: string, range: Range, startIndex: nat, endIndex: nat, fields: seq<Field>)

  datatype Field = Field(key: string, value: Json)

  /** `to_value` of an `antlrcpp::Any`: an empty one becomes null. */
  function ToValue(a: Option<Json>): (v: Json)
    ensures a.None? ==> v == JNull
    ensures a.Some? ==> v == a.value
  {
    if a.Some? then a.value else JNull
  }

  /** The value stored under `key` in a node, the first such field. */
  function FieldValue(j: Json, key: string): (r: Option<Json>)
    ensures r.Some? ==> j.JNode? && exists i :: 0 <= i < |j.fields| && j.fields[i] == Field(key, r.value)
  {
    if j.JNode? then Lookup(j.fields, key) else None
  }

  function Lookup(fs: seq<Field>, key: string): (r: Option<Json>)
    ensures r.Some? ==> exists i :: 0 <= i < |fs| && fs[i] == Field(key, r.value)
    ensures r.None? ==> forall i :: 0 <= i < |fs| ==> fs[i].key != key
  {
    LookupFrom(fs, key, 0)
  }

  function LookupFrom(fs: seq<Field>, key: string, from: nat): (r: Option<Json>)
    ensures r.Some? ==> exists i :: from <= i < |fs| && fs[i] == Field(key, r.value)
    ensures r.None? ==> forall i :: from <= i < |fs| ==> fs[i].key != key
    decreases |fs| - from
  {
    if from >= |fs| then None
    else if fs[from].key == key then Some(fs[from].value)
    else LookupFrom(fs, key, from + 1)
  }

  /** A node with two fields finds each under its own key. */
  lemma TwoFields(j: Json)
    requires j.JNode? && |j.fields| == 2 && j.fields[0].key != j.fields[1].key
    ensures FieldValue(j, j.fields[0].key) == Some(j.fields[0].value)
    ensures FieldValue(j, j.fields[1].key) == Some(j.fields[1].value)
  {
    assert LookupFrom(j.fields, j.fields[1].key, 1) == Some(j.fields[1].value);
  }

  /** A node with four distinctly keyed fields finds each under its own key. */
  lemma FourFields(j: Json)
    requires j.JNode? && |j.fields| == 4
    requires forall a, b :: 0 <= a < b < 4 ==> j.fields[a].key != j.fields[b].key
    ensures forall a :: 0 <= a < 4 ==> FieldValue(j, j.fields[a].key) == Some(j.fields[a].value)
  {
    var fs := j.fields;
    assert LookupFrom(fs, fs[3].key, 3) == Some(fs[3].value);
    assert LookupFrom(fs, fs[2].key, 2) == Some(fs[2].value);
    assert LookupFrom(fs, fs[1].key, 1) == Some(fs[1].value);
    assert LookupFrom(fs, fs[3].key, 2) == Some(fs[3].value);
    assert LookupFrom(fs, fs[2].key, 1) == Some(fs[2].value);
    assert LookupFrom(fs, fs[3].key, 1) == Some(fs[3].value);
  }

  // ---------------------------------------------------------------------
  // Compilation errors
  // ---------------------------------------------------------------------

  datatype AstDiagnostic = AstDiagnostic(isError: bool, message: string)

  /** `throw_if_error`: with errors reported, the first error's message, or "Unknown error" when none is an error. */
  function ThrowIfError(errorCount: nat, diagnostics: seq<AstDiagnostic>): (r: Result<()>)
    ensures r.Success? <==> errorCount == 0
    ensures errorCount > 0 && (forall i :: 0 <= i < |diagnostics| ==> !diagnostics[i].isError) ==> r == Failure("Unknown error")
    ensures errorCount > 0 && |diagnostics| > 0 && diagnostics[0].isError ==> r == Failure("Compilation error: " + diagnostics[0].message)
  {
    if errorCount == 0 then Success(())
    else FirstError(diagnostics)
  }

  function FirstError(ds: seq<AstDiagnostic>): (r: Result<()>)
    ensures r.Failure?
    ensures r.error == "Unknown error" || exists i :: 0 <= i < |ds| && ds[i].isError && r.error == "Compilation error: " + ds[i].message
  {
    if ds == [] then Failure("Unknown error")
    else if ds[0].isError then Failure("Compilation error: " + ds[0].message)
    else
      var r := FirstError(ds[1..]);
      assert forall i :: 0 <= i < |ds| - 1 ==> ds[1..][i] == ds[i + 1];
      r
  }

  /** The message is that of the earliest error diagnostic. */
  lemma {:induction false} EarliestErrorReported(ds: seq<AstDiagnostic>, k: nat)
    requires k < |ds| && ds[k].isError
    requires forall i :: 0 <= i < k ==> !ds[i].isError
    ensures FirstError(ds) == Failure("Compilation error: " + ds[k].message)
  {
    if k > 0 {
      assert ds[1..][k - 1] == ds[k];
      EarliestErrorReported(ds[1..], k - 1);
    }
  }

  // ---------------------------------------------------------------------
  // Token offsets
  // ---------------------------------------------------------------------

  datatype LexType = EofType | CommentType | LineCommentType | OtherType

  /** A token of `get_all_tokens`; its position in that list identifies it. */
  datatype LexToken = LexToken(lexType: LexType, text: string)

  /** The characters a token advances the offset by: its text, or nothing for EOF. */
  function TokenLength(t: LexToken): nat
  {
    if t.lexType == EofType then 0 else |t.text|
  }

  /** The offset at which token `i` starts: the lengths of the tokens before it. */
  function OffsetBefore(tokens: seq<LexToken>, i: nat): nat
    requires i <= |tokens|
  {
    if i == 0 then 0 else OffsetBefore(tokens, i - 1) + TokenLength(tokens[i - 1])
  }

  /** `position_map` after the first `i` tokens. */
  function PositionsUpTo(tokens: seq<LexToken>, i: nat): (m: map<nat, (nat, nat)>)
    requires i <= |tokens|
    ensures forall j: nat :: j in m <==> j < i
  {
    map j | 0 <= j < i :: Span(tokens, j)
  }

  /** The span of token `j`: from the offset before it to the offset after it. */
  function Span(tokens: seq<LexToken>, j: nat): (nat, nat)
    requires j < |tokens|
  {
    (OffsetBefore(tokens, j), OffsetBefore(tokens, j + 1))
  }

  lemma PositionsStep(tokens: seq<LexToken>, i: nat)
    requires i < |tokens|
    ensures PositionsUpTo(tokens, i + 1) == PositionsUpTo(tokens, i)[i := Span(tokens, i)]
  {
  }

  /** The spans start at 0, each has the token's length, and each starts where the previous one ends. */
  lemma OffsetsContiguous(tokens: seq<LexToken>)
    ensures var m := PositionsUpTo(tokens, |tokens|);
      (|tokens| > 0 ==> m[0].0 == 0) &&
      (forall j :: 0 <= j < |tokens| ==> m[j].1 - m[j].0 == TokenLength(tokens[j])) &&
      (forall j :: 0 < j < |tokens| ==> m[j].0 == m[j - 1].1)
  {
  }

  /** No span is out of order, and every span lies before the total text length. */
  lemma {:induction false} OffsetsBounded(tokens: seq<LexToken>, j: nat)
    requires j < |tokens|
    ensures OffsetBefore(tokens, j) <= OffsetBefore(tokens, j + 1) <= OffsetBefore(tokens, |tokens|)
    decreases |tokens| - j
  {
    if j + 1 < |tokens| {
      OffsetsBounded(tokens, j + 1);
    }
  }

  /** The comment node of a `COMMENT` or `LINE_COMMENT` token, with its text as value and text. */
  function CommentNode(t: LexToken, index: nat, span: (nat, nat), tokenRange: nat -> Range): Json
  {
    JNode(if t.lexType == CommentType then "comment" else "line-comment", tokenRange(index), span.0, span.1,
          [Field("value", JString(t.text)), Field("text", JString(t.text))])
  }

  function IsComment(t: LexToken): bool
  {
    t.lexType == CommentType || t.lexType == LineCommentType
  }

  /** The `comments` array after the first `i` tokens: the comment tokens among them, in order. */
  function CommentsUpTo(tokens: seq<LexToken>, i: nat, tokenRange: nat -> Range): (cs: seq<Json>)
    requires i <= |tokens|
    ensures |cs| <= i
  {
    if i == 0 then []
    else
      var before := CommentsUpTo(tokens, i - 1, tokenRange);
      if IsComment(tokens[i - 1]) then
        before + [CommentNode(tokens[i - 1], i - 1, (OffsetBefore(tokens, i - 1), OffsetBefore(tokens, i)), tokenRange)]
      else before
  }

  /** Tokens that are not comments add no comment node. */
  lemma {:induction false} NoCommentsWithoutCommentTokens(tokens: seq<LexToken>, i: nat, tokenRange: nat -> Range)
    requires i <= |tokens|
    requires forall j :: 0 <= j < i ==> !IsComment(tokens[j])
    ensures CommentsUpTo(tokens, i, tokenRange) == []
  {
    if i > 0 {
      NoCommentsWithoutCommentTokens(tokens, i - 1, tokenRange);
    }
  }

  // ---------------------------------------------------------------------
  // Aggregation
  // ---------------------------------------------------------------------

  /** `aggregateResult`: an array accumulator takes the elements of an array result, or the result itself; anything else is kept as is. */
  function Aggregate(accum: Json, next: Json): (r: Json)
    ensures !accum.JArray? ==> r == accum
    ensures accum.JArray? && next.JArray? ==> r == JArray(accum.items + next.items)
    ensures accum.JArray? && !next.JArray? ==> r == JArray(accum.items + [next])
  {
    if !accum.JArray? then accum
    else if next.JArray? then JArray(accum.items + next.items)
    else JArray(accum.items + [next])
  }

  /** What one child result contributes to the flattened array. */
  function Contribution(x: Json): seq<Json>
  {
    if x.JArray? then x.items else [x]
  }

  /** The one-level flattening of a sequence of results. */
  function Flatten(results: seq<Json>): seq<Json>
  {
    if results == [] then [] else Flatten(results[..|results| - 1]) + Contribution(results[|results| - 1])
  }

  /** ANTLR's `visitChildren`: `defaultResult()` folded with `aggregateResult` over the child results. */
  function FoldResults(accum: Json, results: seq<Json>): Json
  {
    if results == [] then accum else Aggregate(FoldResults(accum, results[..|results| - 1]), results[|results| - 1])
  }

  /** Folding from the empty array gives the one-level flattening of the results. */
  lemma {:induction false} VisitChildrenFlattens(results: seq<Json>)
    ensures FoldResults(JArray([]), results) == JArray(Flatten(results))
  {
    if results != [] {
      VisitChildrenFlattens(results[..|results| - 1]);
    }
  }

  /** Results nested two levels deep stay nested: only one level is flattened. */
  lemma OneLevelOnly(inner: Json)
    ensures Flatten([JArray([JArray([inner])])]) == [JArray([inner])]
  {
    assert [JArray([JArray([inner])])][..0] == [];
  }

  // ---------------------------------------------------------------------
  // Literal builders
  // ---------------------------------------------------------------------

  /** A terminal node: the token's index in `get_all_tokens` and its text. */
  datatype Terminal = Terminal(index: nat, text: string)

  /** `text.substr(1, text.length() - 2)` with `size_t`: out of range on "", empty for a single character. */
  function StringLiteralValue(text: string): (r: Result<string>)
    ensures r.Success? <==> |text| > 0
    ensures |text| >= 2 ==> r == Success(text[1..|text| - 1])
  {
    if |text| == 0 then Failure("out_of_range")
    else if |text| == 1 then Success("")
    else Success(text[1..|text| - 1])
  }

  /** Stripping the quotes recovers what was quoted. */
  lemma StringLiteralUnquotes(v: string)
    ensures StringLiteralValue("\"" + v + "\"") == Success(v)
  {
    var t := "\"" + v + "\"";
    assert t[1..|t| - 1] == v;
  }

  datatype Ctx = Ctx(startToken: nat, stopToken: nat, range: Range)

  class JsonAstBuilder {
    /** `Range(token)` of the compiler, by token index. */
    const tokenRange: nat -> Range
    /** Token index to its (start, end) character offsets. */
    var positionMap: map<nat, (nat, nat)>

    constructor (tokenRange: nat -> Range)
      ensures this.tokenRange == tokenRange && positionMap == map[]
    {
      this.tokenRange := tokenRange;
      positionMap := map[];
    }

    /** The token loop of `get_ast`: each token's span goes into `position_map`, and each comment token into `comments`. */
    method IndexTokens(tokens: seq<LexToken>) returns (comments: seq<Json>)
      requires positionMap == map[]
      modifies this`positionMap
      ensures positionMap == PositionsUpTo(tokens, |tokens|)
      ensures comments == CommentsUpTo(tokens, |tokens|, tokenRange)
    {
      var start := 0;
      var end := 0;
      comments := [];
      var i := 0;
      while i < |tokens|
        invariant 0 <= i <= |tokens|
        invariant start == end == OffsetBefore(tokens, i)
        invariant positionMap == PositionsUpTo(tokens, i)
        invariant comments == CommentsUpTo(tokens, i, tokenRange)
      {
        var tok := tokens[i];
        end := end + (if tok.lexType == EofType then 0 else |tok.text|);
        PositionsStep(tokens, i);
        positionMap := positionMap[i := (start, end)];
        if tok.lexType == CommentType || tok.lexType == LineCommentType {
          comments := comments + [CommentNode(tok, i, (start, end), tokenRange)];
        }
        start := end;
        i := i + 1;
      }
    }

    /** `position(token)`: its span, or the error a missing token raises. */
    function TokenPosition(index: nat): (r: Result<(nat, nat)>)
      reads this
      ensures r.Success? <==> index in positionMap
      ensures r.Success? ==> r.value == positionMap[index]
    {
      if index in positionMap then Success(positionMap[index]) else Failure("No position antlr4::Token* token")
    }

    /** `position(ctx)`: from the start of its first token to the end of its last. */
    function CtxPosition(ctx: Ctx): (r: Result<(nat, nat)>)
      reads this
      ensures r.Success? <==> ctx.startToken in positionMap && ctx.stopToken in positionMap
      ensures r.Success? ==> r.value == (positionMap[ctx.startToken].0, positionMap[ctx.stopToken].1)
    {
      if ctx.startToken !in positionMap then Failure("No position antlr4::ParserRuleContext* start")
      else if ctx.stopToken !in positionMap then Failure("No position antlr4::ParserRuleContext* stop")
      else Success((positionMap[ctx.startToken].0, positionMap[ctx.stopToken].1))
    }

    /** `new_node(ctx, type, ...)`. */
    function NewNode(ctx: Ctx, nodeType: string, fields: seq<Field>): (r: Result<Json>)
      reads this
      ensures r.Success? <==> CtxPosition(ctx).Success?
      ensures r.Success? ==> (r.value.JNode? && r.value.nodeType == nodeType && r.value.fields == fields &&
        r.value.range == ctx.range && (r.value.startIndex, r.value.endIndex) == CtxPosition(ctx).value)
    {
      match CtxPosition(ctx)
      case Failure(e) => Failure(e)
      case Success(p) => Success(JNode(nodeType, ctx.range, p.0, p.1, fields))
    }

    /** `new_node(terminal, type, ...)`. */
    function NewTerminalNode(t: Terminal, nodeType: string, fields: seq<Field>): (r: Result<Json>)
      reads this
      ensures r.Success? <==> t.index in positionMap
      ensures r.Success? ==> r.value == JNode(nodeType, tokenRange(t.index), positionMap[t.index].0, positionMap[t.index].1, fields)
    {
      match TokenPosition(t.index)
      case Failure(e) => Failure(e)
      case Success(p) => Success(JNode(nodeType, tokenRange(t.index), p.0, p.1, fields))
    }

    /** `make_identifier`: an "identifier" node whose id is the terminal's text. */
    function MakeIdentifier(t: Terminal): (r: Result<Json>)
      reads this
      ensures r.Success? ==> r.value.JNode? && r.value.nodeType == "identifier" && FieldValue(r.value, "id") == Some(JString(t.text))
    {
      NewTerminalNode(t, "identifier", [Field("id", JString(t.text))])
    }

    /** `make_statement_label`: no label gives an empty result; a label gives its identifier node. */
    function MakeStatementLabel(statementLabel: Option<Terminal>): (r: Result<Option<Json>>)
      reads this
      ensures statementLabel.None? ==> r == Success(None)
      ensures statementLabel.Some? && r.Success? ==> r.value.Some? && FieldValue(r.value.value, "id") == Some(JString(statementLabel.value.text))
    {
      if statementLabel.None? then Success(None)
      else
        match MakeIdentifier(statementLabel.value)
        case Failure(e) => Failure(e)
        case Success(j) => Success(Some(j))
    }

    /** `make_string_literal(terminal)`: the text without its first and last character as value; the text itself as raw. */
    function MakeStringLiteral(t: Terminal): (r: Result<Json>)
      reads this
      ensures r.Success? ==> r.value.JNode? && r.value.nodeType == "string-literal" && FieldValue(r.value, "raw") == Some(JString(t.text))
      ensures r.Success? && |t.text| >= 2 ==> FieldValue(r.value, "value") == Some(JString(t.text[1..|t.text| - 1]))
    {
      match StringLiteralValue(t.text)
      case Failure(e) => Failure(e)
      case Success(v) =>
        var r := NewTerminalNode(t, "string-literal", [Field("value", JString(v)), Field("raw", JString(t.text))]);
        if r.Success? then TwoFields(r.value); r else r
    }

    /** `make_string_literal(terminal, text)`: value and raw are both the given text. */
    function MakeStringValue(t: Terminal, text: string): (r: Result<Json>)
      reads this
      ensures r.Success? ==> (r.value.JNode? && r.value.nodeType == "string-value" &&
        FieldValue(r.value, "value") == Some(JString(text)) && FieldValue(r.value, "raw") == Some(JString(text)))
    {
      var r := NewTerminalNode(t, "string-value", [Field("value", JString(text)), Field("raw", JString(text))]);
      if r.Success? then TwoFields(r.value); r else r
    }

    /** `make_bool_literal`: true exactly for a `BOOL_TRUE` token. */
    function MakeBoolLiteral(t: Terminal, isBoolTrue: bool): (r: Result<Json>)
      reads this
      ensures r.Success? ==> FieldValue(r.value, "value") == Some(JBool(isBoolTrue)) && FieldValue(r.value, "raw") == Some(JString(t.text))
    {
      var r := NewTerminalNode(t, "boolean-literal", [Field("value", JBool(isBoolTrue)), Field("raw", JString(t.text))]);
      if r.Success? then TwoFields(r.value); r else r
    }

    /** `visitDictInitializerExpression`: the key is the first expression; a value only when a second is present. */
    function DictInitializer(ctx: Ctx, expressions: seq<Json>): (r: Result<Json>)
      requires |expressions| >= 1
      reads this
      ensures r.Success? ==> FieldValue(r.value, "key") == Some(expressions[0])
      ensures r.Success? ==> FieldValue(r.value, "value") == Some(if |expressions| > 1 then expressions[1] else JNull)
    {
      var init := if |expressions| > 1 then Some(expressions[1]) else None;
      var r := NewNode(ctx, "dictionary-initializer", [Field("key", expressions[0]), Field("value", ToValue(init))]);
      if r.Success? then TwoFields(r.value); r else r
    }

    /** `aggregateResult`, pushing the elements of an array result one at a time. */
    method AggregateResult(accum: Json, next: Json) returns (r: Json)
      ensures r == Aggregate(accum, next)
    {
      r := accum;
      if accum.JArray? {
        if next.JArray? {
          var items := accum.items;
          var i := 0;
          while i < |next.items|
            invariant 0 <= i <= |next.items|
            invariant items == accum.items + next.items[..i]
          {
            items := items + [next.items[i]];
            i := i + 1;
          }
          assert next.items[..i] == next.items;
          r := JArray(items);
        } else {
          r := JArray(accum.items + [next]);
        }
      }
    }

    /** `visitIfStatement`: the conditions folded from the last to the first, each if node the alternative of the one before. */
    method VisitIfStatement(ctx: Ctx, tests: seq<Json>, blocks: seq<Json>, hasElse: bool) returns (r: Result<Option<Json>>)
      requires hasElse ==> |blocks| > 0
      ensures |tests| == 0 ==> r == Success(None)
      ensures |tests| > 0 && CtxPosition(ctx).Failure? ==> r.Failure?
      ensures |tests| > 0 && CtxPosition(ctx).Success? ==>
        r == Success(Some(IfFrom(ctx, CtxPosition(ctx).value, tests, blocks, ElseClause(blocks, hasElse), 0)))
    {
      var elseClause := if hasElse then Some(blocks[|blocks| - 1]) else None;
      if |tests| == 0 {
        return Success(None);
      }
      var pos := CtxPosition(ctx);
      if pos.Failure? {
        return Failure(pos.error);
      }
      var ast: Option<Json> := None;
      var clause := |tests|;
      while clause != 0
        invariant 0 <= clause <= |tests|
        invariant clause == |tests| ==> ast.None?
        invariant clause < |tests| ==> ast == Some(IfFrom(ctx, pos.value, tests, blocks, elseClause, clause))
      {
        clause := clause - 1;
        var consequent := if |blocks| > clause then Some(blocks[clause]) else None;
        var alternative := if ast.None? then elseClause else ast;
        ast := Some(IfNode(ctx, pos.value, tests[clause], consequent, alternative, clause != 0));
      }
      r := Success(ast);
    }
  }

  function ElseClause(blocks: seq<Json>, hasElse: bool): Option<Json>
    requires hasElse ==> |blocks| > 0
  {
    if hasElse then Some(blocks[|blocks| - 1]) else None
  }

  function IfNode(ctx: Ctx, pos: (nat, nat), test: Json, consequent: Option<Json>, alternative: Option<Json>, elseif: bool): Json
  {
    JNode("if-statement", ctx.range, pos.0, pos.1,
          [Field("test", test), Field("consequent", ToValue(consequent)), Field("alternative", ToValue(alternative)), Field("elseif", JBool(elseif))])
  }

  /** The if node for condition `k`: its block as consequent, the node for `k + 1` (or the else block) as alternative. */
  function IfFrom(ctx: Ctx, pos: (nat, nat), tests: seq<Json>, blocks: seq<Json>, elseClause: Option<Json>, k: nat): Json
    requires k < |tests|
    decreases |tests| - k
  {
    var consequent := if |blocks| > k then Some(blocks[k]) else None;
    var alternative := if k + 1 < |tests| then Some(IfFrom(ctx, pos, tests, blocks, elseClause, k + 1)) else elseClause;
    IfNode(ctx, pos, tests[k], consequent, alternative, k != 0)
  }

  /** Each node tests its own condition; only the outermost has elseif false; the innermost's alternative is the else block or null. */
  lemma IfChainShape(ctx: Ctx, pos: (nat, nat), tests: seq<Json>, blocks: seq<Json>, elseClause: Option<Json>, k: nat)
    requires k < |tests|
    ensures var node := IfFrom(ctx, pos, tests, blocks, elseClause, k);
      FieldValue(node, "test") == Some(tests[k]) &&
      FieldValue(node, "consequent") == Some(if k < |blocks| then blocks[k] else JNull) &&
      FieldValue(node, "elseif") == Some(JBool(k != 0)) &&
      FieldValue(node, "alternative") == Some(if k + 1 < |tests| then IfFrom(ctx, pos, tests, blocks, elseClause, k + 1) else ToValue(elseClause))
  {
    var node := IfFrom(ctx, pos, tests, blocks, elseClause, k);
    FourFields(node);
    assert node.fields[0].key == "test" && node.fields[1].key == "consequent" && node.fields[2].key == "alternative" && node.fields[3].key == "elseif";
  }

  /** The number of if nodes along the alternative chain. */
  function IfDepth(j: Json): nat
  {
    if j.JNode? && j.nodeType == "if-statement" && |j.fields| == 4 && j.fields[2].key == "alternative" then
      assert j.fields[2] in j.fields;
      1 + IfDepth(j.fields[2].value)
    else 0
  }

  /** n conditions give exactly n nested if nodes (when the else block is not itself an if node). */
  lemma {:induction false} IfChainDepth(ctx: Ctx, pos: (nat, nat), tests: seq<Json>, blocks: seq<Json>, elseClause: Option<Json>, k: nat)
    requires k < |tests|
    requires IfDepth(ToValue(elseClause)) == 0
    ensures IfDepth(IfFrom(ctx, pos, tests, blocks, elseClause, k)) == |tests| - k
    decreases |tests| - k
  {
    if k + 1 < |tests| {
      IfChainDepth(ctx, pos, tests, blocks, elseClause, k + 1);
    }
  }
}
