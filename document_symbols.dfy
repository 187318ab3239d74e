/**
 * `DocumentSymbolsBuilder`: the outline of a document. A stack of symbol
 * arrays is kept; a declaration with a usable name pushes a fresh array for
 * its children, visits them, pops it, and appends itself to the array then
 * on top. `current_scope` holds a class's name while its children are
 * visited, so that a function whose first parameter is `this` is shown as
 * that class's constructor or method.
 */
module DocumentSymbols {
  import opened Common
  import opened CompilerModel

  /** The symbol kinds this builder emits, numbered as the editor numbers them. */
  datatype SymbolKind = ClassSymbol | MethodSymbol | ConstructorSymbol | EnumSymbol | FunctionSymbol | VariableSymbol | ConstantSymbol | EnumMemberSymbol

  function KindNumber(k: SymbolKind): (n: nat)
    ensures n in {5, 6, 9, 10, 12, 13, 14, 22}
  {
    match k
    case ClassSymbol => 5
    case MethodSymbol => 6
    case ConstructorSymbol => 9
    case EnumSymbol => 10
    case FunctionSymbol => 12
    case VariableSymbol => 13
    case ConstantSymbol => 14
    case EnumMemberSymbol => 22
  }

  /** A 0-based editor position and range. */
  datatype LspPosition = LspPosition(line: int, character: int)
  datatype LspRange = LspRange(start: LspPosition, end: LspPosition)

  /** `range_to_object`: every 1-based line and column becomes 0-based. */
  function RangeToObject(r: Range): (o: LspRange)
    ensures o.start.line + 1 == r.start.line && o.start.character + 1 == r.start.column
    ensures o.end.line + 1 == r.end.line && o.end.character + 1 == r.end.column
  {
    LspRange(LspPosition(r.start.line - 1, r.start.column - 1), LspPosition(r.end.line - 1, r.end.column - 1))
  }

  /** The conversion keeps the order of positions: a range that starts before it ends still does. */
  lemma RangeToObjectKeepsOrder(r: Range)
    requires r.start.line < r.end.line || (r.start.line == r.end.line && r.start.column <= r.end.column)
    ensures var o := RangeToObject(r);
      o.start.line < o.end.line || (o.start.line == o.end.line && o.start.character <= o.end.character)
  {
  }

  /** A document symbol; `children` is set only when there is at least one. */
  datatype DocumentSymbol = DocumentSymbol(name: string, kind: SymbolKind, range: LspRange, selectionRange: LspRange, children: Option<seq<DocumentSymbol>>)

  function MakeSymbol(name: string, kind: SymbolKind, ctxRange: Range, selection: Range, children: seq<DocumentSymbol>): (s: DocumentSymbol)
    ensures s.children.Some? <==> children != []
    ensures s.children.Some? ==> s.children.value == children
  {
    DocumentSymbol(name, kind, RangeToObject(ctxRange), RangeToObject(selection), if |children| > 0 then Some(children) else None)
  }

  /** The node's IDENTIFIER is present and not an error node. */
  predicate Named(n: PNode)
  {
    n.Identifier().Some? && !n.identifierIsError
  }

  /** The IDENTIFIER of the first parameter of a function declaration, when it has one. */
  function FirstParameterIdentifier(n: PNode): Option<Token>
  {
    match FirstChildOfRule(n, FunctionParameters)
    case None => None
    case Some(ps) =>
      match FirstChildOfRule(ps, FunctionParameterList)
      case None => None
      case Some(pl) =>
        match FirstChildOfRule(pl, FunctionParameter)
        case None => None
        case Some(p) => p.Identifier()
  }

  /** The kind of a function declaration inside the scope `scope` ("" outside any class). */
  function FunctionDeclarationKind(n: PNode, scope: string): SymbolKind
    requires n.Identifier().Some?
  {
    var first := FirstParameterIdentifier(n);
    if scope != "" && first.Some? && EqualsIgnoreCase(first.value.text, "this") then
      (if EqualsIgnoreCase(n.Identifier().value.text, scope) then ConstructorSymbol else MethodSymbol)
    else FunctionSymbol
  }

  /** Constructor iff in a class, first parameter `this`, and named as the class; method iff the same but named otherwise. */
  lemma FunctionKindRule(n: PNode, scope: string)
    requires n.Identifier().Some?
    ensures var first := FirstParameterIdentifier(n);
      var isThis := scope != "" && first.Some? && EqualsIgnoreCase(first.value.text, "this");
      (FunctionDeclarationKind(n, scope) == ConstructorSymbol <==> isThis && EqualsIgnoreCase(n.Identifier().value.text, scope)) &&
      (FunctionDeclarationKind(n, scope) == MethodSymbol <==> isThis && !EqualsIgnoreCase(n.Identifier().value.text, scope)) &&
      (FunctionDeclarationKind(n, scope) == FunctionSymbol <==> !isThis)
  {
  }

  /** What a node contributes: its symbol's name, kind and selection range, when its rule has one and it is usable. */
  datatype Entry = Entry(name: string, kind: SymbolKind, selection: Range)

  /** The kind of symbol a rule declares when it is handled only by its IDENTIFIER check. */
  function PlainRuleKind(rule: Rule): (k: Option<SymbolKind>)
    ensures k.Some? ==> rule !in {FunctionExpression, IndexBinding, FunctionDeclaration}
  {
    match rule
    case ClassDeclaration => Some(ClassSymbol)
    case ConstantDeclaration => Some(ConstantSymbol)
    case VariableDeclaration => Some(VariableSymbol)
    case SequenceBinding => Some(VariableSymbol)
    case Binding => Some(VariableSymbol)
    case EnumStatement => Some(EnumSymbol)
    case EnumListEntry => Some(EnumMemberSymbol)
    case ModuleFunctionDeclaration => Some(FunctionSymbol)
    case UninitFunctionDeclaration => Some(FunctionSymbol)
    case _ => None
  }

  /**
   * What a node contributes: a function expression with a usable AT, or a
   * declaration of one of the handled rules with a usable IDENTIFIER, which
   * names it and is its selection range.
   */
  function EntryOf(n: PNode, scope: string, tokenRange: Token -> Range): (r: Option<Entry>)
    ensures n.rule == FunctionExpression ==> (r.Some? <==> n.at.Some? && !n.atIsError)
    ensures n.rule != FunctionExpression && r.Some? ==>
      Named(n) && r.value.name == n.Identifier().value.text && r.value.selection == tokenRange(n.Identifier().value) &&
      (n.rule in {IndexBinding, FunctionDeclaration} || PlainRuleKind(n.rule).Some?)
  {
    if n.rule == FunctionExpression then
      (if n.at.Some? && !n.atIsError then Some(Entry("<function expression>", FunctionSymbol, tokenRange(n.at.value))) else None)
    else if !Named(n) then None
    else if n.rule == IndexBinding then
      (if FirstChildOfRule(n, Binding).None? then Some(Entry(n.Identifier().value.text, VariableSymbol, tokenRange(n.Identifier().value))) else None)
    else if n.rule == FunctionDeclaration then
      Some(Entry(n.Identifier().value.text, FunctionDeclarationKind(n, scope), tokenRange(n.Identifier().value)))
    else if PlainRuleKind(n.rule).Some? then
      Some(Entry(n.Identifier().value.text, PlainRuleKind(n.rule).value, tokenRange(n.Identifier().value)))
    else None
  }

  /** The symbols appended to the top array, and the `current_scope` left behind. */
  datatype Walk = Walk(symbols: seq<DocumentSymbol>, scope: string)

  /** `n.accept(builder)` with `current_scope` equal to `scope`. */
  function AcceptWalk(n: PNode, scope: string, tokenRange: Token -> Range): Walk
    decreases n, 1
  {
    match EntryOf(n, scope, tokenRange)
    case None => KidsWalk(n, scope, tokenRange, |n.kids|)
    case Some(e) =>
      if n.rule == ClassDeclaration then
        var inner := KidsWalk(n, e.name, tokenRange, |n.kids|);
        Walk([MakeSymbol(e.name, e.kind, n.range, e.selection, inner.symbols)], "")
      else
        var inner := KidsWalk(n, scope, tokenRange, |n.kids|);
        Walk([MakeSymbol(e.name, e.kind, n.range, e.selection, inner.symbols)], inner.scope)
  }

  /** `visitChildren` over the first `i` children. */
  function KidsWalk(n: PNode, scope: string, tokenRange: Token -> Range, i: nat): Walk
    requires i <= |n.kids|
    decreases n, 0, i
  {
    if i == 0 then Walk([], scope)
    else
      var w := KidsWalk(n, scope, tokenRange, i - 1);
      var c := AcceptWalk(n.kids[i - 1], w.scope, tokenRange);
      Walk(w.symbols + c.symbols, c.scope)
  }

  /** A usable declaration appends exactly one symbol, whose children are what its children's visit appended. */
  lemma OneSymbolPerDeclaration(n: PNode, scope: string, tokenRange: Token -> Range)
    requires EntryOf(n, scope, tokenRange).Some?
    ensures var w := AcceptWalk(n, scope, tokenRange);
      var e := EntryOf(n, scope, tokenRange).value;
      var kidsScope := if n.rule == ClassDeclaration then e.name else scope;
      |w.symbols| == 1 && w.symbols[0].name == e.name && w.symbols[0].kind == e.kind &&
      w.symbols[0].range == RangeToObject(n.range) &&
      w.symbols[0].children == (var inner := KidsWalk(n, kidsScope, tokenRange, |n.kids|).symbols; if inner == [] then None else Some(inner))
  {
  }

  /** A declaration without a usable name emits nothing itself: its children's symbols go to the enclosing array. */
  lemma UnnamedDeclarationPassesChildrenUp(n: PNode, scope: string, tokenRange: Token -> Range)
    requires n.rule in {ClassDeclaration, ConstantDeclaration, VariableDeclaration, SequenceBinding, Binding, IndexBinding,
                        EnumStatement, EnumListEntry, ModuleFunctionDeclaration, FunctionDeclaration, UninitFunctionDeclaration}
    requires !Named(n)
    ensures AcceptWalk(n, scope, tokenRange) == KidsWalk(n, scope, tokenRange, |n.kids|)
  {
  }

  /** A function expression without a usable AT (missing, or an error node) emits nothing itself: its children's symbols go to the enclosing array. */
  lemma ErrorFunctionExpressionPassesChildrenUp(n: PNode, scope: string, tokenRange: Token -> Range)
    requires n.rule == FunctionExpression && (n.at.None? || n.atIsError)
    ensures AcceptWalk(n, scope, tokenRange) == KidsWalk(n, scope, tokenRange, |n.kids|)
  {
  }

  /** A class's children are visited with the class's name as scope, and the scope is cleared afterwards. */
  lemma ClassScopeOnlyInside(n: PNode, scope: string, tokenRange: Token -> Range)
    requires n.rule == ClassDeclaration && Named(n)
    ensures AcceptWalk(n, scope, tokenRange).scope == ""
    ensures AcceptWalk(n, scope, tokenRange).symbols[0].children ==
      (var inner := KidsWalk(n, n.Identifier().value.text, tokenRange, |n.kids|).symbols; if inner == [] then None else Some(inner))
  {
  }

  /** Without a class, the scope stays empty all through the walk. */
  lemma {:induction false} NoClassNoScope(n: PNode, tokenRange: Token -> Range)
    ensures AcceptWalk(n, "", tokenRange).scope == ""
    decreases n, 1
  {
    if EntryOf(n, "", tokenRange).Some? && n.rule == ClassDeclaration {
    } else {
      KidsNoScope(n, tokenRange, |n.kids|);
    }
  }

  lemma {:induction false} KidsNoScope(n: PNode, tokenRange: Token -> Range, i: nat)
    requires i <= |n.kids|
    ensures KidsWalk(n, "", tokenRange, i).scope == ""
    decreases n, 0, i
  {
    if i > 0 {
      KidsNoScope(n, tokenRange, i - 1);
      NoClassNoScope(n.kids[i - 1], tokenRange);
    }
  }

  class DocumentSymbolsBuilder {
    const tokenRange: Token -> Range
    /** The stack of arrays symbols are appended to; the last is on top. */
    var symbolList: seq<seq<DocumentSymbol>>
    var currentScope: string

    constructor (tokenRange: Token -> Range)
      ensures this.tokenRange == tokenRange && symbolList == [] && currentScope == ""
    {
      this.tokenRange := tokenRange;
      symbolList := [];
      currentScope := "";
    }

    /** `symbols()`: a root array, the walk of the source, and the root array as the result. */
    method Symbols(source: PNode) returns (r: seq<DocumentSymbol>)
      modifies this`symbolList, this`currentScope
      ensures r == AcceptWalk(source, old(currentScope), tokenRange).symbols
      ensures symbolList == old(symbolList) + [r]
    {
      symbolList := symbolList + [[]];
      Accept(source);
      r := symbolList[|symbolList| - 1];
    }

    /** `node.accept(builder)`: the overrides for the declaration rules, else `visitChildren`. */
    method Accept(n: PNode)
      requires |symbolList| > 0
      modifies this`symbolList, this`currentScope
      decreases n, 3
      ensures |symbolList| == |old(symbolList)| && symbolList[..|symbolList| - 1] == old(symbolList)[..|old(symbolList)| - 1]
      ensures symbolList[|symbolList| - 1] == old(symbolList)[|old(symbolList)| - 1] + AcceptWalk(n, old(currentScope), tokenRange).symbols
      ensures currentScope == AcceptWalk(n, old(currentScope), tokenRange).scope
    {
      var entry := EntryOf(n, currentScope, tokenRange);
      if entry.None? {
        VisitChildren(n);
      } else if n.rule == ClassDeclaration {
        currentScope := entry.value.name;
        AppendSymbol(entry.value.name, entry.value.kind, n, entry.value.selection);
        currentScope := "";
      } else {
        AppendSymbol(entry.value.name, entry.value.kind, n, entry.value.selection);
      }
    }

    /** `append_symbol`: the children are collected in an array of their own; then the symbol joins the array on top. */
    method AppendSymbol(name: string, kind: SymbolKind, n: PNode, selection: Range)
      requires |symbolList| > 0
      modifies this`symbolList, this`currentScope
      decreases n, 2
      ensures var inner := KidsWalk(n, old(currentScope), tokenRange, |n.kids|);
        symbolList == old(symbolList)[..|old(symbolList)| - 1] +
          [old(symbolList)[|old(symbolList)| - 1] + [MakeSymbol(name, kind, n.range, selection, inner.symbols)]] &&
        currentScope == inner.scope
    {
      var children := CollectChildren(n);
      var symbol := DocumentSymbol(name, kind, RangeToObject(n.range), RangeToObject(selection), if |children| > 0 then Some(children) else None);
      symbolList := symbolList[..|symbolList| - 1] + [symbolList[|symbolList| - 1] + [symbol]];
    }

    /** Pushes a fresh array, visits the children into it and pops it again. */
    method CollectChildren(n: PNode) returns (children: seq<DocumentSymbol>)
      modifies this`symbolList, this`currentScope
      decreases n, 1
      ensures children == KidsWalk(n, old(currentScope), tokenRange, |n.kids|).symbols
      ensures currentScope == KidsWalk(n, old(currentScope), tokenRange, |n.kids|).scope
      ensures symbolList == old(symbolList)
    {
      ghost var outer := symbolList;
      symbolList := symbolList + [[]];
      assert symbolList[..|symbolList| - 1] == outer;
      VisitChildren(n);
      children := symbolList[|symbolList| - 1];
      symbolList := symbolList[..|symbolList| - 1];
    }

    method VisitChildren(n: PNode)
      requires |symbolList| > 0
      modifies this`symbolList, this`currentScope
      decreases n, 0
      ensures |symbolList| == |old(symbolList)| && symbolList[..|symbolList| - 1] == old(symbolList)[..|old(symbolList)| - 1]
      ensures symbolList[|symbolList| - 1] == old(symbolList)[|old(symbolList)| - 1] + KidsWalk(n, old(currentScope), tokenRange, |n.kids|).symbols
      ensures currentScope == KidsWalk(n, old(currentScope), tokenRange, |n.kids|).scope
    {
      var i := 0;
      while i < |n.kids|
        invariant 0 <= i <= |n.kids|
        invariant |symbolList| == |old(symbolList)| && symbolList[..|symbolList| - 1] == old(symbolList)[..|old(symbolList)| - 1]
        invariant symbolList[|symbolList| - 1] == old(symbolList)[|old(symbolList)| - 1] + KidsWalk(n, old(currentScope), tokenRange, i).symbols
        invariant currentScope == KidsWalk(n, old(currentScope), tokenRange, i).scope
      {
        Accept(n.kids[i]);
        i := i + 1;
      }
    }
  }
}
