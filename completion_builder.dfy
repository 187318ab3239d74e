/**
 * `CompletionBuilder`: completion at the cursor. The parse-tree walk sets the
 * calling scope and the current user function exactly as the context builder
 * does; the token under the cursor (closed on the right, so the column just
 * past a word still selects it) decides the query's prefix and prefix scope;
 * the scope tree's lists are then emitted by category.
 */
module CompletionBuilder {
  import opened Common
  import opened CompilerModel
  import opened ContextBuilder

  /** The completion kinds this builder emits, with the editor's numbers. */
  datatype CompletionItemKind = FunctionKind | ConstructorKind | VariableKind | ClassKind | ModuleKind | ConstantKind

  function KindNumber(k: CompletionItemKind): (n: nat)
    ensures n in {3, 4, 6, 7, 9, 21}
  {
    match k
    case FunctionKind => 3
    case ConstructorKind => 4
    case VariableKind => 6
    case ClassKind => 7
    case ModuleKind => 9
    case ConstantKind => 21
  }

  datatype CompletionItem = CompletionItem(name: string, kind: Option<CompletionItemKind>)

  // ---------------------------------------------------------------------
  // The token under the cursor

  /** The cursor is on `t`'s line, from its first column up to and including the column just past it. */
  predicate Touches(pos: Position, t: Token)
  {
    t.line == pos.line && t.charPos + 1 <= pos.column && pos.column <= t.charPos + 1 + |t.text|
  }

  /** The cursor just past a token selects it for completion, although the half-open `contains` excludes it. */
  lemma ClosedOnTheRight(pos: Position, t: Token)
    requires t.line == pos.line && pos.column == t.charPos + 1 + |t.text|
    ensures Touches(pos, t) && !Contains(pos, t)
  {
  }

  /** A lexer's token stream: each token's index is its position. */
  predicate WellIndexed(tokens: seq<Token>)
  {
    forall i :: 0 <= i < |tokens| ==> tokens[i].tokenIndex == i
  }

  /** The index of the first token the cursor touches. */
  function SelectedToken(tokens: seq<Token>, pos: Position): (r: Option<nat>)
    ensures r.Some? ==> r.value < |tokens| && Touches(pos, tokens[r.value])
    ensures r.Some? ==> forall j :: 0 <= j < r.value ==> !Touches(pos, tokens[j])
    ensures r.None? ==> forall j :: 0 <= j < |tokens| ==> !Touches(pos, tokens[j])
  {
    if tokens == [] then None
    else if Touches(pos, tokens[0]) then Some(0)
    else
      var rest := SelectedToken(tokens[1..], pos);
      if rest.Some? then Some(rest.value + 1) else None
  }

  /** The scan with `break`: the first token the cursor touches, and the one or two before it. */
  method FindToken(tokens: seq<Token>, pos: Position) returns (result: Option<Token>, prev: Option<Token>, secondPrev: Option<Token>)
    requires WellIndexed(tokens)
    ensures var i := SelectedToken(tokens, pos);
      (i.None? ==> result.None? && prev.None? && secondPrev.None?) &&
      (i.Some? ==> (result == Some(tokens[i.value]) &&
        prev == (if i.value > 0 then Some(tokens[i.value - 1]) else None) &&
        secondPrev == (if i.value > 1 then Some(tokens[i.value - 2]) else None)))
  {
    result, prev, secondPrev := None, None, None;
    var k := 0;
    while k < |tokens|
      invariant 0 <= k <= |tokens|
      invariant forall j :: 0 <= j < k ==> !Touches(pos, tokens[j])
    {
      var token := tokens[k];
      if token.line == pos.line && token.charPos + 1 <= pos.column && token.charPos + 1 + |token.text| >= pos.column {
        result := Some(token);
        if token.tokenIndex > 0 {
          prev := Some(tokens[token.tokenIndex - 1]);
        }
        if token.tokenIndex > 1 {
          secondPrev := Some(tokens[token.tokenIndex - 2]);
        }
        break;
      }
      k := k + 1;
    }
  }

  /** The scope named by the identifier before a '::', or the global scope when there is none. */
  function ScopeBefore(t: Option<Token>): (s: ScopeName)
    ensures t.Some? && t.value.kind == IDENTIFIER ==> s == Named(t.value.text)
    ensures !(t.Some? && t.value.kind == IDENTIFIER) ==> s == GlobalName
  {
    if t.Some? && t.value.kind == IDENTIFIER then Named(t.value.text) else GlobalName
  }

  /**
   * The query the selected token gives: an identifier is the prefix, with
   * the scope before a preceding '::'; a '::' itself gives an empty prefix in
   * the scope before it; any other kind of token gives no query.
   */
  function QueryFor(result: Token, prev: Option<Token>, secondPrev: Option<Token>, cs: string, cuf: string): Option<ScopeTreeQuery>
  {
    if result.kind == IDENTIFIER then
      var scope := if prev.Some? && prev.value.kind == COLONCOLON then ScopeBefore(secondPrev) else NoScope;
      Some(ScopeTreeQuery(cs, cuf, scope, result.text))
    else if result.kind == COLONCOLON then
      Some(ScopeTreeQuery(cs, cuf, ScopeBefore(prev), ""))
    else None
  }

  lemma IdentifierQuery(result: Token, prev: Option<Token>, secondPrev: Option<Token>, cs: string, cuf: string)
    requires result.kind == IDENTIFIER
    ensures var q := QueryFor(result, prev, secondPrev, cs, cuf);
      q.Some? && q.value.prefix == result.text && q.value.callingScope == cs && q.value.currentUserFunction == cuf &&
      (prev.None? || prev.value.kind != COLONCOLON ==> q.value.prefixScope == NoScope) &&
      (prev.Some? && prev.value.kind == COLONCOLON ==>
        q.value.prefixScope == if secondPrev.Some? && secondPrev.value.kind == IDENTIFIER then Named(secondPrev.value.text) else GlobalName)
  {
  }

  lemma ColonColonQuery(result: Token, prev: Option<Token>, secondPrev: Option<Token>, cs: string, cuf: string)
    requires result.kind == COLONCOLON
    ensures var q := QueryFor(result, prev, secondPrev, cs, cuf);
      q.Some? && q.value.prefix == "" &&
      q.value.prefixScope == if prev.Some? && prev.value.kind == IDENTIFIER then Named(prev.value.text) else GlobalName
  {
  }

  lemma OtherTokenNoQuery(result: Token, prev: Option<Token>, secondPrev: Option<Token>, cs: string, cuf: string)
    requires result.kind != IDENTIFIER && result.kind != COLONCOLON
    ensures QueryFor(result, prev, secondPrev, cs, cuf).None?
  {
  }

  /** The query built field by field, as the source assigns it. */
  method MakeQuery(result: Token, prev: Option<Token>, secondPrev: Option<Token>, cs: string, cuf: string) returns (q: Option<ScopeTreeQuery>)
    ensures q == QueryFor(result, prev, secondPrev, cs, cuf)
  {
    var prefix := "";
    var prefixScope := NoScope;
    if result.kind == IDENTIFIER {
      prefix := result.text;
      if prev.Some? && prev.value.kind == COLONCOLON {
        if secondPrev.Some? && secondPrev.value.kind == IDENTIFIER {
          prefixScope := Named(secondPrev.value.text);
        } else {
          prefixScope := GlobalName;
        }
      }
    } else if result.kind == COLONCOLON {
      if prev.Some? && prev.value.kind == IDENTIFIER {
        prefixScope := Named(prev.value.text);
      } else {
        prefixScope := GlobalName;
      }
    } else {
      return None;
    }
    q := Some(ScopeTreeQuery(cs, cuf, prefixScope, prefix));
  }

  // ---------------------------------------------------------------------
  // The items, by category

  function ConstantItems(cs: seq<ConstDecl>): (r: seq<CompletionItem>)
    ensures |r| == |cs| && forall i :: 0 <= i < |cs| ==> r[i] == CompletionItem(cs[i].identifier, Some(ConstantKind))
  {
    if cs == [] then [] else [CompletionItem(cs[0].identifier, Some(ConstantKind))] + ConstantItems(cs[1..])
  }

  function VariableItems(vs: seq<Variable>): (r: seq<CompletionItem>)
    ensures |r| == |vs| && forall i :: 0 <= i < |vs| ==> r[i] == CompletionItem(vs[i].name, Some(VariableKind))
  {
    if vs == [] then [] else [CompletionItem(vs[0].name, Some(VariableKind))] + VariableItems(vs[1..])
  }

  /** A user function is offered as a constructor exactly when it is one, else as a function. */
  function UserFunctionKind(u: UserFunction): (k: CompletionItemKind)
    ensures k == ConstructorKind <==> u.kind == UserFunctionType.Constructor
    ensures k != ConstructorKind ==> k == FunctionKind
  {
    if u.kind == UserFunctionType.Constructor then ConstructorKind else FunctionKind
  }

  function UserFunctionItems(us: seq<UserFunction>): (r: seq<CompletionItem>)
    ensures |r| == |us| && forall i :: 0 <= i < |us| ==> r[i] == CompletionItem(us[i].name, Some(UserFunctionKind(us[i])))
  {
    if us == [] then [] else [CompletionItem(us[0].name, Some(UserFunctionKind(us[0])))] + UserFunctionItems(us[1..])
  }

  function ModuleFunctionItems(ms: seq<ModuleFunction>): (r: seq<CompletionItem>)
    ensures |r| == |ms| && forall i :: 0 <= i < |ms| ==> r[i] == CompletionItem(ms[i].name, Some(FunctionKind))
  {
    if ms == [] then [] else [CompletionItem(ms[0].name, Some(FunctionKind))] + ModuleFunctionItems(ms[1..])
  }

  function NameItems(names: seq<string>, kind: CompletionItemKind): (r: seq<CompletionItem>)
    ensures |r| == |names| && forall i :: 0 <= i < |names| ==> r[i] == CompletionItem(names[i], Some(kind))
  {
    if names == [] then [] else [CompletionItem(names[0], Some(kind))] + NameItems(names[1..], kind)
  }

  /** Constants, variables, user functions, module functions, scopes, then modules. */
  function Items(st: ScopeTree, q: ScopeTreeQuery, pos: Position): seq<CompletionItem>
  {
    ConstantItems(st.listConstants(q)) + VariableItems(st.listVariables(q, pos)) +
    UserFunctionItems(st.listUserFunctions(q, pos)) + ModuleFunctionItems(st.listModuleFunctions(q)) +
    NameItems(st.listScopes(q), ClassKind) + NameItems(st.listModules(q), ModuleKind)
  }

  /** Each category keeps its block, in order: the items at an offset are those of that category. */
  lemma ItemsInCategoryOrder(st: ScopeTree, q: ScopeTreeQuery, pos: Position)
    ensures var r := Items(st, q, pos);
      var nc, nv := |st.listConstants(q)|, |st.listVariables(q, pos)|;
      var nu, nm := |st.listUserFunctions(q, pos)|, |st.listModuleFunctions(q)|;
      var ns, nd := |st.listScopes(q)|, |st.listModules(q)|;
      |r| == nc + nv + nu + nm + ns + nd &&
      (forall i :: 0 <= i < nc ==> r[i].kind == Some(ConstantKind)) &&
      (forall i :: nc <= i < nc + nv ==> r[i].kind == Some(VariableKind)) &&
      (forall i :: nc + nv <= i < nc + nv + nu ==> r[i].kind in {Some(FunctionKind), Some(ConstructorKind)}) &&
      (forall i :: nc + nv + nu <= i < nc + nv + nu + nm ==> r[i].kind == Some(FunctionKind)) &&
      (forall i :: nc + nv + nu + nm <= i < nc + nv + nu + nm + ns ==> r[i].kind == Some(ClassKind)) &&
      (forall i :: nc + nv + nu + nm + ns <= i < |r| ==> r[i].kind == Some(ModuleKind))
  {
  }

  /** One more element taken: its item comes last. */
  lemma ConstantItemsSnoc(cs: seq<ConstDecl>, i: nat)
    requires i < |cs|
    ensures ConstantItems(cs[..i + 1]) == ConstantItems(cs[..i]) + [CompletionItem(cs[i].identifier, Some(ConstantKind))]
  {
    var a, b := ConstantItems(cs[..i + 1]), ConstantItems(cs[..i]) + [CompletionItem(cs[i].identifier, Some(ConstantKind))];
    forall k | 0 <= k < |a|
      ensures a[k] == b[k]
    {
      if k < i {
        assert cs[..i + 1][k] == cs[..i][k];
      }
    }
  }

  /** One more element taken: its item comes last. */
  lemma VariableItemsSnoc(vs: seq<Variable>, i: nat)
    requires i < |vs|
    ensures VariableItems(vs[..i + 1]) == VariableItems(vs[..i]) + [CompletionItem(vs[i].name, Some(VariableKind))]
  {
    var a, b := VariableItems(vs[..i + 1]), VariableItems(vs[..i]) + [CompletionItem(vs[i].name, Some(VariableKind))];
    forall k | 0 <= k < |a|
      ensures a[k] == b[k]
    {
      if k < i {
        assert vs[..i + 1][k] == vs[..i][k];
      }
    }
  }

  /** One more element taken: its item comes last. */
  lemma UserFunctionItemsSnoc(us: seq<UserFunction>, i: nat)
    requires i < |us|
    ensures UserFunctionItems(us[..i + 1]) == UserFunctionItems(us[..i]) + [CompletionItem(us[i].name, Some(UserFunctionKind(us[i])))]
  {
    var a, b := UserFunctionItems(us[..i + 1]), UserFunctionItems(us[..i]) + [CompletionItem(us[i].name, Some(UserFunctionKind(us[i])))];
    forall k | 0 <= k < |a|
      ensures a[k] == b[k]
    {
      if k < i {
        assert us[..i + 1][k] == us[..i][k];
      }
    }
  }

  /** One more element taken: its item comes last. */
  lemma ModuleFunctionItemsSnoc(ms: seq<ModuleFunction>, i: nat)
    requires i < |ms|
    ensures ModuleFunctionItems(ms[..i + 1]) == ModuleFunctionItems(ms[..i]) + [CompletionItem(ms[i].name, Some(FunctionKind))]
  {
    var a, b := ModuleFunctionItems(ms[..i + 1]), ModuleFunctionItems(ms[..i]) + [CompletionItem(ms[i].name, Some(FunctionKind))];
    forall k | 0 <= k < |a|
      ensures a[k] == b[k]
    {
      if k < i {
        assert ms[..i + 1][k] == ms[..i][k];
      }
    }
  }

  /** One more element taken: its item comes last. */
  lemma NameItemsSnoc(names: seq<string>, kind: CompletionItemKind, i: nat)
    requires i < |names|
    ensures NameItems(names[..i + 1], kind) == NameItems(names[..i], kind) + [CompletionItem(names[i], Some(kind))]
  {
    var a, b := NameItems(names[..i + 1], kind), NameItems(names[..i], kind) + [CompletionItem(names[i], Some(kind))];
    forall k | 0 <= k < |a|
      ensures a[k] == b[k]
    {
      if k < i {
        assert names[..i + 1][k] == names[..i][k];
      }
    }
  }

  method PushConstants(results: seq<CompletionItem>, cs: seq<ConstDecl>) returns (out: seq<CompletionItem>)
    ensures out == results + ConstantItems(cs)
  {
    out := results;
    var i := 0;
    while i < |cs|
      invariant 0 <= i <= |cs|
      invariant out == results + ConstantItems(cs[..i])
    {
      ConstantItemsSnoc(cs, i);
      out := out + [CompletionItem(cs[i].identifier, Some(ConstantKind))];
      i := i + 1;
    }
    AllTaken(cs, i);
  }

  method PushVariables(results: seq<CompletionItem>, vs: seq<Variable>) returns (out: seq<CompletionItem>)
    ensures out == results + VariableItems(vs)
  {
    out := results;
    var i := 0;
    while i < |vs|
      invariant 0 <= i <= |vs|
      invariant out == results + VariableItems(vs[..i])
    {
      VariableItemsSnoc(vs, i);
      out := out + [CompletionItem(vs[i].name, Some(VariableKind))];
      i := i + 1;
    }
    AllTaken(vs, i);
  }

  method PushUserFunctions(results: seq<CompletionItem>, us: seq<UserFunction>) returns (out: seq<CompletionItem>)
    ensures out == results + UserFunctionItems(us)
  {
    out := results;
    var i := 0;
    while i < |us|
      invariant 0 <= i <= |us|
      invariant out == results + UserFunctionItems(us[..i])
    {
      var kind := if us[i].kind == UserFunctionType.Constructor then ConstructorKind else FunctionKind;
      UserFunctionItemsSnoc(us, i);
      out := out + [CompletionItem(us[i].name, Some(kind))];
      i := i + 1;
    }
    AllTaken(us, i);
  }

  method PushModuleFunctions(results: seq<CompletionItem>, ms: seq<ModuleFunction>) returns (out: seq<CompletionItem>)
    ensures out == results + ModuleFunctionItems(ms)
  {
    out := results;
    var i := 0;
    while i < |ms|
      invariant 0 <= i <= |ms|
      invariant out == results + ModuleFunctionItems(ms[..i])
    {
      ModuleFunctionItemsSnoc(ms, i);
      out := out + [CompletionItem(ms[i].name, Some(FunctionKind))];
      i := i + 1;
    }
    AllTaken(ms, i);
  }

  method PushNames(results: seq<CompletionItem>, names: seq<string>, kind: CompletionItemKind) returns (out: seq<CompletionItem>)
    ensures out == results + NameItems(names, kind)
  {
    out := results;
    var i := 0;
    while i < |names|
      invariant 0 <= i <= |names|
      invariant out == results + NameItems(names[..i], kind)
    {
      NameItemsSnoc(names, kind, i);
      out := out + [CompletionItem(names[i], Some(kind))];
      i := i + 1;
    }
    AllTaken(names, i);
  }

  // ---------------------------------------------------------------------
  // The builder

  /** The items for the token under the cursor, in the scope the walk found. */
  function CompletionsAt(ws: CompilerWorkspace, pos: Position, cs: string, cuf: string): seq<CompletionItem>
  {
    match SelectedToken(ws.tokens, pos)
    case None => []
    case Some(i) =>
      var prev := if i > 0 then Some(ws.tokens[i - 1]) else None;
      var secondPrev := if i > 1 then Some(ws.tokens[i - 2]) else None;
      match QueryFor(ws.tokens[i], prev, secondPrev, cs, cuf)
      case None => []
      case Some(q) => Items(ws.scopeTree, q, pos)
  }

  /** What `context()` returns, given what the walk pushed and the scope fields it left. */
  function CompletionsAfterWalk(ws: CompilerWorkspace, pos: Position, pushed: seq<Frame>, cs: string, cuf: string): seq<CompletionItem>
  {
    if pushed == [] then [] else CompletionsAt(ws, pos, cs, cuf)
  }

  /** The six lists of the scope tree, pushed category by category. */
  method ListItems(st: ScopeTree, q: ScopeTreeQuery, pos: Position) returns (results: seq<CompletionItem>)
    ensures results == Items(st, q, pos)
  {
    var a := PushConstants([], st.listConstants(q));
    var b := PushVariables(a, st.listVariables(q, pos));
    var c := PushUserFunctions(b, st.listUserFunctions(q, pos));
    var d := PushModuleFunctions(c, st.listModuleFunctions(q));
    var e := PushNames(d, st.listScopes(q), ClassKind);
    results := PushNames(e, st.listModules(q), ModuleKind);
    Joined(a, b, c, d, e, results, ConstantItems(st.listConstants(q)), VariableItems(st.listVariables(q, pos)),
      UserFunctionItems(st.listUserFunctions(q, pos)), ModuleFunctionItems(st.listModuleFunctions(q)),
      NameItems(st.listScopes(q), ClassKind), NameItems(st.listModules(q), ModuleKind));
  }

  /** Six lists pushed one after the other onto an empty result. */
  lemma Joined(a: seq<CompletionItem>, b: seq<CompletionItem>, c: seq<CompletionItem>, d: seq<CompletionItem>,
               e: seq<CompletionItem>, r: seq<CompletionItem>,
               la: seq<CompletionItem>, lb: seq<CompletionItem>, lc: seq<CompletionItem>, ld: seq<CompletionItem>,
               le: seq<CompletionItem>, lf: seq<CompletionItem>)
    requires a == [] + la && b == a + lb && c == b + lc && d == c + ld && e == d + le && r == e + lf
    ensures r == la + lb + lc + ld + le + lf
  {
    assert [] + la == la;
  }

  /** Everything `context()` does after the walk: the token scan, the query, the lists. */
  method Complete(ws: CompilerWorkspace, pos: Position, cs: string, cuf: string) returns (results: seq<CompletionItem>)
    requires WellIndexed(ws.tokens)
    ensures results == CompletionsAt(ws, pos, cs, cuf)
  {
    var result, prev, secondPrev := FindToken(ws.tokens, pos);
    if result.None? {
      return [];
    }
    var q := MakeQuery(result.value, prev, secondPrev, cs, cuf);
    if q.None? {
      return [];
    }
    results := ListItems(ws.scopeTree, q.value, pos);
  }

  /** With no rule node containing the cursor, or no token under it, there is nothing to complete. */
  lemma NothingWithoutContext(ws: CompilerWorkspace, pos: Position, pushed: seq<Frame>, cs: string, cuf: string)
    ensures pushed == [] ==> CompletionsAfterWalk(ws, pos, pushed, cs, cuf) == []
    ensures SelectedToken(ws.tokens, pos).None? ==> CompletionsAfterWalk(ws, pos, pushed, cs, cuf) == []
  {
  }

  class CompletionBuilder {
    const ws: CompilerWorkspace
    const position: Position
    /** `Range::contains(Position)`. */
    const rangeContains: RangeTest
    var nodes: seq<Frame>
    var callingScope: string
    var currentUserFunction: string

    constructor (ws: CompilerWorkspace, position: Position, rangeContains: RangeTest)
      ensures this.ws == ws && this.position == position && this.rangeContains == rangeContains
      ensures nodes == [] && callingScope == "" && currentUserFunction == ""
    {
      this.ws := ws;
      this.position := position;
      this.rangeContains := rangeContains;
      nodes := [];
      callingScope := "";
      currentUserFunction := "";
    }

    /** `accept`: a class or function declaration containing the position sets its field, then the children. */
    method Accept(f: Frame)
      modifies this`nodes, this`callingScope, this`currentUserFunction
      decreases f.node, 2
      ensures nodes == old(nodes) + PushedBy(rangeContains, position, f)
      ensures callingScope == Tracked(rangeContains, position, ClassDeclaration, f.node, old(callingScope))
      ensures currentUserFunction == Tracked(rangeContains, position, FunctionDeclaration, f.node, old(currentUserFunction))
    {
      var id := f.node.Identifier();
      if f.node.rule == ClassDeclaration && id.Some? && rangeContains(f.node.range, position) {
        callingScope := id.value.text;
      } else if f.node.rule == FunctionDeclaration && id.Some? && rangeContains(f.node.range, position) {
        currentUserFunction := id.value.text;
      }
      VisitChildren(f);
    }

    /** `visitChildren`: push each containing rule child, and visit every child. */
    method VisitChildren(f: Frame)
      modifies this`nodes, this`callingScope, this`currentUserFunction
      decreases f.node, 1
      ensures nodes == old(nodes) + PushedKids(rangeContains, position, f, |f.node.kids|)
      ensures callingScope == TrackedKids(rangeContains, position, ClassDeclaration, f.node, |f.node.kids|, old(callingScope))
      ensures currentUserFunction == TrackedKids(rangeContains, position, FunctionDeclaration, f.node, |f.node.kids|, old(currentUserFunction))
    {
      ghost var start, cs0, cuf0 := nodes, callingScope, currentUserFunction;
      var i := 0;
      while i < |f.node.kids|
        invariant 0 <= i <= |f.node.kids|
        invariant Visited(f, i, start, cs0, cuf0)
      {
        VisitChild(f, i, start, cs0, cuf0);
        i := i + 1;
      }
    }

    /** The fields after `visitChildren` has visited the first `i` children of `f`, from `start`, `cs0` and `cuf0`. */
    ghost predicate Visited(f: Frame, i: nat, start: seq<Frame>, cs0: string, cuf0: string)
      requires i <= |f.node.kids|
      reads this
    {
      nodes == start + PushedKids(rangeContains, position, f, i) &&
      callingScope == TrackedKids(rangeContains, position, ClassDeclaration, f.node, i, cs0) &&
      currentUserFunction == TrackedKids(rangeContains, position, FunctionDeclaration, f.node, i, cuf0)
    }

    /** One turn of `visitChildren`'s loop: push child `i` if it contains the position, then visit it. */
    method VisitChild(f: Frame, i: nat, ghost start: seq<Frame>, ghost cs0: string, ghost cuf0: string)
      requires i < |f.node.kids| && Visited(f, i, start, cs0, cuf0)
      modifies this`nodes, this`callingScope, this`currentUserFunction
      decreases f.node, 0
      ensures Visited(f, i + 1, start, cs0, cuf0)
    {
      var c := ChildFrame(f, i);
      ghost var before := nodes;
      if rangeContains(c.node.range, position) {
        nodes := nodes + [c];
      }
      Accept(c);
      PushedKidsStep(rangeContains, position, f, i, start, before, nodes);
      TrackedKidsStep(rangeContains, position, ClassDeclaration, f, i, cs0);
      TrackedKidsStep(rangeContains, position, FunctionDeclaration, f, i, cuf0);
    }

    /** `context()`: nothing without a source; otherwise the walk, then the items of the query at the cursor. */
    method Context() returns (results: seq<CompletionItem>)
      requires WellIndexed(ws.tokens)
      modifies this`nodes, this`callingScope, this`currentUserFunction
      ensures ws.source.None? ==> results == []
      ensures ws.source.Some? ==> var root := ws.source.value;
        results == CompletionsAfterWalk(ws, position, old(nodes) + PushedBy(rangeContains, position, RootFrame(root)),
          Tracked(rangeContains, position, ClassDeclaration, root, old(callingScope)),
          Tracked(rangeContains, position, FunctionDeclaration, root, old(currentUserFunction)))
    {
      if ws.source.None? {
        return [];
      }
      Accept(RootFrame(ws.source.value));
      if nodes == [] {
        return [];
      }
      results := Complete(ws, position, callingScope, currentUserFunction);
    }
  }
}
