/**
 * `SemanticContextBuilder<T>`: find what the cursor is on.
 *
 * The builder walks the parse tree and pushes every rule node whose range
 * contains the cursor; while walking it records the enclosing class
 * (`calling_scope`) and user function (`current_user_function`). `Context`
 * then pops the pushed nodes innermost first and matches each against a
 * closed set of grammar shapes; a shape matches only when its identifying
 * token contains the cursor, and a match is answered by a scope-tree lookup
 * (`try_*`) or directly by one of the `get_*` hooks. The hooks are what the
 * projections (definition, references) override; here they are a record of
 * functions, and `BaseHooks` is the base class's, which answers nothing.
 */
module ContextBuilder {
  import opened Common
  import opened CompilerModel

  /** The virtual `get_*` hooks of `SemanticContextBuilder<T>`. */
  datatype Hooks<T> = Hooks(
    getVariable: Variable -> Option<T>,
    getConstant: ConstDecl -> Option<T>,
    getModuleFunction: ModuleFunction -> Option<T>,
    getModuleFunctionParameter: (ModuleFunction, Param) -> Option<T>,
    getUserFunction: UserFunction -> Option<T>,
    getUserFunctionParameter: (UserFunction, Param) -> Option<T>,
    getProgram: (string, Program) -> Option<T>,
    getProgramParameter: string -> Option<T>,
    getMember: string -> Option<T>,
    getInclude: string -> Option<T>,
    getModule: string -> Option<T>,
    getMethod: string -> Option<T>,
    getClass: string -> Option<T>)

  /** The base class's hooks: every `get_*` returns `std::nullopt`. */
  function BaseHooks<T>(): (h: Hooks<T>)
    ensures forall v :: h.getVariable(v).None?
    ensures forall c :: h.getConstant(c).None?
    ensures forall m :: h.getModuleFunction(m).None?
    ensures forall m, p :: h.getModuleFunctionParameter(m, p).None?
    ensures forall u :: h.getUserFunction(u).None?
    ensures forall u, p :: h.getUserFunctionParameter(u, p).None?
    ensures forall s, p :: h.getProgram(s, p).None?
    ensures forall s :: h.getProgramParameter(s).None?
    ensures forall s :: h.getMember(s).None?
    ensures forall s :: h.getInclude(s).None?
    ensures forall s :: h.getModule(s).None?
    ensures forall s :: h.getMethod(s).None?
    ensures forall s :: h.getClass(s).None?
  {
    Hooks(
      (v: Variable) => None, (c: ConstDecl) => None, (m: ModuleFunction) => None,
      (m: ModuleFunction, p: Param) => None, (u: UserFunction) => None,
      (u: UserFunction, p: Param) => None, (s: string, p: Program) => None,
      (s: string) => None, (s: string) => None, (s: string) => None,
      (s: string) => None, (s: string) => None, (s: string) => None)
  }

  /** What a builder works on: the workspace, the cursor, the range test and the hooks. */
  datatype Env<T> = Env(ws: CompilerWorkspace, position: Position, rangeContains: RangeTest, hooks: Hooks<T>)

  // ---------------------------------------------------------------------
  // contains

  /**
   * `contains(Token*)`: the token is on the cursor line and the cursor column
   * lies in the half-open span [charPos + 1, charPos + 1 + length).
   */
  predicate Contains(pos: Position, t: Token)
  {
    t.line == pos.line && t.charPos + 1 <= pos.column && pos.column < t.charPos + 1 + |t.text|
  }

  /** `contains(TerminalNode*)`: false for a null terminal. */
  predicate ContainsTerminal(pos: Position, t: Option<Token>)
  {
    t.Some? && Contains(pos, t.value)
  }

  /** The columns a token covers: its first column is inside, the column just past its text is not. */
  lemma ContainsSpan(t: Token, line: nat, tokenIndex: nat)
    requires |t.text| > 0
    ensures Contains(Position(t.line, t.charPos + 1, tokenIndex), t)
    ensures Contains(Position(t.line, t.charPos + |t.text|, tokenIndex), t)
    ensures !Contains(Position(t.line, t.charPos + 1 + |t.text|, tokenIndex), t)
    ensures !Contains(Position(t.line, t.charPos, tokenIndex), t)
    ensures line != t.line ==> forall c :: !Contains(Position(line, c, tokenIndex), t)
  {
  }

  // ---------------------------------------------------------------------
  // try_* helpers

  function Query(cs: string, cuf: string, scope: ScopeName, name: string): (q: ScopeTreeQuery)
    ensures q.callingScope == cs && q.currentUserFunction == cuf && q.prefixScope == scope && q.prefix == name
  {
    ScopeTreeQuery(cs, cuf, scope, name)
  }

  function TryConstant<T>(env: Env<T>, name: string): Option<T>
  {
    match env.ws.scopeTree.findConstant(name)
    case Some(c) => env.hooks.getConstant(c)
    case None => None
  }

  function TryVariable<T>(env: Env<T>, name: string): Option<T>
  {
    match env.ws.scopeTree.findVariable(name, env.position)
    case Some(v) => env.hooks.getVariable(v)
    case None => None
  }

  /** The first parameter called `paramName` of the user function the query finds. */
  function TryUserFunctionParameter<T>(env: Env<T>, q: ScopeTreeQuery, paramName: string): Option<T>
  {
    match env.ws.scopeTree.findUserFunction(q)
    case None => None
    case Some(uf) =>
      match FindParam(uf.parameters, paramName)
      case Some(p) => env.hooks.getUserFunctionParameter(uf, p)
      case None => None
  }

  function TryConstantOrVariable<T>(env: Env<T>, name: string): Option<T>
  {
    var c := TryConstant(env, name);
    if c.Some? then c else TryVariable(env, name)
  }

  function TryUserFunction<T>(env: Env<T>, q: ScopeTreeQuery): Option<T>
  {
    match env.ws.scopeTree.findUserFunction(q)
    case Some(uf) => env.hooks.getUserFunction(uf)
    case None => None
  }

  function TryModuleFunction<T>(env: Env<T>, q: ScopeTreeQuery): Option<T>
  {
    match env.ws.scopeTree.findModuleFunction(q)
    case Some(mf) => env.hooks.getModuleFunction(mf)
    case None => None
  }

  function TryFunction<T>(env: Env<T>, q: ScopeTreeQuery): Option<T>
  {
    var m := TryModuleFunction(env, q);
    if m.Some? then m else TryUserFunction(env, q)
  }

  /** Whether some referenced pathname ends with `suffix`. */
  function AnyEndsWith(paths: seq<string>, suffix: string): (b: bool)
    ensures b <==> exists p :: p in paths && EndsWith(p, suffix)
  {
    if paths == [] then false
    else EndsWith(paths[0], suffix) || AnyEndsWith(paths[1..], suffix)
  }

  /**
   * `try_scope`: a module when some referenced source file is `<name>.em`,
   * otherwise a class when the name is a known class location.
   */
  function TryScope<T>(env: Env<T>, name: string): Option<T>
  {
    if AnyEndsWith(env.ws.referencedPaths, name + ".em") then env.hooks.getModule(name)
    else if name in env.ws.classLocations then env.hooks.getClass(name)
    else None
  }

  /** The variable lookup is consulted only when the constant lookup yields no value. */
  lemma ConstantShadowsVariable<T>(env: Env<T>, other: Env<T>, name: string)
    requires other == env.(ws := env.ws.(scopeTree := other.ws.scopeTree))
    requires other.ws.scopeTree == env.ws.scopeTree.(findVariable := other.ws.scopeTree.findVariable)
    requires TryConstant(env, name).Some?
    ensures TryConstantOrVariable(env, name) == TryConstantOrVariable(other, name) == TryConstant(env, name)
  {
    assert TryConstant(other, name) == TryConstant(env, name);
  }

  /** With no constant value, the result is exactly the variable lookup's. */
  lemma VariableWhenNoConstant<T>(env: Env<T>, name: string)
    requires TryConstant(env, name).None?
    ensures TryConstantOrVariable(env, name) == TryVariable(env, name)
  {
  }

  /** The user-function lookup is consulted only when the module-function lookup yields no value. */
  lemma ModuleFunctionShadowsUserFunction<T>(env: Env<T>, other: Env<T>, q: ScopeTreeQuery)
    requires other == env.(ws := env.ws.(scopeTree := other.ws.scopeTree))
    requires other.ws.scopeTree == env.ws.scopeTree.(findUserFunction := other.ws.scopeTree.findUserFunction)
    requires TryModuleFunction(env, q).Some?
    ensures TryFunction(env, q) == TryFunction(other, q) == TryModuleFunction(env, q)
  {
    assert TryModuleFunction(other, q) == TryModuleFunction(env, q);
  }

  /** `try_scope` in terms of the referenced files and class locations. */
  lemma TryScopeCases<T>(env: Env<T>, name: string)
    ensures (exists p :: p in env.ws.referencedPaths && EndsWith(p, name + ".em")) ==>
      TryScope(env, name) == env.hooks.getModule(name)
    ensures (forall p :: p in env.ws.referencedPaths ==> !EndsWith(p, name + ".em")) ==>
      TryScope(env, name) == if name in env.ws.classLocations then env.hooks.getClass(name) else None
  {
  }

  // ---------------------------------------------------------------------
  // context() dispatch

  datatype Step<T> = Return(result: Option<T>) | Continue

  /** A STRING_LITERAL's text without its quotes (`substr(1, length - 2)`). */
  function Unquote(s: string): (r: string)
    ensures |s| >= 2 ==> r == s[1..|s| - 1]
    ensures |s| < 2 ==> r == ""
  {
    if |s| >= 2 then s[1..|s| - 1] else ""
  }

  /** The name `funcexpr@0:<line>:<column>` the compiler gives a function expression. */
  function FunctionExpressionName(at: Token): string
  {
    "funcexpr@0:" + NatToString(at.line) + ":" + NatToString(at.charPos + 1)
  }

  /** The scope a FunctionCall is looked up in: that of an enclosing ScopedFunctionCall, if its parent is one. */
  function CallScope(f: Frame): (s: ScopeName)
    ensures (Parent(f).None? || Parent(f).value.rule != ScopedFunctionCall) <==> s == NoScope
    ensures Parent(f).Some? && Parent(f).value.rule == ScopedFunctionCall ==>
      s == if Parent(f).value.Identifier().Some? then Named(Parent(f).value.Identifier().value.text) else GlobalName
  {
    match Parent(f)
    case Some(p) =>
      if p.rule == ScopedFunctionCall then
        (if p.Identifier().Some? then Named(p.Identifier().value.text) else GlobalName)
      else NoScope
    case None => NoScope
  }

  /** The class prefix `<Class>::` of a variable declared five levels below a class declaration. */
  function ClassPrefix(f: Frame): string
  {
    match Ancestor(f, 5)
    case Some(a) =>
      if a.rule == ClassDeclaration && a.Identifier().Some? then a.Identifier().value.text + "::" else ""
    case None => ""
  }

  /** An include or use target, read from the node's first `stringIdentifier` child. */
  function StringTarget(pos: Position, n: PNode): Option<string>
  {
    match FirstChildOfRule(n, StringIdentifier)
    case None => None
    case Some(si) =>
      if si.stringLiteral.Some? then
        (if Contains(pos, si.stringLiteral.value) then Some(Unquote(si.stringLiteral.value.text)) else None)
      else if ContainsTerminal(pos, si.Identifier()) then Some(si.Identifier().value.text)
      else None
  }

  /** The first of `ids` that contains the cursor. */
  function FirstContaining(pos: Position, ids: seq<Token>): (r: Option<Token>)
    ensures r.Some? ==> r.value in ids && Contains(pos, r.value)
    ensures r.None? ==> forall t :: t in ids ==> !Contains(pos, t)
  {
    if ids == [] then None
    else if Contains(pos, ids[0]) then Some(ids[0])
    else FirstContaining(pos, ids[1..])
  }

  /** One iteration of the `context()` loop on the popped frame `f`. */
  function Dispatch<T>(env: Env<T>, f: Frame, cs: string, cuf: string): (s: Step<T>)
    ensures (f.node.rule in {CompilationUnit, ModuleUnit, FunctionParameters, FunctionParameterList, FunctionExpression,
                             EnumStatement, StringIdentifier, Binding, IndexBinding, SequenceBinding,
                             UninitFunctionDeclaration, OtherRule}) ==> s == Continue
    ensures f.node.rule == ScopedIdentifier ==> s.Return?
  {
    var n := f.node;
    var pos := env.position;
    var h := env.hooks;
    var st := env.ws.scopeTree;
    var id := n.Identifier();
    var hit := ContainsTerminal(pos, id);
    match n.rule
    case VariableDeclaration =>
      if !hit then Continue
      else
        (match st.findVariable(ClassPrefix(f) + id.value.text, pos)
         case Some(v) => Return(h.getVariable(v))
         case None => Continue)
    case ConstantDeclaration =>
      if !hit then Continue
      else
        (match st.findConstant(id.value.text)
         case Some(c) => Return(h.getConstant(c))
         case None => Continue)
    case ModuleFunctionDeclaration =>
      if !hit then Continue
      else
        (match st.findModuleFunction(Query(cs, cuf, NoScope, id.value.text))
         case Some(mf) => Return(h.getModuleFunction(mf))
         case None => Continue)
    case FunctionDeclaration =>
      if !hit then Continue
      else
        (match st.findUserFunction(Query(cs, cuf, NoScope, id.value.text))
         case Some(uf) => Return(h.getUserFunction(uf))
         case None => Continue)
    case ModuleFunctionParameter =>
      if !hit then Continue
      else
        (match Ancestor(f, 2)
         case Some(a) =>
           if a.rule == ModuleFunctionDeclaration && a.Identifier().Some? then
             (match st.findModuleFunction(Query(cs, cuf, NoScope, a.Identifier().value.text))
              case Some(mf) =>
                (match FindParam(mf.parameters, id.value.text)
                 case Some(p) => Return(h.getModuleFunctionParameter(mf, p))
                 case None => Continue)
              case None => Continue)
           else Continue
         case None => Continue)
    case ForeachIterableExpression =>
      if hit then Return(TryConstantOrVariable(env, id.value.text)) else Continue
    case ForeachStatement =>
      if hit then Return(TryVariable(env, id.value.text)) else Continue
    case EnumListEntry =>
      if hit then Return(TryConstant(env, id.value.text)) else Continue
    case SwitchLabel =>
      if hit then Return(TryConstantOrVariable(env, id.value.text)) else Continue
    case BasicForStatement =>
      if hit then Return(TryVariable(env, id.value.text)) else Continue
    case ProgramDeclaration =>
      if hit && env.ws.program.Some? then Return(h.getProgram(id.value.text, env.ws.program.value)) else Continue
    case ProgramParameter =>
      if hit && env.ws.program.Some? then Return(h.getProgramParameter(id.value.text)) else Continue
    case FunctionParameter =>
      if !hit then Continue
      else
        (match Ancestor(f, 3)
         case Some(a) =>
           if a.rule == FunctionDeclaration then
             (if a.Identifier().Some? then
                Return(TryUserFunctionParameter(env, Query(cs, cuf, NoScope, a.Identifier().value.text), id.value.text))
              else Continue)
           else if a.rule == FunctionExpression && a.at.Some? then
             Return(TryUserFunctionParameter(env, Query(cs, cuf, NoScope, FunctionExpressionName(a.at.value)), id.value.text))
           else Continue
         case None => Continue)
    case FunctionReference =>
      if ContainsTerminal(pos, n.functionLabel) then
        Return(TryUserFunction(env, Query(cs, cuf, NoScope, n.functionLabel.value.text)))
      else Continue
    case Primary =>
      if hit then Return(TryConstantOrVariable(env, id.value.text)) else Continue
    case NavigationSuffix =>
      if hit then Return(h.getMember(id.value.text)) else Continue
    case MethodCallSuffix =>
      if hit then Return(h.getMethod(id.value.text)) else Continue
    case FunctionCall =>
      if hit then Return(TryFunction(env, Query(cs, cuf, CallScope(f), id.value.text))) else Continue
    case StructInitializerExpression =>
      if hit then Return(h.getMember(id.value.text)) else Continue
    case IncludeDeclaration =>
      (match StringTarget(pos, n)
       case Some(name) => Return(h.getInclude(name))
       case None => Continue)
    case UseDeclaration =>
      (match StringTarget(pos, n)
       case Some(name) => Return(h.getModule(name))
       case None => Continue)
    case ScopedFunctionCall =>
      if hit then Return(TryScope(env, id.value.text)) else Continue
    case ScopedIdentifier =>
      var scope := if n.scopeLabel.Some? then n.scopeLabel.value.text else "";
      var ident := if n.identifierLabel.Some? then n.identifierLabel.value.text else "";
      Return(TryVariable(env, scope + "::" + ident))
    case ClassParameterList =>
      (match FirstContaining(pos, n.identifiers)
       case Some(t) => Return(TryScope(env, t.text))
       case None => Continue)
    case ClassDeclaration =>
      if hit then Return(TryScope(env, id.value.text)) else Continue
    case _ => Continue
  }

  /** The loop's state when it ends: the answer, the frames left, and the two scope fields. */
  datatype Outcome<T> = Outcome(result: Option<T>, rest: seq<Frame>, callingScope: string, currentUserFunction: string)

  /**
   * The `context()` loop over the stack `stack` (innermost at the end):
   * pop, dispatch, and on no match clear the scope field of a popped class or
   * function declaration.
   */
  function Run<T>(env: Env<T>, stack: seq<Frame>, cs: string, cuf: string): Outcome<T>
    decreases |stack|
  {
    if stack == [] then Outcome(None, [], cs, cuf)
    else
      var f := stack[|stack| - 1];
      var rest := stack[..|stack| - 1];
      match Dispatch(env, f, cs, cuf)
      case Return(r) => Outcome(r, rest, cs, cuf)
      case Continue =>
        if f.node.rule == ClassDeclaration then Run(env, rest, "", cuf)
        else if f.node.rule == FunctionDeclaration then Run(env, rest, cs, "")
        else Run(env, rest, cs, cuf)
  }

  /** With the base hooks no shape yields a value. */
  lemma BaseDispatchYieldsNothing<T>(env: Env<T>, f: Frame, cs: string, cuf: string)
    requires env.hooks == BaseHooks()
    ensures Dispatch(env, f, cs, cuf) == Continue || Dispatch(env, f, cs, cuf) == Return(None)
  {
  }

  /** The base builder's `context()` answers nothing, whatever is on the stack. */
  lemma {:induction false} BaseRunYieldsNothing<T>(env: Env<T>, stack: seq<Frame>, cs: string, cuf: string)
    requires env.hooks == BaseHooks()
    ensures Run(env, stack, cs, cuf).result.None?
  {
    if stack != [] {
      var f := stack[|stack| - 1];
      BaseDispatchYieldsNothing(env, f, cs, cuf);
      if Dispatch(env, f, cs, cuf).Continue? {
        var rest := stack[..|stack| - 1];
        BaseRunYieldsNothing(env, rest, "", cuf);
        BaseRunYieldsNothing(env, rest, cs, "");
        BaseRunYieldsNothing(env, rest, cs, cuf);
      }
    }
  }

  /**
   * The loop pops innermost first: what is left is a bottom part of the
   * stack, the frame just above it is the one that answered, and an
   * exhausted stack answers nothing.
   */
  lemma {:induction false} RunPopsInnermostFirst<T>(env: Env<T>, stack: seq<Frame>, cs: string, cuf: string)
    ensures var o := Run(env, stack, cs, cuf);
      |o.rest| <= |stack| && o.rest == stack[..|o.rest|] &&
      (|o.rest| == |stack| ==> stack == [] && o.result.None?) &&
      (o.rest == [] && o.result.Some? ==> stack != [])
  {
    if stack != [] {
      var rest := stack[..|stack| - 1];
      RunPopsInnermostFirst(env, rest, "", cuf);
      RunPopsInnermostFirst(env, rest, cs, "");
      RunPopsInnermostFirst(env, rest, cs, cuf);
      var o := Run(env, stack, cs, cuf);
      assert |o.rest| <= |rest|;
      assert o.rest == rest[..|o.rest|];
    }
  }

  /** The innermost frame is examined first: when it answers, the loop stops there. */
  lemma InnermostAnswers<T>(env: Env<T>, stack: seq<Frame>, cs: string, cuf: string)
    requires stack != [] && Dispatch(env, stack[|stack| - 1], cs, cuf).Return?
    ensures Run(env, stack, cs, cuf) == Outcome(Dispatch(env, stack[|stack| - 1], cs, cuf).result, stack[..|stack| - 1], cs, cuf)
  {
  }

  /** Popping an unmatched class declaration clears `calling_scope` for the frames outside it. */
  lemma PopClassClearsScope<T>(env: Env<T>, stack: seq<Frame>, cs: string, cuf: string)
    requires stack != [] && stack[|stack| - 1].node.rule == ClassDeclaration
    requires Dispatch(env, stack[|stack| - 1], cs, cuf).Continue?
    ensures Run(env, stack, cs, cuf) == Run(env, stack[..|stack| - 1], "", cuf)
  {
  }

  /** Popping an unmatched function declaration clears `current_user_function`. */
  lemma PopFunctionClearsCurrentFunction<T>(env: Env<T>, stack: seq<Frame>, cs: string, cuf: string)
    requires stack != [] && stack[|stack| - 1].node.rule == FunctionDeclaration
    requires Dispatch(env, stack[|stack| - 1], cs, cuf).Continue?
    ensures Run(env, stack, cs, cuf) == Run(env, stack[..|stack| - 1], cs, "")
  {
  }

  /** A function call under the cursor is looked up with the scope its parent gives it. */
  lemma FunctionCallUsesParentScope<T>(env: Env<T>, f: Frame, cs: string, cuf: string)
    requires f.node.rule == FunctionCall && ContainsTerminal(env.position, f.node.Identifier())
    ensures var name := f.node.Identifier().value.text;
      Dispatch(env, f, cs, cuf) == Return(TryFunction(env, Query(cs, cuf, CallScope(f), name)))
    ensures Parent(f).Some? && Parent(f).value.rule == ScopedFunctionCall && Parent(f).value.Identifier().None? ==>
      CallScope(f) == GlobalName
  {
  }

  /** A shape whose identifier does not contain the cursor is passed over. */
  lemma NoMatchWithoutContainment<T>(env: Env<T>, f: Frame, cs: string, cuf: string)
    requires f.node.rule in {VariableDeclaration, ConstantDeclaration, ModuleFunctionDeclaration,
                             FunctionDeclaration, ModuleFunctionParameter, ForeachIterableExpression,
                             ForeachStatement, EnumListEntry, SwitchLabel, BasicForStatement,
                             ProgramDeclaration, ProgramParameter, FunctionParameter, Primary,
                             NavigationSuffix, MethodCallSuffix, FunctionCall,
                             StructInitializerExpression, ScopedFunctionCall, ClassDeclaration}
    requires !ContainsTerminal(env.position, f.node.Identifier())
    ensures Dispatch(env, f, cs, cuf) == Continue
  {
  }

  // ---------------------------------------------------------------------
  // The tree walk: what visitChildren pushes, and the scope fields it sets

  /** The frames `accept(f.node)` pushes: those of all its descendants whose range contains `pos`. */
  function PushedBy(rc: RangeTest, pos: Position, f: Frame): seq<Frame>
    decreases f.node, 1
  {
    PushedKids(rc, pos, f, |f.node.kids|)
  }

  /** The frames pushed while visiting the first `i` children of `f.node`. */
  function PushedKids(rc: RangeTest, pos: Position, f: Frame, i: nat): seq<Frame>
    requires i <= |f.node.kids|
    decreases f.node, 0, i
  {
    if i == 0 then []
    else
      var c := ChildFrame(f, i - 1);
      PushedKids(rc, pos, f, i - 1) + (if rc(c.node.range, pos) then [c] else []) + PushedBy(rc, pos, c)
  }

  /** Whether visiting `n` assigns the field that tracks declarations of rule `r`. */
  predicate Tracks(rc: RangeTest, pos: Position, r: Rule, n: PNode)
  {
    n.rule == r && n.Identifier().Some? && rc(n.range, pos)
  }

  /** The value of the field tracking rule `r` after `accept(n)`, starting from `v`. */
  function Tracked(rc: RangeTest, pos: Position, r: Rule, n: PNode, v: string): string
    decreases n, 1
  {
    var v1 := if Tracks(rc, pos, r, n) then n.Identifier().value.text else v;
    TrackedKids(rc, pos, r, n, |n.kids|, v1)
  }

  function TrackedKids(rc: RangeTest, pos: Position, r: Rule, n: PNode, i: nat, v: string): string
    requires i <= |n.kids|
    decreases n, 0, i
  {
    if i == 0 then v else Tracked(rc, pos, r, n.kids[i - 1], TrackedKids(rc, pos, r, n, i - 1, v))
  }

  /** One more child visited: its block goes after what the earlier children pushed. */
  lemma PushedKidsStep(rc: RangeTest, pos: Position, f: Frame, i: nat, start: seq<Frame>, before: seq<Frame>, after: seq<Frame>)
    requires i < |f.node.kids|
    requires before == start + PushedKids(rc, pos, f, i)
    requires after == before + (if rc(ChildFrame(f, i).node.range, pos) then [ChildFrame(f, i)] else []) + PushedBy(rc, pos, ChildFrame(f, i))
    ensures after == start + PushedKids(rc, pos, f, i + 1)
  {
  }

  /** One more child visited: the field is what visiting it makes of the earlier value. */
  lemma TrackedKidsStep(rc: RangeTest, pos: Position, r: Rule, f: Frame, i: nat, v: string)
    requires i < |f.node.kids|
    ensures TrackedKids(rc, pos, r, f.node, i + 1, v) == Tracked(rc, pos, r, ChildFrame(f, i).node, TrackedKids(rc, pos, r, f.node, i, v))
  {
  }

  /** Path order of a pre-order walk: a proper prefix comes first, then the smaller child index. */
  predicate PathBefore(a: seq<nat>, b: seq<nat>)
  {
    (|a| < |b| && b[..|a|] == a) ||
    (exists k :: 0 <= k < |a| && k < |b| && a[..k] == b[..k] && a[k] < b[k])
  }

  predicate InPreorder(s: seq<Frame>)
  {
    forall i, j :: 0 <= i < j < |s| ==> PathBefore(s[i].path, s[j].path)
  }

  /** Every frame below `f`: its path extends `f`'s, and it is the node that path leads to. */
  predicate Below(f: Frame, g: Frame)
  {
    |g.path| > |f.path| && g.path[..|f.path|] == f.path && NodeAt(f.node, g.path[|f.path|..]) == Some(g.node)
  }

  lemma {:induction false} PushedKidsFacts(rc: RangeTest, pos: Position, f: Frame, i: nat)
    requires i <= |f.node.kids|
    decreases f.node, 0, i
    ensures forall g :: g in PushedKids(rc, pos, f, i) ==> rc(g.node.range, pos)
    ensures forall g :: g in PushedKids(rc, pos, f, i) ==> Below(f, g) && g.path[|f.path|] < i
    ensures InPreorder(PushedKids(rc, pos, f, i))
  {
    if i > 0 {
      var c := ChildFrame(f, i - 1);
      var front := PushedKids(rc, pos, f, i - 1);
      var block := (if rc(c.node.range, pos) then [c] else []) + PushedBy(rc, pos, c);
      PushedKidsFacts(rc, pos, f, i - 1);
      ChildBlockFacts(rc, pos, f, i - 1);
      SiblingsInOrder(f, i - 1, front, block);
      ConcatPreorder(front, block);
      assert PushedKids(rc, pos, f, i) == front + block;
    }
  }

  lemma SiblingsInOrder(f: Frame, j: nat, front: seq<Frame>, block: seq<Frame>)
    requires forall g :: g in front ==> Below(f, g) && g.path[|f.path|] < j
    requires forall g :: g in block ==> Below(f, g) && g.path[|f.path|] == j
    ensures forall x, y :: x in front && y in block ==> PathBefore(x.path, y.path)
  {
    var L := |f.path|;
    forall x, y | x in front && y in block
      ensures PathBefore(x.path, y.path)
    {
      assert x.path[..L] == f.path == y.path[..L];
      assert 0 <= L < |x.path| && L < |y.path| && x.path[..L] == y.path[..L] && x.path[L] < y.path[L];
    }
  }

  /** The frames pushed while visiting child `j`: the child itself if it contains `pos`, then its own pushes. */
  lemma {:induction false} ChildBlockFacts(rc: RangeTest, pos: Position, f: Frame, j: nat)
    requires j < |f.node.kids|
    decreases f.node, 0, j
    ensures var c := ChildFrame(f, j);
      var block := (if rc(c.node.range, pos) then [c] else []) + PushedBy(rc, pos, c);
      (forall g :: g in block ==> rc(g.node.range, pos) && Below(f, g) && g.path[|f.path|] == j) &&
      InPreorder(block)
  {
    var c := ChildFrame(f, j);
    PushedKidsFacts(rc, pos, c, |c.node.kids|);
    ChildBlockBelow(rc, pos, f, j);
    ChildBlockOrdered(rc, pos, f, j);
  }

  /** Every frame of child `j`'s block contains `pos` and lies below child `j`. */
  lemma ChildBlockBelow(rc: RangeTest, pos: Position, f: Frame, j: nat)
    requires j < |f.node.kids|
    requires forall g :: g in PushedBy(rc, pos, ChildFrame(f, j)) ==> rc(g.node.range, pos) && Below(ChildFrame(f, j), g)
    ensures var c := ChildFrame(f, j);
      var block := (if rc(c.node.range, pos) then [c] else []) + PushedBy(rc, pos, c);
      forall g :: g in block ==> rc(g.node.range, pos) && Below(f, g) && g.path[|f.path|] == j
  {
    var c := ChildFrame(f, j);
    var own := if rc(c.node.range, pos) then [c] else [];
    var below := PushedBy(rc, pos, c);
    var block := own + below;
    forall g: Frame | g in block
      ensures rc(g.node.range, pos) && Below(f, g) && g.path[|f.path|] == j
    {
      if g in below {
        BelowChild(f, j, g);
      } else {
        assert g == c;
        ChildIsBelow(f, j);
      }
    }
  }

  /** Child `j`'s block is in pre-order: the child, then its pushes in their own order. */
  lemma ChildBlockOrdered(rc: RangeTest, pos: Position, f: Frame, j: nat)
    requires j < |f.node.kids|
    requires forall g :: g in PushedBy(rc, pos, ChildFrame(f, j)) ==> Below(ChildFrame(f, j), g)
    requires InPreorder(PushedBy(rc, pos, ChildFrame(f, j)))
    ensures var c := ChildFrame(f, j);
      InPreorder((if rc(c.node.range, pos) then [c] else []) + PushedBy(rc, pos, c))
  {
    var c := ChildFrame(f, j);
    var own := if rc(c.node.range, pos) then [c] else [];
    var below := PushedBy(rc, pos, c);
    var block := own + below;
    forall a, b | 0 <= a < b < |block|
      ensures PathBefore(block[a].path, block[b].path)
    {
      if own != [] && a == 0 {
        assert block[b] in below;
        assert Below(c, block[b]);
        assert |c.path| < |block[b].path| && block[b].path[..|c.path|] == c.path;
      } else {
        assert block[a] == below[a - |own|] && block[b] == below[b - |own|];
      }
    }
  }

  lemma ChildIsBelow(f: Frame, j: nat)
    requires j < |f.node.kids|
    ensures Below(f, ChildFrame(f, j)) && ChildFrame(f, j).path[|f.path|] == j
  {
    var c := ChildFrame(f, j);
    assert c.path[|f.path|..] == [j];
    assert [j][1..] == [];
  }

  lemma BelowChild(f: Frame, j: nat, g: Frame)
    requires j < |f.node.kids| && Below(ChildFrame(f, j), g)
    ensures Below(f, g) && g.path[|f.path|] == j
  {
    var c := ChildFrame(f, j);
    var L := |f.path|;
    assert g.path[..L + 1] == c.path;
    assert g.path[..L] == g.path[..L + 1][..L];
    var q := g.path[L..];
    assert q[0] == j;
    assert q[1..] == g.path[L + 1..];
  }

  lemma ConcatPreorder(a: seq<Frame>, b: seq<Frame>)
    requires InPreorder(a) && InPreorder(b)
    requires forall x, y :: x in a && y in b ==> PathBefore(x.path, y.path)
    ensures InPreorder(a + b)
  {
    var s := a + b;
    forall i, j | 0 <= i < j < |s|
      ensures PathBefore(s[i].path, s[j].path)
    {
      if j < |a| {
        assert s[i] == a[i] && s[j] == a[j];
      } else if i >= |a| {
        assert s[i] == b[i - |a|] && s[j] == b[j - |a|];
      } else {
        assert s[i] in a && s[j] in b;
      }
    }
  }

  /**
   * `visitChildren` pushes only containing nodes, each below the visited
   * node, in pre-order (ancestors before descendants, siblings in order).
   */
  lemma PushedInPreorder(rc: RangeTest, pos: Position, f: Frame)
    ensures forall g :: g in PushedBy(rc, pos, f) ==> rc(g.node.range, pos) && Below(f, g)
    ensures InPreorder(PushedBy(rc, pos, f))
  {
    PushedKidsFacts(rc, pos, f, |f.node.kids|);
  }

  /** No node is pushed twice. */
  lemma PushedOnce(rc: RangeTest, pos: Position, f: Frame)
    ensures var s := PushedBy(rc, pos, f);
      forall i, j :: 0 <= i < j < |s| ==> s[i].path != s[j].path
  {
    PushedInPreorder(rc, pos, f);
  }

  lemma {:induction false} PushedKidsGrow(rc: RangeTest, pos: Position, f: Frame, j: nat, i: nat)
    requires j < i <= |f.node.kids|
    decreases i
    ensures var c := ChildFrame(f, j);
      (rc(c.node.range, pos) ==> c in PushedKids(rc, pos, f, i)) &&
      (forall g :: g in PushedBy(rc, pos, c) ==> g in PushedKids(rc, pos, f, i))
  {
    if j < i - 1 {
      PushedKidsGrow(rc, pos, f, j, i - 1);
    }
  }

  /** Every descendant whose range contains `pos` is pushed. */
  lemma {:induction false} PushedComplete(rc: RangeTest, pos: Position, f: Frame, q: seq<nat>)
    requires q != [] && NodeAt(f.node, q).Some? && rc(NodeAt(f.node, q).value.range, pos)
    decreases |q|
    ensures exists g :: g in PushedBy(rc, pos, f) && g.path == f.path + q && g.node == NodeAt(f.node, q).value
  {
    var j := q[0];
    var c := ChildFrame(f, j);
    PushedKidsGrow(rc, pos, f, j, |f.node.kids|);
    if q[1..] == [] {
      assert q == [j];
      assert c in PushedBy(rc, pos, f) && c.path == f.path + q;
    } else {
      PushedComplete(rc, pos, c, q[1..]);
      var g :| g in PushedBy(rc, pos, c) && g.path == c.path + q[1..] && g.node == NodeAt(c.node, q[1..]).value;
      assert f.path + q == f.path + [j] + q[1..];
      assert g in PushedBy(rc, pos, f);
    }
  }

  /**
   * The scope field either keeps its value or holds the identifier of a
   * containing declaration of rule `r` inside the visited tree.
   */
  lemma {:induction false} TrackedFromContainingDeclaration(rc: RangeTest, pos: Position, r: Rule, n: PNode, v: string)
    decreases n, 1
    ensures var t := Tracked(rc, pos, r, n, v);
      t == v || exists q :: NodeAt(n, q).Some? && Tracks(rc, pos, r, NodeAt(n, q).value) && t == NodeAt(n, q).value.Identifier().value.text
  {
    var v1 := if Tracks(rc, pos, r, n) then n.Identifier().value.text else v;
    TrackedKidsFromContaining(rc, pos, r, n, |n.kids|, v1);
    if Tracks(rc, pos, r, n) {
      assert NodeAt(n, []) == Some(n);
    }
  }

  lemma {:induction false} TrackedKidsFromContaining(rc: RangeTest, pos: Position, r: Rule, n: PNode, i: nat, v: string)
    requires i <= |n.kids|
    decreases n, 0, i
    ensures var t := TrackedKids(rc, pos, r, n, i, v);
      t == v || exists q :: NodeAt(n, q).Some? && Tracks(rc, pos, r, NodeAt(n, q).value) && t == NodeAt(n, q).value.Identifier().value.text
  {
    if i > 0 {
      var before := TrackedKids(rc, pos, r, n, i - 1, v);
      TrackedKidsFromContaining(rc, pos, r, n, i - 1, v);
      var c := n.kids[i - 1];
      TrackedFromContainingDeclaration(rc, pos, r, c, before);
      var t := Tracked(rc, pos, r, c, before);
      assert TrackedKids(rc, pos, r, n, i, v) == t;
      if t != before {
        var q :| NodeAt(c, q).Some? && Tracks(rc, pos, r, NodeAt(c, q).value) && t == NodeAt(c, q).value.Identifier().value.text;
        var q': seq<nat> := [i - 1] + q;
        assert q'[0] == i - 1 && q'[1..] == q;
        assert NodeAt(n, q') == NodeAt(c, q);
        assert NodeAt(n, q').Some? && Tracks(rc, pos, r, NodeAt(n, q').value) && t == NodeAt(n, q').value.Identifier().value.text;
      }
    }
  }

  /** A tree with no containing declaration of rule `r` leaves the field unchanged. */
  lemma {:induction false} TrackedUnchanged(rc: RangeTest, pos: Position, r: Rule, n: PNode, v: string)
    requires forall q :: NodeAt(n, q).Some? ==> !Tracks(rc, pos, r, NodeAt(n, q).value)
    ensures Tracked(rc, pos, r, n, v) == v
  {
    TrackedFromContainingDeclaration(rc, pos, r, n, v);
  }

  // ---------------------------------------------------------------------
  // The builder

  class SemanticContextBuilder<T> {
    const env: Env<T>
    var nodes: seq<Frame>
    var callingScope: string
    var currentUserFunction: string

    constructor (env: Env<T>)
      ensures this.env == env && nodes == [] && callingScope == "" && currentUserFunction == ""
    {
      this.env := env;
      nodes := [];
      callingScope := "";
      currentUserFunction := "";
    }

    /** `node->accept(*this)`: the two scope-setting visitors, else `visitChildren`. */
    method Accept(f: Frame)
      modifies this
      decreases f.node, 3
      ensures nodes == old(nodes) + PushedBy(env.rangeContains, env.position, f)
      ensures callingScope == Tracked(env.rangeContains, env.position, ClassDeclaration, f.node, old(callingScope))
      ensures currentUserFunction == Tracked(env.rangeContains, env.position, FunctionDeclaration, f.node, old(currentUserFunction))
    {
      if f.node.rule == ClassDeclaration {
        VisitClassDeclaration(f);
      } else if f.node.rule == FunctionDeclaration {
        VisitFunctionDeclaration(f);
      } else {
        VisitChildren(f);
      }
    }

    /** `visitClassDeclaration`: a containing, named class sets `calling_scope`. */
    method VisitClassDeclaration(f: Frame)
      requires f.node.rule == ClassDeclaration
      modifies this
      decreases f.node, 2
      ensures nodes == old(nodes) + PushedBy(env.rangeContains, env.position, f)
      ensures callingScope == Tracked(env.rangeContains, env.position, ClassDeclaration, f.node, old(callingScope))
      ensures currentUserFunction == Tracked(env.rangeContains, env.position, FunctionDeclaration, f.node, old(currentUserFunction))
    {
      var id := f.node.Identifier();
      if id.Some? {
        if env.rangeContains(f.node.range, env.position) {
          callingScope := id.value.text;
        }
      }
      VisitChildren(f);
    }

    /** `visitFunctionDeclaration`: a containing, named function sets `current_user_function`. */
    method VisitFunctionDeclaration(f: Frame)
      requires f.node.rule == FunctionDeclaration
      modifies this
      decreases f.node, 2
      ensures nodes == old(nodes) + PushedBy(env.rangeContains, env.position, f)
      ensures callingScope == Tracked(env.rangeContains, env.position, ClassDeclaration, f.node, old(callingScope))
      ensures currentUserFunction == Tracked(env.rangeContains, env.position, FunctionDeclaration, f.node, old(currentUserFunction))
    {
      var id := f.node.Identifier();
      if id.Some? {
        if env.rangeContains(f.node.range, env.position) {
          currentUserFunction := id.value.text;
        }
      }
      VisitChildren(f);
    }

    /** `visitChildren`: push each containing rule child, and visit every child. */
    method VisitChildren(f: Frame)
      modifies this
      decreases f.node, 1
      ensures nodes == old(nodes) + PushedKids(env.rangeContains, env.position, f, |f.node.kids|)
      ensures callingScope == TrackedKids(env.rangeContains, env.position, ClassDeclaration, f.node, |f.node.kids|, old(callingScope))
      ensures currentUserFunction == TrackedKids(env.rangeContains, env.position, FunctionDeclaration, f.node, |f.node.kids|, old(currentUserFunction))
    {
      ghost var start, cs0, cuf0 := nodes, callingScope, currentUserFunction;
      var i := 0;
      while i < |f.node.kids|
        invariant 0 <= i <= |f.node.kids|
        invariant Visited(f, i, start, cs0, cuf0)
      {
        VisitChild(f, i, start, cs0, cuf0);
        i := i + 1;
      }
    }

    /** The fields after `visitChildren` has visited the first `i` children of `f`, from `start`, `cs0` and `cuf0`. */
    ghost predicate Visited(f: Frame, i: nat, start: seq<Frame>, cs0: string, cuf0: string)
      requires i <= |f.node.kids|
      reads this
    {
      var rc, pos := env.rangeContains, env.position;
      nodes == start + PushedKids(rc, pos, f, i) &&
      callingScope == TrackedKids(rc, pos, ClassDeclaration, f.node, i, cs0) &&
      currentUserFunction == TrackedKids(rc, pos, FunctionDeclaration, f.node, i, cuf0)
    }

    /** One turn of `visitChildren`'s loop: push child `i` if it contains the position, then visit it. */
    method VisitChild(f: Frame, i: nat, ghost start: seq<Frame>, ghost cs0: string, ghost cuf0: string)
      requires i < |f.node.kids| && Visited(f, i, start, cs0, cuf0)
      modifies this
      decreases f.node, 0
      ensures Visited(f, i + 1, start, cs0, cuf0)
    {
      var rc, pos := env.rangeContains, env.position;
      var c := ChildFrame(f, i);
      ghost var before := nodes;
      if rc(c.node.range, pos) {
        nodes := nodes + [c];
      }
      Accept(c);
      PushedKidsStep(rc, pos, f, i, start, before, nodes);
      TrackedKidsStep(rc, pos, ClassDeclaration, f, i, cs0);
      TrackedKidsStep(rc, pos, FunctionDeclaration, f, i, cuf0);
    }

    /**
     * `context()`: walk the source, then pop innermost first until a shape
     * answers; the answer, the frames left and the scope fields are those of
     * `Run` on what the walk pushed.
     */
    method Context() returns (r: Option<T>)
      modifies this
      ensures var rc, pos := env.rangeContains, env.position;
        var stack := if env.ws.source.Some? then old(nodes) + PushedBy(rc, pos, RootFrame(env.ws.source.value)) else old(nodes);
        var cs := if env.ws.source.Some? then Tracked(rc, pos, ClassDeclaration, env.ws.source.value, old(callingScope)) else old(callingScope);
        var cuf := if env.ws.source.Some? then Tracked(rc, pos, FunctionDeclaration, env.ws.source.value, old(currentUserFunction)) else old(currentUserFunction);
        var o := Run(env, stack, cs, cuf);
        r == o.result && nodes == o.rest && callingScope == o.callingScope && currentUserFunction == o.currentUserFunction
    {
      if env.ws.source.Some? {
        Accept(RootFrame(env.ws.source.value));
      }
      r := Unwind();
    }

    /** The popping loop of `context()`: innermost frame first, until a shape answers. */
    method Unwind() returns (r: Option<T>)
      modifies this
      ensures var o := Run(env, old(nodes), old(callingScope), old(currentUserFunction));
        r == o.result && nodes == o.rest && callingScope == o.callingScope && currentUserFunction == o.currentUserFunction
    {
      ghost var target := Run(env, nodes, callingScope, currentUserFunction);
      while nodes != []
        invariant Run(env, nodes, callingScope, currentUserFunction) == target
        decreases |nodes|
      {
        var f := nodes[|nodes| - 1];
        nodes := nodes[..|nodes| - 1];
        var step := Dispatch(env, f, callingScope, currentUserFunction);
        if step.Return? {
          r := step.result;
          return;
        }
        if f.node.rule == ClassDeclaration {
          callingScope := "";
        } else if f.node.rule == FunctionDeclaration {
          currentUserFunction := "";
        }
      }
      r := None;
    }
  }
}
