/**
 * `SemanticContextFinder`: hover over the resolved AST. The visit pushes
 * every node of the document's own file whose location contains the cursor;
 * user functions and constant declarations are entered only when they do.
 * `hover` pops innermost-first and the first node of a recognised kind
 * answers, except that an identifier without a variable ends the search.
 */
module SemanticContextFinder {
  import opened Common
  import opened CompilerModel
  import HoverBuilder

  /** The node is in the document's own file and its location contains the cursor. */
  predicate Here(ws: CompilerWorkspace, lc: LocationTest, pos: Position, n: AstNode)
  {
    n.location.pathname == ws.sourcePathname && lc(n.location, pos)
  }

  /** The nodes `n.accept(finder)` pushes, in order. */
  function AcceptPushes(ws: CompilerWorkspace, lc: LocationTest, pos: Position, n: AstNode): seq<AstNode>
    decreases n, 1
  {
    match n.kind
    case UserFunctionNode(_, _) => if Here(ws, lc, pos, n) then [n] + ChildPushes(ws, lc, pos, n, |n.children|) else []
    case ConstDeclarationNode(_, _) => if Here(ws, lc, pos, n) then [n] + ChildPushes(ws, lc, pos, n, |n.children|) else []
    case _ => ChildPushes(ws, lc, pos, n, |n.children|)
  }

  /** `visit_children` over the first `i` children: a null child is skipped; a containing child is pushed, and every child is visited. */
  function ChildPushes(ws: CompilerWorkspace, lc: LocationTest, pos: Position, n: AstNode, i: nat): seq<AstNode>
    requires i <= |n.children|
    decreases n, 0, i
  {
    if i == 0 then []
    else
      ChildPushes(ws, lc, pos, n, i - 1) +
      (match n.children[i - 1]
       case None => []
       case Some(c) => (if Here(ws, lc, pos, c) then [c] else []) + AcceptPushes(ws, lc, pos, c))
  }

  /** The visit over the workspace's roots, in the order the workspace hands them to the visitor. */
  function RootsPushes(ws: CompilerWorkspace, lc: LocationTest, pos: Position, roots: seq<AstNode>): seq<AstNode>
  {
    if roots == [] then [] else RootsPushes(ws, lc, pos, roots[..|roots| - 1]) + AcceptPushes(ws, lc, pos, roots[|roots| - 1])
  }

  /** Every pushed node is in the document's own file and contains the cursor. */
  lemma {:induction false} AcceptPushesHere(ws: CompilerWorkspace, lc: LocationTest, pos: Position, n: AstNode)
    ensures forall x :: x in AcceptPushes(ws, lc, pos, n) ==> Here(ws, lc, pos, x)
    decreases n, 1
  {
    ChildPushesHere(ws, lc, pos, n, |n.children|);
  }

  lemma {:induction false} ChildPushesHere(ws: CompilerWorkspace, lc: LocationTest, pos: Position, n: AstNode, i: nat)
    requires i <= |n.children|
    ensures forall x :: x in ChildPushes(ws, lc, pos, n, i) ==> Here(ws, lc, pos, x)
    decreases n, 0, i
  {
    if i > 0 {
      ChildPushesHere(ws, lc, pos, n, i - 1);
      match n.children[i - 1]
      case None =>
      case Some(c) => AcceptPushesHere(ws, lc, pos, c);
    }
  }

  lemma {:induction false} RootsPushesHere(ws: CompilerWorkspace, lc: LocationTest, pos: Position, roots: seq<AstNode>)
    ensures forall x :: x in RootsPushes(ws, lc, pos, roots) ==> Here(ws, lc, pos, x)
  {
    if roots != [] {
      RootsPushesHere(ws, lc, pos, roots[..|roots| - 1]);
      AcceptPushesHere(ws, lc, pos, roots[|roots| - 1]);
    }
  }

  /** A user function or constant declaration elsewhere, or not containing the cursor, is not entered: nothing inside it is pushed. */
  lemma DeclarationNotEntered(ws: CompilerWorkspace, lc: LocationTest, pos: Position, n: AstNode)
    requires n.kind.UserFunctionNode? || n.kind.ConstDeclarationNode?
    requires !Here(ws, lc, pos, n)
    ensures AcceptPushes(ws, lc, pos, n) == []
  {
  }

  /** Any other node is looked through: it pushes what its children push, even when it does not contain the cursor. */
  lemma OtherNodesLookedThrough(ws: CompilerWorkspace, lc: LocationTest, pos: Position, n: AstNode)
    requires !n.kind.UserFunctionNode? && !n.kind.ConstDeclarationNode?
    ensures AcceptPushes(ws, lc, pos, n) == ChildPushes(ws, lc, pos, n, |n.children|)
  {
  }

  /** A containing child is pushed ahead of everything its own visit pushes. */
  lemma ContainingChildFirst(ws: CompilerWorkspace, lc: LocationTest, pos: Position, n: AstNode, i: nat, c: AstNode)
    requires i < |n.children| && n.children[i] == Some(c) && Here(ws, lc, pos, c)
    ensures ChildPushes(ws, lc, pos, n, i + 1) == ChildPushes(ws, lc, pos, n, i) + [c] + AcceptPushes(ws, lc, pos, c)
  {
  }

  // ---------------------------------------------------------------------
  // Rendering

  /** What one popped node does: answer, end the search, or let the next node be tried. */
  datatype Step = Answer(text: string) | Stop | Skip

  /** A call's text: its parameters, or "<unknown>" when the call has none resolved. */
  function CallHover(name: string, params: Option<seq<Param>>): (s: string)
    ensures StartsWith(s, "(function) " + name + "(") && EndsWith(s, ")")
    ensures params.None? ==> s == "(function) " + name + "(<unknown>)"
    ensures params.Some? ==> s == "(function) " + name + "(" + HoverBuilder.ParametersText(params.value) + ")"
  {
    var inner := if params.Some? then HoverBuilder.ParametersText(params.value) else "<unknown>";
    assert ("(function) " + name + "(" + inner + ")")[..|"(function) " + name + "("|] == "(function) " + name + "(";
    "(function) " + name + "(" + inner + ")"
  }

  function VariableText(name: string, v: Variable): (s: string)
    ensures v.scope == GlobalScope ==> s == "(global variable) " + name
    ensures v.scope != GlobalScope ==> s == "(local variable) " + name
  {
    (if v.scope == GlobalScope then "(global variable) " else "(local variable) ") + name
  }

  function NodeStep(n: AstNode): Step
  {
    match n.kind
    case UserFunctionNode(name, params) => Answer("(function) " + name + "(" + HoverBuilder.ParametersText(params) + ")")
    case ModuleFunctionNode(name, params) => Answer("(function) " + name + "(" + HoverBuilder.ParametersText(params) + ")")
    case FunctionCallNode(name, params, _) => Answer(CallHover(name, params))
    case VarStatementNode(name) => Answer("(variable) " + name)
    case ConstDeclarationNode(id, expr) => Answer("(constant) " + id + " := " + expr)
    case IdentifierNode(name, variable) => if variable.Some? then Answer(VariableText(name, variable.value)) else Stop
    case MemberAccessNode(name) => Answer("(member) " + name)
    case FunctionParameterNode(name) => Answer("(parameter) " + name)
    case ValueNode(_, description) => Answer("(value) " + description)
    case MethodCallNode(name) => Answer("(method) " + name)
    case OtherNode => Skip
  }

  /** The hover of a stack of pushed nodes, innermost (last) first. */
  function StackHover(stack: seq<AstNode>): Option<string>
  {
    if stack == [] then None
    else
      match NodeStep(stack[|stack| - 1])
      case Answer(s) => Some(s)
      case Stop => None
      case Skip => StackHover(stack[..|stack| - 1])
  }

  /** The innermost recognised node answers; unrecognised nodes above it are passed over. */
  lemma {:induction false} FirstRecognisedAnswers(stack: seq<AstNode>, k: nat)
    requires k < |stack|
    requires forall j :: k < j < |stack| ==> NodeStep(stack[j]) == Skip
    requires NodeStep(stack[k]).Answer?
    ensures StackHover(stack) == Some(NodeStep(stack[k]).text)
    decreases |stack|
  {
    if k < |stack| - 1 {
      var rest := stack[..|stack| - 1];
      assert forall j :: k < j < |rest| ==> rest[j] == stack[j];
      FirstRecognisedAnswers(rest, k);
    }
  }

  /** An identifier without a variable, above every recognised node, ends the search with nothing. */
  lemma {:induction false} UnresolvedIdentifierStops(stack: seq<AstNode>, k: nat)
    requires k < |stack|
    requires forall j :: k < j < |stack| ==> NodeStep(stack[j]) == Skip
    requires stack[k].kind.IdentifierNode? && stack[k].kind.variable.None?
    ensures StackHover(stack) == None
    decreases |stack|
  {
    if k < |stack| - 1 {
      var rest := stack[..|stack| - 1];
      assert forall j :: k < j < |rest| ==> rest[j] == stack[j];
      UnresolvedIdentifierStops(rest, k);
    }
  }

  /** With nothing but unrecognised nodes there is no hover. */
  lemma {:induction false} OnlyUnrecognisedGivesNothing(stack: seq<AstNode>)
    requires forall j :: 0 <= j < |stack| ==> NodeStep(stack[j]) == Skip
    ensures StackHover(stack) == None
    decreases |stack|
  {
    if stack != [] {
      var rest := stack[..|stack| - 1];
      assert forall j :: 0 <= j < |rest| ==> rest[j] == stack[j];
      OnlyUnrecognisedGivesNothing(rest);
    }
  }

  // ---------------------------------------------------------------------
  // The finder

  class SemanticContextFinder {
    const ws: CompilerWorkspace
    const position: Position
    /** `SourceLocation::contains(Position)`. */
    const locationContains: LocationTest
    var nodes: seq<AstNode>

    constructor (ws: CompilerWorkspace, position: Position, locationContains: LocationTest)
      ensures this.ws == ws && this.position == position && this.locationContains == locationContains
      ensures nodes == []
    {
      this.ws := ws;
      this.position := position;
      this.locationContains := locationContains;
      nodes := [];
    }

    /** `node.accept(finder)`: the two overrides, else `visit_children`. */
    method Accept(n: AstNode)
      modifies this`nodes
      decreases n, 2
      ensures nodes == old(nodes) + AcceptPushes(ws, locationContains, position, n)
    {
      match n.kind
      case UserFunctionNode(_, _) => VisitDeclaration(n);
      case ConstDeclarationNode(_, _) => VisitDeclaration(n);
      case _ => VisitChildren(n);
    }

    /** `visit_user_function` and `visit_const_declaration`: entered only when in the own file and containing the cursor. */
    method VisitDeclaration(n: AstNode)
      requires n.kind.UserFunctionNode? || n.kind.ConstDeclarationNode?
      modifies this`nodes
      decreases n, 1
      ensures nodes == old(nodes) + AcceptPushes(ws, locationContains, position, n)
    {
      if n.location.pathname == ws.sourcePathname && locationContains(n.location, position) {
        nodes := nodes + [n];
        VisitChildren(n);
      }
    }

    method VisitChildren(n: AstNode)
      modifies this`nodes
      decreases n, 0
      ensures nodes == old(nodes) + ChildPushes(ws, locationContains, position, n, |n.children|)
    {
      var i := 0;
      while i < |n.children|
        invariant 0 <= i <= |n.children|
        invariant nodes == old(nodes) + ChildPushes(ws, locationContains, position, n, i)
      {
        if n.children[i].Some? {
          var c := n.children[i].value;
          if c.location.pathname == ws.sourcePathname && locationContains(c.location, position) {
            nodes := nodes + [c];
          }
          Accept(c);
        }
        i := i + 1;
      }
    }

    /** `workspace.accept(finder)` over the roots the workspace visits, in order. */
    method AcceptRoots(roots: seq<AstNode>)
      modifies this`nodes
      ensures nodes == old(nodes) + RootsPushes(ws, locationContains, position, roots)
    {
      var i := 0;
      while i < |roots|
        invariant 0 <= i <= |roots|
        invariant nodes == old(nodes) + RootsPushes(ws, locationContains, position, roots[..i])
      {
        assert roots[..i + 1][..i] == roots[..i];
        Accept(roots[i]);
        i := i + 1;
      }
      assert roots[..i] == roots;
    }

    /** Render one popped node. */
    method Render(n: AstNode) returns (step: Step)
      ensures step == NodeStep(n)
    {
      match n.kind
      case UserFunctionNode(name, params) =>
        var text := HoverBuilder.ParametersToString(params);
        step := Answer("(function) " + name + "(" + text + ")");
      case ModuleFunctionNode(name, params) =>
        var text := HoverBuilder.ParametersToString(params);
        step := Answer("(function) " + name + "(" + text + ")");
      case FunctionCallNode(name, params, _) =>
        var text := "<unknown>";
        if params.Some? {
          text := HoverBuilder.ParametersToString(params.value);
        }
        step := Answer("(function) " + name + "(" + text + ")");
      case VarStatementNode(name) => step := Answer("(variable) " + name);
      case ConstDeclarationNode(id, expr) => step := Answer("(constant) " + id + " := " + expr);
      case IdentifierNode(name, variable) =>
        if variable.Some? {
          var prefix := if variable.value.scope == GlobalScope then "(global variable) " else "(local variable) ";
          step := Answer(prefix + name);
        } else {
          step := Stop;
        }
      case MemberAccessNode(name) => step := Answer("(member) " + name);
      case FunctionParameterNode(name) => step := Answer("(parameter) " + name);
      case ValueNode(_, description) => step := Answer("(value) " + description);
      case MethodCallNode(name) => step := Answer("(method) " + name);
      case OtherNode => step := Skip;
    }

    /** The pop loop: the stack's hover; the stack keeps what lies below the node that decided. */
    method PopHover() returns (r: Option<string>)
      modifies this`nodes
      ensures r == StackHover(old(nodes))
      ensures |nodes| <= |old(nodes)| && nodes == old(nodes)[..|nodes|]
    {
      while nodes != []
        invariant StackHover(old(nodes)) == StackHover(nodes)
        invariant |nodes| <= |old(nodes)| && nodes == old(nodes)[..|nodes|]
        decreases |nodes|
      {
        var node := nodes[|nodes| - 1];
        ghost var before := nodes;
        nodes := nodes[..|nodes| - 1];
        assert old(nodes)[..|nodes|] == before[..|nodes|];
        var step := Render(node);
        if step.Answer? {
          return Some(step.text);
        } else if step.Stop? {
          return None;
        }
      }
      return None;
    }

    /** `hover()`: the visit, then the pop loop. */
    method Hover(roots: seq<AstNode>) returns (r: Option<string>)
      modifies this`nodes
      ensures r == StackHover(old(nodes) + RootsPushes(ws, locationContains, position, roots))
    {
      AcceptRoots(roots);
      r := PopHover();
    }
  }

  /** A fresh finder's hover only ever names a node of the document's own file that contains the cursor. */
  lemma HoverIsHere(ws: CompilerWorkspace, lc: LocationTest, pos: Position, roots: seq<AstNode>)
    ensures forall x :: x in RootsPushes(ws, lc, pos, roots) ==> Here(ws, lc, pos, x)
  {
    RootsPushesHere(ws, lc, pos, roots);
  }
}
