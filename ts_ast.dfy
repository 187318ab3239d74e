/**
 * The server's syntax tree (`server/src/grammars/ast-types.ts`): the node
 * types, the `children` of each node in its declared order with absent
 * optional parts omitted, the containing-node descent `find`, the
 * breadth-first `visitChildren`, and the loop test `Loop.is`.
 */
module TsAst {
  import opened Common
  import opened TsUtils

  datatype NodeType =
    | AssignStatement | ArrayExpression | BinaryExpression | BlockStatement | BracketExpression | BreakStatement
    | MethodCallExpression | MethodCallArgument | MemberCallExpression | ContinueStatement | CstyleForStatement
    | DictExpression | DictProperty | DoWhileStatement | EmptyStatement | EnumEntry | EnumStatementNode
    | ErrorExpression | ErrorProperty | ExitStatement | ExpressionStatement | ForOfStatement | ForToStatement
    | FunctionArgument | FunctionDeclarationNode | FunctionExpressionNode | Identifier | IfStatement
    | ImportDeclaration | InvalidExpression | InvalidStatement | LabeledStatement | LogicalExpression
    | MemberExpression | ModuleFunctionArgument | ModuleFunctionDeclarationNode | NumericLiteral
    | ParenthesizedExpression | ProgramNode | ProgramArgument | ProgramDeclarationNode | RepeatStatement
    | ReturnStatement | ScopedCallExpression | SequenceExpression | StringLiteral | StructExpression
    | StructProperty | SwitchCase | SwitchStatement | UnaryExpression | UpdateExpression
    | VariableDeclarationNode | VariableDeclarator | WhileStatement

  /** A part of a node: a required child, an optional one, or a list of them. */
  datatype SlotKind = Required | Optional | Multiple

  datatype Slot = One(node: TsNode) | Opt(opt: Option<TsNode>) | Many(nodes: seq<TsNode>)

  /**
   * A node: its type, range, its parts in the order `children` lists them,
   * and the text it carries (an identifier's name; "" otherwise).
   */
  datatype TsNode = TsNode(nodeType: NodeType, range: TsRange, slots: seq<Slot>, name: string)

  /** The parts each node type has, in the order `children` lists them. */
  function Shape(t: NodeType): seq<SlotKind>
  {
    match t
    case AssignStatement => [Required, Required]
    case ArrayExpression => [Multiple]
    case BinaryExpression => [Required, Required]
    case BlockStatement => [Multiple]
    case BracketExpression => [Required, Required]
    case BreakStatement => [Optional]
    case MethodCallExpression => [Required, Multiple]
    case MethodCallArgument => [Optional, Required]
    case MemberCallExpression => [Required, Multiple]
    case ContinueStatement => [Optional]
    case CstyleForStatement => [Optional, Optional, Optional, Required]
    case DictExpression => [Multiple]
    case DictProperty => [Required, Optional]
    case DoWhileStatement => [Required, Required]
    case EmptyStatement => []
    case EnumEntry => [Required, Optional]
    case EnumStatementNode => [Required, Multiple]
    case ErrorExpression => [Multiple]
    case ErrorProperty => [Required, Optional]
    case ExitStatement => []
    case ExpressionStatement => [Required]
    case ForOfStatement => [Required, Required, Required]
    case ForToStatement => [Required, Required, Required, Required]
    case FunctionArgument => [Required, Optional]
    case FunctionDeclarationNode => [Required, Multiple, Optional]
    case FunctionExpressionNode => [Required]
    case Identifier => []
    case IfStatement => [Required, Required, Optional]
    case ImportDeclaration => [Required]
    case InvalidExpression => []
    case InvalidStatement => []
    case LabeledStatement => [Required, Required]
    case LogicalExpression => [Required, Required]
    case MemberExpression => [Required, Required]
    case ModuleFunctionArgument => [Required, Optional]
    case ModuleFunctionDeclarationNode => [Required, Multiple]
    case NumericLiteral => []
    case ParenthesizedExpression => [Required]
    case ProgramNode => [Multiple]
    case ProgramArgument => [Required, Optional]
    case ProgramDeclarationNode => [Required, Multiple, Required]
    case RepeatStatement => [Required, Required]
    case ReturnStatement => [Optional]
    case ScopedCallExpression => [Required, Required]
    case SequenceExpression => [Multiple]
    case StringLiteral => []
    case StructExpression => [Multiple]
    case StructProperty => [Required, Optional]
    case SwitchCase => [Optional, Multiple]
    case SwitchStatement => [Required, Multiple]
    case UnaryExpression => [Required]
    case UpdateExpression => [Required]
    case VariableDeclarationNode => [Multiple]
    case VariableDeclarator => [Required, Optional]
    case WhileStatement => [Required, Required]
  }

  predicate SlotFits(s: Slot, k: SlotKind)
  {
    match k
    case Required => s.One?
    case Optional => s.Opt?
    case Multiple => s.Many?
  }

  /** A node whose parts match its type's shape. */
  predicate WellShaped(n: TsNode)
  {
    |n.slots| == |Shape(n.nodeType)| && forall i :: 0 <= i < |n.slots| ==> SlotFits(n.slots[i], Shape(n.nodeType)[i])
  }

  function SlotNodes(s: Slot): seq<TsNode>
  {
    match s
    case One(c) => [c]
    case Opt(o) => if o.Some? then [o.value] else []
    case Many(cs) => cs
  }

  function SlotsNodes(ss: seq<Slot>): seq<TsNode>
  {
    if ss == [] then [] else SlotsNodes(ss[..|ss| - 1]) + SlotNodes(ss[|ss| - 1])
  }

  /** `Node.children`: the parts in order, absent optional parts left out. */
  function Children(n: TsNode): seq<TsNode>
  {
    SlotsNodes(n.slots)
  }

  lemma {:induction false} SlotsNodesSmaller(ss: seq<Slot>, c: TsNode, n: TsNode)
    requires forall s :: s in ss ==> s in n.slots
    requires c in SlotsNodes(ss)
    ensures c < n
  {
    if ss != [] {
      var last := ss[|ss| - 1];
      assert last in n.slots;
      if c in SlotNodes(last) {
        match last
        case One(x) =>
        case Opt(o) =>
        case Many(cs) =>
      } else {
        SlotsNodesSmaller(ss[..|ss| - 1], c, n);
      }
    }
  }

  /** Every child is a smaller node. */
  lemma ChildSmaller(n: TsNode, c: TsNode)
    requires c in Children(n)
    ensures c < n
  {
    SlotsNodesSmaller(n.slots, c, n);
  }

  lemma AllChildrenSmaller(n: TsNode)
    ensures forall i :: 0 <= i < |Children(n)| ==> Children(n)[i] < n
  {
    forall i | 0 <= i < |Children(n)| ensures Children(n)[i] < n { ChildSmaller(n, Children(n)[i]); }
  }

  /** An absent optional part contributes no child, a present one exactly itself. */
  lemma {:induction false} SlotsNodesAppend(a: seq<Slot>, b: seq<Slot>)
    ensures SlotsNodes(a + b) == SlotsNodes(a) + SlotsNodes(b)
    decreases |b|
  {
    if b == [] {
      assert a + b == a;
    } else {
      assert (a + b)[..|a + b| - 1] == a + b[..|b| - 1];
      SlotsNodesAppend(a, b[..|b| - 1]);
    }
  }

  /** The children of an if statement: test, consequent and, when present, the alternate. */
  lemma IfChildren(n: TsNode)
    requires n.nodeType == IfStatement && WellShaped(n)
    ensures Children(n) == [n.slots[0].node, n.slots[1].node] + (if n.slots[2].opt.Some? then [n.slots[2].opt.value] else [])
  {
    var ss := n.slots;
    assert ss == [ss[0]] + [ss[1]] + [ss[2]];
    SlotsNodesAppend([ss[0]] + [ss[1]], [ss[2]]);
    SlotsNodesAppend([ss[0]], [ss[1]]);
    assert SlotsNodes([ss[0]]) == SlotNodes(ss[0]) by { assert [ss[0]][..0] == []; }
    assert SlotsNodes([ss[1]]) == SlotNodes(ss[1]) by { assert [ss[1]][..0] == []; }
    assert SlotsNodes([ss[2]]) == SlotNodes(ss[2]) by { assert [ss[2]][..0] == []; }
  }

  /** The children of a C-style for: init, test and update when present, then the body. */
  lemma CstyleForChildren(n: TsNode)
    requires n.nodeType == CstyleForStatement && WellShaped(n)
    ensures Children(n) == SlotNodes(n.slots[0]) + SlotNodes(n.slots[1]) + SlotNodes(n.slots[2]) + [n.slots[3].node]
    ensures |Children(n)| == 1 + (if n.slots[0].opt.Some? then 1 else 0) + (if n.slots[1].opt.Some? then 1 else 0) + (if n.slots[2].opt.Some? then 1 else 0)
  {
    var ss := n.slots;
    assert ss == [ss[0]] + [ss[1]] + [ss[2]] + [ss[3]];
    SlotsNodesAppend([ss[0]] + [ss[1]] + [ss[2]], [ss[3]]);
    SlotsNodesAppend([ss[0]] + [ss[1]], [ss[2]]);
    SlotsNodesAppend([ss[0]], [ss[1]]);
    assert SlotsNodes([ss[0]]) == SlotNodes(ss[0]) by { assert [ss[0]][..0] == []; }
    assert SlotsNodes([ss[1]]) == SlotNodes(ss[1]) by { assert [ss[1]][..0] == []; }
    assert SlotsNodes([ss[2]]) == SlotNodes(ss[2]) by { assert [ss[2]][..0] == []; }
    assert SlotsNodes([ss[3]]) == SlotNodes(ss[3]) by { assert [ss[3]][..0] == []; }
  }

  /** Leaf node types have no children. */
  lemma LeavesHaveNoChildren(n: TsNode)
    requires WellShaped(n) && Shape(n.nodeType) == []
    ensures Children(n) == []
  {
  }

  // ---------------------------------------------------------------------
  // find
  // ---------------------------------------------------------------------

  /** The index of the first node of `cs` whose range contains `where`. */
  function FirstContaining(cs: seq<TsNode>, where: TsPosition): (r: Option<nat>)
    ensures r.Some? ==> (r.value < |cs| && ContainsPosition(cs[r.value].range, where) &&
      forall k :: 0 <= k < r.value ==> !ContainsPosition(cs[k].range, where))
    ensures r.None? ==> forall k :: 0 <= k < |cs| ==> !ContainsPosition(cs[k].range, where)
  {
    FirstContainingFrom(cs, where, 0)
  }

  function FirstContainingFrom(cs: seq<TsNode>, where: TsPosition, from: nat): (r: Option<nat>)
    ensures r.Some? ==> (from <= r.value < |cs| && ContainsPosition(cs[r.value].range, where) &&
      forall k :: from <= k < r.value ==> !ContainsPosition(cs[k].range, where))
    ensures r.None? ==> forall k :: from <= k < |cs| ==> !ContainsPosition(cs[k].range, where)
    decreases |cs| - from
  {
    if from >= |cs| then None
    else if ContainsPosition(cs[from].range, where) then Some(from)
    else FirstContainingFrom(cs, where, from + 1)
  }

  /** The nodes `find` passes to its callback: from `n` down through first containing children. */
  function FindPath(n: TsNode, where: TsPosition): (path: seq<TsNode>)
    decreases n
    ensures |path| >= 1 && path[0] == n
  {
    match FirstContaining(Children(n), where)
    case None => [n]
    case Some(i) =>
      ChildSmaller(n, Children(n)[i]);
      [n] + FindPath(Children(n)[i], where)
  }

  /** `Node.find` as a value: null when the root does not contain the position, else the end of the path. */
  function FindNode(root: TsNode, where: TsPosition): Option<TsNode>
  {
    if !ContainsPosition(root.range, where) then None
    else var path := FindPath(root, where); Some(path[|path| - 1])
  }

  /** Each step of the path is the first child, in `children` order, that contains the position. */
  lemma {:induction false} PathSteps(n: TsNode, where: TsPosition, k: nat)
    requires k + 1 < |FindPath(n, where)|
    ensures var path := FindPath(n, where);
      var i := FirstContaining(Children(path[k]), where);
      i.Some? && path[k + 1] == Children(path[k])[i.value]
    decreases n
  {
    var i := FirstContaining(Children(n), where);
    ChildSmaller(n, Children(n)[i.value]);
    if k > 0 {
      PathSteps(Children(n)[i.value], where, k - 1);
    }
  }

  /** Below the root, every node on the path contains the position, and its last node has no child that does. */
  lemma {:induction false} PathEnd(n: TsNode, where: TsPosition)
    ensures var path := FindPath(n, where);
      (forall k :: 0 < k < |path| ==> ContainsPosition(path[k].range, where)) &&
      (forall c :: c in Children(path[|path| - 1]) ==> !ContainsPosition(c.range, where))
    decreases n
  {
    match FirstContaining(Children(n), where)
    case None =>
    case Some(i) =>
      var c := Children(n)[i];
      ChildSmaller(n, c);
      PathEnd(c, where);
      var tail := FindPath(c, where);
      assert FindPath(n, where) == [n] + tail;
  }

  /** The node `find` returns contains the position and none of its children do. */
  lemma FoundNodeIsInnermost(root: TsNode, where: TsPosition)
    requires FindNode(root, where).Some?
    ensures ContainsPosition(FindNode(root, where).value.range, where)
    ensures forall c :: c in Children(FindNode(root, where).value) ==> !ContainsPosition(c.range, where)
  {
    PathEnd(root, where);
  }

  /** `Node.find` with its callback: the result and the nodes the callback saw, root first. */
  method Find(root: TsNode, where: TsPosition) returns (r: Option<TsNode>, seen: seq<TsNode>)
    ensures r == FindNode(root, where)
    ensures r.None? ==> seen == []
    ensures r.Some? ==> seen == FindPath(root, where)
  {
    if !ContainsPosition(root.range, where) {
      return None, [];
    }
    var current := root;
    seen := [];
    while true
      invariant seen + FindPath(current, where) == FindPath(root, where)
      decreases current
    {
      seen := seen + [current];
      var kids := Children(current);
      var next := None;
      var k := 0;
      while k < |kids|
        invariant 0 <= k <= |kids|
        invariant next.None? ==> forall j :: 0 <= j < k ==> !ContainsPosition(kids[j].range, where)
        invariant next.Some? ==> next == FirstContaining(kids, where)
      {
        if ContainsPosition(kids[k].range, where) {
          next := Some(k);
          break;
        }
        k := k + 1;
      }
      if next.None? {
        assert FirstContaining(kids, where).None?;
        assert seen == FindPath(root, where);
        break;
      }
      ChildSmaller(current, kids[next.value]);
      current := kids[next.value];
    }
    r := Some(seen[|seen| - 1]);
  }

  // ---------------------------------------------------------------------
  // visitChildren
  // ---------------------------------------------------------------------

  /** The number of nodes in a tree. */
  function Size(n: TsNode): nat
    decreases n, 1
  {
    AllChildrenSmaller(n);
    1 + SizesOf(Children(n), n)
  }

  function SizesOf(cs: seq<TsNode>, parent: TsNode): nat
    requires forall i :: 0 <= i < |cs| ==> cs[i] < parent
    decreases parent, 0, |cs|
  {
    if cs == [] then 0
    else
      SizesOf(cs[..|cs| - 1], parent) + Size(cs[|cs| - 1])
  }

  /** The size of a queue of nodes. */
  function QueueSize(q: seq<TsNode>): nat
  {
    if q == [] then 0 else QueueSize(q[..|q| - 1]) + Size(q[|q| - 1])
  }

  lemma {:induction false} SizesOfIsQueueSize(cs: seq<TsNode>, parent: TsNode)
    requires forall i :: 0 <= i < |cs| ==> cs[i] < parent
    ensures SizesOf(cs, parent) == QueueSize(cs)
    decreases |cs|
  {
    if cs != [] {
      SizesOfIsQueueSize(cs[..|cs| - 1], parent);
    }
  }

  lemma {:induction false} QueueSizeAppend(a: seq<TsNode>, b: seq<TsNode>)
    ensures QueueSize(a + b) == QueueSize(a) + QueueSize(b)
    decreases |b|
  {
    if b == [] {
      assert a + b == a;
    } else {
      assert (a + b)[..|a + b| - 1] == a + b[..|b| - 1];
      QueueSizeAppend(a, b[..|b| - 1]);
    }
  }

  /** Dequeuing a node and enqueuing its children shrinks the queue by one node. */
  lemma DequeueShrinks(q: seq<TsNode>)
    requires q != []
    ensures QueueSize(q[1..] + Children(q[0])) + 1 == QueueSize(q)
  {
    var n := q[0];
    AllChildrenSmaller(n);
    SizesOfIsQueueSize(Children(n), n);
    QueueSizeAppend(q[1..], Children(n));
    assert q == [n] + q[1..];
    QueueSizeAppend([n], q[1..]);
    assert [n][..0] == [];
  }

  /** The callback calls made while draining queue `q`: each dequeued node's children, in order. */
  function Bfs(q: seq<TsNode>): seq<TsNode>
    decreases QueueSize(q)
  {
    if q == [] then []
    else
      DequeueShrinks(q);
      Children(q[0]) + Bfs(q[1..] + Children(q[0]))
  }

  /** The proper descendants of a node, as a multiset. */
  function Descendants(n: TsNode): multiset<TsNode>
    decreases n, 1
  {
    AllChildrenSmaller(n);
    DescendantsOf(Children(n), n)
  }

  function DescendantsOf(cs: seq<TsNode>, parent: TsNode): multiset<TsNode>
    requires forall i :: 0 <= i < |cs| ==> cs[i] < parent
    decreases parent, 0, |cs|
  {
    if cs == [] then multiset{}
    else
      DescendantsOf(cs[..|cs| - 1], parent) + multiset{cs[|cs| - 1]} + Descendants(cs[|cs| - 1])
  }

  /** The descendants of every node of a queue, as a multiset. */
  function QueueDescendants(q: seq<TsNode>): multiset<TsNode>
  {
    if q == [] then multiset{} else QueueDescendants(q[..|q| - 1]) + Descendants(q[|q| - 1])
  }

  lemma {:induction false} QueueDescendantsAppend(a: seq<TsNode>, b: seq<TsNode>)
    ensures QueueDescendants(a + b) == QueueDescendants(a) + QueueDescendants(b)
    decreases |b|
  {
    if b == [] {
      assert a + b == a;
    } else {
      assert (a + b)[..|a + b| - 1] == a + b[..|b| - 1];
      QueueDescendantsAppend(a, b[..|b| - 1]);
    }
  }

  lemma {:induction false} DescendantsOfSplit(cs: seq<TsNode>, parent: TsNode)
    requires forall i :: 0 <= i < |cs| ==> cs[i] < parent
    ensures DescendantsOf(cs, parent) == multiset(cs) + QueueDescendants(cs)
    decreases |cs|
  {
    if cs != [] {
      DescendantsOfSplit(cs[..|cs| - 1], parent);
      assert cs == cs[..|cs| - 1] + [cs[|cs| - 1]];
    }
  }

  /** Draining a queue calls back exactly once for every descendant of its nodes. */
  lemma {:induction false} BfsVisitsDescendants(q: seq<TsNode>)
    ensures multiset(Bfs(q)) == QueueDescendants(q)
    decreases QueueSize(q)
  {
    if q != [] {
      var n := q[0];
      DequeueShrinks(q);
      BfsVisitsDescendants(q[1..] + Children(n));
      QueueDescendantsAppend(q[1..], Children(n));
      AllChildrenSmaller(n);
      DescendantsOfSplit(Children(n), n);
      assert q == [n] + q[1..];
      QueueDescendantsAppend([n], q[1..]);
      assert [n][..0] == [];
    }
  }

  /** `visitChildren` calls back on the root, then on every node below it exactly once. */
  lemma VisitChildrenCoversTree(root: TsNode)
    ensures multiset([root] + Bfs([root])) == multiset{root} + Descendants(root)
  {
    BfsVisitsDescendants([root]);
    assert [root][..0] == [];
  }

  /** The inner loop of `visitChildren`: call back on each child and enqueue it. */
  method EnqueueChildren(calls: seq<TsNode>, nodes: seq<TsNode>, kids: seq<TsNode>) returns (calls': seq<TsNode>, nodes': seq<TsNode>)
    ensures calls' == calls + kids && nodes' == nodes + kids
  {
    calls', nodes' := calls, nodes;
    var k := 0;
    while k < |kids|
      invariant 0 <= k <= |kids|
      invariant calls' == calls + kids[..k] && nodes' == nodes + kids[..k]
    {
      calls' := calls' + [kids[k]];
      nodes' := nodes' + [kids[k]];
      assert kids[..k + 1] == kids[..k] + [kids[k]];
      k := k + 1;
    }
    assert kids[..k] == kids;
  }

  /** `Node.visitChildren`: the callback calls, as the sequence of nodes passed to it. */
  method VisitChildren(root: TsNode) returns (calls: seq<TsNode>)
    ensures calls == [root] + Bfs([root])
  {
    var nodes := [root];
    calls := [root];
    while nodes != []
      invariant calls + Bfs(nodes) == [root] + Bfs([root])
      decreases QueueSize(nodes)
    {
      ghost var q0 := nodes;
      ghost var c0 := calls;
      var current := nodes[0];
      var kids := Children(current);
      DequeueShrinks(q0);
      assert Bfs(q0) == kids + Bfs(q0[1..] + kids);
      calls, nodes := EnqueueChildren(calls, nodes[1..], kids);
      assert c0 + Bfs(q0) == calls + Bfs(nodes);
    }
  }

  // ---------------------------------------------------------------------
  // Loop.is
  // ---------------------------------------------------------------------

  /** `Loop.is`. */
  predicate IsLoop(t: NodeType)
  {
    match t
    case ForOfStatement => true
    case CstyleForStatement => true
    case ForToStatement => true
    case RepeatStatement => true
    case DoWhileStatement => true
    case WhileStatement => true
    case _ => false
  }

  /** Exactly the six loop statements are loops. */
  lemma LoopTypes(t: NodeType)
    ensures IsLoop(t) <==> t in {ForOfStatement, CstyleForStatement, ForToStatement, RepeatStatement, DoWhileStatement, WhileStatement}
  {
  }
}
