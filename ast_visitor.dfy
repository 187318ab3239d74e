/**
 * The checks the TypeScript server's tree visitor makes
 * (`server/src/grammars/ast-visitor.ts`): the targets of `break` and
 * `continue`, the arguments of a call against the callee's parameters,
 * where labels are allowed, the stack of scopes with innermost-first
 * resolution and stored function scopes, the declaration of parameters and
 * the order of the emitted semantic tokens.
 */
module AstVisitor {
  import opened Common
  import opened TsUtils
  import opened TsAst
  import opened Semantics

  datatype Diagnostic = Diagnostic(range: TsRange, message: string)

  /** A semantic token: line, character, length, token type and modifiers. */
  datatype SemanticToken = SemanticToken(line: int, character: int, length: nat, tokenType: nat, modifiers: nat)

  /** The positions of `parameter` and `label` in the token type legend. */
  const ParameterTokenType: nat := 13
  const LabelTokenType: nat := 15

  // ---------------------------------------------------------------------
  // break and continue
  // ---------------------------------------------------------------------

  /** The name of a labeled statement's label. */
  function LabelName(n: TsNode): Option<string>
  {
    if n.nodeType == LabeledStatement && |n.slots| >= 1 && n.slots[0].One? then Some(n.slots[0].node.name) else None
  }

  /** An enclosing statement a jump may leave: any switch or loop when unlabeled, the statement with that label otherwise. */
  predicate IsJumpTarget(n: TsNode, target: Option<string>)
  {
    if target.None? then n.nodeType == SwitchStatement || IsLoop(n.nodeType)
    else LabelName(n) == target
  }

  predicate HasJumpTarget(stack: seq<TsNode>, target: Option<string>)
  {
    exists k :: 0 <= k < |stack| && IsJumpTarget(stack[k], target)
  }

  /** A labeled loop is a target for a jump to its label but, being labeled, not the unlabeled jump's own target. */
  lemma LabeledLoopTargets(n: TsNode, l: string)
    requires n.nodeType == LabeledStatement && |n.slots| >= 1 && n.slots[0].One? && n.slots[0].node.name == l
    ensures IsJumpTarget(n, Some(l)) && !IsJumpTarget(n, None)
  {
  }

  // ---------------------------------------------------------------------
  // Labels
  // ---------------------------------------------------------------------

  /** The statements a label may stand on. */
  predicate LabelAllowed(t: NodeType)
  {
    t in {ForOfStatement, CstyleForStatement, DoWhileStatement, ForToStatement, WhileStatement}
  }

  /** Every statement a label is allowed on is a loop; `repeat` is the one loop it is not allowed on. */
  lemma AllowedLabelsAreLoops(t: NodeType)
    ensures LabelAllowed(t) ==> IsLoop(t)
    ensures IsLoop(t) && !LabelAllowed(t) <==> t == RepeatStatement
  {
  }

  // ---------------------------------------------------------------------
  // Call arguments
  // ---------------------------------------------------------------------

  datatype ArgName = ArgName(name: string, range: TsRange)

  /** A call argument: the parameter it names, if any, and the range of its value. */
  datatype CallArg = CallArg(argument: Option<ArgName>, valueRange: TsRange)

  /** One entry of the `required` dictionary: a parameter, whether it is required, and how often it was passed. */
  datatype Counter = Counter(name: string, required: bool, count: nat)

  function Names(table: seq<Counter>): (r: seq<string>)
    ensures |r| == |table| && forall i :: 0 <= i < |table| ==> r[i] == table[i].name
  {
    if table == [] then [] else [table[0].name] + Names(table[1..])
  }

  /** `Object.assign({ ...p }, { [name]: ... })`: an existing key keeps its place and takes the new flag. */
  function PutCounter(table: seq<Counter>, key: string, required: bool): (r: seq<Counter>)
    ensures Names(r) == if key in Names(table) then Names(table) else Names(table) + [key]
    ensures forall i :: 0 <= i < |r| ==> r[i].count == 0 || (i < |table| && r[i] == table[i])
  {
    if table == [] then [Counter(key, required, 0)]
    else if table[0].name == key then [Counter(key, required, 0)] + table[1..]
    else [table[0]] + PutCounter(table[1..], key, required)
  }

  function ParamNames(args: seq<Param>): (r: seq<string>)
    ensures |r| == |args| && forall i :: 0 <= i < |args| ==> r[i] == Lower(args[i].casedName)
  {
    seq(|args|, i requires 0 <= i < |args| => Lower(args[i].casedName))
  }

  /** The `required` dictionary before the arguments are counted. */
  function RequiredTable(args: seq<Param>): (r: seq<Counter>)
    ensures forall i :: 0 <= i < |r| ==> r[i].count == 0
  {
    if args == [] then []
    else
      var last := args[|args| - 1];
      var init := RequiredTable(args[..|args| - 1]);
      var r := PutCounter(init, Lower(last.casedName), last.required);
      r
  }

  /** The dictionary holds every parameter's lower-cased name, and nothing else. */
  lemma {:induction false} RequiredTableKeys(args: seq<Param>, key: string)
    ensures key in Names(RequiredTable(args)) <==> key in ParamNames(args)
  {
    if args != [] {
      var init := args[..|args| - 1];
      RequiredTableKeys(init, key);
      ParamNamesSnoc(args, key);
    }
  }

  /** A name is among the parameters' names when it is among the first ones' or is the last one's. */
  lemma ParamNamesSnoc(args: seq<Param>, key: string)
    requires args != []
    ensures var init := args[..|args| - 1];
      key in ParamNames(args) <==> key in ParamNames(init) || key == Lower(args[|args| - 1].casedName)
  {
    var init := args[..|args| - 1];
    var a, b := ParamNames(args), ParamNames(init);
    assert forall i :: 0 <= i < |b| ==> a[i] == b[i];
    assert a == b + [a[|args| - 1]];
    assert a[|args| - 1] == Lower(args[|args| - 1].casedName);
  }

  /** The parameter the `k`-th argument counts for: the one it names, else the one at its position. */
  function ArgTarget(args: seq<Param>, ca: seq<CallArg>, k: nat): Option<string>
    requires k < |ca|
  {
    if ca[k].argument.Some? then
      (if Lower(ca[k].argument.value.name) in ParamNames(args) then Some(Lower(ca[k].argument.value.name)) else None)
    else if k < |args| then Some(Lower(args[k].casedName))
    else None
  }

  /** How many of the first `k` arguments count for parameter `n`. */
  function CountBefore(args: seq<Param>, ca: seq<CallArg>, k: nat, n: string): nat
    requires k <= |ca|
  {
    if k == 0 then 0 else CountBefore(args, ca, k - 1, n) + (if ArgTarget(args, ca, k - 1) == Some(n) then 1 else 0)
  }

  function PassedTwice(name: string, callee: string): string
  {
    "Parameter '" + name + "' passed more than once to '" + callee + "'."
  }

  function NoSuchParameter(name: string, callee: string): string
  {
    "Parameter '" + name + "' passed by name to '" + callee + "', which takes no such parameter."
  }

  const TooMany := "Too many parameters passed to function call."

  /** The diagnostics of the `k`-th argument. */
  function ArgDiagnostics(callee: string, args: seq<Param>, ca: seq<CallArg>, callRange: TsRange, k: nat): seq<Diagnostic>
    requires k < |ca|
  {
    var c := ca[k];
    if c.argument.Some? then
      var a := c.argument.value;
      if Lower(a.name) in ParamNames(args) then
        (if CountBefore(args, ca, k, Lower(a.name)) >= 1 then [Diagnostic(a.range, PassedTwice(a.name, callee))] else [])
      else [Diagnostic(a.range, NoSuchParameter(a.name, callee))]
    else if k >= |args| then [Diagnostic(callRange, TooMany)]
    else
      var n := Lower(args[k].casedName);
      if CountBefore(args, ca, k, n) >= 1 then [Diagnostic(c.valueRange, PassedTwice(n, callee))] else []
  }

  /** The semantic token of the `k`-th argument: a `parameter` token on a name the callee takes. */
  function ArgTokens(args: seq<Param>, ca: seq<CallArg>, k: nat): seq<SemanticToken>
    requires k < |ca|
  {
    var c := ca[k];
    if c.argument.Some? && Lower(c.argument.value.name) in ParamNames(args) then
      var a := c.argument.value;
      [SemanticToken(a.range.start.line, a.range.start.character, |a.name|, ParameterTokenType, 0)]
    else []
  }

  function ArgsDiagnostics(callee: string, args: seq<Param>, ca: seq<CallArg>, callRange: TsRange, k: nat): seq<Diagnostic>
    requires k <= |ca|
  {
    if k == 0 then [] else ArgsDiagnostics(callee, args, ca, callRange, k - 1) + ArgDiagnostics(callee, args, ca, callRange, k - 1)
  }

  function ArgsTokens(args: seq<Param>, ca: seq<CallArg>, k: nat): seq<SemanticToken>
    requires k <= |ca|
  {
    if k == 0 then [] else ArgsTokens(args, ca, k - 1) + ArgTokens(args, ca, k - 1)
  }

  /** The required parameters no argument counted for, in the dictionary's order. */
  function MissingNames(table: seq<Counter>, args: seq<Param>, ca: seq<CallArg>): (r: seq<string>)
    ensures forall n :: n in r <==> exists i :: 0 <= i < |table| && table[i].name == n && table[i].required && CountBefore(args, ca, |ca|, n) == 0
  {
    if table == [] then []
    else
      var rest := MissingNames(table[1..], args, ca);
      assert forall i :: 1 <= i < |table| ==> table[i] == table[1..][i - 1];
      (if table[0].required && CountBefore(args, ca, |ca|, table[0].name) == 0 then [table[0].name] else []) + rest
  }

  /** The one diagnostic listing every missing argument. */
  function MissingMessage(missing: seq<string>): string
  {
    var s := if |missing| > 1 then "s" else "";
    "Missing argument" + s + ", and there " + (if s != "" then "are" else "is") + " no default" + s + ": " + Join(missing, ", ") + "."
  }

  function MissingDiagnostics(args: seq<Param>, ca: seq<CallArg>, callRange: TsRange): seq<Diagnostic>
  {
    var missing := MissingNames(RequiredTable(args), args, ca);
    if missing == [] then [] else [Diagnostic(callRange, MissingMessage(missing))]
  }

  /** The argument checks of `visitMethodCallExpression` for a callable callee with parameters. */
  function CallDiagnostics(callee: string, args: seq<Param>, ca: seq<CallArg>, callRange: TsRange): seq<Diagnostic>
  {
    ArgsDiagnostics(callee, args, ca, callRange, |ca|) + MissingDiagnostics(args, ca, callRange)
  }

  /** A positional argument past the declared parameters, and only that, is "too many". */
  lemma TooManyExactly(callee: string, args: seq<Param>, ca: seq<CallArg>, callRange: TsRange, k: nat)
    requires k < |ca|
    ensures Diagnostic(callRange, TooMany) in ArgDiagnostics(callee, args, ca, callRange, k) <==> (ca[k].argument.None? && k >= |args|)
  {
    var c := ca[k];
    if c.argument.Some? {
      var a := c.argument.value;
      if Lower(a.name) in ParamNames(args) {
        assert PassedTwice(a.name, callee) != TooMany by { assert PassedTwice(a.name, callee)[0] == 'P'; }
      } else {
        assert NoSuchParameter(a.name, callee) != TooMany by { assert NoSuchParameter(a.name, callee)[0] == 'P'; }
      }
    } else if k < |args| {
      var n := Lower(args[k].casedName);
      assert PassedTwice(n, callee) != TooMany by { assert PassedTwice(n, callee)[0] == 'P'; }
    }
  }

  /** An argument is reported as passed again exactly when an earlier argument already counted for its parameter. */
  lemma PassedAgainReported(callee: string, args: seq<Param>, ca: seq<CallArg>, callRange: TsRange, k: nat, n: string)
    requires k < |ca| && ArgTarget(args, ca, k) == Some(n)
    ensures ArgDiagnostics(callee, args, ca, callRange, k) != [] <==> CountBefore(args, ca, k, n) >= 1
  {
  }

  /** A name the callee does not take is reported, and counts for nothing. */
  lemma UnknownNameReported(callee: string, args: seq<Param>, ca: seq<CallArg>, callRange: TsRange, k: nat)
    requires k < |ca| && ca[k].argument.Some? && Lower(ca[k].argument.value.name) !in ParamNames(args)
    ensures ArgDiagnostics(callee, args, ca, callRange, k) == [Diagnostic(ca[k].argument.value.range, NoSuchParameter(ca[k].argument.value.name, callee))]
    ensures ArgTarget(args, ca, k).None?
  {
  }

  lemma {:induction false} CountGrows(args: seq<Param>, ca: seq<CallArg>, k: nat, m: nat, n: string)
    requires k <= m <= |ca|
    ensures CountBefore(args, ca, k, n) <= CountBefore(args, ca, m, n)
    decreases m - k
  {
    if k < m {
      CountGrows(args, ca, k, m - 1, n);
    }
  }

  /** A parameter an argument counted for is never reported missing. */
  lemma PassedNotMissing(args: seq<Param>, ca: seq<CallArg>, k: nat)
    requires k < |ca| && ArgTarget(args, ca, k).Some?
    ensures ArgTarget(args, ca, k).value !in MissingNames(RequiredTable(args), args, ca)
  {
    CountGrows(args, ca, k + 1, |ca|, ArgTarget(args, ca, k).value);
  }

  /** A required parameter with no arguments at all is reported missing. */
  lemma RequiredMissingWithoutArguments(p: Param)
    requires p.required
    ensures MissingNames(RequiredTable([p]), [p], []) == [Lower(p.casedName)]
  {
    assert [p][..0] == [];
  }

  function Inc(table: seq<Counter>, key: string): (r: seq<Counter>)
    ensures |r| == |table|
    ensures forall i :: 0 <= i < |table| ==>
      (r[i].name == table[i].name && r[i].required == table[i].required && r[i].count == table[i].count + (if table[i].name == key then 1 else 0))
  {
    if table == [] then [] else [if table[0].name == key then table[0].(count := table[0].count + 1) else table[0]] + Inc(table[1..], key)
  }

  /** The count the table holds for `key`: that of its entry, when there is one. */
  function CountOf(table: seq<Counter>, key: string): nat
  {
    if table == [] then 0 else if table[0].name == key then table[0].count else CountOf(table[1..], key)
  }

  /** After `i` arguments, the table has the initial keys and flags, each counting its arguments. */
  predicate CountedUpTo(table: seq<Counter>, args: seq<Param>, ca: seq<CallArg>, i: nat)
    requires i <= |ca|
  {
    var base := RequiredTable(args);
    |table| == |base| &&
    forall e :: 0 <= e < |table| ==> table[e].name == base[e].name && table[e].required == base[e].required && table[e].count == CountBefore(args, ca, i, base[e].name)
  }

  lemma {:induction false} CountOfCounted(table: seq<Counter>, names: seq<string>, key: string, counts: string -> nat)
    requires |table| == |names| && forall e :: 0 <= e < |table| ==> table[e].name == names[e] && table[e].count == counts(names[e])
    requires key in names
    ensures CountOf(table, key) == counts(key)
  {
    if table[0].name != key {
      CountOfCounted(table[1..], names[1..], key, counts);
    }
  }

  lemma StepCounts(table: seq<Counter>, args: seq<Param>, ca: seq<CallArg>, i: nat)
    requires i < |ca| && CountedUpTo(table, args, ca, i)
    ensures ArgTarget(args, ca, i).Some? ==> CountedUpTo(Inc(table, ArgTarget(args, ca, i).value), args, ca, i + 1)
    ensures ArgTarget(args, ca, i).None? ==> CountedUpTo(table, args, ca, i + 1)
  {
  }

  lemma CountOfTable(table: seq<Counter>, args: seq<Param>, ca: seq<CallArg>, i: nat, key: string)
    requires i <= |ca| && CountedUpTo(table, args, ca, i) && key in ParamNames(args)
    ensures key in Names(table) && CountOf(table, key) == CountBefore(args, ca, i, key)
  {
    RequiredTableKeys(args, key);
    var base := RequiredTable(args);
    assert Names(table) == Names(base);
    CountOfCounted(table, Names(base), key, n => CountBefore(args, ca, i, n));
  }

  function MissingFromTable(table: seq<Counter>): (r: seq<string>)
  {
    if table == [] then []
    else (if table[0].required && table[0].count == 0 then [table[0].name] else []) + MissingFromTable(table[1..])
  }

  lemma {:induction false} MissingFromCounted(table: seq<Counter>, base: seq<Counter>, args: seq<Param>, ca: seq<CallArg>)
    requires |table| == |base|
    requires forall e :: 0 <= e < |table| ==> table[e].name == base[e].name && table[e].required == base[e].required && table[e].count == CountBefore(args, ca, |ca|, base[e].name)
    ensures MissingFromTable(table) == MissingNames(base, args, ca)
  {
    if table != [] {
      MissingFromCounted(table[1..], base[1..], args, ca);
    }
  }

  /** One argument of the loop below: its count, its diagnostics and its token. */
  method CountArgument(callee: string, args: seq<Param>, names: seq<string>, callArgs: seq<CallArg>, callRange: TsRange, i: nat, required: seq<Counter>)
    returns (next: seq<Counter>, diagnostics: seq<Diagnostic>, tokens: seq<SemanticToken>)
    requires i < |callArgs| && names == ParamNames(args) && CountedUpTo(required, args, callArgs, i)
    ensures CountedUpTo(next, args, callArgs, i + 1)
    ensures diagnostics == ArgDiagnostics(callee, args, callArgs, callRange, i)
    ensures tokens == ArgTokens(args, callArgs, i)
  {
    var callArg := callArgs[i];
    StepCounts(required, args, callArgs, i);
    next := required;
    diagnostics := [];
    tokens := [];
    if callArg.argument.Some? {
      var a := callArg.argument.value;
      if Lower(a.name) in names {
        var symName := Lower(a.name);
        tokens := [SemanticToken(a.range.start.line, a.range.start.character, |a.name|, ParameterTokenType, 0)];
        CountOfTable(required, args, callArgs, i, symName);
        if symName in Names(required) {
          var passedCount := CountOf(required, symName) + 1;
          next := Inc(required, symName);
          if passedCount > 1 {
            diagnostics := [Diagnostic(a.range, PassedTwice(a.name, callee))];
          }
        }
      } else {
        diagnostics := [Diagnostic(a.range, NoSuchParameter(a.name, callee))];
      }
    } else if i >= |args| {
      diagnostics := [Diagnostic(callRange, TooMany)];
    } else {
      var symName := Lower(args[i].casedName);
      CountOfTable(required, args, callArgs, i, symName);
      if symName in Names(required) {
        var passedCount := CountOf(required, symName) + 1;
        next := Inc(required, symName);
        if passedCount > 1 {
          diagnostics := [Diagnostic(callArg.valueRange, PassedTwice(symName, callee))];
        }
      }
    }
  }

  /**
   * The argument loop of `visitMethodCallExpression`: each argument counts
   * for the parameter it names or stands at, a second count is reported,
   * an unknown name or a surplus positional argument is reported, and at
   * the end the required parameters never counted are reported together.
   */
  method CheckCallArguments(callee: string, args: seq<Param>, callArgs: seq<CallArg>, callRange: TsRange)
    returns (diagnostics: seq<Diagnostic>, tokens: seq<SemanticToken>)
    ensures diagnostics == CallDiagnostics(callee, args, callArgs, callRange)
    ensures tokens == ArgsTokens(args, callArgs, |callArgs|)
  {
    var required := RequiredTable(args);
    var names := ParamNames(args);
    diagnostics := [];
    tokens := [];
    var i := 0;
    while i < |callArgs|
      invariant 0 <= i <= |callArgs|
      invariant CountedUpTo(required, args, callArgs, i)
      invariant diagnostics == ArgsDiagnostics(callee, args, callArgs, callRange, i)
      invariant tokens == ArgsTokens(args, callArgs, i)
    {
      var d, ts;
      required, d, ts := CountArgument(callee, args, names, callArgs, callRange, i, required);
      diagnostics := diagnostics + d;
      tokens := tokens + ts;
      i := i + 1;
    }
    MissingFromCounted(required, RequiredTable(args), args, callArgs);
    var missing := MissingFromTable(required);
    if |missing| > 0 {
      diagnostics := diagnostics + [Diagnostic(callRange, MissingMessage(missing))];
    }
  }

  /** The callee checks: a symbol that is not callable is reported; a callable one with parameters has its arguments checked. */
  function CalleeDiagnostics(callee: Sym, ca: seq<CallArg>, calleeRange: TsRange, callRange: TsRange): (r: seq<Diagnostic>)
    reads callee
    ensures !IsCallable(callee.symType) ==> r == [Diagnostic(calleeRange, "Expected callable function, got " + TypeName(callee.symType))]
    ensures IsCallable(callee.symType) && callee.children.None? ==> r == []
    ensures IsCallable(callee.symType) && callee.children.Some? ==> r == CallDiagnostics(callee.casedName, callee.children.value, ca, callRange)
  {
    if !IsCallable(callee.symType) then [Diagnostic(calleeRange, "Expected callable function, got " + TypeName(callee.symType))]
    else if callee.children.Some? then CallDiagnostics(callee.casedName, callee.children.value, ca, callRange)
    else []
  }

  // ---------------------------------------------------------------------
  // Parameters
  // ---------------------------------------------------------------------

  /** A declared parameter: its name, where it is, whether it is a program's, and whether it has a default initializer. */
  datatype ArgDecl = ArgDecl(name: string, location: Location, ofProgram: bool, hasInit: bool)

  function ArgSymType(d: ArgDecl): (t: SymType)
    ensures MapFor(t) == SymbolsMap
  {
    if d.ofProgram then ProgramArgumentSym else FunctionArgumentSym
  }

  /** The names a scope has taken, each with where it was defined. */
  type Taken = map<string, Location>

  /** Taking a parameter's name: a name already taken keeps its first location. */
  function Take(taken: Taken, d: ArgDecl): Taken
  {
    if Lower(d.name) in taken then taken else taken[Lower(d.name) := d.location]
  }

  /** The parameters a scope accepts, in order: a name already taken is refused. */
  function Accepted(decls: seq<ArgDecl>, taken: Taken): seq<ArgDecl>
  {
    if decls == [] then []
    else if Lower(decls[0].name) in taken then Accepted(decls[1..], taken)
    else [decls[0]] + Accepted(decls[1..], Take(taken, decls[0]))
  }

  /** The names taken once every parameter has been tried. */
  function TakenAfter(decls: seq<ArgDecl>, taken: Taken): Taken
  {
    if decls == [] then taken else TakenAfter(decls[1..], Take(taken, decls[0]))
  }

  /** The diagnostics of the refused parameters, each naming where the name was first defined. */
  function Refusals(decls: seq<ArgDecl>, taken: Taken): seq<string>
  {
    if decls == [] then []
    else if Lower(decls[0].name) in taken then
      ["Error: " + AlreadyDefinedAt(Lower(decls[0].name), taken[Lower(decls[0].name)])] + Refusals(decls[1..], taken)
    else Refusals(decls[1..], Take(taken, decls[0]))
  }

  /** The parameters the function symbol records: required exactly when there is no default. */
  function ParamsOf(decls: seq<ArgDecl>): (r: seq<Param>)
    ensures |r| == |decls| && forall i :: 0 <= i < |decls| ==> r[i] == Param(decls[i].name, !decls[i].hasInit)
  {
    if decls == [] then [] else [Param(decls[0].name, !decls[0].hasInit)] + ParamsOf(decls[1..])
  }

  lemma ParamsOfAppend(a: seq<ArgDecl>, b: seq<ArgDecl>)
    ensures ParamsOf(a + b) == ParamsOf(a) + ParamsOf(b)
  {
  }

  /** Every parameter's name ends up taken, and no other name is added. */
  lemma {:induction false} TakenAfterNames(decls: seq<ArgDecl>, taken: Taken)
    ensures TakenAfter(decls, taken).Keys == taken.Keys + LowerNames(decls)
    ensures forall n :: n in taken ==> TakenAfter(decls, taken)[n] == taken[n]
  {
    if decls != [] {
      TakenAfterNames(decls[1..], Take(taken, decls[0]));
      LowerNamesCons(decls);
    }
  }

  /** The lower-cased names of the parameters. */
  function LowerNames(decls: seq<ArgDecl>): set<string>
  {
    set i | 0 <= i < |decls| :: Lower(decls[i].name)
  }

  lemma LowerNamesCons(decls: seq<ArgDecl>)
    requires decls != []
    ensures LowerNames(decls) == {Lower(decls[0].name)} + LowerNames(decls[1..])
  {
    var s, s1 := LowerNames(decls), LowerNames(decls[1..]);
    forall x | x in s ensures x in {Lower(decls[0].name)} + s1 {
      var i :| 0 <= i < |decls| && Lower(decls[i].name) == x;
      if i > 0 { assert Lower(decls[1..][i - 1].name) == x; }
    }
    forall x | x in s1 ensures x in s {
      var i :| 0 <= i < |decls[1..]| && Lower(decls[1..][i].name) == x;
      assert Lower(decls[i + 1].name) == x;
    }
  }

  /** The parameter list `addArg` leaves after appending `ps`: unchanged when there is nothing to append. */
  function WithParams(children: Option<seq<Param>>, ps: seq<Param>): Option<seq<Param>>
  {
    if ps == [] then children else Some((if children.Some? then children.value else []) + ps)
  }

  lemma WithParamsAppend(children: Option<seq<Param>>, ps: seq<Param>, p: Param)
    ensures WithParams(WithParams(children, ps), [p]) == WithParams(children, ps + [p])
  {
    var l := if children.Some? then children.value else [];
    if ps == [] {
      assert ps + [p] == [p];
    } else {
      assert l + ps + [p] == l + (ps + [p]);
    }
  }

  /** `visitFunctionArgument` and its kin: the parameter is defined in the function's scope, or refused with a diagnostic. */
  method DefineParam(childScope: Scope, d: ArgDecl) returns (symbol: Option<Sym>, error: Option<string>)
    modifies childScope
    ensures Lower(d.name) in old(childScope.symbols) ==> childScope.symbols == old(childScope.symbols)
    ensures DefinedAt(childScope.symbols) == Take(old(DefinedAt(childScope.symbols)), d)
    ensures symbol.Some? <==> Lower(d.name) !in old(childScope.symbols.Keys)
    ensures error == if Lower(d.name) in old(childScope.symbols.Keys)
      then Some("Error: " + AlreadyDefinedAt(Lower(d.name), old(childScope.symbols[Lower(d.name)].location))) else None
    ensures childScope.labels == old(childScope.labels) && childScope.types == old(childScope.types)
  {
    var sym := new Sym(d.name, ArgSymType(d), d.location, None);
    assert MapFor(sym.symType) == SymbolsMap;
    var r := childScope.Define(sym);
    assert childScope.MapOf(LabelsMap) == old(childScope.MapOf(LabelsMap)) && childScope.MapOf(TypesMap) == old(childScope.MapOf(TypesMap));
    if r.Failure? {
      symbol := None;
      error := Some("Error: " + r.error);
    } else {
      symbol := Some(sym);
      error := None;
    }
  }

  /** How trying the `i`-th parameter moves the accepted, refused and taken names along. */
  lemma DeclareStep(decls: seq<ArgDecl>, i: nat, keys: Taken)
    requires i < |decls|
    ensures var n := Lower(decls[i].name);
      if n in keys then
        Accepted(decls[i..], keys) == Accepted(decls[i + 1..], keys) &&
        Refusals(decls[i..], keys) == ["Error: " + AlreadyDefinedAt(n, keys[n])] + Refusals(decls[i + 1..], keys) &&
        TakenAfter(decls[i..], keys) == TakenAfter(decls[i + 1..], keys)
      else
        Accepted(decls[i..], keys) == [decls[i]] + Accepted(decls[i + 1..], keys[n := decls[i].location]) &&
        Refusals(decls[i..], keys) == Refusals(decls[i + 1..], keys[n := decls[i].location]) &&
        TakenAfter(decls[i..], keys) == TakenAfter(decls[i + 1..], keys[n := decls[i].location])
  {
    assert decls[i..][0] == decls[i] && decls[i..][1..] == decls[i + 1..];
  }

  /** After `i` parameters: the names taken, the parameters accepted and the diagnostics so far agree with the whole run's. */
  ghost predicate DeclaredUpTo(decls: seq<ArgDecl>, taken0: Taken, i: nat, keys: Taken, accepted: seq<ArgDecl>, diagnostics: seq<string>)
    requires i <= |decls|
  {
    TakenAfter(decls[i..], keys) == TakenAfter(decls, taken0) &&
    Accepted(decls, taken0) == accepted + Accepted(decls[i..], keys) &&
    Refusals(decls, taken0) == diagnostics + Refusals(decls[i..], keys)
  }

  lemma DeclaredStep(decls: seq<ArgDecl>, taken0: Taken, i: nat, keys: Taken, accepted: seq<ArgDecl>, diagnostics: seq<string>)
    requires i < |decls| && DeclaredUpTo(decls, taken0, i, keys, accepted, diagnostics)
    ensures var n := Lower(decls[i].name);
      DeclaredUpTo(decls, taken0, i + 1, Take(keys, decls[i]),
        if n in keys then accepted else accepted + [decls[i]],
        if n in keys then diagnostics + ["Error: " + AlreadyDefinedAt(n, keys[n])] else diagnostics)
  {
    DeclareStep(decls, i, keys);
    var n := Lower(decls[i].name);
    var next := Take(keys, decls[i]);
    var tail := decls[i + 1..];
    if n in keys {
      var m := "Error: " + AlreadyDefinedAt(n, keys[n]);
      assert next == keys;
      Regroup(Refusals(decls, taken0), diagnostics, [m], Refusals(tail, next));
    } else {
      Regroup(Accepted(decls, taken0), accepted, [decls[i]], Accepted(tail, next));
    }
  }

  lemma Regroup<T>(whole: seq<T>, done: seq<T>, step: seq<T>, rest: seq<T>)
    requires whole == done + (step + rest)
    ensures whole == (done + step) + rest
  {
  }

  lemma DeclaredEnd(decls: seq<ArgDecl>, taken0: Taken, keys: Taken, accepted: seq<ArgDecl>, diagnostics: seq<string>)
    requires DeclaredUpTo(decls, taken0, |decls|, keys, accepted, diagnostics)
    ensures keys == TakenAfter(decls, taken0) && accepted == Accepted(decls, taken0) && diagnostics == Refusals(decls, taken0)
  {
    assert decls[|decls|..] == [];
    assert accepted + [] == accepted;
    assert diagnostics + [] == diagnostics;
  }

  /** `func.addArg` for an accepted parameter: the parameter is appended, and no symbol of the scope moves. */
  method RecordParam(func: Sym, childScope: Scope, p: Param)
    modifies func
    ensures func.children == WithParams(old(func.children), [p])
    ensures DefinedAt(childScope.symbols) == old(DefinedAt(childScope.symbols))
  {
    func.AddArg(p);
    forall k | k in childScope.symbols
      ensures childScope.symbols[k].location == old(childScope.symbols[k].location)
    {
    }
  }

  /**
   * The parameter loop of `visitFunctionLikeDeclaration`: each parameter is
   * defined in the function's scope; one whose name is already there is
   * refused with a diagnostic, the others are recorded on the function,
   * required exactly when they have no default initializer.
   */
  method DeclareParams(func: Option<Sym>, childScope: Scope, decls: seq<ArgDecl>) returns (diagnostics: seq<string>)
    modifies childScope
    modifies if func.Some? then {func.value} else {}
    ensures DefinedAt(childScope.symbols) == TakenAfter(decls, old(DefinedAt(childScope.symbols)))
    ensures childScope.labels == old(childScope.labels) && childScope.types == old(childScope.types)
    ensures func.Some? ==> func.value.children == WithParams(old(func.value.children), ParamsOf(Accepted(decls, old(DefinedAt(childScope.symbols)))))
    ensures diagnostics == Refusals(decls, old(DefinedAt(childScope.symbols)))
  {
    ghost var taken0 := DefinedAt(childScope.symbols);
    ghost var before := if func.Some? then func.value.children else None;
    ghost var accepted: seq<ArgDecl> := [];
    diagnostics := [];
    var i := 0;
    assert decls[0..] == decls;
    while i < |decls|
      invariant 0 <= i <= |decls|
      invariant DeclaredUpTo(decls, taken0, i, DefinedAt(childScope.symbols), accepted, diagnostics)
      invariant childScope.labels == old(childScope.labels) && childScope.types == old(childScope.types)
      invariant func.Some? ==> func.value.children == WithParams(before, ParamsOf(accepted))
    {
      var d := decls[i];
      DeclaredStep(decls, taken0, i, DefinedAt(childScope.symbols), accepted, diagnostics);
      var symbol, error := DefineParam(childScope, d);
      if error.Some? {
        diagnostics := diagnostics + [error.value];
      }
      if symbol.Some? {
        ParamsOfAppend(accepted, [d]);
        assert ParamsOf([d]) == [Param(d.name, !d.hasInit)];
        WithParamsAppend(before, ParamsOf(accepted), Param(d.name, !d.hasInit));
        accepted := accepted + [d];
        if func.Some? {
          RecordParam(func.value, childScope, Param(d.name, !d.hasInit));
        }
      }
      i := i + 1;
    }
    DeclaredEnd(decls, taken0, DefinedAt(childScope.symbols), accepted, diagnostics);
  }

  /** Parameters with distinct new names are all accepted, none refused. */
  lemma {:induction false} DistinctParamsAccepted(decls: seq<ArgDecl>, taken: Taken)
    requires forall i :: 0 <= i < |decls| ==> Lower(decls[i].name) !in taken
    requires forall i, j :: 0 <= i < j < |decls| ==> Lower(decls[i].name) != Lower(decls[j].name)
    ensures Accepted(decls, taken) == decls && Refusals(decls, taken) == []
  {
    if decls != [] {
      DistinctParamsAccepted(decls[1..], Take(taken, decls[0]));
      HeadTail(decls);
    }
  }

  /** A parameter repeating the first one's name is refused with the "already defined" diagnostic, which points at the first one. */
  lemma RepeatedParamRefused(a: ArgDecl, b: ArgDecl)
    requires Lower(a.name) == Lower(b.name)
    ensures Accepted([a, b], map[]) == [a]
    ensures Refusals([a, b], map[]) == ["Error: " + AlreadyDefinedAt(Lower(b.name), a.location)]
  {
    var taken := map[Lower(a.name) := a.location];
    assert Take(map[], a) == taken;
    assert [a, b][0] == a && [a, b][1..] == [b];
    assert [b][0] == b && [b][1..] == [];
    assert Accepted([b], taken) == [];
    assert Refusals([b], taken) == ["Error: " + AlreadyDefinedAt(Lower(b.name), a.location)];
  }

  // ---------------------------------------------------------------------
  // Semantic token order
  // ---------------------------------------------------------------------

  predicate TokenBefore(a: SemanticToken, b: SemanticToken)
  {
    a.line < b.line || (a.line == b.line && a.character <= b.character)
  }

  predicate TokensSorted(ts: seq<SemanticToken>)
  {
    forall i, j :: 0 <= i < j < |ts| ==> TokenBefore(ts[i], ts[j])
  }

  lemma SortedSnoc(ts: seq<SemanticToken>, last: SemanticToken)
    requires TokensSorted(ts) && forall i :: 0 <= i < |ts| ==> TokenBefore(ts[i], last)
    ensures TokensSorted(ts + [last])
  {
  }

  /** Inserts `t` after every token not after it, keeping equal positions in emission order. */
  function InsertToken(sorted: seq<SemanticToken>, t: SemanticToken): (r: seq<SemanticToken>)
    requires TokensSorted(sorted)
    ensures TokensSorted(r) && multiset(r) == multiset(sorted) + multiset{t}
  {
    if sorted == [] then [t]
    else
      var last := sorted[|sorted| - 1];
      var init := sorted[..|sorted| - 1];
      assert sorted == init + [last];
      if TokenBefore(last, t) then
        SortedSnoc(sorted, t);
        sorted + [t]
      else
        var r0 := InsertToken(init, t);
        assert forall i :: 0 <= i < |r0| ==> TokenBefore(r0[i], last) by {
          forall i | 0 <= i < |r0| ensures TokenBefore(r0[i], last) {
            assert r0[i] in multiset(r0);
            if r0[i] != t {
              assert r0[i] in multiset(init);
              var k :| 0 <= k < |init| && init[k] == r0[i];
              assert sorted[k] == init[k];
            }
          }
        }
        SortedSnoc(r0, last);
        r0 + [last]
  }

  /** The semantic tokens, sorted by line and then character, stably. */
  function SortTokens(ts: seq<SemanticToken>): (r: seq<SemanticToken>)
    ensures TokensSorted(r) && multiset(r) == multiset(ts)
  {
    if ts == [] then []
    else
      assert ts == ts[..|ts| - 1] + [ts[|ts| - 1]];
      InsertToken(SortTokens(ts[..|ts| - 1]), ts[|ts| - 1])
  }

  predicate SamePosition(a: SemanticToken, b: SemanticToken)
  {
    a.line == b.line && a.character == b.character
  }

  /** The tokens of `ts` at the position of `u`, in their order in `ts`. */
  function TokensAt(ts: seq<SemanticToken>, u: SemanticToken): seq<SemanticToken>
  {
    if ts == [] then []
    else TokensAt(ts[..|ts| - 1], u) + (if SamePosition(ts[|ts| - 1], u) then [ts[|ts| - 1]] else [])
  }

  lemma {:induction false} TokensAtAppend(a: seq<SemanticToken>, b: seq<SemanticToken>, u: SemanticToken)
    ensures TokensAt(a + b, u) == TokensAt(a, u) + TokensAt(b, u)
  {
    if b != [] {
      var ab := a + b;
      assert ab[..|ab| - 1] == a + b[..|b| - 1];
      assert ab[|ab| - 1] == b[|b| - 1];
      TokensAtAppend(a, b[..|b| - 1], u);
    } else {
      assert a + b == a;
    }
  }

  /** Insertion places `t` after every token at its position, so tokens at one position keep their order. */
  lemma {:induction false} InsertTokenStable(sorted: seq<SemanticToken>, t: SemanticToken, u: SemanticToken)
    requires TokensSorted(sorted)
    ensures TokensAt(InsertToken(sorted, t), u) == TokensAt(sorted + [t], u)
  {
    if sorted != [] {
      var last := sorted[|sorted| - 1];
      var init := sorted[..|sorted| - 1];
      assert sorted == init + [last];
      if !TokenBefore(last, t) {
        var r0 := InsertToken(init, t);
        assert InsertToken(sorted, t) == r0 + [last];
        InsertTokenStable(init, t, u);
        TokensAtAppend(r0, [last], u);
        TokensAtAppend(init, [t], u);
        TokensAtAppend(init, [last], u);
        TokensAtAppend(sorted, [t], u);
        DistinctPlacesCommute(t, last, u);
        ConcatAssoc(TokensAt(init, u), TokensAt([t], u), TokensAt([last], u));
        ConcatAssoc(TokensAt(init, u), TokensAt([last], u), TokensAt([t], u));
      }
    }
  }

  lemma ConcatAssoc(a: seq<SemanticToken>, b: seq<SemanticToken>, c: seq<SemanticToken>)
    ensures (a + b) + c == a + (b + c)
  {
  }

  /** Two tokens at different positions cannot both be at the position of `u`. */
  lemma DistinctPlacesCommute(t: SemanticToken, v: SemanticToken, u: SemanticToken)
    requires !TokenBefore(v, t)
    ensures TokensAt([t], u) + TokensAt([v], u) == TokensAt([v], u) + TokensAt([t], u)
  {
    assert [t][..0] == [] && [v][..0] == [];
  }

  /**
   * The sort is stable, as JavaScript's `Array.prototype.sort` is: the
   * tokens at any one position come out in the order they were emitted.
   */
  lemma {:induction false} SortTokensStable(ts: seq<SemanticToken>, u: SemanticToken)
    ensures TokensAt(SortTokens(ts), u) == TokensAt(ts, u)
  {
    if ts != [] {
      var init := ts[..|ts| - 1];
      var x := ts[|ts| - 1];
      assert ts == init + [x];
      SortTokensStable(init, u);
      InsertTokenStable(SortTokens(init), x, u);
      TokensAtAppend(SortTokens(init), [x], u);
      TokensAtAppend(init, [x], u);
    }
  }

  // ---------------------------------------------------------------------
  // The visitor's state
  // ---------------------------------------------------------------------

  const MaxSafeInteger: int := 9007199254740991

  class Visitor {
    const uri: string
    var stackVisit: seq<TsNode>
    var currentScope: seq<Scope>
    /** The scopes kept for function declarations, keyed by the declaration. */
    var storedScopes: map<nat, Scope>
    var semToks: seq<SemanticToken>

    constructor(uri: string)
      ensures this.uri == uri && stackVisit == [] && currentScope == [] && storedScopes == map[] && semToks == []
    {
      this.uri := uri;
      stackVisit := [];
      currentScope := [];
      storedScopes := map[];
      semToks := [];
    }

    /** The statements `visit` wraps: pushed onto `stackVisit` before their own visit and popped after. */
    method EnterStatement(n: TsNode)
      modifies this
      ensures stackVisit == old(stackVisit) + [n]
      ensures currentScope == old(currentScope) && storedScopes == old(storedScopes) && semToks == old(semToks)
    {
      stackVisit := stackVisit + [n];
    }

    method LeaveStatement()
      modifies this
      ensures stackVisit == if old(stackVisit) == [] then [] else old(stackVisit)[..|old(stackVisit)| - 1]
      ensures currentScope == old(currentScope) && storedScopes == old(storedScopes) && semToks == old(semToks)
    {
      if stackVisit != [] {
        stackVisit := stackVisit[..|stackVisit| - 1];
      }
    }

    /** `viewJumpTarget`: searches the visit stack innermost-first for a statement the jump may leave. */
    method ViewJumpTarget(target: Option<string>, jumpRange: TsRange) returns (diagnostics: seq<Diagnostic>)
      ensures HasJumpTarget(stackVisit, target) ==> diagnostics == []
      ensures !HasJumpTarget(stackVisit, target) ==> diagnostics == [Diagnostic(jumpRange, "No valid break target")]
    {
      var index := |stackVisit|;
      while index > 0
        invariant 0 <= index <= |stackVisit|
        invariant forall k :: index <= k < |stackVisit| ==> !IsJumpTarget(stackVisit[k], target)
      {
        index := index - 1;
        var current := stackVisit[index];
        if target.None? {
          if current.nodeType == SwitchStatement || IsLoop(current.nodeType) {
            return [];
          }
        } else if current.nodeType == LabeledStatement && LabelName(current) == target {
          return [];
        }
      }
      return [Diagnostic(jumpRange, "No valid break target")];
    }

    /** `pushScope`: a new scope over the node's range, or over the whole document for the initial one. */
    method PushScope(location: Location, initial: bool) returns (childScope: Scope)
      modifies this, if currentScope != [] then {currentScope[|currentScope| - 1]} else {}
      ensures fresh(childScope)
      ensures childScope.location == if initial then Location(uri, TsRange(TsPosition(1, 1), TsPosition(MaxSafeInteger, MaxSafeInteger))) else location
      ensures childScope.symbols == map[] && childScope.labels == map[] && childScope.types == map[] && childScope.children == []
      ensures old(currentScope) != [] ==> var enclosing := old(currentScope)[|old(currentScope)| - 1];
        enclosing.children == old(enclosing.children) + [childScope] &&
        enclosing.symbols == old(enclosing.symbols) && enclosing.labels == old(enclosing.labels) && enclosing.types == old(enclosing.types)
      ensures currentScope == old(currentScope) + [childScope]
      ensures stackVisit == old(stackVisit) && storedScopes == old(storedScopes) && semToks == old(semToks)
    {
      var loc := if initial then Location(uri, TsRange(TsPosition(1, 1), TsPosition(MaxSafeInteger, MaxSafeInteger))) else location;
      var enclosing := if currentScope != [] then Some(currentScope[|currentScope| - 1]) else None;
      childScope := new Scope(loc, enclosing);
      currentScope := currentScope + [childScope];
    }

    method PopScope()
      modifies this
      ensures currentScope == if old(currentScope) == [] then [] else old(currentScope)[..|old(currentScope)| - 1]
      ensures stackVisit == old(stackVisit) && storedScopes == old(storedScopes) && semToks == old(semToks)
    {
      if currentScope != [] {
        currentScope := currentScope[..|currentScope| - 1];
      }
    }

    /** `storeScope`: keeps the function's scope for later and leaves it. */
    method StoreScope(key: nat, scope: Scope)
      modifies this
      ensures storedScopes == old(storedScopes)[key := scope]
      ensures currentScope == if old(currentScope) == [] then [] else old(currentScope)[..|old(currentScope)| - 1]
      ensures stackVisit == old(stackVisit) && semToks == old(semToks)
    {
      storedScopes := storedScopes[key := scope];
      PopScope();
    }

    /** `restoreScope`: re-enters a stored scope and forgets it, so it is restored at most once. */
    method RestoreScope(key: nat) returns (r: Option<Scope>)
      modifies this
      ensures key in old(storedScopes) ==> (r == Some(old(storedScopes)[key]) && currentScope == old(currentScope) + [r.value] && storedScopes == old(storedScopes) - {key})
      ensures key !in old(storedScopes) ==> (r.None? && currentScope == old(currentScope) && storedScopes == old(storedScopes))
      ensures key !in storedScopes
      ensures stackVisit == old(stackVisit) && semToks == old(semToks)
    {
      if key in storedScopes {
        var scope := storedScopes[key];
        currentScope := currentScope + [scope];
        storedScopes := storedScopes - {key};
        return Some(scope);
      }
      return None;
    }

    /** `resolve`: the scope stack is searched innermost-first. */
    method Resolve(name: string, t: SymbolMapType) returns (r: Option<Sym>)
      ensures r == Innermost(currentScope, name, t)
    {
      var i := |currentScope|;
      assert currentScope[..i] == currentScope;
      while i > 0
        invariant 0 <= i <= |currentScope|
        invariant Innermost(currentScope, name, t) == Innermost(currentScope[..i], name, t)
      {
        var sym := currentScope[i - 1].Resolve(name, t);
        InnermostStep(currentScope, name, t, i);
        if sym.Some? {
          return sym;
        }
        i := i - 1;
      }
      InnermostEmpty(currentScope, name, t);
      return None;
    }

    /** `visitLabeledStatement`: a label off a loop is reported, the label is defined in the scope, and a `label` token is emitted. */
    method VisitLabel(scope: Scope, labelName: string, labelRange: Location, bodyType: NodeType, statementRange: TsRange) returns (diagnostics: seq<Diagnostic>)
      modifies this, scope
      ensures var refused := if LabelAllowed(bodyType) then [] else [Diagnostic(statementRange, "Labels are only allowed in loop statements")];
        if Lower(labelName) in old(scope.labels) then
          diagnostics == refused + [Diagnostic(labelRange.range, "Error: " + AlreadyDefinedAt(Lower(labelName), old(scope.labels[Lower(labelName)].location)))] &&
          scope.labels == old(scope.labels)
        else
          diagnostics == refused && Lower(labelName) in scope.labels && scope.labels.Keys == old(scope.labels.Keys) + {Lower(labelName)}
      ensures scope.symbols == old(scope.symbols) && scope.types == old(scope.types)
      ensures semToks == old(semToks) + [SemanticToken(labelRange.range.start.line, labelRange.range.start.character, |labelName|, LabelTokenType, 0)]
      ensures stackVisit == old(stackVisit) && currentScope == old(currentScope) && storedScopes == old(storedScopes)
    {
      diagnostics := if LabelAllowed(bodyType) then [] else [Diagnostic(statementRange, "Labels are only allowed in loop statements")];
      var sym := new Sym(labelName, LabelSym, labelRange, None);
      assert MapFor(LabelSym) == LabelsMap;
      var r := scope.Define(sym);
      assert scope.MapOf(SymbolsMap) == old(scope.MapOf(SymbolsMap)) && scope.MapOf(TypesMap) == old(scope.MapOf(TypesMap));
      if r.Failure? {
        diagnostics := diagnostics + [Diagnostic(labelRange.range, "Error: " + r.error)];
      }
      semToks := semToks + [SemanticToken(labelRange.range.start.line, labelRange.range.start.character, |labelName|, LabelTokenType, 0)];
    }

    /** The tokens `visit2` returns: every emitted token, sorted by position. */
    function Tokens(): (r: seq<SemanticToken>)
      reads this
      ensures TokensSorted(r) && multiset(r) == multiset(semToks)
    {
      SortTokens(semToks)
    }
  }

  function ScopeObjects(scopes: seq<Scope>): set<Scope>
  {
    set k | 0 <= k < |scopes| :: scopes[k]
  }

  /** The innermost scope's definition of the name, looking outward. */
  function Innermost(scopes: seq<Scope>, name: string, t: SymbolMapType): Option<Sym>
    reads ScopeObjects(scopes)
  {
    if scopes == [] then None
    else
      assert scopes[|scopes| - 1] in ScopeObjects(scopes);
      var here := scopes[|scopes| - 1].Resolve(name, t);
      if here.Some? then here
      else
        ScopeObjectsPrefix(scopes, |scopes| - 1);
        Innermost(scopes[..|scopes| - 1], name, t)
  }

  lemma ScopeObjectsPrefix(scopes: seq<Scope>, i: nat)
    requires i <= |scopes|
    ensures ScopeObjects(scopes[..i]) <= ScopeObjects(scopes)
  {
    forall s | s in ScopeObjects(scopes[..i]) ensures s in ScopeObjects(scopes) {
      var k :| 0 <= k < i && scopes[..i][k] == s;
      assert scopes[k] == s;
    }
  }

  lemma InnermostStep(scopes: seq<Scope>, name: string, t: SymbolMapType, i: nat)
    requires 0 < i <= |scopes|
    ensures scopes[i - 1].Resolve(name, t).Some? ==> Innermost(scopes[..i], name, t) == scopes[i - 1].Resolve(name, t)
    ensures scopes[i - 1].Resolve(name, t).None? ==> Innermost(scopes[..i], name, t) == Innermost(scopes[..i - 1], name, t)
  {
    assert scopes[..i][i - 1] == scopes[i - 1];
    assert scopes[..i][..i - 1] == scopes[..i - 1];
  }

  lemma InnermostEmpty(scopes: seq<Scope>, name: string, t: SymbolMapType)
    ensures Innermost(scopes[..0], name, t).None?
  {
  }

  /** The name resolves exactly when some scope on the stack defines it, to the innermost such definition. */
  lemma {:induction false} InnermostWins(scopes: seq<Scope>, name: string, t: SymbolMapType)
    ensures Innermost(scopes, name, t).Some? <==> exists k :: 0 <= k < |scopes| && scopes[k].Resolve(name, t).Some?
    ensures forall k :: (0 <= k < |scopes| && scopes[k].Resolve(name, t).Some? &&
      forall j :: k < j < |scopes| ==> scopes[j].Resolve(name, t).None?) ==>
      Innermost(scopes, name, t) == scopes[k].Resolve(name, t)
  {
    if scopes != [] {
      var n := |scopes|;
      var init := scopes[..n - 1];
      InnermostWins(init, name, t);
      InnermostStep(scopes, name, t, n);
      assert scopes[..n] == scopes;
      var here := scopes[n - 1].Resolve(name, t);
      if here.None? {
        forall k | 0 <= k < n - 1 ensures init[k] == scopes[k] && init[k].Resolve(name, t) == scopes[k].Resolve(name, t) {
        }
        if exists k :: 0 <= k < n && scopes[k].Resolve(name, t).Some? {
          var k :| 0 <= k < n && scopes[k].Resolve(name, t).Some?;
          assert k < n - 1 && init[k].Resolve(name, t).Some?;
        }
      }
    }
  }
}
