/**
 * `SignatureHelpBuilder`: signature help at the cursor. A backward scan from
 * the token under the cursor, with a stack of parameter counts for the calls
 * it passes over, finds the innermost unclosed call and the index of the
 * active argument; the callee is looked up as a module function, else as a
 * user function, and its label is built with one highlight span per shown
 * parameter.
 *
 * The XML documentation of a module (`get_xml_doc_path` and the XML parser)
 * and `HoverBuilder::replace_literal_tags` are not part of this model: the
 * parsed documentation entries and the formatting of a default's
 * description are given as functions.
 */
module SignatureHelpBuilder {
  import opened Common
  import opened CompilerModel
  import CompletionBuilder

  /** A parsed `<parameter name=... value=...>` documentation entry. */
  datatype DocParam = DocParam(name: string, value: string)

  /** A parameter's highlight span in the label, and its documentation. */
  datatype SignatureParameter = SignatureParameter(start: nat, end: nat, documentation: string)

  datatype SignatureHelp = SignatureHelp(text: string, parameters: seq<SignatureParameter>, activeParameter: nat)

  // ---------------------------------------------------------------------
  // make_signature_help

  /** The value of the first documentation entry with that name, else empty. */
  function Documentation(docs: seq<DocParam>, name: string): (d: string)
    ensures (forall k :: 0 <= k < |docs| ==> docs[k].name != name) ==> d == ""
    ensures forall k :: 0 <= k < |docs| && docs[k].name == name && (forall j :: 0 <= j < k ==> docs[j].name != name) ==> d == docs[k].value
  {
    if docs == [] then ""
    else if docs[0].name == name then docs[0].value
    else
      var rest := Documentation(docs[1..], name);
      assert forall k :: 1 <= k < |docs| ==> docs[k] == docs[1..][k - 1];
      rest
  }

  /** The parameters shown: with `skip_first_param` the first declared one is left out. */
  function Shown(params: seq<Param>, skipFirst: bool): (r: seq<Param>)
    ensures skipFirst && params != [] ==> r == params[1..]
    ensures !skipFirst ==> r == params
  {
    if skipFirst && params != [] then params[1..] else params
  }

  /** One parameter's part of the label: its name, then " := " and its formatted default when it has one. */
  function Piece(p: Param, format: string -> string): string
  {
    p.name + (if p.defaultDescription.Some? then " := " + format(p.defaultDescription.value) else "")
  }

  function Pieces(ps: seq<Param>, format: string -> string): (r: seq<string>)
    ensures |r| == |ps| && forall i :: 0 <= i < |ps| ==> r[i] == Piece(ps[i], format)
  {
    if ps == [] then [] else [Piece(ps[0], format)] + Pieces(ps[1..], format)
  }

  /** The label after the first `i` shown parameters: " p1", ", p2", ... */
  function LabelPrefix(shown: seq<Param>, format: string -> string, i: nat): string
    requires i <= |shown|
  {
    if i == 0 then "" else LabelPrefix(shown, format, i - 1) + (if i == 1 then " " else ", ") + Piece(shown[i - 1], format)
  }

  /** The parameters' part of the label is their pieces joined with ", ", after one space. */
  lemma {:induction false} LabelPrefixIsJoin(shown: seq<Param>, format: string -> string, i: nat)
    requires 0 < i <= |shown|
    ensures LabelPrefix(shown, format, i) == " " + Join(Pieces(shown[..i], format), ", ")
  {
    var front := Pieces(shown[..i - 1], format);
    var x := Piece(shown[i - 1], format);
    assert Pieces(shown[..i], format) == front + [x] by {
      PiecesSnoc(shown, format, i);
    }
    JoinSnoc(front, x, ", ");
    if i > 1 {
      LabelPrefixIsJoin(shown, format, i - 1);
    }
  }

  lemma PiecesSnoc(shown: seq<Param>, format: string -> string, i: nat)
    requires 0 < i <= |shown|
    ensures Pieces(shown[..i], format) == Pieces(shown[..i - 1], format) + [Piece(shown[i - 1], format)]
  {
    var a := Pieces(shown[..i], format);
    var b := Pieces(shown[..i - 1], format) + [Piece(shown[i - 1], format)];
    assert |a| == |b|;
    forall k | 0 <= k < |a|
      ensures a[k] == b[k]
    {
      assert shown[..i][k] == shown[k];
      if k < i - 1 {
        assert shown[..i - 1][k] == shown[k];
      }
    }
  }

  /** `name(`, the parameters, a closing space when there is any, then `)`. */
  function SignatureLabel(name: string, shown: seq<Param>, format: string -> string): string
  {
    name + "(" + LabelPrefix(shown, format, |shown|) + (if shown != [] then " " else "") + ")"
  }

  /** The span of the `i`-th shown parameter: just past its separator, as long as its name. */
  function Span(name: string, shown: seq<Param>, format: string -> string, docs: seq<DocParam>, i: nat): SignatureParameter
    requires i < |shown|
  {
    var start := |name| + 1 + |LabelPrefix(shown, format, i)| + (if i == 0 then 1 else 2);
    SignatureParameter(start, start + |shown[i].name|, Documentation(docs, shown[i].name))
  }

  function SignatureHelpOf(name: string, params: seq<Param>, active: nat, docs: seq<DocParam>, skipFirst: bool, format: string -> string): SignatureHelp
  {
    var shown := Shown(params, skipFirst);
    SignatureHelp(SignatureLabel(name, shown, format), seq(|shown|, i requires 0 <= i < |shown| => Span(name, shown, format, docs, i)), active)
  }

  lemma {:induction false} LabelPrefixGrows(shown: seq<Param>, format: string -> string, i: nat, m: nat)
    requires i <= m <= |shown|
    ensures |LabelPrefix(shown, format, i)| <= |LabelPrefix(shown, format, m)|
    ensures LabelPrefix(shown, format, m)[..|LabelPrefix(shown, format, i)|] == LabelPrefix(shown, format, i)
    decreases m
  {
    if i < m {
      LabelPrefixGrows(shown, format, i, m - 1);
          }
  }

  /**
   * The label/offset invariant: every span lies inside the label and slices
   * exactly its parameter's name out of it, and the spans come in order.
   */
  lemma SpansSliceNames(name: string, params: seq<Param>, active: nat, docs: seq<DocParam>, skipFirst: bool, format: string -> string)
    ensures var h := SignatureHelpOf(name, params, active, docs, skipFirst, format);
      var shown := Shown(params, skipFirst);
      |h.parameters| == |shown| &&
      forall i :: 0 <= i < |shown| ==>
        h.parameters[i].start <= h.parameters[i].end <= |h.text| &&
        h.text[h.parameters[i].start..h.parameters[i].end] == shown[i].name &&
        (i > 0 ==> h.parameters[i - 1].end < h.parameters[i].start)
  {
    var shown := Shown(params, skipFirst);
    var h := SignatureHelpOf(name, params, active, docs, skipFirst, format);
    forall i | 0 <= i < |shown|
      ensures h.parameters[i].start <= h.parameters[i].end <= |h.text|
      ensures h.text[h.parameters[i].start..h.parameters[i].end] == shown[i].name
      ensures i > 0 ==> h.parameters[i - 1].end < h.parameters[i].start
    {
      SpanSlicesName(name, shown, format, docs, i);
      if i > 0 {
      }
    }
  }

  lemma SpanSlicesName(name: string, shown: seq<Param>, format: string -> string, docs: seq<DocParam>, i: nat)
    requires i < |shown|
    ensures var s := Span(name, shown, format, docs, i);
      var whole := SignatureLabel(name, shown, format);
      s.start <= s.end <= |whole| && whole[s.start..s.end] == shown[i].name
  {
    var s := Span(name, shown, format, docs, i);
    var head := name + "(" + LabelPrefix(shown, format, i + 1);
    var whole := SignatureLabel(name, shown, format);
    HeadSlicesName(name, shown, format, i);
    LabelStartsWithHead(name, shown, format, i + 1);
    SliceOfPrefix(whole, head, s.start, s.end);
  }

  /** Within the label up to parameter `i`, its name sits just past the separator. */
  lemma HeadSlicesName(name: string, shown: seq<Param>, format: string -> string, i: nat)
    requires i < |shown|
    ensures var head := name + "(" + LabelPrefix(shown, format, i + 1);
      var start := |name| + 1 + |LabelPrefix(shown, format, i)| + (if i == 0 then 1 else 2);
      start + |shown[i].name| <= |head| && head[start..start + |shown[i].name|] == shown[i].name
  {
    var sep := if i == 0 then " " else ", ";
    var front := name + "(" + LabelPrefix(shown, format, i) + sep;
    var head := name + "(" + LabelPrefix(shown, format, i + 1);
    var n := shown[i].name;
    assert head == front + n + Piece(shown[i], format)[|n|..];
    assert head[|front|..|front| + |n|] == n;
  }

  /** The whole label begins with the label up to any parameter. */
  lemma LabelStartsWithHead(name: string, shown: seq<Param>, format: string -> string, m: nat)
    requires m <= |shown|
    ensures var head := name + "(" + LabelPrefix(shown, format, m);
      |head| <= |SignatureLabel(name, shown, format)| && SignatureLabel(name, shown, format)[..|head|] == head
  {
    LabelPrefixGrows(shown, format, m, |shown|);
    var p := LabelPrefix(shown, format, |shown|);
    var whole := SignatureLabel(name, shown, format);
    assert whole == name + "(" + p + ((if shown != [] then " " else "") + ")");
  }

  /** A slice inside a prefix is the same slice of the whole. */
  lemma SliceOfPrefix(whole: string, head: string, a: nat, b: nat)
    requires |head| <= |whole| && whole[..|head|] == head && a <= b <= |head|
    ensures whole[a..b] == head[a..b]
  {
    forall k | a <= k < b
      ensures whole[k] == head[k]
    {
      assert whole[..|head|][k] == whole[k];
    }
    assert whole[a..b] == head[a..b];
  }

  /** With no shown parameter the label is just `name()`. */
  lemma NoParametersLabel(name: string, params: seq<Param>, active: nat, docs: seq<DocParam>, skipFirst: bool, format: string -> string)
    requires Shown(params, skipFirst) == []
    ensures SignatureHelpOf(name, params, active, docs, skipFirst, format).text == name + "()"
    ensures SignatureHelpOf(name, params, active, docs, skipFirst, format).parameters == []
  {
  }

  /** `make_signature_help`: the label and `current_position` grow together, so each span is taken at the label's length. */
  method MakeSignatureHelp(name: string, params: seq<Param>, active: nat, docs: seq<DocParam>, skipFirst: bool, format: string -> string)
    returns (help: SignatureHelp)
    ensures help == SignatureHelpOf(name, params, active, docs, skipFirst, format)
  {
    var shown := if skipFirst && params != [] then params[1..] else params;
    var added := false;
    var result := name + "(";
    var parameters: seq<SignatureParameter> := [];
    var currentPosition: nat := |result|;
    var i := 0;
    while i < |shown|
      invariant 0 <= i <= |shown|
      invariant Built(name, shown, format, docs, i, added, result, parameters, currentPosition)
    {
      added, result, parameters, currentPosition := AddParameter(name, shown, format, docs, i, added, result, parameters, currentPosition);
      i := i + 1;
    }
    if added {
      result := result + " ";
    }
    result := result + ")";
    help := SignatureHelp(result, parameters, active);
  }

  /** The state of `make_signature_help`'s loop once the first `i` shown parameters are in the label. */
  predicate Built(name: string, shown: seq<Param>, format: string -> string, docs: seq<DocParam>, i: nat,
                  added: bool, result: string, parameters: seq<SignatureParameter>, currentPosition: nat)
    requires i <= |shown|
  {
    added == (i > 0) &&
    result == name + "(" + LabelPrefix(shown, format, i) &&
    currentPosition == |result| &&
    SpansUpTo(name, shown, format, docs, i, parameters)
  }

  /** `parameters` holds the spans of the first `i` shown parameters. */
  predicate SpansUpTo(name: string, shown: seq<Param>, format: string -> string, docs: seq<DocParam>, i: nat, parameters: seq<SignatureParameter>)
    requires i <= |shown|
  {
    |parameters| == i && forall j :: 0 <= j < i ==> parameters[j] == Span(name, shown, format, docs, j)
  }

  lemma SpansExtend(name: string, shown: seq<Param>, format: string -> string, docs: seq<DocParam>, i: nat, parameters: seq<SignatureParameter>)
    requires i < |shown| && SpansUpTo(name, shown, format, docs, i, parameters)
    ensures SpansUpTo(name, shown, format, docs, i + 1, parameters + [Span(name, shown, format, docs, i)])
  {
  }

  /** One turn of the loop: the separator, the name with its span, then the formatted default. */
  method AddParameter(name: string, shown: seq<Param>, format: string -> string, docs: seq<DocParam>, i: nat,
                      added: bool, result: string, parameters: seq<SignatureParameter>, currentPosition: nat)
    returns (added': bool, result': string, parameters': seq<SignatureParameter>, currentPosition': nat)
    requires i < |shown| && Built(name, shown, format, docs, i, added, result, parameters, currentPosition)
    ensures Built(name, shown, format, docs, i + 1, added', result', parameters', currentPosition')
  {
    var param := shown[i];
    added', result', currentPosition' := added, result, currentPosition;
    if added' {
      result' := result' + ", ";
      currentPosition' := currentPosition' + 2;
    } else {
      result' := result' + " ";
      currentPosition' := currentPosition' + 1;
      added' := true;
    }
    ghost var sep := if i == 0 then " " else ", ";
    assert result' == result + sep && currentPosition' == |result'|;
    var documentation := Documentation(docs, param.name);
    var span := SignatureParameter(currentPosition', currentPosition' + |param.name|, documentation);
    assert span == Span(name, shown, format, docs, i);
    SpansExtend(name, shown, format, docs, i, parameters);
    parameters' := parameters + [span];
    result' := result' + param.name;
    currentPosition' := currentPosition' + |param.name|;
    if param.defaultDescription.Some? {
      var formatted := format(param.defaultDescription.value);
      result' := result' + " := ";
      result' := result' + formatted;
      currentPosition' := currentPosition' + |formatted| + 4;
    }
    PieceAppended(result + sep, param, format, result');
    LabelStep(name, shown, format, i, result, result');
  }

  /** The name, then " := " and the formatted default when there is one, appended in that order, make the piece. */
  lemma PieceAppended(before: string, p: Param, format: string -> string, after: string)
    requires after == if p.defaultDescription.Some? then before + p.name + " := " + format(p.defaultDescription.value) else before + p.name
    ensures after == before + Piece(p, format)
  {
  }

  /** The label grows by separator and piece from one parameter to the next. */
  lemma LabelStep(name: string, shown: seq<Param>, format: string -> string, i: nat, result: string, after: string)
    requires i < |shown| && result == name + "(" + LabelPrefix(shown, format, i)
    requires after == result + (if i == 0 then " " else ", ") + Piece(shown[i], format)
    ensures after == name + "(" + LabelPrefix(shown, format, i + 1)
  {
  }

  // ---------------------------------------------------------------------
  // The backward scan

  /** The last token whose range contains the cursor. */
  function LastContaining(tokens: seq<Token>, contains: (Token, Position) -> bool, pos: Position): (r: Option<nat>)
    ensures r.Some? ==> (r.value < |tokens| && contains(tokens[r.value], pos) &&
      forall j :: r.value < j < |tokens| ==> !contains(tokens[j], pos))
    ensures r.None? ==> forall j :: 0 <= j < |tokens| ==> !contains(tokens[j], pos)
  {
    if tokens == [] then None
    else if contains(tokens[|tokens| - 1], pos) then Some(|tokens| - 1)
    else LastContaining(tokens[..|tokens| - 1], contains, pos)
  }

  /** Scanning back from the end down to `k`: inside a class when the nearest class keyword at or after `k` is `endclass`. */
  function InClassFrom(tokens: seq<Token>, k: nat): bool
    requires k <= |tokens|
    decreases |tokens| - k
  {
    if k == |tokens| then false
    else if tokens[k].kind == ENDCLASS then true
    else if tokens[k].kind == CLASS then false
    else InClassFrom(tokens, k + 1)
  }

  datatype ScanResult = Callee(index: nat, activeParameter: nat) | NoCallee

  /**
   * The do-while from token `j` down: ',' counts an argument, ')' saves the
   * count and starts a nested one, '(' restores a saved count, and an
   * unmatched '(' ends the scan at the identifier before it, if there is one.
   */
  function ScanBack(tokens: seq<Token>, j: int, stack: seq<nat>, current: nat): (r: ScanResult)
    requires -1 <= j < |tokens|
    ensures r.Callee? ==> r.index < j && tokens[r.index].kind == IDENTIFIER && tokens[r.index + 1].kind == LPAREN
    decreases j + 1
  {
    if j < 0 then NoCallee
    else
      var t := tokens[j];
      if t.kind == COMMA then ScanBack(tokens, j - 1, stack, current + 1)
      else if t.kind == LPAREN then
        if stack == [] then
          if j >= 1 && tokens[j - 1].kind == IDENTIFIER then Callee(j - 1, current) else NoCallee
        else ScanBack(tokens, j - 1, stack[..|stack| - 1], stack[|stack| - 1])
      else if t.kind == RPAREN then ScanBack(tokens, j - 1, stack + [current], 0)
      else ScanBack(tokens, j - 1, stack, current)
  }

  /** The number of commas among `tokens[lo..hi]`. */
  function Commas(tokens: seq<Token>, lo: nat, hi: nat): nat
    requires lo <= hi <= |tokens|
    decreases hi - lo
  {
    if lo == hi then 0 else Commas(tokens, lo, hi - 1) + (if tokens[hi - 1].kind == COMMA then 1 else 0)
  }

  predicate NoParens(tokens: seq<Token>, lo: int, hi: int)
    requires -1 <= lo && hi < |tokens|
  {
    forall m :: lo < m <= hi ==> tokens[m].kind != LPAREN && tokens[m].kind != RPAREN
  }

  /** Over a stretch without parentheses the scan only counts commas. */
  lemma {:induction false} CommaRun(tokens: seq<Token>, i: int, k: int, stack: seq<nat>, current: nat)
    requires -1 <= i <= k < |tokens|
    requires NoParens(tokens, i, k)
    ensures ScanBack(tokens, k, stack, current) == ScanBack(tokens, i, stack, current + Commas(tokens, i + 1, k + 1))
    decreases k - i
  {
    if i < k {
      var c := if tokens[k].kind == COMMA then 1 else 0;
      ScanPastNonParen(tokens, k, stack, current);
      CommaRun(tokens, i, k - 1, stack, current + c);
    }
  }

  /** A token that is not a parenthesis only adds to the count when it is a comma. */
  lemma ScanPastNonParen(tokens: seq<Token>, k: nat, stack: seq<nat>, current: nat)
    requires k < |tokens| && tokens[k].kind != LPAREN && tokens[k].kind != RPAREN
    ensures ScanBack(tokens, k, stack, current) == ScanBack(tokens, k - 1, stack, current + if tokens[k].kind == COMMA then 1 else 0)
  {
  }

  /** Inside a call with no other parentheses, the callee is the identifier before '(' and the active argument counts the commas since. */
  lemma ActiveParameterIsCommaCount(tokens: seq<Token>, i: nat, k: nat)
    requires 1 <= i <= k < |tokens|
    requires tokens[i].kind == LPAREN && tokens[i - 1].kind == IDENTIFIER
    requires NoParens(tokens, i, k)
    ensures ScanBack(tokens, k, [], 0) == Callee(i - 1, Commas(tokens, i + 1, k + 1))
  {
    CommaRun(tokens, i, k, [], 0);
  }

  /** A completed inner call is passed over: the count outside it is what it was before it. */
  lemma InnerCallSkipped(tokens: seq<Token>, i: nat, j: nat, stack: seq<nat>, current: nat)
    requires i < j < |tokens|
    requires tokens[i].kind == LPAREN && tokens[j].kind == RPAREN
    requires NoParens(tokens, i, j - 1)
    ensures ScanBack(tokens, j, stack, current) == ScanBack(tokens, i - 1, stack, current)
  {
    CommaRun(tokens, i, j - 1, stack + [current], 0);
    assert (stack + [current])[..|stack|] == stack;
  }

  /**
   * Nested calls: with the cursor in `f(a, g(b, c), |`, the help is for `f`
   * and the commas inside `g(...)` are not counted.
   */
  lemma OuterCallAfterInnerCall(tokens: seq<Token>, o: nat, i: nat, j: nat, k: nat)
    requires 1 <= o < i < j < k < |tokens|
    requires tokens[o].kind == LPAREN && tokens[o - 1].kind == IDENTIFIER
    requires tokens[i].kind == LPAREN && tokens[j].kind == RPAREN
    requires NoParens(tokens, o, i - 1) && NoParens(tokens, i, j - 1) && NoParens(tokens, j, k)
    ensures ScanBack(tokens, k, [], 0) == Callee(o - 1, Commas(tokens, o + 1, i) + Commas(tokens, j + 1, k + 1))
  {
    var after := Commas(tokens, j + 1, k + 1);
    var before := Commas(tokens, o + 1, i);
    assert ScanBack(tokens, k, [], 0) == ScanBack(tokens, j, [], after) by {
      CommaRun(tokens, j, k, [], 0);
    }
    assert ScanBack(tokens, j, [], after) == ScanBack(tokens, i - 1, [], after) by {
      InnerCallSkipped(tokens, i, j, [], after);
    }
    assert ScanBack(tokens, i - 1, [], after) == ScanBack(tokens, o, [], after + before) by {
      CommaRun(tokens, o, i - 1, [], after);
    }
    OpenParenCallee(tokens, o, after + before);
  }

  /** An unmatched '(' after an identifier ends the scan with the count so far. */
  lemma OpenParenCallee(tokens: seq<Token>, o: nat, current: nat)
    requires 1 <= o < |tokens| && tokens[o].kind == LPAREN && tokens[o - 1].kind == IDENTIFIER
    ensures ScanBack(tokens, o, [], current) == Callee(o - 1, current)
  {
  }

  /** A '(' with nothing open inside it and no identifier before it gives no callee. */
  lemma NoIdentifierNoCallee(tokens: seq<Token>, i: nat, k: nat)
    requires i <= k < |tokens|
    requires tokens[i].kind == LPAREN && (i == 0 || tokens[i - 1].kind != IDENTIFIER)
    requires NoParens(tokens, i, k)
    ensures ScanBack(tokens, k, [], 0) == NoCallee
  {
    CommaRun(tokens, i, k, [], 0);
  }

  /** The scope before the callee: the identifier before a '::', or global; no '::' gives none. */
  function CalleeScope(tokens: seq<Token>, c: nat): (s: ScopeName)
    requires c < |tokens|
    ensures (c == 0 || tokens[c - 1].kind != COLONCOLON) ==> s == NoScope
    ensures c > 0 && tokens[c - 1].kind == COLONCOLON ==>
      s == if c > 1 && tokens[c - 2].kind == IDENTIFIER then Named(tokens[c - 2].text) else GlobalName
  {
    if c > 0 && tokens[c - 1].kind == COLONCOLON then
      CompletionBuilder.ScopeBefore(if c > 1 then Some(tokens[c - 2]) else None)
    else NoScope
  }

  /** The last `class` keyword at or before index `c`. */
  function ClassTokenAtOrBefore(tokens: seq<Token>, c: int): (r: Option<nat>)
    requires -1 <= c < |tokens|
    ensures r.Some? ==> (r.value <= c && tokens[r.value].kind == CLASS &&
      forall j :: r.value < j <= c ==> tokens[j].kind != CLASS)
    ensures r.None? ==> forall j :: 0 <= j <= c ==> tokens[j].kind != CLASS
    decreases c + 1
  {
    if c < 0 then None
    else if tokens[c].kind == CLASS then Some(c)
    else ClassTokenAtOrBefore(tokens, c - 1)
  }

  /** The first token at or after `from` that is not whitespace. */
  function FirstNonSpace(tokens: seq<Token>, from: nat): (r: Option<nat>)
    requires from <= |tokens|
    ensures r.Some? ==> (from <= r.value < |tokens| && tokens[r.value].kind != WS &&
      forall j :: from <= j < r.value ==> tokens[j].kind == WS)
    ensures r.None? ==> forall j :: from <= j < |tokens| ==> tokens[j].kind == WS
    decreases |tokens| - from
  {
    if from == |tokens| then None
    else if tokens[from].kind != WS then Some(from)
    else FirstNonSpace(tokens, from + 1)
  }

  /** The calling scope inside a class: the identifier after the nearest preceding `class` keyword, else empty. */
  function ClassScope(tokens: seq<Token>, c: nat): string
    requires c < |tokens|
  {
    match ClassTokenAtOrBefore(tokens, c)
    case None => ""
    case Some(k) =>
      if k < |tokens| - 1 then
        (match FirstNonSpace(tokens, k + 1)
         case Some(x) => if tokens[x].kind == IDENTIFIER then tokens[x].text else ""
         case None => "")
      else ""
  }

  /** The query for the call around the cursor and its active argument, when the scan finds a named callee. */
  function CallAt(tokens: seq<Token>, contains: (Token, Position) -> bool, pos: Position): (r: Option<(ScopeTreeQuery, nat)>)
    ensures LastContaining(tokens, contains, pos).None? ==> r.None?
    ensures r.Some? ==> (r.value.0.prefix != "" && r.value.0.currentUserFunction == "" &&
      exists c :: 0 <= c < |tokens| - 1 && tokens[c].kind == IDENTIFIER && tokens[c + 1].kind == LPAREN && tokens[c].text == r.value.0.prefix)
  {
    match LastContaining(tokens, contains, pos)
    case None => None
    case Some(k) =>
      match ScanBack(tokens, k, [], 0)
      case NoCallee => None
      case Callee(c, active) =>
        if tokens[c].text == "" then None
        else
          var cs := if InClassFrom(tokens, k) then ClassScope(tokens, c) else "";
          Some((ScopeTreeQuery(cs, "", CalleeScope(tokens, c), tokens[c].text), active))
  }

  /** The help for a query: the module function if there is one, else the user function, whose `this` is hidden for constructors and `super`. */
  function HelpFor(st: ScopeTree, q: ScopeTreeQuery, active: nat, moduleDocs: (string, string) -> seq<DocParam>, format: string -> string): Option<SignatureHelp>
  {
    match st.findModuleFunction(q)
    case Some(m) => Some(SignatureHelpOf(m.name, m.parameters, active, moduleDocs(m.scope + ".em", m.name), false, format))
    case None =>
      match st.findUserFunction(q)
      case Some(u) =>
        Some(SignatureHelpOf(u.name, u.parameters, active, [], u.kind == UserFunctionType.Constructor || u.kind == UserFunctionType.Super, format))
      case None => None
  }

  function SignatureHelpAt(ws: CompilerWorkspace, contains: (Token, Position) -> bool, pos: Position,
                           moduleDocs: (string, string) -> seq<DocParam>, format: string -> string): Option<SignatureHelp>
  {
    if ws.source.None? then None
    else
      match CallAt(ws.tokens, contains, pos)
      case None => None
      case Some(call) => HelpFor(ws.scopeTree, call.0, call.1, moduleDocs, format)
  }

  /** The module function wins; a user function shows every parameter unless it is a constructor or `super`. */
  lemma ModuleFunctionTriedFirst(st: ScopeTree, q: ScopeTreeQuery, active: nat, moduleDocs: (string, string) -> seq<DocParam>, format: string -> string)
    ensures st.findModuleFunction(q).Some? ==> var m := st.findModuleFunction(q).value;
      HelpFor(st, q, active, moduleDocs, format) == Some(SignatureHelpOf(m.name, m.parameters, active, moduleDocs(m.scope + ".em", m.name), false, format))
    ensures st.findModuleFunction(q).None? && st.findUserFunction(q).None? ==> HelpFor(st, q, active, moduleDocs, format).None?
    ensures st.findModuleFunction(q).None? && st.findUserFunction(q).Some? ==> var u := st.findUserFunction(q).value;
      var h := HelpFor(st, q, active, moduleDocs, format);
      h.Some? && h.value.activeParameter == active &&
      (u.kind != UserFunctionType.Constructor && u.kind != UserFunctionType.Super ==> |h.value.parameters| == |u.parameters|) &&
      (u.kind in {UserFunctionType.Constructor, UserFunctionType.Super} && u.parameters != [] ==> |h.value.parameters| == |u.parameters| - 1)
  {
  }

  // ---------------------------------------------------------------------
  // The methods

  /** The reverse loop that finds the token under the cursor, tracking whether it lies in a class. */
  method FindContaining(tokens: seq<Token>, contains: (Token, Position) -> bool, pos: Position) returns (k: Option<nat>, inClass: bool)
    ensures k == LastContaining(tokens, contains, pos)
    ensures k.Some? ==> inClass == InClassFrom(tokens, k.value)
  {
    var i := |tokens|;
    inClass := false;
    while i > 0
      invariant 0 <= i <= |tokens|
      invariant inClass == InClassFrom(tokens, i)
      invariant forall j :: i <= j < |tokens| ==> !contains(tokens[j], pos)
      invariant LastContaining(tokens, contains, pos) == LastContaining(tokens[..i], contains, pos)
    {
      i := i - 1;
      var token := tokens[i];
      if token.kind == ENDCLASS {
        inClass := true;
      } else if token.kind == CLASS {
        inClass := false;
      }
      if contains(token, pos) {
        assert tokens[..i + 1][..i] == tokens[..i];
        return Some(i), inClass;
      }
      assert tokens[..i + 1][..i] == tokens[..i];
    }
    k := None;
  }

  /** The do-while over the tokens, with the stack of saved counts. */
  method ScanForCallee(tokens: seq<Token>, k: nat) returns (r: ScanResult)
    requires k < |tokens|
    ensures r == ScanBack(tokens, k, [], 0)
  {
    var j: int := k;
    var paramCounts: seq<nat> := [];
    var currentParam: nat := 0;
    while j >= 0
      invariant -1 <= j < |tokens|
      invariant ScanBack(tokens, j, paramCounts, currentParam) == ScanBack(tokens, k, [], 0)
      decreases j + 1
    {
      var token := tokens[j];
      if token.kind == COMMA {
        currentParam := currentParam + 1;
      } else if token.kind == LPAREN {
        if paramCounts == [] {
          if j >= 1 && tokens[j - 1].kind == IDENTIFIER {
            return Callee(j - 1, currentParam);
          }
          return NoCallee;
        } else {
          currentParam := paramCounts[|paramCounts| - 1];
          paramCounts := paramCounts[..|paramCounts| - 1];
        }
      } else if token.kind == RPAREN {
        paramCounts := paramCounts + [currentParam];
        currentParam := 0;
      }
      j := j - 1;
    }
    r := NoCallee;
  }

  /** The class name: back to the `class` keyword, then forward past whitespace to an identifier. */
  method FindClassScope(tokens: seq<Token>, c: nat) returns (scope: string)
    requires CompletionBuilder.WellIndexed(tokens) && c < |tokens|
    ensures scope == ClassScope(tokens, c)
  {
    scope := "";
    var classToken: Option<Token> := None;
    var j: int := c;
    while j >= 0
      invariant -1 <= j <= c
      invariant classToken.None?
      invariant ClassTokenAtOrBefore(tokens, j) == ClassTokenAtOrBefore(tokens, c)
      decreases j + 1
    {
      if tokens[j].kind == CLASS {
        classToken := Some(tokens[j]);
        break;
      }
      j := j - 1;
    }
    if classToken.Some? && classToken.value.tokenIndex < |tokens| - 1 {
      var it := classToken.value.tokenIndex + 1;
      while it < |tokens|
        invariant classToken.value.tokenIndex + 1 <= it <= |tokens|
        invariant FirstNonSpace(tokens, it) == FirstNonSpace(tokens, classToken.value.tokenIndex + 1)
        decreases |tokens| - it
      {
        var forwardToken := tokens[it];
        if forwardToken.kind == WS {
          it := it + 1;
          continue;
        }
        if forwardToken.kind == IDENTIFIER {
          scope := forwardToken.text;
        }
        break;
      }
    }
  }

  /** `context()`. */
  method Context(ws: CompilerWorkspace, contains: (Token, Position) -> bool, pos: Position,
                 moduleDocs: (string, string) -> seq<DocParam>, format: string -> string) returns (r: Option<SignatureHelp>)
    requires CompletionBuilder.WellIndexed(ws.tokens)
    ensures r == SignatureHelpAt(ws, contains, pos, moduleDocs, format)
  {
    if ws.source.None? {
      return None;
    }
    var call := QueryAt(ws.tokens, contains, pos);
    if call.None? {
      return None;
    }
    r := HelpForQuery(ws.scopeTree, call.value.0, call.value.1, moduleDocs, format);
  }

  /** The scan part of `context()`: the token under the cursor, the callee before it and the query for it. */
  method QueryAt(tokens: seq<Token>, contains: (Token, Position) -> bool, pos: Position) returns (call: Option<(ScopeTreeQuery, nat)>)
    requires CompletionBuilder.WellIndexed(tokens)
    ensures call == CallAt(tokens, contains, pos)
  {
    var k, inClass := FindContaining(tokens, contains, pos);
    if k.None? {
      return None;
    }
    var scan := ScanForCallee(tokens, k.value);
    if scan.NoCallee? || tokens[scan.index].text == "" {
      return None;
    }
    var callee := tokens[scan.index];
    var callingScope := "";
    if inClass {
      callingScope := FindClassScope(tokens, scan.index);
    }
    var prefixScope := NoScope;
    if callee.tokenIndex > 0 && tokens[callee.tokenIndex - 1].kind == COLONCOLON {
      if callee.tokenIndex > 1 && tokens[callee.tokenIndex - 2].kind == IDENTIFIER {
        prefixScope := Named(tokens[callee.tokenIndex - 2].text);
      } else {
        prefixScope := GlobalName;
      }
    }
    call := Some((ScopeTreeQuery(callingScope, "", prefixScope, callee.text), scan.activeParameter));
  }

  /** The lookup part of `context()`: the module function first, then the user function. */
  method HelpForQuery(st: ScopeTree, query: ScopeTreeQuery, active: nat,
                      moduleDocs: (string, string) -> seq<DocParam>, format: string -> string) returns (r: Option<SignatureHelp>)
    ensures r == HelpFor(st, query, active, moduleDocs, format)
  {
    var moduleFunction := st.findModuleFunction(query);
    if moduleFunction.Some? {
      var m := moduleFunction.value;
      var help := MakeSignatureHelp(m.name, m.parameters, active, moduleDocs(m.scope + ".em", m.name), false, format);
      return Some(help);
    }
    var userFunction := st.findUserFunction(query);
    if userFunction.Some? {
      var u := userFunction.value;
      var skipFirst := u.kind == UserFunctionType.Constructor || u.kind == UserFunctionType.Super;
      var help := MakeSignatureHelp(u.name, u.parameters, active, [], skipFirst, format);
      return Some(help);
    }
    return None;
  }
}
