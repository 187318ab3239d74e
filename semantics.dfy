/**
 * The TypeScript server's symbol tables (`server/src/semantics.ts`):
 * symbols (`Sym`) with lower-cased names, their annotation tags and methods,
 * scopes holding three separate maps, the scope walk that finds the deepest
 * definition along the chain of scopes containing a position, type strings
 * for annotations, and the signature label of a user function.
 *
 * Doctrine's comment parser is not part of this model: an annotation is
 * given as its parsed tags.
 */
module Semantics {
  import opened Common
  import opened TsUtils

  datatype SymType =
    | VariableSym | FunctionSym | ExportedFunctionSym | ModuleFunctionSym | ProgramSym | ConstantSym
    | EnumConstantSym | NamespaceSym | FunctionArgumentSym | ProgramArgumentSym | LabelSym | TypedefSym

  datatype SymbolMapType = SymbolsMap | LabelsMap | TypesMap

  datatype Location = Location(uri: string, range: TsRange)

  /** A parsed annotation type, as far as type strings distinguish them. */
  datatype DocType =
    | NameExpression(name: string)
    | AllLiteral
    | StringLiteralType(value: string)
    | NumericLiteralType(number: nat)
    | ArrayType(elements: seq<DocType>)
    | FunctionType(params: seq<DocType>, result: Option<DocType>)
    | ParameterType(paramName: string, expression: DocType)
    | TypeApplication(expression: DocType, applications: seq<DocType>)
    | UninitObjectLiteral
    | OtherType(kind: string)

  /** An annotation tag: its title (`param`, `returns`, ...), name, type, `optional` modifier and description. */
  datatype Tag = Tag(title: string, name: Option<string>, docType: Option<DocType>, optional: bool, description: Option<string>)

  datatype Annotation = Annotation(description: Option<string>, tags: seq<Tag>)

  /** A declared parameter of a function symbol: its cased name and whether it is required. */
  datatype Param = Param(casedName: string, required: bool)

  datatype MethodDefinition = MethodDefinition(name: string, location: Location, anno: Annotation, tag: Tag)

  /** One key of the parameter-to-tag dictionary; the list keeps the keys' insertion order. */
  datatype TagEntry = TagEntry(key: string, tag: Tag)

  datatype ParameterInformation = ParameterInformation(start: nat, end: nat, documentation: Option<string>)

  datatype SignatureHelp = SignatureHelp(text: string, documentation: Option<string>, parameters: seq<ParameterInformation>, activeParameter: nat, activeSignature: nat)

  // ---------------------------------------------------------------------
  // Symbol kinds
  // ---------------------------------------------------------------------

  /** `Sym.isCallable`. */
  predicate IsCallable(t: SymType)
  {
    t == FunctionSym || t == ModuleFunctionSym || t == ExportedFunctionSym
  }

  /** Only the three function kinds are callable. */
  lemma CallableKinds(t: SymType)
    ensures IsCallable(t) <==> t in {FunctionSym, ModuleFunctionSym, ExportedFunctionSym}
  {
  }

  /** The map `define` stores a symbol of this type in. */
  function MapFor(t: SymType): (m: SymbolMapType)
    ensures m == LabelsMap <==> t == LabelSym
    ensures m == TypesMap <==> t == TypedefSym
  {
    if t == LabelSym then LabelsMap else if t == TypedefSym then TypesMap else SymbolsMap
  }

  // ---------------------------------------------------------------------
  // Type strings
  // ---------------------------------------------------------------------

  function HexDigit(d: nat): (c: char)
    requires d < 16
  {
    if d < 10 then ('0' as int + d) as char else ('a' as int + d - 10) as char
  }

  /** `n.toString(16)`. */
  function HexString(n: nat): (r: string)
    ensures |r| >= 1
  {
    if n < 16 then [HexDigit(n)] else HexString(n / 16) + [HexDigit(n % 16)]
  }

  function HexDigitValue(c: char): nat
  {
    if '0' <= c <= '9' then c as int - '0' as int
    else if 'a' <= c <= 'f' then c as int - 'a' as int + 10
    else 0
  }

  function HexValue(s: string): nat
  {
    if s == [] then 0 else HexValue(s[..|s| - 1]) * 16 + HexDigitValue(s[|s| - 1])
  }

  /** The hexadecimal digits read back as the number written. */
  lemma {:induction false} HexRoundTrip(n: nat)
    ensures HexValue(HexString(n)) == n
  {
    if n >= 16 {
      HexRoundTrip(n / 16);
      var s := HexString(n);
      assert s[..|s| - 1] == HexString(n / 16);
    }
  }

  /** `Sym.toTypeString` on a present type. */
  function TypeString(t: DocType): string
    decreases t
  {
    match t
    case NameExpression(name) => name
    case AllLiteral => "*"
    case StringLiteralType(value) => "\"" + value + "\""
    case NumericLiteralType(number) => "0x" + HexString(number)
    case ArrayType(elements) => "[" + Join(TypeStrings(elements), ", ") + "]"
    case FunctionType(params, result) =>
      "(" + Join(TypeStrings(params), ", ") + "): " + (if result.Some? then TypeString(result.value) else "")
    case ParameterType(paramName, expression) => paramName + ": " + TypeString(expression)
    case TypeApplication(expression, applications) =>
      TypeString(expression) + "<" + Join(TypeStrings(applications), ", ") + ">"
    case UninitObjectLiteral => "<uninit>"
    case OtherType(_) => ""
  }

  function TypeStrings(ts: seq<DocType>): (r: seq<string>)
    decreases ts
    ensures |r| == |ts|
  {
    if ts == [] then [] else [TypeString(ts[0])] + TypeStrings(ts[1..])
  }

  /** `Sym.toTypePostfix`. */
  function TypePostfix(t: Option<DocType>): string
  {
    if t.Some? && t.value != AllLiteral then ": " + TypeString(t.value) else ""
  }

  /** The postfix is empty exactly for a missing type or `*`, and otherwise starts ": ". */
  lemma TypePostfixCases(t: Option<DocType>)
    ensures TypePostfix(t) == "" <==> (t.None? || t.value == AllLiteral)
    ensures TypePostfix(t) != "" ==> TypePostfix(t)[..2] == ": "
  {
  }

  /** A numeric literal type is written in hexadecimal and reads back as its value. */
  lemma NumericTypeIsHex(n: nat)
    ensures TypeString(NumericLiteralType(n))[..2] == "0x"
    ensures HexValue(TypeString(NumericLiteralType(n))[2..]) == n
  {
    assert TypeString(NumericLiteralType(n))[2..] == HexString(n);
    HexRoundTrip(n);
  }

  // ---------------------------------------------------------------------
  // Annotation tags
  // ---------------------------------------------------------------------

  function Lookup(entries: seq<TagEntry>, key: string): (r: Option<Tag>)
    ensures r.Some? <==> exists k :: 0 <= k < |entries| && entries[k].key == key
  {
    if entries == [] then None
    else if entries[0].key == key then Some(entries[0].tag)
    else
      var rest := Lookup(entries[1..], key);
      assert forall k :: 1 <= k < |entries| ==> entries[k] == entries[1..][k - 1];
      rest
  }

  /** `{ ...p, [key]: tag }`: replaces the value of an existing key in place, else appends the key. */
  function Put(entries: seq<TagEntry>, key: string, tag: Tag): (r: seq<TagEntry>)
    ensures Lookup(r, key) == Some(tag)
    ensures forall k :: k != key ==> Lookup(r, k) == Lookup(entries, k)
  {
    if entries == [] then [TagEntry(key, tag)]
    else if entries[0].key == key then [TagEntry(key, tag)] + entries[1..]
    else
      var rest := Put(entries[1..], key, tag);
      assert ([entries[0]] + rest)[1..] == rest;
      [entries[0]] + rest
  }

  predicate Keyed(c: Tag)
  {
    (c.title == "param" || c.title == "method" || c.title == "member") && c.name.Some?
  }

  predicate KeyedAs(c: Tag, key: string)
  {
    Keyed(c) && Lower(c.name.value) == key
  }

  /** The dictionary `updateAnnotation` builds: the lower-cased name of every named param, method or member tag. */
  function ParamTags(tags: seq<Tag>): seq<TagEntry>
  {
    if tags == [] then []
    else
      var c := tags[|tags| - 1];
      if Keyed(c) then Put(ParamTags(tags[..|tags| - 1]), Lower(c.name.value), c) else ParamTags(tags[..|tags| - 1])
  }

  /** A key looks up the last keyed tag with that lower-cased name, and nothing when there is none. */
  lemma {:induction false} ParamTagsLookup(tags: seq<Tag>, key: string)
    ensures Lookup(ParamTags(tags), key).Some? <==> exists k :: 0 <= k < |tags| && KeyedAs(tags[k], key)
    ensures forall k :: (0 <= k < |tags| && KeyedAs(tags[k], key) && forall j :: k < j < |tags| ==> !KeyedAs(tags[j], key)) ==>
      Lookup(ParamTags(tags), key) == Some(tags[k])
  {
    if tags != [] {
      var init := tags[..|tags| - 1];
      var c := tags[|tags| - 1];
      ParamTagsLookup(init, key);
      assert forall k :: 0 <= k < |init| ==> init[k] == tags[k];
      if KeyedAs(c, key) {
        assert Lookup(ParamTags(tags), key) == Some(c);
      } else {
        assert Lookup(ParamTags(tags), key) == Lookup(ParamTags(init), key);
      }
    }
  }

  /** The last tag with this title that carries a type, else `prior`. */
  function LastTyped(tags: seq<Tag>, title: string, prior: Option<DocType>): (r: Option<DocType>)
    ensures r.Some? && r != prior ==> exists k :: 0 <= k < |tags| && tags[k].title == title && tags[k].docType == r
  {
    if tags == [] then prior
    else
      var c := tags[|tags| - 1];
      if c.docType.Some? && c.title == title then c.docType else LastTyped(tags[..|tags| - 1], title, prior)
  }

  function FirstTitled(tags: seq<Tag>, title: string): (r: Option<Tag>)
    ensures r.Some? ==> r.value in tags && r.value.title == title
    ensures r.None? ==> forall t :: t in tags ==> t.title != title
  {
    if tags == [] then None
    else if tags[0].title == title then Some(tags[0])
    else FirstTitled(tags[1..], title)
  }

  function MethodNames(ms: seq<MethodDefinition>): (r: seq<string>)
    ensures |r| == |ms| && forall i :: 0 <= i < |ms| ==> r[i] == ms[i].name
  {
    if ms == [] then [] else [ms[0].name] + MethodNames(ms[1..])
  }

  /** The properties every plain JavaScript object inherits from `Object.prototype`. */
  const ObjectPrototypeNames: set<string> := {
    "constructor", "hasOwnProperty", "isPrototypeOf", "propertyIsEnumerable", "toLocaleString",
    "toString", "valueOf", "__proto__", "__defineGetter__", "__defineSetter__",
    "__lookupGetter__", "__lookupSetter__"}

  /** `name in methods` on the plain `methods` object: its own keys and the inherited ones. */
  predicate HasMethodProperty(ms: seq<MethodDefinition>, name: string)
  {
    name in MethodNames(ms) || name in ObjectPrototypeNames
  }

  // ---------------------------------------------------------------------
  // Prefix searches
  // ---------------------------------------------------------------------

  /** The method filter as written: `exact && name === prefix || name.toLowerCase().startsWith(prefix)`. */
  predicate MethodMatchesAsWritten(name: string, prefix: string, exact: bool)
  {
    (exact && name == Lower(prefix)) || StartsWith(Lower(name), Lower(prefix))
  }

  /** The evidently intended filter: the whole name when exact, a prefix otherwise, ignoring case. */
  predicate MethodMatches(name: string, prefix: string, exact: bool)
  {
    if exact then Lower(name) == Lower(prefix) else StartsWith(Lower(name), Lower(prefix))
  }

  function FilterMethods(ms: seq<MethodDefinition>, prefix: string, exact: bool, asWritten: bool): (r: seq<MethodDefinition>)
    ensures forall m :: m in r <==> (m in ms && (if asWritten then MethodMatchesAsWritten(m.name, prefix, exact) else MethodMatches(m.name, prefix, exact)))
    ensures |r| <= |ms|
  {
    if ms == [] then []
    else
      var keep := if asWritten then MethodMatchesAsWritten(ms[0].name, prefix, exact) else MethodMatches(ms[0].name, prefix, exact);
      (if keep then [ms[0]] else []) + FilterMethods(ms[1..], prefix, exact, asWritten)
  }

  /** With `exact`, the as-written filter accepts exactly what the prefix filter does: the flag has no effect. */
  lemma ExactFlagIgnored(name: string, prefix: string)
    ensures MethodMatchesAsWritten(name, prefix, true) == MethodMatchesAsWritten(name, prefix, false)
  {
    if name == Lower(prefix) {
      LowerIdempotent(prefix);
    }
  }

  /**
   * An exact `findMethod(prefix)` as written returns first a longer method
   * name that merely starts with `prefix`, when that method was added first:
   * "foobar" for "foo", say.
   */
  lemma FindMethodAsWrittenTakesPrefix(loc: Location, anno: Annotation, tag: Tag, prefix: string, rest: string)
    requires rest != []
    ensures var ms := [MethodDefinition(prefix + rest, loc, anno, tag), MethodDefinition(prefix, loc, anno, tag)];
      var r := FilterMethods(ms, prefix, true, true);
      r != [] && r[0].name == prefix + rest && Lower(r[0].name) != Lower(prefix)
  {
    var ms := [MethodDefinition(prefix + rest, loc, anno, tag), MethodDefinition(prefix, loc, anno, tag)];
    LowerAppend(prefix, rest);
    assert Lower(prefix + rest)[..|prefix|] == Lower(prefix);
    assert MethodMatchesAsWritten(ms[0].name, prefix, true);
    assert |Lower(prefix + rest)| != |Lower(prefix)|;
  }

  /** Corrected: an exact search keeps only the methods of that name, ignoring case. */
  lemma ExactSearchFindsName(ms: seq<MethodDefinition>, name: string)
    ensures forall m :: m in FilterMethods(ms, name, true, false) <==> (m in ms && Lower(m.name) == Lower(name))
  {
  }

  function FilterTags(entries: seq<TagEntry>, prefix: string): (r: seq<Tag>)
    ensures forall t :: t in r <==> exists k :: 0 <= k < |entries| && entries[k].tag == t && StartsWith(Lower(entries[k].key), Lower(prefix))
  {
    if entries == [] then []
    else
      var rest := FilterTags(entries[1..], prefix);
      assert forall k :: 1 <= k < |entries| ==> entries[k] == entries[1..][k - 1];
      assert forall k :: 0 <= k < |entries[1..]| ==> entries[1..][k] == entries[k + 1];
      (if StartsWith(Lower(entries[0].key), Lower(prefix)) then [entries[0].tag] else []) + rest
  }

  // ---------------------------------------------------------------------
  // Signature labels
  // ---------------------------------------------------------------------

  /** A parameter's label as written: the tag is looked up under the cased name and must exist once there are tags. */
  function ParamLabelAsWritten(p: Param, paramToTag: Option<seq<TagEntry>>): Result<string>
  {
    if paramToTag.None? then Success(p.casedName + (if p.required then "" else "?"))
    else
      match Lookup(paramToTag.value, p.casedName)
      case None => Failure("TypeError: Cannot read properties of undefined (reading 'type')")
      case Some(t) => Success(p.casedName + TypePostfix(t.docType) + (if p.required then "" else "?"))
  }

  /** A cased parameter name of a documented function makes the label throw. */
  lemma CasedParameterThrows()
    ensures var tags := ParamTags([Tag("param", Some("Who"), None, false, None)]);
      ParamLabelAsWritten(Param("Who", true), Some(tags)).Failure?
  {
    var c := Tag("param", Some("Who"), None, false, None);
    assert [c][..0] == [];
    assert Lower("Who") == "who";
    assert ParamTags([c]) == [TagEntry("who", c)];
  }

  /** The parameter's tag, found under its lower-cased name as the dictionary is keyed. */
  function TagOf(p: Param, paramToTag: Option<seq<TagEntry>>): Option<Tag>
  {
    if paramToTag.None? then None else Lookup(paramToTag.value, Lower(p.casedName))
  }

  /** A parameter's label: its cased name, the type postfix of its tag, and `?` when it is optional. */
  function ParamLabel(p: Param, paramToTag: Option<seq<TagEntry>>): string
  {
    var t := TagOf(p, paramToTag);
    p.casedName + TypePostfix(if t.Some? then t.value.docType else None) + (if p.required then "" else "?")
  }

  /** Without an annotation, both label definitions agree. */
  lemma LabelsAgreeWithoutTags(p: Param)
    ensures ParamLabelAsWritten(p, None) == Success(ParamLabel(p, None))
  {
    assert TypePostfix(None) == "";
    assert p.casedName + "" == p.casedName;
  }

  function Labels(ps: seq<Param>, paramToTag: Option<seq<TagEntry>>): (r: seq<string>)
    ensures |r| == |ps| && forall i :: 0 <= i < |ps| ==> r[i] == ParamLabel(ps[i], paramToTag)
  {
    if ps == [] then [] else [ParamLabel(ps[0], paramToTag)] + Labels(ps[1..], paramToTag)
  }

  /** The label text after the first `i` parameters: each followed by ", " except the last one. */
  function Accum(labels: seq<string>, i: nat): string
    requires i <= |labels|
  {
    if i == 0 then "" else Accum(labels, i - 1) + labels[i - 1] + (if i == |labels| then "" else ", ")
  }

  lemma {:induction false} AccumIsJoin(labels: seq<string>, i: nat)
    requires 0 < i <= |labels|
    ensures Accum(labels, i) == Join(labels[..i], ", ") + (if i == |labels| then "" else ", ")
  {
    if i > 1 {
      AccumIsJoin(labels, i - 1);
      assert labels[..i] == labels[..i - 1] + [labels[i - 1]];
      JoinSnoc(labels[..i - 1], labels[i - 1], ", ");
    } else {
      assert labels[..1] == [labels[0]];
    }
  }

  lemma {:induction false} AccumGrows(labels: seq<string>, i: nat, m: nat)
    requires i <= m <= |labels|
    ensures |Accum(labels, i)| <= |Accum(labels, m)| && Accum(labels, m)[..|Accum(labels, i)|] == Accum(labels, i)
    decreases m
  {
    if i < m {
      AccumGrows(labels, i, m - 1);
    }
  }

  function ParamDoc(p: Param, paramToTag: Option<seq<TagEntry>>): Option<string>
  {
    var t := TagOf(p, paramToTag);
    if t.Some? then t.value.description else None
  }

  /** `name(`, the labels each followed by ", " but the last, then `)`. */
  function SignatureText(name: string, labels: seq<string>): string
  {
    name + "(" + Accum(labels, |labels|) + ")"
  }

  /** Where the `i`-th label starts: the label's length when that parameter is reached. */
  function LabelStart(name: string, labels: seq<string>, i: nat): nat
    requires i <= |labels|
  {
    |name| + 1 + |Accum(labels, i)|
  }

  /** The label is `name(` and the parameter labels joined by ", ", then `)`. */
  lemma TextJoins(name: string, labels: seq<string>)
    ensures SignatureText(name, labels) == name + "(" + Join(labels, ", ") + ")"
  {
    if labels != [] {
      AccumIsJoin(labels, |labels|);
      assert labels[..|labels|] == labels;
    }
  }

  /** Each label sits at its start in the signature text, and a separator of two characters follows every one but the last. */
  lemma TextSlices(name: string, labels: seq<string>, i: nat)
    requires i < |labels|
    ensures var st := LabelStart(name, labels, i);
      st + |labels[i]| <= |SignatureText(name, labels)| &&
      SignatureText(name, labels)[st..st + |labels[i]|] == labels[i]
    ensures i + 1 < |labels| ==> LabelStart(name, labels, i + 1) == LabelStart(name, labels, i) + |labels[i]| + 2
  {
    AccumGrows(labels, i + 1, |labels|);
    var head := name + "(" + Accum(labels, i + 1);
    var whole := SignatureText(name, labels);
    var st := LabelStart(name, labels, i);
    assert head == name + "(" + Accum(labels, i) + labels[i] + (if i + 1 == |labels| then "" else ", ");
    assert head[st..st + |labels[i]|] == labels[i];
    assert whole[..|head|] == head;
    assert whole[st..st + |labels[i]|] == head[st..st + |labels[i]|];
  }

  function Docs(ps: seq<Param>, paramToTag: Option<seq<TagEntry>>): (r: seq<Option<string>>)
    ensures |r| == |ps| && forall i :: 0 <= i < |ps| ==> r[i] == ParamDoc(ps[i], paramToTag)
  {
    if ps == [] then [] else [ParamDoc(ps[0], paramToTag)] + Docs(ps[1..], paramToTag)
  }

  /** The range and documentation of the `i`-th parameter. */
  function SpanAt(name: string, labels: seq<string>, docs: seq<Option<string>>, i: nat): ParameterInformation
    requires i < |labels| && |docs| == |labels|
  {
    var start := LabelStart(name, labels, i);
    ParameterInformation(start, start + |labels[i]|, docs[i])
  }

  function SpansOf(name: string, labels: seq<string>, docs: seq<Option<string>>): (r: seq<ParameterInformation>)
    requires |docs| == |labels|
    ensures |r| == |labels| && forall i :: 0 <= i < |labels| ==> r[i] == SpanAt(name, labels, docs, i)
  {
    seq(|labels|, i requires 0 <= i < |labels| => SpanAt(name, labels, docs, i))
  }

  /** The signature help for given parameter labels and documentation. */
  function SignatureHelpFrom(name: string, labels: seq<string>, docs: seq<Option<string>>, description: Option<string>, currentArg: nat): SignatureHelp
    requires |docs| == |labels|
  {
    SignatureHelp(SignatureText(name, labels), description, SpansOf(name, labels, docs), currentArg, 0)
  }

  /** `Sym.toSignatureHelp` with the tag looked up by lower-cased name. */
  function SignatureHelpOf(name: string, ps: seq<Param>, paramToTag: Option<seq<TagEntry>>, description: Option<string>, currentArg: nat): SignatureHelp
  {
    SignatureHelpFrom(name, Labels(ps, paramToTag), Docs(ps, paramToTag), description, currentArg)
  }

  /** The signature label joins the parameter labels with ", " between `name(` and `)`. */
  lemma SignatureLabelJoins(name: string, ps: seq<Param>, paramToTag: Option<seq<TagEntry>>, description: Option<string>, currentArg: nat)
    ensures SignatureHelpOf(name, ps, paramToTag, description, currentArg).text == name + "(" + Join(Labels(ps, paramToTag), ", ") + ")"
  {
    TextJoins(name, Labels(ps, paramToTag));
  }

  lemma SpansSliceFrom(name: string, labels: seq<string>, docs: seq<Option<string>>, description: Option<string>, currentArg: nat, i: nat)
    requires |docs| == |labels| && i < |labels|
    ensures var h := SignatureHelpFrom(name, labels, docs, description, currentArg);
      h.parameters[i].start <= h.parameters[i].end <= |h.text| &&
      h.text[h.parameters[i].start..h.parameters[i].end] == labels[i] &&
      (i > 0 ==> h.parameters[i - 1].end < h.parameters[i].start)
  {
    var h := SignatureHelpFrom(name, labels, docs, description, currentArg);
    assert h.parameters[i] == SpanAt(name, labels, docs, i);
    TextSlices(name, labels, i);
    if i > 0 {
      assert h.parameters[i - 1] == SpanAt(name, labels, docs, i - 1);
      TextSlices(name, labels, i - 1);
    }
  }

  /** The label/offset invariant: each range slices exactly its parameter's label out of the signature label, in order. */
  lemma SpansSliceLabels(name: string, ps: seq<Param>, paramToTag: Option<seq<TagEntry>>, description: Option<string>, currentArg: nat, i: nat)
    requires i < |ps|
    ensures var h := SignatureHelpOf(name, ps, paramToTag, description, currentArg);
      h.parameters[i].start <= h.parameters[i].end <= |h.text| &&
      h.text[h.parameters[i].start..h.parameters[i].end] == ParamLabel(ps[i], paramToTag) &&
      (i > 0 ==> h.parameters[i - 1].end < h.parameters[i].start)
  {
    SpansSliceFrom(name, Labels(ps, paramToTag), Docs(ps, paramToTag), description, currentArg, i);
  }

  /** One step of `toSignatureHelp`: the range is taken at the label's length, then the label and its separator are appended. */
  lemma AccumStep(name: string, labels: seq<string>, i: nat, sig: string)
    requires i < |labels| && sig == name + "(" + Accum(labels, i)
    ensures |sig| == LabelStart(name, labels, i)
    ensures sig + labels[i] + (if i == |labels| - 1 then "" else ", ") == name + "(" + Accum(labels, i + 1)
  {
  }

  // ---------------------------------------------------------------------
  // Sym
  // ---------------------------------------------------------------------

  /** `getTypeName`: how diagnostics and hovers name a kind of symbol. */
  function TypeName(t: SymType): string
  {
    match t
    case VariableSym => "variable"
    case FunctionSym => "function"
    case ExportedFunctionSym => "exported function"
    case ModuleFunctionSym => "module function"
    case ProgramSym => "program"
    case ConstantSym => "constant"
    case EnumConstantSym => "enum constant"
    case NamespaceSym => "module"
    case FunctionArgumentSym => "function argument"
    case ProgramArgumentSym => "program argument"
    case LabelSym => "source label"
    case TypedefSym => "type"
  }

  /** The error a taken name raises when no location is given, as `addMethod` does: the name can be read back from it. */
  function AlreadyDefined(name: string): (r: string)
    ensures |r| == |name| + 23 && r[7..7 + |name|] == name
  {
    "Symbol " + name + " already defined"
  }

  /** A JavaScript number written in decimal. */
  function IntToString(i: int): string
  {
    if i < 0 then "-" + NatToString(-i) else NatToString(i)
  }

  /**
   * The error `define` raises: the short form, then " at ", the uri of the
   * earlier definition and its 0-based start line and character.
   */
  function AlreadyDefinedAt(name: string, at: Location): (r: string)
    ensures AlreadyDefined(name) + " at " + at.uri + ":" <= r
  {
    AlreadyDefined(name) + " at " + at.uri + ":" + IntToString(at.range.start.line) + ":" + IntToString(at.range.start.character)
  }

  /** The line and character of the earlier definition read back from the message. */
  lemma AlreadyDefinedAtReadsBack(name: string, at: Location)
    requires at.range.start.line >= 0 && at.range.start.character >= 0
    ensures var r := AlreadyDefinedAt(name, at);
      var p := |AlreadyDefined(name) + " at " + at.uri + ":"|;
      var l := |NatToString(at.range.start.line)|;
      p + l < |r| && DigitsValue(r[p..p + l]) == at.range.start.line && r[p + l] == ':' &&
      DigitsValue(r[p + l + 1..]) == at.range.start.character
  {
    var head := AlreadyDefined(name) + " at " + at.uri + ":";
    var ls, cs := NatToString(at.range.start.line), NatToString(at.range.start.character);
    var r := AlreadyDefinedAt(name, at);
    assert r == head + ls + ":" + cs;
    assert r[|head|..|head| + |ls|] == ls;
    assert r[|head| + |ls| + 1..] == cs;
    DigitsValueOfNatToString(at.range.start.line);
    DigitsValueOfNatToString(at.range.start.character);
  }

  /** Where each symbol of a scope's map was defined. */
  function DefinedAt(m: map<string, Sym>): (r: map<string, Location>)
    reads m.Values
    ensures r.Keys == m.Keys && forall k :: k in m ==> r[k] == m[k].location
  {
    map k | k in m :: m[k].location
  }

  class Sym {
    const casedName: string
    /** The lower-cased name every lookup compares with. */
    const name: string
    const symType: SymType
    var location: Location
    var annotation: Option<Annotation>
    var annoType: Option<DocType>
    var annoReturns: Option<DocType>
    var children: Option<seq<Param>>
    var methods: Option<seq<MethodDefinition>>
    var paramToTag: Option<seq<TagEntry>>

    /** `new Sym(casedName, type, location, annotation)`. */
    constructor(casedName: string, symType: SymType, location: Location, anno: Option<Annotation>)
      ensures this.casedName == casedName && name == Lower(casedName) && this.symType == symType
      ensures anno.None? ==> (this.location == location && annotation.None? && paramToTag.None? && annoType.None? && annoReturns.None?)
      ensures anno.Some? ==> (this.location == location && annotation == anno && paramToTag == Some(ParamTags(anno.value.tags)) &&
        annoType == LastTyped(anno.value.tags, "type", None) && annoReturns == LastTyped(anno.value.tags, "returns", None))
      ensures children == (if symType == FunctionSym then Some([]) else None)
      ensures methods.None?
    {
      this.casedName := casedName;
      name := Lower(casedName);
      this.symType := symType;
      this.location := location;
      annotation := None;
      annoType := None;
      annoReturns := None;
      methods := None;
      paramToTag := None;
      children := if symType == FunctionSym then Some([]) else None;
      new;
      if anno.Some? {
        UpdateAnnotation(location, anno.value);
      }
    }

    /** `updateAnnotation`: the tag dictionary, and the last `type` and `returns` types of the tags. */
    method UpdateAnnotation(location: Location, anno: Annotation)
      modifies this
      ensures this.location == location && annotation == Some(anno)
      ensures paramToTag == Some(ParamTags(anno.tags))
      ensures annoType == LastTyped(anno.tags, "type", old(annoType))
      ensures annoReturns == LastTyped(anno.tags, "returns", old(annoReturns))
      ensures children == old(children) && methods == old(methods)
    {
      annotation := Some(anno);
      this.location := location;
      paramToTag := Some(ParamTags(anno.tags));
      var i := 0;
      while i < |anno.tags|
        invariant 0 <= i <= |anno.tags|
        invariant annoType == LastTyped(anno.tags[..i], "type", old(annoType))
        invariant annoReturns == LastTyped(anno.tags[..i], "returns", old(annoReturns))
        invariant this.location == location && annotation == Some(anno) && paramToTag == Some(ParamTags(anno.tags))
        invariant children == old(children) && methods == old(methods)
      {
        var tag := anno.tags[i];
        assert anno.tags[..i + 1][..i] == anno.tags[..i];
        if tag.docType.Some? {
          if tag.title == "type" {
            annoType := tag.docType;
          } else if tag.title == "returns" {
            annoReturns := tag.docType;
          }
        }
        i := i + 1;
      }
      assert anno.tags[..i] == anno.tags;
    }

    /** `addArg`: appends the parameter, starting the list when there is none. */
    method AddArg(p: Param)
      modifies this
      ensures children == Some((if old(children).Some? then old(children).value else []) + [p])
      ensures methods == old(methods) && paramToTag == old(paramToTag) && annotation == old(annotation) && location == old(location)
    {
      if children.None? {
        assert [] + [p] == [p];
        children := Some([p]);
      } else {
        children := Some(children.value + [p]);
      }
    }

    /**
     * `addMethod`: fails with "already defined" when the name is taken,
     * an inherited property such as "toString" included; otherwise records
     * the method when the annotation has a `method` tag.
     */
    method AddMethod(methodName: string, location: Location, anno: Annotation) returns (error: Option<string>)
      modifies this
      ensures var before := if old(methods).Some? then old(methods).value else [];
        if HasMethodProperty(before, methodName) then
          error == Some(AlreadyDefined(methodName)) && methods == Some(before)
        else
          error.None? &&
          methods == Some(before + (if FirstTitled(anno.tags, "method").Some? then [MethodDefinition(methodName, location, anno, FirstTitled(anno.tags, "method").value)] else []))
      ensures children == old(children) && paramToTag == old(paramToTag) && annotation == old(annotation)
    {
      var ms := if methods.Some? then methods.value else [];
      methods := Some(ms);
      if HasMethodProperty(ms, methodName) {
        return Some(AlreadyDefined(methodName));
      }
      var tag := FirstTitled(anno.tags, "method");
      assert ms + [] == ms;
      if tag.Some? {
        methods := Some(ms + [MethodDefinition(methodName, location, anno, tag.value)]);
      }
      error := None;
    }

    /** `findMethods` as written. */
    function FindMethodsAsWritten(prefix: string, exact: bool): seq<MethodDefinition>
      reads this
    {
      if methods.None? then [] else FilterMethods(methods.value, prefix, exact, true)
    }

    /** `findMethods`, with the `exact` flag honoured. */
    function FindMethods(prefix: string, exact: bool): (r: seq<MethodDefinition>)
      reads this
      ensures forall m :: m in r <==> (methods.Some? && m in methods.value && MethodMatches(m.name, prefix, exact))
    {
      if methods.None? then [] else FilterMethods(methods.value, prefix, exact, false)
    }

    /** `findMethod`: the first exact match. */
    function FindMethod(methodName: string): (r: Option<MethodDefinition>)
      reads this
      ensures r.Some? ==> (methods.Some? && r.value in methods.value && Lower(r.value.name) == Lower(methodName))
      ensures r.None? ==> forall m :: methods.Some? && m in methods.value ==> Lower(m.name) != Lower(methodName)
    {
      var ms := FindMethods(methodName, true);
      if ms == [] then None else Some(ms[0])
    }

    /** `findParamTags`: the tags whose key starts with the prefix, ignoring case. */
    function FindParamTags(prefix: string): (r: seq<Tag>)
      reads this
      ensures paramToTag.None? ==> r == []
      ensures paramToTag.Some? ==> forall t :: t in r <==>
        exists k :: 0 <= k < |paramToTag.value| && paramToTag.value[k].tag == t && StartsWith(Lower(paramToTag.value[k].key), Lower(prefix))
    {
      if paramToTag.None? then [] else FilterTags(paramToTag.value, prefix)
    }

    /** `toSignatureHelp`: the label grows parameter by parameter, each range taken at the label's length. */
    method ToSignatureHelp(currentArg: nat) returns (help: SignatureHelp)
      ensures help == SignatureHelpOf(casedName, if children.Some? then children.value else [], paramToTag, if annotation.Some? then annotation.value.description else None, currentArg)
    {
      var ps := if children.Some? then children.value else [];
      var description := if annotation.Some? then annotation.value.description else None;
      help := BuildSignatureHelp(casedName, Labels(ps, paramToTag), Docs(ps, paramToTag), description, currentArg);
    }
  }

  /** The loop of `toSignatureHelp`: the label grows parameter by parameter, each range taken at the label's length. */
  method BuildSignatureHelp(funcName: string, labels: seq<string>, docs: seq<Option<string>>, description: Option<string>, currentArg: nat)
    returns (help: SignatureHelp)
    requires |docs| == |labels|
    ensures help == SignatureHelpFrom(funcName, labels, docs, description, currentArg)
  {
    var parameters: seq<ParameterInformation> := [];
    var signatureLabel := funcName + "(";
    ghost var spans := SpansOf(funcName, labels, docs);
    var i := 0;
    while i < |labels|
      invariant 0 <= i <= |labels|
      invariant signatureLabel == funcName + "(" + Accum(labels, i)
      invariant parameters == spans[..i]
    {
      var text := labels[i];
      AccumStep(funcName, labels, i, signatureLabel);
      parameters := parameters + [ParameterInformation(|signatureLabel|, |signatureLabel| + |text|, docs[i])];
      assert spans[..i + 1] == spans[..i] + [spans[i]];
      signatureLabel := signatureLabel + text + (if i == |labels| - 1 then "" else ", ");
      i := i + 1;
    }
    assert spans[..i] == spans;
    signatureLabel := signatureLabel + ")";
    help := SignatureHelp(signatureLabel, description, parameters, currentArg, 0);
  }

  // ---------------------------------------------------------------------
  // Scope
  // ---------------------------------------------------------------------

  class Scope {
    const location: Location
    var symbols: map<string, Sym>
    var labels: map<string, Sym>
    var types: map<string, Sym>
    /** The scopes opened inside this one, in the order they were created. */
    var children: seq<Scope>

    /** A new scope is empty and joins the end of its enclosing scope's children. */
    constructor(location: Location, enclosingScope: Option<Scope>)
      modifies if enclosingScope.Some? then {enclosingScope.value} else {}
      ensures this.location == location && symbols == map[] && labels == map[] && types == map[] && children == []
      ensures enclosingScope.Some? ==>
        enclosingScope.value.children == old(enclosingScope.value.children) + [this] &&
        enclosingScope.value.symbols == old(enclosingScope.value.symbols) &&
        enclosingScope.value.labels == old(enclosingScope.value.labels) &&
        enclosingScope.value.types == old(enclosingScope.value.types)
    {
      this.location := location;
      symbols := map[];
      labels := map[];
      types := map[];
      children := [];
      new;
      if enclosingScope.Some? {
        enclosingScope.value.children := enclosingScope.value.children + [this];
      }
    }

    function MapOf(t: SymbolMapType): map<string, Sym>
      reads this
    {
      match t
      case SymbolsMap => symbols
      case LabelsMap => labels
      case TypesMap => types
    }

    /**
     * `define`: labels, typedefs and all other symbols go into their own map
     * under the symbol's lower-cased name; a name already there is an error
     * and changes nothing.
     */
    method Define(sym: Sym) returns (r: Result<Sym>)
      modifies this
      ensures var t := MapFor(sym.symType);
        if sym.name in old(MapOf(t)) then
          r == Failure(AlreadyDefinedAt(sym.name, old(MapOf(t)[sym.name].location))) && symbols == old(symbols) && labels == old(labels) && types == old(types)
        else
          r == Success(sym) && MapOf(t) == old(MapOf(t))[sym.name := sym] &&
          forall u :: u != t ==> MapOf(u) == old(MapOf(u))
    {
      var t := MapFor(sym.symType);
      var m := MapOf(t);
      if sym.name in m {
        return Failure(AlreadyDefinedAt(sym.name, m[sym.name].location));
      }
      if t == LabelsMap {
        labels := labels[sym.name := sym];
      } else if t == TypesMap {
        types := types[sym.name := sym];
      } else {
        symbols := symbols[sym.name := sym];
      }
      r := Success(sym);
    }

    /** `resolve`: the query is lower-cased before the lookup. */
    function Resolve(query: string, t: SymbolMapType): (r: Option<Sym>)
      reads this
      ensures r.Some? <==> Lower(query) in MapOf(t)
      ensures r.Some? ==> r.value == MapOf(t)[Lower(query)]
    {
      var m := MapOf(t);
      if Lower(query) in m then Some(m[Lower(query)]) else None
    }

    /** Lookup ignores the case of the query. */
    lemma ResolveIgnoresCase(a: string, b: string, t: SymbolMapType)
      requires Lower(a) == Lower(b)
      ensures Resolve(a, t) == Resolve(b, t)
    {
    }

    /** A symbol that was defined resolves by its cased name in its own map. */
    lemma DefinedResolves(sym: Sym)
      requires sym.name == Lower(sym.casedName)
      requires sym.name in MapOf(MapFor(sym.symType)) && MapOf(MapFor(sym.symType))[sym.name] == sym
      ensures Resolve(sym.casedName, MapFor(sym.symType)) == Some(sym)
    {
    }
  }

  // ---------------------------------------------------------------------
  // walkScope
  // ---------------------------------------------------------------------

  /** The enclosing-scope tree: each scope with the scopes created inside it, in creation order. */
  datatype ScopeNode = ScopeNode(scope: Scope, kids: seq<ScopeNode>)

  function FirstContainingScope(cs: seq<ScopeNode>, where: TsPosition, from: nat): (r: Option<nat>)
    ensures r.Some? ==> (from <= r.value < |cs| && ContainsPosition(cs[r.value].scope.location.range, where) &&
      forall k :: from <= k < r.value ==> !ContainsPosition(cs[k].scope.location.range, where))
    ensures r.None? ==> forall k :: from <= k < |cs| ==> !ContainsPosition(cs[k].scope.location.range, where)
    decreases |cs| - from
  {
    if from >= |cs| then None
    else if ContainsPosition(cs[from].scope.location.range, where) then Some(from)
    else FirstContainingScope(cs, where, from + 1)
  }

  /** The scopes the walk visits: from `n` down through the first child containing `where`. */
  function ScopePath(n: ScopeNode, where: TsPosition): (path: seq<ScopeNode>)
    decreases n
    ensures |path| >= 1 && path[0] == n
  {
    match FirstContainingScope(n.kids, where, 0)
    case None => [n]
    case Some(i) => [n] + ScopePath(n.kids[i], where)
  }

  function Scopes(path: seq<ScopeNode>): set<Scope>
  {
    set k | 0 <= k < |path| :: path[k].scope
  }

  lemma ScopesOfPrefix(path: seq<ScopeNode>)
    requires path != []
    ensures Scopes(path[..|path| - 1]) <= Scopes(path)
  {
    var init := path[..|path| - 1];
    forall s | s in Scopes(init) ensures s in Scopes(path) {
      var k :| 0 <= k < |init| && init[k].scope == s;
      assert path[k] == init[k];
    }
  }

  /** The scopes of a path, in order: what the callback receives. */
  function ScopeSeq(path: seq<ScopeNode>): (r: seq<Scope>)
    ensures |r| == |path| && forall k :: 0 <= k < |path| ==> r[k] == path[k].scope
  {
    if path == [] then [] else ScopeSeq(path[..|path| - 1]) + [path[|path| - 1].scope]
  }

  /** The definition found deepest along the path; deeper scopes shadow outer ones. */
  function Deepest(path: seq<ScopeNode>, query: string, t: SymbolMapType): (r: Option<Sym>)
    reads Scopes(path)
  {
    if path == [] then None
    else
      assert path[|path| - 1].scope in Scopes(path);
      var here := path[|path| - 1].scope.Resolve(query, t);
      if here.Some? then here
      else
        ScopesOfPrefix(path);
        Deepest(path[..|path| - 1], query, t)
  }

  /** The deepest definition is found exactly when some scope on the path defines the name, and no deeper scope does. */
  lemma {:induction false} DeepestIsInnermost(path: seq<ScopeNode>, query: string, t: SymbolMapType)
    ensures Deepest(path, query, t).Some? <==> exists k :: 0 <= k < |path| && path[k].scope.Resolve(query, t).Some?
    ensures forall k :: (0 <= k < |path| && path[k].scope.Resolve(query, t).Some? &&
      forall j :: k < j < |path| ==> path[j].scope.Resolve(query, t).None?) ==>
      Deepest(path, query, t) == path[k].scope.Resolve(query, t)
  {
    if path != [] {
      var init := path[..|path| - 1];
      DeepestIsInnermost(init, query, t);
      assert forall k :: 0 <= k < |init| ==> init[k] == path[k];
    }
  }

  /** What `walkScope` returns: nothing, the symbol found, or (with a callback and no name) the innermost scope. */
  datatype WalkOutcome = Undefined | SymFound(sym: Sym) | ScopeFound(scope: ScopeNode, symbols: seq<seq<Sym>>)

  /** `walkScope` as a value. */
  function WalkScopeOf(root: ScopeNode, where: TsPosition, what: Option<string>, t: SymbolMapType, withCallback: bool): WalkOutcome
    reads Scopes(ScopePath(root, where))
  {
    var path := ScopePath(root, where);
    if !ContainsPosition(root.scope.location.range, where) then Undefined
    else if what.Some? then
      var d := Deepest(path, what.value, t);
      if d.Some? then SymFound(d.value) else Undefined
    else if withCallback then ScopeFound(path[|path| - 1], [])
    else Undefined
  }

  /** A position outside the root scope finds nothing. */
  lemma WalkOutsideRoot(root: ScopeNode, where: TsPosition, what: Option<string>, t: SymbolMapType, withCallback: bool)
    requires !ContainsPosition(root.scope.location.range, where)
    ensures WalkScopeOf(root, where, what, t, withCallback) == Undefined
  {
  }

  /** A name is found exactly when some scope on the path defines it, and the deepest such definition wins. */
  lemma WalkFindsDeepest(root: ScopeNode, where: TsPosition, query: string, t: SymbolMapType, withCallback: bool, k: nat)
    requires ContainsPosition(root.scope.location.range, where)
    requires var path := ScopePath(root, where);
      k < |path| && path[k].scope.Resolve(query, t).Some? &&
      forall j :: k < j < |path| ==> path[j].scope.Resolve(query, t).None?
    ensures WalkScopeOf(root, where, Some(query), t, withCallback) == SymFound(ScopePath(root, where)[k].scope.Resolve(query, t).value)
  {
    DeepestIsInnermost(ScopePath(root, where), query, t);
  }

  lemma WalkMissesUndefined(root: ScopeNode, where: TsPosition, query: string, t: SymbolMapType, withCallback: bool)
    requires forall k :: 0 <= k < |ScopePath(root, where)| ==> ScopePath(root, where)[k].scope.Resolve(query, t).None?
    ensures WalkScopeOf(root, where, Some(query), t, withCallback) == Undefined
  {
    var path := ScopePath(root, where);
    DeepestIsInnermost(path, query, t);
    forall k | 0 <= k < |path| ensures !path[k].scope.Resolve(query, t).Some? {
      assert path[k].scope.Resolve(query, t).None?;
    }
  }

  /**
   * `walkScope`: descends from the root through first containing children,
   * calling back on each scope and keeping the last definition of the name.
   * `visited` is the sequence of scopes passed to the callback.
   */
  method WalkScope(root: ScopeNode, where: TsPosition, what: Option<string>, t: SymbolMapType, withCallback: bool)
    returns (r: WalkOutcome, visited: seq<Scope>)
    ensures r == WalkScopeOf(root, where, what, t, withCallback)
    ensures visited == if withCallback && ContainsPosition(root.scope.location.range, where) then ScopeSeq(ScopePath(root, where)) else []
  {
    if !ContainsPosition(root.scope.location.range, where) {
      return Undefined, [];
    }
    var sym, last;
    sym, visited, last := Descend(root, where, what, t, withCallback);
    WalkAnswer(root, where, what, t, withCallback, sym, visited, last);
    if what.Some? {
      r := if sym.Some? then SymFound(sym.value) else Undefined;
    } else if withCallback {
      r := ScopeFound(last, []);
    } else {
      r := Undefined;
    }
  }

  /** The descent of `walkScope`: the definition found deepest, the scopes called back on, and the innermost scope. */
  method Descend(root: ScopeNode, where: TsPosition, what: Option<string>, t: SymbolMapType, withCallback: bool)
    returns (sym: Option<Sym>, visited: seq<Scope>, last: ScopeNode)
    ensures Descended(ScopePath(root, where), what, t, withCallback, sym, visited, last)
  {
    ghost var full := ScopePath(root, where);
    ghost var walked: seq<ScopeNode> := [];
    visited := [];
    sym := None;
    last := root;
    while true
      invariant walked + ScopePath(last, where) == full
      invariant what.Some? ==> sym == Deepest(walked, what.value, t)
      invariant visited == if withCallback then ScopeSeq(walked) else []
      decreases last
    {
      ghost var prev := walked;
      sym, visited, walked := WalkStep(last, what, t, withCallback, sym, visited, walked);
      var next := FirstContainingScope(last.kids, where, 0);
      if next.None? {
        assert ScopePath(last, where) == [last];
        PathEnd(prev, walked, full, what, t, withCallback, sym, visited, last);
        break;
      }
      assert ScopePath(last, where) == [last] + ScopePath(last.kids[next.value], where);
      PathStep(prev, last, ScopePath(last.kids[next.value], where), full);
      last := last.kids[next.value];
    }
  }

  lemma PathStep(prev: seq<ScopeNode>, last: ScopeNode, rest: seq<ScopeNode>, full: seq<ScopeNode>)
    requires prev + ([last] + rest) == full
    ensures (prev + [last]) + rest == full
  {
  }

  /** The walk has covered `full`: its deepest definition, its scopes in order, and its innermost scope. */
  ghost predicate Descended(full: seq<ScopeNode>, what: Option<string>, t: SymbolMapType, withCallback: bool,
                            sym: Option<Sym>, visited: seq<Scope>, last: ScopeNode)
    requires full != []
    reads Scopes(full)
  {
    (what.Some? ==> sym == Deepest(full, what.value, t)) &&
    visited == (if withCallback then ScopeSeq(full) else []) &&
    last == full[|full| - 1]
  }

  lemma PathEnd(prev: seq<ScopeNode>, walked: seq<ScopeNode>, full: seq<ScopeNode>, what: Option<string>, t: SymbolMapType,
                withCallback: bool, sym: Option<Sym>, visited: seq<Scope>, last: ScopeNode)
    requires prev + [last] == full && walked == prev + [last]
    requires what.Some? ==> sym == Deepest(walked, what.value, t)
    requires visited == if withCallback then ScopeSeq(walked) else []
    ensures Descended(full, what, t, withCallback, sym, visited, last)
  {
  }

  /** What the walk answers once it has reached the innermost scope `last` holding the deepest definition `sym`. */
  lemma WalkAnswer(root: ScopeNode, where: TsPosition, what: Option<string>, t: SymbolMapType, withCallback: bool,
                   sym: Option<Sym>, visited: seq<Scope>, last: ScopeNode)
    requires ContainsPosition(root.scope.location.range, where)
    requires Descended(ScopePath(root, where), what, t, withCallback, sym, visited, last)
    ensures WalkScopeOf(root, where, what, t, withCallback) ==
      if what.Some? then (if sym.Some? then SymFound(sym.value) else Undefined)
      else if withCallback then ScopeFound(last, [])
      else Undefined
    ensures visited == if withCallback then ScopeSeq(ScopePath(root, where)) else []
  {
  }

  /** One scope of the walk: the callback, then the name looked up here shadowing any outer definition. */
  method WalkStep(scope: ScopeNode, what: Option<string>, t: SymbolMapType, withCallback: bool, sym: Option<Sym>, visited: seq<Scope>, ghost walked: seq<ScopeNode>)
    returns (sym': Option<Sym>, visited': seq<Scope>, ghost walked': seq<ScopeNode>)
    requires what.Some? ==> sym == Deepest(walked, what.value, t)
    requires visited == if withCallback then ScopeSeq(walked) else []
    ensures walked' == walked + [scope]
    ensures what.Some? ==> sym' == Deepest(walked', what.value, t)
    ensures what.None? ==> sym' == sym
    ensures visited' == if withCallback then ScopeSeq(walked') else []
  {
    walked' := walked + [scope];
    assert walked'[..|walked|] == walked;
    visited' := if withCallback then visited + [scope.scope] else visited;
    sym' := sym;
    if what.Some? {
      var here := scope.scope.Resolve(what.value, t);
      if here.Some? {
        sym' := here;
      }
    }
  }
}
