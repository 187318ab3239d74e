# eScript language server core, modelled in Dafny

This project models the editor-side semantic layer of the eScript language
server for POL scripts. The server exists in two generations: a native C++
addon and an older TypeScript server. The model covers these parts.

- **Position-to-symbol engine (C++).** `SemanticContextBuilder` narrows the
  parse tree to the rule nodes that contain the cursor. It records the
  enclosing class and user function. It then pops the nodes innermost-first
  and answers through scope-tree lookups or `get_*` hooks. The
  `DefinitionBuilder` and `ReferencesFinder` projections override those
  hooks. The stand-alone `HoverBuilder`, `CompletionBuilder` and
  `SemanticContextFinder` follow the same narrow-then-dispatch pattern with
  their own rendering rules.
- **Cross-document reference index.** Each `LSPDocument` keeps
  `referenced_by`, a map from a definition's range to a set of reference
  locations. The map is ordered by `RangeComparator` and each set by
  `ReferenceLocationComparator`. `ReferencesBuilder` fills the index and
  `ReferencesFinder` queries it under the same key.
- **Signature help, document symbols and the JSON AST** of the native
  server.
- **The document cache** (`LSPWorkspace`): open, close, analyze,
  diagnostics, dependees.
- **The TypeScript server**:
  - the syntax tree and its visitors;
  - the symbol tables and scope walk;
  - the parser's semantic tokens;
  - the `.cfg` readers;
  - the workspace locators and package bookkeeping.
- **The debugger client's `Content-Length` framing.** This is the base
  protocol of the Debug Adapter Protocol.

The compiler is a collaborator and is not part of this model. Its scope
tree lookups, `Range::contains`, `describe()` and the file-system queries
are passed in as function-valued parameters (oracles). Sets and maps of the
source are Dafny sequences, sets and maps:

- A `std::set` under a comparator is a sequence that is strictly
  increasing under that comparator.
- A JavaScript object or `Set` keeps insertion order, so it is a sequence.

Classes whose fields the source updates in place are Dafny classes:

- `SemanticContextBuilder`
- `LSPDocument`, `LSPWorkspace`
- `Sym`, `Scope`
- the TypeScript workspace's path details and its workspace cache
- `ConfigParser`, `PolDebugClient`

## Model

| member | source | states |
|---|---|---|
| `CompilerModel.FindParam` | native/cpp/compiler/SemanticContextBuilder.h:204-211 | the first parameter of the list with the given name, with no earlier parameter of that name; none iff no parameter has it |
| `CompilerModel.Ancestor` | native/cpp/compiler/SemanticContextBuilder.h:298-305 | `get_ancestor(node, depth)`: depth 0 is the node itself, depth d is the d-th parent, and past the root it is null |
| `CompilerModel.Parent` | native/cpp/compiler/SemanticContextBuilder.h:601-603 | `ctx->parent` is non-null exactly when the node has an ancestor, i.e. is not the root |
| `ContextBuilder.BaseHooks` | native/cpp/compiler/SemanticContextBuilder.h:91-176 | every default `get_*` hook of the base builder returns nothing |
| `ContextBuilder.ContainsSpan` | native/cpp/compiler/SemanticContextBuilder.h:727-751 | a token contains the cursor at its first and its last column, not at the column before it nor at the column just past its text, and never on another line (the half-open span [charPos+1, charPos+1+len)) |
| `ContextBuilder.ConstantShadowsVariable` | native/cpp/compiler/SemanticContextBuilder.h:216-228 | when the constant lookup yields a value, `try_constant_or_variable` returns that value whatever the variable lookup would answer |
| `ContextBuilder.VariableWhenNoConstant` | native/cpp/compiler/SemanticContextBuilder.h:216-228 | when the constant lookup yields nothing, `try_constant_or_variable` is exactly the variable lookup |
| `ContextBuilder.ModuleFunctionShadowsUserFunction` | native/cpp/compiler/SemanticContextBuilder.h:275-288 | when the module-function lookup yields a value, `try_function` returns it whatever the user-function lookup would answer |
| `ContextBuilder.AnyEndsWith` | native/cpp/compiler/SemanticContextBuilder.h:255-263 | true iff some referenced pathname ends with the given file name |
| `ContextBuilder.TryScopeCases` | native/cpp/compiler/SemanticContextBuilder.h:252-273 | `try_scope` is `get_module` when some referenced pathname ends with name+".em", else `get_class` when the name is a known class location, else nothing |
| `ContextBuilder.Unquote` | native/cpp/compiler/SemanticContextBuilder.h:639-642 | a string literal's text without its first and last character |
| `ContextBuilder.CallScope` | native/cpp/compiler/SemanticContextBuilder.h:592-618 | a FunctionCall whose parent is a ScopedFunctionCall takes the parent's IDENTIFIER as scope, or Global when it has none; any other parent gives no scope |
| `ContextBuilder.FirstContaining` | native/cpp/compiler/SemanticContextBuilder.h:693-703 | an identifier of a class parameter list that contains the cursor; none iff no identifier does |
| `ContextBuilder.BaseDispatchYieldsNothing` | native/cpp/compiler/SemanticContextBuilder.h:307-723 | with the base hooks, one pop of the dispatch loop either continues or returns nothing |
| `ContextBuilder.Dispatch` | native/cpp/compiler/SemanticContextBuilder.h:307-723 | a node of a rule `context()` does not examine lets the loop go on; a scoped identifier always answers |
| `ContextBuilder.BaseRunYieldsNothing` | native/cpp/compiler/SemanticContextBuilder.h:307-724 | with the base hooks, `context()` returns nothing whatever the walk pushed |
| `ContextBuilder.RunPopsInnermostFirst` | native/cpp/compiler/SemanticContextBuilder.h:307-311 | the loop pops from the top of the stack: what is left is a bottom part (prefix) of the pushed nodes, at least one frame is popped from a non-empty stack, and an empty stack answers nothing |
| `ContextBuilder.InnermostAnswers` | native/cpp/compiler/SemanticContextBuilder.h:307-311 | when the innermost pushed node matches, `context()` answers with it and pops nothing else |
| `ContextBuilder.PopClassClearsScope` | native/cpp/compiler/SemanticContextBuilder.h:713-717 | popping a ClassDeclaration that does not answer clears `calling_scope` for the outer nodes |
| `ContextBuilder.PopFunctionClearsCurrentFunction` | native/cpp/compiler/SemanticContextBuilder.h:718-722 | popping a FunctionDeclaration that does not answer clears `current_user_function` for the outer nodes |
| `ContextBuilder.FunctionCallUsesParentScope` | native/cpp/compiler/SemanticContextBuilder.h:592-618 | a FunctionCall whose IDENTIFIER contains the cursor answers `try_function` with the scope its parent gives, Global for an unnamed ScopedFunctionCall |
| `ContextBuilder.NoMatchWithoutContainment` | native/cpp/compiler/SemanticContextBuilder.h:311-711 | a node whose identifying IDENTIFIER does not contain the cursor never answers; the loop goes on popping |
| `ContextBuilder.PushedInPreorder` | native/cpp/compiler/SemanticContextBuilder.h:790-807 | `visitChildren` pushes only nodes whose range contains the position, each below the visited node, in pre-order (ancestors before descendants, siblings in order) |
| `ContextBuilder.PushedOnce` | native/cpp/compiler/SemanticContextBuilder.h:790-807 | no node is pushed twice |
| `ContextBuilder.PushedComplete` | native/cpp/compiler/SemanticContextBuilder.h:790-807 | every descendant whose range contains the position is pushed, because every child is visited whether or not it was pushed |
| `ContextBuilder.TrackedFromContainingDeclaration` | native/cpp/compiler/SemanticContextBuilder.h:753-787 | after the walk, `calling_scope` / `current_user_function` either keep their value or hold the name of a named class / function declaration whose range contains the position |
| `ContextBuilder.TrackedUnchanged` | native/cpp/compiler/SemanticContextBuilder.h:753-787 | a tree without a containing named declaration of that kind leaves the field unchanged |
| `ContextBuilder.SemanticContextBuilder.constructor` | native/cpp/compiler/SemanticContextBuilder.h:83-89 | a builder starts with no pushed nodes and empty `calling_scope` and `current_user_function` |
| `ContextBuilder.SemanticContextBuilder.Accept` | native/cpp/compiler/SemanticContextBuilder.h:753-807 | visiting a node appends exactly the pushed frames of its subtree and sets the two scope fields as the tracking functions say |
| `ContextBuilder.SemanticContextBuilder.VisitClassDeclaration` | native/cpp/compiler/SemanticContextBuilder.h:753-769 | a named class declaration containing the position sets `calling_scope` to its name before its children are visited |
| `ContextBuilder.SemanticContextBuilder.VisitFunctionDeclaration` | native/cpp/compiler/SemanticContextBuilder.h:771-787 | a named function declaration containing the position sets `current_user_function` to its name before its children are visited |
| `ContextBuilder.SemanticContextBuilder.VisitChildren` | native/cpp/compiler/SemanticContextBuilder.h:790-807 | the loop pushes each containing rule child and visits every child; `nodes` grows by exactly the pushed frames |
| `ContextBuilder.SemanticContextBuilder.VisitChild` | native/cpp/compiler/SemanticContextBuilder.h:793-804 | one turn of the loop keeps the loop invariant: the first i+1 children have been pushed and visited |
| `ContextBuilder.SemanticContextBuilder.Context` | native/cpp/compiler/SemanticContextBuilder.h:290-296 | `context()` walks the source tree when one was compiled and answers, leaves and sets exactly what the dispatch loop `Run` does on the pushed nodes and tracked scope fields |
| `ContextBuilder.SemanticContextBuilder.Unwind` | native/cpp/compiler/SemanticContextBuilder.h:307-724 | the pop loop: result, remaining nodes and scope fields are those of the dispatch specification `Run` |
| `DefinitionBuilder.PathOf` | native/cpp/compiler/DefinitionBuilder.cc:76-83 | `getpathof`: "./" when the name has no '/' or '\\'; otherwise a prefix of the name ending in a separator with no separator after it |
| `DefinitionBuilder.PathOfJoin` | native/cpp/compiler/DefinitionBuilder.cc:76-83 | the directory of dir+name, for a directory ending in a separator and a plain name, is dir |
| `DefinitionBuilder.PathOfIdempotent` | native/cpp/compiler/DefinitionBuilder.cc:76-83 | the directory of a directory is itself |
| `DefinitionBuilder.PackageMarker` | native/cpp/compiler/DefinitionBuilder.cc:87-94 | `filename_part[0] == ':'` holds exactly when the include name starts with ':' |
| `DefinitionBuilder.LocalIncludeFirst` | native/cpp/compiler/DefinitionBuilder.cc:87-92 | a plain include is the current file's directory + name + ".inc" when that file exists |
| `DefinitionBuilder.IncludeDirectoryFallback` | native/cpp/compiler/DefinitionBuilder.cc:123-134 | a plain include names the local file or IncludeDirectory's file, and the latter exactly when the first does not exist and the second does |
| `DefinitionBuilder.PackageInclude` | native/cpp/compiler/DefinitionBuilder.cc:94-112 | a ":pkg:" include names pkg dir + path, replaced by pkg dir + "include/" + path only when the first does not exist and the second does |
| `DefinitionBuilder.ScriptRootOrNothing` | native/cpp/compiler/DefinitionBuilder.cc:113-121 | a split without a package names PolScriptRoot + path; a failed split gives nothing |
| `DefinitionBuilder.FirstIndexOf` | native/cpp/compiler/DefinitionBuilder.cc:139-142 | `find_if`: the first index holding the pathname, none iff it is absent |
| `DefinitionBuilder.ReferencedFileStart` | native/cpp/compiler/DefinitionBuilder.cc:143-146 | a location exists iff the pathname is referenced, and it is the zero-width (1,1,0)-(1,1,0) range of that file |
| `DefinitionBuilder.FileTargetsAreReferenced` | native/cpp/compiler/DefinitionBuilder.cc:135-166 | include and module answers are the start of a file the compiler read, at the fully resolved candidate path; a module answers iff its resolved path is referenced |
| `DefinitionBuilder.FindReferencedFile` | native/cpp/compiler/DefinitionBuilder.cc:139-146 | the search loop returns exactly `ReferencedFileStart` |
| `DefinitionBuilder.GetInclude` | native/cpp/compiler/DefinitionBuilder.cc:85-150 | the step-by-step reassignment of the candidate behind the existence checks, then `FullPath` and the search, yields the include target the lemmas above characterise |
| `DefinitionBuilder.GetModule` | native/cpp/compiler/DefinitionBuilder.cc:152-166 | `get_module` computes `ModuleTarget`: ModuleDirectory + name + ".em", made full, if referenced |
| `DefinitionBuilder.GetProgramParameter` | native/cpp/compiler/DefinitionBuilder.cc:59-74 | the location of the first program parameter whose name matches; nothing iff there is no program or no parameter has that name |
| `DefinitionBuilder.ClassTarget` | native/cpp/compiler/DefinitionBuilder.cc:168-177 | the stored class location when the name is a known class, else nothing |
| `DefinitionBuilder.DefinitionHooks` | native/cpp/compiler/DefinitionBuilder.cc:19-57 | constant, variable, function, parameter and program hooks return the declaration's own location; program-parameter, include, module and class hooks answer the file-level targets; member and method answer nothing |
| `DefinitionBuilder.VariableDefinition` | native/cpp/compiler/DefinitionBuilder.cc:24-27 | a variable resolved at the cursor, not shadowed by a constant, is answered with its declaration's location |
| `DefinitionBuilder.Definition` | native/cpp/compiler/DefinitionBuilder.cc:14-17 | the definition is the base dispatch with the definition hooks, run on the walk of the source from empty scope fields |
| `LocationOrder.PositionLessIsStrictTotal` | native/cpp/compiler/SourceLocationComparator.cc:52-63 | the lexicographic order on (line, column, token index) is irreflexive, asymmetric, transitive and total on distinct positions |
| `LocationOrder.RangeLessIrreflexiveAsymmetric` | native/cpp/compiler/SourceLocationComparator.cc:50-79 | `RangeComparator` never holds of a range and itself, nor in both directions |
| `LocationOrder.RangeLessTransitive` | native/cpp/compiler/SourceLocationComparator.cc:50-79 | `RangeComparator` is transitive, so it is a strict weak order as `std::map` requires |
| `LocationOrder.RangeEquivalenceIsEquality` | native/cpp/compiler/SourceLocationComparator.cc:50-79 | two ranges are equivalent under `RangeComparator` exactly when all six fields agree, so a map keyed by it is a map keyed by range values |
| `LocationOrder.Stricmp` | native/cpp/compiler/SourceLocationComparator.cc:40 | the sign of `stricmp` is -1, 0 or 1 |
| `LocationOrder.StricmpZeroIffEqualsIgnoreCase` | native/cpp/compiler/SourceLocationComparator.cc:40-45 | `stricmp` is zero exactly on pathnames equal up to ASCII letter case |
| `LocationOrder.StricmpAntisymmetric` | native/cpp/compiler/SourceLocationComparator.cc:40-45 | swapping the arguments negates the sign |
| `LocationOrder.StricmpTransitive` | native/cpp/compiler/SourceLocationComparator.cc:40-45 | "less" under `stricmp` is transitive |
| `LocationOrder.StricmpZeroTransitive` | native/cpp/compiler/SourceLocationComparator.cc:40-45 | pathnames equal up to case compare alike with every third pathname |
| `LocationOrder.RefLessByRangeFirst` | native/cpp/compiler/SourceLocationComparator.cc:10-37 | for different ranges `ReferenceLocationComparator` is the range order and does not look at the pathname |
| `LocationOrder.RefLessIrreflexiveAsymmetric` | native/cpp/compiler/SourceLocationComparator.cc:10-48 | `ReferenceLocationComparator` is irreflexive and asymmetric |
| `LocationOrder.RefLessTransitive` | native/cpp/compiler/SourceLocationComparator.cc:10-48 | `ReferenceLocationComparator` is transitive |
| `LocationOrder.RefEquivalentIff` | native/cpp/compiler/SourceLocationComparator.cc:10-48 | two reference locations are equivalent exactly when their ranges are equal and their pathnames are equal up to letter case |
| `LocationOrder.SetInsertElements` | native/cpp/napi/LSPDocument.cc:69-84 | `std::set::insert` keeps every old element, adds nothing but the new one, and afterwards the set holds an element equivalent to it |
| `LocationOrder.SetInsertSorted` | native/cpp/napi/LSPDocument.cc:69-84 | insertion keeps the set strictly increasing under the comparator |
| `LocationOrder.SetInsertPresent` | native/cpp/napi/LSPDocument.cc:69-84 | inserting a location equivalent to one present leaves the set as it was |
| `LocationOrder.SortedTail` | native/cpp/napi/LSPDocument.h:63-66 | the tail of a strictly increasing set is strictly increasing |
| `LocationOrder.SetInsertIdempotent` | native/cpp/napi/LSPDocument.cc:69-84 | inserting the same location twice is inserting it once |
| `LocationOrder.SetInsertCaseCollapses` | native/cpp/napi/LSPDocument.cc:69-84 | a use recorded under a pathname that differs only in letter case from a present one is not added again |
| `ReferencesBuilder.NameSpan` | native/cpp/compiler/ReferencesBuilder.cc:50-60 | the span starts at the given line and column and ends on the same line, name-length columns later, truncated to `unsigned short` |
| `ReferencesBuilder.FunctionEdge` | native/cpp/compiler/ReferencesBuilder.cc:46-64 | `add_function_reference` records under the definition's document and name span the caller's pathname and a span of the definition's name length at the call |
| `ReferencesBuilder.CallEdges` | native/cpp/compiler/ReferencesBuilder.cc:66-84 | a linked call adds one edge, to the user function if linked else to the module function; an unlinked call adds none |
| `ReferencesBuilder.VariableEdges` | native/cpp/compiler/ReferencesBuilder.cc:34-43 | an identifier resolved to a variable adds one edge from the variable's location to the identifier's; an unresolved one adds none |
| `ReferencesBuilder.UnoptimizedEdges` | native/cpp/compiler/ReferencesBuilder.cc:128-142 | a node folded from an identifier naming a known constant adds one edge from the constant to the node's location; any other node adds none |
| `ReferencesBuilder.UserFunctionPreferred` | native/cpp/compiler/ReferencesBuilder.cc:70-83 | a call linked to both a user and a module function records only the user function |
| `ReferencesBuilder.UnresolvedIdentifierVisitsChildren` | native/cpp/compiler/ReferencesBuilder.cc:34-43 | an identifier with no variable adds exactly what its children add |
| `ReferencesBuilder.NullChildrenSkipped` | native/cpp/compiler/ReferencesBuilder.cc:86-92 | null children add no edge, in `visit_children` and in the call's own loop (also lines 116-127) |
| `ReferencesBuilder.UsedSpanHasDefinitionLength` | native/cpp/compiler/ReferencesBuilder.cc:57-60 | the use span's width is the definition's name length, not the text at the call |
| `ReferencesBuilder.ResolvedIdentifierEdge` | native/cpp/compiler/ReferencesBuilder.cc:34-43 | a resolved identifier's first edge goes to the variable's document and carries the identifier's own pathname and range |
| `ReferencesBuilder.LinkedCallEdge` | native/cpp/compiler/ReferencesBuilder.cc:66-76 | a call linked to a user function first records the edge in that function's document |
| `ReferencesFinder.FunctionKey` | native/cpp/compiler/ReferencesFinder.cc:66-73 | a function is queried in its own document under its name's span, the same span the builder writes |
| `ReferencesFinder.ReferenceHooks` | native/cpp/compiler/ReferencesFinder.cc:23-91 | variables, constants and parameters are looked up under their own location; functions under their name span; program parameters through the first parameter of that name; every other hook answers nothing |
| `ReferencesFinder.ProgramParameterFirstMatch` | native/cpp/compiler/ReferencesFinder.cc:44-58 | with no program or no parameter of that name there is no answer; a match in first place is looked up under its location |
| `ReferencesFinder.UserFunctionRoundTrip` | native/cpp/compiler/ReferencesFinder.cc:66-73 | once the builder has written a call edge of a user function, querying that function finds a set holding the call's name span |
| `ReferencesFinder.ModuleFunctionRoundTrip` | native/cpp/compiler/ReferencesFinder.cc:33-42 | the same round trip for a module function |
| `ReferencesFinder.VariableRoundTrip` | native/cpp/compiler/ReferencesFinder.cc:23-26 | once a variable's use is written, querying the variable finds it |
| `ReferencesFinder.ConstantRoundTrip` | native/cpp/compiler/ReferencesFinder.cc:28-31 | once a folded constant's use is written, querying the constant finds it |
| `ReferencesFinder.ParameterRoundTrip` | native/cpp/compiler/ReferencesFinder.cc:60-64 | once a use of a parameter is written, querying the parameter finds it |
| `ReferencesFinder.GetReferencesByLocation` | native/cpp/compiler/ReferencesFinder.cc:75-91 | the lookup answers the set under the range in the defining document, and the document is then in the cache (a fresh empty one if it was not) |
| `ReferencesFinder.GetFunctionReferences` | native/cpp/compiler/ReferencesFinder.cc:33-42 | the lookup under the function's name span, with the same cache effect (also lines 66-73) |
| `ReferencesFinder.GetProgramParameterReferences` | native/cpp/compiler/ReferencesFinder.cc:44-58 | the search loop then the lookup; no match answers nothing and leaves the cache alone |
| `ReferencesFinder.References` | native/cpp/compiler/ReferencesFinder.cc:17-21 | the finder's `context()` is the shared dispatch with the reference hooks over the walk of the source |
| `LspDocument.FileName` | native/cpp/napi/LSPDocument.cc:42 | `path::filename()` is a suffix of the pathname |
| `LspDocument.FileNameMeaning` | native/cpp/napi/LSPDocument.cc:42 | the file name holds no '/' and is the whole pathname or follows its last '/' |
| `LspDocument.NameExtension` | native/cpp/napi/LSPDocument.cc:42 | the extension of a file name is empty, or a '.'-led proper suffix of it |
| `LspDocument.NameExtensionMeaning` | native/cpp/napi/LSPDocument.cc:42 | a file name's extension is empty exactly when the name is ".." or has no '.' after its first character; otherwise it holds no '.' after its first |
| `LspDocument.Extension` | native/cpp/napi/LSPDocument.cc:42 | `path::extension()` is empty, or a '.'-led suffix of the pathname |
| `LspDocument.ExtensionOfFileName` | native/cpp/napi/LSPDocument.cc:42 | the extension is empty exactly when the file name is ".." or has no '.' after its first character; otherwise it is the file name's end from its last '.' |
| `LspDocument.TypeOf` | native/cpp/napi/LSPDocument.cc:42-55 | the document type is EM exactly for a lowercased extension ".em", INC exactly for ".inc", SRC otherwise |
| `LspDocument.ModuleExtension` | native/cpp/napi/LSPDocument.cc:42-47 | the extension is lowercased before the comparison: "util.EM" is a module |
| `LspDocument.IncludeExtension` | native/cpp/napi/LSPDocument.cc:48-51 | "b.inc" is an include file |
| `LspDocument.DirectoryDotIsNoExtension` | native/cpp/napi/LSPDocument.cc:42 | a '.' in a directory name is not an extension: "dir.em/readme" is a plain source |
| `LspDocument.LeadingDotIsNoExtension` | native/cpp/napi/LSPDocument.cc:42 | a file name whose only '.' leads it (".em") has no extension |
| `LspDocument.DotDotIsNoExtension` | native/cpp/napi/LSPDocument.cc:42 | the file name ".." has no extension, so "dir/.." is a plain source |
| `LspDocument.TypeOfName` | native/cpp/napi/LSPDocument.cc:42-55 | for "dir/stem" + ext, with a dot-free stem and ext empty or one '.'-led part, the type is EM exactly when ext lowercases to ".em" and INC exactly when it lowercases to ".inc" |
| `LspDocument.ExtensionOfName` | native/cpp/napi/LSPDocument.cc:42 | the extension of "dir/stem" + ext, for such a stem and ext, is ext |
| `LspDocument.FileNameAfterSlash` | native/cpp/napi/LSPDocument.cc:42 | the file name of "dir/name", for a name without '/', is name |
| `LspDocument.AddRefRecords` | native/cpp/napi/LSPDocument.cc:69-85 | after `add_reference_by` the key holds a set containing the use; every other key is untouched |
| `LspDocument.AddRefGrowsExistingKey` | native/cpp/napi/LSPDocument.cc:73-77 | under an existing key the set only grows, by insertion of the use |
| `LspDocument.AddRefNewKey` | native/cpp/napi/LSPDocument.cc:78-84 | a new key receives the singleton set of the use |
| `LspDocument.AddRefTwice` | native/cpp/napi/LSPDocument.cc:69-85 | recording the same use twice is recording it once |
| `LspDocument.AddRefSorted` | native/cpp/napi/LSPDocument.cc:69-85 | every set of `referenced_by` stays strictly ordered by the reference comparator |
| `LspDocument.AddRefOnlyGrows` | native/cpp/napi/LSPDocument.cc:69-85 | no key and no recorded use is ever lost |
| `LspDocument.ToLsp` | native/cpp/napi/LSPDocument.cc:195-209 | the editor diagnostic is the 0-based start position at both ends, severity 1 for an error and 2 otherwise, and the message |
| `LspDocument.OwnDiagnostics` | native/cpp/napi/LSPDocument.cc:186-212 | exactly the converted diagnostics whose file is this document's pathname; those of other files are skipped |
| `LspDocument.LSPDocument.constructor` | native/cpp/napi/LSPDocument.cc:24-56 | a new document has its pathname, the type from its extension, an empty index and no analysis yet |
| `LspDocument.LSPDocument.AddReferenceBy` | native/cpp/napi/LSPDocument.cc:69-85 | `referenced_by` becomes the insertion of the use under the definition's range |
| `LspDocument.LSPDocument.AddReferenceByLocation` | native/cpp/napi/LSPDocument.cc:63-67 | the overload forwards the definition's range and the use's pathname and range |
| `LspDocument.LSPDocument.AddReferenceByRange` | native/cpp/napi/LSPDocument.cc:105-109 | the overload forwards the use's pathname and range |
| `LspDocument.LSPDocument.Diagnostics` | native/cpp/napi/LSPDocument.cc:179-215 | the document's own diagnostics, converted, in report order |
| `LspWorkspace.ApplyEdgesAppend` | native/cpp/napi/LSPDocument.cc:87-103 | writing two runs of edges is writing their concatenation |
| `LspWorkspace.AddEdgeGrows` | native/cpp/napi/LSPDocument.cc:69-85 | writing one edge loses no document, key or use |
| `LspWorkspace.WorkspaceIncludesTransitive` | native/cpp/napi/LSPDocument.cc:69-85 | "only grows" composes over successive writes |
| `LspWorkspace.ApplyEdgesGrows` | native/cpp/napi/LSPDocument.cc:87-103 | building references never removes an earlier reference |
| `LspWorkspace.ApplyEdgesSorted` | native/cpp/napi/LSPDocument.cc:87-103 | every reference set of every document stays strictly ordered |
| `LspWorkspace.LookupKeepsLocation` | native/cpp/compiler/ReferencesFinder.cc:75-85 | a use found under a definition stays found after later writes |
| `LspWorkspace.ApplyEdgesRecords` | native/cpp/compiler/ReferencesFinder.cc:75-85 | after the edges are written, each edge's definition key finds a set holding its use |
| `LspWorkspace.KeyLessIrreflexive` | native/cpp/LSPWorkspace.cc:265 | the `std::map<std::string>` key order is irreflexive |
| `LspWorkspace.KeyLessTransitive` | native/cpp/LSPWorkspace.cc:265 | the key order is transitive |
| `LspWorkspace.KeyLessTotal` | native/cpp/LSPWorkspace.cc:265 | any two distinct keys are ordered |
| `LspWorkspace.MinKey` | native/cpp/LSPWorkspace.cc:265 | the first key of a non-empty key set is below every other key |
| `LspWorkspace.FirstKey` | native/cpp/LSPWorkspace.cc:265 | the next key the cache iteration reaches is the smallest of those left |
| `LspWorkspace.Mentions` | native/cpp/LSPWorkspace.cc:273-280 | the inner loop finds the pathname exactly when it is among the referenced files |
| `LspWorkspace.BelowStep` | native/cpp/LSPWorkspace.cc:265-281 | visiting the smallest remaining key keeps the results increasing and below every key still to visit |
| `LspWorkspace.AllDiagnostics` | native/cpp/LSPWorkspace.cc:188-206 | one converted diagnostic per reported one, in order, with no filtering by file |
| `LspWorkspace.OwnDiagnosticsOfOwnFile` | native/cpp/LSPWorkspace.cc:188-206 | when every diagnostic belongs to the document's file, the workspace's unfiltered list equals the document's filtered one |
| `LspWorkspace.TokenRow` | native/cpp/LSPWorkspace.cc:237-243 | a token row is 0-based line, 0-based column, length, type and 0 modifiers |
| `LspWorkspace.LSPWorkspace.constructor` | native/cpp/LSPWorkspace.cc:18-42 | a new workspace has an empty document cache |
| `LspWorkspace.LSPWorkspace.Open` | native/cpp/LSPWorkspace.cc:95-111 | `emplace`: an uncached path gets a fresh document typed by its extension; a cached document is kept as it is |
| `LspWorkspace.LSPWorkspace.Close` | native/cpp/LSPWorkspace.cc:113-131 | the answer is true exactly when the path was cached, and the path is no longer cached |
| `LspWorkspace.LSPWorkspace.CreateOrGetFromCache` | native/cpp/compiler/ReferencesBuilder.cc:38-40 | the cached document, or a fresh one with an empty index that joins the cache; no other cached document changes |
| `LspWorkspace.LSPWorkspace.AddDocument` | native/cpp/compiler/ReferencesBuilder.cc:38-40 | the uncached branch: a fresh empty document added under the pathname |
| `LspWorkspace.LSPWorkspace.CacheDocument` | native/cpp/compiler/ReferencesBuilder.cc:38-40 | the new document joins the cache under its pathname, every cached document stays, and the workspace index gains an empty index for it |
| `LspWorkspace.LSPWorkspace.DocumentAdded` | native/cpp/compiler/ReferencesBuilder.cc:38-40 | the workspace index after the addition is the old one with an empty index for the new path |
| `LspWorkspace.LSPWorkspace.RecordEdge` | native/cpp/compiler/ReferencesBuilder.cc:38-40 | finding the defining document then `add_reference_by` writes exactly one edge into the workspace index |
| `LspWorkspace.LSPWorkspace.DocumentUpdated` | native/cpp/napi/LSPDocument.cc:69-85 | a change to one document's index is a point update of the workspace index |
| `LspWorkspace.LSPWorkspace.AddFunctionReference` | native/cpp/compiler/ReferencesBuilder.cc:46-64 | the index gains exactly the function edge between the two name spans |
| `LspWorkspace.LSPWorkspace.AddUnoptimizedConstantReference` | native/cpp/compiler/ReferencesBuilder.cc:128-142 | the index gains exactly the folded-constant edge, if any |
| `LspWorkspace.LSPWorkspace.Accept` | native/cpp/compiler/ReferencesBuilder.cc:34-127 | visiting a node writes exactly the node's edge list `Visit`, in order: identifiers, calls and the four overridden value kinds by their own visits, every other node, other values included, by `visit_children` |
| `LspWorkspace.LSPWorkspace.VisitIdentifier` | native/cpp/compiler/ReferencesBuilder.cc:34-43 | the variable's edge, then the children's |
| `LspWorkspace.LSPWorkspace.VisitFunctionCall` | native/cpp/compiler/ReferencesBuilder.cc:66-93 | the linked function's edge, then each non-null child's visit |
| `LspWorkspace.LSPWorkspace.AddLinkReference` | native/cpp/compiler/ReferencesBuilder.cc:68-84 | the user function's edge if linked, else the module function's |
| `LspWorkspace.LSPWorkspace.VisitCallChildAt` | native/cpp/compiler/ReferencesBuilder.cc:86-92 | one turn of the call's child loop extends the written edges by that child's |
| `LspWorkspace.LSPWorkspace.VisitChildren` | native/cpp/compiler/ReferencesBuilder.cc:116-127 | the index gains, for each non-null child in order, its folded-constant edge then its visit's edges |
| `LspWorkspace.LSPWorkspace.VisitChildAt` | native/cpp/compiler/ReferencesBuilder.cc:118-126 | one turn of `visit_children` extends the written edges by that child's |
| `LspWorkspace.LSPWorkspace.VisitChild` | native/cpp/compiler/ReferencesBuilder.cc:124-125 | a present child adds its folded-constant edge and then its own visit |
| `LspWorkspace.LSPWorkspace.BuildReferences` | native/cpp/napi/LSPDocument.cc:87-103 | top-level statements, then the program if any, then each user function: the index gains exactly the document's edges |
| `LspWorkspace.LSPWorkspace.VisitUserFunctions` | native/cpp/napi/LSPDocument.cc:99-102 | the loop over user functions writes their edges in order |
| `LspWorkspace.LSPWorkspace.AnalyzeDocument` | native/cpp/napi/LSPDocument.cc:136-177 | compile in include mode when the workspace's compiler already sets it or the document is INC, and as a module for EM; the report is the compile's; a throw fails with its message, leaving no result and the index as it was; a compile keeps its result and writes exactly that document's edges into the index |
| `LspWorkspace.LSPWorkspace.RunCompiler` | native/cpp/napi/LSPDocument.cc:142-159 | the report is replaced by the compile's diagnostics and the compiler result by its workspace, or none; include mode is set by the workspace's compiler or by an INC document |
| `LspWorkspace.LSPWorkspace.Analyze` | native/cpp/LSPWorkspace.cc:133-165 | "Document not opened" for an uncached path, with the cache unchanged; otherwise the document is compiled always in include mode, as this workspace's `make_compiler` sets it (lines 301-306); its report is the compile's, a throw fails with its message and leaves no result and the index as it was, and a compile keeps its result and writes exactly that document's edges into the index, losing no earlier reference |
| `LspWorkspace.LSPWorkspace.Diagnostics` | native/cpp/LSPWorkspace.cc:167-209 | "Document not opened" for an uncached path, else every reported diagnostic converted, in order |
| `LspWorkspace.LSPWorkspace.Tokens` | native/cpp/LSPWorkspace.cc:211-248 | "Document not opened" for an uncached path; no rows before a successful analysis; else one row per semantic token |
| `LspWorkspace.LSPWorkspace.Dependees` | native/cpp/LSPWorkspace.cc:250-284 | exactly the other analysed cached documents whose referenced files include the path, each once, in key order, never the path itself |
| `LspWorkspace.LSPWorkspace.GetContents` | native/cpp/LSPWorkspace.cc:286-299 | a cached path asks the editor, failing exactly when the callback gives no string; any other path goes to the base loader |
| `LspWorkspace.LSPWorkspace.GetReferencesByDefinition` | native/cpp/compiler/ReferencesFinder.cc:75-85 | the set under the range in the defining document, which is cached afterwards |
| `LspWorkspace.IdentifierEdges` | native/cpp/compiler/ReferencesBuilder.cc:34-43 | an identifier's edges are its variable's, then its children's |
| `LspWorkspace.ValueEdges` | native/cpp/compiler/ReferencesBuilder.cc:96-114 | a float, integer, string or uninitialized value adds only its folded-constant edge, without visiting children |
| `LspWorkspace.OtherEdges` | native/cpp/compiler/ReferencesBuilder.cc:116-127 | any other node, a value of another kind included, adds only its children's edges |
| `LspWorkspace.CallNodeEdges` | native/cpp/compiler/ReferencesBuilder.cc:66-93 | a call's edges are its link's, then its non-null children's, without their folded-constant edges |
| `HoverBuilder.ParamText` | native/cpp/compiler/HoverBuilder.cc:49-55 | a parameter renders as its name, extended (by " := " and the default's description) exactly when it has a default |
| `HoverBuilder.ParamTexts` | native/cpp/compiler/HoverBuilder.cc:38-56 | one rendered text per parameter, in order |
| `HoverBuilder.ProgramParamNames` | native/cpp/compiler/HoverBuilder.cc:64-78 | one name per program parameter, in order |
| `HoverBuilder.ParametersTextSmall` | native/cpp/compiler/HoverBuilder.cc:33-58 | no parameters render as nothing, one parameter as its own text with no separator |
| `HoverBuilder.AppendParam` | native/cpp/compiler/HoverBuilder.cc:41-55 | one turn of the loop: ", " unless first, then the parameter's text, extends the join of the parameters so far |
| `HoverBuilder.ParametersToString` | native/cpp/compiler/HoverBuilder.cc:33-58 | the `added`-flag loop yields the parameters' texts joined by ", " |
| `HoverBuilder.ProgramParametersToString` | native/cpp/compiler/HoverBuilder.cc:60-81 | the loop yields the program parameters' names joined by ", " |
| `HoverBuilder.CallPrefersModuleFunction` | native/cpp/compiler/HoverBuilder.cc:118-154 | a call hovers as "(module function) f(params)" when a module function of that name exists, else as "(user function) f(params)", else nothing (also lines 410-420) |
| `HoverBuilder.ParameterHoverDefault` | native/cpp/compiler/HoverBuilder.cc:204-240 | a parameter always hovers as "(parameter) name", extended exactly when the enclosing function is found and its first same-named parameter has a default (also lines 325-361) |
| `HoverBuilder.ConstantBeforeVariable` | native/cpp/compiler/HoverBuilder.cc:83-115 | a constant of the name hovers as "(constant) name := description" whatever variable exists; otherwise the variable lookup decides |
| `HoverBuilder.TryConstant` | native/cpp/compiler/HoverBuilder.cc:83-93 | a constant hover exists exactly when the constant lookup finds one, and reads "(constant) ..." |
| `HoverBuilder.TryUserFunction` | native/cpp/compiler/HoverBuilder.cc:131-142 | a user-function hover exists exactly when the user-function lookup finds one, and reads "(user function) ..." |
| `HoverBuilder.HoverAt` | native/cpp/compiler/HoverBuilder.cc:156-436 | no hover unless the node's IDENTIFIER contains the cursor or for a rule the builder does not examine; a parameter always hovers as "(parameter) name..." |
| `HoverBuilder.MemberAndMethodNeedNoLookup` | native/cpp/compiler/HoverBuilder.cc:384-409 | navigation suffixes and struct initializers hover as "(member) name", method calls as "(method) name", independently of every lookup (also lines 421-433) |
| `HoverBuilder.HoverBuilder.constructor` | native/cpp/compiler/HoverBuilder.cc:21-24 | any workspace is accepted; a builder starts with no pushed nodes and, when the workspace has a referenced file, tests ranges inside the first one, which is read only when a child is visited (also lines 460-461) |
| `HoverBuilder.HoverBuilder.VisitChildren` | native/cpp/compiler/HoverBuilder.cc:454-470 | the walk appends exactly the containing nodes of the subtree, in pre-order |
| `HoverBuilder.HoverBuilder.Hover` | native/cpp/compiler/HoverBuilder.cc:26-437 | only the innermost pushed node is examined (the loop ends with `return` or `break`); no pushed node means no hover |
| `CompletionBuilder.KindNumber` | native/cpp/compiler/CompletionBuilder.h:15-41 | the kinds this builder emits carry the editor's numbers: Function 3, Constructor 4, Variable 6, Class 7, Module 9, Constant 21 |
| `CompletionBuilder.ClosedOnTheRight` | native/cpp/compiler/CompletionBuilder.cc:39-42 | the cursor just past a token selects it for completion (`>=`), although the hover-style containment excludes that column |
| `CompletionBuilder.SelectedToken` | native/cpp/compiler/CompletionBuilder.cc:37-55 | the index of the first token the cursor touches; none iff no token is touched |
| `CompletionBuilder.FindToken` | native/cpp/compiler/CompletionBuilder.cc:32-55 | the scan with `break` yields the first touched token and the one and two tokens before it, by token index, when those exist |
| `CompletionBuilder.ScopeBefore` | native/cpp/compiler/CompletionBuilder.cc:72-79 | an identifier before '::' names the scope; anything else is the global scope (also lines 84-91) |
| `CompletionBuilder.IdentifierQuery` | native/cpp/compiler/CompletionBuilder.cc:62-81 | an identifier is the prefix, with the calling scope and current function of the walk; after '::' the scope is the identifier before it, else Global; otherwise no scope |
| `CompletionBuilder.ColonColonQuery` | native/cpp/compiler/CompletionBuilder.cc:82-92 | a '::' gives an empty prefix in the scope named by the identifier before it, else Global |
| `CompletionBuilder.OtherTokenNoQuery` | native/cpp/compiler/CompletionBuilder.cc:93-96 | any other token gives no completion |
| `CompletionBuilder.MakeQuery` | native/cpp/compiler/CompletionBuilder.cc:62-96 | the query assigned field by field is the one the lemmas above characterise |
| `CompletionBuilder.ConstantItems` | native/cpp/compiler/CompletionBuilder.cc:100-103 | one Constant item per listed constant, named by its identifier, in order |
| `CompletionBuilder.VariableItems` | native/cpp/compiler/CompletionBuilder.cc:105-109 | one Variable item per listed variable, in order |
| `CompletionBuilder.UserFunctionKind` | native/cpp/compiler/CompletionBuilder.cc:113-116 | a user function is offered as Constructor exactly when it is a constructor, else as Function |
| `CompletionBuilder.UserFunctionItems` | native/cpp/compiler/CompletionBuilder.cc:111-117 | one item per listed user function, with that kind, in order |
| `CompletionBuilder.ModuleFunctionItems` | native/cpp/compiler/CompletionBuilder.cc:119-122 | one Function item per listed module function, in order |
| `CompletionBuilder.NameItems` | native/cpp/compiler/CompletionBuilder.cc:124-132 | one item of the given kind (Class for scopes, Module for modules) per listed name, in order |
| `CompletionBuilder.ItemsInCategoryOrder` | native/cpp/compiler/CompletionBuilder.cc:98-134 | the result is the six lists' items, as many as listed, constants first, then variables, user functions, module functions, scopes and modules |
| `CompletionBuilder.ConstantItemsSnoc` | native/cpp/compiler/CompletionBuilder.cc:100-103 | one more listed constant adds its item at the end |
| `CompletionBuilder.VariableItemsSnoc` | native/cpp/compiler/CompletionBuilder.cc:105-109 | one more listed variable adds its item at the end |
| `CompletionBuilder.UserFunctionItemsSnoc` | native/cpp/compiler/CompletionBuilder.cc:111-117 | one more listed user function adds its item at the end |
| `CompletionBuilder.ModuleFunctionItemsSnoc` | native/cpp/compiler/CompletionBuilder.cc:119-122 | one more listed module function adds its item at the end |
| `CompletionBuilder.NameItemsSnoc` | native/cpp/compiler/CompletionBuilder.cc:124-132 | one more listed name adds its item at the end |
| `CompletionBuilder.PushConstants` | native/cpp/compiler/CompletionBuilder.cc:100-103 | the `push_back` loop appends exactly the constant items |
| `CompletionBuilder.PushVariables` | native/cpp/compiler/CompletionBuilder.cc:105-109 | the loop appends exactly the variable items |
| `CompletionBuilder.PushUserFunctions` | native/cpp/compiler/CompletionBuilder.cc:111-117 | the loop appends exactly the user-function items |
| `CompletionBuilder.PushModuleFunctions` | native/cpp/compiler/CompletionBuilder.cc:119-122 | the loop appends exactly the module-function items |
| `CompletionBuilder.PushNames` | native/cpp/compiler/CompletionBuilder.cc:124-132 | the loop appends exactly the name items |
| `CompletionBuilder.ListItems` | native/cpp/compiler/CompletionBuilder.cc:98-134 | the six loops produce the category-ordered item list |
| `CompletionBuilder.Joined` | native/cpp/compiler/CompletionBuilder.cc:98-134 | six appends onto an empty result are the concatenation of the six lists |
| `CompletionBuilder.Complete` | native/cpp/compiler/CompletionBuilder.cc:32-134 | after the walk: the token scan, the query and the lists give the completions at the cursor |
| `CompletionBuilder.NothingWithoutContext` | native/cpp/compiler/CompletionBuilder.cc:27-30 | no pushed node, or no token under the cursor, gives no completions (also lines 57-60) |
| `CompletionBuilder.CompletionBuilder.constructor` | native/cpp/compiler/CompletionBuilder.cc:13-16 | a builder starts with no pushed nodes and empty scope fields |
| `CompletionBuilder.CompletionBuilder.Accept` | native/cpp/compiler/CompletionBuilder.cc:137-165 | visiting a node pushes its subtree's containing nodes and sets `calling_scope` / `current_user_function` from a containing named class / function |
| `CompletionBuilder.CompletionBuilder.VisitChildren` | native/cpp/compiler/CompletionBuilder.cc:167-183 | each containing rule child is pushed and every child is visited |
| `CompletionBuilder.CompletionBuilder.VisitChild` | native/cpp/compiler/CompletionBuilder.cc:171-179 | one turn of the loop keeps the loop invariant |
| `CompletionBuilder.CompletionBuilder.Context` | native/cpp/compiler/CompletionBuilder.cc:18-135 | no source gives nothing; otherwise the completions after the walk, from the fields the walk left |
| `SemanticContextFinder.AcceptPushesHere` | native/cpp/compiler/SemanticContextFinder.cc:152-188 | every node a visit pushes is in the document's own file and its location contains the cursor |
| `SemanticContextFinder.ChildPushesHere` | native/cpp/compiler/SemanticContextFinder.cc:174-188 | the same for the nodes `visit_children` pushes |
| `SemanticContextFinder.RootsPushesHere` | native/cpp/compiler/SemanticContextFinder.cc:31-33 | the same for the whole workspace visit |
| `SemanticContextFinder.DeclarationNotEntered` | native/cpp/compiler/SemanticContextFinder.cc:152-172 | a user function or constant declaration in another file, or not containing the cursor, pushes nothing at all |
| `SemanticContextFinder.OtherNodesLookedThrough` | native/cpp/compiler/SemanticContextFinder.cc:174-188 | any other node pushes what its children push, even when it does not contain the cursor itself |
| `SemanticContextFinder.ContainingChildFirst` | native/cpp/compiler/SemanticContextFinder.cc:180-185 | a containing child is pushed before everything its own visit pushes |
| `SemanticContextFinder.CallHover` | native/cpp/compiler/SemanticContextFinder.cc:76-93 | a call reads "(function) name(params)", with "<unknown>" when the call has no resolved parameters |
| `SemanticContextFinder.VariableText` | native/cpp/compiler/SemanticContextFinder.cc:112-118 | a resolved identifier reads "(global variable) name" for a global, "(local variable) name" otherwise |
| `SemanticContextFinder.FirstRecognisedAnswers` | native/cpp/compiler/SemanticContextFinder.cc:62-148 | the innermost node of a recognised kind answers; unrecognised nodes above it are popped and passed over |
| `SemanticContextFinder.UnresolvedIdentifierStops` | native/cpp/compiler/SemanticContextFinder.cc:108-120 | an identifier without a variable, reached first, ends the search with no hover (`break`) |
| `SemanticContextFinder.OnlyUnrecognisedGivesNothing` | native/cpp/compiler/SemanticContextFinder.cc:62-149 | a stack of unrecognised nodes only gives no hover |
| `SemanticContextFinder.SemanticContextFinder.constructor` | native/cpp/compiler/SemanticContextFinder.cc:25-29 | a finder starts with no pushed nodes |
| `SemanticContextFinder.SemanticContextFinder.Accept` | native/cpp/compiler/SemanticContextFinder.cc:152-188 | the visit appends exactly the node's pushes |
| `SemanticContextFinder.SemanticContextFinder.VisitDeclaration` | native/cpp/compiler/SemanticContextFinder.cc:152-172 | a declaration is pushed and entered only when in the own file and containing the cursor |
| `SemanticContextFinder.SemanticContextFinder.VisitChildren` | native/cpp/compiler/SemanticContextFinder.cc:174-188 | the loop pushes each present containing child and visits each present child |
| `SemanticContextFinder.SemanticContextFinder.AcceptRoots` | native/cpp/compiler/SemanticContextFinder.cc:33 | `workspace.accept` visits the roots in order |
| `SemanticContextFinder.SemanticContextFinder.Render` | native/cpp/compiler/SemanticContextFinder.cc:66-147 | one popped node answers with its kind's text, ends the search, or lets the next node be tried |
| `SemanticContextFinder.SemanticContextFinder.PopHover` | native/cpp/compiler/SemanticContextFinder.cc:62-149 | the pop loop gives the stack's hover, and what is left is a bottom part of the stack |
| `SemanticContextFinder.SemanticContextFinder.Hover` | native/cpp/compiler/SemanticContextFinder.cc:31-150 | the visit, then the pop loop over what it pushed |
| `SemanticContextFinder.HoverIsHere` | native/cpp/compiler/SemanticContextFinder.cc:31-150 | a hover only ever comes from a node of the own file containing the cursor |
| `DocumentSymbols.KindNumber` | native/cpp/compiler/DocumentSymbolsBuilder.h:18-46 | the kinds this builder emits carry the editor's numbers (Class 5, Method 6, Constructor 9, Enum 10, Function 12, Variable 13, Constant 14, EnumMember 22) |
| `DocumentSymbols.RangeToObject` | native/cpp/compiler/DocumentSymbolsBuilder.cc:12-26 | every 1-based line and column of the range becomes 0-based |
| `DocumentSymbols.RangeToObjectKeepsOrder` | native/cpp/compiler/DocumentSymbolsBuilder.cc:12-26 | a range whose start is not after its end keeps that order after conversion |
| `DocumentSymbols.MakeSymbol` | native/cpp/compiler/DocumentSymbolsBuilder.cc:48-62 | a symbol carries a `children` array exactly when at least one child symbol was appended |
| `DocumentSymbols.FunctionKindRule` | native/cpp/compiler/DocumentSymbolsBuilder.cc:237-271 | inside a class, a function whose first parameter is `this` (any case) is a Constructor when named as the class (any case) and a Method otherwise; every other function is a Function |
| `DocumentSymbols.PlainRuleKind` | native/cpp/compiler/DocumentSymbolsBuilder.cc:67-235 | the rules handled by the IDENTIFIER check alone each declare their fixed kind; function expressions, index bindings and function declarations have their own tests (also lines 281-296) |
| `DocumentSymbols.EntryOf` | native/cpp/compiler/DocumentSymbolsBuilder.cc:67-295 | a function expression contributes exactly when its AT is present and not an error node; any other contribution is named and selected by a usable IDENTIFIER of a declaring rule |
| `DocumentSymbols.OneSymbolPerDeclaration` | native/cpp/compiler/DocumentSymbolsBuilder.cc:44-65 | a usable declaration (a function expression whose AT is present and not an error node, or a declaration with a usable IDENTIFIER) appends exactly one symbol to the array on top, whose children are what its children's visit appended |
| `DocumentSymbols.UnnamedDeclarationPassesChildrenUp` | native/cpp/compiler/DocumentSymbolsBuilder.cc:77-80 | a declaration with a missing or error IDENTIFIER emits nothing itself; its children's symbols go to the enclosing array (also lines 94-97) |
| `DocumentSymbols.ErrorFunctionExpressionPassesChildrenUp` | native/cpp/compiler/DocumentSymbolsBuilder.cc:102-116 | a function expression whose AT is missing or an error node emits nothing itself; its children's symbols go to the enclosing array |
| `DocumentSymbols.ClassScopeOnlyInside` | native/cpp/compiler/DocumentSymbolsBuilder.cc:67-83 | a class's children are visited with the class name as `current_scope`, which is cleared afterwards |
| `DocumentSymbols.NoClassNoScope` | native/cpp/compiler/DocumentSymbolsBuilder.cc:67-83 | starting outside any class, `current_scope` is empty again after any walk |
| `DocumentSymbols.KidsNoScope` | native/cpp/compiler/DocumentSymbolsBuilder.cc:67-83 | the same over a prefix of the children |
| `DocumentSymbols.DocumentSymbolsBuilder.constructor` | native/cpp/compiler/DocumentSymbolsBuilder.cc:28-32 | a builder starts with an empty array stack and an empty scope |
| `DocumentSymbols.DocumentSymbolsBuilder.Symbols` | native/cpp/compiler/DocumentSymbolsBuilder.cc:34-42 | the result is the root array the walk of the source filled |
| `DocumentSymbols.DocumentSymbolsBuilder.Accept` | native/cpp/compiler/DocumentSymbolsBuilder.cc:67-296 | visiting a node appends exactly its walk's symbols to the array on top and leaves the arrays below untouched |
| `DocumentSymbols.DocumentSymbolsBuilder.AppendSymbol` | native/cpp/compiler/DocumentSymbolsBuilder.cc:44-65 | the children are collected in a pushed array, which is popped, and the symbol joins the array on top |
| `DocumentSymbols.DocumentSymbolsBuilder.CollectChildren` | native/cpp/compiler/DocumentSymbolsBuilder.cc:54-57 | push, visit the children, pop: the stack is as before and the popped array holds the children's symbols |
| `DocumentSymbols.DocumentSymbolsBuilder.VisitChildren` | native/cpp/compiler/DocumentSymbolsBuilder.cc:56 | the children's symbols are appended to the array on top |
| `SignatureHelpBuilder.Documentation` | native/cpp/compiler/SignatureHelpBuilder.cc:63-73 | a parameter's documentation is the value of the first documented parameter with the same name, and empty when none has it |
| `SignatureHelpBuilder.Shown` | native/cpp/compiler/SignatureHelpBuilder.cc:46-47 | a constructor or `super` call skips its first parameter; otherwise every parameter is shown |
| `SignatureHelpBuilder.LabelPrefixIsJoin` | native/cpp/compiler/SignatureHelpBuilder.cc:46-89 | after i parameters the label text past `name(` is a space followed by the parameter pieces joined with `, ` |
| `SignatureHelpBuilder.LabelPrefixGrows` | native/cpp/compiler/SignatureHelpBuilder.cc:46-89 | the label only ever grows at its end while parameters are appended |
| `SignatureHelpBuilder.SpansSliceNames` | native/cpp/compiler/SignatureHelpBuilder.cc:25-98 | one span per shown parameter; each span lies inside the label, slices out exactly that parameter's name, and spans are strictly ordered |
| `SignatureHelpBuilder.SpanSlicesName` | native/cpp/compiler/SignatureHelpBuilder.cc:75-77 | the i-th span slices the i-th parameter's name from the label |
| `SignatureHelpBuilder.NoParametersLabel` | native/cpp/compiler/SignatureHelpBuilder.cc:91-97 | with no parameter shown the label is `name()` and there are no spans |
| `SignatureHelpBuilder.MakeSignatureHelp` | native/cpp/compiler/SignatureHelpBuilder.cc:25-98 | the loop builds exactly the label, spans and active parameter that the specification function describes |
| `SignatureHelpBuilder.AddParameter` | native/cpp/compiler/SignatureHelpBuilder.cc:49-88 | one loop iteration keeps the running label, position and spans in step with the specification |
| `SignatureHelpBuilder.LastContaining` | native/cpp/compiler/SignatureHelpBuilder.cc:111-128 | the scan from the end stops at the last token containing the cursor, and finds nothing only when no token contains it |
| `SignatureHelpBuilder.ScanBack` | native/cpp/compiler/SignatureHelpBuilder.cc:135-193 | a callee found by the backward scan is an IDENTIFIER directly before an unmatched LPAREN, before the cursor token |
| `SignatureHelpBuilder.CommaRun` | native/cpp/compiler/SignatureHelpBuilder.cc:137-141 | across tokens with no parentheses the active parameter grows by the number of commas (also line 192) |
| `SignatureHelpBuilder.ScanPastNonParen` | native/cpp/compiler/SignatureHelpBuilder.cc:137-141 | a token that is not a parenthesis adds one for a comma and nothing otherwise (also line 192) |
| `SignatureHelpBuilder.ActiveParameterIsCommaCount` | native/cpp/compiler/SignatureHelpBuilder.cc:135-193 | with no parentheses between the call's LPAREN and the cursor, the active parameter is the number of commas between them |
| `SignatureHelpBuilder.InnerCallSkipped` | native/cpp/compiler/SignatureHelpBuilder.cc:180-190 | a balanced inner call is skipped and its commas do not count |
| `SignatureHelpBuilder.OuterCallAfterInnerCall` | native/cpp/compiler/SignatureHelpBuilder.cc:135-193 | with one nested call between, the outer call is found and only the outer commas count |
| `SignatureHelpBuilder.OpenParenCallee` | native/cpp/compiler/SignatureHelpBuilder.cc:143-174 | an unmatched LPAREN right after an IDENTIFIER names the callee |
| `SignatureHelpBuilder.NoIdentifierNoCallee` | native/cpp/compiler/SignatureHelpBuilder.cc:146-178 | an unmatched LPAREN not preceded by an IDENTIFIER gives no signature help |
| `SignatureHelpBuilder.CalleeScope` | native/cpp/compiler/SignatureHelpBuilder.cc:158-171 | `A::f(` queries scope A, `::f(` the global scope, and `f(` no scope |
| `SignatureHelpBuilder.ClassTokenAtOrBefore` | native/cpp/compiler/SignatureHelpBuilder.cc:206-214 | the class keyword found is the nearest one at or before the callee, or there is none |
| `SignatureHelpBuilder.FirstNonSpace` | native/cpp/compiler/SignatureHelpBuilder.cc:220-235 | the token after the class keyword is the first non-whitespace one, or there is none |
| `SignatureHelpBuilder.ModuleFunctionTriedFirst` | native/cpp/compiler/SignatureHelpBuilder.cc:239-256 | a module function wins over a user function; without either there is no help; a constructor or super call skips the first parameter |
| `SignatureHelpBuilder.FindContaining` | native/cpp/compiler/SignatureHelpBuilder.cc:111-128 | the loop finds the last containing token and whether it lies inside a class body |
| `SignatureHelpBuilder.ScanForCallee` | native/cpp/compiler/SignatureHelpBuilder.cc:131-193 | the loop with its explicit stack computes the backward-scan result |
| `SignatureHelpBuilder.FindClassScope` | native/cpp/compiler/SignatureHelpBuilder.cc:200-237 | the loop sets the calling scope to the class name that follows the nearest class keyword |
| `SignatureHelpBuilder.Context` | native/cpp/compiler/SignatureHelpBuilder.cc:100-261 | the method returns exactly the help the specification function gives for the cursor |
| `SignatureHelpBuilder.QueryAt` | native/cpp/compiler/SignatureHelpBuilder.cc:104-237 | the query assembled is the callee name, its scope and the calling class |
| `SignatureHelpBuilder.CallAt` | native/cpp/compiler/SignatureHelpBuilder.cc:104-237 | no query without a token under the cursor; a query names a non-empty identifier that is directly followed by an LPAREN, with no current user function |
| `SignatureHelpBuilder.HelpForQuery` | native/cpp/compiler/SignatureHelpBuilder.cc:239-256 | the help is built for the function the scope tree resolves |
| `JsonAst.ToValue` | native/cpp/compiler/JsonAstBuilder.cc:133-140 | an empty result becomes null; any other is passed through |
| `JsonAst.FieldValue` | native/cpp/compiler/JsonAstBuilder.cc:142-158 | a field found in a node is one the node carries under that key |
| `JsonAst.Lookup` | native/cpp/compiler/JsonAstBuilder.cc:142-158 | lookup finds a field with the key, or reports absence only when no field has it |
| `JsonAst.TwoFields` | native/cpp/compiler/JsonAstBuilder.cc:142-158 | a node built with two distinct keys gives back each value under its key |
| `JsonAst.FourFields` | native/cpp/compiler/JsonAstBuilder.cc:142-158 | the same for four distinct keys |
| `JsonAst.ThrowIfError` | native/cpp/compiler/JsonAstBuilder.cc:29-41 | parsing fails exactly when errors were reported; the message is the first error's, prefixed "Compilation error: ", or "Unknown error" when no diagnostic is an error |
| `JsonAst.FirstError` | native/cpp/compiler/JsonAstBuilder.cc:33-40 | the failure names some error diagnostic, or is "Unknown error" |
| `JsonAst.EarliestErrorReported` | native/cpp/compiler/JsonAstBuilder.cc:33-40 | the message is that of the earliest diagnostic of error severity |
| `JsonAst.PositionsUpTo` | native/cpp/compiler/JsonAstBuilder.cc:59-66 | after i tokens the position map holds exactly the first i tokens |
| `JsonAst.PositionsStep` | native/cpp/compiler/JsonAstBuilder.cc:62-66 | each token adds its own span and changes no earlier one |
| `JsonAst.OffsetsContiguous` | native/cpp/compiler/JsonAstBuilder.cc:56-66 | spans start at 0, have the token's length (0 for EOF) and each starts where the previous ends |
| `JsonAst.OffsetsBounded` | native/cpp/compiler/JsonAstBuilder.cc:56-66 | span bounds never decrease and never pass the total text length |
| `JsonAst.CommentsUpTo` | native/cpp/compiler/JsonAstBuilder.cc:68-81 | no more comment nodes than tokens seen |
| `JsonAst.NoCommentsWithoutCommentTokens` | native/cpp/compiler/JsonAstBuilder.cc:68-81 | without COMMENT or LINE_COMMENT tokens the comments array is empty |
| `JsonAst.Aggregate` | native/cpp/compiler/JsonAstBuilder.cc:97-120 | an array accumulator takes the elements of an array result, or the result itself; a non-array accumulator is left as is |
| `JsonAst.VisitChildrenFlattens` | native/cpp/compiler/JsonAstBuilder.cc:92-120 | folding the children's results from the default empty array flattens them exactly one level |
| `JsonAst.OneLevelOnly` | native/cpp/compiler/JsonAstBuilder.cc:97-120 | arrays nested two deep stay nested |
| `JsonAst.StringLiteralValue` | native/cpp/compiler/JsonAstBuilder.cc:1248-1256 | the quotes are stripped from a text of two or more characters; the empty text makes the substring fail |
| `JsonAst.StringLiteralUnquotes` | native/cpp/compiler/JsonAstBuilder.cc:1248-1256 | stripping the quotes of a quoted value gives the value back |
| `JsonAst.JsonAstBuilder.constructor` | native/cpp/compiler/JsonAstBuilder.cc:17 | a builder starts with an empty position map |
| `JsonAst.JsonAstBuilder.IndexTokens` | native/cpp/compiler/JsonAstBuilder.cc:54-82 | the token loop fills the position map with every token's span and collects the comment nodes in order |
| `JsonAst.JsonAstBuilder.TokenPosition` | native/cpp/compiler/JsonAstBuilder.cc:160-173 | a token's position is its span, and a token missing from the map is an error |
| `JsonAst.JsonAstBuilder.CtxPosition` | native/cpp/compiler/JsonAstBuilder.cc:175-188 | a rule's position runs from its start token's start to its stop token's end; either missing is an error |
| `JsonAst.JsonAstBuilder.NewNode` | native/cpp/compiler/JsonAstBuilder.cc:202-229 | a node carries its type, range, start and end offsets and the given fields, and fails only when its position fails |
| `JsonAst.JsonAstBuilder.NewTerminalNode` | native/cpp/compiler/JsonAstBuilder.cc:160-163 | the same for a terminal, whose offsets are its token's span (also lines 202-229) |
| `JsonAst.JsonAstBuilder.MakeIdentifier` | native/cpp/compiler/JsonAstBuilder.cc:1232-1237 | an identifier node whose id is the terminal's text |
| `JsonAst.JsonAstBuilder.MakeStatementLabel` | native/cpp/compiler/JsonAstBuilder.cc:1219-1230 | no label gives an empty result; a label gives an identifier node with its text |
| `JsonAst.JsonAstBuilder.MakeStringLiteral` | native/cpp/compiler/JsonAstBuilder.cc:1248-1256 | raw is the token text and value is that text without its quotes |
| `JsonAst.JsonAstBuilder.MakeStringValue` | native/cpp/compiler/JsonAstBuilder.cc:1239-1246 | value and raw are both the given text |
| `JsonAst.JsonAstBuilder.MakeBoolLiteral` | native/cpp/compiler/JsonAstBuilder.cc:1278-1287 | value is true exactly for a BOOL_TRUE token; raw is its text |
| `JsonAst.JsonAstBuilder.DictInitializer` | native/cpp/compiler/JsonAstBuilder.cc:318-332 | key is the first expression; value is the second, or null when there is none |
| `JsonAst.JsonAstBuilder.AggregateResult` | native/cpp/compiler/JsonAstBuilder.cc:97-120 | pushing one element at a time yields the aggregate |
| `JsonAst.JsonAstBuilder.VisitIfStatement` | native/cpp/compiler/JsonAstBuilder.cc:815-857 | no condition gives an empty result; otherwise the loop from the last condition to the first builds the nested if chain |
| `JsonAst.IfChainShape` | native/cpp/compiler/JsonAstBuilder.cc:831-854 | each if node tests its own condition with its own block; only the outermost has elseif false; the innermost's alternative is the else block or null |
| `JsonAst.IfChainDepth` | native/cpp/compiler/JsonAstBuilder.cc:831-854 | n conditions give exactly n nested if nodes |
| `TsAst.SlotsNodesSmaller` | server/src/grammars/ast-types.ts:53-111 | every node listed among a node's parts is structurally smaller |
| `TsAst.ChildSmaller` | server/src/grammars/ast-types.ts:53-111 | every child is structurally smaller than its parent, so walks terminate |
| `TsAst.AllChildrenSmaller` | server/src/grammars/ast-types.ts:53-111 | the same for every index of the children list |
| `TsAst.SlotsNodesAppend` | server/src/grammars/ast-types.ts:53-111 | listing the children of consecutive parts concatenates them, absent optional parts adding nothing |
| `TsAst.IfChildren` | server/src/grammars/ast-types.ts:87 | an if statement's children are test, consequent and, when present, the alternate |
| `TsAst.CstyleForChildren` | server/src/grammars/ast-types.ts:66 | a C-style for's children are init, test and update when present, then the body |
| `TsAst.LeavesHaveNoChildren` | server/src/grammars/ast-types.ts:53-111 | node types without parts have no children |
| `TsAst.FirstContaining` | server/src/grammars/ast-types.ts:124-129 | the child chosen is the first, in children order, whose range contains the position; none is chosen only when no child contains it |
| `TsAst.FindPath` | server/src/grammars/ast-types.ts:114-134 | the callback sees the root first |
| `TsAst.PathSteps` | server/src/grammars/ast-types.ts:120-130 | each next node on the path is the first child of the previous that contains the position |
| `TsAst.PathEnd` | server/src/grammars/ast-types.ts:120-132 | every node below the root on the path contains the position, and the last one has no child that does |
| `TsAst.FoundNodeIsInnermost` | server/src/grammars/ast-types.ts:114-134 | the node found contains the position and none of its children do |
| `TsAst.Find` | server/src/grammars/ast-types.ts:114-134 | null and no callback when the root does not contain the position; otherwise the innermost node, the callback seeing the path from the root |
| `TsAst.SizesOfIsQueueSize` | server/src/grammars/ast-types.ts:136-147 | the size measure of a node's children equals their queue size |
| `TsAst.QueueSizeAppend` | server/src/grammars/ast-types.ts:136-147 | queue size adds over concatenation |
| `TsAst.DequeueShrinks` | server/src/grammars/ast-types.ts:141-146 | dequeuing a node and enqueuing its children removes exactly one node from the queue's total, so the walk terminates |
| `TsAst.QueueDescendantsAppend` | server/src/grammars/ast-types.ts:136-147 | the descendants of a queue add over concatenation |
| `TsAst.DescendantsOfSplit` | server/src/grammars/ast-types.ts:136-147 | a node's descendants are its children plus their descendants |
| `TsAst.BfsVisitsDescendants` | server/src/grammars/ast-types.ts:141-146 | draining the queue calls back exactly once for each descendant of its nodes |
| `TsAst.VisitChildrenCoversTree` | server/src/grammars/ast-types.ts:136-147 | the callback sees the root and then every node below it exactly once |
| `TsAst.EnqueueChildren` | server/src/grammars/ast-types.ts:142-145 | each child is passed to the callback and enqueued, in order |
| `TsAst.VisitChildren` | server/src/grammars/ast-types.ts:136-147 | the callback sees the root, then the breadth-first order of the tree |
| `TsAst.LoopTypes` | server/src/grammars/ast-types.ts:150-160 | exactly the six loop statements are loops |
| `EscriptVisitor.TokenEndPos` | server/src/grammars/EscriptParserVisitorImpl.ts:73-85 | the loop computes the as-written end position of a token, starting from its 0-based line |
| `EscriptVisitor.SingleLineTokenEnd` | server/src/grammars/EscriptParserVisitorImpl.ts:73-85 | a token of n characters with no line break before its last character ends at column c + n of its own line |
| `EscriptVisitor.TokensToRange` | server/src/grammars/EscriptParserVisitorImpl.ts:97-105 | a range starts at the start token's 0-based line and column and ends at `getEndPos` of the end token, whose line adds every '\r' and '\n' before its last character, "\r\n" counting twice as written (also lines 73-85) |
| `EscriptVisitor.SingleTokenRange` | server/src/grammars/EscriptParserVisitorImpl.ts:97-105 | a one-line token of length n spans (L - 1, c) to (L - 1, c + n) |
| `EscriptVisitor.TokensToRangeCorrected` | server/src/grammars/EscriptParserVisitorImpl.ts:73-86 | as intended: the end line adds the line breaks before the last character, "\r\n" counting once |
| `EscriptVisitor.TokensToRangeAgreeWithoutCr` | server/src/grammars/EscriptParserVisitorImpl.ts:73-86 | without a carriage return in the end token the range as written is the intended one |
| `EscriptVisitor.CrLfTokenRange` | server/src/grammars/EscriptParserVisitorImpl.ts:73-86 | an end token "a\r\nb" on line 1 ends on 0-based line 2 as written and on line 1 as intended |
| `EscriptVisitor.StripQuotes` | server/src/grammars/EscriptParserVisitorImpl.ts:225-231 | a text not starting with a quote is kept as is |
| `EscriptVisitor.QuotedRoundTrip` | server/src/grammars/EscriptParserVisitorImpl.ts:225-231 | a quoted text loses exactly its quotes |
| `EscriptVisitor.LoneQuoteKept` | server/src/grammars/EscriptParserVisitorImpl.ts:225-231 | a lone quote is kept, since `substring(1, 0)` swaps its bounds |
| `EscriptVisitor.BaseStart` | server/src/grammars/EscriptParserVisitorImpl.ts:291 | the last path component starts after the last '/' and holds no '/' |
| `EscriptVisitor.TrimTrailingSlashes` | server/src/grammars/EscriptParserVisitorImpl.ts:291 | `path.extname` first passes over the '/' at the end: the result is a prefix not ending in '/', and only '/' were dropped |
| `EscriptVisitor.Extname` | server/src/grammars/EscriptParserVisitorImpl.ts:291 | an extension is empty or starts with '.' |
| `EscriptVisitor.ExtnameTrailingSlash` | server/src/grammars/EscriptParserVisitorImpl.ts:291 | a '/' at the end does not change the extension |
| `EscriptVisitor.TrailingSlashInclude` | server/src/grammars/EscriptParserVisitorImpl.ts:291 | "dir/name.inc/", in any case, has extension ".inc" and is an include |
| `EscriptVisitor.BaseExtension` | server/src/grammars/EscriptParserVisitorImpl.ts:291 | the same for a last path component |
| `EscriptVisitor.SourceTypeOf` | server/src/grammars/EscriptParserVisitorImpl.ts:291 | a program is an include exactly when its extension, lowercased, ends in ".inc", and a script otherwise |
| `EscriptVisitor.BaseStartAfterSlash` | server/src/grammars/EscriptParserVisitorImpl.ts:291 | after "dir/", the last component starts just past the slash |
| `EscriptVisitor.ExtnameAfterSlash` | server/src/grammars/EscriptParserVisitorImpl.ts:291 | the extension of "dir/base", for a non-empty base, is that of base |
| `EscriptVisitor.NamedExtension` | server/src/grammars/EscriptParserVisitorImpl.ts:291 | "name.ext" has extension ".ext" when name holds no dot |
| `EscriptVisitor.BareExtension` | server/src/grammars/EscriptParserVisitorImpl.ts:291 | a base that is only ".inc" has no extension |
| `EscriptVisitor.IncludeByExtension` | server/src/grammars/EscriptParserVisitorImpl.ts:291 | "dir/name.inc", in any case, is an include; "dir/.inc" is a script |
| `EscriptVisitor.NamedInclude` | server/src/grammars/EscriptParserVisitorImpl.ts:291 | "dir/name.ext" has extension ".ext" |
| `EscriptVisitor.BareInclude` | server/src/grammars/EscriptParserVisitorImpl.ts:291 | "dir/.inc" has no extension |
| `EscriptVisitor.ScanList` | server/src/grammars/EscriptParserVisitorImpl.ts:1092-1111 | the right-to-left loop builds exactly the items and placeholders the list specification gives |
| `EscriptVisitor.PresentAppend` | server/src/grammars/EscriptParserVisitorImpl.ts:1092-1111 | the items present add over concatenation |
| `EscriptVisitor.ItemsKept` | server/src/grammars/EscriptParserVisitorImpl.ts:1092-1111 | every item of the list is kept, in order; placeholders are all that is added |
| `EscriptVisitor.TrailingCommaPlaceholder` | server/src/grammars/EscriptParserVisitorImpl.ts:1092-1111 | "a," gives a and a placeholder; "a, b" gives a and b |
| `EscriptVisitor.LowerStatement` | server/src/grammars/EscriptParserVisitorImpl.ts:490-507 | an expression statement becomes an assignment exactly when it is a `:=` to a name or member; otherwise it stays a terminated expression statement |
| `EscriptVisitor.LoweringRoundTrip` | server/src/grammars/EscriptParserVisitorImpl.ts:490-507 | lowering loses nothing: the statement gives its expression back |
| `EscriptVisitor.OtherTargetsNotLowered` | server/src/grammars/EscriptParserVisitorImpl.ts:492-507 | a `:=` to anything else stays an expression statement |
| `EscriptVisitor.IfChain` | server/src/grammars/EscriptParserVisitorImpl.ts:531-566 | the root tests the first condition with the then block; with more conditions its alternate is an elseif |
| `EscriptVisitor.IfChainFlattens` | server/src/grammars/EscriptParserVisitorImpl.ts:531-566 | walking the chain gives back the tests and blocks in source order and the else block at its end |
| `EscriptVisitor.ChainTests` | server/src/grammars/EscriptParserVisitorImpl.ts:531-566 | the chain's tests are the conditions in order |
| `EscriptVisitor.ChainBlocks` | server/src/grammars/EscriptParserVisitorImpl.ts:531-566 | the chain's consequents are the blocks in order |
| `EscriptVisitor.ChainElse` | server/src/grammars/EscriptParserVisitorImpl.ts:531-566 | the chain ends in the else block, or in nothing |
| `EscriptVisitor.IfStatementOf` | server/src/grammars/EscriptParserVisitorImpl.ts:531-566 | with an else, the last block is the else and the others pair with the conditions; without, every block pairs with a condition |
| `AstVisitor.LabeledLoopTargets` | server/src/grammars/ast-visitor.ts:333-354 | a labeled statement is the target of a jump to its label, and not of an unlabeled jump |
| `AstVisitor.AllowedLabelsAreLoops` | server/src/grammars/ast-visitor.ts:487-500 | every statement a label is allowed on is a loop, and `repeat` is the one loop it is not allowed on |
| `AstVisitor.Names` | server/src/grammars/ast-visitor.ts:402 | the keys of the `required` dictionary, in insertion order |
| `AstVisitor.PutCounter` | server/src/grammars/ast-visitor.ts:402 | assigning a key keeps an existing key in place and appends a new one last; every entry starts uncounted |
| `AstVisitor.ParamNames` | server/src/grammars/ast-visitor.ts:406-407 | a parameter is matched by its lower-cased name |
| `AstVisitor.RequiredTable` | server/src/grammars/ast-visitor.ts:402 | before the arguments are counted every count is zero |
| `AstVisitor.RequiredTableKeys` | server/src/grammars/ast-visitor.ts:402 | the dictionary holds every parameter's lower-cased name and nothing else |
| `AstVisitor.ParamNamesSnoc` | server/src/grammars/ast-visitor.ts:402 | a name is a parameter's when it is among the earlier ones' or is the last one's |
| `AstVisitor.MissingNames` | server/src/grammars/ast-visitor.ts:436 | a name is reported missing exactly when its parameter is required and no argument counted for it |
| `AstVisitor.TooManyExactly` | server/src/grammars/ast-visitor.ts:422-425 | "too many parameters" is reported for a positional argument past the declared parameters, and only for it |
| `AstVisitor.PassedAgainReported` | server/src/grammars/ast-visitor.ts:412-433 | an argument is reported as passed more than once exactly when an earlier argument already counted for its parameter |
| `AstVisitor.UnknownNameReported` | server/src/grammars/ast-visitor.ts:407-420 | a name the callee does not take is reported with that one diagnostic and counts for nothing |
| `AstVisitor.CountGrows` | server/src/grammars/ast-visitor.ts:404-435 | the count of a parameter never drops as arguments are read |
| `AstVisitor.PassedNotMissing` | server/src/grammars/ast-visitor.ts:404-440 | a parameter some argument counted for is never reported missing |
| `AstVisitor.RequiredMissingWithoutArguments` | server/src/grammars/ast-visitor.ts:436-441 | a required parameter of a call with no arguments is reported missing |
| `AstVisitor.Inc` | server/src/grammars/ast-visitor.ts:413 | incrementing a key adds one to that entry's count and changes nothing else (also line 428) |
| `AstVisitor.CountOfCounted` | server/src/grammars/ast-visitor.ts:404-435 | a table whose entries carry given counts answers those counts |
| `AstVisitor.StepCounts` | server/src/grammars/ast-visitor.ts:404-435 | each argument keeps the table counting exactly the arguments read so far |
| `AstVisitor.CountOfTable` | server/src/grammars/ast-visitor.ts:404-435 | the table's count for a parameter is the number of arguments read so far that counted for it |
| `AstVisitor.MissingFromCounted` | server/src/grammars/ast-visitor.ts:436 | the names missing from the final table are those of the specification |
| `AstVisitor.CountArgument` | server/src/grammars/ast-visitor.ts:405-434 | one argument: its count, its diagnostics and its `parameter` token, as specified |
| `AstVisitor.CheckCallArguments` | server/src/grammars/ast-visitor.ts:402-442 | the argument loop produces exactly the specified diagnostics, missing-argument report included, and the `parameter` tokens in order |
| `AstVisitor.CalleeDiagnostics` | server/src/grammars/ast-visitor.ts:396-443 | a symbol that is not callable is reported; a callable one without parameters is not checked; otherwise its arguments are |
| `AstVisitor.ArgSymType` | server/src/grammars/ast-visitor.ts:933-960 | parameters are defined among the scope's symbols, not its labels or types |
| `AstVisitor.ParamsOf` | server/src/grammars/ast-visitor.ts:1042-1048 | each accepted parameter is recorded, required exactly when it has no default |
| `AstVisitor.ParamsOfAppend` | server/src/grammars/ast-visitor.ts:1042-1048 | recording parameters adds over concatenation |
| `AstVisitor.TakenAfterNames` | server/src/grammars/ast-visitor.ts:1042-1048 | after the parameters every one of their names is taken and no other is added |
| `AstVisitor.LowerNamesCons` | server/src/grammars/ast-visitor.ts:1042-1048 | the names of a parameter list are the first one's plus the rest's |
| `AstVisitor.WithParamsAppend` | server/src/semantics.ts:427-434 | adding parameters one at a time gives the same list as adding them together |
| `AstVisitor.DefineParam` | server/src/grammars/ast-visitor.ts:847-878 | a new name is defined in the function's scope at the parameter's location; a taken one is refused with "Error: Symbol <name> already defined at <uri>:<line>:<character>" of the earlier definition and the scope is unchanged (also lines 933-960) |
| `AstVisitor.DeclareStep` | server/src/grammars/ast-visitor.ts:1042-1048 | trying one parameter moves the accepted, refused and taken names on by that parameter |
| `AstVisitor.DeclaredStep` | server/src/grammars/ast-visitor.ts:1042-1048 | the loop state after i + 1 parameters matches the specification |
| `AstVisitor.DeclaredEnd` | server/src/grammars/ast-visitor.ts:1042-1048 | the loop state after every parameter is the specification's result |
| `AstVisitor.DeclareParams` | server/src/grammars/ast-visitor.ts:1040-1048 | the parameter loop takes every name at its location, records the accepted parameters on the function and reports each refused one with the location of the name's first definition |
| `AstVisitor.RecordParam` | server/src/grammars/ast-visitor.ts:1045-1047 | `func.addArg` appends the accepted parameter and moves no symbol of the scope |
| `AstVisitor.DistinctParamsAccepted` | server/src/grammars/ast-visitor.ts:1042-1048 | parameters with distinct new names are all accepted and none refused |
| `AstVisitor.RepeatedParamRefused` | server/src/grammars/ast-visitor.ts:1042-1048 | a parameter repeating an earlier name is refused with the "already defined" diagnostic that points at the earlier parameter |
| `AstVisitor.SortedSnoc` | server/src/grammars/ast-visitor.ts:100-105 | appending a token after all others keeps the tokens sorted |
| `AstVisitor.InsertToken` | server/src/grammars/ast-visitor.ts:100-105 | inserting keeps the tokens sorted by line, then character, and loses or adds none |
| `AstVisitor.SortTokens` | server/src/grammars/ast-visitor.ts:100-105 | the tokens come out sorted by line, then character, as a permutation of those emitted |
| `AstVisitor.TokensAtAppend` | server/src/grammars/ast-visitor.ts:100-105 | the tokens at one position of two runs are those of the first run, then those of the second |
| `AstVisitor.InsertTokenStable` | server/src/grammars/ast-visitor.ts:100-105 | inserting a token puts it after every token at its position |
| `AstVisitor.SortTokensStable` | server/src/grammars/ast-visitor.ts:100-105 | the sort is stable: the tokens at any one position come out in the order they were emitted |
| `AstVisitor.Visitor.constructor` | server/src/grammars/ast-visitor.ts:80-90 | a visitor starts with no statements, scopes, stored scopes or tokens |
| `AstVisitor.Visitor.EnterStatement` | server/src/grammars/ast-visitor.ts:188-189 | a statement is pushed onto the visit stack before its own visit |
| `AstVisitor.Visitor.LeaveStatement` | server/src/grammars/ast-visitor.ts:218-219 | and popped after it, nothing else changing |
| `AstVisitor.Visitor.ViewJumpTarget` | server/src/grammars/ast-visitor.ts:333-354 | a jump is accepted when some enclosing statement is its target, and otherwise reported as "No valid break target" |
| `AstVisitor.Visitor.PushScope` | server/src/grammars/ast-visitor.ts:974-992 | a fresh empty scope over the node's range, or over the whole document for the initial scope, is pushed and appended to the children of the scope on top of the stack, if any |
| `AstVisitor.Visitor.PopScope` | server/src/grammars/ast-visitor.ts:999-1001 | the innermost scope is popped |
| `AstVisitor.Visitor.StoreScope` | server/src/grammars/ast-visitor.ts:995-998 | a function's scope is kept under its declaration and left |
| `AstVisitor.Visitor.RestoreScope` | server/src/grammars/ast-visitor.ts:1002-1009 | a stored scope is re-entered and forgotten, so it is restored at most once; an unknown declaration changes nothing |
| `AstVisitor.Visitor.Resolve` | server/src/grammars/ast-visitor.ts:1023-1030 | the name resolves to the innermost scope's definition |
| `AstVisitor.Visitor.VisitLabel` | server/src/grammars/ast-visitor.ts:487-500 | a label on a statement that is not an allowed loop is reported; a repeated label is reported with the earlier label's uri, line and character; otherwise the label is defined; a `label` token is emitted at it |
| `AstVisitor.Visitor.Tokens` | server/src/grammars/ast-visitor.ts:100-105 | the returned tokens are the emitted ones, sorted by position |
| `AstVisitor.ScopeObjectsPrefix` | server/src/grammars/ast-visitor.ts:1023-1030 | the scopes of a prefix of the stack are among the stack's |
| `AstVisitor.InnermostStep` | server/src/grammars/ast-visitor.ts:1023-1030 | one step of the outward search: a scope defining the name answers, otherwise the search goes on outward |
| `AstVisitor.InnermostEmpty` | server/src/grammars/ast-visitor.ts:1023-1030 | an empty stack resolves nothing |
| `AstVisitor.InnermostWins` | server/src/grammars/ast-visitor.ts:1023-1030 | a name resolves exactly when some scope defines it, and to the definition of the innermost such scope |
| `Parser.SplitAtTerminators` | server/src/parser.ts:217-218 | splitting at every '\r' and '\n' yields at least one segment, none holding a terminator |
| `Parser.TerminatorCountCons` | server/src/parser.ts:217-218 | the terminator count of a text is its first character's plus the rest's |
| `Parser.SplitCount` | server/src/parser.ts:217-218 | there is one segment more than there are '\r' and '\n' characters |
| `Parser.SegmentTokens` | server/src/parser.ts:218-224 | one token per segment, on consecutive lines from the token's own, the first at the token's column and the others at column 0, each as long as its segment |
| `Parser.LexicalTokenResult` | server/src/parser.ts:45-231 | an untyped token gives nothing; a non-empty string or comment gives one token per segment; any other typed token gives one token spanning it |
| `Parser.CrLfCommentSplitsThree` | server/src/parser.ts:217-224 | a comment "a\r\nb" gives three tokens and puts "b" one line too far down |
| `Parser.SplitLines` | server/src/parser.ts:217-218 | the corrected split gives one line more than there are line breaks, "\r\n" counting once |
| `Parser.LexicalTokenResultCorrected` | server/src/parser.ts:217-224 | the corrected result gives one token per line of a string or comment |
| `Parser.CrLfCommentCorrected` | server/src/parser.ts:217-224 | with the correction "a\r\nb" gives two tokens, "b" on the next line |
| `Parser.SplitsAgreeWithoutCr` | server/src/parser.ts:217-218 | without '\r' the written and corrected splits agree |
| `Parser.DocumentTokens` | server/src/parser.ts:675-697 | the document's semantic tokens are those of the lexer tokens and of the tree visit, sorted by line and then character, none lost or added |
| `Parser.TokenAtFrom` | server/src/parser.ts:738-750 | a token found lies before the scan start and is on the cursor's line, at or before its column |
| `Parser.GetTokenAtPosition` | server/src/parser.ts:738-750 | nothing before a parse; otherwise the loop returns the token the backward scan finds |
| `Parser.TokenAtFindsLast` | server/src/parser.ts:738-750 | on tokens in document order the scan finds a token exactly when one is at the cursor, and finds the last such token |
| `Parser.ParseModeOf` | server/src/parser.ts:528-540 | ".src" and ".inc" are parsed as compilation units and ".em" as a module unit, in any case; any other extension is an error |
| `Parser.PushSource` | server/src/parser.ts:504-523 | cancellation or close wins, then a pending reparse, then a document already on the include chain, then a cached result; otherwise it is parsed with itself added to the chain |
| `Parser.NoNestedReparse` | server/src/parser.ts:512-522 | a document being parsed is refused when it is reached again along its own include chain |
| `Semantics.CallableKinds` | server/src/semantics.ts:510-512 | only functions, module functions and exported functions are callable |
| `Semantics.MapFor` | server/src/semantics.ts:49-51 | labels go to the label map, typedefs to the type map, every other symbol to the symbol map |
| `Semantics.HexString` | server/src/semantics.ts:558 | a number is written with at least one hexadecimal digit |
| `Semantics.HexRoundTrip` | server/src/semantics.ts:558 | the hexadecimal digits read back as the number written |
| `Semantics.TypeStrings` | server/src/semantics.ts:553-566 | one type string per element type |
| `Semantics.TypePostfixCases` | server/src/semantics.ts:567-572 | the postfix is empty exactly for a missing type or `*`, and otherwise starts with ": " |
| `Semantics.NumericTypeIsHex` | server/src/semantics.ts:558 | a numeric literal type is written "0x" and its hexadecimal value, which reads back as the number |
| `Semantics.Lookup` | server/src/semantics.ts:404-411 | a key is found exactly when some entry has it |
| `Semantics.Put` | server/src/semantics.ts:404-411 | a spread with one new key makes that key answer the new tag and leaves every other key's answer unchanged |
| `Semantics.ParamTagsLookup` | server/src/semantics.ts:398-411 | the tag dictionary holds a key exactly when some named param, method or member tag has that lower-cased name, and answers the last such tag |
| `Semantics.LastTyped` | server/src/semantics.ts:416-424 | a type taken from the tags is that of some tag with the title, the last one carrying a type |
| `Semantics.FirstTitled` | server/src/semantics.ts:440 | the method tag is a tag titled "method", and none is found only when there is none |
| `Semantics.FilterMethods` | server/src/semantics.ts:653-657 | a method is kept exactly when its name passes the filter, as written or as intended |
| `Semantics.ExactFlagIgnored` | server/src/semantics.ts:656 | as written, the `exact` flag has no effect: an exact search accepts what a prefix search does |
| `Semantics.FindMethodAsWrittenTakesPrefix` | server/src/semantics.ts:645-657 | as written, `findMethod("get")` on methods "getter" and "get" returns "getter" |
| `Semantics.ExactSearchFindsName` | server/src/semantics.ts:645-657 | corrected: an exact search keeps just the methods of that name, ignoring case |
| `Semantics.FilterTags` | server/src/semantics.ts:660-663 | a tag is kept exactly when its key starts with the prefix, ignoring case |
| `Semantics.CasedParameterThrows` | server/src/semantics.ts:934 | as written, a documented function whose parameter is named "Who" makes the label lookup fail, the dictionary being keyed "who" |
| `Semantics.LabelsAgreeWithoutTags` | server/src/semantics.ts:934 | without an annotation the written and corrected labels agree |
| `Semantics.Labels` | server/src/semantics.ts:931-935 | one label per parameter: its cased name, its tag's type postfix, and "?" when optional |
| `Semantics.AccumIsJoin` | server/src/semantics.ts:931-939 | after i parameters the label is the labels so far joined by ", ", with a trailing ", " unless all are done |
| `Semantics.AccumGrows` | server/src/semantics.ts:931-939 | the label only grows at its end |
| `Semantics.TextJoins` | server/src/semantics.ts:926-941 | the signature label is the name, "(", the parameter labels joined by ", ", and ")" |
| `Semantics.TextSlices` | server/src/semantics.ts:935-938 | each parameter label sits at its recorded start, and the next one starts two characters after it ends |
| `Semantics.Docs` | server/src/semantics.ts:936 | each parameter's documentation is its tag's description |
| `Semantics.SpansOf` | server/src/semantics.ts:935-937 | one range per parameter |
| `Semantics.SignatureLabelJoins` | server/src/semantics.ts:926-941 | the signature label joins the parameter labels with ", " between "name(" and ")" |
| `Semantics.SpansSliceFrom` | server/src/semantics.ts:935-938 | each range slices exactly its parameter's label out of the signature label |
| `Semantics.SpansSliceLabels` | server/src/semantics.ts:926-948 | each range slices exactly its parameter's label, the ranges are in order, and the active parameter is the one given |
| `Semantics.AccumStep` | server/src/semantics.ts:935-938 | one step takes the range at the label's current length and appends the label and its separator |
| `Semantics.Sym.constructor` | server/src/semantics.ts:379-396 | the name is the lower-cased cased name; an annotation is taken in; only a function starts with an empty parameter list |
| `Semantics.Sym.UpdateAnnotation` | server/src/semantics.ts:398-425 | the annotation, location, tag dictionary and the last typed `type` and `returns` tags are recorded |
| `Semantics.Sym.AddArg` | server/src/semantics.ts:427-434 | the parameter is appended, the list being started when there is none |
| `Semantics.Sym.AddMethod` | server/src/semantics.ts:435-446 | a name that is already a property of the `methods` object fails with "Symbol <name> already defined" and changes nothing, whether an earlier method has it or it is inherited from `Object.prototype` ("toString", "constructor", "valueOf", ...); otherwise the method is added when the annotation has a method tag |
| `Semantics.Sym.FindMethods` | server/src/semantics.ts:653-657 | corrected: a method is found exactly when its name matches as intended |
| `Semantics.Sym.FindMethod` | server/src/semantics.ts:645-651 | corrected: the method found has the name sought, ignoring case, and none is found only when no method has it |
| `Semantics.Sym.FindParamTags` | server/src/semantics.ts:660-663 | no dictionary gives nothing; otherwise exactly the tags whose key starts with the prefix, ignoring case |
| `Semantics.Sym.ToSignatureHelp` | server/src/semantics.ts:926-948 | the help is the specified label, ranges, documentation and active parameter, tags looked up by lower-cased name |
| `Semantics.BuildSignatureHelp` | server/src/semantics.ts:929-941 | the loop builds the label and ranges of the specification |
| `Semantics.Scope.constructor` | server/src/semantics.ts:33-37 | a new scope has its location, no symbols, labels, types or children, and is appended to its enclosing scope's children, whose maps are unchanged |
| `Semantics.Scope.Define` | server/src/semantics.ts:49-58 | a name already in its map fails with "Symbol <name> already defined at <uri>:<line>:<character>", naming where the earlier symbol was defined, and changes nothing; otherwise the symbol is added under its lower-cased name |
| `Semantics.AlreadyDefined` | server/src/semantics.ts:7-11 | without a location the message is "Symbol <name> already defined", from which the name can be read back (the form `addMethod` raises, line 438) |
| `Semantics.AlreadyDefinedAt` | server/src/semantics.ts:7-11 | with a location the message is the short form followed by " at ", the uri, and the 0-based start line and character |
| `Semantics.AlreadyDefinedAtReadsBack` | server/src/semantics.ts:7-11 | the line and character written after the uri read back as the earlier definition's start line and character |
| `Semantics.DefinedAt` | server/src/semantics.ts:541-543 | the location `toLocation` gives for each symbol of a scope's map, one per key |
| `Semantics.Scope.Resolve` | server/src/semantics.ts:64-67 | a name resolves exactly when its lower-cased form is in the chosen map |
| `Semantics.Scope.ResolveIgnoresCase` | server/src/semantics.ts:64-67 | names equal but for case resolve alike |
| `Semantics.Scope.DefinedResolves` | server/src/semantics.ts:49-67 | a defined symbol resolves by its cased name in its own map |
| `Semantics.FirstContainingScope` | server/src/semantics.ts:100-105 | the child scope entered is the first containing the position; none only when no child contains it |
| `Semantics.ScopePath` | server/src/semantics.ts:86-107 | the walk starts at the scope it is called on |
| `Semantics.ScopesOfPrefix` | server/src/semantics.ts:86-107 | the scopes of a prefix of the path are among the path's |
| `Semantics.ScopeSeq` | server/src/semantics.ts:90-92 | the callback receives the path's scopes in order |
| `Semantics.DeepestIsInnermost` | server/src/semantics.ts:97 | a name is found exactly when some scope on the path defines it, and the deepest definition wins |
| `Semantics.WalkOutsideRoot` | server/src/semantics.ts:82-84 | a position outside the scope finds nothing |
| `Semantics.WalkFindsDeepest` | server/src/semantics.ts:78-110 | the walk answers the deepest definition along the path |
| `Semantics.WalkMissesUndefined` | server/src/semantics.ts:78-110 | a name no scope on the path defines is not found |
| `Semantics.WalkScope` | server/src/semantics.ts:78-110 | the loop's answer and callback calls are those the specification gives |
| `Semantics.Descend` | server/src/semantics.ts:86-107 | the descent yields the deepest definition, the scopes called back on and the innermost scope |
| `Semantics.PathStep` | server/src/semantics.ts:86-107 | moving one scope from the rest to the walked part keeps the whole path |
| `Semantics.PathEnd` | server/src/semantics.ts:86-107 | a walk that has covered the whole path holds its result |
| `Semantics.WalkAnswer` | server/src/semantics.ts:78-110 | once the walk ends, the answer and the callback calls are the specification's |
| `Semantics.WalkStep` | server/src/semantics.ts:88-98 | one scope: the callback, then the name looked up there shadowing any outer definition |
| `ServerWorkspace.LoadWithDefault` | server/src/server/workspace.ts:28-55 | without the inner-parse flag loading always fails, with "not yet supported" once the file is read |
| `ServerWorkspace.AccessibleRoots` | server/src/server/workspace.ts:151-160 | a package root is kept exactly when it exists, in the order listed |
| `ServerWorkspace.KeepAccessible` | server/src/server/workspace.ts:151-160 | the loop keeps exactly the existing package roots, in order |
| `ServerWorkspace.OldProbeChecksExistence` | server/src/server/workspace.ts:121-164 | a configuration found names its own directory as the root, which has a pol.cfg, and every directory it names exists |
| `ServerWorkspace.MissingKeyPassedOver` | server/src/server/workspace.ts:133-135 | a directory whose ecompile.cfg lacks a required key is passed over |
| `ServerWorkspace.OldWalkStrictAncestor` | server/src/server/workspace.ts:114-119 | the root found is a proper ancestor of the script's path, since `dirname` comes first |
| `ServerWorkspace.TryOldDirectory` | server/src/server/workspace.ts:121-167 | the try block for one directory gives the specified configuration or nothing |
| `ServerWorkspace.CheckOldConfig` | server/src/server/workspace.ts:127-164 | the key and existence checks on a parsed file give the specified configuration or nothing |
| `ServerWorkspace.OldWorkspaceCache.constructor` | server/src/server/workspace.ts:63 | the cache starts empty |
| `ServerWorkspace.OldWorkspaceCache.Find` | server/src/server/workspace.ts:106-171 | a cached root that prefixes the path answers at once; otherwise the upward walk answers and a found configuration is cached under its root |
| `WorkspacePaths.Without` | server/src/workspace.ts:49-52 | an element is kept exactly when it is in the first list and not in the second |
| `WorkspacePaths.Within` | server/src/workspace.ts:49-50 | an element is kept exactly when it is in both lists |
| `WorkspacePaths.Differences` | server/src/workspace.ts:49-53 | adds are the new roots not configured before, same the roots in both, dels the old roots no longer configured, each in iteration order |
| `WorkspacePaths.SplitStep` | server/src/workspace.ts:50 | each further element of the new set goes to exactly one of adds and same |
| `WorkspacePaths.SplitCount` | server/src/workspace.ts:50 | adds and same together have as many elements as the new set |
| `WorkspacePaths.ApplyDifferences` | server/src/workspace.ts:308-313 | removing dels from and adding adds to the old roots gives exactly the new roots |
| `WorkspacePaths.DirnameEnd` | server/src/workspace.ts:96 | the cut point found is a slash after the first character |
| `WorkspacePaths.Dirname` | server/src/workspace.ts:96 | dirname is either a fixpoint or strictly shorter in the measure, so the upward walk ends |
| `WorkspacePaths.DirnameEndHasSuccessor` | server/src/workspace.ts:96 | a cut point found by dirname leaves at least one character after the slash |
| `WorkspacePaths.Ancestors` | server/src/workspace.ts:90-96 | the walk starts at the uri itself and stops at a directory that is its own dirname |
| `WorkspacePaths.AncestorsCons` | server/src/workspace.ts:95-97 | below a directory that moves, the walk is that directory followed by the walk from its dirname |
| `WorkspacePaths.FindSync` | server/src/workspace.ts:86-99 | the loop returns the search result; without recursion it is just the cache entry for the uri |
| `WorkspacePaths.FindFirstCachedAncestor` | server/src/workspace.ts:86-99 | with recursion the result is the cache entry of the first cached ancestor, and none exactly when no ancestor is cached |
| `WorkspacePaths.NoneCachedCons` | server/src/workspace.ts:92-97 | an uncached directory does not change whether any ancestor is cached |
| `WorkspacePaths.FirstCachedCons` | server/src/workspace.ts:92-97 | the first cached ancestor of the dirname is the first of the directory when the directory itself is uncached |
| `WorkspacePaths.Keys` | server/src/workspace.ts:233 | the keys of the package dictionary are exactly the keys of its entries |
| `WorkspacePaths.Lookup` | server/src/workspace.ts:443 | a package is found exactly when its key is stored, and then it is the entry under that key |
| `WorkspacePaths.PutPackage` | server/src/workspace.ts:389-391 | after storing, the name maps to the package and every other key is unchanged |
| `WorkspacePaths.PutPackageKeys` | server/src/workspace.ts:389-391 | storing adds just that key and keeps keys distinct |
| `WorkspacePaths.KeysOfCons` | server/src/workspace.ts:233 | the keys of a dictionary with a first entry are that key and the rest; distinctness splits the same way |
| `WorkspacePaths.KeysCons` | server/src/workspace.ts:233 | a non-empty dictionary's keys are its first key and the keys of the rest |
| `WorkspacePaths.LocateModule` | server/src/workspace.ts:253-256 | a module is found exactly when its lowercased name is a key, and any spelling of the same name finds the same file |
| `WorkspacePaths.PackageSpec` | server/src/workspace.ts:438-442 | a spec names a package exactly when it starts with a colon and has a second colon, and the name is the lowercased text between them |
| `WorkspacePaths.WithInc` | server/src/workspace.ts:454-456 | the searched spec starts with the given one and, once the '/' at its end are dropped, ends in ".inc" regardless of case |
| `WorkspacePaths.IncAppended` | server/src/workspace.ts:455-456 | appending ".inc" yields a spec with that extension that starts with the original |
| `WorkspacePaths.IncKept` | server/src/workspace.ts:455 | a spec whose extension already is ".inc" in any case ends in ".inc" once lowercased and stripped of the '/' at its end |
| `WorkspacePaths.ExtnameSuffix` | server/src/workspace.ts:455 | the extension of a path is a suffix of it once the '/' at its end are dropped |
| `WorkspacePaths.LowerSuffix` | server/src/workspace.ts:455 | lowercasing keeps a suffix a suffix |
| `WorkspacePaths.IncludeSearchAsWritten` | server/src/workspace.ts:436-458 | the package is reported unknown exactly when no key equals the lowercased name |
| `WorkspacePaths.LookupIgnoringCase` | server/src/workspace.ts:441-443 | a package is found exactly when some key matches the name regardless of case, and it is the first such entry |
| `WorkspacePaths.IncludeSearchOf` | server/src/workspace.ts:436-458 | unknown exactly when no key matches regardless of case; without a package the include directories are searched; the spec always ends in ".inc" once the '/' at its end are dropped |
| `WorkspacePaths.NamedPackageFound` | server/src/workspace.ts:436-458 | a ":name:file" spec naming any stored package, in any case, is searched under that package |
| `WorkspacePaths.NamedSpec` | server/src/workspace.ts:438-442 | ":name:file" splits into the lowercased name and the file |
| `WorkspacePaths.IndexOfFromAt` | server/src/workspace.ts:439 | indexOf from a start finds the first occurrence at or after it |
| `WorkspacePaths.TryRoot` | server/src/workspace.ts:460-470 | a result is a file under that root; "./include" is tried only when "." has nothing, and no file means none |
| `WorkspacePaths.FirstFile` | server/src/workspace.ts:459-472 | the result is the first root that yields a file, and none exactly when no root does |
| `WorkspacePaths.SearchRoot` | server/src/workspace.ts:460-470 | the location loop with its break on a non-file returns what one root yields |
| `WorkspacePaths.MatchPkgLine` | server/src/workspace.ts:376 | a match has a key of at least two identifier characters and a non-empty value |
| `WorkspacePaths.MatchKeyValueLine` | server/src/workspace.ts:376 | blanks, an identifier, blanks and a value that starts with a non-blank match back to that key and value |
| `WorkspacePaths.SplitRuns` | server/src/workspace.ts:373 | there is at least one line and no line holds a CR or LF |
| `WorkspacePaths.LastLinesDecide` | server/src/workspace.ts:374-386 | the package's Name and Enabled come from the last line with that key; Enabled is false only for "0" |
| `WorkspacePaths.ReadPackage` | server/src/workspace.ts:371-387 | the line loop computes the package the pkg.cfg text describes |
| `WorkspacePaths.JsSubstring` | server/src/workspace.ts:855 | substring never yields more characters than the string has |
| `WorkspacePaths.IncludeLabel` | server/src/workspace.ts:855 | a label starts with the package name and a colon |
| `WorkspacePaths.IncludeLabels` | server/src/workspace.ts:852-860 | a label is offered exactly for an inc that starts with the typed file part |
| `WorkspacePaths.PackageLabelsExactly` | server/src/workspace.ts:849-860 | a label is offered exactly for an inc, starting with the file part, of a package whose lowercased name starts with the typed name |
| `WorkspacePaths.CompletionQuery` | server/src/workspace.ts:837-846 | a query exists exactly when the lowercased prefix starts with a colon |
| `WorkspacePaths.CompletionLabels` | server/src/workspace.ts:835-866 | a prefix without a leading colon offers nothing |
| `WorkspacePaths.PackageItems` | server/src/workspace.ts:852-860 | the inc loop of one package pushes exactly its matching labels |
| `WorkspacePaths.KeysUnder` | server/src/workspace.ts:321-327 | the deleted names are exactly the keys whose package uri starts with the root |
| `WorkspacePaths.PackagesNotUnder` | server/src/workspace.ts:321-327 | the packages kept are exactly those whose uri does not start with the root |
| `WorkspacePaths.RemovePackagesUnder` | server/src/workspace.ts:320-327 | the loop keeps the packages outside the root and records the names of the others |
| `WorkspacePaths.ObjTypesKept` | server/src/workspace.ts:329-335 | an objtype entry is kept exactly when its package was not deleted |
| `WorkspacePaths.AnyDeleted` | server/src/workspace.ts:331-335 | a reparse is needed exactly when some entry came from a deleted package |
| `WorkspacePaths.DropObjTypes` | server/src/workspace.ts:329-338 | the loop keeps the other entries and flags a reparse exactly when it dropped one |
| `WorkspacePaths.PathDetails.constructor` | server/src/workspace.ts:228-241 | a new workspace has no roots, include directories, modules, packages or objtypes |
| `WorkspacePaths.PathDetails.AddPackage` | server/src/workspace.ts:371-391 | the package read from pkg.cfg is stored under its Name only when the Name is non-empty, and keys stay distinct |
| `WorkspacePaths.PathDetails.DelPackageRoot` | server/src/workspace.ts:317-341 | the root, its packages and the objtypes they contributed are dropped, and a reparse is requested exactly when an objtype went |
| `WorkspacePaths.PathDetails.LocateInclude` | server/src/workspace.ts:436-473 | the result is the first file found for the search, or none when the named package is unknown |
| `WorkspacePaths.PathDetails.ToCompletionItems` | server/src/workspace.ts:835-867 | the items are the labels of the includes of every package the prefix names |
| `WorkspacePaths.SubsequenceDistinct` | server/src/workspace.ts:321-327 | deleting packages keeps keys distinct and no kept key was deleted |
| `WorkspacePaths.CasedNameUnknownAsWritten` | server/src/workspace.ts:390 | a package stored under a mixed-case Name is reported unknown by the lookup as written, and found by the case-insensitive one (also lines 441-447) |
| `WorkspacePaths.PackageSpecOfName` | server/src/workspace.ts:438-442 | ":name:file" yields the lowercased name and the file |
| `WorkspacePaths.CompletionOffersEveryInclude` | server/src/workspace.ts:839-860 | the prefix ":" offers every inc of every package |
| `WorkspacePaths.IncludeDirLabel` | server/src/workspace.ts:855 | the label of an inc under "/include" is the package name, a colon and its base name |
| `WorkspacePaths.CasedPackageNotFound` | server/src/workspace.ts:390 | a package named "Foo" is stored under "Foo" and ":Foo:bar" is not found as written (also lines 441-447) |
| `WorkspaceCfg.AfterEquals` | server/src/workspace/workspace.ts:40 | after '=' the blank run gives back characters until the value group can match, and no shorter split matches when none is found |
| `WorkspaceCfg.AfterKey` | server/src/workspace/workspace.ts:40 | the separator found is a valid `\s*(?:=\s*)?` followed by a value, and none means no value can follow the key |
| `WorkspaceCfg.KeyFrom` | server/src/workspace/workspace.ts:40 | a result is a full match of the cfg-line regex; none means no shorter key run leads to a match |
| `WorkspaceCfg.MatchCfgLine` | server/src/workspace/workspace.ts:40 | a match is a decomposition of the line into key, separator and value groups |
| `WorkspaceCfg.MatchCfgLineComplete` | server/src/workspace/workspace.ts:40 | every line that has such a decomposition is matched |
| `WorkspaceCfg.SeparatedLine` | server/src/workspace/workspace.ts:40-43 | a key, blanks, an optional '=' with blanks and a value starting with a non-blank match back to that key and value |
| `WorkspaceCfg.CommonSeparators` | server/src/workspace/workspace.ts:40-43 | "key value", "key\tvalue" and "key=value" all give that key and value |
| `WorkspaceCfg.OneSeparator` | server/src/workspace/workspace.ts:40-43 | a single space, tab or '=' between key and value gives that key and value |
| `WorkspaceCfg.LineEntry` | server/src/workspace/workspace.ts:36-41 | a line contributes exactly when it does not start with '#' and the regex matches it |
| `WorkspaceCfg.ParseLines` | server/src/workspace/workspace.ts:33-52 | every key of the result is lowercase and holds at least one value |
| `WorkspaceCfg.CfgValues` | server/src/workspace/workspace.ts:35-51 | a key is present exactly when some line gives it a value, and then it holds all those values in file order |
| `WorkspaceCfg.Load` | server/src/workspace/workspace.ts:28-55 | a read failure is passed on, parseAsInner=false fails as not supported, otherwise the result is the parse of the split lines |
| `WorkspaceCfg.ParseLinesStep` | server/src/workspace/workspace.ts:35-51 | the object after a line is the object before it with that line applied |
| `WorkspaceCfg.FirstValue` | server/src/workspace/workspace.ts:129-131 | the first value exists exactly when the key is present with a value |
| `WorkspaceCfg.Roots` | server/src/workspace/workspace.ts:63 | the cache's keys are exactly the roots of its workspaces |
| `WorkspaceCfg.DistinctRootsCount` | server/src/workspace/workspace.ts:63 | the size of the Map is the number of its workspaces (also lines 76-78) |
| `WorkspaceCfg.FirstPrefix` | server/src/workspace/workspace.ts:116-120 | the result is a cached workspace whose root prefixes the path, and none exactly when no cached root does |
| `WorkspaceCfg.PutConfig` | server/src/workspace/workspace.ts:151 | after `set` the new workspace is cached, replaces any other under the same root, and the rest stay |
| `WorkspaceCfg.PutConfigDistinct` | server/src/workspace/workspace.ts:151 | `set` keeps the roots distinct |
| `WorkspaceCfg.PutConfigCount` | server/src/workspace/workspace.ts:151 | `set` grows the cache exactly when the root is new |
| `WorkspaceCfg.RemoveRoot` | server/src/workspace/workspace.ts:177 | `delete` keeps exactly the workspaces under other roots |
| `WorkspaceCfg.RemoveRootDistinct` | server/src/workspace/workspace.ts:177 | `delete` keeps the roots distinct |
| `WorkspaceCfg.RemoveRootCount` | server/src/workspace/workspace.ts:177 | `delete` shrinks the cache by one for a cached root and changes nothing otherwise |
| `WorkspaceCfg.RemoveFirstRoot` | server/src/workspace/workspace.ts:167-171 | closing the first entry leaves the rest (also line 177) |
| `WorkspaceCfg.WalkNoneIff` | server/src/workspace/workspace.ts:121-159 | the intended walk finds nothing exactly when no ancestor has a pol.cfg and a complete ecompile.cfg |
| `WorkspaceCfg.WalkFindsFirst` | server/src/workspace/workspace.ts:121-159 | what the intended walk finds is the configuration of the first such ancestor |
| `WorkspaceCfg.MissingKeyNeverFinishes` | server/src/workspace/workspace.ts:134-136 | as written, once a directory lacks a key the loop never finishes, however many steps it takes |
| `WorkspaceCfg.AsWrittenAgreesWithoutMissingKeys` | server/src/workspace/workspace.ts:121-159 | where no ancestor lacks a key, the loop as written finishes with the intended result |
| `WorkspaceCfg.AllMissingFindsNothing` | server/src/workspace/workspace.ts:121-159 | when every directory lacks a key, the intended walk ends with nothing |
| `WorkspaceCfg.EmptyCfgMissesKeys` | server/src/workspace/workspace.ts:127-136 | an empty ecompile.cfg lacks the required keys |
| `WorkspaceCfg.EmptyCfgHangs` | server/src/workspace/workspace.ts:121-159 | with an empty ecompile.cfg everywhere, the loop as written spins while the intended walk gives up |
| `WorkspaceCfg.CachedFor` | server/src/workspace/workspace.ts:116-120 | the loop over the cache returns its first entry whose root prefixes the path |
| `WorkspaceCfg.TryDirectory` | server/src/workspace/workspace.ts:122-153 | one directory's try block: skipped without pol.cfg or a readable ecompile.cfg, found with all keys, missing a key otherwise |
| `WorkspaceCfg.WorkspaceCache.constructor` | server/src/workspace/workspace.ts:63 | the cache starts empty |
| `WorkspaceCfg.WorkspaceCache.Count` | server/src/workspace/workspace.ts:76-78 | the count is the number of cached roots |
| `WorkspaceCfg.WorkspaceCache.Find` | server/src/workspace/workspace.ts:113-163 | a cached prefix answers without change; otherwise the first configured ancestor is returned and cached, with a missing key moving the search up |
| `WorkspaceCfg.WorkspaceCache.Close` | server/src/workspace/workspace.ts:176-178 | the root leaves the cache and the others stay |
| `WorkspaceCfg.WorkspaceCache.CloseAll` | server/src/workspace/workspace.ts:167-171 | closing every entry empties the cache |
| `ConfigParser.TrimEnd` | server/src/config-parser.ts:61 | the result is a prefix of the line that does not end in whitespace (also line 67) |
| `ConfigParser.Trim` | server/src/config-parser.ts:61 | the result neither starts nor ends with whitespace and holds only characters of the line (also line 67) |
| `ConfigParser.ScanLine` | server/src/config-parser.ts:56-67 | the scan moves forward, returns a line without terminators that is trimmed at both ends |
| `ConfigParser.LineAt` | server/src/config-parser.ts:52-68 | getLine returns nothing exactly when the cursor is at or past the end, and otherwise advances it |
| `ConfigParser.LinesTrimmed` | server/src/config-parser.ts:52-68 | every line the loop reads is non-empty, has no line terminator and is trimmed (also line 80) |
| `ConfigParser.MatchStartEntry` | server/src/config-parser.ts:71 | a header match has a non-empty type and key (also lines 82-85) |
| `ConfigParser.MatchProperty` | server/src/config-parser.ts:72 | a property match has a non-empty name and value (also lines 91-95) |
| `ConfigParser.HeaderRuns` | server/src/config-parser.ts:71 | on a line that begins with two words the header regex finds exactly those words |
| `ConfigParser.MatchHeaderLine` | server/src/config-parser.ts:71 | "Type Key" matches as that type and key, without opening the entry (also lines 82-85) |
| `ConfigParser.MatchOpeningHeaderLine` | server/src/config-parser.ts:71 | "Type Key {" matches as that type and key and opens the entry (also lines 82-85) |
| `ConfigParser.MatchPropertyLine` | server/src/config-parser.ts:72 | "Name value" matches as that name and value (also lines 91-95) |
| `ConfigParser.ParseIntOfDecimal` | server/src/config-parser.ts:98-100 | a decimal numeral parses back to its number, so such a key becomes numeric |
| `ConfigParser.KeyOf` | server/src/config-parser.ts:98-100 | the key is kept as text exactly when parseInt gives NaN, and is the parsed number otherwise |
| `ConfigParser.AddValueValues` | server/src/config-parser.ts:105 | appending a value changes only the values of its own name, at the end |
| `ConfigParser.GroupValues` | server/src/config-parser.ts:104-106 | repeated property names accumulate their values in order of appearance |
| `ConfigParser.GroupProperties` | server/src/config-parser.ts:104-106 | the loop builds the grouped properties |
| `ConfigParser.UnterminatedNotEmitted` | server/src/config-parser.ts:80-113 | without a "}" line no entry is emitted, so an unterminated entry never appears |
| `ConfigParser.EntriesOnlyGrow` | server/src/config-parser.ts:80-113 | entries already emitted are never changed or dropped by later lines |
| `ConfigParser.HeaderThenBrace` | server/src/config-parser.ts:82-87 | a header without "{" followed by a "{" line opens the entry with the uppercased type and the key |
| `ConfigParser.HeaderWithBrace` | server/src/config-parser.ts:82-85 | a header ending in "{" opens the entry at once |
| `ConfigParser.Parser.constructor` | server/src/config-parser.ts:41 | the parser keeps its input |
| `ConfigParser.Parser.GetLine` | server/src/config-parser.ts:52-68 | the loop returns the next line and cursor of the scan |
| `ConfigParser.Parser.ProcessLine` | server/src/config-parser.ts:81-112 | one iteration of the state machine |
| `ConfigParser.Parser.Parse` | server/src/config-parser.ts:43-115 | the result holds the entries the state machine emits over the lines up to the first empty one |
| `DebugClient.DigitsEnd` | client/src/PolDebugClient.ts:55 | the `\d+` run ends at or after its start and within the buffer |
| `DebugClient.DigitsEndAt` | client/src/PolDebugClient.ts:55 | the run ends exactly at the first non-digit |
| `DebugClient.LengthFieldValue` | client/src/PolDebugClient.ts:64 | the length read is the decimal value of the digit run |
| `DebugClient.HeaderAt` | client/src/PolDebugClient.ts:55 | a match at a position starts there and its body starts after the header, the digits and the blank line |
| `DebugClient.MatchWith` | client/src/PolDebugClient.ts:55 | a match of a header and separator starts at the position and its body starts after both |
| `DebugClient.FindHeader` | client/src/PolDebugClient.ts:55 | a match lies at or after the search start and its body starts after it |
| `DebugClient.FindHeaderLeftmost` | client/src/PolDebugClient.ts:55 | the search returns the leftmost match, and none only when no position matches |
| `DebugClient.DecodeStep` | client/src/PolDebugClient.ts:54-82 | a frame leaves a shorter buffer; the buffer-full error happens exactly when no header is found and more than 4096 characters are buffered |
| `DebugClient.FrontParts` | client/src/PolDebugClient.ts:55 | a buffer starting with the header, digits and separator has those parts at their places (also line 118) |
| `DebugClient.EncodedHeader` | client/src/PolDebugClient.ts:55 | the header `write` produces is matched with its length and body start (also line 118) |
| `DebugClient.DecodeEncoded` | client/src/PolDebugClient.ts:54-82 | decoding a written frame followed by more text gives back the message and that text (also lines 116-119) |
| `DebugClient.DrainEncoded` | client/src/PolDebugClient.ts:51-83 | draining a written frame emits its message first, then what the rest drains to (also lines 116-119) |
| `DebugClient.DrainEncodeAll` | client/src/PolDebugClient.ts:51-83 | draining any sequence of written frames emits exactly their messages in order and empties the buffer (also lines 116-119) |
| `DebugClient.HeaderOfFrame` | client/src/PolDebugClient.ts:55 | a buffer that begins with a written frame's header finds it at the front |
| `DebugClient.PartialBodyWaits` | client/src/PolDebugClient.ts:74-81 | a frame whose body is cut short emits nothing and keeps the buffer; the rest of it completes the message |
| `DebugClient.JunkBeforeHeaderDropped` | client/src/PolDebugClient.ts:55 | text before a header on its own line is dropped with the frame (also lines 71-76) |
| `DebugClient.JunkHeaderAt` | client/src/PolDebugClient.ts:55 | a header after a line break is matched at its place thanks to the multiline flag |
| `DebugClient.JunkHoldsNoHeader` | client/src/PolDebugClient.ts:55 | text without a 'C' holds no header |
| `DebugClient.MatchShift` | client/src/PolDebugClient.ts:55 | a match at the start of a tail is found at the same place after text ending in a line break |
| `DebugClient.PartsShift` | client/src/PolDebugClient.ts:55 | header, digits and separator keep their relative places after prefixed text |
| `DebugClient.MatchWithElim` | client/src/PolDebugClient.ts:55 | a match is a line start, the header, a non-empty digit run and the separator |
| `DebugClient.LengthFieldShift` | client/src/PolDebugClient.ts:64 | the length field reads the same after prefixed text |
| `DebugClient.DigitsEndShift` | client/src/PolDebugClient.ts:55 | the digit run ends at the same relative place after prefixed text |
| `DebugClient.FindHeaderSkips` | client/src/PolDebugClient.ts:55 | with no match before a position, the search returns the match there |
| `DebugClient.FindHeaderFrom` | client/src/PolDebugClient.ts:55 | from any start, the first match after it is returned |
| `DebugClient.ScanFrame` | client/src/PolDebugClient.ts:55-74 | one turn of the loop computes the decode step |
| `DebugClient.PolDebugClient.constructor` | client/src/PolDebugClient.ts:39-49 | the buffer is empty, nothing is emitted or written, and numbering starts at 1 (also line 85) |
| `DebugClient.PolDebugClient.OnData` | client/src/PolDebugClient.ts:51-83 | the data is appended, every complete frame is emitted in order and the buffer keeps the rest |
| `DebugClient.PolDebugClient.Write` | client/src/PolDebugClient.ts:116-119 | exactly one encoded frame is written and nothing else changes |
| `DebugClient.PolDebugClient.Request` | client/src/PolDebugClient.ts:90-114 | the request takes the next number, registers its handler and writes one frame |
| `DebugClient.PolDebugClient.OnResponse` | client/src/PolDebugClient.ts:94-103 | a response matches exactly when its request_seq is pending, and that handler unregisters |
| `DebugClient.Unregister` | client/src/PolDebugClient.ts:96 | the handlers left are exactly the others |
| `DebugClient.AppendIncreasing` | client/src/PolDebugClient.ts:92 | registering a fresh higher number keeps the numbers increasing (also line 105) |
| `DebugClient.UnregisterIncreasing` | client/src/PolDebugClient.ts:96 | unregistering keeps the numbers increasing |
| `DebugClient.UnregisterRemovesOne` | client/src/PolDebugClient.ts:94-96 | a response removes exactly one handler when its number is pending, and none otherwise |
| `TsUtils.ContainsPosition` | server/src/utils.ts:113-124 | a position is contained exactly when it lies between start and end inclusive in (line, character) order |
| `TsUtils.CharAt` | server/src/utils.ts:8 | indexing gives a character exactly inside the string, and undefined outside (also lines 19, 37) |
| `TsUtils.ScanOpen` | server/src/utils.ts:14-31 | the scan finds the innermost unmatched '(' before the cursor with the commas at its depth, or none when every prefix stays open |
| `TsUtils.ScanClose` | server/src/utils.ts:33-47 | the scan finds the first ')' after its start that balances the depth, or none when the depth never reaches zero |
| `TsUtils.CloseScanStart` | server/src/utils.ts:34 | the rightward scan starts inside the string, one back between ',' and ')' |
| `TsUtils.FindMatchingParen` | server/src/utils.ts:3-53 | "()" around the cursor gives argument 0; otherwise the result is the innermost enclosing pair with the commas before the cursor at its depth, and none exactly when either scan runs off the string |
| `TsUtils.ScanEndCounts` | server/src/utils.ts:59-64 | each line terminator read by the loop adds a line and resets the column; other characters advance it |
| `TsUtils.PrefixCountsGrow` | server/src/utils.ts:59-64 | the terminators of a longer prefix are at least those of a shorter one, and without a new one the column grows by the distance |
| `TsUtils.EndPosCountsTerminators` | server/src/utils.ts:56-67 | as written, the end line is the start line plus every CR and LF before the last character, each counted on its own |
| `TsUtils.SingleLineEnd` | server/src/utils.ts:56-67 | a text without line breaks before its last character ends on the start line, its length further on |
| `TsUtils.NoTerminators` | server/src/utils.ts:59-64 | a text without terminators has no line breaks and its length as last line |
| `TsUtils.GetEndPos` | server/src/utils.ts:56-67 | the loop computes the end position from line 0, character 1 |
| `TsUtils.ScanCorrectedCountsBreaks` | server/src/utils.ts:59-64 | with "\r\n" consumed as one break, the loop adds one line per line break |
| `TsUtils.EndPosCorrectedCountsBreaks` | server/src/utils.ts:56-67 | the corrected end line is the start line plus the line breaks before the last character |
| `TsUtils.CorrectedAgreesWithoutCr` | server/src/utils.ts:59-64 | without carriage returns the corrected loop and the loop as written agree |
| `TsAst.FirstContainingFrom` | server/src/grammars/ast-types.ts:114-134 | the child found is the first from the start index whose range contains the position, and none means no such child |
| `JsonAst.LookupFrom` | native/cpp/compiler/JsonAstBuilder.cc:142-158 | a value found is stored under the key at or after the start, and none means no field there has the key |
| `DebugClient.MatchFront` | client/src/PolDebugClient.ts:55 | a buffer starting with the header, a digit run and the separator matches at 0 with that length |
| `DebugClient.FrameHeaderAt` | client/src/PolDebugClient.ts:55 | a buffer that begins with a written frame's header matches at 0 with the body's length (also line 118) |
| `WorkspaceCfg.DistinctRootsCountIfValid` | server/src/workspace/workspace.ts:76-78 | with distinct roots, the Map's size is the number of cached workspaces |

## Left out

- The compiler: parsing, semantic analysis, the scope tree's `find_*`/`list_*` lookups, `Range::contains` and `describe()` are oracle parameters.
- The file system: `FileExists`, `FullPath`, `pkgdef_split`, `fs.stat`/`access`/`readFile`/`readdir`, `path.resolve` and URL conversion are oracle parameters.
- `LSPWorkspace::create_or_get_from_cache` is declared but its definition is not part of this model. It is modelled as "the cached document, or a fresh empty one".
- Module XML documentation (`get_xml_doc_path`, the XML parser) and `HoverBuilder::replace_literal_tags` are given as functions.
- Doctrine's comment parser is left out. An annotation arrives as its parsed tags.
- N-API marshalling (`Napi::Value` conversion, JavaScript exceptions) is left out. A JavaScript exception becomes a `Failure` result.
- JSON is left out: `JSON.parse` and `JSON.stringify` of debugger messages are replaced by message text and a `serialize` parameter.
- The Prettier plugin is left out, and so is formatting beyond the JSON AST bookkeeping.
- Floating point is left out. `make_float_literal` and number parsing beyond `parseInt` are not modelled.
- Promises, `async` sequencing, timers, event emitters, sockets and logging are left out. Request timeouts in `PolDebugClient.request` are not modelled.
- `EscriptWorkspacePathDetails.processEcompileCfg`, `addPackageRoot`, `getModules` and `getIncludes` walk the file system and are left out. Their results appear as inputs: the include list of `AddPackage` and the module map of `LocateModule`.
- `PolDebugClient.destroy` and `createConnection` only manage the socket and are left out.
- `PolDebugClient.onData`'s "Invalid length" branch is not modelled: the `\d+` group always parses as a number.
- `deepClone` in utils.ts is left out. It is not used by the modelled code.
- `ReferencesFinder.References`: the query reads the index as it stands when the query starts; concurrent analysis is not modelled.
- `DefinitionBuilder.GetInclude` requires a non-empty list of referenced files, because the source reads its first element unchecked.
- `ContextBuilder.TryScope`: when a pathname is shorter than the module file name, the source compares reversed iterators past the beginning (undefined behaviour). The model treats that as no match.
- `EscriptVisitor.ScanList`: a leading comma yields no placeholder, as written (", a" gives [a]).
- `LspWorkspace.LSPWorkspace.Diagnostics` follows native/cpp/LSPWorkspace.cc, which does not filter by pathname; `LspDocument.LSPDocument.Diagnostics` follows the N-API document, which does.
- When a document is not opened, `LSPWorkspace` raises a JavaScript exception and then goes on to dereference the end iterator. The model returns a "Document not opened" failure and does not model what happens after the exception.
- Character sets are ASCII: `toLowerCase`, `toUpperCase`, `mklowerASCII` and `stricmp` fold only A-Z. Regular-expression `\s` follows the whitespace list of config-parser.ts. JavaScript string lengths count characters rather than UTF-16 code units.
- `WorkspaceCfg.ParseLines` models the `ret` object of both ecompile.cfg readers (server/src/workspace/workspace.ts:44-48, server/src/server/workspace.ts:44-48) over its own keys only. In the source, the lower-cased keys "constructor" and "__proto__" find an inherited value, whose `push` then throws.
- `WorkspacePaths.LocateModule` models `this.modules` over its own keys only. In the source, the module name "constructor" finds the inherited `Object` function rather than nothing.
- `WorkspacePaths.PathDetails.ToCompletionItems` and `WorkspacePaths.PathDetails.DelPackageRoot` visit packages in insertion order. In the source, a package named like an array index ("12") is visited first, in ascending order. The `required` table of `AstVisitor.CheckCallArguments` is keyed by parameter names, which cannot take that form.
- `SignatureHelpBuilder.Shown`: with `skipFirst` and no parameters the model shows none. There the source slices `params` from 1 to 0, which is undefined behaviour.
- `Semantics.WalkScope` walks a `ScopeNode` value: a snapshot of the tree that `Scope`'s `children` field builds as scopes are created. Later additions to a scope's children are not seen through the snapshot.
- native/cpp/LSPDocument.cc (`precompile`, `diagnose`) is not part of this model. The document analysis behind native/cpp/LSPWorkspace.cc's `Analyze` is not among the sources. `LspWorkspace.LSPWorkspace.Analyze` runs the N-API document's analysis with that workspace's always-include compiler.
- `WorkspacePaths.WithInc` promises the ".inc" ending only once the '/' at the spec's end are dropped. `path.extname` passes over those '/', so a spec such as "a.inc/" already has the extension ".inc" and is searched unchanged.
- `LspDocument.Extension` and `EscriptVisitor.Extname` split paths at '/' only, as on POSIX systems. On Windows, `std::filesystem::path` and Node's `path` also split at '\\'.
- `WorkspaceCfg.RunAsWritten` takes a step budget (`fuel`), so that the loop as written, which may not terminate, can be stated as a function. `StillRunning` means the budget ran out.

## Findings

| source | as written | input that shows it | evidently intended | confidence | as-written member | corrected member |
|---|---|---|---|---|---|---|
| server/src/utils.ts:56-67 | the "\r\n" branch of `getEndPos` adds a line but does not skip the '\n', which then adds another | "a\r\nb" from (0,1) ends at line 2, character 2 | "\r\n" is one line break: line 1, character 2 | high, not executed | `TsUtils.EndPosCountsTerminators`, `TsUtils.CrLfCountsTwice` | `TsUtils.EndPosCorrectedCountsBreaks`, `TsUtils.CorrectedAgreesWithoutCr` |
| server/src/grammars/EscriptParserVisitorImpl.ts:73-86 | the grammar visitor's own `getEndPos` has the same "\r\n" branch that does not skip the '\n', so an AST range ending in such a token ends one line too far down | the token "a\r\nb" at line 1, column 0 ends at 0-based line 2 | "\r\n" is one line break: line 1 | high, not executed | `EscriptVisitor.TokensToRange`, `EscriptVisitor.CrLfTokenRange` | `EscriptVisitor.TokensToRangeCorrected`, `EscriptVisitor.TokensToRangeAgreeWithoutCr` |
| server/src/parser.ts:217-224 | strings and comments are split at every '\r' or '\n', so "\r\n" yields an empty segment | a comment "a\r\nb" on line 1 gives three tokens, the "b" on line 2 | one token per line, the "b" on line 1 | high, not executed | `Parser.LexicalTokenResult`, `Parser.CrLfCommentSplitsThree` | `Parser.LexicalTokenResultCorrected`, `Parser.CrLfCommentCorrected` |
| server/src/workspace/workspace.ts:134-136 | `continue` when ecompile.cfg lacks a key skips `path = dirname(path)`, so the same directory is retried forever | any directory with a pol.cfg and an empty scripts/ecompile.cfg | move on to the parent directory | high, not executed | `WorkspaceCfg.MissingKeyNeverFinishes`, `WorkspaceCfg.EmptyCfgHangs` | `WorkspaceCfg.WalkFindsFirst`, `WorkspaceCfg.WorkspaceCache.Find` |
| server/src/semantics.ts:656 | `exact && name === prefix \|\| startsWith(prefix)` accepts prefix matches even when `exact` is set | `findMethod("foo")` on methods "foobar", "foo" returns "foobar" | with `exact`, only the method of that name | high, not executed | `Semantics.ExactFlagIgnored`, `Semantics.FindMethodAsWrittenTakesPrefix` | `Semantics.ExactSearchFindsName`, `Semantics.Sym.FindMethod` |
| server/src/workspace.ts:441-443 | packages are stored under their Name as written (line 390) but looked up under the lowercased name | a pkg.cfg with "Name Foo"; ":Foo:bar" reports "Could not find package" although completion offers "Foo:bar" | the package is found whatever the case of its name | medium, not executed | `WorkspacePaths.CasedNameUnknownAsWritten`, `WorkspacePaths.CasedPackageNotFound` | `WorkspacePaths.NamedPackageFound`, `WorkspacePaths.PathDetails.LocateInclude` |
| server/src/semantics.ts:934 | `paramToTag` is keyed by lowercased parameter names (`c.name.id.toLowerCase()`, lines 404-411), but the label looks it up under the cased name and reads `.type` of the result | a documented function with parameter "Who" throws a TypeError | the tag found under the lowercased name | medium, not executed | `Semantics.CasedParameterThrows` | `Semantics.Labels`, `Semantics.SpansSliceLabels`, `Semantics.Sym.ToSignatureHelp` |
