/**
 * An open document of the native language server (`LSPDocument`): its
 * pathname, its type (source, include or module, from the extension), the
 * compiler result of its last analysis, the diagnostics of that analysis,
 * and `referenced_by`, the index of where each of its definitions is used.
 *
 * `referenced_by` is a `std::map` from a definition's range to a `std::set`
 * of reference locations; by `RangeEquivalenceIsEquality` the map is keyed
 * by the range value, and each set is a strictly sorted sequence
 * (`LocationOrder`).
 */
module LspDocument {
  import opened Common
  import opened CompilerModel
  import opened LocationOrder

  datatype DocumentType = SRC | INC | EM

  type RefIndex = map<Range, seq<ReferenceLocation>>

  predicate IndexSorted(idx: RefIndex)
  {
    forall d :: d in idx ==> StrictlySorted(idx[d])
  }

  /** `path::filename()`: the text after the last '/' of the pathname. */
  function FileName(pathname: string): (name: string)
    ensures EndsWith(pathname, name)
  {
    var slash := LastIndexWhere(pathname, c => c == '/');
    if slash.Some? then pathname[slash.value + 1..] else pathname
  }

  /** The file name holds no '/', and it is the whole pathname or follows a '/'. */
  lemma FileNameMeaning(pathname: string)
    ensures var name := FileName(pathname);
      (forall k :: 0 <= k < |name| ==> name[k] != '/') &&
      (|name| < |pathname| ==> pathname[|pathname| - |name| - 1] == '/')
  {
  }

  /**
   * The extension of a file name: from its last '.', or "" when it has no
   * '.' after its first character, or is "..".
   */
  function NameExtension(name: string): (ext: string)
    ensures ext == "" || (ext[0] == '.' && |ext| < |name| && EndsWith(name, ext))
  {
    var dot := LastIndexWhere(name, c => c == '.');
    if dot.Some? && dot.value > 0 && name != ".." then name[dot.value..] else ""
  }

  lemma NameExtensionMeaning(name: string)
    ensures var ext := NameExtension(name);
      (ext == "" <==> name == ".." || forall k :: 0 < k < |name| ==> name[k] != '.') &&
      (ext != "" ==> forall k :: 0 < k < |ext| ==> ext[k] != '.')
  {
  }

  /** `std::filesystem::path::extension()`: the extension of the file name. */
  function Extension(pathname: string): (ext: string)
    ensures ext == "" || (ext[0] == '.' && EndsWith(pathname, ext))
  {
    var name := FileName(pathname);
    var ext := NameExtension(name);
    assert ext == "" || pathname[|pathname| - |ext|..] == name[|name| - |ext|..];
    ext
  }

  /**
   * The extension is empty exactly when the file name is ".." or has no '.'
   * after its first character; otherwise it is the file name's end from its
   * last '.'.
   */
  lemma ExtensionOfFileName(pathname: string)
    ensures var name, ext := FileName(pathname), Extension(pathname);
      (ext == "" <==> name == ".." || forall k :: 0 < k < |name| ==> name[k] != '.') &&
      (ext != "" ==> |ext| < |name| && EndsWith(name, ext) && forall k :: 0 < k < |ext| ==> ext[k] != '.')
  {
    NameExtensionMeaning(FileName(pathname));
  }

  /** The document type chosen in the constructor from the lowercased extension. */
  function TypeOf(pathname: string): (t: DocumentType)
    ensures t == EM <==> Lower(Extension(pathname)) == ".em"
    ensures t == INC <==> Lower(Extension(pathname)) == ".inc"
  {
    var ext := Lower(Extension(pathname));
    if ext == ".em" then EM else if ext == ".inc" then INC else SRC
  }

  lemma ModuleExtension()
    ensures TypeOf("scripts/util.EM") == EM
  {
    LastIndexWhereAt("scripts/util.EM", c => c == '/', 7);
    assert "scripts/util.EM"[8..] == "util.EM";
    assert FileName("scripts/util.EM") == "util.EM";
    LastIndexWhereAt("util.EM", c => c == '.', 4);
    assert NameExtension("util.EM") == ".EM";
    assert Lower(".EM") == ".em";
  }

  lemma IncludeExtension()
    ensures TypeOf("b.inc") == INC
  {
    LastIndexWhereNone("b.inc", c => c == '/');
    assert FileName("b.inc") == "b.inc";
    LastIndexWhereAt("b.inc", c => c == '.', 1);
    assert NameExtension("b.inc") == ".inc";
    assert Lower(".inc") == ".inc";
  }

  /** A '.' in a directory name does not make an extension. */
  lemma DirectoryDotIsNoExtension()
    ensures TypeOf("dir.em/readme") == SRC
  {
    LastIndexWhereAt("dir.em/readme", c => c == '/', 6);
    assert "dir.em/readme"[7..] == "readme";
    LastIndexWhereNone("readme", c => c == '.');
  }

  /** A name whose only '.' leads it has no extension. */
  lemma LeadingDotIsNoExtension()
    ensures TypeOf(".em") == SRC
  {
    LastIndexWhereNone(".em", c => c == '/');
    LastIndexWhereAt(".em", c => c == '.', 0);
  }

  /** The parent-directory name ".." has no extension. */
  lemma DotDotIsNoExtension()
    ensures Extension("dir/..") == "" && TypeOf("dir/..") == SRC
  {
    LastIndexWhereAt("dir/..", c => c == '/', 3);
    assert "dir/.."[4..] == "..";
  }

  /**
   * For a file name made of a dot-free stem and an extension (empty, or a '.'
   * and no further '.' or '/'), the extension is recovered, and the document
   * type is EM or INC exactly when it is ".em" or ".inc" in any case.
   */
  lemma TypeOfName(dir: string, stem: string, ext: string)
    requires |stem| > 0 && forall k :: 0 <= k < |stem| ==> stem[k] != '/' && stem[k] != '.'
    requires ext == "" || (ext[0] == '.' && forall k :: 0 < k < |ext| ==> ext[k] != '/' && ext[k] != '.')
    ensures Extension(dir + "/" + stem + ext) == ext
    ensures TypeOf(dir + "/" + stem + ext) == EM <==> Lower(ext) == ".em"
    ensures TypeOf(dir + "/" + stem + ext) == INC <==> Lower(ext) == ".inc"
  {
    ExtensionOfName(dir, stem, ext);
  }

  lemma ExtensionOfName(dir: string, stem: string, ext: string)
    requires |stem| > 0 && forall k :: 0 <= k < |stem| ==> stem[k] != '/' && stem[k] != '.'
    requires ext == "" || (ext[0] == '.' && forall k :: 0 < k < |ext| ==> ext[k] != '/' && ext[k] != '.')
    ensures Extension(dir + "/" + stem + ext) == ext
  {
    var p := dir + "/" + stem + ext;
    assert p == dir + "/" + (stem + ext);
    FileNameAfterSlash(dir, stem + ext);
    StemExtension(stem, ext);
    ExtensionFromName(p, stem + ext, |stem|);
  }

  lemma ExtensionFromName(p: string, name: string, i: nat)
    requires FileName(p) == name && name != ".." && 0 < i <= |name|
    requires i == |name| ==> LastIndexWhere(name, c => c == '.') == None
    requires i < |name| ==> LastIndexWhere(name, c => c == '.') == Some(i)
    ensures Extension(p) == name[i..]
  {
    assert NameExtension(name) == name[i..];
  }

  lemma FileNameAfterSlash(dir: string, name: string)
    requires forall k :: 0 <= k < |name| ==> name[k] != '/'
    ensures FileName(dir + "/" + name) == name
  {
    var p := dir + "/" + name;
    LastIndexWhereAt(p, c => c == '/', |dir|);
    assert p[|dir| + 1..] == name;
  }

  lemma StemExtension(stem: string, ext: string)
    requires |stem| > 0 && forall k :: 0 <= k < |stem| ==> stem[k] != '/' && stem[k] != '.'
    requires ext == "" || (ext[0] == '.' && forall k :: 0 < k < |ext| ==> ext[k] != '/' && ext[k] != '.')
    ensures stem + ext != ".."
    ensures ext == "" ==> LastIndexWhere(stem + ext, c => c == '.') == None
    ensures ext != "" ==> LastIndexWhere(stem + ext, c => c == '.') == Some(|stem|) && (stem + ext)[|stem|..] == ext
  {
    var name := stem + ext;
    assert name[0] == stem[0];
    if ext == "" {
      assert name == stem;
      LastIndexWhereNone(name, c => c == '.');
    } else {
      assert name[|stem|] == '.';
      assert forall k :: |stem| < k < |name| ==> name[k] == ext[k - |stem|];
      LastIndexWhereAt(name, c => c == '.', |stem|);
      assert name[|stem|..] == ext;
    }
  }

  // ---------------------------------------------------------------------
  // The reference index

  /** `add_reference_by`: insert into the set under `definedAt`, or create the key with a singleton set. */
  function AddRef(idx: RefIndex, definedAt: Range, loc: ReferenceLocation): RefIndex
  {
    if definedAt in idx then idx[definedAt := SetInsert(idx[definedAt], loc)]
    else idx[definedAt := [loc]]
  }

  /** The index after an insertion contains the location under its key, and all other keys are untouched. */
  lemma AddRefRecords(idx: RefIndex, d: Range, loc: ReferenceLocation)
    ensures var r := AddRef(idx, d, loc);
      d in r && SetHas(r[d], loc) && r.Keys == idx.Keys + {d} &&
      (forall k :: k in idx && k != d ==> r[k] == idx[k])
  {
    if d in idx {
      SetInsertElements(idx[d], loc);
    } else {
      RefLessIrreflexiveAsymmetric(loc, loc);
      assert loc in AddRef(idx, d, loc)[d];
    }
  }

  /** Inserting under an existing key only grows that key's set. */
  lemma AddRefGrowsExistingKey(idx: RefIndex, d: Range, loc: ReferenceLocation)
    requires d in idx
    ensures var r := AddRef(idx, d, loc);
      (forall e :: e in idx[d] ==> e in r[d]) && (forall e :: e in r[d] ==> e in idx[d] || e == loc)
  {
    SetInsertElements(idx[d], loc);
  }

  /** A new key receives a singleton set. */
  lemma AddRefNewKey(idx: RefIndex, d: Range, loc: ReferenceLocation)
    requires d !in idx
    ensures AddRef(idx, d, loc)[d] == [loc]
  {
  }

  /** Re-adding an equivalent location is a no-op. */
  lemma AddRefTwice(idx: RefIndex, d: Range, loc: ReferenceLocation)
    requires IndexSorted(idx)
    ensures AddRef(AddRef(idx, d, loc), d, loc) == AddRef(idx, d, loc)
  {
    if d in idx {
      SetInsertIdempotent(idx[d], loc);
    } else {
      RefLessIrreflexiveAsymmetric(loc, loc);
      assert SetInsert([loc], loc) == [loc];
    }
  }

  /** Every set of the index stays strictly sorted. */
  lemma AddRefSorted(idx: RefIndex, d: Range, loc: ReferenceLocation)
    requires IndexSorted(idx)
    ensures IndexSorted(AddRef(idx, d, loc))
  {
    if d in idx {
      SetInsertSorted(idx[d], loc);
    }
  }

  /** One index includes another: every key survives and every set only grows. */
  predicate IndexIncludes(bigger: RefIndex, smaller: RefIndex)
  {
    forall d :: d in smaller ==> d in bigger && forall e :: e in smaller[d] ==> e in bigger[d]
  }

  /** The index only grows under insertion. */
  lemma AddRefOnlyGrows(idx: RefIndex, d: Range, loc: ReferenceLocation)
    ensures IndexIncludes(AddRef(idx, d, loc), idx)
  {
    if d in idx {
      SetInsertElements(idx[d], loc);
    }
  }

  // ---------------------------------------------------------------------
  // Diagnostics

  datatype Severity = Error | Warning

  /** A compiler diagnostic reported while analysing a document. */
  datatype Diagnostic = Diagnostic(location: SourceLocation, severity: Severity, message: string)

  /** The editor's diagnostic: 0-based positions, severity 1 (error) or 2 (warning). */
  datatype LspDiagnostic = LspDiagnostic(startLine: int, startCharacter: int, endLine: int, endCharacter: int, severity: int, message: string)

  /** A diagnostic as the editor receives it: the start position, 0-based, at both ends. */
  function ToLsp(d: Diagnostic): (l: LspDiagnostic)
    ensures l.startLine == l.endLine == d.location.range.start.line - 1
    ensures l.startCharacter == l.endCharacter == d.location.range.start.column - 1
    ensures l.severity == (if d.severity == Error then 1 else 2) && l.message == d.message
  {
    var s := d.location.range.start;
    LspDiagnostic(s.line - 1, s.column - 1, s.line - 1, s.column - 1, if d.severity == Error then 1 else 2, d.message)
  }

  /** The diagnostics of this document's own file, in report order. */
  function OwnDiagnostics(ds: seq<Diagnostic>, pathname: string): (r: seq<LspDiagnostic>)
    ensures |r| <= |ds|
    ensures forall l :: l in r ==> exists d :: d in ds && d.location.pathname == pathname && l == ToLsp(d)
    ensures forall d :: d in ds && d.location.pathname == pathname ==> ToLsp(d) in r
  {
    if ds == [] then []
    else
      var rest := OwnDiagnostics(ds[1..], pathname);
      assert forall d :: d in ds[1..] ==> d in ds;
      if ds[0].location.pathname == pathname then [ToLsp(ds[0])] + rest else rest
  }

  class LSPDocument {
    const pathname: string
    const docType: DocumentType
    var referencedBy: RefIndex
    var compilerWorkspace: Option<CompilerWorkspace>
    var diagnostics: seq<Diagnostic>

    /** The constructor: type from the extension, no analysis yet, an empty index. */
    constructor (pathname: string)
      ensures this.pathname == pathname && docType == TypeOf(pathname)
      ensures referencedBy == map[] && compilerWorkspace.None? && diagnostics == []
    {
      this.pathname := pathname;
      docType := TypeOf(pathname);
      referencedBy := map[];
      compilerWorkspace := None;
      diagnostics := [];
    }

    /** `add_reference_by(defined_at, used_at_pathname, used_at_range)`. */
    method AddReferenceBy(definedAt: Range, usedAtPathname: string, usedAtRange: Range)
      modifies this`referencedBy
      ensures referencedBy == AddRef(old(referencedBy), definedAt, ReferenceLocation(usedAtPathname, usedAtRange))
    {
      var loc := ReferenceLocation(usedAtPathname, usedAtRange);
      if definedAt in referencedBy {
        referencedBy := referencedBy[definedAt := SetInsert(referencedBy[definedAt], loc)];
      } else {
        referencedBy := referencedBy[definedAt := [loc]];
      }
    }

    /** `add_reference_by(SourceLocation defined_at, SourceLocation used_at)`: forwards the usage's pathname. */
    method AddReferenceByLocation(definedAt: SourceLocation, usedAt: SourceLocation)
      modifies this`referencedBy
      ensures referencedBy == AddRef(old(referencedBy), definedAt.range, ReferenceLocation(usedAt.pathname, usedAt.range))
    {
      AddReferenceBy(definedAt.range, usedAt.pathname, usedAt.range);
    }

    /** `add_reference_by(Range defined_at, SourceLocation used_at)`. */
    method AddReferenceByRange(definedAt: Range, usedAt: SourceLocation)
      modifies this`referencedBy
      ensures referencedBy == AddRef(old(referencedBy), definedAt, ReferenceLocation(usedAt.pathname, usedAt.range))
    {
      AddReferenceBy(definedAt, usedAt.pathname, usedAt.range);
    }

    /** `Diagnostics`: the reported diagnostics of this file only, converted for the editor. */
    method Diagnostics() returns (results: seq<LspDiagnostic>)
      ensures results == OwnDiagnostics(diagnostics, pathname)
    {
      results := [];
      var i := |diagnostics|;
      while i > 0
        invariant 0 <= i <= |diagnostics|
        invariant results == OwnDiagnostics(diagnostics[i..], pathname)
      {
        i := i - 1;
        assert diagnostics[i..][1..] == diagnostics[i + 1..];
        if diagnostics[i].location.pathname == pathname {
          results := [ToLsp(diagnostics[i])] + results;
        }
      }
      assert diagnostics[0..] == diagnostics;
    }
  }
}
