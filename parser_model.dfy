/**
 * The document parser of the TypeScript server (`server/src/parser.ts`):
 * the semantic tokens of one lexer token, the lookup of the token under the
 * cursor, the order in which `pushSource` refuses or reuses a parse, and
 * the parse mode an extension selects.
 */
module Parser {
  import opened Common
  import opened TsUtils
  import opened AstVisitor
  import opened EscriptVisitor

  /** The positions of `comment` and `string` in the token type legend. */
  const CommentTokenType: nat := 0
  const StringTokenType: nat := 1

  /**
   * A lexer token: the semantic token type its lexer type is classified as
   * (none for identifiers, white space and the like), its 1-based line,
   * its column, its text and its character span in the document.
   */
  datatype LexToken = LexToken(kind: Option<nat>, line: int, charPositionInLine: int, text: Option<string>, startIndex: int, stopIndex: int)

  // ---------------------------------------------------------------------
  // Semantic tokens of one lexer token
  // ---------------------------------------------------------------------

  /** `text.split(/[\r\n]/)`: each '\r' and each '\n' ends a segment. */
  function SplitAtTerminators(s: string): (r: seq<string>)
    ensures |r| >= 1
    ensures forall k, j :: 0 <= k < |r| && 0 <= j < |r[k]| ==> !IsLineTerminator(r[k][j])
  {
    if s == [] then [""]
    else
      var rest := SplitAtTerminators(s[1..]);
      if IsLineTerminator(s[0]) then [""] + rest
      else
        var r := [[s[0]] + rest[0]] + rest[1..];
        assert forall k :: 1 <= k < |r| ==> r[k] == rest[k];
        r
  }

  lemma {:induction false} TerminatorCountCons(c: char, s: string)
    ensures TerminatorCount([c] + s) == (if IsLineTerminator(c) then 1 else 0) + TerminatorCount(s)
    decreases |s|
  {
    if s != [] {
      var init := s[..|s| - 1];
      TerminatorCountCons(c, init);
      assert ([c] + s)[..|[c] + s| - 1] == [c] + init;
    } else {
      assert [c][..0] == [];
    }
  }

  /** There is one segment more than there are '\r' and '\n' characters. */
  lemma {:induction false} SplitCount(s: string)
    ensures |SplitAtTerminators(s)| == TerminatorCount(s) + 1
  {
    if s != [] {
      SplitCount(s[1..]);
      TerminatorCountCons(s[0], s[1..]);
      assert [s[0]] + s[1..] == s;
    }
  }

  /** The segment of each line of a multi-line string or comment, and the segment's own column. */
  function SegmentTokens(segments: seq<string>, line0: int, char0: int, tokenType: nat, index: nat): (r: seq<SemanticToken>)
    requires index <= |segments|
    ensures |r| == |segments| - index
    ensures forall k :: 0 <= k < |r| ==>
      r[k] == SemanticToken(line0 + index + k, if index + k > 0 then 0 else char0, |segments[index + k]|, tokenType, 0)
    decreases |segments| - index
  {
    if index == |segments| then []
    else [SemanticToken(line0 + index, if index > 0 then 0 else char0, |segments[index]|, tokenType, 0)] + SegmentTokens(segments, line0, char0, tokenType, index + 1)
  }

  /**
   * `getLexicalTokenResult`: a string or comment with text gives one token
   * per segment, the segments after the first starting at column 0; any
   * other classified token gives one token spanning its characters; an
   * unclassified token gives none.
   */
  function LexicalTokenResult(t: LexToken): (r: seq<SemanticToken>)
    ensures t.kind.None? ==> r == []
    ensures t.kind.Some? && (t.kind.value == StringTokenType || t.kind.value == CommentTokenType) && t.text.Some? && t.text.value != [] ==>
      |r| == TerminatorCount(t.text.value) + 1 &&
      forall k :: 0 <= k < |r| ==> r[k].line == t.line - 1 + k && r[k].character == (if k > 0 then 0 else t.charPositionInLine) && r[k].tokenType == t.kind.value
    ensures t.kind.Some? && !((t.kind.value == StringTokenType || t.kind.value == CommentTokenType) && t.text.Some? && t.text.value != []) ==>
      r == [SemanticToken(t.line - 1, t.charPositionInLine, Length(t.stopIndex - t.startIndex + 1), t.kind.value, 0)]
  {
    if t.kind.None? then []
    else if (t.kind.value == StringTokenType || t.kind.value == CommentTokenType) && t.text.Some? && t.text.value != [] then
      SplitCount(t.text.value);
      SegmentTokens(SplitAtTerminators(t.text.value), t.line - 1, t.charPositionInLine, t.kind.value, 0)
    else [SemanticToken(t.line - 1, t.charPositionInLine, Length(t.stopIndex - t.startIndex + 1), t.kind.value, 0)]
  }

  /** A token length; a span the lexer never produces (stop before start) counts as empty. */
  function Length(n: int): nat
  {
    if n < 0 then 0 else n
  }

  /** "a\r\nb" as a comment on line 1 splits into three segments: the "b" is put on line 2 (0-based), one past its own. */
  lemma CrLfCommentSplitsThree()
    ensures |LexicalTokenResult(LexToken(Some(CommentTokenType), 1, 0, Some("a\r\nb"), 0, 3))| == 3
    ensures LexicalTokenResult(LexToken(Some(CommentTokenType), 1, 0, Some("a\r\nb"), 0, 3))[2].line == 2
  {
    assert TerminatorCount("a\r\nb") == 2 by {
      assert "a\r\nb"[..3] == "a\r\n";
      assert "a\r\n"[..2] == "a\r";
      assert "a\r"[..1] == "a";
      assert "a"[..0] == [];
    }
  }

  /** The lines of a text, "\r\n" ending one line like a lone '\r' or '\n'. */
  function SplitLines(s: string): (r: seq<string>)
    ensures |r| == LineBreaks(s) + 1
    decreases |s|
  {
    if s == [] then [""]
    else if |s| >= 2 && s[0] == '\r' && s[1] == '\n' then [""] + SplitLines(s[2..])
    else if IsLineTerminator(s[0]) then [""] + SplitLines(s[1..])
    else
      var rest := SplitLines(s[1..]);
      [[s[0]] + rest[0]] + rest[1..]
  }

  /** The corrected semantic tokens: one per line of the text. */
  function LexicalTokenResultCorrected(t: LexToken): (r: seq<SemanticToken>)
    ensures t.kind.Some? && (t.kind.value == StringTokenType || t.kind.value == CommentTokenType) && t.text.Some? && t.text.value != [] ==>
      |r| == LineBreaks(t.text.value) + 1 &&
      forall k :: 0 <= k < |r| ==> r[k].line == t.line - 1 + k
  {
    if t.kind.None? then []
    else if (t.kind.value == StringTokenType || t.kind.value == CommentTokenType) && t.text.Some? && t.text.value != [] then
      SegmentTokens(SplitLines(t.text.value), t.line - 1, t.charPositionInLine, t.kind.value, 0)
    else [SemanticToken(t.line - 1, t.charPositionInLine, Length(t.stopIndex - t.startIndex + 1), t.kind.value, 0)]
  }

  /** With the correction, "a\r\nb" gives two tokens and the "b" stays on line 1. */
  lemma CrLfCommentCorrected()
    ensures |LexicalTokenResultCorrected(LexToken(Some(CommentTokenType), 1, 0, Some("a\r\nb"), 0, 3))| == 2
    ensures LexicalTokenResultCorrected(LexToken(Some(CommentTokenType), 1, 0, Some("a\r\nb"), 0, 3))[1].line == 1
  {
    assert LineBreaks("a\r\nb") == 1 by {
      assert "a\r\nb"[1..] == "\r\nb";
      assert "\r\nb"[2..] == "b";
      assert "b"[1..] == [];
    }
  }

  /** Without '\r' the two splits agree. */
  lemma {:induction false} SplitsAgreeWithoutCr(s: string)
    requires forall k :: 0 <= k < |s| ==> s[k] != '\r'
    ensures SplitLines(s) == SplitAtTerminators(s)
    decreases |s|
  {
    if s != [] {
      SplitsAgreeWithoutCr(s[1..]);
    }
  }

  /** The semantic tokens of a document: those of every lexer token and those of the tree visit, sorted by position. */
  function DocumentTokens(lexTokens: seq<LexToken>, visitTokens: seq<SemanticToken>): (r: seq<SemanticToken>)
    ensures TokensSorted(r)
    ensures multiset(r) == multiset(LexicalTokensOf(lexTokens) + visitTokens)
  {
    SortTokens(LexicalTokensOf(lexTokens) + visitTokens)
  }

  function LexicalTokensOf(lexTokens: seq<LexToken>): seq<SemanticToken>
  {
    if lexTokens == [] then [] else LexicalTokenResult(lexTokens[0]) + LexicalTokensOf(lexTokens[1..])
  }

  // ---------------------------------------------------------------------
  // The token under the cursor
  // ---------------------------------------------------------------------

  /** Whether a token is on the cursor's line, at or before its column. */
  predicate AtCursor(t: LexToken, position: TsPosition)
  {
    t.line - 1 == position.line && t.charPositionInLine <= position.character
  }

  /** The backward scan from the `i`-th token: the first token at the cursor, stopping at an earlier line. */
  function TokenAtFrom(tokens: seq<LexToken>, position: TsPosition, i: nat): (r: Option<nat>)
    requires i <= |tokens|
    ensures r.Some? ==> r.value < i && AtCursor(tokens[r.value], position)
  {
    if i == 0 then None
    else if AtCursor(tokens[i - 1], position) then Some(i - 1)
    else if tokens[i - 1].line - 1 < position.line then None
    else TokenAtFrom(tokens, position, i - 1)
  }

  /** `getTokenAtPosition`: the scan from the last token, or nothing before a parse. */
  method GetTokenAtPosition(tokens: Option<seq<LexToken>>, position: TsPosition) returns (r: Option<LexToken>)
    ensures tokens.None? ==> r.None?
    ensures tokens.Some? ==> r == (var k := TokenAtFrom(tokens.value, position, |tokens.value|); if k.Some? then Some(tokens.value[k.value]) else None)
  {
    if tokens.None? {
      return None;
    }
    var ts := tokens.value;
    var i := |ts|;
    while i > 0
      invariant 0 <= i <= |ts|
      invariant TokenAtFrom(ts, position, |ts|) == TokenAtFrom(ts, position, i)
    {
      i := i - 1;
      var token := ts[i];
      if token.line - 1 == position.line && token.charPositionInLine <= position.character {
        return Some(token);
      } else if token.line - 1 < position.line {
        break;
      }
    }
    return None;
  }

  /** Lexer tokens come in document order: their lines never decrease. */
  predicate LinesSorted(tokens: seq<LexToken>)
  {
    forall i, j :: 0 <= i < j < |tokens| ==> tokens[i].line <= tokens[j].line
  }

  /** On tokens in document order, the scan finds the last token at the cursor, and finds one whenever there is one. */
  lemma {:induction false} TokenAtFindsLast(tokens: seq<LexToken>, position: TsPosition, i: nat)
    requires i <= |tokens| && LinesSorted(tokens)
    ensures TokenAtFrom(tokens, position, i).None? <==> forall k :: 0 <= k < i ==> !AtCursor(tokens[k], position)
    ensures TokenAtFrom(tokens, position, i).Some? ==> forall k :: TokenAtFrom(tokens, position, i).value < k < i ==> !AtCursor(tokens[k], position)
  {
    if i > 0 {
      if !AtCursor(tokens[i - 1], position) {
        if tokens[i - 1].line - 1 < position.line {
          assert forall k :: 0 <= k < i ==> tokens[k].line <= tokens[i - 1].line;
        } else {
          TokenAtFindsLast(tokens, position, i - 1);
        }
      }
    }
  }

  // ---------------------------------------------------------------------
  // pushSource
  // ---------------------------------------------------------------------

  datatype Invalidation = Valid | Close | Reparse

  /** How the parse of a document is chosen: the grammar entry for its extension, or an error. */
  datatype ParseMode = CompilationUnit | ModuleUnit | InvalidExtension(message: string)

  datatype PushOutcome<R> = Cancelled | ReparseRequested | RecursivelyRequested | Cached(result: R) | Parse(mode: ParseMode, deps: set<string>)

  /** The parse mode of an extension: `.src` and `.inc` are compilation units, `.em` a module unit. */
  function ParseModeOf(uri: string): (r: ParseMode)
    ensures r == CompilationUnit <==> Lower(Extname(uri)) in {".src", ".inc"}
    ensures r == ModuleUnit <==> Lower(Extname(uri)) == ".em"
  {
    var ext := Lower(Extname(uri));
    if ext == ".src" || ext == ".inc" then CompilationUnit
    else if ext == ".em" then ModuleUnit
    else InvalidExtension("Invalid extension for " + uri + "; expecting .src, .inc, .em")
  }

  /**
   * `pushSource`: a cancelled or closed builder refuses, then one to be
   * reparsed, then a document already being parsed up the include chain,
   * then a cached result is reused; otherwise the document is parsed with
   * itself added to the chain.
   */
  function PushSource<R>(cancelRequested: bool, invalid: Invalidation, uri: string, currentDeps: set<string>, cached: Option<R>): (r: PushOutcome<R>)
    ensures r.Cancelled? <==> cancelRequested || invalid.Close?
    ensures r.ReparseRequested? <==> !cancelRequested && invalid.Reparse?
    ensures r.RecursivelyRequested? <==> !cancelRequested && invalid.Valid? && uri in currentDeps
    ensures r.Cached? <==> !cancelRequested && invalid.Valid? && uri !in currentDeps && cached.Some?
    ensures r.Parse? ==> r.mode == ParseModeOf(uri) && r.deps == currentDeps + {uri}
  {
    if cancelRequested || invalid.Close? then Cancelled
    else if invalid.Reparse? then ReparseRequested
    else if uri in currentDeps then RecursivelyRequested
    else if cached.Some? then Cached(cached.value)
    else Parse(ParseModeOf(uri), currentDeps + {uri})
  }

  /** A document is never parsed twice along one include chain: the nested push sees it and stops. */
  lemma NoNestedReparse<R>(uri: string, currentDeps: set<string>, cached: Option<R>)
    requires PushSource<R>(false, Valid, uri, currentDeps, cached).Parse?
    ensures PushSource<R>(false, Valid, uri, PushSource<R>(false, Valid, uri, currentDeps, cached).deps, cached).RecursivelyRequested?
  {
  }
}
