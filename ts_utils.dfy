/**
 * The server's text helpers (`server/src/utils.ts`): position containment,
 * the parenthesis matcher used by signature help, and the end position of a
 * token's text.
 */
module TsUtils {
  import opened Common

  /** An editor position: 0-based line, character within the line. */
  datatype TsPosition = TsPosition(line: int, character: int)
  datatype TsRange = TsRange(start: TsPosition, end: TsPosition)

  /** The lexicographic order on (line, character). */
  predicate AtOrBefore(a: TsPosition, b: TsPosition)
  {
    a.line < b.line || (a.line == b.line && a.character <= b.character)
  }

  /** `containsPosition`: inclusive at both ends. */
  function ContainsPosition(range: TsRange, p: TsPosition): (r: bool)
    ensures r <==> AtOrBefore(range.start, p) && AtOrBefore(p, range.end)
  {
    if p.line < range.start.line || p.line > range.end.line then false
    else if p.line == range.start.line && p.character < range.start.character then false
    else if p.line == range.end.line && p.character > range.end.character then false
    else true
  }

  /** Both ends of a range are inside it, when the range is not empty. */
  lemma EndsContained(range: TsRange)
    requires AtOrBefore(range.start, range.end)
    ensures ContainsPosition(range, range.start) && ContainsPosition(range, range.end)
  {
  }

  // ---------------------------------------------------------------------
  // findMatchingParen
  // ---------------------------------------------------------------------

  /** `str[i]` in JavaScript: undefined outside the string. */
  function CharAt(s: string, i: int): (r: Option<char>)
    ensures r.Some? <==> 0 <= i < |s|
    ensures r.Some? ==> r.value == s[i]
  {
    if 0 <= i < |s| then Some(s[i]) else None
  }

  /** The depth change of one character read right to left: ')' opens a level, '(' closes one. */
  function LeftDelta(c: char): int
  {
    if c == '(' then -1 else if c == ')' then 1 else 0
  }

  /** The counter of the leftward scan from `start` once it has read `s[q..start]`. */
  function LeftCounter(s: string, start: nat, q: nat): int
    requires q <= start <= |s|
    decreases start - q
  {
    if q == start then 1 else LeftCounter(s, start, q + 1) + LeftDelta(s[q])
  }

  /** The commas in `s[q..start]` read while the counter was 1, i.e. those of the innermost open call. */
  function DepthOneCommas(s: string, start: nat, q: nat): nat
    requires q <= start <= |s|
    decreases start - q
  {
    if q == start then 0
    else (if s[q] == ',' && LeftCounter(s, start, q + 1) == 1 then 1 else 0) + DepthOneCommas(s, start, q + 1)
  }

  /** The depth change of one character read left to right. */
  function RightDelta(c: char): int
  {
    if c == '(' then 1 else if c == ')' then -1 else 0
  }

  /** The counter of the rightward scan from `from` once it has read `s[from + 1..q + 1]`. */
  function RightCounter(s: string, from: nat, q: nat): int
    requires from <= q < |s| || q == from
    decreases q - from
  {
    if q == from then 1 else RightCounter(s, from, q - 1) + RightDelta(s[q])
  }

  datatype ParenMatch = ParenMatch(open: nat, close: nat, arg: nat)

  /** The leftward scan: the innermost unmatched '(' before `start` and the commas of its depth. */
  method ScanOpen(s: string, start: nat) returns (r: Option<(nat, nat)>)
    requires start <= |s|
    ensures r.Some? ==> (r.value.0 < start && s[r.value.0] == '(' && LeftCounter(s, start, r.value.0) == 0 &&
      (forall q :: r.value.0 < q <= start ==> LeftCounter(s, start, q) > 0) &&
      r.value.1 == DepthOneCommas(s, start, r.value.0 + 1))
    ensures r.None? ==> forall q :: 0 <= q <= start ==> LeftCounter(s, start, q) > 0
  {
    var openPos: int := start;
    var counter := 1;
    var argCount := 0;
    while counter > 0
      invariant 0 <= openPos <= start
      invariant counter == LeftCounter(s, start, openPos)
      invariant forall q :: openPos < q <= start ==> LeftCounter(s, start, q) > 0
      invariant argCount == DepthOneCommas(s, start, openPos)
      decreases openPos
    {
      openPos := openPos - 1;
      var c := CharAt(s, openPos);
      if c.None? {
        return None;
      }
      if c.value == '(' {
        counter := counter - 1;
      } else if c.value == ')' {
        counter := counter + 1;
      } else if c.value == ',' && counter == 1 {
        argCount := argCount + 1;
      }
    }
    r := Some((openPos, argCount));
  }

  /** The rightward scan: the first ')' after `from` that balances the depth. */
  method ScanClose(s: string, from: nat) returns (r: Option<nat>)
    requires from <= |s|
    ensures r.Some? ==> (from < r.value < |s| && s[r.value] == ')' && RightCounter(s, from, r.value) == 0 &&
      forall q :: from <= q < r.value ==> RightCounter(s, from, q) > 0)
    ensures r.None? ==> forall q :: from <= q < |s| ==> RightCounter(s, from, q) > 0
  {
    var closePos := from;
    var counter := 1;
    while counter > 0
      invariant from <= closePos <= |s| && (closePos < |s| || closePos == from)
      invariant counter == RightCounter(s, from, closePos)
      invariant forall q :: from <= q < closePos ==> RightCounter(s, from, q) > 0
      decreases |s| - closePos
    {
      closePos := closePos + 1;
      var c := CharAt(s, closePos);
      if c.None? {
        return None;
      }
      if c.value == '(' {
        counter := counter + 1;
      } else if c.value == ')' {
        counter := counter - 1;
      }
    }
    r := Some(closePos);
  }

  /** The starting point of the rightward scan: one back when the cursor sits between ',' and ')'. */
  function CloseScanStart(s: string, start: nat): (from: nat)
    requires start <= |s|
    ensures from <= |s|
  {
    if CharAt(s, start) == Some(')') && CharAt(s, start as int - 1) == Some(',') then start - 1 else start
  }

  /** `findMatchingParen`: the '(' and ')' around the cursor offset `start`, and the argument it is in. */
  method FindMatchingParen(s: string, start: nat) returns (r: Option<ParenMatch>)
    requires start <= |s|
    ensures CharAt(s, start as int - 1) == Some('(') && CharAt(s, start) == Some(')') ==> r == Some(ParenMatch(start - 1, start, 0))
    ensures r.Some? && !(CharAt(s, start as int - 1) == Some('(') && CharAt(s, start) == Some(')')) ==>
      (r.value.open < start && s[r.value.open] == '(' && LeftCounter(s, start, r.value.open) == 0 &&
       (forall q :: r.value.open < q <= start ==> LeftCounter(s, start, q) > 0) &&
       r.value.arg == DepthOneCommas(s, start, r.value.open + 1) &&
       CloseScanStart(s, start) < r.value.close < |s| && s[r.value.close] == ')' &&
       RightCounter(s, CloseScanStart(s, start), r.value.close) == 0 &&
       (forall q :: CloseScanStart(s, start) <= q < r.value.close ==> RightCounter(s, CloseScanStart(s, start), q) > 0))
    ensures r.None? <==>
      !(CharAt(s, start as int - 1) == Some('(') && CharAt(s, start) == Some(')')) &&
      ((forall q :: 0 <= q <= start ==> LeftCounter(s, start, q) > 0) ||
       (forall q :: CloseScanStart(s, start) <= q < |s| ==> RightCounter(s, CloseScanStart(s, start), q) > 0))
  {
    if CharAt(s, start as int - 1) == Some('(') && CharAt(s, start) == Some(')') {
      return Some(ParenMatch(start - 1, start, 0));
    }
    var open := ScanOpen(s, start);
    var close := ScanClose(s, CloseScanStart(s, start));
    if open.None? || close.None? {
      return None;
    }
    r := Some(ParenMatch(open.value.0, close.value, open.value.1));
  }

  // ---------------------------------------------------------------------
  // getEndPos
  // ---------------------------------------------------------------------

  predicate IsLineTerminator(c: char)
  {
    c == '\r' || c == '\n'
  }

  /** One step of the `getEndPos` loop at index `i`, as written: the "\r\n" branch does not skip the '\n'. */
  function EndStep(s: string, i: nat, p: TsPosition): TsPosition
    requires i + 1 < |s|
  {
    if s[i] == '\r' && s[i + 1] == '\n' then TsPosition(p.line + 1, 1)
    else if s[i] == '\r' then TsPosition(p.line + 1, 1)
    else if s[i] == '\n' then TsPosition(p.line + 1, 1)
    else TsPosition(p.line, p.character + 1)
  }

  /** The loop of `getEndPos` from index `i` on, over every character but the last. */
  function ScanEnd(s: string, i: nat, p: TsPosition): TsPosition
    decreases |s| - i
  {
    if i + 1 >= |s| then p else ScanEnd(s, i + 1, EndStep(s, i, p))
  }

  /** `getEndPos` starting from (line0, char0), as written. */
  function EndPosAsWritten(s: string, line0: int, char0: int): TsPosition
  {
    var p := ScanEnd(s, 0, TsPosition(line0, char0));
    TsPosition(p.line, p.character + 1)
  }

  /** The number of line-terminator characters in `s`. */
  function TerminatorCount(s: string): nat
  {
    if s == [] then 0 else TerminatorCount(s[..|s| - 1]) + (if IsLineTerminator(s[|s| - 1]) then 1 else 0)
  }

  /** The characters after the last line terminator of `s`. */
  function LastLineLength(s: string): nat
  {
    if s == [] then 0 else if IsLineTerminator(s[|s| - 1]) then 0 else LastLineLength(s[..|s| - 1]) + 1
  }

  lemma {:induction false} ScanEndCounts(s: string, i: nat, p: TsPosition)
    requires i < |s|
    ensures var e := ScanEnd(s, i, p);
      e.line == p.line + TerminatorCount(s[..|s| - 1]) - TerminatorCount(s[..i]) &&
      e.character == (if TerminatorCount(s[..|s| - 1]) == TerminatorCount(s[..i]) then p.character + LastLineLength(s[..|s| - 1]) - LastLineLength(s[..i])
                      else 1 + LastLineLength(s[..|s| - 1]))
    decreases |s| - i
  {
    if i + 1 < |s| {
      ScanEndCounts(s, i + 1, EndStep(s, i, p));
      assert s[..i + 1][..i] == s[..i];
      PrefixCountsGrow(s, i + 1, |s| - 1);
    }
  }

  /** Counting is monotone along prefixes, and an equal count means no terminator in between. */
  lemma {:induction false} PrefixCountsGrow(s: string, i: nat, j: nat)
    requires i <= j <= |s|
    ensures TerminatorCount(s[..i]) <= TerminatorCount(s[..j])
    ensures TerminatorCount(s[..i]) == TerminatorCount(s[..j]) ==> LastLineLength(s[..j]) == LastLineLength(s[..i]) + (j - i)
    decreases j - i
  {
    if i < j {
      PrefixCountsGrow(s, i, j - 1);
      assert s[..j][..j - 1] == s[..j - 1];
    }
  }

  /** Every terminator before the last character adds a line; the column counts from the last one. */
  lemma EndPosCountsTerminators(s: string, line0: int, char0: int)
    requires |s| > 0
    ensures var e := EndPosAsWritten(s, line0, char0);
      e.line == line0 + TerminatorCount(s[..|s| - 1]) &&
      e.character == (if TerminatorCount(s[..|s| - 1]) == 0 then char0 + LastLineLength(s[..|s| - 1]) + 1
                      else LastLineLength(s[..|s| - 1]) + 2)
  {
    ScanEndCounts(s, 0, TsPosition(line0, char0));
    assert s[..0] == [];
  }

  /** A single-line text of length n at (L, c) ends at (L, c + n). */
  lemma SingleLineEnd(s: string, line0: int, char0: int)
    requires |s| > 0 && forall i :: 0 <= i < |s| - 1 ==> !IsLineTerminator(s[i])
    ensures EndPosAsWritten(s, line0, char0) == TsPosition(line0, char0 + |s|)
  {
    EndPosCountsTerminators(s, line0, char0);
    NoTerminators(s[..|s| - 1]);
  }

  lemma {:induction false} NoTerminators(t: string)
    requires forall i :: 0 <= i < |t| ==> !IsLineTerminator(t[i])
    ensures TerminatorCount(t) == 0 && LastLineLength(t) == |t|
  {
    if t != [] {
      NoTerminators(t[..|t| - 1]);
    }
  }

  /** `getEndPos` of `utils.ts`: the loop, from line 0 and character 1. */
  method GetEndPos(s: string) returns (p: TsPosition)
    ensures p == EndPosAsWritten(s, 0, 1)
  {
    var line := 1;
    var character := 1;
    line := line - 1;
    var i := 0;
    while i < |s| - 1
      invariant 0 <= i && (i <= |s| - 1 || i == 0)
      invariant ScanEnd(s, i, TsPosition(line, character)) == ScanEnd(s, 0, TsPosition(0, 1))
      decreases |s| - i
    {
      if s[i] == '\r' && s[i + 1] == '\n' {
        line, character := line + 1, 1;
      } else if s[i] == '\r' {
        line, character := line + 1, 1;
      } else if s[i] == '\n' {
        line, character := line + 1, 1;
      } else {
        character := character + 1;
      }
      i := i + 1;
    }
    character := character + 1;
    p := TsPosition(line, character);
  }

  /** "\r\n" inside a text counts as two line breaks. */
  lemma CrLfCountsTwice()
    ensures EndPosAsWritten("a\r\nb", 0, 1) == TsPosition(2, 2)
    ensures LineBreaks("a\r\n") == 1
  {
  }

  /** The line breaks of a text: "\r\n", a lone '\r' or a lone '\n', each counted once. */
  function LineBreaks(s: string): nat
    decreases |s|
  {
    if s == [] then 0
    else if |s| >= 2 && s[0] == '\r' && s[1] == '\n' then 1 + LineBreaks(s[2..])
    else if IsLineTerminator(s[0]) then 1 + LineBreaks(s[1..])
    else LineBreaks(s[1..])
  }

  /** The loop with "\r\n" consumed as one line break: the evident intent of its first branch. */
  function ScanEndCorrected(s: string, i: nat, p: TsPosition): TsPosition
    decreases |s| - i
  {
    if i + 1 >= |s| then p
    else if s[i] == '\r' && s[i + 1] == '\n' then ScanEndCorrected(s, i + 2, TsPosition(p.line + 1, 1))
    else if IsLineTerminator(s[i]) then ScanEndCorrected(s, i + 1, TsPosition(p.line + 1, 1))
    else ScanEndCorrected(s, i + 1, TsPosition(p.line, p.character + 1))
  }

  function EndPosCorrected(s: string, line0: int, char0: int): TsPosition
  {
    var p := ScanEndCorrected(s, 0, TsPosition(line0, char0));
    TsPosition(p.line, p.character + 1)
  }

  lemma {:induction false} ScanCorrectedCountsBreaks(s: string, i: nat, p: TsPosition)
    requires i <= |s|
    ensures ScanEndCorrected(s, i, p).line == p.line + LineBreaks(if i + 1 >= |s| then [] else s[i..|s| - 1])
    decreases |s| - i
  {
    if i + 1 < |s| {
      var t := s[i..|s| - 1];
      if s[i] == '\r' && s[i + 1] == '\n' {
        ScanCorrectedCountsBreaks(s, i + 2, TsPosition(p.line + 1, 1));
        if i + 2 < |s| {
          assert t[2..] == s[i + 2..|s| - 1];
        } else {
          assert |t| == 1 && t[0] == '\r';
          assert t[1..] == [];
        }
      } else {
        ScanCorrectedCountsBreaks(s, i + 1, TsPosition(p.line + (if IsLineTerminator(s[i]) then 1 else 0), if IsLineTerminator(s[i]) then 1 else p.character + 1));
        if i + 2 < |s| {
          assert t[1..] == s[i + 1..|s| - 1];
        } else {
          assert t[1..] == [];
        }
      }
    }
  }

  /** With the correction, the end line is the start line plus the line breaks before the last character. */
  lemma EndPosCorrectedCountsBreaks(s: string, line0: int, char0: int)
    requires |s| > 0
    ensures EndPosCorrected(s, line0, char0).line == line0 + LineBreaks(s[..|s| - 1])
  {
    ScanCorrectedCountsBreaks(s, 0, TsPosition(line0, char0));
    if |s| == 1 {
      assert s[..0] == [];
    } else {
      assert s[0..|s| - 1] == s[..|s| - 1];
    }
  }

  /** Without '\r' the correction changes nothing. */
  lemma {:induction false} CorrectedAgreesWithoutCr(s: string, i: nat, p: TsPosition)
    requires forall k :: 0 <= k < |s| ==> s[k] != '\r'
    ensures ScanEndCorrected(s, i, p) == ScanEnd(s, i, p)
    decreases |s| - i
  {
    if i + 1 < |s| {
      CorrectedAgreesWithoutCr(s, i + 1, EndStep(s, i, p));
    }
  }
}
