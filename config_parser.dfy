/**
 * The `.cfg` reader of the TypeScript server (server/src/config-parser.ts).
 * `getLine` hands out the non-blank lines of the input, trimmed; `parse`
 * runs a small state machine over them: comment lines are skipped, a
 * "Type Key" header (optionally followed by "{") starts an entry, property
 * lines "Name value" are collected, and "}" emits the entry with its
 * properties grouped by name.
 */
module ConfigParser {
  import opened Common

  // ---------------------------------------------------------------------
  // Characters
  // ---------------------------------------------------------------------

  /** The non-ASCII whitespace list: U+1680, U+2000 to U+200A, U+202F, U+205F, U+3000, U+FEFF. */
  predicate IsNonAsciiWhiteSpace(n: int)
  {
    n == 0x1680 || (0x2000 <= n <= 0x200A) || n == 0x202F || n == 0x205F || n == 0x3000 || n == 0xFEFF
  }

  predicate IsWhiteSpace(c: char)
  {
    var n := c as int;
    n == 0x20 || n == 0x09 || n == 0x0B || n == 0x0C || n == 0xA0 || (n >= 0x1680 && IsNonAsciiWhiteSpace(n))
  }

  predicate IsLineTerminator(c: char)
  {
    var n := c as int;
    n == 0x0A || n == 0x0D || n == 0x2028 || n == 0x2029
  }

  /** JavaScript's `\s`, and the characters `trim` removes. */
  predicate IsSpaceOrBreak(c: char)
  {
    IsWhiteSpace(c) || IsLineTerminator(c)
  }

  predicate NoBreaks(s: string)
  {
    forall k :: 0 <= k < |s| ==> !IsLineTerminator(s[k])
  }

  /** The string without its trailing `trim` characters. */
  function TrimEnd(s: string): (r: string)
    ensures r <= s
    ensures r == [] || !IsSpaceOrBreak(r[|r| - 1])
  {
    if s == [] || !IsSpaceOrBreak(s[|s| - 1]) then s else TrimEnd(s[..|s| - 1])
  }

  /** `String.prototype.trim`. */
  function Trim(s: string): (r: string)
    ensures r == [] || (!IsSpaceOrBreak(r[0]) && !IsSpaceOrBreak(r[|r| - 1]))
    ensures forall k :: 0 <= k < |r| ==> r[k] in s
  {
    var t := s[RunEnd(s, 0, IsSpaceOrBreak)..];
    var r := TrimEnd(t);
    assert forall k :: 0 <= k < |r| ==> r[k] == t[k];
    r
  }

  // ---------------------------------------------------------------------
  // getLine
  // ---------------------------------------------------------------------

  /**
   * The scan of `getLine` from position `p` with `acc` read so far: leading
   * whitespace is skipped, line terminators end a non-empty line, and the
   * end of the input ends the last one. Also gives the cursor it stops at.
   */
  function ScanLine(input: string, p: nat, acc: string): (r: (string, nat))
    requires p <= |input|
    requires NoBreaks(acc) && (acc == [] || !IsWhiteSpace(acc[0]))
    decreases |input| - p
    ensures p <= r.1 <= |input|
    ensures NoBreaks(r.0)
    ensures r.0 == [] || (!IsSpaceOrBreak(r.0[0]) && !IsSpaceOrBreak(r.0[|r.0| - 1]))
  {
    if p == |input| then (Trim(acc), |input|)
    else
      var c := input[p];
      if IsLineTerminator(c) then
        (if acc != [] then (Trim(acc), p) else ScanLine(input, p + 1, acc))
      else if !IsWhiteSpace(c) || acc != [] then ScanLine(input, p + 1, acc + [c])
      else ScanLine(input, p + 1, acc)
  }

  /** One call of `getLine` with the cursor at `index`: the line, or None past the end. */
  function LineAt(input: string, index: int): (r: (Option<string>, int))
    requires -1 <= index
    ensures r.0.None? <==> index >= |input|
    ensures r.0.Some? ==> index < r.1 <= |input|
  {
    if index >= |input| then (None, index)
    else
      var s := ScanLine(input, index + 1, "");
      (Some(s.0), s.1)
  }

  /** The lines `parse` reads: `getLine` until it returns nothing or an empty line. */
  function LinesFrom(input: string, index: int): seq<string>
    requires -1 <= index
    decreases |input| - index
  {
    var (line, next) := LineAt(input, index);
    if line.None? || line.value == "" then [] else [line.value] + LinesFrom(input, next)
  }

  function Lines(input: string): seq<string>
  {
    LinesFrom(input, -1)
  }

  /** Every line read is non-empty, holds no line terminator and is trimmed. */
  lemma {:induction false} LinesTrimmed(input: string, index: int)
    requires -1 <= index
    decreases |input| - index
    ensures forall l :: l in LinesFrom(input, index) ==>
      l != [] && NoBreaks(l) && !IsSpaceOrBreak(l[0]) && !IsSpaceOrBreak(l[|l| - 1])
  {
    var (line, next) := LineAt(input, index);
    if line.Some? && line.value != "" {
      LinesTrimmed(input, next);
    }
  }

  // ---------------------------------------------------------------------
  // The three regular expressions (over lines without line terminators)
  // ---------------------------------------------------------------------

  predicate NotSpace(c: char)
  {
    !IsSpaceOrBreak(c)
  }

  /** `/^(?:#|\/\/)\s*(.+)/`: '#' or "//" followed by at least one character. */
  predicate IsComment(line: string)
  {
    (StartsWith(line, "#") && |line| >= 2) || (StartsWith(line, "//") && |line| >= 3)
  }

  datatype EntryHeader = EntryHeader(entryType: string, entryKey: string, opens: bool)

  /** `/(\S+)\s+(\S+)(\s+{)?/`: the first two words, and whether "{" follows them. */
  function MatchStartEntry(line: string): (r: Option<EntryHeader>)
    ensures r.Some? ==> r.value.entryType != [] && r.value.entryKey != []
  {
    var i0 := RunEnd(line, 0, IsSpaceOrBreak);
    if i0 == |line| then None
    else
      var j := RunEnd(line, i0, NotSpace);
      var k := RunEnd(line, j, IsSpaceOrBreak);
      if k == j || k == |line| then None
      else
        var m := RunEnd(line, k, NotSpace);
        var n := RunEnd(line, m, IsSpaceOrBreak);
        Some(EntryHeader(line[i0..j], line[k..m], n > m && n < |line| && line[n] == '{'))
  }

  datatype EntryProperty = EntryProperty(name: string, value: string)

  /** `/(\S+)(?:\s+(.+))/`: the first word and everything after the space that follows it. */
  function MatchProperty(line: string): (r: Option<EntryProperty>)
    ensures r.Some? ==> r.value.name != [] && r.value.value != []
  {
    var i0 := RunEnd(line, 0, IsSpaceOrBreak);
    if i0 == |line| then None
    else
      var j := RunEnd(line, i0, NotSpace);
      var k := RunEnd(line, j, IsSpaceOrBreak);
      if k == j then None
      else if k < |line| then Some(EntryProperty(line[i0..j], line[k..]))
      else if k - j >= 2 then Some(EntryProperty(line[i0..j], line[k - 1..]))
      else None
  }

  predicate Word(w: string)
  {
    w != [] && forall k :: 0 <= k < |w| ==> NotSpace(w[k])
  }

  predicate Spaces(s: string)
  {
    s != [] && forall k :: 0 <= k < |s| ==> IsSpaceOrBreak(s[k])
  }

  /** Where each of four concatenated parts sits in the whole. */
  lemma PartsAt(p0: string, p1: string, p2: string, p3: string)
    ensures var line, a := p0 + p1 + p2 + p3, |p0|;
      var b, c := a + |p1|, a + |p1| + |p2|;
      |line| == c + |p3| &&
      (forall i :: 0 <= i < a ==> line[i] == p0[i]) &&
      (forall i :: a <= i < b ==> line[i] == p1[i - a]) &&
      (forall i :: b <= i < c ==> line[i] == p2[i - b]) &&
      (forall i :: c <= i < |line| ==> line[i] == p3[i - c])
  {
  }

  /** The runs `MatchStartEntry` finds on a line that begins with two words. */
  lemma HeaderRuns(t: string, sep: string, key: string, rest: string)
    requires Word(t) && Spaces(sep) && Word(key)
    requires rest != [] ==> IsSpaceOrBreak(rest[0])
    ensures var line := t + sep + key + rest;
      RunEnd(line, 0, IsSpaceOrBreak) == 0 &&
      RunEnd(line, 0, NotSpace) == |t| &&
      RunEnd(line, |t|, IsSpaceOrBreak) == |t| + |sep| &&
      RunEnd(line, |t| + |sep|, NotSpace) == |t| + |sep| + |key| &&
      line[..|t|] == t && line[|t| + |sep|..|t| + |sep| + |key|] == key
  {
    var line := t + sep + key + rest;
    var a, b, c := |t|, |t| + |sep|, |t| + |sep| + |key|;
    PartsAt(t, sep, key, rest);
    assert line[0] == t[0];
    RunEndAt(line, 0, IsSpaceOrBreak, 0);
    assert line[a] == sep[0];
    RunEndAt(line, 0, NotSpace, a);
    assert line[b] == key[0];
    RunEndAt(line, a, IsSpaceOrBreak, b);
    assert c < |line| ==> line[c] == rest[0];
    RunEndAt(line, b, NotSpace, c);
    assert line[..a] == t;
    assert line[b..c] == key;
  }

  /** A header of two words without "{" matches back to them, not opening the entry. */
  lemma MatchHeaderLine(t: string, sep: string, key: string)
    requires Word(t) && Spaces(sep) && Word(key)
    ensures MatchStartEntry(t + sep + key) == Some(EntryHeader(t, key, false))
  {
    var line := t + sep + key;
    HeaderRuns(t, sep, key, "");
    assert line + "" == line;
    RunEndAt(line, |line|, IsSpaceOrBreak, |line|);
  }

  /** `MatchStartEntry` on a line whose runs end at `a`, `b`, `c` and `n`. */
  lemma MatchStartEntryAt(line: string, a: nat, b: nat, c: nat, n: nat)
    requires 0 < a < b < c <= n <= |line|
    requires RunEnd(line, 0, IsSpaceOrBreak) == 0 && RunEnd(line, 0, NotSpace) == a
    requires RunEnd(line, a, IsSpaceOrBreak) == b && RunEnd(line, b, NotSpace) == c
    requires RunEnd(line, c, IsSpaceOrBreak) == n
    ensures MatchStartEntry(line) == Some(EntryHeader(line[0..a], line[b..c], n > c && n < |line| && line[n] == '{'))
  {
  }

  /** Spaces then "{" after `prefix`: the run of spaces ends at the brace. */
  lemma OpeningTail(prefix: string, sep2: string)
    requires Spaces(sep2)
    ensures var line, n := prefix + (sep2 + "{"), |prefix| + |sep2|;
      n < |line| && line[n] == '{' && RunEnd(line, |prefix|, IsSpaceOrBreak) == n
  {
    var line, n := prefix + (sep2 + "{"), |prefix| + |sep2|;
    assert forall i :: |prefix| <= i < n ==> line[i] == sep2[i - |prefix|];
    assert line[n] == '{';
    RunEndAt(line, |prefix|, IsSpaceOrBreak, n);
  }

  /** A header of two words, spaces and "{" matches back to them and opens the entry. */
  lemma MatchOpeningHeaderLine(t: string, sep: string, key: string, sep2: string)
    requires Word(t) && Spaces(sep) && Word(key) && Spaces(sep2)
    ensures MatchStartEntry(t + sep + key + (sep2 + "{")) == Some(EntryHeader(t, key, true))
  {
    var rest := sep2 + "{";
    var line := t + sep + key + rest;
    var a, b, c := |t|, |t| + |sep|, |t| + |sep| + |key|;
    assert rest[0] == sep2[0];
    HeaderRuns(t, sep, key, rest);
    OpeningTail(t + sep + key, sep2);
    MatchStartEntryAt(line, a, b, c, c + |sep2|);
    assert line[0..a] == line[..a];
  }

  /** "Name value" matches back to its name and value. */
  lemma MatchPropertyLine(name: string, sep: string, value: string)
    requires Word(name) && Spaces(sep) && value != [] && NotSpace(value[0])
    ensures MatchProperty(name + sep + value) == Some(EntryProperty(name, value))
  {
    var line := name + sep + value;
    var a, b := |name|, |name| + |sep|;
    assert forall i :: 0 <= i < a ==> line[i] == name[i];
    assert forall i :: a <= i < b ==> line[i] == sep[i - a];
    assert line[b] == value[0];
    RunEndAt(line, 0, IsSpaceOrBreak, 0);
    RunEndAt(line, 0, NotSpace, a);
    RunEndAt(line, a, IsSpaceOrBreak, b);
    assert line[..a] == name && line[b..] == value;
  }

  // ---------------------------------------------------------------------
  // parseInt and the entry key
  // ---------------------------------------------------------------------

  predicate IsDecDigit(c: char)
  {
    '0' <= c <= '9'
  }

  predicate IsHexDigit(c: char)
  {
    '0' <= c <= '9' || 'a' <= c <= 'f' || 'A' <= c <= 'F'
  }

  function HexDigitValue(c: char): nat
    requires IsHexDigit(c)
  {
    if '0' <= c <= '9' then c as int - '0' as int
    else if 'a' <= c <= 'f' then c as int - 'a' as int + 10
    else c as int - 'A' as int + 10
  }

  function HexValue(s: string): nat
    requires forall i :: 0 <= i < |s| ==> IsHexDigit(s[i])
  {
    if s == [] then 0 else HexValue(s[..|s| - 1]) * 16 + HexDigitValue(s[|s| - 1])
  }

  /**
   * `parseInt(s)` with no radix: leading whitespace and one sign are
   * skipped, "0x"/"0X" selects hexadecimal, and the longest run of digits
   * is read; None stands for NaN, when that run is empty.
   */
  function ParseInt(s: string): (r: Option<int>)
  {
    var t := s[RunEnd(s, 0, IsSpaceOrBreak)..];
    var negative := |t| > 0 && t[0] == '-';
    var u := if |t| > 0 && (t[0] == '-' || t[0] == '+') then t[1..] else t;
    var sign := if negative then -1 else 1;
    if |u| >= 2 && u[0] == '0' && (u[1] == 'x' || u[1] == 'X') then
      var h := u[2..RunEnd(u, 2, IsHexDigit)];
      if h == [] then None else Some(sign * HexValue(h))
    else
      var d := u[..RunEnd(u, 0, IsDecDigit)];
      if d == [] then None else Some(sign * DigitsValue(d))
  }

  /** A decimal rendering reads back as the number. */
  lemma ParseIntOfDecimal(n: nat)
    ensures ParseInt(NatToString(n)) == Some(n)
  {
    var s := NatToString(n);
    RunEndAt(s, 0, IsSpaceOrBreak, 0);
    assert s[0..] == s;
    RunEndAt(s, 0, IsDecDigit, |s|);
    assert s[..|s|] == s;
    DigitsValueOfNatToString(n);
  }

  /** A key that begins with a letter other than a sign or a digit is not a number. */
  lemma ParseIntOfName(s: string)
    requires s != [] && ('A' <= s[0] <= 'Z' || 'a' <= s[0] <= 'z' || s[0] == '_')
    ensures ParseInt(s) == None
  {
    RunEndAt(s, 0, IsSpaceOrBreak, 0);
    assert s[0..] == s;
    RunEndAt(s, 0, IsDecDigit, 0);
  }

  datatype EntryKey = NumberKey(number: int) | StringKey(text: string)

  /** `isNaN(parseInt(key)) ? key : parseInt(key)`. */
  function KeyOf(key: string): (r: EntryKey)
    ensures r.StringKey? <==> ParseInt(key).None?
    ensures r.StringKey? ==> r.text == key
    ensures r.NumberKey? ==> Some(r.number) == ParseInt(key)
  {
    var n := ParseInt(key);
    if n.None? then StringKey(key) else NumberKey(n.value)
  }

  // ---------------------------------------------------------------------
  // Grouping the properties of an entry
  // ---------------------------------------------------------------------

  datatype Property = Property(name: string, values: seq<string>)

  /** `properties[name] = (properties[name] || []).concat(value)`. */
  function AddValue(ps: seq<Property>, name: string, value: string): seq<Property>
  {
    if ps == [] then [Property(name, [value])]
    else if ps[0].name == name then [ps[0].(values := ps[0].values + [value])] + ps[1..]
    else [ps[0]] + AddValue(ps[1..], name, value)
  }

  function Group(props: seq<EntryProperty>): seq<Property>
  {
    if props == [] then []
    else
      var p := props[|props| - 1];
      AddValue(Group(props[..|props| - 1]), p.name, p.value)
  }

  /** The values stored under `name`, or none. */
  function ValuesOf(ps: seq<Property>, name: string): seq<string>
  {
    if ps == [] then [] else if ps[0].name == name then ps[0].values else ValuesOf(ps[1..], name)
  }

  /** The values given for `name`, in the order they appear. */
  function ValuesFor(props: seq<EntryProperty>, name: string): seq<string>
  {
    if props == [] then []
    else
      var p := props[|props| - 1];
      ValuesFor(props[..|props| - 1], name) + (if p.name == name then [p.value] else [])
  }

  lemma {:induction false} AddValueValues(ps: seq<Property>, name: string, value: string, query: string)
    ensures ValuesOf(AddValue(ps, name, value), query) == ValuesOf(ps, query) + (if name == query then [value] else [])
  {
    if ps != [] && ps[0].name != name {
      AddValueValues(ps[1..], name, value, query);
      var r := AddValue(ps, name, value);
      assert r[1..] == AddValue(ps[1..], name, value);
    }
  }

  /** Repeated property names accumulate their values in order of appearance. */
  lemma {:induction false} GroupValues(props: seq<EntryProperty>, query: string)
    ensures ValuesOf(Group(props), query) == ValuesFor(props, query)
  {
    if props != [] {
      var p := props[|props| - 1];
      GroupValues(props[..|props| - 1], query);
      AddValueValues(Group(props[..|props| - 1]), p.name, p.value, query);
    }
  }

  /** The grouping loop of the closing brace. */
  method GroupProperties(props: seq<EntryProperty>) returns (ps: seq<Property>)
    ensures ps == Group(props)
  {
    ps := [];
    var i := 0;
    while i < |props|
      invariant 0 <= i <= |props|
      invariant ps == Group(props[..i])
    {
      assert props[..i + 1][..i] == props[..i];
      ps := AddValue(ps, props[i].name, props[i].value);
      i := i + 1;
    }
    assert props[..i] == props;
  }

  // ---------------------------------------------------------------------
  // The state machine of parse
  // ---------------------------------------------------------------------

  datatype ConfigEntry = ConfigEntry(entryType: string, key: EntryKey, properties: seq<Property>)

  datatype ConfigFile = ConfigFile(entries: seq<ConfigEntry>)

  datatype ParseState = ParseState(
    inEntry: bool,
    entryType: Option<string>,
    entryKey: Option<string>,
    properties: seq<EntryProperty>,
    entries: seq<ConfigEntry>)

  const Initial := ParseState(false, None, None, [], [])

  /** A JavaScript string that is defined and non-empty. */
  predicate Truthy(s: Option<string>)
  {
    s.Some? && s.value != ""
  }

  /** Whether `line` closes the open entry in state `st`. */
  predicate Closes(st: ParseState, line: string)
  {
    !IsComment(line) && st.inEntry && Truthy(st.entryKey) && Truthy(st.entryType) &&
    MatchProperty(line).None? && line == "}"
  }

  /** One iteration of the loop of `parse`. */
  function Step(st: ParseState, line: string): ParseState
  {
    if IsComment(line) then st
    else if !st.inEntry && !Truthy(st.entryType) && !Truthy(st.entryKey) && MatchStartEntry(line).Some? then
      var h := MatchStartEntry(line).value;
      st.(entryType := Some(Upper(h.entryType)), entryKey := Some(h.entryKey), inEntry := h.opens)
    else if !st.inEntry && Truthy(st.entryType) && Truthy(st.entryKey) && line == "{" then
      st.(inEntry := true)
    else if st.inEntry && Truthy(st.entryKey) && Truthy(st.entryType) then
      var m := MatchProperty(line);
      if m.Some? then
        st.(properties := st.properties + [EntryProperty(Upper(m.value.name), m.value.value)])
      else if line == "}" then
        var entry := ConfigEntry(st.entryType.value, KeyOf(st.entryKey.value), Group(st.properties));
        ParseState(false, None, None, [], st.entries + [entry])
      else st
    else st
  }

  function Steps(st: ParseState, lines: seq<string>): ParseState
    decreases |lines|
  {
    if lines == [] then st else Steps(Step(st, lines[0]), lines[1..])
  }

  /**
   * A line emits an entry exactly when it is the "}" of an open entry; the
   * emitted entry carries the header's type and key and the grouped
   * properties, and the state then starts afresh.
   */
  lemma StepEmits(st: ParseState, line: string)
    ensures var r := Step(st, line);
      (Closes(st, line) ==> r == ParseState(false, None, None, [], st.entries +
        [ConfigEntry(st.entryType.value, KeyOf(st.entryKey.value), Group(st.properties))])) &&
      (!Closes(st, line) ==> r.entries == st.entries)
  {
  }

  /** Without a closing line, no entry is emitted: an unterminated entry never appears. */
  lemma {:induction false} UnterminatedNotEmitted(st: ParseState, lines: seq<string>)
    requires forall i :: 0 <= i < |lines| ==> lines[i] != "}"
    decreases |lines|
    ensures Steps(st, lines).entries == st.entries
  {
    if lines != [] {
      StepEmits(st, lines[0]);
      UnterminatedNotEmitted(Step(st, lines[0]), lines[1..]);
    }
  }

  /** Emitted entries are never changed or dropped by later lines. */
  lemma {:induction false} EntriesOnlyGrow(st: ParseState, lines: seq<string>)
    decreases |lines|
    ensures st.entries <= Steps(st, lines).entries
  {
    if lines != [] {
      StepEmits(st, lines[0]);
      EntriesOnlyGrow(Step(st, lines[0]), lines[1..]);
    }
  }

  /** A header without "{" waits for a standalone "{" line, which opens the entry. */
  lemma HeaderThenBrace(t: string, sep: string, key: string)
    requires Word(t) && Spaces(sep) && Word(key) && t[0] != '#' && t[0] != '/'
    ensures var s := Steps(Initial, [t + sep + key, "{"]);
      s.inEntry && s.entryType == Some(Upper(t)) && s.entryKey == Some(key) && s.entries == []
  {
    var line := t + sep + key;
    MatchHeaderLine(t, sep, key);
    assert line[0] == t[0];
    StepOnHeader(line, EntryHeader(t, key, false));
    var s1 := Step(Initial, line);
    var s2 := Step(s1, "{");
    assert s2 == s1.(inEntry := true);
    assert Steps(s1, ["{"]) == Steps(s2, []);
    assert Steps(Initial, [line, "{"]) == Steps(s1, ["{"]);
  }

  /** A header ending in "{" opens the entry at once. */
  lemma HeaderWithBrace(t: string, sep: string, key: string, sep2: string)
    requires Word(t) && Spaces(sep) && Word(key) && Spaces(sep2) && t[0] != '#' && t[0] != '/'
    ensures var s := Step(Initial, t + sep + key + (sep2 + "{"));
      s.inEntry && s.entryType == Some(Upper(t)) && s.entryKey == Some(key)
  {
    var line := t + sep + key + (sep2 + "{");
    MatchOpeningHeaderLine(t, sep, key, sep2);
    assert line[0] == t[0];
    StepOnHeader(line, EntryHeader(t, key, true));
  }

  /** From the initial state, a header line that is not a comment starts its entry. */
  lemma StepOnHeader(line: string, h: EntryHeader)
    requires line != [] && line[0] != '#' && line[0] != '/' && MatchStartEntry(line) == Some(h)
    ensures Step(Initial, line) == ParseState(h.opens, Some(Upper(h.entryType)), Some(h.entryKey), [], [])
  {
    assert !IsComment(line);
  }

  // ---------------------------------------------------------------------
  // The parser
  // ---------------------------------------------------------------------

  class Parser {
    const input: string

    constructor(input: string)
      ensures this.input == input
    {
      this.input := input;
    }

    /** `getLine`: the closure's cursor is passed in and handed back. */
    method GetLine(index: int) returns (line: Option<string>, next: int)
      requires -1 <= index
      ensures (line, next) == LineAt(input, index)
    {
      if index >= |input| {
        return None, index;
      }
      var acc := "";
      next := index;
      while next < |input| - 1
        invariant index <= next <= |input| - 1
        invariant NoBreaks(acc) && (acc == [] || !IsWhiteSpace(acc[0]))
        invariant ScanLine(input, next + 1, acc) == ScanLine(input, index + 1, "")
      {
        next := next + 1;
        var c := input[next];
        if IsLineTerminator(c) {
          if acc != "" {
            return Some(Trim(acc)), next;
          }
        } else if !IsWhiteSpace(c) || acc != "" {
          acc := acc + [c];
        }
      }
      next := next + 1;
      line := Some(Trim(acc));
    }

    /** One line of the loop of `parse`. */
    method ProcessLine(st: ParseState, line: string) returns (r: ParseState)
      ensures r == Step(st, line)
    {
      r := st;
      if IsComment(line) {
      } else if !st.inEntry && !Truthy(st.entryType) && !Truthy(st.entryKey) && MatchStartEntry(line).Some? {
        var h := MatchStartEntry(line).value;
        r := r.(entryType := Some(Upper(h.entryType)), entryKey := Some(h.entryKey), inEntry := h.opens);
      } else if !st.inEntry && Truthy(st.entryType) && Truthy(st.entryKey) && line == "{" {
        r := r.(inEntry := true);
      } else if st.inEntry && Truthy(st.entryKey) && Truthy(st.entryType) {
        var m := MatchProperty(line);
        if m.Some? {
          r := r.(properties := st.properties + [EntryProperty(Upper(m.value.name), m.value.value)]);
        } else if line == "}" {
          var grouped := GroupProperties(st.properties);
          var entry := ConfigEntry(st.entryType.value, KeyOf(st.entryKey.value), grouped);
          r := ParseState(false, None, None, [], st.entries + [entry]);
        }
      }
    }

    /** `parse`: the entries the state machine emits over the lines of the input. */
    method Parse() returns (result: ConfigFile)
      ensures result == ConfigFile(Steps(Initial, Lines(input)).entries)
    {
      var st := Initial;
      var index := -1;
      while true
        invariant -1 <= index <= |input|
        invariant Steps(Initial, Lines(input)) == Steps(st, LinesFrom(input, index))
        decreases |input| - index
      {
        var line, next := GetLine(index);
        if line.None? || line.value == "" {
          break;
        }
        assert LinesFrom(input, index) == [line.value] + LinesFrom(input, next);
        st := ProcessLine(st, line.value);
        index := next;
      }
      result := ConfigFile(st.entries);
    }
  }
}
