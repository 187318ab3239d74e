/**
 * Small vocabulary shared by every module: optional values and the ASCII
 * string helpers the language server uses (case folding, prefixes, suffixes).
 * Case folding is ASCII only, as `Clib::mklowerASCII` and `stricmp` are; the
 * TypeScript `toLowerCase`/`toUpperCase` calls are modelled the same way.
 */
module Common {

  datatype Option<T> = None | Some(value: T)
  {
    predicate IsSome() { this.Some? }

    function GetOr(default: T): T
    {
      if this.Some? then value else default
    }
  }

  /** The outcome of an operation that may raise an error with a message. */
  datatype Result<T> = Success(value: T) | Failure(error: string)

  function ToLowerChar(c: char): (r: char)
    ensures 'A' <= c <= 'Z' ==> r as int == c as int + 32
    ensures !('A' <= c <= 'Z') ==> r == c
  {
    if 'A' <= c <= 'Z' then (c as int + 32) as char else c
  }

  function ToUpperChar(c: char): (r: char)
    ensures 'a' <= c <= 'z' ==> r as int == c as int - 32
    ensures !('a' <= c <= 'z') ==> r == c
  {
    if 'a' <= c <= 'z' then (c as int - 32) as char else c
  }

  function Lower(s: string): (r: string)
    ensures |r| == |s|
    ensures forall i :: 0 <= i < |s| ==> r[i] == ToLowerChar(s[i])
  {
    if s == [] then [] else [ToLowerChar(s[0])] + Lower(s[1..])
  }

  function Upper(s: string): (r: string)
    ensures |r| == |s|
    ensures forall i :: 0 <= i < |s| ==> r[i] == ToUpperChar(s[i])
  {
    if s == [] then [] else [ToUpperChar(s[0])] + Upper(s[1..])
  }

  lemma LowerIdempotent(s: string)
    ensures Lower(Lower(s)) == Lower(s)
  {
  }

  lemma LowerAppend(a: string, b: string)
    ensures Lower(a + b) == Lower(a) + Lower(b)
  {
  }

  predicate StartsWith(s: string, prefix: string)
  {
    |prefix| <= |s| && s[..|prefix|] == prefix
  }

  predicate EndsWith(s: string, suffix: string)
  {
    |suffix| <= |s| && s[|s| - |suffix|..] == suffix
  }

  /** Case-insensitive equality of two ASCII strings. */
  predicate EqualsIgnoreCase(a: string, b: string)
  {
    Lower(a) == Lower(b)
  }

  /** Index of the first occurrence of `c` in `s` at or after `from`, or None. */
  function IndexOfFrom(s: string, c: char, from: nat): (r: Option<nat>)
    decreases |s| - from
    ensures r.Some? ==> from <= r.value < |s| && s[r.value] == c
    ensures r.Some? ==> forall k :: from <= k < r.value ==> s[k] != c
    ensures r.None? ==> forall k :: from <= k < |s| ==> s[k] != c
  {
    if from >= |s| then None
    else if s[from] == c then Some(from)
    else IndexOfFrom(s, c, from + 1)
  }

  /** The end of the run of `p` characters starting at `i`. */
  function RunEnd(s: string, i: nat, p: char -> bool): (r: nat)
    requires i <= |s|
    decreases |s| - i
    ensures i <= r <= |s|
    ensures forall k :: i <= k < r ==> p(s[k])
    ensures r < |s| ==> !p(s[r])
  {
    if i == |s| || !p(s[i]) then i else RunEnd(s, i + 1, p)
  }

  lemma {:induction false} RunEndAt(s: string, i: nat, p: char -> bool, r: nat)
    requires i <= r <= |s|
    requires forall k :: i <= k < r ==> p(s[k])
    requires r < |s| ==> !p(s[r])
    decreases r - i
    ensures RunEnd(s, i, p) == r
  {
    if i < r {
      RunEndAt(s, i + 1, p, r);
    }
  }

  /** A run of characters satisfying `p` from `i` to `j` ends no earlier than `j`. */
  lemma {:induction false} RunEndCovers(s: string, i: nat, p: char -> bool, j: nat)
    requires i <= j <= |s|
    requires forall k :: i <= k < j ==> p(s[k])
    decreases j - i
    ensures j <= RunEnd(s, i, p)
  {
    if i < j {
      RunEndCovers(s, i + 1, p, j);
    }
  }

  /** Index of the last occurrence in `s` of a character satisfying `p`, or None. */
  function LastIndexWhere(s: string, p: char -> bool): (r: Option<nat>)
    ensures r.Some? ==> r.value < |s| && p(s[r.value])
    ensures r.Some? ==> forall k :: r.value < k < |s| ==> !p(s[k])
    ensures r.None? ==> forall k :: 0 <= k < |s| ==> !p(s[k])
  {
    if s == [] then None
    else if p(s[|s| - 1]) then Some(|s| - 1)
    else LastIndexWhere(s[..|s| - 1], p)
  }

  lemma LastIndexWhereNone(s: string, p: char -> bool)
    requires forall k :: 0 <= k < |s| ==> !p(s[k])
    ensures LastIndexWhere(s, p) == None
  {
  }

  /** The last index is determined by the position of the last match. */
  lemma LastIndexWhereAt(s: string, p: char -> bool, i: nat)
    requires i < |s| && p(s[i]) && forall k :: i < k < |s| ==> !p(s[k])
    ensures LastIndexWhere(s, p) == Some(i)
  {
  }

  /** Decimal rendering of a natural number (C++ `std::to_string`, JavaScript `${n}`). */
  function NatToString(n: nat): (r: string)
    ensures |r| >= 1
    ensures forall i :: 0 <= i < |r| ==> '0' <= r[i] <= '9'
  {
    if n < 10 then [DigitChar(n)] else NatToString(n / 10) + [DigitChar(n % 10)]
  }

  function DigitChar(d: nat): (c: char)
    requires d < 10
    ensures '0' <= c <= '9' && c as int - '0' as int == d
  {
    ('0' as int + d) as char
  }

  /** Reads back a run of decimal digits; the inverse of NatToString. */
  function DigitsValue(s: string): nat
    requires forall i :: 0 <= i < |s| ==> '0' <= s[i] <= '9'
  {
    if s == [] then 0 else DigitsValue(s[..|s| - 1]) * 10 + (s[|s| - 1] as int - '0' as int)
  }

  lemma {:induction false} DigitsValueOfNatToString(n: nat)
    ensures DigitsValue(NatToString(n)) == n
  {
    if n >= 10 {
      var s := NatToString(n / 10) + [DigitChar(n % 10)];
      assert s[..|s| - 1] == NatToString(n / 10);
      DigitsValueOfNatToString(n / 10);
    }
  }

  /** `elements` joined with `sep` between consecutive elements. */
  function Join(elements: seq<string>, sep: string): string
  {
    if elements == [] then ""
    else if |elements| == 1 then elements[0]
    else elements[0] + sep + Join(elements[1..], sep)
  }

  /** Joining one more element appends the separator and that element. */
  lemma {:induction false} JoinSnoc(elements: seq<string>, x: string, sep: string)
    ensures Join(elements + [x], sep) == if elements == [] then x else Join(elements, sep) + sep + x
    decreases |elements|
  {
    if |elements| >= 1 {
      assert (elements + [x])[1..] == elements[1..] + [x];
      JoinSnoc(elements[1..], x, sep);
    }
  }

  /** A loop that has run to the end has taken the whole sequence. */
  lemma AllTaken<T>(s: seq<T>, i: nat)
    requires i == |s|
    ensures s[..i] == s
  {
  }

  /** A non-empty sequence is its head followed by its tail. */
  lemma HeadTail<T>(s: seq<T>)
    requires s != []
    ensures [s[0]] + s[1..] == s
  {
  }
}
