/**
 * The debugger client's framing: messages travel as
 * "Content-Length: N\r\n\r\n" followed by N characters, as in the base
 * protocol of the Debug Adapter Protocol. `OnData` decodes every complete
 * frame in the read buffer, `Write` encodes one, and `Request` numbers the
 * requests it sends.
 *
 * JSON is outside the model: a frame's body is delivered as text, and the
 * text of a request is produced by a `serialize` parameter.
 */
module DebugClient {
  import opened Common
  import ConfigParser

  const Header: string := "Content-Length: "
  const Separator: string := "\r\n\r\n"

  /** The read buffer may grow to this many characters while no header is in sight. */
  const MaxUnframed: nat := 4096

  predicate IsAsciiDigit(c: char)
  {
    '0' <= c <= '9'
  }

  /** `write`'s frame around an already serialized message. */
  function Encode(str: string): string
  {
    Header + NatToString(|str|) + Separator + str
  }

  /** A header found by /^Content-Length: (\d+)\r\n\r\n/m: where it starts, the length it gives, where the body starts. */
  datatype HeaderMatch = HeaderMatch(pos: nat, length: nat, start: nat)

  /** `^` under the `m` flag: the start of the text or just after a line terminator. */
  predicate LineStart(buf: string, i: nat)
    requires i <= |buf|
  {
    i == 0 || ConfigParser.IsLineTerminator(buf[i - 1])
  }

  /** `t` occurs in `buf` at `i`. */
  predicate TextAt(buf: string, i: nat, t: string)
  {
    i + |t| <= |buf| && buf[i..i + |t|] == t
  }

  /** Where the run of ASCII digits starting at `i` ends, taking as many as there are. */
  function DigitsEnd(buf: string, i: nat): (r: nat)
    requires i <= |buf|
    decreases |buf| - i
    ensures i <= r <= |buf|
  {
    if i == |buf| || !IsAsciiDigit(buf[i]) then i else DigitsEnd(buf, i + 1)
  }

  /** A run that ends with a non-digit or with the text ends there. */
  lemma {:induction false} DigitsEndAt(buf: string, i: nat, r: nat)
    requires i <= r <= |buf|
    requires forall k :: i <= k < r ==> IsAsciiDigit(buf[k])
    requires r < |buf| ==> !IsAsciiDigit(buf[r])
    decreases r - i
    ensures DigitsEnd(buf, i) == r
  {
    if i < r {
      DigitsEndAt(buf, i + 1, r);
    }
  }

  /** The decimal value of the digits `buf[a..d]`, as `parseInt` reads them. */
  function LengthField(buf: string, a: nat, d: nat): nat
    requires a <= d <= |buf|
    decreases d - a
  {
    if d == a then 0 else LengthField(buf, a, d - 1) * 10 + DigitValue(buf[d - 1])
  }

  /** The value of one decimal digit; only ever asked of digits. */
  function DigitValue(c: char): nat
  {
    if IsAsciiDigit(c) then c as int - '0' as int else 0
  }

  /** The length field is the value of its digits as a string. */
  lemma {:induction false} LengthFieldValue(buf: string, a: nat, d: nat)
    requires a <= d <= |buf|
    requires forall k :: a <= k < d ==> IsAsciiDigit(buf[k])
    decreases d - a
    ensures forall k :: 0 <= k < |buf[a..d]| ==> '0' <= buf[a..d][k] <= '9'
    ensures LengthField(buf, a, d) == DigitsValue(buf[a..d])
  {
    assert forall k :: 0 <= k < |buf[a..d]| ==> buf[a..d][k] == buf[a + k];
    if d > a {
      LengthFieldValue(buf, a, d - 1);
      assert buf[a..d][..d - 1 - a] == buf[a..d - 1];
    }
  }

  /** The regex matched at `i`, taking the longest run of digits as `\d+` does. */
  function HeaderAt(buf: string, i: nat): (r: Option<HeaderMatch>)
    requires i <= |buf|
    ensures r.Some? ==> r.value.pos == i && i + |Header| + 1 + |Separator| <= r.value.start <= |buf|
  {
    MatchWith(buf, i, Header, Separator)
  }

  /** `HeaderAt` is the generic match read with the protocol's header and separator. */
  lemma HeaderAtIsMatch(buf: string, i: nat)
    requires i <= |buf|
    ensures HeaderAt(buf, i) == MatchWith(buf, i, Header, Separator)
  {
  }

  /** The same match for any header text `hd` and separator `sp`. */
  function MatchWith(buf: string, i: nat, hd: string, sp: string): (r: Option<HeaderMatch>)
    requires i <= |buf|
    ensures r.Some? ==> r.value.pos == i && i + |hd| + 1 + |sp| <= r.value.start <= |buf|
  {
    if !LineStart(buf, i) || !TextAt(buf, i, hd) then None
    else
      var d := DigitsEnd(buf, i + |hd|);
      if d == i + |hd| || !TextAt(buf, d, sp) then None
      else Some(HeaderMatch(i, LengthField(buf, i + |hd|, d), d + |sp|))
  }

  /** The leftmost match at or after `from`. */
  function FindHeader(buf: string, from: nat): (r: Option<HeaderMatch>)
    requires from <= |buf|
    decreases |buf| - from
    ensures r.Some? ==> from <= r.value.pos <= |buf| && r.value.pos < r.value.start <= |buf|
  {
    if HeaderAt(buf, from).Some? then HeaderAt(buf, from)
    else if from == |buf| then None
    else FindHeader(buf, from + 1)
  }

  /** The search finds the leftmost match at or after `from`, and finds nothing only when there is none. */
  lemma {:induction false} FindHeaderLeftmost(buf: string, from: nat)
    requires from <= |buf|
    decreases |buf| - from
    ensures var r := FindHeader(buf, from);
      (r.Some? ==> HeaderAt(buf, r.value.pos) == r && forall j :: from <= j < r.value.pos ==> HeaderAt(buf, j).None?) &&
      (r.None? ==> forall j :: from <= j <= |buf| ==> HeaderAt(buf, j).None?)
  {
    if HeaderAt(buf, from).None? && from < |buf| {
      FindHeaderLeftmost(buf, from + 1);
    }
  }

  /** One turn of `onData`'s loop. */
  datatype Decoded = Frame(message: string, rest: string) | Incomplete | BufferFull

  /**
   * A complete frame is taken out and the buffer becomes what follows its
   * body; a header whose body has not all arrived waits; with no header,
   * more than 4096 characters is an error.
   */
  function DecodeStep(buf: string): (r: Decoded)
    ensures r.Frame? ==> |r.rest| < |buf|
    ensures r.BufferFull? <==> FindHeader(buf, 0).None? && |buf| > MaxUnframed
  {
    DecodeAt(buf, FindHeader(buf, 0))
  }

  /** The same turn once the header search has given `h`. */
  function DecodeAt(buf: string, h: Option<HeaderMatch>): Decoded
    requires h.Some? ==> h.value.start <= |buf|
  {
    if h.None? then (if |buf| > MaxUnframed then BufferFull else Incomplete)
    else if |buf| >= h.value.start + h.value.length then
      Frame(buf[h.value.start..h.value.start + h.value.length], buf[h.value.start + h.value.length..])
    else Incomplete
  }

  /** What the client emits: a frame's body, or the 'Read buffer full?' error. */
  datatype Emitted = Message(text: string) | ReadBufferFull

  /** The outcome of one `onData` call: the events in order and the buffer left behind. */
  datatype Drained = Drained(events: seq<Emitted>, buffer: string)

  /** `onData`'s loop run to its end on `buf`. */
  function Drain(buf: string): Drained
    decreases |buf|
  {
    match DecodeStep(buf)
    case Frame(m, rest) =>
      var d := Drain(rest);
      Drained([Message(m)] + d.events, d.buffer)
    case Incomplete => Drained([], buf)
    case BufferFull => Drained([ReadBufferFull], buf)
  }

  /** Where the body of `Encode(str)` starts. */
  function BodyStart(str: string): nat
  {
    |Header| + |NatToString(|str|)| + |Separator|
  }

  /** The three parts of a buffer that begins with `a + b + c`. */
  lemma SplitPrefix(buf: string, a: string, b: string, c: string)
    requires |a| + |b| + |c| <= |buf| && buf[..|a| + |b| + |c|] == a + b + c
    ensures buf[0..|a|] == a
    ensures buf[|a|..|a| + |b|] == b
    ensures buf[|a| + |b|..|a| + |b| + |c|] == c
  {
    var p := buf[..|a| + |b| + |c|];
    assert buf[0..|a|] == p[0..|a|];
    assert buf[|a|..|a| + |b|] == p[|a|..|a| + |b|];
    assert buf[|a| + |b|..|a| + |b| + |c|] == p[|a| + |b|..|a| + |b| + |c|];
  }

  /** A buffer that begins with `hd`, digits and `sp` matches at 0 with the digits' value. */
  lemma MatchFront(buf: string, hd: string, digits: string, sp: string)
    requires |hd| + |digits| + |sp| <= |buf| && buf[..|hd| + |digits| + |sp|] == hd + digits + sp
    requires |digits| > 0 && (forall k :: 0 <= k < |digits| ==> '0' <= digits[k] <= '9')
    requires |sp| > 0 && !IsAsciiDigit(sp[0])
    ensures MatchWith(buf, 0, hd, sp) == Some(HeaderMatch(0, DigitsValue(digits), |hd| + |digits| + |sp|))
  {
    SplitPrefix(buf, hd, digits, sp);
    FrontParts(buf, hd, digits, sp);
    MatchWithIntro(buf, 0, hd, sp, |hd| + |digits|, DigitsValue(digits));
  }

  /** The parts of the match in a buffer that begins with `hd`, digits and `sp`. */
  lemma FrontParts(buf: string, hd: string, digits: string, sp: string)
    requires |hd| + |digits| + |sp| <= |buf|
    requires buf[0..|hd|] == hd && buf[|hd|..|hd| + |digits|] == digits
    requires buf[|hd| + |digits|..|hd| + |digits| + |sp|] == sp
    requires |digits| > 0 && (forall k :: 0 <= k < |digits| ==> '0' <= digits[k] <= '9')
    requires |sp| > 0 && !IsAsciiDigit(sp[0])
    ensures TextAt(buf, 0, hd)
    ensures DigitsEnd(buf, |hd|) == |hd| + |digits|
    ensures TextAt(buf, |hd| + |digits|, sp)
    ensures LengthField(buf, |hd|, |hd| + |digits|) == DigitsValue(digits)
  {
    var n := |hd|;
    var d := n + |digits|;
    assert forall k :: n <= k < d ==> IsAsciiDigit(buf[k]) by {
      forall k | n <= k < d
        ensures IsAsciiDigit(buf[k])
      {
        assert buf[k] == digits[k - n];
      }
    }
    assert !IsAsciiDigit(buf[d]) by {
      assert buf[d] == sp[0];
    }
    DigitsEndAt(buf, n, d);
    LengthFieldValue(buf, n, d);
  }

  /** A buffer that begins with the header and digits of value `n` has that header found at its front. */
  lemma EncodedHeader(n: nat, buf: string, hd: string, digits: string, sp: string)
    requires hd == Header && sp == Separator
    requires |digits| > 0 && (forall k :: 0 <= k < |digits| ==> '0' <= digits[k] <= '9') && DigitsValue(digits) == n
    requires |hd| + |digits| + |sp| <= |buf| && buf[..|hd| + |digits| + |sp|] == hd + digits + sp
    ensures HeaderAt(buf, 0) == Some(HeaderMatch(0, n, |hd| + |digits| + |sp|))
  {
    assert !IsAsciiDigit(sp[0]) by {
      assert sp[0] == '\r';
    }
    MatchFront(buf, hd, digits, sp);
    HeaderAtIsMatch(buf, 0);
  }

  /** A frame written by `write` decodes to the message it carries, and the rest of the buffer is left. */
  lemma DecodeEncoded(str: string, more: string)
    ensures DecodeStep(Encode(str) + more) == Frame(str, more)
  {
    var e := Encode(str);
    var buf := e + more;
    var start := BodyStart(str);
    EncodeFront(str);
    assert buf[..start] == e[..start];
    HeaderOfFrame(str, buf);
    assert buf[start..] == e[start..] + more;
    assert e[start..] == str by {
      SuffixOfAppend(Header + NatToString(|str|) + Separator, str);
    }
  }

  /** Frames that arrive together are emitted one by one, in arrival order. */
  lemma DrainEncoded(str: string, more: string)
    ensures Drain(Encode(str) + more) == Drained([Message(str)] + Drain(more).events, Drain(more).buffer)
  {
    DecodeEncoded(str, more);
  }

  /** Several frames written one after another. */
  function EncodeAll(msgs: seq<string>): string
  {
    if msgs == [] then "" else Encode(msgs[0]) + EncodeAll(msgs[1..])
  }

  /** The events that emitting each message in turn produces. */
  function Messages(msgs: seq<string>): seq<Emitted>
  {
    if msgs == [] then [] else [Message(msgs[0])] + Messages(msgs[1..])
  }

  /** Any number of written frames decode to their messages, in order, leaving an empty buffer. */
  lemma {:induction false} DrainEncodeAll(msgs: seq<string>)
    ensures Drain(EncodeAll(msgs)) == Drained(Messages(msgs), "")
  {
    if msgs == [] {
      assert FindHeader("", 0).None?;
    } else {
      DrainEncodeAll(msgs[1..]);
      DrainEncoded(msgs[0], EncodeAll(msgs[1..]));
    }
  }

  /** The front of `Encode(str)`, up to its body, is the header. */
  lemma EncodeFront(str: string)
    ensures BodyStart(str) <= |Encode(str)|
    ensures Encode(str)[..BodyStart(str)] == Header + NatToString(|str|) + Separator
  {
    PrefixOfAppend(Header + NatToString(|str|) + Separator, str);
  }

  lemma PrefixOfAppend(a: string, b: string)
    ensures (a + b)[..|a|] == a
  {
  }

  /** Any buffer that agrees with `Encode(str)` up to its body has the header found at its front. */
  lemma HeaderOfFrame(str: string, buf: string)
    requires BodyStart(str) <= |buf| && buf[..BodyStart(str)] == Encode(str)[..BodyStart(str)]
    ensures FindHeader(buf, 0) == Some(HeaderMatch(0, |str|, BodyStart(str)))
  {
    FrameHeaderAt(str, buf);
  }

  /** The same buffer has the header at its front. */
  lemma FrameHeaderAt(str: string, buf: string)
    requires BodyStart(str) <= |buf| && buf[..BodyStart(str)] == Encode(str)[..BodyStart(str)]
    ensures HeaderAt(buf, 0) == Some(HeaderMatch(0, |str|, BodyStart(str)))
  {
    EncodeFront(str);
    var hd, sp := Header, Separator;
    var digits := NatToString(|str|);
    assert DigitsValue(digits) == |str| by {
      DigitsValueOfNatToString(|str|);
    }
    EncodedHeader(|str|, buf, hd, digits, sp);
  }

  /** A header whose body has only partly arrived leaves the buffer as it is, and the rest of the body completes the frame. */
  lemma PartialBodyWaits(str: string, k: nat)
    requires BodyStart(str) <= k < |Encode(str)|
    ensures Drain(Encode(str)[..k]) == Drained([], Encode(str)[..k])
    ensures Drain(Encode(str)[..k] + Encode(str)[k..]) == Drained([Message(str)], "")
  {
    var e := Encode(str);
    var part := e[..k];
    assert Drain(part) == Drained([], part) by {
      assert part[..BodyStart(str)] == e[..BodyStart(str)];
      HeaderOfFrame(str, part);
      assert DecodeStep(part) == Incomplete;
    }
    assert part + e[k..] == e + "";
    DrainEncoded(str, "");
    assert FindHeader("", 0).None?;
  }

  /**
   * Text in front of a frame that cannot begin a header (it holds no 'C')
   * and ends a line is dropped with the frame.
   */
  lemma JunkBeforeHeaderDropped(junk: string, str: string, more: string)
    requires forall i :: 0 <= i < |junk| ==> junk[i] != 'C'
    requires |junk| > 0 ==> ConfigParser.IsLineTerminator(junk[|junk| - 1])
    ensures DecodeStep(junk + Encode(str) + more) == Frame(str, more)
  {
    var buf := junk + Encode(str) + more;
    var at := |junk|;
    var h := HeaderMatch(at, |str|, at + BodyStart(str));
    assert FindHeader(buf, 0) == Some(h) by {
      JunkHeaderAt(junk, str, more, buf);
      assert buf[..at] == junk;
      JunkHoldsNoHeader(junk, buf);
      FindHeaderSkips(buf, at);
    }
    BodyAfterJunk(junk, str, more, buf);
    assert DecodeStep(buf) == DecodeAt(buf, Some(h));
  }

  /** The buffer after the frame's header holds its message and then what follows. */
  lemma BodyAfterJunk(junk: string, str: string, more: string, buf: string)
    requires buf == junk + Encode(str) + more
    ensures |junk| + BodyStart(str) + |str| <= |buf|
    ensures buf[|junk| + BodyStart(str)..|junk| + BodyStart(str) + |str|] == str
    ensures buf[|junk| + BodyStart(str) + |str|..] == more
  {
    var e := Encode(str);
    var b := |junk| + BodyStart(str);
    assert e[BodyStart(str)..] == str by {
      EncodeFront(str);
      SuffixOfAppend(Header + NatToString(|str|) + Separator, str);
    }
    assert buf[b..] == str + more by {
      assert buf[b..] == e[BodyStart(str)..] + more;
    }
    assert buf[b..b + |str|] == buf[b..][..|str|];
    assert buf[b + |str|..] == buf[b..][|str|..];
  }

  /** The frame's header is found just after the junk. */
  lemma JunkHeaderAt(junk: string, str: string, more: string, buf: string)
    requires |junk| > 0 ==> ConfigParser.IsLineTerminator(junk[|junk| - 1])
    requires buf == junk + Encode(str) + more
    ensures HeaderAt(buf, |junk|) == Some(HeaderMatch(|junk|, |str|, |junk| + BodyStart(str)))
  {
    var e := Encode(str);
    var tail := e + more;
    var hd, sp := Header, Separator;
    var m := HeaderMatch(0, |str|, BodyStart(str));
    assert buf == junk + tail;
    assert MatchWith(tail, 0, hd, sp) == Some(m) by {
      assert tail[..BodyStart(str)] == e[..BodyStart(str)];
      FrameHeaderAt(str, tail);
      HeaderAtIsMatch(tail, 0);
    }
    MatchShift(junk, tail, hd, sp);
    HeaderAtIsMatch(buf, |junk|);
  }

  /** No header starts inside junk that holds no 'C'. */
  lemma JunkHoldsNoHeader(junk: string, buf: string)
    requires forall i :: 0 <= i < |junk| ==> junk[i] != 'C'
    requires |junk| <= |buf| && buf[..|junk|] == junk
    ensures forall j :: 0 <= j < |junk| ==> HeaderAt(buf, j).None?
  {
    var hd := Header;
    assert hd[0] == 'C';
    forall j | 0 <= j < |junk| ensures HeaderAt(buf, j).None? {
      assert buf[j] == buf[..|junk|][j];
      NoMatchAt(buf, j, hd, Separator);
    }
  }

  lemma SuffixOfAppend(a: string, b: string)
    ensures (a + b)[|a|..] == b
  {
  }

  /** No header starts where the character differs from the header's first. */
  lemma NoMatchAt(buf: string, j: nat, hd: string, sp: string)
    requires j < |buf| && |hd| > 0 && buf[j] != hd[0]
    ensures MatchWith(buf, j, hd, sp).None?
  {
    if j + |hd| <= |buf| {
      assert buf[j..j + |hd|][0] == buf[j];
    }
  }

  /** Moving a match to the right of a line break: the match at the front of `tail` is found after `junk`. */
  lemma MatchShift(junk: string, tail: string, hd: string, sp: string)
    requires |junk| > 0 ==> ConfigParser.IsLineTerminator(junk[|junk| - 1])
    requires MatchWith(tail, 0, hd, sp).Some?
    ensures var h := MatchWith(tail, 0, hd, sp).value;
      MatchWith(junk + tail, |junk|, hd, sp) == Some(HeaderMatch(|junk|, h.length, |junk| + h.start))
  {
    var d0 := MatchWithElim(tail, 0, hd, sp);
    PartsShift(junk, tail, hd, sp, d0);
    LineStartAfter(junk, tail);
    MatchWithIntro(junk + tail, |junk|, hd, sp, |junk| + d0, LengthField(tail, |hd|, d0));
  }

  /** A line break at the end of `junk`, or no junk at all, is a line start for what follows. */
  lemma LineStartAfter(junk: string, tail: string)
    requires |junk| > 0 ==> ConfigParser.IsLineTerminator(junk[|junk| - 1])
    ensures LineStart(junk + tail, |junk|)
  {
    if |junk| > 0 {
      assert (junk + tail)[|junk| - 1] == junk[|junk| - 1];
    }
  }

  /** The parts of a match at the front of `tail`, read after `junk`. */
  lemma PartsShift(junk: string, tail: string, hd: string, sp: string, d0: nat)
    requires TextAt(tail, 0, hd) && d0 == DigitsEnd(tail, |hd|)
    ensures TextAt(junk + tail, |junk|, hd)
    ensures DigitsEnd(junk + tail, |junk| + |hd|) == |junk| + d0
    ensures TextAt(junk + tail, |junk| + d0, sp) == TextAt(tail, d0, sp)
    ensures LengthField(junk + tail, |junk| + |hd|, |junk| + d0) == LengthField(tail, |hd|, d0)
  {
    TextAtShift(junk, tail, 0, hd);
    TextAtShift(junk, tail, d0, sp);
    DigitsEndShift(junk, tail, |hd|);
    LengthFieldShift(junk, tail, |hd|, d0);
  }

  /** The parts of a match. */
  lemma MatchWithElim(buf: string, i: nat, hd: string, sp: string) returns (d: nat)
    requires i <= |buf| && MatchWith(buf, i, hd, sp).Some?
    ensures LineStart(buf, i) && TextAt(buf, i, hd)
    ensures i + |hd| <= |buf| && d == DigitsEnd(buf, i + |hd|)
    ensures d > i + |hd| && TextAt(buf, d, sp)
    ensures MatchWith(buf, i, hd, sp) == Some(HeaderMatch(i, LengthField(buf, i + |hd|, d), d + |sp|))
  {
    d := DigitsEnd(buf, i + |hd|);
  }

  /** The match as a consequence of its parts. */
  lemma MatchWithIntro(buf: string, i: nat, hd: string, sp: string, d: nat, n: nat)
    requires i <= |buf| && LineStart(buf, i) && TextAt(buf, i, hd)
    requires i + |hd| <= |buf| && d == DigitsEnd(buf, i + |hd|)
    requires d > i + |hd| && TextAt(buf, d, sp)
    requires n == LengthField(buf, i + |hd|, d)
    ensures MatchWith(buf, i, hd, sp) == Some(HeaderMatch(i, n, d + |sp|))
  {
  }

  /** Text found in `tail` is found at the shifted position in `junk + tail`. */
  lemma TextAtShift(junk: string, tail: string, a: nat, t: string)
    ensures TextAt(junk + tail, |junk| + a, t) == TextAt(tail, a, t)
  {
    if a + |t| <= |tail| {
      assert (junk + tail)[|junk| + a..|junk| + a + |t|] == tail[a..a + |t|];
    }
  }

  /** The length field read at the shifted position. */
  lemma {:induction false} LengthFieldShift(junk: string, tail: string, a: nat, d: nat)
    requires a <= d <= |tail|
    ensures LengthField(junk + tail, |junk| + a, |junk| + d) == LengthField(tail, a, d)
    decreases d - a
  {
    if d > a {
      LengthFieldShift(junk, tail, a, d - 1);
      assert (junk + tail)[|junk| + d - 1] == tail[d - 1];
    }
  }

  /** A run in `tail` is the same run in `junk + tail`, shifted by `|junk|`. */
  lemma {:induction false} DigitsEndShift(junk: string, tail: string, a: nat)
    requires a <= |tail|
    decreases |tail| - a
    ensures DigitsEnd(junk + tail, |junk| + a) == |junk| + DigitsEnd(tail, a)
  {
    if a < |tail| {
      assert (junk + tail)[|junk| + a] == tail[a];
      if IsAsciiDigit(tail[a]) {
        DigitsEndShift(junk, tail, a + 1);
      }
    }
  }

  /** The leftmost search passes over positions that cannot match. */
  lemma {:induction false} FindHeaderSkips(buf: string, at: nat)
    requires at <= |buf| && HeaderAt(buf, at).Some?
    requires forall j :: 0 <= j < at ==> HeaderAt(buf, j).None?
    ensures FindHeader(buf, 0) == HeaderAt(buf, at)
  {
    FindHeaderFrom(buf, 0, at);
  }

  lemma {:induction false} FindHeaderFrom(buf: string, from: nat, at: nat)
    requires from <= at <= |buf| && HeaderAt(buf, at).Some?
    requires forall j :: from <= j < at ==> HeaderAt(buf, j).None?
    decreases at - from
    ensures FindHeader(buf, from) == HeaderAt(buf, at)
  {
    if from < at {
      FindHeaderFrom(buf, from + 1, at);
    }
  }

  /** One turn of `onData`'s loop, before it changes anything: search, overflow check, and the frame's bounds. */
  method ScanFrame(buf: string) returns (r: Decoded)
    ensures r == DecodeStep(buf)
  {
    var h := FindHeader(buf, 0);
    if h.None? {
      if |buf| > MaxUnframed {
        return BufferFull;
      }
      return Incomplete;
    }
    var startIndex := h.value.start;
    var endIndex := startIndex + h.value.length;
    if |buf| >= endIndex {
      return Frame(buf[startIndex..endIndex], buf[endIndex..]);
    }
    return Incomplete;
  }

  /** The loop's invariant: draining `total` gives the events `done` followed by draining what is left, `buf`. */
  predicate DrainsThrough(total: string, done: seq<Emitted>, buf: string)
  {
    Drain(total) == Drained(done + Drain(buf).events, Drain(buf).buffer)
  }

  /** A frame taken out keeps the invariant with its message added to the events. */
  lemma DrainFrameStep(total: string, done: seq<Emitted>, buf: string)
    requires DrainsThrough(total, done, buf) && DecodeStep(buf).Frame?
    ensures |DecodeStep(buf).rest| < |buf|
    ensures DrainsThrough(total, done + [Message(DecodeStep(buf).message)], DecodeStep(buf).rest)
  {
  }

  /** An incomplete frame ends the draining: the events are those so far and the buffer stays. */
  lemma DrainIncomplete(total: string, done: seq<Emitted>, buf: string)
    requires DrainsThrough(total, done, buf) && DecodeStep(buf).Incomplete?
    ensures Drain(total) == Drained(done, buf)
  {
  }

  /** An overflowing buffer ends the draining with the error, and the buffer stays. */
  lemma DrainFull(total: string, done: seq<Emitted>, buf: string)
    requires DrainsThrough(total, done, buf) && DecodeStep(buf).BufferFull?
    ensures Drain(total) == Drained(done + [ReadBufferFull], buf)
  {
  }

  /** The client's state: the read buffer, what it has emitted and written, and its request numbering. */
  class PolDebugClient {
    var readBuffer: string
    var emitted: seq<Emitted>
    var written: seq<string>
    var nextSeq: nat
    /** The request numbers whose response handlers are still registered. */
    var pending: seq<nat>

    /** Numbers start at 1, increase, and every pending number was issued. */
    predicate Valid()
      reads this
    {
      nextSeq >= 1 &&
      Increasing(pending) &&
      (forall x :: x in pending ==> x < nextSeq)
    }

    constructor()
      ensures Valid()
      ensures readBuffer == "" && emitted == [] && written == [] && nextSeq == 1 && pending == []
    {
      readBuffer := "";
      emitted := [];
      written := [];
      nextSeq := 1;
      pending := [];
    }

    /** `onData`: the new text is appended and every complete frame is emitted. */
    method OnData(data: string)
      modifies this
      ensures readBuffer == Drain(old(readBuffer) + data).buffer
      ensures emitted == old(emitted) + Drain(old(readBuffer) + data).events
      ensures written == old(written) && nextSeq == old(nextSeq) && pending == old(pending)
    {
      readBuffer := readBuffer + data;
      ghost var total := readBuffer;
      ghost var done: seq<Emitted> := [];
      while true
        invariant emitted == old(emitted) + done
        invariant DrainsThrough(total, done, readBuffer)
        invariant written == old(written) && nextSeq == old(nextSeq) && pending == old(pending)
        decreases |readBuffer|
      {
        var step := ScanFrame(readBuffer);
        if step.BufferFull? {
          DrainFull(total, done, readBuffer);
          emitted := emitted + [ReadBufferFull];
          return;
        }
        if step.Incomplete? {
          DrainIncomplete(total, done, readBuffer);
          break;
        }
        DrainFrameStep(total, done, readBuffer);
        readBuffer := step.rest;
        emitted := emitted + [Message(step.message)];
        done := done + [Message(step.message)];
      }
    }

    /** `write`: one frame goes to the socket. */
    method Write(str: string)
      modifies this
      ensures written == old(written) + [Encode(str)]
      ensures readBuffer == old(readBuffer) && emitted == old(emitted) && nextSeq == old(nextSeq) && pending == old(pending)
    {
      written := written + [Encode(str)];
    }

    /**
     * `request`: the request takes the next number, registers its response
     * handler, and is written as one frame.
     */
    method Request(command: string, serialize: (string, nat) -> string) returns (s: nat)
      requires Valid()
      modifies this
      ensures Valid()
      ensures s == old(nextSeq) && nextSeq == old(nextSeq) + 1
      ensures pending == old(pending) + [s]
      ensures written == old(written) + [Encode(serialize(command, s))]
      ensures readBuffer == old(readBuffer) && emitted == old(emitted)
    {
      s := nextSeq;
      nextSeq := nextSeq + 1;
      AppendIncreasing(pending, s);
      pending := pending + [s];
      Write(serialize(command, s));
    }

    /** A response reaches the handler registered for its `request_seq`, which then unregisters. */
    method OnResponse(requestSeq: int) returns (matched: bool)
      requires Valid()
      modifies this
      ensures Valid()
      ensures matched <==> requestSeq in old(pending)
      ensures pending == Unregister(old(pending), requestSeq)
      ensures readBuffer == old(readBuffer) && emitted == old(emitted) && written == old(written) && nextSeq == old(nextSeq)
    {
      matched := requestSeq in pending;
      UnregisterIncreasing(pending, requestSeq);
      pending := Unregister(pending, requestSeq);
    }
  }

  /** `off('response', handler)` for the handler waiting on `s`. */
  function Unregister(pending: seq<nat>, s: int): (r: seq<nat>)
    ensures forall x :: x in r <==> x in pending && x != s
  {
    if pending == [] then []
    else if pending[0] == s then Unregister(pending[1..], s)
    else
      assert forall x :: x in pending <==> x == pending[0] || x in pending[1..];
      [pending[0]] + Unregister(pending[1..], s)
  }

  /** Strictly increasing numbers, as `seq++` hands them out. */
  predicate Increasing(pending: seq<nat>)
  {
    forall i, j :: 0 <= i < j < |pending| ==> pending[i] < pending[j]
  }

  /** A number above every pending one keeps the order when it is registered. */
  lemma AppendIncreasing(pending: seq<nat>, s: nat)
    requires Increasing(pending) && forall x :: x in pending ==> x < s
    ensures Increasing(pending + [s])
  {
    var r := pending + [s];
    forall i, j | 0 <= i < j < |r|
      ensures r[i] < r[j]
    {
      if j == |pending| {
        assert r[i] == pending[i] && pending[i] in pending;
      } else {
        assert r[i] == pending[i] && r[j] == pending[j];
      }
    }
  }

  /** Unregistering keeps the handlers in increasing order of their numbers. */
  lemma {:induction false} UnregisterIncreasing(pending: seq<nat>, s: int)
    requires Increasing(pending)
    ensures Increasing(Unregister(pending, s))
  {
    if pending != [] {
      var tail := pending[1..];
      assert Increasing(tail) by {
        forall i, j | 0 <= i < j < |tail|
          ensures tail[i] < tail[j]
        {
          assert tail[i] == pending[i + 1] && tail[j] == pending[j + 1];
        }
      }
      UnregisterIncreasing(tail, s);
      var rest := Unregister(tail, s);
      if pending[0] != s {
        var r := [pending[0]] + rest;
        forall i, j | 0 <= i < j < |r|
          ensures r[i] < r[j]
        {
          if i == 0 {
            assert r[j] == rest[j - 1] && rest[j - 1] in rest;
            FirstBelowTail(pending, rest[j - 1]);
          } else {
            assert r[i] == rest[i - 1] && r[j] == rest[j - 1];
          }
        }
      }
    }
  }

  /** In an increasing sequence, the first number is below every other one. */
  lemma FirstBelowTail(pending: seq<nat>, x: nat)
    requires Increasing(pending) && |pending| > 0 && x in pending[1..]
    ensures pending[0] < x
  {
    var k :| 0 <= k < |pending[1..]| && pending[1..][k] == x;
    assert pending[k + 1] == x;
  }

  /**
   * With increasing numbers a response matches at most one registered
   * handler: unregistering a pending number removes exactly one handler,
   * and any other number leaves the handlers as they are.
   */
  lemma {:induction false} UnregisterRemovesOne(pending: seq<nat>, s: int)
    requires Increasing(pending)
    ensures s in pending ==> |Unregister(pending, s)| == |pending| - 1
    ensures s !in pending ==> Unregister(pending, s) == pending
  {
    if pending != [] {
      var tail := pending[1..];
      assert Increasing(tail) by {
        forall i, j | 0 <= i < j < |tail|
          ensures tail[i] < tail[j]
        {
          assert tail[i] == pending[i + 1] && tail[j] == pending[j + 1];
        }
      }
      UnregisterRemovesOne(tail, s);
      if pending[0] == s {
        assert forall x :: x in tail ==> pending[0] < x by {
          forall x | x in tail
            ensures pending[0] < x
          {
            FirstBelowTail(pending, x);
          }
        }
        assert s !in tail;
      } else {
        assert s in pending <==> s in tail;
        assert pending == [pending[0]] + tail;
      }
    }
  }
}
