/** W3C trace context headers (api/rest/middleware/tracing.go). A char stands for one byte. */
module TraceParent {
  import opened Options

  // ---- Hexadecimal digits ----

  predicate LowerHex(c: char) { '0' <= c <= '9' || 'a' <= c <= 'f' }

  predicate AnyHex(c: char) { LowerHex(c) || 'A' <= c <= 'F' }

  predicate AllLowerHex(s: string) { forall i :: 0 <= i < |s| ==> LowerHex(s[i]) }

  type Nibble = n: nat | n < 16

  type Byte = n: nat | n < 256

  function Digit(n: Nibble): (c: char)
    ensures LowerHex(c) && DigitValue(c) == n
  {
    if n < 10 then ('0' as int + n) as char else ('a' as int + n - 10) as char
  }

  function DigitValue(c: char): Nibble
    requires LowerHex(c)
  {
    if c <= '9' then c as int - '0' as int else c as int - 'a' as int + 10
  }

  lemma DigitOfValue(c: char)
    requires LowerHex(c)
    ensures Digit(DigitValue(c)) == c
  {
  }

  /** `%02x` of a byte. */
  function Hex2(b: Byte): string { [Digit(b / 16), Digit(b % 16)] }

  /** strconv.ParseUint(s, 16, 8) on two lower-case digits. */
  function ParseByte(s: string): Byte
    requires |s| == 2 && AllLowerHex(s)
  {
    16 * DigitValue(s[0]) + DigitValue(s[1])
  }

  lemma Hex2Parses(b: Byte)
    ensures AllLowerHex(Hex2(b)) && ParseByte(Hex2(b)) == b
  {
  }

  lemma ParsedPrints(s: string)
    requires |s| == 2 && AllLowerHex(s)
    ensures Hex2(ParseByte(s)) == s
  {
    DigitOfValue(s[0]);
    DigitOfValue(s[1]);
  }

  function Zeros(n: nat): string { seq(n, i => '0') }

  /** hex.EncodeToString. */
  function Encode(bytes: seq<Byte>): string {
    if bytes == [] then "" else Hex2(bytes[0]) + Encode(bytes[1..])
  }

  /** Encoded bytes are lower-case digits, two a byte, and all of them zero only for zero bytes. */
  lemma {:induction false} EncodeDigits(bytes: seq<Byte>)
    ensures |Encode(bytes)| == 2 * |bytes| && AllLowerHex(Encode(bytes))
    ensures Encode(bytes) == Zeros(2 * |bytes|) <==> forall i :: 0 <= i < |bytes| ==> bytes[i] == 0
  {
    if bytes != [] {
      EncodeDigits(bytes[1..]);
      var e, rest := Encode(bytes), Encode(bytes[1..]);
      assert e[0] == Digit(bytes[0] / 16) && e[1] == Digit(bytes[0] % 16) && e[2..] == rest;
      assert forall i :: 2 <= i < |e| ==> e[i] == rest[i - 2];
      assert Zeros(2 * |bytes|)[2..] == Zeros(2 * |bytes[1..]|);
      assert DigitValue('0') == 0;
      if bytes[0] == 0 && rest == Zeros(2 * |bytes[1..]|) {
        assert e == Zeros(2 * |bytes|);
      }
      if e == Zeros(2 * |bytes|) {
        assert e[0] == '0' && e[1] == '0';
        assert bytes[0] == 0;
        assert forall i :: 1 <= i < |bytes| ==> bytes[i] == bytes[1..][i - 1];
      }
    }
  }

  const HEX_DIGITS := "0123456789abcdef"

  /** Byte `i` shows at places `2 * i` and `2 * i + 1`, its high half first. */
  lemma {:induction false} EncodedAt(bytes: seq<Byte>, i: nat)
    requires i < |bytes|
    ensures |Encode(bytes)| == 2 * |bytes|
    ensures Encode(bytes)[2 * i] == HEX_DIGITS[bytes[i] / 16]
    ensures Encode(bytes)[2 * i + 1] == HEX_DIGITS[bytes[i] % 16]
  {
    EncodeDigits(bytes);
    if i == 0 {
      DigitIs(bytes[0] / 16);
      DigitIs(bytes[0] % 16);
    } else {
      EncodedAt(bytes[1..], i - 1);
      EncodeDigits(bytes[1..]);
      assert Encode(bytes)[2..] == Encode(bytes[1..]);
    }
  }

  lemma DigitIs(n: Nibble)
    ensures Digit(n) == HEX_DIGITS[n]
  {
  }

  // ---- Parsing and printing ----

  /** The record the middleware fills in; an unset string is empty. */
  datatype Context = Context(
    traceID: string, spanID: string, parentID: string, requestID: string,
    traceParent: string, traceState: string, flags: Byte, sampled: bool)

  /** ^[0-9a-f]{2}-[0-9a-f]{32}-[0-9a-f]{16}-[0-9a-f]{2}$ */
  predicate MatchesRegex(h: string) {
    && |h| == 55
    && AllLowerHex(h[..2]) && h[2] == '-'
    && AllLowerHex(h[3..35]) && h[35] == '-'
    && AllLowerHex(h[36..52]) && h[52] == '-'
    && AllLowerHex(h[53..])
  }

  /** strings.Split with a one-byte separator. */
  function Split(s: string, sep: char): (parts: seq<string>)
    ensures |parts| > 0
  {
    if s == "" then [""]
    else if s[0] == sep then [""] + Split(s[1..], sep)
    else
      var rest := Split(s[1..], sep);
      [[s[0]] + rest[0]] + rest[1..]
  }

  lemma {:induction false} SplitNoSeparator(s: string, sep: char)
    requires sep !in s
    ensures Split(s, sep) == [s]
  {
    if s != "" {
      SplitNoSeparator(s[1..], sep);
      assert [s[0]] + s[1..] == s;
    }
  }

  lemma {:induction false} SplitFirst(s: string, sep: char, rest: string)
    requires sep !in s
    ensures Split(s + [sep] + rest, sep) == [s] + Split(rest, sep)
  {
    var whole := s + [sep] + rest;
    if s == "" {
      assert whole[1..] == rest;
    } else {
      SplitFirst(s[1..], sep, rest);
      assert whole[1..] == s[1..] + [sep] + rest;
      assert [s[0]] + s[1..] == s;
      assert ([s[1..]] + Split(rest, sep))[1..] == Split(rest, sep);
    }
  }

  lemma SplitFour(a: string, b: string, c: string, d: string)
    requires '-' !in a && '-' !in b && '-' !in c && '-' !in d
    ensures Split(a + ['-'] + (b + ['-'] + (c + ['-'] + d)), '-') == [a, b, c, d]
  {
    SplitFirst(a, '-', b + ['-'] + (c + ['-'] + d));
    SplitFirst(b, '-', c + ['-'] + d);
    SplitFirst(c, '-', d);
    SplitNoSeparator(d, '-');
  }

  function Parse(h: string): Option<Context> {
    if !MatchesRegex(h) then None
    else
      var parts := Split(h, '-');
      if |parts| != 4 then None
      else if parts[0] != "00" then None
      else if parts[1] == Zeros(32) then None
      else if parts[2] == Zeros(16) then None
      else if |parts[3]| != 2 || !AllLowerHex(parts[3]) then None
      else
        var flags := ParseByte(parts[3]);
        Some(Context(parts[1], parts[2], parts[2], "", h, "", flags, flags % 2 != 0))
  }

  /** `00-%s-%s-%02x` */
  function Print(traceID: string, spanID: string, flags: Byte): string {
    "00" + ['-'] + (traceID + ['-'] + (spanID + ['-'] + Hex2(flags)))
  }

  predicate ValidTrace(id: string) { |id| == 32 && AllLowerHex(id) && id != Zeros(32) }

  predicate ValidSpan(id: string) { |id| == 16 && AllLowerHex(id) && id != Zeros(16) }

  lemma NoDash(s: string)
    requires AllLowerHex(s)
    ensures '-' !in s
  {
  }

  /** Where the parts of a printed header stand. */
  lemma PrintedParts(t: string, s: string, flags: Byte)
    requires |t| == 32 && |s| == 16
    ensures var h := Print(t, s, flags);
      && |h| == 55 && h[..2] == "00" && h[2] == '-' && h[3..35] == t && h[35] == '-'
      && h[36..52] == s && h[52] == '-' && h[53..] == Hex2(flags)
  {
  }

  lemma PartsPrint(h: string)
    requires |h| == 55 && h[..2] == "00" && h[2] == '-' && h[35] == '-' && h[52] == '-' && AllLowerHex(h[53..])
    ensures h == Print(h[3..35], h[36..52], ParseByte(h[53..]))
  {
    ParsedPrints(h[53..]);
    assert h == h[..2] + ['-'] + (h[3..35] + ['-'] + (h[36..52] + ['-'] + h[53..]));
  }

  /** Splitting a header that matches the expression gives its four fields. */
  lemma SplitMatched(h: string)
    requires MatchesRegex(h)
    ensures Split(h, '-') == [h[..2], h[3..35], h[36..52], h[53..]]
  {
    NoDash(h[..2]);
    NoDash(h[3..35]);
    NoDash(h[36..52]);
    NoDash(h[53..]);
    SplitFour(h[..2], h[3..35], h[36..52], h[53..]);
    assert h == h[..2] + ['-'] + (h[3..35] + ['-'] + (h[36..52] + ['-'] + h[53..]));
  }

  /** A printed header of valid identifiers parses to them. */
  lemma ParsePrinted(t: string, s: string, flags: Byte)
    requires ValidTrace(t) && ValidSpan(s)
    ensures Parse(Print(t, s, flags)) == Some(Context(t, s, s, "", Print(t, s, flags), "", flags, flags % 2 != 0))
  {
    var h := Print(t, s, flags);
    PrintedParts(t, s, flags);
    Hex2Parses(flags);
    assert AllLowerHex("00");
    SplitMatched(h);
  }

  /** What a parsed header's fields print is the header. */
  lemma PrintParsed(h: string)
    requires Parse(h).Some?
    ensures var c := Parse(h).value;
      && ValidTrace(c.traceID) && ValidSpan(c.spanID)
      && Print(c.traceID, c.spanID, c.flags) == h
  {
    SplitMatched(h);
    PartsPrint(h);
  }

  /** Exactly the printed forms of valid identifiers parse. */
  lemma ParsesIff(h: string)
    ensures Parse(h).Some? <==> exists t, s, flags: Byte :: ValidTrace(t) && ValidSpan(s) && h == Print(t, s, flags)
  {
    if Parse(h).Some? {
      PrintParsed(h);
      var c := Parse(h).value;
      assert ValidTrace(c.traceID) && ValidSpan(c.spanID) && h == Print(c.traceID, c.spanID, c.flags);
    }
    if t, s, flags: Byte :| ValidTrace(t) && ValidSpan(s) && h == Print(t, s, flags) {
      ParsePrinted(t, s, flags);
    }
  }

  /** A printed header of identifiers of the right length parses exactly when both are valid. */
  lemma PrintedParsesIff(t: string, s: string, flags: Byte)
    requires |t| == 32 && |s| == 16
    ensures Parse(Print(t, s, flags)).Some? <==> ValidTrace(t) && ValidSpan(s)
  {
    if ValidTrace(t) && ValidSpan(s) {
      ParsePrinted(t, s, flags);
    }
    if Parse(Print(t, s, flags)).Some? {
      PrintedParts(t, s, flags);
      SplitMatched(Print(t, s, flags));
    }
  }

  // ---- The middleware ----

  /** The request headers read; an absent header is empty. */
  datatype Headers = Headers(traceParent: string, traceState: string, xTraceID: string, xRequestID: string)

  /** What the random source yields for this request. */
  datatype Random = Random(trace: seq<Byte>, span: seq<Byte>, request: seq<Byte>) {
    predicate Valid() { |trace| == 16 && |span| == 8 && |request| == 8 }
  }

  const TRACE_FLAGS_DEFAULT: Byte := 1

  predicate IsValidTraceID(id: string) {
    && |id| == 32
    && (forall i :: 0 <= i < |id| ==> AnyHex(id[i]))
    && id != Zeros(32)
  }

  function RequestID(hs: Headers, r: Random): string {
    if hs.xRequestID != "" then hs.xRequestID else Encode(r.request)
  }

  class TraceContext {
    var traceID: string
    var spanID: string
    var parentID: string
    var requestID: string
    var traceParent: string
    var traceState: string
    var flags: Byte
    var sampled: bool

    constructor (c: Context)
      ensures Value() == c
    {
      traceID, spanID, parentID, requestID := c.traceID, c.spanID, c.parentID, c.requestID;
      traceParent, traceState, flags, sampled := c.traceParent, c.traceState, c.flags, c.sampled;
    }

    function Value(): Context
      reads this
    {
      Context(traceID, spanID, parentID, requestID, traceParent, traceState, flags, sampled)
    }
  }

  /** A context of its own, with no parent. */
  predicate IsRoot(c: Context, traceID: string, spanID: string) {
    && c.traceID == traceID && c.spanID == spanID && c.parentID == "" && c.traceState == ""
    && c.flags == TRACE_FLAGS_DEFAULT && c.sampled
    && c.traceParent == Print(traceID, spanID, TRACE_FLAGS_DEFAULT)
  }

  /** A context that continues the incoming one. */
  predicate Continues(c: Context, incoming: Context, spanID: string, traceState: string) {
    && c.traceID == incoming.traceID && c.flags == incoming.flags && c.sampled == incoming.sampled
    && c.parentID == incoming.spanID && c.spanID == spanID && c.traceState == traceState
    && c.traceParent == Print(incoming.traceID, spanID, incoming.flags)
  }

  method GenerateNewTraceContext(r: Random) returns (ctx: TraceContext)
    requires r.Valid()
    ensures fresh(ctx) && IsRoot(ctx.Value(), Encode(r.trace), Encode(r.span)) && ctx.requestID == Encode(r.request)
  {
    var traceParent := Print(Encode(r.trace), Encode(r.span), TRACE_FLAGS_DEFAULT);
    ctx := new TraceContext(Context(Encode(r.trace), Encode(r.span), "", Encode(r.request),
      traceParent, "", TRACE_FLAGS_DEFAULT, true));
  }

  /** The caller's trace if its header parses, else a legacy identifier, else a new trace. */
  predicate Extracted(c: Context, hs: Headers, r: Random) {
    if Parse(hs.traceParent).Some? then
      && Continues(c, Parse(hs.traceParent).value, Encode(r.span), hs.traceState)
      && c.requestID == RequestID(hs, r)
    else if IsValidTraceID(hs.xTraceID) then
      IsRoot(c, hs.xTraceID, Encode(r.span)) && c.requestID == RequestID(hs, r)
    else
      IsRoot(c, Encode(r.trace), Encode(r.span)) && c.requestID == Encode(r.request)
  }

  /** A well-formed identifier of the older header: 32 digits of either case, not all zero. */
  predicate LegacyID(id: string) {
    && |id| == 32
    && (forall i :: 0 <= i < 32 ==> id[i] in "0123456789abcdefABCDEF")
    && exists i :: 0 <= i < 32 && id[i] != '0'
  }

  lemma LegacyIff(id: string)
    ensures IsValidTraceID(id) <==> LegacyID(id)
  {
    if |id| == 32 {
      assert |Zeros(32)| == 32 && forall i :: 0 <= i < 32 ==> Zeros(32)[i] == '0';
      forall i | 0 <= i < 32 ensures AnyHex(id[i]) <==> id[i] in "0123456789abcdefABCDEF" {
        HexDigitIs(id[i]);
      }
    }
  }

  lemma HexDigitIs(c: char)
    ensures AnyHex(c) <==> c in "0123456789abcdefABCDEF"
  {
    if AnyHex(c) {
      var s := "0123456789abcdefABCDEF";
      var k := if c <= '9' then c as int - '0' as int
               else if c >= 'a' then c as int - 'a' as int + 10 else c as int - 'A' as int + 16;
      assert s[k] == c;
    }
  }

  /** A request that carries the header of trace `t`, span `s` and these flags is continued: the caller's
      span is the parent, a new one is made, and the trace state is handed on. */
  lemma ContinuesCaller(c: Context, hs: Headers, r: Random, t: string, s: string, flags: Byte)
    requires r.Valid() && Extracted(c, hs, r)
    requires ValidTrace(t) && ValidSpan(s) && hs.traceParent == Print(t, s, flags)
    ensures c.traceID == t && c.parentID == s && c.spanID == Encode(r.span)
    ensures c.flags == flags && (c.sampled <==> flags % 2 == 1) && c.traceState == hs.traceState
    ensures c.requestID == if hs.xRequestID == "" then Encode(r.request) else hs.xRequestID
    ensures c.traceParent == Print(t, Encode(r.span), flags)
  {
    ParsePrinted(t, s, flags);
  }

  /** Otherwise the trace starts here, sampled and without a parent: under the older header's identifier
      where that is well formed, and then with the caller's request identifier if there is one; or else
      under a random identifier and with a random request identifier, whatever the caller sent. */
  lemma StartsTrace(c: Context, hs: Headers, r: Random)
    requires r.Valid() && Extracted(c, hs, r)
    requires forall t, s, flags: Byte :: ValidTrace(t) && ValidSpan(s) ==> hs.traceParent != Print(t, s, flags)
    ensures c.parentID == "" && c.spanID == Encode(r.span) && c.traceState == "" && c.flags == 1 && c.sampled
    ensures c.traceParent == Print(c.traceID, Encode(r.span), 1)
    ensures LegacyID(hs.xTraceID) ==> c.traceID == hs.xTraceID
    ensures LegacyID(hs.xTraceID) ==>
      c.requestID == if hs.xRequestID == "" then Encode(r.request) else hs.xRequestID
    ensures !LegacyID(hs.xTraceID) ==> c.traceID == Encode(r.trace) && c.requestID == Encode(r.request)
  {
    ParsesIff(hs.traceParent);
    LegacyIff(hs.xTraceID);
  }

  lemma ParseEmpty()
    ensures Parse("").None?
  {
  }

  lemma EmptyIsNoTraceID()
    ensures !IsValidTraceID("")
  {
  }

  method ExtractOrGenerateTraceContext(hs: Headers, r: Random) returns (ctx: TraceContext)
    requires r.Valid()
    ensures fresh(ctx) && Extracted(ctx.Value(), hs, r)
  {
    ParseEmpty();
    EmptyIsNoTraceID();
    hide Parse, Print, Encode, IsValidTraceID;
    if hs.traceParent != "" {
      var parsed := Parse(hs.traceParent);
      if parsed.Some? {
        ctx := new TraceContext(parsed.value);
        ctx.traceState := hs.traceState;
        ctx.parentID := ctx.spanID;
        ctx.spanID := Encode(r.span);
        ctx.traceParent := Print(ctx.traceID, ctx.spanID, ctx.flags);
        if hs.xRequestID != "" {
          ctx.requestID := hs.xRequestID;
        } else {
          ctx.requestID := Encode(r.request);
        }
        return;
      }
    }
    if hs.xTraceID != "" && IsValidTraceID(hs.xTraceID) {
      var spanID := Encode(r.span);
      var requestID := hs.xRequestID;
      if requestID == "" {
        requestID := Encode(r.request);
      }
      ctx := new TraceContext(Context(hs.xTraceID, spanID, "", requestID,
        Print(hs.xTraceID, spanID, TRACE_FLAGS_DEFAULT), "", TRACE_FLAGS_DEFAULT, true));
      return;
    }
    ctx := GenerateNewTraceContext(r);
  }

  predicate AllZero(bytes: seq<Byte>) { forall i :: 0 <= i < |bytes| ==> bytes[i] == 0 }

  /** In each of the three cases, exactly when the header sent downstream parses. */
  predicate Sendable(hs: Headers, r: Random) {
    && !AllZero(r.span)
    && if Parse(hs.traceParent).Some? then true
       else if IsValidTraceID(hs.xTraceID) then AllLowerHex(hs.xTraceID)
       else !AllZero(r.trace)
  }

  lemma EmittedIs(c: Context, hs: Headers, r: Random)
    requires r.Valid() && Extracted(c, hs, r)
    ensures c.traceParent == Print(c.traceID, c.spanID, c.flags) && c.spanID == Encode(r.span)
    ensures |c.traceID| == 32 && |c.spanID| == 16
    ensures ValidTrace(c.traceID) && ValidSpan(c.spanID) <==> Sendable(hs, r)
    ensures c.sampled <==> c.flags % 2 != 0
  {
    EncodeDigits(r.span);
    EncodeDigits(r.trace);
    if Parse(hs.traceParent).Some? {
      PrintParsed(hs.traceParent);
    }
  }

  /** The emitted header parses exactly when the random span identifier is not zero and the trace
      identifier is valid in lower case. A legacy identifier with an upper-case digit is
      accepted, and the header then built from it is one that the next service refuses. */
  lemma EmittedParsesIff(c: Context, hs: Headers, r: Random)
    requires r.Valid() && Extracted(c, hs, r)
    ensures Parse(c.traceParent).Some? <==> Sendable(hs, r)
  {
    EmittedIs(c, hs, r);
    PrintedParsesIff(c.traceID, c.spanID, c.flags);
  }

  /** A service that is handed the emitted header in a request stays in the trace, keeps the sampling
      decision, and takes this service's span as its parent.  The middleware itself sets it as a response
      header; forwarding it is up to whoever makes the request. */
  lemma NextHopContinues(c: Context, hs: Headers, r: Random, d: Context, hs': Headers, r': Random)
    requires r.Valid() && Extracted(c, hs, r) && Sendable(hs, r)
    requires r'.Valid() && Extracted(d, hs', r') && hs'.traceParent == c.traceParent
    ensures d.traceID == c.traceID && d.flags == c.flags && d.sampled == c.sampled && d.parentID == c.spanID
  {
    EmittedIs(c, hs, r);
    ParsePrinted(c.traceID, c.spanID, c.flags);
  }

  /** A legacy identifier the middleware accepts and the header it then emits, which does not parse. */
  lemma UpperCaseLegacyIsRefused(c: Context, r: Random)
    requires r.Valid()
    requires var id := seq(32, i => 'A'); Extracted(c, Headers("", "", id, ""), r)
    ensures c.traceID == seq(32, i => 'A') && Parse(c.traceParent).None?
  {
    var id := seq(32, i => 'A');
    assert id[0] == 'A' && Zeros(32)[0] == '0';
    assert IsValidTraceID(id);
    EmittedParsesIff(c, Headers("", "", id, ""), r);
  }
}
