/**
 The framing of messages to and from a language server: a header part that holds a
 Content-Length field, an empty line, and a content part of that many bytes
 ("Base Protocol" of the Language Server Protocol Specification 3.17;
 src/core/agent/lsp-rpc-pipeline.ts and lsp-utils-config.ts).

 A byte stream is a string in which every character stands for one byte.
 */
module LspFrames {
  import opened Options
  import opened Text

  type Bytes = string

  const DELIMITER: Bytes := "\r\n\r\n"

  // ----- the header -----

  const FIELD: Bytes := "content-length:"

  function Lower(c: char): char {
    if 'A' <= c <= 'Z' then (c as int + 32) as char else c
  }

  predicate IsDigit(c: char) {
    '0' <= c <= '9'
  }

  /** How many bytes the white space character (`\s`) at position `i` takes; 0 if there is none. */
  function SpaceLength(h: Bytes, i: nat): (n: nat)
    ensures n > 0 ==> i + n <= |h|
  {
    var a := if i < |h| then h[i] as int else 0;
    var b := if i + 1 < |h| then h[i + 1] as int else 0;
    var c := if i + 2 < |h| then h[i + 2] as int else 0;
    if 9 <= a <= 13 || a == 32 then 1
    else if a == 0xC2 && b == 0xA0 then 2
    else if a == 0xE1 && b == 0x9A && c == 0x80 then 3
    else if a == 0xE2 && b == 0x80 && (0x80 <= c <= 0x8A || c == 0xA8 || c == 0xA9 || c == 0xAF) then 3
    else if a == 0xE2 && b == 0x81 && c == 0x9F then 3
    else if a == 0xE3 && b == 0x80 && c == 0x80 then 3
    else if a == 0xEF && b == 0xBB && c == 0xBF then 3
    else 0
  }

  function SkipSpaces(h: Bytes, i: nat): (j: nat)
    ensures i <= j && (i <= |h| ==> j <= |h|)
    decreases |h| - i
  {
    if SpaceLength(h, i) > 0 then SkipSpaces(h, i + SpaceLength(h, i)) else i
  }

  function SkipDigits(h: Bytes, i: nat): (j: nat)
    ensures i <= j && (i <= |h| ==> j <= |h|)
    ensures forall k :: i <= k < j ==> k < |h| && IsDigit(h[k])
    decreases |h| - i
  {
    if i < |h| && IsDigit(h[i]) then SkipDigits(h, i + 1) else i
  }

  function ParseDecimal(digits: Bytes): nat
    requires forall k :: 0 <= k < |digits| ==> IsDigit(digits[k])
  {
    if digits == "" then 0
    else
      var last := digits[|digits| - 1];
      assert IsDigit(last);
      ParseDecimal(digits[..|digits| - 1]) * 10 + (last as int - '0' as int)
  }

  predicate FieldAt(h: Bytes, i: nat) {
    i + |FIELD| <= |h| && forall k :: 0 <= k < |FIELD| ==> Lower(h[i + k]) == FIELD[k]
  }

  /** The expression /Content-Length:\s*(\d+)/i matched at one position. */
  function MatchAt(h: Bytes, i: nat): Option<nat> {
    if !FieldAt(h, i) then None
    else
      var start := SkipSpaces(h, i + |FIELD|);
      var end := SkipDigits(h, start);
      if end == start then None else Some(ParseDecimal(h[start..end]))
  }

  function FirstMatch(h: Bytes, i: nat): Option<nat>
    decreases |h| - i
  {
    if i > |h| then None
    else if MatchAt(h, i).Some? then MatchAt(h, i)
    else FirstMatch(h, i + 1)
  }

  function ParseContentLength(header: Bytes): Option<nat> {
    FirstMatch(header, 0)
  }

  // ----- the incremental parser -----

  datatype Next = NeedMore | BadHeader | Frame(payload: Bytes, rest: Bytes)

  /** One turn of the loop that consumes the buffer. */
  function NextFrame(buffer: Bytes): (r: Next)
    ensures r.Frame? ==> |r.rest| + 4 <= |buffer|
  {
    var headerEnd := IndexOf(buffer, DELIMITER, 0);
    if headerEnd < 0 then NeedMore
    else
      match ParseContentLength(buffer[..headerEnd])
      case None => BadHeader
      case Some(contentLength) =>
        var messageStart := headerEnd + 4;
        var messageEnd := messageStart + contentLength;
        if |buffer| < messageEnd then NeedMore
        else Frame(buffer[messageStart..messageEnd], buffer[messageEnd..])
  }

  /** What the loop delivers, what it leaves in the buffer, and whether it threw. */
  datatype Drained = Drained(payloads: seq<Bytes>, leftover: Bytes, stuck: bool)

  function Drain(buffer: Bytes): Drained
    decreases |buffer|
  {
    match NextFrame(buffer)
    case NeedMore => Drained([], buffer, false)
    case BadHeader => Drained([], buffer, true)
    case Frame(payload, rest) => Deliver(payload, Drain(rest))
  }

  function Deliver(payload: Bytes, d: Drained): Drained {
    d.(payloads := [payload] + d.payloads)
  }

  /** The stream arrives in chunks, each appended to what the last one left. */
  function Feed(d: Drained, chunks: seq<Bytes>): Drained
    decreases chunks
  {
    if chunks == [] then d
    else
      var e := Drain(d.leftover + chunks[0]);
      Feed(e.(payloads := d.payloads + e.payloads), chunks[1..])
  }

  function Concat(chunks: seq<Bytes>): Bytes {
    if chunks == [] then "" else chunks[0] + Concat(chunks[1..])
  }

  // ----- the printer -----

  function Decimal(n: nat): Bytes
    decreases n
  {
    var digit := [('0' as int + n % 10) as char];
    if n < 10 then digit else Decimal(n / 10) + digit
  }

  function PrintHeader(n: nat): Bytes {
    "Content-Length: " + Decimal(n)
  }

  function PrintFrame(payload: Bytes): Bytes {
    PrintHeader(|payload|) + (DELIMITER + payload)
  }

  function PrintFrames(payloads: seq<Bytes>): Bytes {
    if payloads == [] then "" else PrintFrame(payloads[0]) + PrintFrames(payloads[1..])
  }

  // ----- chunking does not matter -----

  lemma DelimiterExtends(b: Bytes, c: Bytes)
    requires IndexOf(b, DELIMITER, 0) >= 0
    ensures IndexOf(b + c, DELIMITER, 0) == IndexOf(b, DELIMITER, 0)
  {
    var r := IndexOf(b, DELIMITER, 0);
    AtExtends(b, c, DELIMITER, r);
    forall i | 0 <= i < r ensures !At(b + c, DELIMITER, i) {
      AtExtends(b, c, DELIMITER, i);
    }
    IndexOfIs(b + c, DELIMITER, 0, r);
  }

  /** Bytes that arrive later do not change a verdict already reached. */
  lemma NextFrameExtends(b: Bytes, c: Bytes)
    ensures NextFrame(b).Frame? ==> NextFrame(b + c) == Frame(NextFrame(b).payload, NextFrame(b).rest + c)
    ensures NextFrame(b).BadHeader? ==> NextFrame(b + c).BadHeader?
  {
    var r := IndexOf(b, DELIMITER, 0);
    if r >= 0 {
      DelimiterExtends(b, c);
      assert (b + c)[..r] == b[..r];
      if NextFrame(b).Frame? {
        var end := r + 4 + ParseContentLength(b[..r]).value;
        assert (b + c)[r + 4..end] == b[r + 4..end];
        assert (b + c)[end..] == b[end..] + c;
      }
    }
  }

  lemma {:induction false} DrainExtends(b: Bytes, c: Bytes)
    ensures var d, e := Drain(b), Drain(Drain(b).leftover + c);
            Drain(b + c) == Drained(d.payloads + e.payloads, e.leftover, e.stuck)
    decreases |b|
  {
    NextFrameExtends(b, c);
    match NextFrame(b) {
      case Frame(payload, rest) =>
        DrainExtends(rest, c);
        var d, e := Drain(rest), Drain(Drain(rest).leftover + c);
        Assoc([payload], d.payloads, e.payloads);
      case _ =>
        var e := Drain(b + c);
        assert [] + e.payloads == e.payloads;
    }
  }

  lemma {:induction false} FeedExtends(b: Bytes, chunks: seq<Bytes>)
    ensures Feed(Drain(b), chunks) == Drain(b + Concat(chunks))
    decreases chunks
  {
    if chunks == [] {
      assert b + "" == b;
    } else {
      DrainExtends(b, chunks[0]);
      FeedExtends(b + chunks[0], chunks[1..]);
      Assoc(b, chunks[0], Concat(chunks[1..]));
    }
  }

  /** Payloads, leftover and the thrown error are those of the whole stream fed at once. */
  lemma ChunkingDoesNotMatter(chunks: seq<Bytes>)
    ensures Feed(Drained([], "", false), chunks) == Drain(Concat(chunks))
  {
    assert Drain("") == Drained([], "", false);
    FeedExtends("", chunks);
    assert "" + Concat(chunks) == Concat(chunks);
  }

  /** No byte is lost: the stream is its frames, each with a header that states the length, then the leftover. */
  lemma {:induction false} StreamIsFramesThenLeftover(b: Bytes) returns (headers: seq<Bytes>)
    ensures |headers| == |Drain(b).payloads|
    ensures b == Reframe(headers, Drain(b).payloads) + Drain(b).leftover
    ensures HeadersFit(headers, Drain(b).payloads)
    ensures !NextFrame(Drain(b).leftover).Frame?
    ensures Drain(b).stuck <==> NextFrame(Drain(b).leftover).BadHeader?
    decreases |b|
  {
    match NextFrame(b) {
      case Frame(payload, rest) =>
        var tail := StreamIsFramesThenLeftover(rest);
        var r := IndexOf(b, DELIMITER, 0);
        var header := b[..r];
        HeaderEndsAtDelimiter(b, r);
        headers := [header] + tail;
        FrameThenRest(b, r, payload, rest);
        var d := Drain(rest);
        assert headers[1..] == tail && ([payload] + d.payloads)[1..] == d.payloads;
        Assoc(header + (DELIMITER + payload), Reframe(tail, d.payloads), d.leftover);
      case _ =>
        headers := [];
    }
  }

  /** Each header ends at the first delimiter and states the length of its payload. */
  ghost predicate HeadersFit(headers: seq<Bytes>, payloads: seq<Bytes>)
    requires |headers| == |payloads|
  {
    headers != [] ==>
      && IndexOf(headers[0] + DELIMITER, DELIMITER, 0) == |headers[0]|
      && ParseContentLength(headers[0]) == Some(|payloads[0]|)
      && HeadersFit(headers[1..], payloads[1..])
  }

  ghost function Reframe(headers: seq<Bytes>, payloads: seq<Bytes>): Bytes
    requires |headers| == |payloads|
  {
    if headers == [] then ""
    else headers[0] + (DELIMITER + payloads[0]) + Reframe(headers[1..], payloads[1..])
  }

  lemma HeaderEndsAtDelimiter(b: Bytes, r: nat)
    requires IndexOf(b, DELIMITER, 0) == r
    ensures IndexOf(b[..r] + DELIMITER, DELIMITER, 0) == r
  {
    var h := b[..r] + DELIMITER;
    assert b[r..r + 4] == DELIMITER;
    assert h == b[..r + 4];
    assert b == h + b[r + 4..];
    forall i | 0 <= i < r ensures !At(h, DELIMITER, i) {
      AtExtends(h, b[r + 4..], DELIMITER, i);
    }
    assert At(h, DELIMITER, r);
    IndexOfIs(h, DELIMITER, 0, r);
  }

  lemma FrameThenRest(b: Bytes, r: nat, payload: Bytes, rest: Bytes)
    requires IndexOf(b, DELIMITER, 0) == r && NextFrame(b) == Frame(payload, rest)
    ensures b == b[..r] + (DELIMITER + payload) + rest
    ensures ParseContentLength(b[..r]) == Some(|payload|)
  {
    var end := r + 4 + |payload|;
    assert b[r..r + 4] == DELIMITER;
    assert b == b[..r] + (b[r..r + 4] + b[r + 4..end]) + b[end..];
  }

  // ----- printing, then parsing -----

  lemma {:induction false} DecimalRoundTrip(n: nat)
    ensures |Decimal(n)| > 0 && forall k :: 0 <= k < |Decimal(n)| ==> IsDigit(Decimal(n)[k])
    ensures ParseDecimal(Decimal(n)) == n
  {
    if n >= 10 {
      DecimalRoundTrip(n / 10);
      var d := Decimal(n);
      assert d[..|d| - 1] == Decimal(n / 10);
    } else {
      var d := Decimal(n);
      assert d[..|d| - 1] == "";
    }
  }

  lemma {:induction false} SkipAllDigits(h: Bytes, i: nat)
    requires i <= |h| && forall k :: i <= k < |h| ==> IsDigit(h[k])
    ensures SkipDigits(h, i) == |h|
    decreases |h| - i
  {
    if i < |h| {
      SkipAllDigits(h, i + 1);
    }
  }

  lemma HeaderRoundTrip(n: nat)
    ensures ParseContentLength(PrintHeader(n)) == Some(n)
  {
    var h, d := PrintHeader(n), Decimal(n);
    DecimalRoundTrip(n);
    assert forall k :: 0 <= k < |d| ==> h[16 + k] == d[k];
    assert forall k :: 0 <= k < 16 ==> h[k] == "Content-Length: "[k];
    assert FieldAt(h, 0);
    assert SkipSpaces(h, 15) == 16 by {
      assert h[15] == ' ' && IsDigit(h[16]);
      assert SpaceLength(h, 16) == 0;
    }
    SkipAllDigits(h, 16);
    assert h[16..|h|] == d;
  }

  lemma PrintedHeaderHasNoDelimiter(n: nat, rest: Bytes)
    ensures IndexOf(PrintHeader(n) + (DELIMITER + rest), DELIMITER, 0) == |PrintHeader(n)|
  {
    var h := PrintHeader(n);
    var b := h + (DELIMITER + rest);
    DecimalRoundTrip(n);
    assert forall k :: 0 <= k < |Decimal(n)| ==> h[16 + k] == Decimal(n)[k];
    assert forall k :: 0 <= k < 16 ==> h[k] == "Content-Length: "[k];
    assert b[|h|..|h| + 4] == DELIMITER;
    forall i | 0 <= i < |h| ensures !At(b, DELIMITER, i) {
      assert b[i] == h[i] != '\r';
      AtChar(b, DELIMITER, i, 0);
    }
    IndexOfIs(b, DELIMITER, 0, |h|);
  }

  /** A printed frame is parsed back, whatever its payload holds and whatever follows it. */
  lemma FrameRoundTrip(payload: Bytes, rest: Bytes)
    ensures NextFrame(PrintFrame(payload) + rest) == Frame(payload, rest)
  {
    var h := PrintHeader(|payload|);
    var b := PrintFrame(payload) + rest;
    assert b == h + (DELIMITER + (payload + rest));
    PrintedHeaderHasNoDelimiter(|payload|, payload + rest);
    HeaderRoundTrip(|payload|);
    assert b[..|h|] == h;
    assert b[|h| + 4..] == payload + rest;
    assert b[|h| + 4..|h| + 4 + |payload|] == payload;
    assert b[|h| + 4 + |payload|..] == rest;
  }

  lemma {:induction false} FramesThenRest(payloads: seq<Bytes>, rest: Bytes)
    ensures Drain(PrintFrames(payloads) + rest)
            == Drain(rest).(payloads := payloads + Drain(rest).payloads)
    decreases payloads
  {
    if payloads == [] {
      assert "" + rest == rest;
      assert [] + Drain(rest).payloads == Drain(rest).payloads;
    } else {
      var first, tail := payloads[0], PrintFrames(payloads[1..]);
      Assoc(PrintFrame(first), tail, rest);
      FrameRoundTrip(first, tail + rest);
      FramesThenRest(payloads[1..], rest);
      Assoc([first], payloads[1..], Drain(rest).payloads);
      assert [first] + payloads[1..] == payloads;
    }
  }

  /** Any payloads, printed and then received in any chunks, come out as they went in. */
  lemma FramesRoundTrip(payloads: seq<Bytes>, chunks: seq<Bytes>)
    requires Concat(chunks) == PrintFrames(payloads)
    ensures Feed(Drained([], "", false), chunks) == Drained(payloads, "", false)
  {
    ChunkingDoesNotMatter(chunks);
    FramesThenRest(payloads, "");
    assert PrintFrames(payloads) + "" == PrintFrames(payloads);
    assert Drain("") == Drained([], "", false);
    assert payloads + [] == payloads;
  }

  /** What has been delivered before the whole stream arrived is a prefix of what was sent. */
  lemma PrefixDelivered(payloads: seq<Bytes>, chunks: seq<Bytes>, missing: Bytes)
    requires Concat(chunks) + missing == PrintFrames(payloads)
    ensures var d := Feed(Drained([], "", false), chunks);
            !d.stuck && d.payloads <= payloads
  {
    var b := Concat(chunks);
    ChunkingDoesNotMatter(chunks);
    DrainExtends(b, missing);
    FramesRoundTrip(payloads, [b + missing]);
    assert Feed(Drained([], "", false), [b + missing]).payloads == payloads by {
      assert Concat([b + missing]) == b + missing + "" == b + missing;
    }
    ChunkingDoesNotMatter([b + missing]);
    StuckForever(b, missing);
  }

  /** A bad header stays at the front of the buffer: every later chunk fails as well. */
  lemma StuckForever(b: Bytes, more: Bytes)
    ensures Drain(b).stuck ==> Drain(b + more) == Drain(b).(leftover := Drain(b).leftover + more)
  {
    DrainExtends(b, more);
    var headers := StreamIsFramesThenLeftover(b);
    NextFrameExtends(Drain(b).leftover, more);
    assert Drain(b).payloads + [] == Drain(b).payloads;
  }
}
