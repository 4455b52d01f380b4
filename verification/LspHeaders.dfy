/**
 Headers that the other side has written (parseContentLength in src/core/agent/lsp-utils-config.ts): other
 header lines around the field, its name in any case, any white space, leading zeros
 ("Header Part" of the Language Server Protocol Specification 3.17).

 What is parsed is told by how a header is put together, not by how it is searched.
 */
module LspHeaders {
  import opened Options
  import opened Text
  import opened LspFrames

  const SMALL: Bytes := "content-length:"
  const CAPITAL: Bytes := "CONTENT-LENGTH:"

  /** The field's name with its colon, each letter in either case. */
  predicate IsFieldName(s: Bytes) {
    |s| == |SMALL| && forall k :: 0 <= k < |SMALL| ==> s[k] == SMALL[k] || s[k] == CAPITAL[k]
  }

  predicate AllSpaces(spaces: string) {
    forall k :: 0 <= k < |spaces| ==> IsSpace(spaces[k])
  }

  /** The bytes of a character in UTF-8 (section 3 of RFC 3629), up to three of them. */
  function Utf8(code: nat): Bytes
    requires code < 0x10000
  {
    if code < 0x80 then [code as char]
    else if code < 0x800 then [(0xC0 + code / 64) as char, (0x80 + code % 64) as char]
    else [(0xE0 + code / 4096) as char, (0x80 + code / 64 % 64) as char, (0x80 + code % 64) as char]
  }

  function Encoded(spaces: string): Bytes
    requires AllSpaces(spaces)
  {
    if spaces == "" then "" else Utf8(spaces[0] as int) + Encoded(spaces[1..])
  }

  function Zeros(n: nat): Bytes {
    if n == 0 then "" else "0" + Zeros(n - 1)
  }

  predicate NoDigitFirst(post: Bytes) {
    post == "" || !('0' <= post[0] <= '9')
  }

  /** A field that states the length `n`. */
  function Field(name: Bytes, spaces: string, zeros: nat, n: nat): Bytes
    requires AllSpaces(spaces)
  {
    name + (Encoded(spaces) + (Zeros(zeros) + Decimal(n)))
  }

  /** At position `i` begins a field that states the length `n`. */
  ghost predicate StatesAt(h: Bytes, i: nat, n: nat) {
    i <= |h|
    && exists name, spaces, zeros: nat, post :: StatedBy(h[i..], name, spaces, zeros, n, post)
  }

  ghost predicate StatedBy(s: Bytes, name: Bytes, spaces: string, zeros: nat, n: nat, post: Bytes) {
    IsFieldName(name) && AllSpaces(spaces) && NoDigitFirst(post) && s == Field(name, spaces, zeros, n) + post
  }

  // ----- white space -----

  lemma SpaceDecodes(h: Bytes, i: nat) returns (c: char)
    requires SpaceLength(h, i) > 0
    ensures IsSpace(c) && h[i..i + SpaceLength(h, i)] == Utf8(c as int)
  {
    var n := SpaceLength(h, i);
    var a := h[i] as int;
    if n == 1 {
      c := h[i];
    } else if n == 2 {
      c := 0xA0 as char;
    } else {
      c := ((a - 0xE0) * 4096 + (h[i + 1] as int - 0x80) * 64 + (h[i + 2] as int - 0x80)) as char;
    }
  }

  lemma SpaceEncodes(h: Bytes, i: nat, c: char)
    requires IsSpace(c) && i + |Utf8(c as int)| <= |h| && h[i..i + |Utf8(c as int)|] == Utf8(c as int)
    ensures SpaceLength(h, i) == |Utf8(c as int)|
  {
    var u := Utf8(c as int);
    assert h[i] == u[0];
    assert |u| > 1 ==> h[i + 1] == u[1];
    assert |u| > 2 ==> h[i + 2] == u[2];
  }

  lemma {:induction false} SkipDecodes(h: Bytes, i: nat) returns (spaces: string)
    requires i <= |h|
    ensures AllSpaces(spaces) && h[i..SkipSpaces(h, i)] == Encoded(spaces)
    decreases |h| - i
  {
    hide SpaceLength, Utf8, IsSpace;
    if SpaceLength(h, i) > 0 {
      var c := SpaceDecodes(h, i);
      var j := i + SpaceLength(h, i);
      var rest := SkipDecodes(h, j);
      spaces := [c] + rest;
      assert spaces[1..] == rest;
      assert h[i..SkipSpaces(h, i)] == h[i..j] + h[j..SkipSpaces(h, i)];
    } else {
      spaces := "";
    }
  }

  lemma Utf8Length(c: char)
    requires IsSpace(c)
    ensures |Utf8(c as int)| > 0
  {
  }

  lemma {:induction false} SkipEncodes(h: Bytes, i: nat, spaces: string)
    requires AllSpaces(spaces) && i + |Encoded(spaces)| <= |h|
    requires h[i..i + |Encoded(spaces)|] == Encoded(spaces) && SpaceLength(h, i + |Encoded(spaces)|) == 0
    ensures SkipSpaces(h, i) == i + |Encoded(spaces)|
    decreases |spaces|
  {
    hide SpaceLength, Utf8;
    if spaces != "" {
      Utf8Length(spaces[0]);
      var u, rest := Utf8(spaces[0] as int), Encoded(spaces[1..]);
      var all := h[i..i + |u + rest|];
      assert h[i..i + |u|] == all[..|u|] == u;
      assert h[i + |u|..i + |u| + |rest|] == all[|u|..] == rest;
      SpaceEncodes(h, i, spaces[0]);
      SkipEncodes(h, i + |u|, spaces[1..]);
    }
  }

  // ----- numbers -----

  /** Decimal digits, the last one last: what they say is fixed by these two equations. */
  lemma DecimalDigits(n: nat, d: nat)
    requires d < 10
    ensures Decimal(d) == ["0123456789"[d]]
    ensures n > 0 ==> Decimal(10 * n + d) == Decimal(n) + ["0123456789"[d]]
  {
  }

  lemma {:induction false} ZerosThenNumber(zeros: nat, n: nat)
    ensures AllDigits(Zeros(zeros) + Decimal(n)) && ParseDecimal(Zeros(zeros) + Decimal(n)) == n
    decreases n
  {
    var s := Zeros(zeros) + Decimal(n);
    DecimalRoundTrip(n);
    OnlyZeros(zeros);
    if n >= 10 {
      ZerosThenNumber(zeros, n / 10);
      assert s[..|s| - 1] == Zeros(zeros) + Decimal(n / 10);
    } else {
      assert s[..|s| - 1] == Zeros(zeros);
    }
  }

  predicate AllDigits(s: Bytes) {
    forall k :: 0 <= k < |s| ==> IsDigit(s[k])
  }

  lemma {:induction false} OnlyZeros(zeros: nat)
    ensures |Zeros(zeros)| == zeros && AllDigits(Zeros(zeros)) && ParseDecimal(Zeros(zeros)) == 0
    ensures Zeros(zeros) + "0" == Zeros(zeros + 1)
  {
    if zeros > 0 {
      OnlyZeros(zeros - 1);
      var z := Zeros(zeros);
      assert z == Zeros(zeros - 1) + "0";
      assert z[..|z| - 1] == Zeros(zeros - 1);
    }
  }

  lemma LastDigit(s: Bytes)
    requires s != "" && AllDigits(s)
    ensures var front := s[..|s| - 1];
            && AllDigits(front)
            && ParseDecimal(s) == ParseDecimal(front) * 10 + (s[|s| - 1] as int - '0' as int)
            && s == front + ["0123456789"[s[|s| - 1] as int - '0' as int]]
            && (front == "" ==> ParseDecimal(front) == 0)
  {
    assert IsDigit(s[|s| - 1]);
  }

  lemma {:induction false} DigitsDecode(s: Bytes) returns (zeros: nat)
    requires s != "" && AllDigits(s)
    ensures s == Zeros(zeros) + Decimal(ParseDecimal(s))
    decreases |s|
  {
    var front, last := s[..|s| - 1], s[|s| - 1] as int - '0' as int;
    assert IsDigit(s[|s| - 1]);
    assert AllDigits(front);
    DecimalDigits(ParseDecimal(front), last);
    LastDigit(s);
    hide Decimal, ParseDecimal, IsDigit;
    if |s| == 1 {
      zeros := 0;
      assert s == Decimal(last);
    } else {
      zeros := DigitsDecode(front);
      assert s == front + ["0123456789"[last]];
      if ParseDecimal(front) == 0 {
        OnlyZeros(zeros);
        zeros := zeros + 1;
      }
    }
  }

  lemma {:induction false} SkipDigitsTo(h: Bytes, i: nat, j: nat)
    requires i <= j <= |h| && (forall k :: i <= k < j ==> IsDigit(h[k])) && (j < |h| ==> !IsDigit(h[j]))
    ensures SkipDigits(h, i) == j
    decreases j - i
  {
    if i < j {
      SkipDigitsTo(h, i + 1, j);
    }
  }

  lemma {:induction false} DigitsEnd(h: Bytes, i: nat)
    requires i <= |h|
    ensures var j := SkipDigits(h, i); j < |h| ==> !IsDigit(h[j])
    decreases |h| - i
  {
    if i < |h| && IsDigit(h[i]) {
      DigitsEnd(h, i + 1);
    }
  }

  // ----- one position -----

  lemma NameAt(h: Bytes, i: nat)
    requires i <= |h|
    ensures FieldAt(h, i) <==> i + |SMALL| <= |h| && IsFieldName(h[i..i + |SMALL|])
  {
    if i + |SMALL| <= |h| {
      var s := h[i..i + |SMALL|];
      assert forall k :: 0 <= k < |SMALL| ==> h[i + k] == s[k];
      forall k | 0 <= k < |SMALL| ensures Lower(s[k]) == FIELD[k] <==> s[k] == SMALL[k] || s[k] == CAPITAL[k] {
        LetterCase(s[k], k);
      }
    }
  }

  lemma LetterCase(c: char, k: nat)
    requires k < |SMALL|
    ensures Lower(c) == FIELD[k] <==> c == SMALL[k] || c == CAPITAL[k]
  {
  }

  /** Where the parts of a field stand. */
  lemma PartsStand(h: Bytes, i: nat, name: Bytes, e: Bytes, d: Bytes, post: Bytes)
    requires i <= |h| && h[i..] == name + (e + d) + post
    ensures var start := i + |name| + |e|;
            && start + |d| <= |h|
            && h[i..i + |name|] == name && h[i + |name|..start] == e
            && h[start..start + |d|] == d && h[start + |d|..] == post
  {
    var rest, start := h[i..], i + |name| + |e|;
    assert rest == name + (e + (d + post));
    assert h[i..i + |name|] == rest[..|name|] == name;
    assert h[i + |name|..start] == rest[|name|..|name| + |e|] == e;
    assert h[start..start + |d|] == rest[|name| + |e|..|name| + |e| + |d|] == d;
    assert h[start + |d|..] == rest[|name| + |e| + |d|..] == post;
  }

  lemma StatedIsMatched(h: Bytes, i: nat, name: Bytes, spaces: string, zeros: nat, n: nat, post: Bytes)
    requires i <= |h| && StatedBy(h[i..], name, spaces, zeros, n, post)
    ensures MatchAt(h, i) == Some(n)
  {
    hide ParseDecimal, SkipSpaces, SkipDigits, FieldAt, IsFieldName, Encoded, Decimal, Zeros, SpaceLength;
    var e, d := Encoded(spaces), Zeros(zeros) + Decimal(n);
    var start := i + |name| + |e|;
    var end := start + |d|;
    NameLength(name);
    PartsStand(h, i, name, e, d, post);
    NameAt(h, i);
    ZerosThenNumber(zeros, n);
    DecimalRoundTrip(n);
    DigitsStand(h, start, end, post);
    SkipEncodes(h, i + |name|, spaces);
  }

  /** Digits with no digit after them are what is skipped, and no white space. */
  lemma DigitsStand(h: Bytes, start: nat, end: nat, post: Bytes)
    requires start < end <= |h| && AllDigits(h[start..end]) && h[end..] == post && NoDigitFirst(post)
    ensures SkipDigits(h, start) == end && SpaceLength(h, start) == 0
  {
    forall k | start <= k < end ensures IsDigit(h[k]) {
      assert h[k] == h[start..end][k - start];
    }
    DigitIsNoSpace(h, start);
    assert end < |h| ==> h[end] == post[0];
    SkipDigitsTo(h, start, end);
  }

  lemma NameLength(name: Bytes)
    requires IsFieldName(name)
    ensures |name| == |SMALL| == |FIELD|
  {
  }

  lemma DigitIsNoSpace(h: Bytes, i: nat)
    requires i < |h| && IsDigit(h[i])
    ensures SpaceLength(h, i) == 0
  {
  }

  lemma MatchedIsStated(h: Bytes, i: nat)
    requires i <= |h| && MatchAt(h, i).Some?
    ensures StatesAt(h, i, MatchAt(h, i).value)
  {
    hide ParseDecimal, FieldAt, IsFieldName, Encoded, Decimal, Zeros, SpaceLength;
    NameAt(h, i);
    var start := SkipSpaces(h, i + |FIELD|);
    var end := SkipDigits(h, start);
    var name := h[i..i + |SMALL|];
    var spaces := SkipDecodes(h, i + |FIELD|);
    var zeros := DigitsDecode(h[start..end]);
    DigitsEnd(h, start);
    SplitInFour(h, i, i + |FIELD|, start, end);
    assert StatedBy(h[i..], name, spaces, zeros, MatchAt(h, i).value, h[end..]);
  }

  lemma SplitInFour(h: Bytes, i: nat, a: nat, b: nat, c: nat)
    requires i <= a <= b <= c <= |h|
    ensures h[i..] == h[i..a] + (h[a..b] + h[b..c]) + h[c..]
  {
  }

  /** One position of a header, exactly. */
  lemma MatchExactly(h: Bytes, i: nat, n: nat)
    requires i <= |h|
    ensures MatchAt(h, i) == Some(n) <==> StatesAt(h, i, n)
  {
    hide MatchAt, StatedBy;
    if MatchAt(h, i) == Some(n) {
      MatchedIsStated(h, i);
    }
    if StatesAt(h, i, n) {
      var name, spaces, zeros: nat, post :| StatedBy(h[i..], name, spaces, zeros, n, post);
      StatedIsMatched(h, i, name, spaces, zeros, n, post);
    }
  }

  // ----- the whole header -----

  /** `i` is the first position at which a field states a length. */
  ghost predicate FirstStated(h: Bytes, i: nat, n: nat) {
    StatesAt(h, i, n) && forall j: nat, m: nat :: j < i ==> !StatesAt(h, j, m)
  }

  lemma {:induction false} FirstMatchIs(h: Bytes, from: nat)
    ensures match FirstMatch(h, from)
            case Some(n) => exists i: nat :: from <= i <= |h| && MatchAt(h, i) == Some(n)
                                             && forall j: nat :: from <= j < i ==> MatchAt(h, j).None?
            case None => forall j: nat :: from <= j <= |h| ==> MatchAt(h, j).None?
    decreases |h| - from
  {
    hide MatchAt;
    if from <= |h| {
      if MatchAt(h, from).None? {
        FirstMatchIs(h, from + 1);
      }
    }
  }

  /** The length of any header is what its first field with a number states; without one there is none. */
  lemma LengthExactly(h: Bytes)
    ensures forall n: nat :: ParseContentLength(h) == Some(n) <==> exists i: nat :: FirstStated(h, i, n)
    ensures ParseContentLength(h).None? <==> forall i: nat, n: nat :: !StatesAt(h, i, n)
  {
    hide MatchAt, FirstMatch, StatedBy;
    FirstMatchIs(h, 0);
    forall i: nat, n: nat ensures StatesAt(h, i, n) <==> i <= |h| && MatchAt(h, i) == Some(n) {
      if i <= |h| {
        MatchExactly(h, i, n);
      }
    }
    forall n: nat ensures ParseContentLength(h) == Some(n) <==> exists i: nat :: FirstStated(h, i, n) {
      LengthIsFirst(h, n);
    }
  }

  lemma LengthIsFirst(h: Bytes, n: nat)
    requires forall i: nat, n: nat :: StatesAt(h, i, n) <==> i <= |h| && MatchAt(h, i) == Some(n)
    ensures ParseContentLength(h) == Some(n) <==> exists i: nat :: FirstStated(h, i, n)
  {
    hide MatchAt, FirstMatch, StatesAt;
    FirstMatchIs(h, 0);
    if ParseContentLength(h) == Some(n) {
      var i: nat :| i <= |h| && MatchAt(h, i) == Some(n) && forall j: nat :: j < i ==> MatchAt(h, j).None?;
      assert FirstStated(h, i, n);
    }
    if i: nat :| FirstStated(h, i, n) {
      assert MatchAt(h, i) == Some(n);
      if ParseContentLength(h).Some? {
        var m := ParseContentLength(h).value;
        var k: nat :| k <= |h| && MatchAt(h, k) == Some(m) && forall j: nat :: j < k ==> MatchAt(h, j).None?;
        assert StatesAt(h, k, m);
      }
    }
  }

  predicate NameStandsAt(s: Bytes, i: nat) {
    i + |SMALL| <= |s| && IsFieldName(s[i..i + |SMALL|])
  }

  /** No field name stands in `s`. */
  ghost predicate NoFieldName(s: Bytes) {
    forall i: nat :: !NameStandsAt(s, i)
  }

  lemma NothingStatedIn(h: Bytes, i: nat, n: nat)
    requires StatesAt(h, i, n)
    ensures NameStandsAt(h, i)
  {
    hide Decimal, Encoded, Zeros;
    var name, spaces, zeros: nat, post :| StatedBy(h[i..], name, spaces, zeros, n, post);
    assert h[i..i + |SMALL|] == h[i..][..|SMALL|] == name;
  }

  /** A header without the field has no length. */
  lemma NoFieldNoLength(h: Bytes)
    requires NoFieldName(h)
    ensures ParseContentLength(h).None?
  {
    LengthExactly(h);
    forall i: nat, n: nat ensures !StatesAt(h, i, n) {
      if StatesAt(h, i, n) {
        NothingStatedIn(h, i, n);
      }
    }
  }

  /** A field name does not begin inside what stands before another one. */
  lemma NamesDoNotOverlap(pre: Bytes, name: Bytes, rest: Bytes, i: nat)
    requires NoFieldName(pre) && IsFieldName(name) && i < |pre|
    ensures !NameStandsAt(pre + (name + rest), i)
  {
    var h := pre + (name + rest);
    if i + |SMALL| <= |h| {
      var s := h[i..i + |SMALL|];
      if i + |SMALL| <= |pre| {
        assert s == pre[i..i + |SMALL|] && !NameStandsAt(pre, i);
      } else {
        var k := i + |SMALL| - 1 - |pre|;
        assert s[|SMALL| - 1] == name[k] && k < |SMALL| - 1;
      }
    }
  }

  /** Other header lines before and after the field, its name in any case, any white space, leading zeros. */
  lemma FieldTellsLength(pre: Bytes, name: Bytes, spaces: string, zeros: nat, n: nat, post: Bytes)
    requires NoFieldName(pre) && IsFieldName(name) && AllSpaces(spaces) && NoDigitFirst(post)
    ensures ParseContentLength(pre + (Field(name, spaces, zeros, n) + post)) == Some(n)
  {
    var field := Field(name, spaces, zeros, n);
    var h := pre + (field + post);
    hide Encoded, Decimal, Zeros, IsFieldName, Field;
    assert h[|pre|..] == field + post;
    assert StatedBy(h[|pre|..], name, spaces, zeros, n, post);
    assert StatesAt(h, |pre|, n);
    forall j: nat, m: nat | j < |pre| ensures !StatesAt(h, j, m) {
      if StatesAt(h, j, m) {
        NothingStatedIn(h, j, m);
        var rest := AfterName(name, spaces, zeros, n, post);
        NamesDoNotOverlap(pre, name, rest, j);
      }
    }
    assert FirstStated(h, |pre|, n);
    LengthExactly(h);
  }

  lemma AfterName(name: Bytes, spaces: string, zeros: nat, n: nat, post: Bytes) returns (rest: Bytes)
    requires AllSpaces(spaces)
    ensures Field(name, spaces, zeros, n) + post == name + rest
  {
    rest := Encoded(spaces) + (Zeros(zeros) + Decimal(n)) + post;
  }

  /** A frame with other header lines around the field is delivered, whatever its payload holds and whatever follows. */
  lemma OtherHeadersAreDelivered(
      pre: Bytes, name: Bytes, spaces: string, zeros: nat, post: Bytes, payload: Bytes, rest: Bytes)
    requires NoFieldName(pre) && IsFieldName(name) && AllSpaces(spaces) && NoDigitFirst(post)
    requires var h := pre + (Field(name, spaces, zeros, |payload|) + post);
             IndexOf(h + DELIMITER, DELIMITER, 0) == |h|
    ensures var h := pre + (Field(name, spaces, zeros, |payload|) + post);
            NextFrame(h + (DELIMITER + payload) + rest) == Frame(payload, rest)
  {
    var h := pre + (Field(name, spaces, zeros, |payload|) + post);
    FieldTellsLength(pre, name, spaces, zeros, |payload|, post);
    hide Field, ParseContentLength;
    FrameAfterHeader(h, payload, rest);
  }

  lemma FrameAfterHeader(h: Bytes, payload: Bytes, rest: Bytes)
    requires IndexOf(h + DELIMITER, DELIMITER, 0) == |h| && ParseContentLength(h) == Some(|payload|)
    ensures NextFrame(h + (DELIMITER + payload) + rest) == Frame(payload, rest)
  {
    hide ParseContentLength, IndexOf;
    FrameSlices(h, payload, rest);
    DelimiterExtends(h + DELIMITER, payload + rest);
  }

  lemma FrameSlices(h: Bytes, payload: Bytes, rest: Bytes)
    ensures var b, start := h + (DELIMITER + payload) + rest, |h| + 4;
            && b == h + DELIMITER + (payload + rest)
            && |b| == start + |payload| + |rest| && b[..|h|] == h
            && b[start..start + |payload|] == payload && b[start + |payload|..] == rest
  {
  }
}
