/**
 What writing one section of the notepad does to the others (src/application/system/notepad.ts):
 the documents and the texts for which another section is left alone, both told exactly.
 */
module NotepadFrame {
  import opened Text
  import opened Notepad

  // ----- other sections -----

  /** All that follows the next header is white space, so that trimming the document takes the header away. */
  predicate EndsInBareHeader(c: string, m: nat)
    requires m <= |c|
  {
    var n := IndexOf(c, NEXT_HEADER, m);
    n >= 0 && IsBlank(c[n + 4..])
  }

  /**
   The documents in which writing section `s` leaves the other section alone: it is missing; or `s` is
   missing and no bare header at the end ends the other body; or the other section comes first and a
   header ends it before `s`; or what is kept after `s` reads the same.
   */
  predicate Framed(c: string, s: HeaderText, other: HeaderText) {
    var i, j := IndexOf(c, s, 0), IndexOf(c, other, 0);
    if j < 0 then true
    else if i < 0 then !EndsInBareHeader(c, j + |other|)
    else if j < i then 0 <= IndexOf(c, NEXT_HEADER, j + |other|) < i
    else ExtractSection(After(c, s), other) == ExtractSection(c, other)
  }

  lemma OccurrenceInReplaced(a: string, t: string, after: string, s: HeaderText, i: int)
    ensures At(a + Tail(t, after), s, i)
            <==> At(a, s, i) || At(t, s, i - |a| - 1) || At(after, s, i - |a| - |t| - 2)
  {
    assert a + Tail(t, after) == a + "\n" + (t + "\n" + after);
    AtAroundBreak(a, t + "\n" + after, s, i);
    AtAroundBreak(t, after, s, i - |a| - 1);
  }

  /** A body that ends inside a common part is the same whatever follows. */
  lemma BodyTextPrefix(p: string, x: string, y: string)
    requires IndexOf(p, NEXT_HEADER, 0) >= 0
    ensures BodyText(p + x) == BodyText(p + y)
  {
    var k := IndexOf(p, NEXT_HEADER, 0);
    FirstInPrefix(p, x, NEXT_HEADER);
    FirstInPrefix(p, y, NEXT_HEADER);
    assert (p + x)[..k] == p[..k] == (p + y)[..k];
  }

  lemma FirstInPrefix(p: string, x: string, pat: string)
    requires IndexOf(p, pat, 0) >= 0
    ensures IndexOf(p + x, pat, 0) == IndexOf(p, pat, 0)
  {
    var k := IndexOf(p, pat, 0);
    forall i | 0 <= i <= k ensures At(p + x, pat, i) <==> At(p, pat, i) {
      AtExtends(p, x, pat, i);
    }
    IndexOfIs(p + x, pat, 0, k);
  }

  lemma DropFromFirst(a: string, x: string, m: nat)
    requires m <= |a|
    ensures (a + x)[m..] == a[m..] + x
  {
  }

  /** A header at the begin of a line is what ends a body. */
  lemma HeaderAfterBreak(a: string, s: HeaderText, index: nat)
    requires index >= 1 && At(a, s, index) && a[index - 1] == '\n'
    ensures At(a, NEXT_HEADER, index - 1)
  {
  }

  lemma ExtractSuffix(x: string, z: string, other: HeaderText, q: nat)
    requires 0 <= IndexOf(x + z, other, 0) == |x| + q - |other|
    ensures q <= |z| && ExtractSection(x + z, other) == BodyText(z[q..])
  {
    hide BodyText, IndexOf, ExtractSection, At;
    var c, m := x + z, |x| + q;
    ExtractAt(c, other, m);
    DropPrefix(x, z, q, m);
    assert c[m..] == z[q..];
  }

  lemma FirstInSuffix(a: string, r: string, h: string, n: nat, p: nat)
    requires n <= p && n <= |r| && IndexOf(a + r, h, 0) == |a| + p
    ensures IndexOf(r[n..], h, 0) == p - n
  {
    hide IndexOf, At;
    AddedPart(a, r, n);
    FirstAfter(a + r[..n], r[n..], h, p - n);
  }

  lemma FirstAfter(x: string, z: string, h: string, k: nat)
    requires IndexOf(x + z, h, 0) == |x| + k
    ensures IndexOf(z, h, 0) == k
  {
    hide IndexOf;
    AtShift(x, z, h, |x| + k);
    forall i: nat | i < k ensures !At(z, h, i) {
      AtShift(x, z, h, |x| + i);
    }
    IndexOfIs(z, h, 0, k);
  }

  lemma FrameAbsentBoth(a: string, r: string, t: string, other: HeaderText)
    requires IndexOf(a + r, other, 0) < 0 && !Contains(t, other)
    ensures ExtractSection(a + Tail(t, FromHeader(r)), other) == ExtractSection(a + r, other)
  {
    var h, x := other, Tail(t, FromHeader(r));
    forall i: nat ensures !At(a + x, h, i) {
      OccurrenceInReplaced(a, t, FromHeader(r), other, i);
      AtExtends(a, r, h, i);
      NoLaterOccurrence(a + r, a, r, FromHeader(r), h, i - |a| - |t| - 2);
    }
    NotFound(a + x, h, 0);
  }

  lemma NoLaterOccurrence(c: string, a: string, r: string, after: string, h: string, i: int)
    requires c == a + r && IndexOf(c, h, 0) < 0 && |h| > 0
    requires after == FromHeader(r)
    ensures !At(after, h, i)
  {
    var n := IndexOf(r, NEXT_HEADER, 0);
    if n >= 0 && i >= 0 {
      AtSlice(r, n, |r|, h, i);
      AtShift(a, r, h, |a| + n + i);
    }
  }

  /** The only hashes of a header are the two it begins with. */
  predicate IsPlain(h: string) {
    forall k :: 2 <= k < |h| ==> h[k] != '#'
  }

  /** Neither header holds the other. */
  predicate Apart(s: HeaderText, other: HeaderText) {
    !Contains(s, other) && !Contains(other, s)
  }

  lemma HeadersDiffer(s: HeaderText, other: HeaderText, c: string, i: int)
    requires Apart(s, other) && At(c, s, i)
    ensures !At(c, other, i)
  {
  }

  // ----- other sections, when the replaced one is appended at the end -----

  /** The text that a missing section is appended to. */
  function Appended(t0: string, s: HeaderText, t: string): string {
    t0 + ("\n\n" + (s + Tail(t, "")))
  }

  lemma ReplacedIsAppended(c: string, s: HeaderText, t: string)
    requires IndexOf(c, s, 0) < 0
    ensures ReplaceIn(c, s, t) == Appended(Trim(c), s, t)
  {
  }

  lemma NowhereIn(t: string, pat: string, i: int)
    requires !Contains(t, pat)
    ensures !At(t, pat, i)
  {
  }

  lemma NothingIn(t: string, pat: string, i: int)
    requires |t| < |pat|
    ensures !At(t, pat, i)
  {
  }

  lemma OccurrenceInAppended(t0: string, s: HeaderText, t: string, other: HeaderText, i: nat)
    requires Apart(s, other) && !Contains(t, other)
    ensures At(Appended(t0, s, t), other, i) ==> At(t0, other, i)
  {
    hide IndexOf, Tail, At, Contains;
    var x := s + Tail(t, "");
    NothingIn("", other, i - |t0| - 1);
    NowhereIn(s, other, i - |t0| - 2);
    NowhereIn(t, other, i - |t0| - |s| - 3);
    NothingIn("", other, i - |t0| - |s| - |t| - 4);
    BlankLine(t0, x);
    AtAroundBreak(t0, "" + "\n" + x, other, i);
    AtAroundBreak("", x, other, i - |t0| - 1);
    OccurrenceInReplaced(s, t, "", other, i - |t0| - 2);
  }

  lemma BlankLine(a: string, b: string)
    ensures a + ("\n\n" + b) == a + "\n" + ("" + "\n" + b)
  {
  }

  lemma AppendedOtherFound(c: string, lo: nat, hi: nat, s: HeaderText, other: HeaderText, t: string, j: nat)
    requires TrimsTo(c, lo, hi) && Apart(s, other) && !Contains(t, other) && IndexOf(c, other, 0) == j
    ensures var m := j + |other|;
            && m <= hi
            && ExtractSection(Appended(c[lo..hi], s, t), other) == BodyText(c[m..hi] + ("\n\n" + (s + Tail(t, ""))))
            && ExtractSection(c, other) == BodyText(c[m..hi] + c[hi..])
  {
    hide IndexOf, BodyText, ExtractSection, Appended, Contains, Trim;
    HeaderInsideTrim(c, lo, hi, other, j);
    hide *;
    TrimsToBounds(c, lo, hi);
    var p := c[j + |other|..hi];
    SliceOfSlice(c, lo, hi, j + |other|);
    AppendedFirst(c, lo, hi, s, other, t, j);
    ReadAppended(c[lo..hi], s, t, other, j + |other| - lo, p);
    SplitAt(c, hi);
    ExtractAcross(c[..hi], c[hi..], other, j + |other|, p);
  }

  lemma SliceOfSlice(c: string, lo: nat, hi: nat, m: nat)
    requires lo <= m <= hi <= |c|
    ensures c[lo..hi][m - lo..] == c[m..hi] && c[..hi][m..] == c[m..hi]
  {
  }

  lemma ReadAppended(t0: string, s: HeaderText, t: string, other: HeaderText, m: nat, p: string)
    requires IndexOf(Appended(t0, s, t), other, 0) >= 0 && m == IndexOf(Appended(t0, s, t), other, 0) + |other|
    requires m <= |t0| && t0[m..] == p
    ensures ExtractSection(Appended(t0, s, t), other) == BodyText(p + ("\n\n" + (s + Tail(t, ""))))
  {
    hide BodyText, IndexOf, ExtractSection, Tail;
    ExtractAcross(t0, "\n\n" + (s + Tail(t, "")), other, m, p);
  }

  lemma ExtractAcross(a: string, y: string, other: HeaderText, m: nat, p: string)
    requires IndexOf(a + y, other, 0) >= 0 && m == IndexOf(a + y, other, 0) + |other| && m <= |a| && a[m..] == p
    ensures ExtractSection(a + y, other) == BodyText(p + y)
  {
    hide BodyText, IndexOf, ExtractSection;
    ExtractAt(a + y, other, m);
    DropFromFirst(a, y, m);
  }

  lemma AppendedOtherMissing(c: string, s: HeaderText, other: HeaderText, t: string)
    requires IndexOf(c, other, 0) < 0 && Apart(s, other) && !Contains(t, other)
    ensures ExtractSection(Appended(Trim(c), s, t), other) == ExtractSection(c, other)
  {
    forall i: nat ensures !At(Appended(Trim(c), s, t), other, i) {
      OccurrenceInAppended(Trim(c), s, t, other, i);
      TrimmedSourceHasNoHeader(c, other, i);
    }
    NotFound(Appended(Trim(c), s, t), other, 0);
  }

  lemma HeaderInsideTrim(c: string, lo: nat, hi: nat, h: HeaderText, j: nat)
    requires TrimsTo(c, lo, hi) && At(c, h, j)
    ensures lo <= j && j + |h| <= hi
  {
  }

  lemma AppendedFirst(c: string, lo: nat, hi: nat, s: HeaderText, other: HeaderText, t: string, j: nat)
    requires lo <= hi <= |c| && Apart(s, other) && !Contains(t, other)
    requires IndexOf(c, other, 0) == j && lo <= j && j + |other| <= hi
    ensures IndexOf(Appended(c[lo..hi], s, t), other, 0) == j - lo
  {
    var t0, q := c[lo..hi], j - lo;
    var n := Appended(t0, s, t);
    AtSlice(c, lo, hi, other, q);
    AtExtends(t0, "\n\n" + (s + Tail(t, "")), other, q);
    forall i: nat | i < q ensures !At(n, other, i) {
      OccurrenceInAppended(t0, s, t, other, i);
      AtSlice(c, lo, hi, other, i);
    }
    IndexOfIs(n, other, 0, q);
  }

  /** White space at the end of a document is not needed to end a body. */
  lemma BodyCutByTrim(c: string, lo: nat, hi: nat, m: nat, p: string)
    requires TrimsTo(c, lo, hi) && m <= hi && !EndsInBareHeader(c, m) && p == c[m..hi]
    ensures IsBlank(c[hi..])
    ensures IndexOf(p + c[hi..], NEXT_HEADER, 0) >= 0 ==> IndexOf(p, NEXT_HEADER, 0) >= 0
  {
    hide IndexOf;
    assert p + c[hi..] == c[m..];
    FirstFrom(c, m);
    var k := IndexOf(c[m..], NEXT_HEADER, 0);
    if k >= 0 {
      var i :| 0 <= i < |c[m + k + 4..]| && !IsSpace(c[m + k + 4..][i]);
      assert !IsSpace(c[m + k + 4 + i]);
      AtSlice(c, m, |c|, NEXT_HEADER, k);
      AtSlice(c, m, hi, NEXT_HEADER, k);
    }
  }

  /** Looking from a position on is looking in what is left. */
  lemma FirstFrom(c: string, m: nat)
    requires m <= |c|
    ensures IndexOf(c, NEXT_HEADER, m)
            == if IndexOf(c[m..], NEXT_HEADER, 0) < 0 then -1 else m + IndexOf(c[m..], NEXT_HEADER, 0)
  {
    SplitAt(c, m);
    IndexOfShift(c[..m], c[m..], NEXT_HEADER, 0);
  }

  /** A body is ended by the appended header as by the white space that was there. */
  lemma BodyCutByHeader(p: string, s: HeaderText, x: string, blank: string)
    requires IsBlank(blank)
    requires IndexOf(p + blank, NEXT_HEADER, 0) >= 0 ==> IndexOf(p, NEXT_HEADER, 0) >= 0
    ensures BodyText(p + ("\n\n" + (s + x))) == BodyText(p + blank)
  {
    if IndexOf(p, NEXT_HEADER, 0) >= 0 {
      BodyTextPrefix(p, "\n\n" + (s + x), blank);
    } else {
      BodyAtAppended(p, s, x);
      WholeBody(p, blank);
    }
  }

  lemma BodyAtAppended(p: string, s: HeaderText, x: string)
    requires IndexOf(p, NEXT_HEADER, 0) < 0
    ensures BodyText(p + ("\n\n" + (s + x))) == Trim(p)
  {
    var after := "\n" + (s + x);
    HashesAtStart(s + x);
    assert (s + x)[0..3] == HASHES;
    NextHeaderAcrossBreak(p, after);
    assert "\n\n" + (s + x) == "\n" + after;
    CutAtBreak(p, after);
  }

  lemma CutAtBreak(p: string, after: string)
    requires IndexOf(p + ("\n" + after), NEXT_HEADER, 0) == |p| + 1
    ensures BodyText(p + ("\n" + after)) == Trim(p)
  {
    assert (p + ("\n" + after))[..|p| + 1] == "" + p + "\n";
    TrimPad("", p, "\n");
  }

  lemma WholeBody(p: string, blank: string)
    requires IsBlank(blank) && IndexOf(p + blank, NEXT_HEADER, 0) < 0
    ensures BodyText(p + blank) == Trim(p)
  {
    assert p + blank == "" + p + blank;
    TrimPad("", p, blank);
  }

  // ----- the written section is there -----

  lemma ReplacedAround(c: string, s: HeaderText, t: string) returns (a: string, r: string)
    requires IndexOf(c, s, 0) >= 0
    ensures c == a + r && |a| == IndexOf(c, s, 0) + |s|
    ensures After(c, s) == FromHeader(r)
    ensures ReplaceIn(c, s, t) == a + Tail(t, After(c, s))
  {
    var m := IndexOf(c, s, 0) + |s|;
    hide *;
    SuffixAfter(c, s, m);
    HeaderFromIs(c, m);
    a, r := c[..m], c[m..];
    SplitAt(c, m);
    ReplacedParts(c, s, t);
    Assoc(Before(c, s), s, Tail(t, After(c, s)));
  }

  /** The other section stands before the replaced one, and a header ends it in between. */
  lemma FrameBefore(a: string, r: string, x: string, other: HeaderText, k: nat)
    requires var j := IndexOf(a + r, other, 0);
             && 0 <= j && j + |other| <= k && At(a, NEXT_HEADER, k)
             && forall i :: 0 <= i < j && At(a + x, other, i) ==> At(a, other, i)
    ensures ExtractSection(a + x, other) == ExtractSection(a + r, other)
  {
    hide *;
    var j := IndexOf(a + r, other, 0);
    var m := j + |other|;
    HeaderFollows(a, m, k);
    FirstInBoth(a, r, x, other, j);
    BodyTextPrefix(a[m..], x, r);
    ExtractAcross(a, x, other, m, a[m..]);
    ExtractAcross(a, r, other, m, a[m..]);
  }

  lemma HeaderFollows(a: string, m: nat, k: nat)
    requires At(a, NEXT_HEADER, k) && m <= k
    ensures m <= |a| && IndexOf(a[m..], NEXT_HEADER, 0) >= 0
  {
    hide IndexOf;
    AtSlice(a, m, |a|, NEXT_HEADER, k - m);
    assert a[m..|a|] == a[m..];
    IndexOfAtMost(a[m..], NEXT_HEADER, 0, k - m);
  }

  lemma FirstInBoth(a: string, r: string, x: string, other: HeaderText, j: nat)
    requires IndexOf(a + r, other, 0) == j && j + |other| <= |a|
    requires forall i :: 0 <= i < j && At(a + x, other, i) ==> At(a, other, i)
    ensures IndexOf(a + x, other, 0) == j
  {
    hide IndexOf;
    AtExtends(a, r, other, j);
    AtExtends(a, x, other, j);
    forall i | 0 <= i < j ensures !At(a + x, other, i) {
      AtExtends(a, r, other, i);
    }
    IndexOfIs(a + x, other, 0, j);
  }

  /** Only what follows the written section holds the other one. */
  lemma ExtractKept(a: string, t: string, after: string, other: HeaderText)
    requires !Contains(t, other) && forall i: nat :: !At(a, other, i)
    ensures ExtractSection(a + Tail(t, after), other) == ExtractSection(after, other)
  {
    var x := a + ("\n" + t + "\n");
    FirstInKept(a, t, after, other);
    hide *;
    assert a + Tail(t, after) == x + after by {
      TailSplitAfter(a, t, after);
    }
    ExtractShifted(x, after, other);
  }

  lemma TailSplitAfter(a: string, t: string, after: string)
    ensures a + Tail(t, after) == a + ("\n" + t + "\n") + after
  {
  }

  lemma FirstInKept(a: string, t: string, after: string, other: HeaderText)
    requires !Contains(t, other) && forall i: nat :: !At(a, other, i)
    ensures var x, k := a + ("\n" + t + "\n"), IndexOf(after, other, 0);
            IndexOf(x + after, other, 0) == if k < 0 then -1 else |x| + k
  {
    hide IndexOf;
    var x, k := a + ("\n" + t + "\n"), IndexOf(after, other, 0);
    TailSplitAfter(a, t, after);
    forall i: nat ensures At(x + after, other, i) ==> At(after, other, i - |x|) {
      OccurrenceInReplaced(a, t, after, other, i);
    }
    if k < 0 {
      NotFound(x + after, other, 0);
    } else {
      AtShift(x, after, other, |x| + k);
      IndexOfIs(x + after, other, 0, |x| + k);
    }
  }

  lemma ExtractShifted(x: string, after: string, other: HeaderText)
    requires var k := IndexOf(after, other, 0);
             IndexOf(x + after, other, 0) == if k < 0 then -1 else |x| + k
    ensures ExtractSection(x + after, other) == ExtractSection(after, other)
  {
    hide IndexOf, BodyText;
    var k := IndexOf(after, other, 0);
    if k >= 0 {
      ExtractSuffix(x, after, other, k + |other|);
      ExtractAt(after, other, k + |other|);
    }
  }

  lemma InHeader(a: string, n: nat, s: string, other: string, i: nat)
    requires At(a, s, n) && n <= i && i + |other| <= n + |s|
    ensures At(a, other, i) <==> At(s, other, i - n)
  {
    AtSlice(a, n, n + |s|, other, i - n);
  }

  lemma NotInPart(c: string, s: HeaderText, other: HeaderText, a: string, r: string, i: nat)
    requires c == a + r && IndexOf(c, s, 0) >= 0 && |a| == IndexOf(c, s, 0) + |s|
    requires Apart(s, other) && IndexOf(c, s, 0) <= IndexOf(c, other, 0)
    ensures !At(a, other, i)
  {
    hide IndexOf;
    var n := IndexOf(c, s, 0);
    AtExtends(a, r, other, i);
    AtExtends(a, r, s, n);
    if n <= i && i + |other| <= |a| {
      InHeader(a, n, s, other, i);
    }
  }

  /** Headers with hashes at their begin only do not overlap. */
  lemma HeadersDoNotOverlap(c: string, s: HeaderText, other: HeaderText, i: nat, j: nat)
    requires At(c, s, i) && At(c, other, j) && j < i && IsPlain(other)
    ensures j + |other| <= i
  {
    AtChar(c, s, i, 0);
    AtChar(c, s, i, 1);
    AtChar(c, other, j, 2);
    AtChar(c, other, j, if i - j < |other| then i - j else 0);
  }

  // ----- a document whose other section is swallowed -----

  lemma HeaderAroundBreak(a: string, b: string, i: nat)
    ensures At(a + ("\n" + b), NEXT_HEADER, i)
            <==> At(a, NEXT_HEADER, i) || At("\n" + b, NEXT_HEADER, i - |a|)
  {
    var u := a + ("\n" + b);
    AtExtends(a, "\n" + b, NEXT_HEADER, i);
    if i >= |a| {
      AtShift(a, "\n" + b, NEXT_HEADER, i);
    } else if i + 4 > |a| {
      AtChar(u, NEXT_HEADER, i, |a| - i);
    }
  }

  function Filler(n: nat): (r: string)
    ensures |r| == n && forall k :: 0 <= k < n ==> r[k] == 'x'
  {
    seq(n, _ => 'x')
  }

  lemma {:induction false} InkOfAll(s: string)
    ensures Ink(s) <= |s|
    ensures (forall k :: 0 <= k < |s| ==> !IsSpace(s[k])) ==> Ink(s) == |s|
  {
    if s != "" {
      InkOfAll(s[1..]);
    }
  }

  lemma FillerHoldsNothing(n: nat, other: HeaderText)
    ensures !Contains(Filler(n), other) && forall i :: !At("\n" + Filler(n), NEXT_HEADER, i)
  {
    CharAbsent(Filler(n), other, 0);
    forall i ensures !At("\n" + Filler(n), NEXT_HEADER, i) {
      AtChar("\n" + Filler(n), NEXT_HEADER, i, 1);
    }
  }

  lemma BodyBeforeTail(y: string, after: string)
    requires IndexOf(y, NEXT_HEADER, 0) < 0 && (after == "" || At(after, NEXT_HEADER, 0))
    ensures BodyText(y + ("\n" + after)) == Trim(y)
  {
    NextHeaderAcrossBreak(y, after);
    if after == "" {
      NothingAppended("\n");
      WholeBody(y, "\n");
    } else {
      CutAtBreak(y, after);
    }
  }

  /** Without a header in between, the other body takes in all of the text that is written. */
  lemma SwallowedBody(a: string, n: nat, after: string, other: HeaderText, m: nat)
    requires after == "" || At(after, NEXT_HEADER, 0)
    requires IndexOf(a + Tail(Filler(n), after), other, 0) >= 0
    requires m == IndexOf(a + Tail(Filler(n), after), other, 0) + |other|
    requires m <= |a| && IndexOf(a[m..], NEXT_HEADER, 0) < 0
    ensures Ink(ExtractSection(a + Tail(Filler(n), after), other)) >= n
  {
    hide *;
    ExtractAcross(a, Tail(Filler(n), after), other, m, a[m..]);
    SwallowedText(a[m..], n, after);
  }

  lemma SwallowedText(p: string, n: nat, after: string)
    requires after == "" || At(after, NEXT_HEADER, 0)
    requires IndexOf(p, NEXT_HEADER, 0) < 0
    ensures Ink(BodyText(p + Tail(Filler(n), after))) >= n
  {
    var t := Filler(n);
    var y := p + ("\n" + t);
    FillerAfter(p, n);
    TailOfLine(p, t, after);
    hide BodyText, IndexOf, Tail;
    BodyBeforeTail(y, after);
    InkTrim(y);
    InkAppend(p, "\n" + t);
    InkAppend("\n", t);
    InkOfAll(t);
  }

  lemma TailOfLine(p: string, t: string, after: string)
    ensures p + Tail(t, after) == (p + ("\n" + t)) + ("\n" + after)
  {
  }

  lemma FillerAfter(p: string, n: nat)
    requires IndexOf(p, NEXT_HEADER, 0) < 0
    ensures IndexOf(p + ("\n" + Filler(n)), NEXT_HEADER, 0) < 0
  {
    hide IndexOf, At;
    forall i: nat ensures !At(p + ("\n" + Filler(n)), NEXT_HEADER, i) {
      HeaderAroundBreak(p, Filler(n), i);
      FillerHoldsNothing(n, "## A");
    }
    NotFound(p + ("\n" + Filler(n)), NEXT_HEADER, 0);
  }

  lemma ExtractIsShort(c: string, h: HeaderText)
    ensures Ink(ExtractSection(c, h)) <= |c|
  {
    var j := IndexOf(c, h, 0);
    if j >= 0 {
      var after := c[j + |h|..];
      var n := IndexOf(after, NEXT_HEADER, 0);
      var x := if n < 0 then after else after[..n];
      ExtractAt(c, h, j + |h|);
      InkTrim(x);
      InkOfAll(x);
    }
  }

  lemma FirstInReplaced(a: string, r: string, t: string, after: string, other: HeaderText, j: nat)
    requires IndexOf(a + r, other, 0) == j && j + |other| <= |a|
    ensures IndexOf(a + Tail(t, after), other, 0) == j
  {
    forall i | 0 <= i < j && At(a + Tail(t, after), other, i) ensures At(a, other, i) {
      OccurrenceInReplaced(a, t, after, other, i);
    }
    hide *;
    FirstInBoth(a, r, Tail(t, after), other, j);
  }

  /** No header stands from `m` on in the part that ends with the header of the written section. */
  lemma NoneBefore(a: string, r: string, s: HeaderText, i: nat, m: nat)
    requires |a| == i + |s| && At(a + r, s, i) && m <= i
    requires var k := IndexOf(a + r, NEXT_HEADER, m); k < 0 || k >= i
    ensures IndexOf(a[m..], NEXT_HEADER, 0) < 0
  {
    hide IndexOf, At;
    AtExtends(a, r, s, i);
    SplitAt(a, m);
    forall k: nat ensures !At(a[m..], NEXT_HEADER, k) {
      AtShift(a[..m], a[m..], NEXT_HEADER, m + k);
      AtExtends(a, r, NEXT_HEADER, m + k);
      HeaderBeforeHeader(a, s, i, m + k);
    }
    NotFound(a[m..], NEXT_HEADER, 0);
  }

  /** A line break stands before the last header of a text, not in it. */
  lemma HeaderBeforeHeader(a: string, s: HeaderText, i: nat, k: nat)
    requires At(a, s, i) && |a| == i + |s|
    ensures At(a, NEXT_HEADER, k) ==> k < i
  {
    AtChar(a, NEXT_HEADER, k, 0);
    AtChar(a, s, i, if 0 <= k - i < |s| then k - i else 0);
  }

  /** If no header ends the other section before the written one, a long text shows in it. */
  lemma SwallowedBreaksFrame(c: string, s: HeaderText, other: HeaderText)
    requires Apart(s, other) && IsPlain(other)
    requires 0 <= IndexOf(c, other, 0) < IndexOf(c, s, 0) && !Framed(c, s, other)
    ensures ExtractSection(ReplaceIn(c, s, Filler(|c| + 1)), other) != ExtractSection(c, other)
  {
    hide *;
    var i, j, t := IndexOf(c, s, 0), IndexOf(c, other, 0), Filler(|c| + 1);
    NotEndedBetween(c, s, other);
    var a, r := ReplacedAround(c, s, t);
    HeadersDoNotOverlap(c, s, other, i, j);
    FirstInReplaced(a, r, t, After(c, s), other, j);
    NoneBefore(a, r, s, i, j + |other|);
    AfterIsEmptyOrHeader(c, s);
    SwallowedBody(a, |c| + 1, After(c, s), other, j + |other|);
    ExtractIsShort(c, other);
  }

  lemma NotEndedBetween(c: string, s: HeaderText, other: HeaderText)
    requires 0 <= IndexOf(c, other, 0) < IndexOf(c, s, 0) && !Framed(c, s, other)
    ensures var i, j := IndexOf(c, s, 0), IndexOf(c, other, 0);
            && At(c, s, i) && At(c, other, j)
            && var k := IndexOf(c, NEXT_HEADER, j + |other|); k < 0 || k >= i
  {
    hide IndexOf;
  }

  // ----- a document whose last header is bare -----

  /** A bare header at the end is trimmed into the body that it ended. */
  lemma BareHeaderShows(c: string, lo: nat, hi: nat, s: HeaderText, x: string, m: nat)
    requires TrimsTo(c, lo, hi) && lo <= m <= hi && EndsInBareHeader(c, m)
    ensures BodyText(c[m..hi] + ("\n\n" + (s + x))) != BodyText(c[m..hi] + c[hi..])
  {
    var n := IndexOf(c, NEXT_HEADER, m);
    BareHeaderEnd(c, lo, hi, m, n);
    hide *;
    BareHeaderIsTrimmed(c, n, hi, m);
    BodyAtAppended(c[m..hi], s, x);
    BodyUpTo(c, m, n, hi);
    InkTrim(c[m..hi]);
    InkTrim(c[m..n]);
    InkAppend(c[m..n], c[n..hi]);
  }

  lemma BareHeaderEnd(c: string, lo: nat, hi: nat, m: nat, n: nat)
    requires TrimsTo(c, lo, hi) && m <= |c| && IndexOf(c, NEXT_HEADER, m) == n && IsBlank(c[n + 4..])
    ensures m <= n && hi == n + 3 <= |c| && Ink(c[n..hi]) > 0
  {
    AtChar(c, NEXT_HEADER, n, 1);
    AtChar(c, NEXT_HEADER, n, 2);
    AtChar(c, NEXT_HEADER, n, 3);
    assert forall k :: n + 4 <= k < |c| ==> c[k] == c[n + 4..][k - n - 4];
    assert hi == n + 3;
    assert c[n..hi][1..][0] == '#';
  }

  lemma BodyUpTo(c: string, m: nat, n: nat, hi: nat)
    requires m <= n <= hi <= |c| && IndexOf(c, NEXT_HEADER, m) == n
    ensures BodyText(c[m..hi] + c[hi..]) == Trim(c[m..n])
  {
    FirstFrom(c, m);
    assert c[m..hi] + c[hi..] == c[m..];
    assert c[m..][..n - m] == c[m..n];
  }

  lemma BareHeaderIsTrimmed(c: string, n: nat, hi: nat, m: nat)
    requires m <= n && hi == n + 3 && hi <= |c| && IndexOf(c, NEXT_HEADER, m) == n
    ensures IndexOf(c[m..hi], NEXT_HEADER, 0) < 0 && c[m..hi] == c[m..n] + c[n..hi]
  {
    forall k: nat ensures !At(c[m..hi], NEXT_HEADER, k) {
      AtSlice(c, m, hi, NEXT_HEADER, k);
    }
    NotFound(c[m..hi], NEXT_HEADER, 0);
  }

  // ----- the frame, for every document -----

  lemma BlankHoldsNoHeader(c: string, h: HeaderText)
    requires Trim(c) == ""
    ensures ExtractSection(c, h) == ""
  {
    var lo, hi := TrimBounds(c);
    var j := IndexOf(c, h, 0);
    if j >= 0 {
      HeaderInsideTrim(c, lo, hi, h, j);
    }
  }

  lemma FrameAbsent(c: string, s: HeaderText, other: HeaderText, t: string)
    requires IndexOf(c, other, 0) < 0 && Apart(s, other) && !Contains(t, other)
    ensures ExtractSection(ReplaceIn(c, s, t), other) == ExtractSection(c, other)
  {
    if IndexOf(c, s, 0) < 0 {
      ReplacedIsAppended(c, s, t);
      AppendedOtherMissing(c, s, other, t);
    } else {
      var a, r := ReplacedAround(c, s, t);
      FrameAbsentBoth(a, r, t, other);
    }
  }

  /** The written section is appended: only a bare header at the end can make a difference. */
  lemma FrameAppended(c: string, s: HeaderText, other: HeaderText, t: string)
    requires IndexOf(c, s, 0) < 0 <= IndexOf(c, other, 0) && Apart(s, other) && !Contains(t, other)
    ensures ExtractSection(ReplaceIn(c, s, t), other) == ExtractSection(c, other)
            <==> !EndsInBareHeader(c, IndexOf(c, other, 0) + |other|)
  {
    hide *;
    var lo, hi := TrimBounds(c);
    ReplacedIsAppended(c, s, t);
    var j := IndexOf(c, other, 0);
    AppendedShowsBareHeader(c, lo, hi, s, other, t, j);
  }

  lemma AppendedShowsBareHeader(c: string, lo: nat, hi: nat, s: HeaderText, other: HeaderText, t: string, j: nat)
    requires TrimsTo(c, lo, hi) && Apart(s, other) && !Contains(t, other) && IndexOf(c, other, 0) == j
    ensures j + |other| <= |c|
    ensures ExtractSection(Appended(c[lo..hi], s, t), other) == ExtractSection(c, other)
            <==> !EndsInBareHeader(c, j + |other|)
  {
    hide *;
    HeaderInsideTrim(c, lo, hi, other, j);
    TrimsToBounds(c, lo, hi);
    AppendedOtherFound(c, lo, hi, s, other, t, j);
    var m := j + |other|;
    if EndsInBareHeader(c, m) {
      BareHeaderShows(c, lo, hi, s, Tail(t, ""), m);
    } else {
      BodyCutByTrim(c, lo, hi, m, c[m..hi]);
      BodyCutByHeader(c[m..hi], s, Tail(t, ""), c[hi..]);
    }
  }

  lemma TrimsToBounds(c: string, lo: int, hi: int)
    requires TrimsTo(c, lo, hi)
    ensures 0 <= lo <= hi <= |c|
  {
  }

  /** The other section comes after: what is read then is what is kept. */
  lemma FrameAfter(c: string, s: HeaderText, other: HeaderText, t: string)
    requires 0 <= IndexOf(c, s, 0) <= IndexOf(c, other, 0) && Apart(s, other) && !Contains(t, other)
    ensures ExtractSection(ReplaceIn(c, s, t), other) == ExtractSection(After(c, s), other)
  {
    var a, r := ReplacedAround(c, s, t);
    forall i: nat ensures !At(a, other, i) {
      NotInPart(c, s, other, a, r, i);
    }
    ExtractKept(a, t, After(c, s), other);
  }

  /** The other section comes first and is ended before the written one. */
  lemma FrameEnded(c: string, s: HeaderText, other: HeaderText, t: string)
    requires 0 <= IndexOf(c, other, 0) < IndexOf(c, s, 0) && Framed(c, s, other)
    ensures ExtractSection(ReplaceIn(c, s, t), other) == ExtractSection(c, other)
  {
    var a, r := ReplacedAround(c, s, t);
    var j := IndexOf(c, other, 0);
    var k, after := IndexOf(c, NEXT_HEADER, j + |other|), After(c, s);
    hide Framed, ReplaceIn, After;
    AtExtends(a, r, NEXT_HEADER, k);
    forall i | 0 <= i < j && At(a + Tail(t, after), other, i) ensures At(a, other, i) {
      OccurrenceInReplaced(a, t, after, other, i);
    }
    FrameBefore(a, r, Tail(t, after), other, k);
  }

  /** In such a document every write whose text does not hold the other header leaves the other section alone. */
  lemma FrameIn(c: string, s: HeaderText, other: HeaderText, t: string)
    requires Framed(c, s, other) && Apart(s, other) && !Contains(t, other)
    ensures ExtractSection(ReplaceIn(c, s, t), other) == ExtractSection(c, other)
  {
    hide ReplaceIn, ExtractSection, IndexOf, After, EndsInBareHeader;
    var i, j := IndexOf(c, s, 0), IndexOf(c, other, 0);
    if j < 0 {
      FrameAbsent(c, s, other, t);
    } else if i < 0 {
      FrameAppended(c, s, other, t);
    } else if j < i {
      FrameEnded(c, s, other, t);
    } else {
      FrameAfter(c, s, other, t);
    }
  }

  ghost predicate KeepsOther(c: string, s: HeaderText, other: HeaderText) {
    forall t :: !Contains(t, other) ==> ExtractSection(ReplaceIn(c, s, t), other) == ExtractSection(c, other)
  }

  /** For every document: all such writes leave the other section alone, exactly if the document is framed. */
  lemma FramedExactly(c: string, s: HeaderText, other: HeaderText)
    requires Apart(s, other) && IsPlain(other)
    ensures KeepsOther(c, s, other) <==> Framed(c, s, other)
  {
    if Framed(c, s, other) {
      forall t | !Contains(t, other) {
        FrameIn(c, s, other, t);
      }
    } else {
      var t := UnframedShows(c, s, other);
    }
  }

  lemma UnframedShows(c: string, s: HeaderText, other: HeaderText) returns (t: string)
    requires Apart(s, other) && IsPlain(other) && !Framed(c, s, other)
    ensures !Contains(t, other) && ExtractSection(ReplaceIn(c, s, t), other) != ExtractSection(c, other)
  {
    hide ReplaceIn, ExtractSection, After, EndsInBareHeader;
    t := "";
    NotFound(t, other, 0);
    hide IndexOf;
    var i, j := IndexOf(c, s, 0), IndexOf(c, other, 0);
    if i < 0 {
      FrameAppended(c, s, other, t);
    } else if j < i {
      t := Filler(|c| + 1);
      FillerHoldsNothing(|c| + 1, other);
      SwallowedBreaksFrame(c, s, other);
    } else {
      FrameAfter(c, s, other, t);
    }
  }

  // ----- documents whose headings stand alone -----

  /** Every "## " begins a line, and something follows it. */
  ghost predicate HeadingsStandAlone(c: string) {
    forall i :: At(c, HASHES, i) ==> (i == 0 || c[i - 1] == '\n') && !IsBlank(c[i + 3..])
  }

  predicate BeginsLine(c: string, i: int) {
    i < 0 || i == 0 || (i <= |c| && c[i - 1] == '\n')
  }

  lemma HeaderBeginsLine(c: string, s: HeaderText)
    requires HeadingsStandAlone(c)
    ensures BeginsLine(c, IndexOf(c, s, 0))
  {
    var i := IndexOf(c, s, 0);
    if i >= 0 {
      assert c[i..i + 3] == c[i..i + |s|][..3];
      assert At(c, HASHES, i);
    }
  }

  lemma HashesAfterBreak(c: string, n: nat)
    requires At(c, NEXT_HEADER, n)
    ensures At(c, HASHES, n + 1)
  {
  }

  lemma KeptOccurrence(a: string, r: string, s: HeaderText, other: HeaderText, index: nat)
    requires |a| == index + |s| && At(a, s, index)
    requires IndexOf(a + r, other, 0) > index && BeginsLine(a + r, IndexOf(a + r, other, 0))
    ensures var j := IndexOf(a + r, other, 0);
            var n := IndexOf(r, NEXT_HEADER, 0);
            && 0 <= n <= j - 1 - |a|
            && IndexOf(r[n..], other, 0) == j - |a| - n
  {
    var h := other;
    var j := IndexOf(a + r, h, 0);
    assert (a + r)[j - 1] == '\n';
    if j - 1 < |a| {
      AtChar(a, s, index, j - 1 - index);
    }
    var q := j - 1 - |a|;
    AtShift(a, r, h, j);
    assert r[q] == (a + r)[j - 1];
    HeaderAfterBreak(r, other, q + 1);
    FirstInSuffix(a, r, h, IndexOf(r, NEXT_HEADER, 0), q + 1);
  }

  lemma KeptReadsTheSame(c: string, s: HeaderText, other: HeaderText)
    requires 0 <= IndexOf(c, s, 0) < IndexOf(c, other, 0) && BeginsLine(c, IndexOf(c, other, 0))
    ensures ExtractSection(After(c, s), other) == ExtractSection(c, other)
  {
    hide IndexOf, ReplaceIn, After, ExtractSection, BodyText;
    var a, r := ReplacedAround(c, s, "");
    var i, j, n := IndexOf(c, s, 0), IndexOf(c, other, 0), IndexOf(r, NEXT_HEADER, 0);
    AtExtends(a, r, s, i);
    KeptOccurrence(a, r, s, other, i);
    AddedPart(a, r, n);
    ExtractShifted(a + r[..n], r[n..], other);
  }

  lemma AddedPart(a: string, r: string, n: nat)
    requires n <= |r|
    ensures a + r == (a + r[..n]) + r[n..]
  {
  }

  /** A simple condition that suffices: the first headers of the two sections begin lines, and no header is bare. */
  lemma StandAloneIsFramed(c: string, s: HeaderText, other: HeaderText)
    requires HeadingsStandAlone(c) && Apart(s, other) && IsPlain(other)
    ensures Framed(c, s, other)
  {
    hide IndexOf, HeadingsStandAlone, EndsInBareHeader, ExtractSection, After, IsPlain, Apart;
    var i, j := IndexOf(c, s, 0), IndexOf(c, other, 0);
    HeaderBeginsLine(c, s);
    HeaderBeginsLine(c, other);
    if j >= 0 {
      if i < 0 {
        NoBareHeader(c, j + |other|);
      } else if j < i {
        EndedByLine(c, s, other, i, j);
      } else {
        HeadersDiffer(s, other, c, i);
        KeptReadsTheSame(c, s, other);
      }
    }
  }

  lemma NoBareHeader(c: string, m: nat)
    requires m <= |c| && HeadingsStandAlone(c)
    ensures !EndsInBareHeader(c, m)
  {
    var n := IndexOf(c, NEXT_HEADER, m);
    if n >= 0 {
      HashesAfterBreak(c, n);
    }
  }

  lemma EndedByLine(c: string, s: HeaderText, other: HeaderText, i: nat, j: nat)
    requires At(c, s, i) && At(c, other, j) && j < i && BeginsLine(c, i) && IsPlain(other)
    ensures 0 <= IndexOf(c, NEXT_HEADER, j + |other|) < i
  {
    hide IndexOf;
    HeadersDoNotOverlap(c, s, other, i, j);
    AtChar(c, other, j, |other| - 1);
    HeaderAfterBreak(c, s, i);
    IndexOfAtMost(c, NEXT_HEADER, j + |other|, i - 1);
  }

  // ----- the three sections -----

  lemma CharAbsent(c: string, h: string, k: nat)
    requires k < |h| && forall i :: 0 <= i < |c| ==> c[i] != h[k]
    ensures !Contains(c, h)
  {
    var j := IndexOf(c, h, 0);
    if j >= 0 {
      AtChar(c, h, j, k);
    }
  }

  lemma SectionsApart(s: Section, other: Section)
    requires s != other
    ensures Apart(Header(s), Header(other))
  {
    WorkingHoldsNoA();
    hide IndexOf;
    CharAbsent(Header(WorkingMemory), Header(Priority), 3);
    CharAbsent(Header(WorkingMemory), Header(Manual), 4);
    CharAbsent(Header(Priority), Header(Manual), 4);
  }

  lemma WorkingHoldsNoA()
    ensures var w := Header(WorkingMemory); forall i :: 0 <= i < |w| ==> w[i] != 'A' && w[i] != 'P'
  {
  }

  lemma HeadersArePlain(s: Section)
    ensures IsPlain(Header(s))
  {
  }

  /** Where a pattern stands that lies on one of the three lines. */
  lemma OccurrenceInThree(p: HeaderText, w: HeaderText, m: HeaderText, pat: string, i: int)
    requires |pat| > 0 && forall k :: 0 <= k < |pat| ==> pat[k] != '\n'
    ensures At(ThreeHeadings(p, w, m), pat, i)
            <==> At(p, pat, i) || At(w, pat, i - |p| - 2) || At(m, pat, i - |p| - |w| - 4)
  {
    hide At;
    var three := m + "\n";
    NothingAppended(three);
    OccurrenceInNext(m, "", pat, i - |p| - |w| - 4);
    OccurrenceAfterBlankLine(w, three, pat, i - |p| - 2);
    OccurrenceAfterBlankLine(p, w + ("\n\n" + three), pat, i);
  }

  lemma OccurrenceInNext(a: string, b: string, pat: string, i: int)
    requires |pat| > 0 && forall k :: 0 <= k < |pat| ==> pat[k] != '\n'
    ensures At(a + "\n", pat, i) <==> At(a, pat, i)
  {
    assert a + "\n" == a + "\n" + "";
    AtAroundBreak(a, "", pat, i);
  }

  lemma OccurrenceAfterBlankLine(a: string, b: string, pat: string, i: int)
    requires |pat| > 0 && forall k :: 0 <= k < |pat| ==> pat[k] != '\n'
    ensures At(a + ("\n\n" + b), pat, i) <==> At(a, pat, i) || At(b, pat, i - |a| - 2)
  {
    BlankLine(a, b);
    AtAroundBreak(a, "" + "\n" + b, pat, i);
    AtAroundBreak("", b, pat, i - |a| - 1);
  }

  lemma ThreeStandAlone(p: HeaderText, w: HeaderText, m: HeaderText)
    requires IsPlain(p) && IsPlain(w) && IsPlain(m)
    ensures HeadingsStandAlone(ThreeHeadings(p, w, m))
  {
    hide IsPlain;
    var c := ThreeHeadings(p, w, m);
    forall i | At(c, HASHES, i) ensures (i == 0 || c[i - 1] == '\n') && !IsBlank(c[i + 3..]) {
      OccurrenceInThree(p, w, m, HASHES, i);
      PlainAt(p, i);
      PlainAt(w, i - |p| - 2);
      PlainAt(m, i - |p| - |w| - 4);
      HeadingInThree(p, w, m, i);
    }
  }

  lemma PlainAt(h: string, i: int)
    requires IsPlain(h)
    ensures At(h, HASHES, i) ==> i == 0
  {
    AtChar(h, HASHES, i, 0);
    AtChar(h, HASHES, i, 1);
  }

  lemma HeadingInThree(p: HeaderText, w: HeaderText, m: HeaderText, i: int)
    requires i == 0 || i == |p| + 2 || i == |p| + |w| + 4
    ensures var c := ThreeHeadings(p, w, m);
            (i == 0 || c[i - 1] == '\n') && !IsBlank(c[i + 3..])
  {
    var c, last := ThreeHeadings(p, w, m), |p| + |w| + 3 + |m|;
    assert c[last] == m[|m| - 1];
    assert !IsSpace(c[i + 3..][last - i - 3]);
  }

  lemma ThreeAreEmpty(p: HeaderText, w: HeaderText, m: HeaderText)
    requires Apart(p, w) && Apart(p, m) && Apart(w, m)
    ensures var c := ThreeHeadings(p, w, m);
            ExtractSection(c, p) == ExtractSection(c, w) == ExtractSection(c, m) == ""
  {
    FirstOfThree(p, w, m, p, 0);
    FirstOfThree(p, w, m, w, |p| + 2);
    FirstOfThree(p, w, m, m, |p| + |w| + 4);
    hide *;
    PartsOfThree(p, w, m);
    var c := ThreeHeadings(p, w, m);
    SectionFollowed(c, "", p, w, "\n\n" + (m + "\n"));
    SectionFollowed(c, p + "\n\n", w, m, "\n");
    SectionLast(c, p + "\n\n" + w + "\n\n", m);
  }

  lemma PartsOfThree(p: HeaderText, w: HeaderText, m: HeaderText)
    ensures var c := ThreeHeadings(p, w, m);
            && c == "" + (p + ("\n\n" + (w + ("\n\n" + (m + "\n")))))
            && c == (p + "\n\n") + (w + ("\n\n" + (m + "\n")))
            && c == (p + "\n\n" + w + "\n\n") + (m + "\n")
  {
  }

  lemma SectionFollowed(c: string, x: string, h: HeaderText, other: HeaderText, rest: string)
    requires c == x + (h + ("\n\n" + (other + rest))) && IndexOf(c, h, 0) == |x|
    ensures ExtractSection(c, h) == ""
  {
    hide BodyText, IndexOf, ExtractSection;
    var y := "\n\n" + (other + rest);
    ExtractSuffix(x, h + y, h, |h|);
    DropPrefix(h, y, 0, |h|);
    BlankLineEndsBody(other, rest);
  }

  lemma BlankLineEndsBody(other: HeaderText, rest: string)
    ensures BodyText("\n\n" + (other + rest)) == ""
  {
    var y := "\n\n" + (other + rest);
    NotFound("", NEXT_HEADER, 0);
    BodyAtAppended("", other, rest);
    hide *;
    assert "" + y == y;
  }

  lemma SectionLast(c: string, x: string, h: HeaderText)
    requires c == x + (h + "\n") && IndexOf(c, h, 0) == |x|
    ensures ExtractSection(c, h) == ""
  {
    ExtractSuffix(x, h + "\n", h, |h|);
    DropPrefix(h, "\n", 0, |h|);
    NotFound("" + "\n", NEXT_HEADER, 0);
    WholeBody("", "\n");
    hide *;
    assert "" + "\n" == "\n";
  }

  lemma FirstOfThree(p: HeaderText, w: HeaderText, m: HeaderText, h: HeaderText, n: nat)
    requires Apart(p, w) && Apart(p, m) && Apart(w, m)
    requires (h == p && n == 0) || (h == w && n == |p| + 2) || (h == m && n == |p| + |w| + 4)
    ensures IndexOf(ThreeHeadings(p, w, m), h, 0) == n
  {
    forall i: nat ensures At(ThreeHeadings(p, w, m), h, i) <==> i == n {
      OccurrenceInThree(p, w, m, h, i);
    }
    IndexOfIs(ThreeHeadings(p, w, m), h, 0, n);
  }

  lemma EmptyNotepad()
    ensures HeadingsStandAlone(EMPTY_NOTEPAD)
    ensures forall s: Section :: ExtractSection(EMPTY_NOTEPAD, Header(s)) == ""
  {
    var p, w, m := Header(Priority), Header(WorkingMemory), Header(Manual);
    HeadersArePlain(Priority);
    HeadersArePlain(WorkingMemory);
    HeadersArePlain(Manual);
    SectionsApart(Priority, WorkingMemory);
    SectionsApart(Priority, Manual);
    SectionsApart(WorkingMemory, Manual);
    hide *;
    ThreeStandAlone(p, w, m);
    ThreeAreEmpty(p, w, m);
    forall s: Section ensures ExtractSection(EMPTY_NOTEPAD, Header(s)) == "" {
      match s
      case Priority =>
      case WorkingMemory =>
      case Manual =>
    }
  }

  lemma ReadsAsSource(content: string, other: Section)
    ensures ExtractSection(Source(content), Header(other)) == ExtractSection(content, Header(other))
  {
    if Trim(content) == "" {
      EmptyNotepad();
      BlankHoldsNoHeader(content, Header(other));
    }
  }

  /** In a framed document, empty ones included, a write without the other header leaves the other section alone. */
  lemma Frame(content: string, s: Section, other: Section, t: string)
    requires s != other && Framed(Source(content), Header(s), Header(other)) && !Contains(t, Header(other))
    ensures ExtractSection(ReplaceSection(content, Header(s), t), Header(other))
            == ExtractSection(content, Header(other))
  {
    SectionsApart(s, other);
    FrameIn(Source(content), Header(s), Header(other), t);
    ReadsAsSource(content, other);
  }

  /** Every write whose text does not hold the other header leaves that section of the document alone. */
  ghost predicate KeepsSection(content: string, s: Section, other: Section) {
    forall t :: !Contains(t, Header(other)) ==>
      ExtractSection(ReplaceSection(content, Header(s), t), Header(other)) == ExtractSection(content, Header(other))
  }

  /** For every document: that holds exactly if the document is framed. */
  lemma KeepsSectionExactly(content: string, s: Section, other: Section)
    requires s != other
    ensures KeepsSection(content, s, other) <==> Framed(Source(content), Header(s), Header(other))
  {
    SectionsApart(s, other);
    HeadersArePlain(other);
    ReadsAsSource(content, other);
    hide Framed, Header, Source;
    FramedExactly(Source(content), Header(s), Header(other));
  }

  /** A document in which every "## " begins a line and has something after it is framed for all its sections. */
  lemma StandAloneKeepsSections(content: string, s: Section, other: Section)
    requires HeadingsStandAlone(content) && s != other
    ensures Framed(Source(content), Header(s), Header(other)) && KeepsSection(content, s, other)
  {
    SectionsApart(s, other);
    HeadersArePlain(other);
    EmptyNotepad();
    StandAloneIsFramed(Source(content), Header(s), Header(other));
    KeepsSectionExactly(content, s, other);
  }

  // ----- a text that holds the other header breaks the frame -----

  /** A body of the other section, longer than the text that is written. */
  function LongSection(other: HeaderText, n: nat): string {
    "\n" + (other + ("\n" + Filler(n)))
  }

  function Victim(s: HeaderText, other: HeaderText, n: nat): string {
    s + ("\n" + LongSection(other, n))
  }

  lemma VictimOccurrence(s: HeaderText, other: HeaderText, n: nat, pat: string, i: int)
    requires |pat| > 0 && pat[0] == '#' && forall k :: 0 <= k < |pat| ==> pat[k] != '\n'
    ensures At(Victim(s, other, n), pat, i) <==> At(s, pat, i) || At(other, pat, i - |s| - 2)
  {
    var c, o := Victim(s, other, n), other + "\n" + Filler(n);
    assert c == s + "\n" + ("" + "\n" + o);
    AtAroundBreak(s, "" + "\n" + o, pat, i);
    AtAroundBreak("", o, pat, i - |s| - 1);
    AtAroundBreak(other, Filler(n), pat, i - |s| - 2);
    AtChar(Filler(n), pat, i - |s| - |other| - 3, 0);
  }

  lemma VictimStandsAlone(s: HeaderText, other: HeaderText, n: nat)
    requires IsPlain(s) && IsPlain(other)
    ensures HeadingsStandAlone(Victim(s, other, n))
  {
    hide IsPlain, Victim;
    var c := Victim(s, other, n);
    forall i | At(c, HASHES, i) ensures (i == 0 || c[i - 1] == '\n') && !IsBlank(c[i + 3..]) {
      VictimOccurrence(s, other, n, HASHES, i);
      PlainAt(s, i);
      PlainAt(other, i - |s| - 2);
      VictimHeading(s, other, n, i);
    }
  }

  lemma VictimHeading(s: HeaderText, other: HeaderText, n: nat, i: nat)
    requires i == 0 || i == |s| + 2
    ensures var c := Victim(s, other, n);
            i + 3 <= |c| && (i == 0 || c[i - 1] == '\n') && !IsBlank(c[i + 3..])
  {
    var c, last := Victim(s, other, n), |s| + 1 + |other|;
    assert c[last] == other[|other| - 1];
    assert !IsSpace(c[i + 3..][last - i - 3]);
  }

  lemma VictimHolds(s: HeaderText, other: HeaderText, n: nat)
    requires Apart(s, other) && n > 0
    ensures |ExtractSection(Victim(s, other, n), other)| == n
  {
    var c, z := Victim(s, other, n), other + ("\n" + Filler(n));
    forall i: nat {
      VictimOccurrence(s, other, n, other, i);
    }
    assert At(other, other, 0);
    IndexOfIs(c, other, 0, |s| + 2);
    assert c == (s + "\n\n") + z;
    ExtractSuffix(s + "\n\n", z, other, |other|);
    assert z[|other|..] == "\n" + Filler(n);
    FillerIsABody(n);
  }

  lemma FillerIsABody(n: nat)
    requires n > 0
    ensures BodyText("\n" + Filler(n)) == Filler(n)
  {
    var x := "\n" + Filler(n);
    forall i: nat ensures !At(x, NEXT_HEADER, i) {
      AtChar(x, NEXT_HEADER, i, 1);
    }
    NotFound(x, NEXT_HEADER, 0);
    TrimIs(x, 1, n + 1);
  }

  /** A body that begins in `p` ends in `p`, when a header follows. */
  lemma ShortBody(p: string, after: string)
    requires At(after, NEXT_HEADER, 0)
    ensures |BodyText(p + ("\n" + after))| <= |p|
  {
    var x := p + ("\n" + after);
    var k := IndexOf(p, NEXT_HEADER, 0);
    NextHeaderAcrossBreak(p, after);
    if k < 0 {
      CutAtBreak(p, after);
      var lo, hi := TrimBounds(p);
    } else {
      var lo, hi := TrimBounds(x[..k]);
    }
  }

  lemma LongSectionFollows(s: HeaderText, other: HeaderText, n: nat, t: string)
    ensures At(LongSection(other, n), NEXT_HEADER, 0)
    ensures ReplaceIn(Victim(s, other, n), s, t) == s + Tail(t, LongSection(other, n))
  {
    var c, rest := Victim(s, other, n), LongSection(other, n);
    HashesAtStart(other + ("\n" + Filler(n)));
    assert (other + ("\n" + Filler(n)))[0..3] == HASHES;
    assert c[0..|s|] == s;
    IndexOfIs(c, s, 0, 0);
    SuffixAfter(c, s, |s|);
    DropPrefix(s, "\n" + rest, 0, |s|);
    NextHeaderAcrossBreak("", rest);
    assert "" + ("\n" + rest) == "\n" + rest;
    ReplacedParts(c, s, t);
  }

  lemma LeakedAt(s: HeaderText, other: HeaderText, t: string, rest: string)
    requires Apart(s, other) && Contains(t, other)
    ensures IndexOf(s + Tail(t, rest), other, 0) == |s| + 1 + IndexOf(t, other, 0)
  {
    var k := IndexOf(t, other, 0);
    forall i: nat | i <= |s| + 1 + k
      ensures At(s + Tail(t, rest), other, i) <==> i == |s| + 1 + k
    {
      OccurrenceInReplaced(s, t, rest, other, i);
    }
    IndexOfIs(s + Tail(t, rest), other, 0, |s| + 1 + k);
  }

  lemma LeakedBody(s: HeaderText, other: HeaderText, t: string, rest: string)
    requires Apart(s, other) && Contains(t, other) && At(rest, NEXT_HEADER, 0)
    ensures |ExtractSection(s + Tail(t, rest), other)| <= |t|
  {
    LeakedAt(s, other, t, rest);
    TailSplit(s, t, rest);
    var m := IndexOf(t, other, 0) + |other|;
    ExtractInside(s + "\n", t, "\n" + rest, other, m);
    ShortBody(t[m..], rest);
  }

  lemma TailSplit(s: string, t: string, rest: string)
    ensures s + Tail(t, rest) == (s + "\n") + (t + ("\n" + rest))
  {
  }

  lemma ExtractInside(x: string, t: string, y: string, other: HeaderText, m: nat)
    requires |other| <= m <= |t| && IndexOf(x + (t + y), other, 0) == |x| + m - |other|
    ensures ExtractSection(x + (t + y), other) == BodyText(t[m..] + y)
  {
    hide BodyText, IndexOf, ExtractSection;
    ExtractSuffix(x, t + y, other, m);
    DropFromFirst(t, y, m);
  }

  lemma FrameFails(s: HeaderText, other: HeaderText, t: string)
    requires Apart(s, other) && IsPlain(s) && IsPlain(other) && Contains(t, other)
    ensures var c := Victim(s, other, |t| + 1);
            && HeadingsStandAlone(c) && Trim(c) != ""
            && ExtractSection(ReplaceIn(c, s, t), other) != ExtractSection(c, other)
  {
    var n := |t| + 1;
    VictimStandsAlone(s, other, n);
    VictimHolds(s, other, n);
    LongSectionFollows(s, other, n, t);
    LeakedBody(s, other, t, LongSection(other, n));
    VictimIsNotBlank(s, other, n);
  }

  lemma VictimIsNotBlank(s: HeaderText, other: HeaderText, n: nat)
    ensures Trim(Victim(s, other, n)) != ""
  {
    InkTrim(Victim(s, other, n));
    InkAppend(s, "\n" + LongSection(other, n));
  }

  /** A write leaves the other section of all framed documents alone, exactly if its text does not hold that header. */
  lemma FrameExactly(s: Section, other: Section, t: string)
    requires s != other
    ensures (forall content :: Framed(Source(content), Header(s), Header(other)) ==>
              ExtractSection(ReplaceSection(content, Header(s), t), Header(other))
              == ExtractSection(content, Header(other)))
            <==> !Contains(t, Header(other))
  {
    if Contains(t, Header(other)) {
      SectionsApart(s, other);
      HeadersArePlain(s);
      HeadersArePlain(other);
      FrameFails(Header(s), Header(other), t);
      StandAloneKeepsSections(Victim(Header(s), Header(other), |t| + 1), s, other);
    } else {
      forall content | Framed(Source(content), Header(s), Header(other)) {
        Frame(content, s, other, t);
      }
    }
  }
}
