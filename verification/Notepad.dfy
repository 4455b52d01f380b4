/**
 The project notepad (src/application/system/notepad.ts): a text document used as a record of
 three sections, read and replaced by substring search.
 */
module Notepad {
  import opened Text

  datatype Section = Priority | WorkingMemory | Manual

  /** A header begins with "## " and is text on one line without white space at its end. */
  predicate IsHeader(h: string) {
    && |h| > 3 && h[0] == '#' && h[1] == '#' && h[2] == ' '
    && (forall k :: 0 <= k < |h| ==> h[k] != '\n')
    && !IsSpace(h[|h| - 1])
  }

  type HeaderText = h: string | IsHeader(h) witness "## A"

  function Header(section: Section): HeaderText {
    match section
    case Priority => "## PRIORITY"
    case WorkingMemory => "## WORKING MEMORY"
    case Manual => "## MANUAL"
  }

  const NEXT_HEADER := "\n## "
  const HASHES := "## "
  const EMPTY_NOTEPAD := ThreeHeadings(Header(Priority), Header(WorkingMemory), Header(Manual))

  function ThreeHeadings(p: HeaderText, w: HeaderText, m: HeaderText): string {
    p + ("\n\n" + (w + ("\n\n" + (m + "\n"))))
  }

  function ExtractSection(content: string, s: HeaderText): string {
    var index := IndexOf(content, s, 0);
    if index < 0 then ""
    else BodyFrom(content, index + |s|)
  }

  /** The body that begins at position `m`. */
  function BodyFrom(content: string, m: nat): string
    requires m <= |content|
  {
    BodyText(content[m..])
  }

  /** The text after a header, up to the next header. */
  function BodyText(after: string): string {
    var next := IndexOf(after, NEXT_HEADER, 0);
    Trim(if next < 0 then after else after[..next])
  }

  function Source(content: string): string {
    if Trim(content) != "" then content else EMPTY_NOTEPAD
  }

  function ReplaceSection(content: string, s: HeaderText, next: string): string {
    ReplaceIn(Source(content), s, next)
  }

  function ReplaceIn(source: string, s: HeaderText, next: string): string {
    var index := IndexOf(source, s, 0);
    if index < 0 then Trim(source) + "\n\n" + s + "\n" + next + "\n"
    else
      var nextHeader := IndexOf(source, NEXT_HEADER, index + |s|);
      if nextHeader < 0 then source[..index] + s + "\n" + next + "\n"
      else source[..index] + s + "\n" + next + "\n" + source[nextHeader..]
  }

  function AppendToSection(content: string, s: HeaderText, entry: string): string {
    var existing := ExtractSection(content, s);
    ReplaceSection(content, s, if existing != "" then existing + "\n" + entry else entry)
  }

  // ----- the frame around a replaced section -----

  function Before(source: string, s: HeaderText): string {
    var index := IndexOf(source, s, 0);
    if index < 0 then Trim(source) + "\n\n" else source[..index]
  }

  /** What is left of a text from the next header on. */
  function FromHeader(r: string): string {
    var n := IndexOf(r, NEXT_HEADER, 0);
    if n < 0 then "" else r[n..]
  }

  function After(source: string, s: HeaderText): string {
    var index := IndexOf(source, s, 0);
    if index < 0 then "" else HeaderFrom(source, index + |s|)
  }

  /** What is left from the next header on, looked for from position `m`. */
  function HeaderFrom(source: string, m: nat): string
    requires m <= |source|
  {
    FromHeader(source[m..])
  }

  /** The new body with the line breaks around it, and what follows. */
  function Tail(next: string, after: string): string {
    "\n" + next + "\n" + after
  }

  lemma Regroup(b: string, h: string, n: string, t: string, m: string, a: string)
    ensures b + h + n + t + m + a == b + (h + (n + t + m + a))
  {
  }

  lemma ReplacedParts(source: string, s: HeaderText, next: string)
    ensures ReplaceIn(source, s, next) == Before(source, s) + (s + Tail(next, After(source, s)))
  {
    if IndexOf(source, s, 0) < 0 {
      ReplacedMissing(source, s, next);
    } else {
      ReplacedFound(source, s, next);
    }
  }

  lemma ReplacedMissing(source: string, s: HeaderText, next: string)
    requires IndexOf(source, s, 0) < 0
    ensures ReplaceIn(source, s, next) == Before(source, s) + (s + Tail(next, After(source, s)))
  {
  }

  lemma ReplacedFound(source: string, s: HeaderText, next: string)
    requires IndexOf(source, s, 0) >= 0
    ensures ReplaceIn(source, s, next) == Before(source, s) + (s + Tail(next, After(source, s)))
  {
    var n := AfterIs(source, s);
    var b, after := Before(source, s), After(source, s);
    FoundForm(source, s, next, n, after);
    Regroup(b, s, "\n", next, "\n", after);
  }

  lemma FoundForm(source: string, s: HeaderText, next: string, n: int, after: string)
    requires IndexOf(source, s, 0) >= 0 && n == IndexOf(source, NEXT_HEADER, IndexOf(source, s, 0) + |s|)
    requires after == if n < 0 then "" else source[n..]
    ensures ReplaceIn(source, s, next) == Before(source, s) + s + "\n" + next + "\n" + after
  {
    hide IndexOf, After, FromHeader, Tail;
  }

  lemma AfterIs(source: string, s: HeaderText) returns (n: int)
    requires IndexOf(source, s, 0) >= 0
    ensures n == IndexOf(source, NEXT_HEADER, IndexOf(source, s, 0) + |s|)
    ensures After(source, s) == if n < 0 then "" else source[n..]
  {
    hide *;
    var m := IndexOf(source, s, 0) + |s|;
    n := IndexOf(source, NEXT_HEADER, m);
    AfterFound(source, s, m);
    HeaderFromIs(source, m);
    SplitAt(source, m);
    FromHeaderAfter(source[..m], source[m..], n);
  }

  lemma NothingAppended(s: string)
    ensures s + "" == s
  {
  }

  lemma SplitAt(s: string, m: nat)
    requires m <= |s|
    ensures s == s[..m] + s[m..]
  {
  }

  lemma DropPrefix(p: string, x: string, k: nat, n: nat)
    requires k <= |x| && n == |p| + k
    ensures (p + x)[n..] == x[k..]
  {
  }

  lemma FromHeaderAfter(a: string, r: string, k: int)
    requires k == IndexOf(a + r, NEXT_HEADER, |a|)
    ensures k < 0 <==> IndexOf(r, NEXT_HEADER, 0) < 0
    ensures FromHeader(r) == if k < 0 then "" else (a + r)[k..]
  {
    hide IndexOf, At;
    IndexOfShift(a, r, NEXT_HEADER, 0);
    FromHeaderIs(r);
    var n := IndexOf(r, NEXT_HEADER, 0);
    if n >= 0 {
      DropPrefix(a, r, n, k);
    }
  }

  lemma HeaderFromIs(source: string, m: nat)
    requires m <= |source|
    ensures HeaderFrom(source, m) == FromHeader(source[m..])
  {
    hide FromHeader;
  }

  lemma FromHeaderIs(r: string)
    ensures var n := IndexOf(r, NEXT_HEADER, 0);
            n <= |r| && FromHeader(r) == if n < 0 then "" else r[n..]
  {
    hide IndexOf;
  }

  /** An occurrence of text without a line break lies before or after the break. */
  lemma AtAroundBreak(a: string, b: string, pat: string, i: int)
    requires forall k :: 0 <= k < |pat| ==> pat[k] != '\n'
    requires |pat| > 0
    ensures At(a + "\n" + b, pat, i) <==> At(a, pat, i) || At(b, pat, i - |a| - 1)
  {
    var s := a + "\n" + b;
    if At(s, pat, i) && i <= |a| && i + |pat| > |a| {
      AtChar(s, pat, i, |a| - i);
    }
    AtExtends(a, "\n" + b, pat, i);
    assert s == a + ("\n" + b) && s == (a + "\n") + b;
    if i >= |a| + 1 {
      AtShift(a + "\n", b, pat, i);
    }
  }

  lemma TrimmedSourceHasNoHeader(source: string, s: HeaderText, i: int)
    requires IndexOf(source, s, 0) < 0
    ensures !At(Trim(source), s, i)
  {
    var lo, hi := TrimBounds(source);
    if i >= 0 {
      AtSlice(source, lo, hi, s, i);
    }
  }

  /** The header of the section first occurs right after the part before it, whatever follows. */
  lemma HeaderIsFirst(source: string, s: HeaderText, x: string)
    ensures IndexOf(Before(source, s) + (s + x), s, 0) == |Before(source, s)|
  {
    var h, b := s, Before(source, s);
    var index := IndexOf(source, h, 0);
    AtShift(b, h + x, h, |b|);
    assert At(h + x, h, 0);
    forall i | 0 <= i < |b| ensures !At(b + (h + x), h, i) {
      if index < 0 {
        var t := Trim(source);
        assert b + (h + x) == t + "\n" + ("\n" + (h + x));
        AtAroundBreak(t, "\n" + (h + x), h, i);
        TrimmedSourceHasNoHeader(source, s, i);
        assert !At("\n" + (h + x), h, i - |t| - 1) by {
          AtChar("\n" + (h + x), h, 0, 0);
        }
      } else {
        PrefixOccurrence(source, index, h, x, i);
      }
    }
    IndexOfIs(b + (h + x), h, 0, |b|);
  }

  lemma PrefixOccurrence(source: string, index: nat, h: string, x: string, i: nat)
    requires At(source, h, index) && i < index && !At(source, h, i)
    ensures !At(source[..index] + (h + x), h, i)
  {
    var b := source[..index];
    assert source[..index + |h|] == b + h;
    assert source == (b + h) + source[index + |h|..];
    assert b + (h + x) == (b + h) + x;
    AtExtends(b + h, source[index + |h|..], h, i);
    AtExtends(b + h, x, h, i);
  }

  lemma AfterIsEmptyOrHeader(source: string, s: HeaderText)
    ensures After(source, s) == "" || At(After(source, s), NEXT_HEADER, 0)
  {
  }

  /** What is read from a replaced section: the new text up to the next header. */
  lemma ExtractReplaced(source: string, s: HeaderText, next: string)
    ensures ExtractSection(ReplaceIn(source, s, next), s) == BodyText(Tail(next, After(source, s)))
  {
    var b, x := Before(source, s), Tail(next, After(source, s));
    ReplacedParts(source, s, next);
    HeaderIsFirst(source, s, x);
    Assoc(b, s, x);
    var m := |b| + |s|;
    ExtractAt(b + (s + x), s, m);
    DropPrefix(b + s, x, 0, m);
  }

  lemma ExtractAt(c: string, s: HeaderText, m: nat)
    requires IndexOf(c, s, 0) >= 0 && m == IndexOf(c, s, 0) + |s|
    ensures m <= |c| && ExtractSection(c, s) == BodyFrom(c, m)
  {
    hide BodyText, IndexOf;
  }

  // ----- text that a section can hold -----

  /** The text neither begins with "## " nor holds a line that does. */
  predicate Clean(t: string) {
    !StartsWith(t, HASHES) && !Contains(t, NEXT_HEADER)
  }

  lemma HashesAtStart(t: string)
    ensures At("\n" + t, NEXT_HEADER, 0) <==> At(t, HASHES, 0)
  {
    var u := "\n" + t;
    if |t| >= 3 {
      assert u[0..4] == "\n" + t[0..3];
      assert u[0..4][1..] == t[0..3];
      assert NEXT_HEADER == "\n" + HASHES && NEXT_HEADER[1..] == HASHES;
    }
  }

  lemma CleanIs(t: string)
    ensures Clean(t) <==> IndexOf("\n" + t, NEXT_HEADER, 0) < 0
  {
    var u := "\n" + t;
    HashesAtStart(t);
    IndexOfShift("\n", t, NEXT_HEADER, 0);
    if !At(u, NEXT_HEADER, 0) {
      if IndexOf(u, NEXT_HEADER, 1) < 0 {
        NotFound(u, NEXT_HEADER, 0);
      } else {
        IndexOfIs(u, NEXT_HEADER, 0, IndexOf(u, NEXT_HEADER, 1));
      }
    }
  }

  /** No "\n## " reaches across a line break, or begins at one that another break follows. */
  lemma NoHeaderAcross(x: string, i: nat, p: nat)
    requires i <= p < i + 4 && p < |x| && x[p] == '\n'
    requires i == p && p + 1 < |x| ==> x[p + 1] == '\n'
    ensures !At(x, NEXT_HEADER, i)
  {
  }

  lemma HeaderBeforeBreak(u: string, after: string, i: nat)
    requires i <= |u| && (after == "" || At(after, NEXT_HEADER, 0))
    ensures At(u + ("\n" + after), NEXT_HEADER, i) <==> At(u, NEXT_HEADER, i)
  {
    var x := u + ("\n" + after);
    AtExtends(u, "\n" + after, NEXT_HEADER, i);
    if i + 4 > |u| {
      AtChar(after, NEXT_HEADER, 0, 0);
      NoHeaderAcross(x, i, |u|);
    }
  }

  /** The next header in a text, a line break and what follows: one in the text, else the one that follows. */
  lemma NextHeaderAcrossBreak(u: string, after: string)
    requires after == "" || At(after, NEXT_HEADER, 0)
    ensures var k := IndexOf(u, NEXT_HEADER, 0);
            IndexOf(u + ("\n" + after), NEXT_HEADER, 0) == if k >= 0 then k else if after == "" then -1 else |u| + 1
  {
    hide IndexOf;
    var x := u + ("\n" + after);
    var k := IndexOf(u, NEXT_HEADER, 0);
    forall i: nat | i <= |u| ensures At(x, NEXT_HEADER, i) <==> At(u, NEXT_HEADER, i) {
      HeaderBeforeBreak(u, after, i);
    }
    if k >= 0 {
      IndexOfIs(x, NEXT_HEADER, 0, k);
    } else if after == "" {
      NotFound(x, NEXT_HEADER, 0);
    } else {
      AfterBreak(u, after);
      IndexOfIs(x, NEXT_HEADER, 0, |u| + 1);
    }
  }

  lemma AfterBreak(u: string, after: string)
    ensures At(u + ("\n" + after), NEXT_HEADER, |u| + 1) <==> At(after, NEXT_HEADER, 0)
  {
  }

  lemma NextHeaderInTail(t: string, after: string)
    requires after == "" || At(after, NEXT_HEADER, 0)
    ensures var k := IndexOf("\n" + t, NEXT_HEADER, 0);
            IndexOf(Tail(t, after), NEXT_HEADER, 0) == if k >= 0 then k else if after == "" then -1 else |t| + 2
  {
    NextHeaderAcrossBreak("\n" + t, after);
    Assoc("\n" + t, "\n", after);
  }

  lemma CleanBodyText(t: string, after: string)
    requires Clean(t) && (after == "" || At(after, NEXT_HEADER, 0))
    ensures BodyText(Tail(t, after)) == Trim(t)
  {
    CleanIs(t);
    NextHeaderInTail(t, after);
    var x := Tail(t, after);
    assert x[..|t| + 2] == "\n" + t + "\n";
    assert after == "" ==> x == x[..|t| + 2];
    TrimPad("\n", t, "\n");
  }

  /** Less is read back than an unclean text holds. */
  lemma UncleanBodyText(t: string, after: string)
    requires !Clean(t) && (after == "" || At(after, NEXT_HEADER, 0))
    ensures Ink(BodyText(Tail(t, after))) < Ink(t)
    ensures StartsWith(t, HASHES) ==> BodyText(Tail(t, after)) == ""
  {
    hide IndexOf;
    CleanIs(t);
    NextHeaderInTail(t, after);
    HashesAtStart(t);
    var u, x := "\n" + t, Tail(t, after);
    var k := IndexOf(u, NEXT_HEADER, 0);
    assert x == u + ("\n" + after);
    assert x[..k] == u[..k];
    InkTrim(u[..k]);
    InkBeforeHeader(u, k);
    InkAppend("\n", t);
    assert Ink("\n") == 0;
  }

  lemma InkBeforeHeader(u: string, k: nat)
    requires At(u, NEXT_HEADER, k)
    ensures Ink(u[..k]) < Ink(u)
  {
    var rest := u[k + 4..];
    assert u == u[..k] + (NEXT_HEADER + rest);
    InkAppend(u[..k], NEXT_HEADER + rest);
    InkAppend(NEXT_HEADER, rest);
    assert NEXT_HEADER[1..] == HASHES && Ink(HASHES) >= 1;
  }

  lemma GetAfterPutIn(source: string, s: HeaderText, t: string)
    ensures ExtractSection(ReplaceIn(source, s, t), s) == Trim(t) <==> Clean(t)
  {
    ExtractReplaced(source, s, t);
    AfterIsEmptyOrHeader(source, s);
    if Clean(t) {
      CleanBodyText(t, After(source, s));
    } else {
      UncleanBodyText(t, After(source, s));
      InkTrim(t);
    }
  }

  /** Less is read than was written, when the text is not clean. */
  lemma UncleanIsCut(content: string, s: HeaderText, t: string)
    requires !Clean(t)
    ensures var read := ExtractSection(ReplaceSection(content, s, t), s);
            Ink(read) < Ink(t) && (StartsWith(t, HASHES) ==> read == "")
  {
    hide ReplaceIn, After, BodyText, ExtractSection, Clean;
    var source := Source(content);
    ExtractReplaced(source, s, t);
    AfterIsEmptyOrHeader(source, s);
    UncleanBodyText(t, After(source, s));
  }

  // ----- writing twice -----

  lemma ReplacedIsNotBlank(source: string, s: HeaderText, t: string)
    ensures Trim(ReplaceIn(source, s, t)) != ""
  {
    var b, x := Before(source, s), Tail(t, After(source, s));
    ReplacedParts(source, s, t);
    InkTrim(b + (s + x));
    InkAppend(b, s + x);
    InkAppend(s, x);
  }

  lemma SuffixAfter(c: string, s: HeaderText, m: nat)
    requires IndexOf(c, s, 0) >= 0 && m == IndexOf(c, s, 0) + |s|
    ensures m <= |c| && After(c, s) == HeaderFrom(c, m) && Before(c, s) + s == c[..m]
  {
    AfterFound(c, s, m);
    BeforeFound(c, s, m);
  }

  lemma AfterFound(c: string, s: HeaderText, m: nat)
    requires IndexOf(c, s, 0) >= 0 && m == IndexOf(c, s, 0) + |s|
    ensures m <= |c| && After(c, s) == HeaderFrom(c, m)
  {
    hide FromHeader, IndexOf;
  }

  lemma BeforeFound(c: string, s: HeaderText, m: nat)
    requires IndexOf(c, s, 0) >= 0 && m == IndexOf(c, s, 0) + |s|
    ensures m <= |c| && Before(c, s) + s == c[..m]
  {
  }

  lemma PartsOfReplaced(source: string, s: HeaderText, t: string)
    ensures var n, x := ReplaceIn(source, s, t), Tail(t, After(source, s));
            && Before(n, s) == Before(source, s)
            && After(n, s) == FromHeader(x)
  {
    var b, h, x := Before(source, s), s, Tail(t, After(source, s));
    ReplacedParts(source, s, t);
    ReplacedIsNotBlank(source, s, t);
    HeaderIsFirst(source, s, x);
    PartsAround(b, s, x);
  }

  lemma PartsAround(b: string, s: HeaderText, x: string)
    requires IndexOf(b + (s + x), s, 0) == |b|
    ensures var n := b + (s + x);
            Before(n, s) == b && After(n, s) == FromHeader(x)
  {
    var m := |b| + |s|;
    Assoc(b, s, x);
    assert (b + (s + x))[..|b|] == b;
    SuffixAfter(b + (s + x), s, m);
    DropPrefix(b + s, x, 0, m);
  }

  lemma PutPutIn(source: string, s: HeaderText, t: string, u: string)
    ensures ReplaceIn(ReplaceIn(source, s, t), s, u) == ReplaceIn(source, s, u) <==> Clean(t)
  {
    var n, a, x := ReplaceIn(source, s, t), After(source, s), Tail(t, After(source, s));
    PartsOfReplaced(source, s, t);
    ReplacedParts(n, s, u);
    ReplacedParts(source, s, u);
    AfterIsEmptyOrHeader(source, s);
    NextHeaderInTail(t, a);
    CleanIs(t);
    var k := IndexOf(x, NEXT_HEADER, 0);
    if Clean(t) {
      assert x == ("\n" + t + "\n") + a;
      assert After(n, s) == a;
    } else {
      assert |After(n, s)| > |a|;
      assert |Tail(u, After(n, s))| > |Tail(u, a)|;
    }
  }

  /** Reading what was written gives the trimmed text, exactly if the text is clean. */
  lemma GetAfterPut(content: string, s: HeaderText, t: string)
    ensures ExtractSection(ReplaceSection(content, s, t), s) == Trim(t) <==> Clean(t)
  {
    GetAfterPutIn(Source(content), s, t);
  }

  /** Writing twice leaves what the second write alone would, exactly if the first text is clean. */
  lemma PutPut(content: string, s: HeaderText, t: string, u: string)
    ensures ReplaceSection(ReplaceSection(content, s, t), s, u) == ReplaceSection(content, s, u) <==> Clean(t)
  {
    ReplacedIsNotBlank(Source(content), s, t);
    PutPutIn(Source(content), s, t, u);
  }
}
