/** String operations of the source language that several components share. */
module Text {

  /** `pat` stands in `s` at position `i`. */
  predicate At(s: string, pat: string, i: int) {
    0 <= i <= |s| - |pat| && s[i..i + |pat|] == pat
  }

  predicate Contains(s: string, pat: string) {
    IndexOf(s, pat, 0) >= 0
  }

  predicate StartsWith(s: string, pat: string) {
    At(s, pat, 0)
  }

  /** `s.indexOf(pat, from)`. */
  function IndexOf(s: string, pat: string, from: nat): (r: int)
    ensures r >= 0 ==> from <= r && At(s, pat, r) && forall i :: from <= i < r ==> !At(s, pat, i)
    ensures r < 0 ==> r == -1 && forall i :: from <= i ==> !At(s, pat, i)
    decreases |s| - from
  {
    if from + |pat| > |s| then -1
    else if s[from..from + |pat|] == pat then from
    else IndexOf(s, pat, from + 1)
  }

  /** The first position is the only one with nothing before it. */
  lemma IndexOfIs(s: string, pat: string, from: nat, r: nat)
    requires from <= r && At(s, pat, r) && forall i :: from <= i < r ==> !At(s, pat, i)
    ensures IndexOf(s, pat, from) == r
  {
  }

  lemma IndexOfAtMost(s: string, pat: string, from: nat, i: nat)
    requires from <= i && At(s, pat, i)
    ensures 0 <= IndexOf(s, pat, from) <= i
  {
  }

  /** An occurrence inside the first part is one of the whole. */
  lemma AtExtends(s: string, t: string, pat: string, i: int)
    ensures At(s, pat, i) ==> At(s + t, pat, i)
    ensures i + |pat| <= |s| && At(s + t, pat, i) ==> At(s, pat, i)
  {
  }

  lemma AtChar(s: string, pat: string, i: int, k: nat)
    requires k < |pat|
    ensures At(s, pat, i) ==> s[i + k] == pat[k]
  {
  }

  /** White space and line terminators: what `\s` matches and `trim` removes. */
  predicate IsSpace(c: char) {
    var code := c as int;
    9 <= code <= 13 || code == 0x20 || code == 0xA0 || code == 0x1680 || 0x2000 <= code <= 0x200A
    || code == 0x2028 || code == 0x2029 || code == 0x202F || code == 0x205F || code == 0x3000 || code == 0xFEFF
  }

  predicate IsBlank(s: string) {
    forall i :: 0 <= i < |s| ==> IsSpace(s[i])
  }

  function TrimStart(s: string): string {
    if s != "" && IsSpace(s[0]) then TrimStart(s[1..]) else s
  }

  function TrimEnd(s: string): string {
    if s != "" && IsSpace(s[|s| - 1]) then TrimEnd(s[..|s| - 1]) else s
  }

  function Trim(s: string): string {
    TrimEnd(TrimStart(s))
  }

  /** `s.replace(/\s+/g, ' ')`. */
  function CollapseRuns(s: string): string
    decreases |s|
  {
    if s == "" then ""
    else if IsSpace(s[0]) then
      TrimStartShorter(s[1..]);
      " " + CollapseRuns(TrimStart(s[1..]))
    else [s[0]] + CollapseRuns(s[1..])
  }

  lemma TrimStartShorter(s: string)
    ensures |TrimStart(s)| <= |s|
  {
  }

  /** `s.replace(/\s+/g, ' ').trim()`. */
  function Normalize(s: string): string {
    Trim(CollapseRuns(s))
  }

  /** `parts.join(separator)`. */
  function Join(parts: seq<string>, separator: string): string {
    if parts == [] then ""
    else if |parts| == 1 then parts[0]
    else parts[0] + separator + Join(parts[1..], separator)
  }

  function Min(a: nat, b: nat): nat {
    if a < b then a else b
  }

  function Max(a: nat, b: nat): nat {
    if a < b then b else a
  }

  lemma Assoc<T>(a: seq<T>, b: seq<T>, c: seq<T>)
    ensures a + b + c == a + (b + c)
  {
  }

  // ----- occurrences -----

  lemma NotFound(s: string, pat: string, from: nat)
    requires forall i :: from <= i ==> !At(s, pat, i)
    ensures IndexOf(s, pat, from) == -1
  {
  }

  /** An occurrence in `p + q` that begins in `q` is one of `q`. */
  lemma AtShift(p: string, q: string, pat: string, i: int)
    requires i >= |p|
    ensures At(p + q, pat, i) <==> At(q, pat, i - |p|)
  {
  }

  lemma IndexOfShift(p: string, q: string, pat: string, from: nat)
    ensures IndexOf(p + q, pat, |p| + from)
            == if IndexOf(q, pat, from) < 0 then -1 else |p| + IndexOf(q, pat, from)
  {
    forall i | i >= |p| ensures At(p + q, pat, i) <==> At(q, pat, i - |p|) {
      AtShift(p, q, pat, i);
    }
    var r := IndexOf(q, pat, from);
    if r < 0 {
      NotFound(p + q, pat, |p| + from);
    } else {
      IndexOfIs(p + q, pat, |p| + from, |p| + r);
    }
  }

  lemma AtSlice(s: string, lo: nat, hi: nat, pat: string, i: nat)
    requires lo <= hi <= |s|
    ensures At(s[lo..hi], pat, i) <==> At(s, pat, lo + i) && lo + i + |pat| <= hi
  {
    if lo + i + |pat| <= hi {
      var a, b := s[lo..hi][i..i + |pat|], s[lo + i..lo + i + |pat|];
      assert |a| == |b| && forall k :: 0 <= k < |a| ==> a[k] == b[k];
      assert a == b;
    }
  }

  // ----- trimming -----

  lemma {:induction false} TrimStartIs(s: string) returns (n: nat)
    ensures n <= |s| && TrimStart(s) == s[n..] && IsBlank(s[..n])
    ensures n < |s| ==> !IsSpace(s[n])
  {
    n := 0;
    if s != "" && IsSpace(s[0]) {
      var m := TrimStartIs(s[1..]);
      n := m + 1;
      assert s[1..][m..] == s[n..];
      forall i | 0 <= i < n ensures IsSpace(s[..n][i]) {
        assert i > 0 ==> s[1..][..m][i - 1] == s[..n][i];
      }
    }
  }

  lemma {:induction false} TrimEndIs(s: string) returns (n: nat)
    ensures n <= |s| && TrimEnd(s) == s[..n] && IsBlank(s[n..])
    ensures n > 0 ==> !IsSpace(s[n - 1])
  {
    n := |s|;
    if s != "" && IsSpace(s[|s| - 1]) {
      var front := s[..|s| - 1];
      n := TrimEndIs(front);
      assert front[..n] == s[..n];
      forall i | 0 <= i < |s| - n ensures IsSpace(s[n..][i]) {
        assert i < |s| - n - 1 ==> front[n..][i] == s[n..][i];
      }
    }
  }

  /** `s[lo..hi]` is `s` without the white space at its ends. */
  ghost predicate TrimsTo(s: string, lo: int, hi: int) {
    && 0 <= lo <= hi <= |s|
    && (forall i :: 0 <= i < lo ==> IsSpace(s[i]))
    && (forall i :: hi <= i < |s| ==> IsSpace(s[i]))
    && (lo < hi ==> !IsSpace(s[lo]) && !IsSpace(s[hi - 1]))
  }

  lemma TrimBounds(s: string) returns (lo: nat, hi: nat)
    ensures TrimsTo(s, lo, hi) && Trim(s) == s[lo..hi]
  {
    lo := TrimStartIs(s);
    var t := s[lo..];
    var n := TrimEndIs(t);
    hi := lo + n;
    assert t[..n] == s[lo..hi];
    forall i | 0 <= i < lo ensures IsSpace(s[i]) {
      assert s[..lo][i] == s[i];
    }
    forall i | hi <= i < |s| ensures IsSpace(s[i]) {
      assert t[n..][i - hi] == s[i];
    }
    if lo < hi {
      assert t[n - 1] == s[hi - 1];
    }
  }

  /** The bounds of a trim are the only ones, unless everything is white space. */
  lemma TrimIs(s: string, lo: nat, hi: nat)
    requires TrimsTo(s, lo, hi)
    ensures Trim(s) == s[lo..hi]
  {
    var l, h := TrimBounds(s);
    if lo < hi {
      assert l == lo && h == hi;
    } else {
      assert IsBlank(s);
      assert l == h;
    }
  }

  lemma {:induction false} TrimEndBlank(s: string, b: string)
    requires IsBlank(b)
    ensures TrimEnd(s + b) == TrimEnd(s)
  {
    if b == "" {
      assert s + b == s;
    } else {
      var n := |b| - 1;
      assert (s + b)[..|s + b| - 1] == s + b[..n];
      TrimEndBlank(s, b[..n]);
    }
  }

  lemma TrimEndKeep(s: string, b: string)
    requires TrimEnd(b) != ""
    ensures TrimEnd(s + b) == s + TrimEnd(b)
  {
    var n := TrimEndIs(b);
    assert s + b == (s + b[..n]) + b[n..];
    TrimEndBlank(s + b[..n], b[n..]);
  }

  lemma TrimEndTwice(s: string)
    ensures TrimEnd(TrimEnd(s)) == TrimEnd(s)
  {
  }

  /** White space around a text does not change its trim. */
  lemma TrimPad(a: string, s: string, b: string)
    requires IsBlank(a) && IsBlank(b)
    ensures Trim(a + s + b) == Trim(s)
  {
    var lo, hi := TrimBounds(s);
    var t := a + s + b;
    assert TrimsTo(t, |a| + lo, |a| + hi);
    TrimIs(t, |a| + lo, |a| + hi);
    assert t[|a| + lo..|a| + hi] == s[lo..hi];
  }

  lemma TrimTwice(s: string)
    ensures Trim(Trim(s)) == Trim(s)
  {
    var lo, hi := TrimBounds(s);
    var t := s[lo..hi];
    assert TrimsTo(t, 0, |t|);
    TrimIs(t, 0, |t|);
  }

  /** The number of characters that are not white space. */
  function Ink(s: string): nat {
    if s == "" then 0 else (if IsSpace(s[0]) then 0 else 1) + Ink(s[1..])
  }

  lemma {:induction false} InkAppend(a: string, b: string)
    ensures Ink(a + b) == Ink(a) + Ink(b)
  {
    if a == "" {
      assert a + b == b;
    } else {
      assert (a + b)[1..] == a[1..] + b;
      InkAppend(a[1..], b);
    }
  }

  lemma {:induction false} InkBlank(s: string)
    requires IsBlank(s)
    ensures Ink(s) == 0
  {
    if s != "" {
      InkBlank(s[1..]);
    }
  }

  lemma InkTrim(s: string)
    ensures Ink(Trim(s)) == Ink(s)
  {
    var lo, hi := TrimBounds(s);
    assert s == s[..lo] + s[lo..hi] + s[hi..];
    InkAppend(s[..lo] + s[lo..hi], s[hi..]);
    InkAppend(s[..lo], s[lo..hi]);
    InkBlank(s[..lo]);
    InkBlank(s[hi..]);
  }

  /** White space is single spaces. */
  predicate IsCollapsed(s: string) {
    forall i :: 0 <= i < |s| && IsSpace(s[i]) ==> s[i] == ' ' && (i + 1 < |s| ==> !IsSpace(s[i + 1]))
  }

  lemma {:induction false} CollapseCollapses(s: string)
    ensures IsCollapsed(CollapseRuns(s))
    ensures s != "" && !IsSpace(s[0]) ==> CollapseRuns(s) != "" && CollapseRuns(s)[0] == s[0]
    decreases |s|
  {
    if s != "" {
      if IsSpace(s[0]) {
        TrimStartShorter(s[1..]);
        var rest := TrimStart(s[1..]);
        CollapseCollapses(rest);
        var n := TrimStartIs(s[1..]);
        assert rest != "" ==> !IsSpace(rest[0]);
      } else {
        CollapseCollapses(s[1..]);
      }
    }
  }

  lemma {:induction false} CollapsedStays(s: string)
    requires IsCollapsed(s)
    ensures CollapseRuns(s) == s
  {
    if s != "" {
      assert forall i :: 0 <= i < |s| - 1 ==> s[1..][i] == s[i + 1];
      CollapsedStays(s[1..]);
      if IsSpace(s[0]) {
        assert TrimStart(s[1..]) == s[1..];
      }
    }
  }

  lemma NormalizeTwice(s: string)
    ensures Normalize(Normalize(s)) == Normalize(s)
  {
    var t := CollapseRuns(s);
    CollapseCollapses(s);
    var lo, hi := TrimBounds(t);
    assert forall i :: lo <= i < hi ==> t[lo..hi][i - lo] == t[i];
    CollapsedStays(t[lo..hi]);
    TrimTwice(t);
  }
}
