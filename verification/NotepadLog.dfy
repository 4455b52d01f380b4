/**
 The working-memory section of the notepad as a bounded log of one-line entries
 (src/application/system/notepad.ts): every automatic write appends an entry and keeps the last 50.
 */
module NotepadLog {
  import opened Text
  import opened Notepad
  import opened NotepadFrame

  const PROMPT_LIMIT := 120
  const RESPONSE_LIMIT := 220
  const ENTRY_LIMIT := 50
  const BREAK := "\n"

  // ----- lines and entries -----

  /** `s.split('\n')`. */
  function Lines(s: string): (r: seq<string>)
    ensures |r| > 0
  {
    if s == "" then [""]
    else
      var r := Lines(s[1..]);
      if s[0] == '\n' then [""] + r else [[s[0]] + r[0]] + r[1..]
  }

  /** The trimmed lines that are not blank. */
  function Kept(lines: seq<string>): seq<string> {
    if lines == [] then []
    else (if Trim(lines[0]) != "" then [Trim(lines[0])] else []) + Kept(lines[1..])
  }

  function Entries(text: string): seq<string> {
    Kept(Lines(text))
  }

  /** `xs.slice(-n)`. */
  function Last<T>(xs: seq<T>, n: nat): seq<T> {
    if |xs| <= n then xs else xs[|xs| - n..]
  }

  // ----- a write -----

  function NormalizeInlineNote(content: string, limit: nat): string {
    var collapsed := Normalize(content);
    if |collapsed| <= limit then collapsed
    else TrimEnd(collapsed[..if limit == 0 then 0 else limit - 1]) + "..."
  }

  /** The entry without a leading `[...]` mark. */
  function StripTimestamp(entry: string): string {
    var close := IndexOf(entry, "]", 1);
    if entry != "" && entry[0] == '[' && close >= 2 then Trim(entry[close + 1..]) else Trim(entry)
  }

  /** The text of a clock reading. */
  predicate IsStamp(stamp: string) {
    stamp != "" && forall k :: 0 <= k < |stamp| ==> stamp[k] != ']' && !IsSpace(stamp[k])
  }

  datatype Note = Note(prompt: string, response: string, stamp: string)

  predicate HasSummaries(note: Note) {
    NormalizeInlineNote(note.prompt, PROMPT_LIMIT) != "" && NormalizeInlineNote(note.response, RESPONSE_LIMIT) != ""
  }

  function Body(note: Note): string {
    "Task: " + NormalizeInlineNote(note.prompt, PROMPT_LIMIT)
    + " | Outcome: " + NormalizeInlineNote(note.response, RESPONSE_LIMIT)
  }

  function Stamped(note: Note): string {
    "[" + note.stamp + "] " + Body(note)
  }

  function Working(content: string): string {
    ExtractSection(content, Header(WorkingMemory))
  }

  /** Nothing is written for a note without summaries, or one that repeats the latest entry. */
  predicate IsWritten(entries: seq<string>, note: Note) {
    HasSummaries(note) && !(entries != [] && StripTimestamp(entries[|entries| - 1]) == Body(note))
  }

  function AppendNote(content: string, entry: string): string {
    AppendToSection(if content != "" then content else EMPTY_NOTEPAD, Header(WorkingMemory), entry)
  }

  function WriteAuto(content: string, note: Note): string {
    if !IsWritten(Entries(Working(content)), note) then content
    else
      var appended := AppendNote(content, Stamped(note));
      var keptEntries := Last(Entries(Working(appended)), ENTRY_LIMIT);
      ReplaceSection(appended, Header(WorkingMemory), Join(keptEntries, BREAK))
  }

  // ----- the entries of joined, trimmed and concatenated texts -----

  /** Lines put in front of others, with a character in front of them all. */
  lemma LinesCons(c: char, r: seq<string>, l: seq<string>)
    requires |r| > 0
    ensures var all := r + l;
            && [[c] + all[0]] + all[1..] == ([[c] + r[0]] + r[1..]) + l
            && [""] + all == ([""] + r) + l
  {
  }

  lemma {:induction false} LinesBreak(a: string, b: string)
    ensures Lines(a + BREAK + b) == Lines(a) + Lines(b)
  {
    if a == "" {
      assert a + BREAK + b == ['\n'] + b;
      assert (['\n'] + b)[1..] == b;
    } else {
      var t := a + BREAK + b;
      assert t[1..] == a[1..] + BREAK + b && t[0] == a[0];
      LinesBreak(a[1..], b);
      LinesCons(a[0], Lines(a[1..]), Lines(b));
    }
  }

  lemma {:induction false} KeptAppend(x: seq<string>, y: seq<string>)
    ensures Kept(x + y) == Kept(x) + Kept(y)
  {
    if x == [] {
      assert x + y == y;
    } else {
      assert (x + y)[1..] == x[1..] + y;
      KeptAppend(x[1..], y);
    }
  }

  lemma EntriesBreak(a: string, b: string)
    ensures Entries(a + BREAK + b) == Entries(a) + Entries(b)
  {
    LinesBreak(a, b);
    KeptAppend(Lines(a), Lines(b));
  }

  lemma EntriesSpaceFirst(c: char, s: string)
    requires IsSpace(c)
    ensures Entries([c] + s) == Entries(s)
  {
    var r := Lines(s);
    assert ([c] + s)[1..] == s;
    if c == '\n' {
      assert ([""] + r)[1..] == r;
    } else {
      var first := [c] + r[0];
      assert first[1..] == r[0];
      assert Trim(first) == Trim(r[0]);
      assert ([first] + r[1..])[1..] == r[1..];
    }
  }

  /** The lines with a character added to the last one. */
  function Extended(l: seq<string>, c: char): seq<string>
    requires |l| > 0
  {
    l[..|l| - 1] + [l[|l| - 1] + [c]]
  }

  lemma ExtendedCons(x: string, l: seq<string>, c: char)
    requires |l| > 0
    ensures Extended([x] + l, c) == [x] + Extended(l, c)
  {
  }

  lemma ExtendedFirst(d: char, r: seq<string>, c: char)
    requires |r| > 0
    ensures var e := Extended(r, c);
            [[d] + e[0]] + e[1..] == Extended([[d] + r[0]] + r[1..], c)
  {
    if |r| == 1 {
      assert [d] + (r[0] + [c]) == ([d] + r[0]) + [c];
    } else {
      var tail := r[1..];
      ExtendedCons(r[0], tail, c);
      assert r == [r[0]] + tail;
      ExtendedCons([d] + r[0], tail, c);
      assert ([r[0]] + Extended(tail, c))[1..] == Extended(tail, c);
    }
  }

  lemma {:induction false} LinesCharLast(s: string, c: char)
    requires c != '\n'
    ensures Lines(s + [c]) == Extended(Lines(s), c)
  {
    if s == "" {
      assert s + [c] == [c];
      assert [c] + "" == "" + [c];
    } else {
      var d, r := s[0], Lines(s[1..]);
      assert (s + [c])[1..] == s[1..] + [c];
      LinesCharLast(s[1..], c);
      hide Extended;
      ExtendedCons("", r, c);
      ExtendedFirst(d, r, c);
    }
  }

  lemma KeptLast(l: seq<string>, x: string)
    requires |l| > 0 && Trim(x) == Trim(l[|l| - 1])
    ensures Kept(l[..|l| - 1] + [x]) == Kept(l)
  {
    var y := l[|l| - 1];
    KeptAppend(l[..|l| - 1], [x]);
    KeptAppend(l[..|l| - 1], [y]);
    assert l == l[..|l| - 1] + [y];
  }

  lemma EntriesSpaceLast(s: string, c: char)
    requires IsSpace(c)
    ensures Entries(s + [c]) == Entries(s)
  {
    if c == '\n' {
      assert s + [c] == s + BREAK + "";
      EntriesBreak(s, "");
    } else {
      var l := Lines(s);
      var y := l[|l| - 1];
      LinesCharLast(s, c);
      TrimPad("", y, [c]);
      assert "" + y + [c] == y + [c];
      KeptLast(l, y + [c]);
    }
  }

  lemma {:induction false} EntriesBlankFirst(a: string, s: string)
    requires IsBlank(a)
    ensures Entries(a + s) == Entries(s)
  {
    if a == "" {
      assert a + s == s;
    } else {
      assert a + s == [a[0]] + (a[1..] + s);
      EntriesSpaceFirst(a[0], a[1..] + s);
      EntriesBlankFirst(a[1..], s);
    }
  }

  lemma {:induction false} EntriesBlankLast(s: string, b: string)
    requires IsBlank(b)
    ensures Entries(s + b) == Entries(s)
  {
    if b == "" {
      assert s + b == s;
    } else {
      var n := |b| - 1;
      assert s + b == (s + b[..n]) + [b[n]];
      EntriesSpaceLast(s + b[..n], b[n]);
      EntriesBlankLast(s, b[..n]);
    }
  }

  lemma EntriesTrim(s: string)
    ensures Entries(Trim(s)) == Entries(s)
  {
    var lo, hi := TrimBounds(s);
    assert s == (s[..lo] + s[lo..hi]) + s[hi..];
    EntriesBlankLast(s[..lo] + s[lo..hi], s[hi..]);
    EntriesBlankFirst(s[..lo], s[lo..hi]);
  }

  predicate IsEntry(e: string) {
    e != "" && Trim(e) == e && '\n' !in e
  }

  lemma {:induction false} LinesHoldNoBreak(s: string)
    ensures forall k :: 0 <= k < |Lines(s)| ==> '\n' !in Lines(s)[k]
  {
    if s != "" {
      LinesHoldNoBreak(s[1..]);
    }
  }

  lemma TrimOfLine(l: string)
    requires '\n' !in l && Trim(l) != ""
    ensures IsEntry(Trim(l))
  {
    var lo, hi := TrimBounds(l);
    TrimTwice(l);
  }

  lemma {:induction false} KeptAreEntries(lines: seq<string>)
    requires forall k :: 0 <= k < |lines| ==> '\n' !in lines[k]
    ensures forall k :: 0 <= k < |Kept(lines)| ==> IsEntry(Kept(lines)[k])
  {
    if lines != [] {
      if Trim(lines[0]) != "" {
        TrimOfLine(lines[0]);
      }
      KeptAreEntries(lines[1..]);
    }
  }

  lemma EntriesAreEntries(s: string)
    ensures forall k :: 0 <= k < |Entries(s)| ==> IsEntry(Entries(s)[k])
  {
    LinesHoldNoBreak(s);
    KeptAreEntries(Lines(s));
  }

  lemma {:induction false} LineOfOne(e: string)
    requires '\n' !in e
    ensures Lines(e) == [e]
  {
    if e != "" {
      LineOfOne(e[1..]);
      assert [e[0]] + e[1..] == e;
    }
  }

  lemma EntriesOfEntry(e: string)
    requires IsEntry(e)
    ensures Entries(e) == [e]
  {
    LineOfOne(e);
    assert Kept([e]) == [Trim(e)] + Kept([]);
  }

  lemma {:induction false} EntriesJoin(es: seq<string>)
    requires forall k :: 0 <= k < |es| ==> IsEntry(es[k])
    ensures Entries(Join(es, BREAK)) == es
  {
    if es == [] {
      assert Lines("") == [""];
    } else {
      EntriesOfEntry(es[0]);
      if |es| > 1 {
        EntriesJoin(es[1..]);
        EntriesBreak(es[0], Join(es[1..], BREAK));
      }
    }
  }

  // ----- what is written when an entry begins like a header -----

  function InkSum(es: seq<string>): nat {
    if es == [] then 0 else Ink(es[0]) + InkSum(es[1..])
  }

  lemma {:induction false} InkLines(s: string)
    ensures InkSum(Lines(s)) == Ink(s)
  {
    if s == "" {
      assert InkSum([""]) == Ink("") + InkSum([]);
    } else {
      var r := Lines(s[1..]);
      InkLines(s[1..]);
      if s[0] == '\n' {
        assert ([""] + r)[1..] == r;
      } else {
        var first := [s[0]] + r[0];
        assert first[1..] == r[0];
        assert ([first] + r[1..])[1..] == r[1..];
      }
    }
  }

  lemma {:induction false} InkKept(lines: seq<string>)
    ensures InkSum(Kept(lines)) == InkSum(lines)
  {
    if lines != [] {
      InkTrim(lines[0]);
      InkKept(lines[1..]);
      if Trim(lines[0]) != "" {
        assert ([Trim(lines[0])] + Kept(lines[1..]))[1..] == Kept(lines[1..]);
      } else {
        assert [] + Kept(lines[1..]) == Kept(lines[1..]);
      }
    }
  }

  lemma InkEntries(s: string)
    ensures InkSum(Entries(s)) == Ink(s)
  {
    InkLines(s);
    InkKept(Lines(s));
  }

  lemma CleanBreak(a: string, b: string)
    ensures Clean(a + BREAK + b) <==> Clean(a) && Clean(b)
  {
    var x, y := BREAK + a, BREAK + b;
    assert BREAK + (a + BREAK + b) == x + y;
    CleanIs(a);
    CleanIs(b);
    CleanIs(a + BREAK + b);
    hide Clean, IndexOf;
    if IndexOf(x, NEXT_HEADER, 0) >= 0 {
      HeaderAroundBreak(x, b, IndexOf(x, NEXT_HEADER, 0));
    }
    if IndexOf(y, NEXT_HEADER, 0) >= 0 {
      HeaderAroundBreak(x, b, IndexOf(y, NEXT_HEADER, 0) + |x|);
    }
    if IndexOf(x + y, NEXT_HEADER, 0) >= 0 {
      HeaderAroundBreak(x, b, IndexOf(x + y, NEXT_HEADER, 0));
    }
  }

  lemma CleanEntry(e: string)
    requires '\n' !in e
    ensures Clean(e) <==> !StartsWith(e, HASHES)
  {
    CharAbsent(e, NEXT_HEADER, 0);
  }

  /** No entry begins like a header. */
  predicate NoHeading(es: seq<string>) {
    forall k :: 0 <= k < |es| ==> !StartsWith(es[k], HASHES)
  }

  lemma NoHeadingCons(es: seq<string>)
    requires es != []
    ensures NoHeading(es) <==> !StartsWith(es[0], HASHES) && NoHeading(es[1..])
  {
  }

  lemma {:induction false} CleanJoin(es: seq<string>)
    requires forall k :: 0 <= k < |es| ==> IsEntry(es[k])
    ensures Clean(Join(es, BREAK)) <==> NoHeading(es)
  {
    if es == [] {
      CleanEntry("");
    } else {
      CleanEntry(es[0]);
      NoHeadingCons(es);
      if |es| > 1 {
        CleanJoin(es[1..]);
        CleanBreak(es[0], Join(es[1..], BREAK));
      }
    }
  }

  // ----- the summaries -----

  lemma {:induction false} CollapsedChars(s: string)
    ensures forall k :: 0 <= k < |CollapseRuns(s)| ==> CollapseRuns(s)[k] == ' ' || !IsSpace(CollapseRuns(s)[k])
    decreases |s|
  {
    if s != "" {
      if IsSpace(s[0]) {
        TrimStartShorter(s[1..]);
        CollapsedChars(TrimStart(s[1..]));
      } else {
        CollapsedChars(s[1..]);
      }
    }
  }

  /** Text on one line that does not end in white space. */
  predicate IsInline(t: string) {
    t != "" && !IsSpace(t[|t| - 1]) && forall k :: 0 <= k < |t| ==> t[k] == ' ' || !IsSpace(t[k])
  }

  lemma NormalizedIsInline(s: string)
    ensures Normalize(s) != "" ==> IsInline(Normalize(s))
  {
    hide CollapseRuns, TrimStart, TrimEnd;
    CollapsedChars(s);
    var c := CollapseRuns(s);
    var lo, hi := TrimBounds(c);
    assert forall k :: 0 <= k < hi - lo ==> c[lo..hi][k] == c[lo + k];
  }

  /** A summary is one line and at most two characters longer than its limit. */
  lemma SummaryIsInline(content: string, limit: nat)
    requires limit > 0
    ensures var n := NormalizeInlineNote(content, limit);
            |n| <= limit + 2 && (n != "" ==> IsInline(n))
  {
    hide Normalize, TrimEnd;
    var c := Normalize(content);
    NormalizedIsInline(content);
    if |c| > limit {
      var m := TrimEndIs(c[..limit - 1]);
      var t := TrimEnd(c[..limit - 1]);
      assert forall k :: 0 <= k < |t| ==> t[k] == c[k];
    }
  }

  /** A mark in brackets in front is taken off, if there is something in it and no bracket that closes. */
  lemma StripsMark(mark: string, rest: string)
    requires mark != "" && ']' !in mark
    ensures StripTimestamp("[" + mark + "]" + rest) == Trim(rest)
  {
    hide Trim;
    var entry, n := "[" + mark + "]" + rest, |mark| + 1;
    assert entry[n..n + 1] == "]";
    forall i | 1 <= i < n ensures !At(entry, "]", i) {
      assert entry[i] == mark[i - 1];
      AtChar(entry, "]", i, 0);
    }
    IndexOfIs(entry, "]", 1, n);
    assert entry[n + 1..] == rest;
  }

  /** An entry without a mark in front is only trimmed. */
  lemma StripsOnlyMarks(entry: string) returns (mark: string, rest: string)
    ensures StripTimestamp(entry) == Trim(entry)
            || (entry == "[" + mark + "]" + rest && mark != "" && ']' !in mark)
  {
    hide Trim;
    mark, rest := "", "";
    var close := IndexOf(entry, "]", 1);
    if entry != "" && entry[0] == '[' && close >= 2 {
      mark, rest := entry[1..close], entry[close + 1..];
      ClosingBracket(entry, close);
    }
  }

  lemma ClosingBracket(entry: string, close: nat)
    requires entry != "" && entry[0] == '[' && close >= 1 && IndexOf(entry, "]", 1) == close
    ensures entry == "[" + entry[1..close] + "]" + entry[close + 1..] && ']' !in entry[1..close]
  {
    var mark := entry[1..close];
    assert entry[close..close + 1] == "]";
    forall i | 0 <= i < |mark| ensures mark[i] != ']' {
      assert !At(entry, "]", i + 1);
      assert entry[i + 1..i + 2] == [mark[i]];
    }
  }

  /** `summary` is the text in its normal form, or, if that is longer than `limit`, what stands before position
      `limit - 1` of it, without the white space at its end, and three dots. */
  ghost predicate Summarises(summary: string, content: string, limit: nat) {
    var line := Normalize(content);
    if |line| <= limit then summary == line
    else
      exists k: nat :: k < limit && summary == line[..k] + "..."
        && (k > 0 ==> !IsSpace(line[k - 1])) && IsBlank(line[k..limit - 1])
  }

  lemma SummaryTells(content: string, limit: nat)
    requires limit > 0
    ensures Summarises(NormalizeInlineNote(content, limit), content, limit)
  {
    hide Normalize, TrimEnd;
    var line := Normalize(content);
    if |line| > limit {
      var k := TrimEndIs(line[..limit - 1]);
      assert line[..limit - 1][..k] == line[..k] && line[..limit - 1][k..] == line[k..limit - 1];
    }
  }

  /** An entry tells the time, a summary of the prompt and a summary of the response. */
  lemma EntryTells(note: Note) returns (task: string, outcome: string)
    ensures Summarises(task, note.prompt, 120) && Summarises(outcome, note.response, 220)
    ensures Stamped(note) == "[" + note.stamp + "] Task: " + task + " | Outcome: " + outcome
    ensures HasSummaries(note) <==> task != "" && outcome != ""
  {
    SummaryTells(note.prompt, 120);
    SummaryTells(note.response, 220);
    hide NormalizeInlineNote, Summarises;
    task, outcome := NormalizeInlineNote(note.prompt, 120), NormalizeInlineNote(note.response, 220);
    Assoc("[" + note.stamp + "] ", "Task: " + task, " | Outcome: " + outcome);
    Assoc("[" + note.stamp + "] ", "Task: ", task);
    Assoc("[" + note.stamp + "] Task: " + task, " | Outcome: ", outcome);
    assert "[" + note.stamp + "] " + "Task: " == "[" + note.stamp + "] Task: ";
    assert Body(note) == "Task: " + task + (" | Outcome: " + outcome);
  }

  lemma InlineAfter(a: string, t: string)
    requires IsInline(t) && forall k :: 0 <= k < |a| ==> a[k] == ' ' || !IsSpace(a[k])
    ensures IsInline(a + t)
  {
  }

  lemma BodyIsInline(note: Note)
    requires HasSummaries(note)
    ensures IsInline(Body(note)) && Body(note)[0] == 'T'
  {
    var p, r := NormalizeInlineNote(note.prompt, PROMPT_LIMIT), NormalizeInlineNote(note.response, RESPONSE_LIMIT);
    SummaryIsInline(note.prompt, PROMPT_LIMIT);
    SummaryIsInline(note.response, RESPONSE_LIMIT);
    hide NormalizeInlineNote;
    InlineAfter("Task: ", p);
    InlineAfter("Task: " + p + " | Outcome: ", r);
  }

  lemma StampedIsEntry(note: Note)
    requires HasSummaries(note) && IsStamp(note.stamp)
    ensures IsEntry(Stamped(note)) && !StartsWith(Stamped(note), HASHES)
  {
    BodyIsInline(note);
    hide Body;
    var e := Stamped(note);
    InlineAfter("[" + note.stamp + "] ", Body(note));
    TrimIs(e, 0, |e|);
  }

  lemma StripsToBody(note: Note)
    requires HasSummaries(note) && IsStamp(note.stamp)
    ensures StripTimestamp(Stamped(note)) == Body(note)
  {
    BodyIsInline(note);
    hide Body;
    var e, b, n := Stamped(note), Body(note), |note.stamp| + 1;
    assert e[n] == ']' && e[n..n + 1] == "]";
    forall i | 1 <= i < n ensures !At(e, "]", i) {
      AtChar(e, "]", i, 0);
      assert e[i] == note.stamp[i - 1];
    }
    IndexOfIs(e, "]", 1, n);
    assert e[n + 1..] == " " + b + "";
    hide *;
    TrimOfBody(b);
  }

  lemma TrimOfBody(b: string)
    requires IsInline(b) && b[0] == 'T'
    ensures Trim(" " + b + "") == b
  {
    TrimPad(" ", b, "");
    TrimIs(b, 0, |b|);
  }

  // ----- one write -----

  lemma ExtractedHoldsNoHeader(c: string, s: HeaderText)
    ensures !Contains(ExtractSection(c, s), NEXT_HEADER)
  {
    var index := IndexOf(c, s, 0);
    if index >= 0 {
      BodyHoldsNoHeader(c[index + |s|..]);
      ExtractAt(c, s, index + |s|);
    } else {
      NotFound("", NEXT_HEADER, 0);
    }
  }

  lemma BodyHoldsNoHeader(after: string)
    ensures !Contains(BodyText(after), NEXT_HEADER)
  {
    var n := IndexOf(after, NEXT_HEADER, 0);
    var x := if n < 0 then after else after[..n];
    var lo, hi := TrimBounds(x);
    var k := IndexOf(x[lo..hi], NEXT_HEADER, 0);
    if k >= 0 {
      AtSlice(x, lo, hi, NEXT_HEADER, k);
      if n >= 0 {
        AtSlice(after, 0, n, NEXT_HEADER, lo + k);
      }
    }
  }

  lemma EmptyAsNotepad(content: string)
    ensures var c := if content != "" then content else EMPTY_NOTEPAD;
            && Working(c) == Working(content)
            && forall s: HeaderText, t :: ReplaceSection(c, s, t) == ReplaceSection(content, s, t)
  {
    if content == "" {
      EmptyNotepad();
      BlankHoldsNoHeader("", Header(WorkingMemory));
    }
  }

  /** The text that an entry is appended to the section with. */
  function WithEntry(existing: string, entry: string): string {
    if existing != "" then existing + BREAK + entry else entry
  }

  lemma AppendIsReplace(content: string, entry: string)
    ensures AppendNote(content, entry)
            == ReplaceSection(content, Header(WorkingMemory), WithEntry(Working(content), entry))
  {
    hide ExtractSection, ReplaceSection;
    EmptyAsNotepad(content);
  }

  lemma CleanWithEntry(content: string, entry: string)
    requires IsEntry(entry) && !StartsWith(entry, HASHES)
    ensures Clean(WithEntry(Working(content), entry)) <==> !StartsWith(Working(content), HASHES)
  {
    ExtractedHoldsNoHeader(content, Header(WorkingMemory));
    CleanEntry(entry);
    CleanBreak(Working(content), entry);
    if Working(content) == "" {
      CleanEntry("");
    }
  }

  lemma EntriesOfWithEntry(existing: string, entry: string)
    requires IsEntry(entry)
    ensures Entries(WithEntry(existing, entry)) == Entries(existing) + [entry]
  {
    EntriesOfEntry(entry);
    if existing != "" {
      EntriesBreak(existing, entry);
    } else {
      assert Lines("") == [""];
    }
  }

  lemma StartExtends(existing: string, entry: string)
    requires StartsWith(existing, HASHES)
    ensures StartsWith(WithEntry(existing, entry), HASHES)
  {
  }

  /** An appended entry comes after the old ones, unless the section begins like a header: then all is lost. */
  lemma AppendedEntries(content: string, entry: string)
    requires IsEntry(entry) && !StartsWith(entry, HASHES)
    ensures Entries(Working(AppendNote(content, entry)))
            == if StartsWith(Working(content), HASHES) then [] else Entries(Working(content)) + [entry]
  {
    var s, existing := Header(WorkingMemory), Working(content);
    var t := WithEntry(existing, entry);
    AppendIsReplace(content, entry);
    CleanWithEntry(content, entry);
    if StartsWith(existing, HASHES) {
      StartExtends(existing, entry);
      UncleanIsCut(content, s, t);
      assert Lines("") == [""];
    } else {
      GetAfterPut(content, s, t);
      EntriesTrim(t);
      EntriesOfWithEntry(existing, entry);
    }
  }

  /** The entries that a write should leave: the last fifty of the old ones and the new one. */
  function Logged(entries: seq<string>, note: Note): seq<string> {
    Last(entries + [Stamped(note)], ENTRY_LIMIT)
  }

  lemma LoggedAreEntries(text: string, note: Note)
    requires HasSummaries(note) && IsStamp(note.stamp)
    ensures var kept := Logged(Entries(text), note);
            && |kept| > 0 && kept[|kept| - 1] == Stamped(note)
            && forall k :: 0 <= k < |kept| ==> IsEntry(kept[k])
  {
    EntriesAreEntries(text);
    StampedIsEntry(note);
  }

  /** A write leaves exactly the last fifty entries if the section and no entry among them begins like a header. */
  lemma WriteKeepsLog(content: string, note: Note)
    requires IsStamp(note.stamp) && IsWritten(Entries(Working(content)), note)
    ensures var kept := Logged(Entries(Working(content)), note);
            Entries(Working(WriteAuto(content, note))) == kept
            <==> !StartsWith(Working(content), HASHES) && NoHeading(kept)
  {
    var s, entry := Header(WorkingMemory), Stamped(note);
    var appended := AppendNote(content, entry);
    StampedIsEntry(note);
    AppendedEntries(content, entry);
    LoggedAreEntries(Working(content), note);
    if StartsWith(Working(content), HASHES) {
      CleanEntry("");
      GetAfterPut(appended, s, "");
      assert Lines("") == [""];
    } else {
      PutEntries(appended, Logged(Entries(Working(content)), note));
    }
  }

  /** Entries that are put are the entries that are got, exactly if none begins like a header. */
  lemma PutEntries(content: string, kept: seq<string>)
    requires forall k :: 0 <= k < |kept| ==> IsEntry(kept[k])
    ensures Entries(Working(ReplaceSection(content, Header(WorkingMemory), Join(kept, BREAK)))) == kept
            <==> NoHeading(kept)
  {
    var s, t := Header(WorkingMemory), Join(kept, BREAK);
    CleanJoin(kept);
    EntriesJoin(kept);
    if NoHeading(kept) {
      GetAfterPut(content, s, t);
      EntriesTrim(t);
    } else {
      UncleanIsCut(content, s, t);
      InkEntries(t);
      InkEntries(Working(ReplaceSection(content, s, t)));
    }
  }

  /** The other sections are left alone, if no kept entry holds their header. */
  lemma WriteKeepsOthers(content: string, note: Note, other: Section)
    requires IsStamp(note.stamp) && other != WorkingMemory
    requires Framed(Source(content), Header(WorkingMemory), Header(other))
    requires !StartsWith(Working(content), HASHES)
    requires !Contains(Join(Logged(Entries(Working(content)), note), BREAK), Header(other))
    ensures ExtractSection(WriteAuto(content, note), Header(other)) == ExtractSection(content, Header(other))
  {
    var entry := Stamped(note);
    if IsWritten(Entries(Working(content)), note) {
      var kept := Logged(Entries(Working(content)), note);
      StampedIsEntry(note);
      AppendedEntries(content, entry);
      AppendIsReplace(content, entry);
      CleanWithEntry(content, entry);
      PutPut(content, Header(WorkingMemory), WithEntry(Working(content), entry), Join(kept, BREAK));
      Frame(content, WorkingMemory, other, Join(kept, BREAK));
    }
  }

  // ----- runs of writes -----

  /** What every log written from an empty notepad looks like. */
  predicate LogOk(content: string) {
    !StartsWith(Working(content), HASHES) && NoHeading(Entries(Working(content)))
  }

  function LogStep(entries: seq<string>, note: Note): seq<string> {
    if IsWritten(entries, note) then Logged(entries, note) else entries
  }

  function WriteAll(content: string, notes: seq<Note>): string
    decreases |notes|
  {
    if notes == [] then content else WriteAll(WriteAuto(content, notes[0]), notes[1..])
  }

  function LogAll(entries: seq<string>, notes: seq<Note>): seq<string>
    decreases |notes|
  {
    if notes == [] then entries else LogAll(LogStep(entries, notes[0]), notes[1..])
  }

  /** The entries of the notes that are written, in order. */
  function Accepted(entries: seq<string>, notes: seq<Note>): seq<string>
    decreases |notes|
  {
    if notes == [] then []
    else (if IsWritten(entries, notes[0]) then [Stamped(notes[0])] else [])
         + Accepted(LogStep(entries, notes[0]), notes[1..])
  }

  lemma NoHeadingLogged(entries: seq<string>, note: Note)
    requires NoHeading(entries) && !StartsWith(Stamped(note), HASHES)
    ensures NoHeading(Logged(entries, note))
  {
  }

  lemma {:induction false} JoinEnds(es: seq<string>)
    requires es != [] && forall k :: 0 <= k < |es| ==> IsEntry(es[k])
    ensures var t := Join(es, BREAK);
            t != "" && !IsSpace(t[0]) && !IsSpace(t[|t| - 1])
  {
    var lo, hi := TrimBounds(es[0]);
    if |es| > 1 {
      JoinEnds(es[1..]);
    }
  }

  lemma TrimJoin(es: seq<string>)
    requires es != [] && forall k :: 0 <= k < |es| ==> IsEntry(es[k])
    ensures Trim(Join(es, BREAK)) == Join(es, BREAK)
  {
    var t := Join(es, BREAK);
    JoinEnds(es);
    TrimIs(t, 0, |t|);
  }

  lemma WrittenText(content: string, note: Note)
    requires LogOk(content) && IsStamp(note.stamp) && IsWritten(Entries(Working(content)), note)
    ensures !StartsWith(Working(WriteAuto(content, note)), HASHES)
  {
    var kept := Logged(Entries(Working(content)), note);
    StampedIsEntry(note);
    AppendedEntries(content, Stamped(note));
    LoggedAreEntries(Working(content), note);
    NoHeadingLogged(Entries(Working(content)), note);
    CleanJoin(kept);
    GetAfterPut(AppendNote(content, Stamped(note)), Header(WorkingMemory), Join(kept, BREAK));
    TrimJoin(kept);
  }

  lemma StepKeepsLog(content: string, note: Note)
    requires LogOk(content) && IsStamp(note.stamp)
    ensures LogOk(WriteAuto(content, note))
    ensures Entries(Working(WriteAuto(content, note))) == LogStep(Entries(Working(content)), note)
  {
    var entries := Entries(Working(content));
    if IsWritten(entries, note) {
      StampedIsEntry(note);
      NoHeadingLogged(entries, note);
      WriteKeepsLog(content, note);
      WrittenText(content, note);
    }
  }

  /** Whatever notes are written: the log of the document is the log of the notes. */
  lemma {:induction false} RunKeepsLog(content: string, notes: seq<Note>)
    requires LogOk(content) && forall k :: 0 <= k < |notes| ==> IsStamp(notes[k].stamp)
    ensures LogOk(WriteAll(content, notes))
    ensures Entries(Working(WriteAll(content, notes))) == LogAll(Entries(Working(content)), notes)
    decreases |notes|
  {
    if notes != [] {
      hide LogOk, LogStep, WriteAuto;
      StepKeepsLog(content, notes[0]);
      RunKeepsLog(WriteAuto(content, notes[0]), notes[1..]);
    }
  }

  lemma LastOfLast<T>(xs: seq<T>, ys: seq<T>, n: nat)
    ensures Last(Last(xs, n) + ys, n) == Last(xs + ys, n)
  {
  }

  /** A run leaves the last fifty of the old entries and the accepted ones, and an untouched log if none is accepted. */
  lemma {:induction false} RunLeavesLastFifty(entries: seq<string>, notes: seq<Note>)
    ensures var accepted := Accepted(entries, notes);
            LogAll(entries, notes) == if accepted == [] then entries else Last(entries + accepted, 50)
    decreases |notes|
  {
    if notes != [] {
      var step := LogStep(entries, notes[0]);
      var rest := Accepted(step, notes[1..]);
      RunLeavesLastFifty(step, notes[1..]);
      if IsWritten(entries, notes[0]) {
        var e := [Stamped(notes[0])];
        LastOfLast(entries + e, rest, ENTRY_LIMIT);
        Assoc(entries, e, rest);
        assert rest == [] ==> e + rest == e;
      } else {
        assert [] + rest == rest;
      }
    }
  }

  /** Writing the same prompt and response again changes nothing, once the first write has kept the log. */
  lemma RepeatIsIgnored(content: string, note: Note, again: Note)
    requires IsStamp(note.stamp)
    requires IsWritten(Entries(Working(content)), note) ==>
               !StartsWith(Working(content), HASHES) && NoHeading(Logged(Entries(Working(content)), note))
    requires again.prompt == note.prompt && again.response == note.response
    ensures WriteAuto(WriteAuto(content, note), again) == WriteAuto(content, note)
  {
    if IsWritten(Entries(Working(content)), note) {
      WriteKeepsLog(content, note);
      LoggedAreEntries(Working(content), note);
      StripsToBody(note);
      assert Body(again) == Body(note);
    }
  }

  /** A log is in order from the first write on. */
  lemma EmptyLogOk()
    ensures LogOk("") && Entries(Working("")) == []
  {
  }

  // ----- the stored document -----

  const PRIORITY_CHAR_LIMIT := 500

  /** The notepad file of a project, and the commands that rewrite it. */
  class NotepadFile {
    /** The document; empty while there is no file. */
    var content: string

    constructor ()
      ensures LogOk(content) && Entries(Working(content)) == []
    {
      content := "";
      EmptyLogOk();
    }

    /** A blank text is refused; another one is read back, cut to the limit, up to a line that looks like a header. */
    method WritePriority(text: string) returns (ok: bool)
      modifies this
      ensures ok <==> Trim(text) != ""
      ensures !ok ==> content == old(content)
      ensures ok ==> var put := Trim(text)[..Min(|Trim(text)|, 500)];
                     && content == ReplaceSection(old(content), Header(Priority), put)
                     && (ExtractSection(content, Header(Priority)) == Trim(put) <==> Clean(put))
    {
      var next := Trim(text);
      ok := next != "";
      if ok {
        var put := next[..Min(|next|, PRIORITY_CHAR_LIMIT)];
        EmptyAsNotepad(content);
        GetAfterPut(content, Header(Priority), put);
        content := ReplaceSection(if content != "" then content else EMPTY_NOTEPAD, Header(Priority), put);
      }
    }

    /** A note in the manual section is read back after the notes that were there, if it is clean. */
    method WriteManual(text: string) returns (ok: bool)
      modifies this
      ensures ok <==> Trim(text) != ""
      ensures !ok ==> content == old(content)
      ensures ok ==>
                content == ReplaceSection(old(content), Header(Manual), WithEntry(Manuals(old(content)), Trim(text)))
      ensures ok && Clean(Trim(text)) && !StartsWith(Manuals(old(content)), HASHES)
              ==> Entries(Manuals(content)) == Entries(Manuals(old(content))) + Entries(text)
    {
      var next := Trim(text);
      ok := next != "";
      if ok {
        AppendManualIs(content, next);
        if Clean(next) && !StartsWith(Manuals(content), HASHES) {
          AppendManual(content, next);
          EntriesTrim(text);
        }
        content := AppendToSection(if content != "" then content else EMPTY_NOTEPAD, Header(Manual), next);
      }
    }

    /** The automatic write of a turn. */
    method WriteAutoWorking(note: Note) returns (changed: bool)
      requires IsStamp(note.stamp)
      modifies this
      ensures changed <==> IsWritten(Entries(Working(old(content))), note)
      ensures content == WriteAuto(old(content), note)
      ensures LogOk(old(content)) ==>
                LogOk(content) && Entries(Working(content)) == LogStep(Entries(Working(old(content))), note)
    {
      if LogOk(content) {
        StepKeepsLog(content, note);
      }
      changed := IsWritten(Entries(Working(content)), note);
      if changed {
        var appended := AppendNote(content, Stamped(note));
        var keptEntries := Last(Entries(Working(appended)), ENTRY_LIMIT);
        content := ReplaceSection(appended, Header(WorkingMemory), Join(keptEntries, BREAK));
      }
    }
  }

  function Manuals(content: string): string {
    ExtractSection(content, Header(Manual))
  }

  lemma AppendManual(content: string, entry: string)
    requires Clean(entry) && !StartsWith(Manuals(content), HASHES)
    ensures var c := if content != "" then content else EMPTY_NOTEPAD;
            Entries(Manuals(AppendToSection(c, Header(Manual), entry))) == Entries(Manuals(content)) + Entries(entry)
  {
    var c, h := if content != "" then content else EMPTY_NOTEPAD, Header(Manual);
    var existing := Manuals(content);
    EmptyNotepad();
    BlankHoldsNoHeader("", h);
    assert Manuals(c) == existing;
    var t := WithEntry(existing, entry);
    ExtractedHoldsNoHeader(content, h);
    CleanBreak(existing, entry);
    GetAfterPut(c, h, t);
    EntriesTrim(t);
    EntriesBreak(existing, entry);
    assert existing == "" ==> Lines(existing) == [""];
  }

  lemma AppendManualIs(content: string, entry: string)
    ensures AppendToSection(if content != "" then content else EMPTY_NOTEPAD, Header(Manual), entry)
            == ReplaceSection(content, Header(Manual), WithEntry(Manuals(content), entry))
  {
    hide ExtractSection, ReplaceSection;
    EmptyAsNotepad(content);
    EmptyNotepad();
    BlankHoldsNoHeader("", Header(Manual));
  }
}
