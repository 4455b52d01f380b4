/**
 The duplicate-detection fingerprint of a batch of tool calls
 (src/application/chat/conversation-engine.ts).

 A parsed argument value is printed with its object keys sorted.  The module gives
 a reference meaning in which an object is a map, and proves that the printed text
 determines that meaning and, exactly for key orders without ties, is determined by it.
 */
module Fingerprint {
  import opened Text

  /** What JSON.parse returns.  A finite number is identified with the text that
      JSON.stringify prints for it; a literal too large for a double becomes an infinity. */
  datatype Json =
    | Null
    | Bool(flag: bool)
    | Number(token: string)
    | Infinity(negative: bool)
    | Str(text: string)
    | Arr(items: seq<Json>)
    | Obj(entries: seq<Entry>)

  datatype Entry = Entry(key: string, value: Json)

  /** The reference meaning: objects are maps, and an infinity is what it prints as. */
  datatype Meaning =
    | MNull
    | MBool(flag: bool)
    | MNumber(token: string)
    | MStr(text: string)
    | MArr(items: seq<Meaning>)
    | MObj(fields: map<string, Meaning>)

  /** `left.localeCompare(right) <= 0`. */
  type KeyOrder = (string, string) -> bool

  ghost predicate TotalPreorder(leq: KeyOrder) {
    && (forall a, b :: leq(a, b) || leq(b, a))
    && (forall a, b, c :: leq(a, b) && leq(b, c) ==> leq(a, c))
  }

  /** No two different keys compare as equal. */
  ghost predicate NoTies(leq: KeyOrder) {
    forall a, b :: leq(a, b) && leq(b, a) ==> a == b
  }

  predicate IsNumberChar(c: char) {
    '0' <= c <= '9' || c == '-' || c == '+' || c == '.' || c == 'e'
  }

  predicate IsNumberToken(t: string) {
    && |t| > 0
    && (t[0] == '-' || '0' <= t[0] <= '9')
    && forall i :: 0 <= i < |t| ==> IsNumberChar(t[i])
  }

  ghost predicate DistinctKeys(es: seq<Entry>) {
    forall i, j :: 0 <= i < j < |es| ==> es[i].key != es[j].key
  }

  /** Number tokens are numbers, and no object holds a key twice. */
  ghost predicate WellFormed(v: Json) {
    match v
    case Number(t) => IsNumberToken(t)
    case Arr(items) => forall i :: 0 <= i < |items| ==> WellFormed(items[i])
    case Obj(es) => DistinctKeys(es) && forall i :: 0 <= i < |es| ==> WellFormed(es[i].value)
    case _ => true
  }

  ghost function MeaningOf(v: Json): Meaning
    decreases v
  {
    match v
    case Null => MNull
    case Bool(b) => MBool(b)
    case Number(t) => MNumber(t)
    case Infinity(_) => MNull
    case Str(s) => MStr(s)
    case Arr(items) => MArr(MeaningOfItems(items))
    case Obj(es) => MObj(MeaningOfEntries(es))
  }

  ghost function MeaningOfItems(items: seq<Json>): (r: seq<Meaning>)
    ensures |r| == |items|
    ensures forall i :: 0 <= i < |items| ==> r[i] == MeaningOf(items[i])
    decreases items
  {
    if items == [] then [] else [MeaningOf(items[0])] + MeaningOfItems(items[1..])
  }

  ghost function MeaningOfEntries(es: seq<Entry>): (r: map<string, Meaning>)
    ensures forall k :: k in r <==> exists i :: 0 <= i < |es| && es[i].key == k
    decreases es
  {
    if es == [] then map[]
    else MeaningOfEntries(es[1..])[es[0].key := MeaningOf(es[0].value)]
  }

  // ----- printing -----

  function HexDigit(n: nat): char
    requires n < 16
  {
    "0123456789abcdef"[n]
  }

  /** How JSON.stringify writes one character of a string. */
  function EscapeChar(c: char): string {
    var code := c as int;
    if c == '\"' then "\\\""
    else if c == '\\' then "\\\\"
    else if code == 8 then "\\b"
    else if code == 9 then "\\t"
    else if code == 10 then "\\n"
    else if code == 12 then "\\f"
    else if code == 13 then "\\r"
    else if code < 0x20 then "\\u00" + [HexDigit(code / 16), HexDigit(code % 16)]
    else [c]
  }

  function EscapeAll(s: string): string {
    if s == "" then "" else EscapeChar(s[0]) + EscapeAll(s[1..])
  }

  function Quote(s: string): string {
    "\"" + EscapeAll(s) + "\""
  }

  /** A stable insertion sort: an entry goes before the first entry it does not follow. */
  function InsertEntry(leq: KeyOrder, e: Entry, es: seq<Entry>): seq<Entry> {
    if es == [] then [e]
    else if leq(e.key, es[0].key) then [e] + es
    else [es[0]] + InsertEntry(leq, e, es[1..])
  }

  function SortEntries(leq: KeyOrder, es: seq<Entry>): (r: seq<Entry>)
    ensures multiset(r) == multiset(es)
  {
    if es == [] then []
    else
      InsertKeeps(leq, es[0], SortEntries(leq, es[1..]));
      assert es == [es[0]] + es[1..];
      InsertEntry(leq, es[0], SortEntries(leq, es[1..]))
  }

  function StableStringify(leq: KeyOrder, v: Json): string
    decreases v, 1, 0
  {
    match v
    case Null => "null"
    case Bool(b) => if b then "true" else "false"
    case Number(t) => t
    case Infinity(_) => "null"
    case Str(s) => Quote(s)
    case Arr(items) => "[" + StringifyItems(leq, items) + "]"
    case Obj(es) =>
      var sorted := SortEntries(leq, es);
      SameElements(sorted, es);
      "{" + StringifyEntries(leq, sorted, v) + "}"
  }

  function StringifyItems(leq: KeyOrder, items: seq<Json>): string
    decreases items, 0, |items|
  {
    if items == [] then ""
    else if |items| == 1 then StableStringify(leq, items[0])
    else StableStringify(leq, items[0]) + "," + StringifyItems(leq, items[1..])
  }

  function StringifyEntry(leq: KeyOrder, e: Entry): string
    decreases e, 0, 0
  {
    Quote(e.key) + ":" + StableStringify(leq, e.value)
  }

  function StringifyEntries(leq: KeyOrder, es: seq<Entry>, ghost whole: Json): string
    requires whole.Obj? && forall e :: e in es ==> e in whole.entries
    decreases whole, 0, |es|
  {
    if es == [] then ""
    else
      EntryIsSmaller(es[0], whole);
      if |es| == 1 then StringifyEntry(leq, es[0])
      else StringifyEntry(leq, es[0]) + "," + StringifyEntries(leq, es[1..], whole)
  }

  // ----- the sort -----

  lemma EntryIsSmaller(e: Entry, whole: Json)
    requires whole.Obj? && e in whole.entries
    ensures e < whole && e.value < whole
  {
  }

  lemma InsertKeeps(leq: KeyOrder, e: Entry, es: seq<Entry>)
    ensures multiset(InsertEntry(leq, e, es)) == multiset([e] + es)
  {
    if es != [] && !leq(e.key, es[0].key) {
      InsertKeeps(leq, e, es[1..]);
      assert es == [es[0]] + es[1..];
    }
  }

  lemma SameElements(a: seq<Entry>, b: seq<Entry>)
    requires multiset(a) == multiset(b)
    ensures forall e :: e in a <==> e in b
    ensures |a| == |b|
  {
    forall e ensures e in a <==> e in b {
      assert e in a <==> e in multiset(a);
      assert e in b <==> e in multiset(b);
    }
    assert |multiset(a)| == |a| && |multiset(b)| == |b|;
  }

  lemma InsertContents(leq: KeyOrder, e: Entry, es: seq<Entry>)
    ensures forall x :: x in InsertEntry(leq, e, es) <==> x == e || x in es
  {
  }

  ghost predicate Sorted(leq: KeyOrder, es: seq<Entry>) {
    forall i, j :: 0 <= i < j < |es| ==> leq(es[i].key, es[j].key)
  }

  lemma InsertSorted(leq: KeyOrder, e: Entry, es: seq<Entry>)
    requires TotalPreorder(leq) && Sorted(leq, es) && DistinctKeys(es)
    requires forall x :: x in es ==> x.key != e.key
    ensures Sorted(leq, InsertEntry(leq, e, es)) && DistinctKeys(InsertEntry(leq, e, es))
  {
    if es != [] {
      assert forall x :: x in es[1..] ==> x in es;
      if leq(e.key, es[0].key) {
        assert forall j :: 0 <= j < |es| ==> es[j] in es && leq(e.key, es[j].key);
      } else {
        InsertSorted(leq, e, es[1..]);
        InsertContents(leq, e, es[1..]);
        PrependSorted(leq, es[0], InsertEntry(leq, e, es[1..]));
      }
    }
  }

  lemma PrependSorted(leq: KeyOrder, e: Entry, es: seq<Entry>)
    requires Sorted(leq, es) && DistinctKeys(es)
    requires forall x :: x in es ==> leq(e.key, x.key) && e.key != x.key
    ensures Sorted(leq, [e] + es) && DistinctKeys([e] + es)
  {
  }

  lemma SortSorted(leq: KeyOrder, es: seq<Entry>)
    requires TotalPreorder(leq) && DistinctKeys(es)
    ensures Sorted(leq, SortEntries(leq, es)) && DistinctKeys(SortEntries(leq, es))
  {
    if es != [] {
      SortSorted(leq, es[1..]);
      SameElements(SortEntries(leq, es[1..]), es[1..]);
      InsertSorted(leq, es[0], SortEntries(leq, es[1..]));
    }
  }

  // ----- entries as a map -----

  /** A key never stands for two different entries. */
  ghost predicate Functional(es: seq<Entry>) {
    forall e, f :: e in es && f in es && e.key == f.key ==> e == f
  }

  lemma EntriesLookup(es: seq<Entry>)
    requires Functional(es)
    ensures forall e :: e in es ==> e.key in MeaningOfEntries(es)
                                    && MeaningOfEntries(es)[e.key] == MeaningOf(e.value)
  {
  }

  /** A map of entries depends only on which entries there are. */
  lemma MeaningBySubset(es: seq<Entry>, fs: seq<Entry>, k: string)
    requires Functional(es) && Functional(fs) && (forall e :: e in es ==> e in fs)
    requires k in MeaningOfEntries(es)
    ensures k in MeaningOfEntries(fs) && MeaningOfEntries(es)[k] == MeaningOfEntries(fs)[k]
  {
    EntriesLookup(es);
    EntriesLookup(fs);
    var i :| 0 <= i < |es| && es[i].key == k;
    assert es[i] in es;
  }

  lemma DistinctIsFunctional(es: seq<Entry>)
    requires DistinctKeys(es)
    ensures Functional(es)
  {
  }

  lemma SameIsFunctional(es: seq<Entry>, fs: seq<Entry>)
    requires Functional(es) && forall e :: e in fs ==> e in es
    ensures Functional(fs)
  {
  }

  lemma SortKeepsMeaning(leq: KeyOrder, es: seq<Entry>)
    requires DistinctKeys(es)
    ensures MeaningOfEntries(SortEntries(leq, es)) == MeaningOfEntries(es)
  {
    var sorted := SortEntries(leq, es);
    hide MeaningOfEntries, SortEntries, Functional, DistinctKeys;
    SameElements(sorted, es);
    DistinctIsFunctional(es);
    SameIsFunctional(es, sorted);
    var m, n := MeaningOfEntries(sorted), MeaningOfEntries(es);
    forall k | k in m ensures k in n && m[k] == n[k] {
      MeaningBySubset(sorted, es, k);
    }
    forall k | k in n ensures k in m {
      MeaningBySubset(es, sorted, k);
    }
  }

  // ----- printing in front of a given rest -----

  ghost function EmitChars(s: string, rest: string): string {
    if s == "" then "\"" + rest else EscapeChar(s[0]) + EmitChars(s[1..], rest)
  }

  ghost function EmitQuote(s: string, rest: string): string {
    "\"" + EmitChars(s, rest)
  }

  ghost function Emit(leq: KeyOrder, v: Json, rest: string): string
    decreases v, 1, 0
  {
    match v
    case Str(s) => EmitQuote(s, rest)
    case Arr(items) => "[" + EmitItems(leq, items, rest)
    case Obj(es) =>
      var sorted := SortEntries(leq, es);
      SameElements(sorted, es);
      "{" + EmitEntries(leq, sorted, v, rest)
    case _ => StableStringify(leq, v) + rest
  }

  ghost function EmitItems(leq: KeyOrder, items: seq<Json>, rest: string): string
    decreases items, 0, |items|
  {
    if items == [] then "]" + rest
    else if |items| == 1 then Emit(leq, items[0], "]" + rest)
    else Emit(leq, items[0], "," + EmitItems(leq, items[1..], rest))
  }

  ghost function EmitEntry(leq: KeyOrder, e: Entry, rest: string): string
    decreases e, 0, 0
  {
    EmitQuote(e.key, ":" + Emit(leq, e.value, rest))
  }

  ghost function EmitEntries(leq: KeyOrder, es: seq<Entry>, whole: Json, rest: string): string
    requires whole.Obj? && forall e :: e in es ==> e in whole.entries
    decreases whole, 0, |es|
  {
    if es == [] then "}" + rest
    else
      EntryIsSmaller(es[0], whole);
      if |es| == 1 then EmitEntry(leq, es[0], "}" + rest)
      else EmitEntry(leq, es[0], "," + EmitEntries(leq, es[1..], whole, rest))
  }

  lemma {:induction false} EmitCharsIs(s: string, rest: string)
    ensures EmitChars(s, rest) == EscapeAll(s) + ("\"" + rest)
  {
    if s != "" {
      EmitCharsIs(s[1..], rest);
      Assoc(EscapeChar(s[0]), EscapeAll(s[1..]), "\"" + rest);
    }
  }

  lemma EmitQuoteIs(s: string, rest: string)
    ensures EmitQuote(s, rest) == Quote(s) + rest
  {
    EmitCharsIs(s, rest);
    Assoc("\"", EscapeAll(s), "\"" + rest);
    Assoc("\"" + EscapeAll(s), "\"", rest);
  }

  lemma {:induction false} EmitIs(leq: KeyOrder, v: Json, rest: string)
    ensures Emit(leq, v, rest) == StableStringify(leq, v) + rest
    decreases v, 1, 0
  {
    match v {
      case Str(s) => EmitQuoteIs(s, rest);
      case Arr(items) =>
        EmitItemsIs(leq, items, rest);
        Assoc("[", StringifyItems(leq, items), "]" + rest);
        Assoc("[" + StringifyItems(leq, items), "]", rest);
      case Obj(es) =>
        var sorted := SortEntries(leq, es);
        SameElements(sorted, es);
        EmitEntriesIs(leq, sorted, v, rest);
        Assoc("{", StringifyEntries(leq, sorted, v), "}" + rest);
        Assoc("{" + StringifyEntries(leq, sorted, v), "}", rest);
      case _ =>
    }
  }

  lemma {:induction false} EmitItemsIs(leq: KeyOrder, items: seq<Json>, rest: string)
    ensures EmitItems(leq, items, rest) == StringifyItems(leq, items) + ("]" + rest)
    decreases items, 0, |items|
  {
    if |items| == 1 {
      EmitIs(leq, items[0], "]" + rest);
    } else if items != [] {
      var tail := StringifyItems(leq, items[1..]);
      EmitItemsIs(leq, items[1..], rest);
      EmitIs(leq, items[0], "," + EmitItems(leq, items[1..], rest));
      Assoc(",", tail, "]" + rest);
      Assoc(StableStringify(leq, items[0]), ",", tail);
      Assoc(StableStringify(leq, items[0]), "," + tail, "]" + rest);
    }
  }

  lemma EmitEntryIs(leq: KeyOrder, e: Entry, rest: string)
    ensures EmitEntry(leq, e, rest) == StringifyEntry(leq, e) + rest
    decreases e, 0, 0
  {
    EmitIs(leq, e.value, rest);
    EmitQuoteIs(e.key, ":" + Emit(leq, e.value, rest));
    Assoc(":", StableStringify(leq, e.value), rest);
    Assoc(Quote(e.key), ":", StableStringify(leq, e.value));
    Assoc(Quote(e.key), ":" + StableStringify(leq, e.value), rest);
  }

  lemma {:induction false} EmitEntriesIs(leq: KeyOrder, es: seq<Entry>, whole: Json, rest: string)
    requires whole.Obj? && forall e :: e in es ==> e in whole.entries
    ensures EmitEntries(leq, es, whole, rest) == StringifyEntries(leq, es, whole) + ("}" + rest)
    decreases whole, 0, |es|
  {
    if es != [] {
      EntryIsSmaller(es[0], whole);
      if |es| == 1 {
        EmitEntryIs(leq, es[0], "}" + rest);
      } else {
        var tail := StringifyEntries(leq, es[1..], whole);
        EmitEntriesIs(leq, es[1..], whole, rest);
        EmitEntryIs(leq, es[0], "," + EmitEntries(leq, es[1..], whole, rest));
        Assoc(",", tail, "}" + rest);
        Assoc(StringifyEntry(leq, es[0]), ",", tail);
        Assoc(StringifyEntry(leq, es[0]), "," + tail, "}" + rest);
      }
    }
  }

  // ----- the printed text determines the meaning -----

  /** What can follow a value in a printed batch. */
  predicate Delimited(r: string) {
    r == "" || r[0] == ',' || r[0] == ']' || r[0] == '}' || r[0] == '|'
  }

  lemma Cancel(p: string, r: string, q: string, s: string)
    requires p + r == q + s && |p| == |q|
    ensures p == q && r == s
  {
    assert p == (p + r)[..|p|] && q == (q + s)[..|p|];
    assert r == (p + r)[|p|..] && s == (q + s)[|p|..];
  }

  lemma Overhang(p: string, r: string, q: string, s: string)
    requires p + r == q + s && |p| < |q|
    ensures r != "" && q[|p|] == r[0]
  {
    assert (p + r)[|p|] == (q + s)[|p|];
  }

  lemma CharAt(p: string, r: string, q: string, s: string, i: nat)
    requires p + r == q + s && i < |p| && i < |q|
    ensures p[i] == q[i]
  {
    assert p[i] == (p + r)[i] && q[i] == (q + s)[i];
  }

  /** Two escapes that agree as far as both go are the same. */
  lemma EscapeAgree(a: char, b: char)
    requires var x, y := EscapeChar(a), EscapeChar(b);
             forall i :: 0 <= i < |x| && i < |y| ==> x[i] == y[i]
    ensures a == b
  {
    var x, y := EscapeChar(a), EscapeChar(b);
    assert x[0] == y[0];
    if |x| > 1 && |y| > 1 {
      assert x[1] == y[1];
      if |x| == 6 && |y| == 6 {
        assert x[4] == y[4] && x[5] == y[5];
        HexAgree(a as int, b as int);
      }
    }
  }

  lemma HexAgree(c: nat, d: nat)
    requires c < 0x20 && d < 0x20
    requires HexDigit(c / 16) == HexDigit(d / 16) && HexDigit(c % 16) == HexDigit(d % 16)
    ensures c == d
  {
    HexDigitDecodes(c / 16, d / 16);
    HexDigitDecodes(c % 16, d % 16);
    hide HexDigit;
  }

  lemma HexDigitDecodes(m: nat, n: nat)
    requires m < 16 && n < 16 && HexDigit(m) == HexDigit(n)
    ensures m == n
  {
  }

  function HexValue(c: char): int {
    if '0' <= c <= '9' then c as int - '0' as int
    else if 'a' <= c <= 'f' then c as int - 'a' as int + 10
    else -1
  }

  /** The character that a piece of a JSON string stands for (section 7 of RFC 8259); -1 for what is none. */
  function ReadEscape(s: string): int {
    if |s| == 1 then s[0] as int
    else if |s| == 2 && s[0] == '\\' then
      match s[1]
      case '\"' => 0x22
      case '\\' => 0x5C
      case 'b' => 0x08
      case 'f' => 0x0C
      case 'n' => 0x0A
      case 'r' => 0x0D
      case 't' => 0x09
      case _ => -1
    else if |s| == 6 && s[0] == '\\' && s[1] == 'u' then
      ((HexValue(s[2]) * 16 + HexValue(s[3])) * 16 + HexValue(s[4])) * 16 + HexValue(s[5])
    else -1
  }

  /** What is printed for a character is read as this character, and only what has to be escaped is. */
  lemma EscapeIsRead(c: char)
    ensures ReadEscape(EscapeChar(c)) == c as int
    ensures EscapeChar(c) == [c] <==> c as int >= 0x20 && c != '\"' && c != '\\'
  {
    if c as int < 0x20 {
      HexIsRead(c as int / 16);
      HexIsRead(c as int % 16);
      hide HexDigit;
    }
  }

  lemma HexIsRead(n: nat)
    requires n < 16
    ensures HexValue(HexDigit(n)) == n
  {
  }

  predicate Digits(s: string) {
    forall k :: 0 <= k < |s| ==> '0' <= s[k] <= '9'
  }

  /** Every number of JSON is printable: a sign, digits, a fraction and an exponent (section 6 of RFC 8259). */
  lemma NumbersArePrintable(negative: bool, whole: string, fraction: string, sign: char, exponent: string)
    requires Digits(whole) && whole != "" && Digits(fraction) && Digits(exponent) && (sign == '+' || sign == '-')
    ensures IsNumberToken((if negative then "-" else "") + whole
                          + (if fraction == "" then "" else "." + fraction)
                          + (if exponent == "" then "" else ['e', sign] + exponent))
  {
  }

  lemma EscapeCharDecodes(a: char, b: char, r: string, s: string)
    requires EscapeChar(a) + r == EscapeChar(b) + s
    ensures a == b && r == s
  {
    hide EscapeChar;
    var x, y := EscapeChar(a), EscapeChar(b);
    forall i | 0 <= i < |x| && i < |y| ensures x[i] == y[i] {
      CharAt(x, r, y, s, i);
    }
    EscapeAgree(a, b);
    Cancel(x, r, y, s);
  }

  lemma {:induction false} EmitCharsDecodes(a: string, b: string, r: string, s: string)
    requires EmitChars(a, r) == EmitChars(b, s)
    ensures a == b && r == s
  {
    assert EmitChars(a, r)[0] == EmitChars(b, s)[0];
    if a == "" && b == "" {
      Cancel("\"", r, "\"", s);
    } else if a != "" && b != "" {
      EscapeCharDecodes(a[0], b[0], EmitChars(a[1..], r), EmitChars(b[1..], s));
      EmitCharsDecodes(a[1..], b[1..], r, s);
      assert a == [a[0]] + a[1..] && b == [b[0]] + b[1..];
    }
  }

  lemma EmitQuoteDecodes(a: string, b: string, r: string, s: string)
    requires EmitQuote(a, r) == EmitQuote(b, s)
    ensures a == b && r == s
  {
    Cancel("\"", EmitChars(a, r), "\"", EmitChars(b, s));
    EmitCharsDecodes(a, b, r, s);
  }

  lemma NumberDecodes(a: string, b: string, r: string, s: string)
    requires IsNumberToken(a) && IsNumberToken(b) && Delimited(r) && Delimited(s)
    requires a + r == b + s
    ensures a == b && r == s
  {
    if |a| < |b| {
      Overhang(a, r, b, s);
    } else if |b| < |a| {
      Overhang(b, s, a, r);
    }
    Cancel(a, r, b, s);
  }

  /** The first character of a printed value tells its kind. */
  lemma FirstChar(leq: KeyOrder, v: Json, rest: string)
    requires WellFormed(v)
    ensures Emit(leq, v, rest) != ""
    ensures var c := Emit(leq, v, rest)[0];
            && (v.Null? || v.Infinity? <==> c == 'n')
            && (v.Bool? <==> c == 't' || c == 'f')
            && (v.Bool? ==> (v.flag <==> c == 't'))
            && (v.Number? <==> c == '-' || '0' <= c <= '9')
            && (v.Str? <==> c == '\"')
            && (v.Arr? <==> c == '[')
            && (v.Obj? <==> c == '{')
            && c != ']' && c != '}'
  {
  }

  lemma {:induction false} ValueDecodes(leq: KeyOrder, a: Json, b: Json, r: string, s: string)
    requires WellFormed(a) && WellFormed(b) && Delimited(r) && Delimited(s)
    requires Emit(leq, a, r) == Emit(leq, b, s)
    ensures MeaningOf(a) == MeaningOf(b) && r == s
    decreases a, 1, 0
  {
    FirstChar(leq, a, r);
    FirstChar(leq, b, s);
    match a {
      case Number(t) => NumberDecodes(t, b.token, r, s);
      case Str(t) => EmitQuoteDecodes(t, b.text, r, s);
      case Arr(items) =>
        Cancel("[", EmitItems(leq, items, r), "[", EmitItems(leq, b.items, s));
        ItemsDecode(leq, items, b.items, r, s);
      case Obj(es) =>
        var sa, sb := SortEntries(leq, es), SortEntries(leq, b.entries);
        SameElements(sa, es);
        SameElements(sb, b.entries);
        Cancel("{", EmitEntries(leq, sa, a, r), "{", EmitEntries(leq, sb, b, s));
        EntriesDecode(leq, sa, sb, a, b, r, s);
        SortKeepsMeaning(leq, es);
        SortKeepsMeaning(leq, b.entries);
      case _ =>
        Cancel(StableStringify(leq, a), r, StableStringify(leq, b), s);
    }
  }

  lemma {:induction false} ItemsDecode(leq: KeyOrder, xs: seq<Json>, ys: seq<Json>, r: string, s: string)
    requires forall i :: 0 <= i < |xs| ==> WellFormed(xs[i])
    requires forall i :: 0 <= i < |ys| ==> WellFormed(ys[i])
    requires Delimited(r) && Delimited(s)
    requires EmitItems(leq, xs, r) == EmitItems(leq, ys, s)
    ensures MeaningOfItems(xs) == MeaningOfItems(ys) && r == s
    decreases xs, 0, |xs|
  {
    var restX := if |xs| <= 1 then "]" + r else "," + EmitItems(leq, xs[1..], r);
    var restY := if |ys| <= 1 then "]" + s else "," + EmitItems(leq, ys[1..], s);
    if xs != [] { FirstChar(leq, xs[0], restX); }
    if ys != [] { FirstChar(leq, ys[0], restY); }
    if xs != [] && ys != [] {
      ValueDecodes(leq, xs[0], ys[0], restX, restY);
    }
    Cancel(restX[..1], restX[1..], restY[..1], restY[1..]);
    if |xs| > 1 {
      ItemsDecode(leq, xs[1..], ys[1..], r, s);
    }
  }

  lemma {:induction false} EntriesDecode(
      leq: KeyOrder, es: seq<Entry>, fs: seq<Entry>, a: Json, b: Json, r: string, s: string)
    requires a.Obj? && b.Obj? && WellFormed(a) && WellFormed(b)
    requires (forall e :: e in es ==> e in a.entries) && (forall e :: e in fs ==> e in b.entries)
    requires Delimited(r) && Delimited(s)
    requires EmitEntries(leq, es, a, r) == EmitEntries(leq, fs, b, s)
    ensures MeaningOfEntries(es) == MeaningOfEntries(fs) && r == s
    decreases a, 0, |es|
  {
    var restX := if |es| <= 1 then "}" + r else "," + EmitEntries(leq, es[1..], a, r);
    var restY := if |fs| <= 1 then "}" + s else "," + EmitEntries(leq, fs[1..], b, s);
    if es != [] && fs != [] {
      EntryIsSmaller(es[0], a);
      EntryIsSmaller(fs[0], b);
      EntryDecodes(leq, es[0], fs[0], restX, restY);
    }
    Cancel(restX[..1], restX[1..], restY[..1], restY[1..]);
    if |es| > 1 {
      EntriesDecode(leq, es[1..], fs[1..], a, b, r, s);
    }
  }

  lemma {:induction false} EntryDecodes(leq: KeyOrder, e: Entry, f: Entry, r: string, s: string)
    requires WellFormed(e.value) && WellFormed(f.value) && Delimited(r) && Delimited(s)
    requires EmitEntry(leq, e, r) == EmitEntry(leq, f, s)
    ensures e.key == f.key && MeaningOf(e.value) == MeaningOf(f.value) && r == s
    decreases e, 0, 0
  {
    var x, y := Emit(leq, e.value, r), Emit(leq, f.value, s);
    EmitQuoteDecodes(e.key, f.key, ":" + x, ":" + y);
    Cancel(":", x, ":", y);
    ValueDecodes(leq, e.value, f.value, r, s);
  }

  // ----- the meaning determines the printed text, for a key order without ties -----

  lemma {:induction false} ValueInvariant(leq: KeyOrder, a: Json, b: Json)
    requires TotalPreorder(leq) && NoTies(leq)
    requires WellFormed(a) && WellFormed(b) && MeaningOf(a) == MeaningOf(b)
    ensures StableStringify(leq, a) == StableStringify(leq, b)
    decreases a, 1, 0
  {
    match a {
      case Arr(items) =>
        ItemsInvariant(leq, items, b.items);
      case Obj(es) =>
        var sa, sb := SortEntries(leq, es), SortEntries(leq, b.entries);
        SortSorted(leq, es);
        SortSorted(leq, b.entries);
        SameElements(sa, es);
        SameElements(sb, b.entries);
        SortKeepsMeaning(leq, es);
        SortKeepsMeaning(leq, b.entries);
        EntriesInvariant(leq, sa, sb, a, b);
      case _ =>
    }
  }

  lemma {:induction false} ItemsInvariant(leq: KeyOrder, xs: seq<Json>, ys: seq<Json>)
    requires TotalPreorder(leq) && NoTies(leq)
    requires forall i :: 0 <= i < |xs| ==> WellFormed(xs[i])
    requires forall i :: 0 <= i < |ys| ==> WellFormed(ys[i])
    requires MeaningOfItems(xs) == MeaningOfItems(ys)
    ensures StringifyItems(leq, xs) == StringifyItems(leq, ys)
    decreases xs, 0, |xs|
  {
    assert |xs| == |MeaningOfItems(xs)| == |ys|;
    if xs != [] {
      assert MeaningOfItems(xs)[0] == MeaningOfItems(ys)[0];
      ValueInvariant(leq, xs[0], ys[0]);
      assert MeaningOfItems(xs[1..]) == MeaningOfItems(xs)[1..];
      assert MeaningOfItems(ys[1..]) == MeaningOfItems(ys)[1..];
      ItemsInvariant(leq, xs[1..], ys[1..]);
    }
  }

  /** The first of strictly sorted entries is the one with the least key. */
  lemma FirstKeysAgree(leq: KeyOrder, es: seq<Entry>, fs: seq<Entry>)
    requires NoTies(leq) && TotalPreorder(leq) && Sorted(leq, es) && Sorted(leq, fs)
    requires es != [] && fs != []
    requires MeaningOfEntries(es).Keys == MeaningOfEntries(fs).Keys
    ensures es[0].key == fs[0].key
  {
    var k, l := es[0].key, fs[0].key;
    assert k in MeaningOfEntries(es).Keys && l in MeaningOfEntries(fs).Keys;
    var j :| 0 <= j < |fs| && fs[j].key == k;
    var i :| 0 <= i < |es| && es[i].key == l;
    assert leq(k, l) && leq(l, k);
  }

  lemma DropFirst(es: seq<Entry>)
    requires DistinctKeys(es) && es != []
    ensures MeaningOfEntries(es[1..]) == MeaningOfEntries(es) - {es[0].key}
    ensures es[0].key in MeaningOfEntries(es)
    ensures MeaningOfEntries(es)[es[0].key] == MeaningOf(es[0].value)
  {
    var m, k := MeaningOfEntries(es[1..]), es[0].key;
    forall i | 0 <= i < |es[1..]| ensures es[1..][i].key != k {
      assert es[1..][i] == es[i + 1];
    }
    UpdateThenDrop(m, k, MeaningOf(es[0].value));
  }

  lemma UpdateThenDrop(m: map<string, Meaning>, k: string, v: Meaning)
    requires k !in m
    ensures m[k := v] - {k} == m
  {
  }

  lemma NonemptyMap(es: seq<Entry>)
    ensures es == [] <==> MeaningOfEntries(es) == map[]
  {
    assert es != [] ==> es[0].key in MeaningOfEntries(es);
  }

  lemma {:induction false} EntriesInvariant(
      leq: KeyOrder, es: seq<Entry>, fs: seq<Entry>, a: Json, b: Json)
    requires TotalPreorder(leq) && NoTies(leq)
    requires a.Obj? && b.Obj? && WellFormed(a) && WellFormed(b)
    requires (forall e :: e in es ==> e in a.entries) && (forall e :: e in fs ==> e in b.entries)
    requires Sorted(leq, es) && Sorted(leq, fs) && DistinctKeys(es) && DistinctKeys(fs)
    requires MeaningOfEntries(es) == MeaningOfEntries(fs)
    ensures |es| == |fs|
    ensures StringifyEntries(leq, es, a) == StringifyEntries(leq, fs, b)
    decreases a, 0, |es|
  {
    NonemptyMap(es);
    NonemptyMap(fs);
    if es != [] {
      FirstKeysAgree(leq, es, fs);
      DropFirst(es);
      DropFirst(fs);
      EntryIsSmaller(es[0], a);
      EntryIsSmaller(fs[0], b);
      ValueInvariant(leq, es[0].value, fs[0].value);
      EntriesInvariant(leq, es[1..], fs[1..], a, b);
    }
  }

  /** Printing with sorted keys decides equality up to the order of object keys. */
  lemma StringifyDecidesMeaning(leq: KeyOrder, a: Json, b: Json)
    requires TotalPreorder(leq) && NoTies(leq) && WellFormed(a) && WellFormed(b)
    ensures StableStringify(leq, a) == StableStringify(leq, b) <==> MeaningOf(a) == MeaningOf(b)
  {
    if StableStringify(leq, a) == StableStringify(leq, b) {
      EmitIs(leq, a, "");
      EmitIs(leq, b, "");
      ValueDecodes(leq, a, b, "", "");
    }
    if MeaningOf(a) == MeaningOf(b) {
      ValueInvariant(leq, a, b);
    }
  }

  // ----- batches -----

  /** The argument text of a call: blank, parsed by JSON.parse, or rejected by it (then trimmed). */
  datatype Arguments = Blank | Parsed(value: Json) | Unparsed(trimmed: string)

  datatype ToolCall = ToolCall(id: string, name: string, arguments: Arguments)

  function NormalizeToolArguments(leq: KeyOrder, arguments: Arguments): string {
    match arguments
    case Blank => "{}"
    case Parsed(v) => StableStringify(leq, v)
    case Unparsed(t) => t
  }

  function PrintCall(leq: KeyOrder, call: ToolCall): string {
    call.name + ":" + NormalizeToolArguments(leq, call.arguments)
  }

  function CreateToolCallBatchFingerprint(leq: KeyOrder, calls: seq<ToolCall>): string {
    if calls == [] then ""
    else if |calls| == 1 then PrintCall(leq, calls[0])
    else PrintCall(leq, calls[0]) + "|" + CreateToolCallBatchFingerprint(leq, calls[1..])
  }

  /** A call whose name has no ':' and whose arguments are blank or were parsed. */
  ghost predicate Readable(call: ToolCall) {
    ':' !in call.name && !call.arguments.Unparsed? && WellFormed(ArgumentValue(call))
  }

  function ArgumentValue(call: ToolCall): Json {
    if call.arguments.Parsed? then call.arguments.value else Obj([])
  }

  ghost predicate ReadableBatch(calls: seq<ToolCall>) {
    forall i :: 0 <= i < |calls| ==> Readable(calls[i])
  }

  /** The same names in the same order, with arguments equal up to object-key order. */
  ghost predicate SameBatch(a: seq<ToolCall>, b: seq<ToolCall>) {
    && |a| == |b|
    && forall i :: 0 <= i < |a| ==>
         a[i].name == b[i].name && MeaningOf(ArgumentValue(a[i])) == MeaningOf(ArgumentValue(b[i]))
  }

  ghost function EmitCall(leq: KeyOrder, call: ToolCall, rest: string): string {
    call.name + (":" + Emit(leq, ArgumentValue(call), rest))
  }

  ghost function EmitCalls(leq: KeyOrder, calls: seq<ToolCall>): string {
    if calls == [] then ""
    else EmitCall(leq, calls[0], if |calls| == 1 then "" else "|" + EmitCalls(leq, calls[1..]))
  }

  lemma EmitCallIs(leq: KeyOrder, call: ToolCall, rest: string)
    requires Readable(call)
    ensures EmitCall(leq, call, rest) == PrintCall(leq, call) + rest
  {
    var value := StableStringify(leq, ArgumentValue(call));
    assert value == NormalizeToolArguments(leq, call.arguments) by {
      if call.arguments.Blank? {
        assert SortEntries(leq, []) == [];
      }
    }
    EmitIs(leq, ArgumentValue(call), rest);
    Assoc(":", value, rest);
    Assoc(call.name, ":", value);
    Assoc(call.name, ":" + value, rest);
  }

  lemma {:induction false} EmitCallsIs(leq: KeyOrder, calls: seq<ToolCall>)
    requires ReadableBatch(calls)
    ensures EmitCalls(leq, calls) == CreateToolCallBatchFingerprint(leq, calls)
  {
    if |calls| == 1 {
      EmitCallIs(leq, calls[0], "");
    } else if calls != [] {
      EmitCallsIs(leq, calls[1..]);
      var tail := CreateToolCallBatchFingerprint(leq, calls[1..]);
      EmitCallIs(leq, calls[0], "|" + tail);
      Assoc(PrintCall(leq, calls[0]), "|", tail);
    }
  }

  lemma NameDecodes(a: string, b: string, r: string, s: string)
    requires ':' !in a && ':' !in b && a + (":" + r) == b + (":" + s)
    ensures a == b && r == s
  {
    if |a| < |b| {
      Overhang(a, ":" + r, b, ":" + s);
    } else if |b| < |a| {
      Overhang(b, ":" + s, a, ":" + r);
    }
    Cancel(a, ":" + r, b, ":" + s);
    Cancel(":", r, ":", s);
  }

  lemma CallDecodes(leq: KeyOrder, a: ToolCall, b: ToolCall, r: string, s: string)
    requires Readable(a) && Readable(b) && Delimited(r) && Delimited(s)
    requires EmitCall(leq, a, r) == EmitCall(leq, b, s)
    ensures a.name == b.name && MeaningOf(ArgumentValue(a)) == MeaningOf(ArgumentValue(b)) && r == s
  {
    var x, y := Emit(leq, ArgumentValue(a), r), Emit(leq, ArgumentValue(b), s);
    NameDecodes(a.name, b.name, x, y);
    ValueDecodes(leq, ArgumentValue(a), ArgumentValue(b), r, s);
  }

  lemma {:induction false} CallsDecode(leq: KeyOrder, a: seq<ToolCall>, b: seq<ToolCall>)
    requires ReadableBatch(a) && ReadableBatch(b)
    requires EmitCalls(leq, a) == EmitCalls(leq, b)
    ensures SameBatch(a, b)
  {
    var r := if |a| <= 1 then "" else "|" + EmitCalls(leq, a[1..]);
    var s := if |b| <= 1 then "" else "|" + EmitCalls(leq, b[1..]);
    if a != [] && b != [] {
      CallDecodes(leq, a[0], b[0], r, s);
      if |a| > 1 {
        Cancel("|", EmitCalls(leq, a[1..]), "|", EmitCalls(leq, b[1..]));
        CallsDecode(leq, a[1..], b[1..]);
      }
      forall i | 0 <= i < |a|
        ensures a[i].name == b[i].name && MeaningOf(ArgumentValue(a[i])) == MeaningOf(ArgumentValue(b[i]))
      {
        if i > 0 {
          assert a[i] == a[1..][i - 1] && b[i] == b[1..][i - 1];
        }
      }
    }
  }

  /** A fingerprint, whatever the key order, stands for one batch only. */
  lemma FingerprintDecodes(leq: KeyOrder, a: seq<ToolCall>, b: seq<ToolCall>)
    requires ReadableBatch(a) && ReadableBatch(b)
    requires CreateToolCallBatchFingerprint(leq, a) == CreateToolCallBatchFingerprint(leq, b)
    ensures SameBatch(a, b)
  {
    EmitCallsIs(leq, a);
    EmitCallsIs(leq, b);
    CallsDecode(leq, a, b);
  }

  lemma {:induction false} FingerprintInvariant(leq: KeyOrder, a: seq<ToolCall>, b: seq<ToolCall>)
    requires TotalPreorder(leq) && NoTies(leq)
    requires ReadableBatch(a) && ReadableBatch(b) && SameBatch(a, b)
    ensures CreateToolCallBatchFingerprint(leq, a) == CreateToolCallBatchFingerprint(leq, b)
  {
    if a != [] {
      ValueInvariant(leq, ArgumentValue(a[0]), ArgumentValue(b[0]));
      EmitCallIs(leq, a[0], "");
      EmitCallIs(leq, b[0], "");
      EmitIs(leq, ArgumentValue(a[0]), "");
      EmitIs(leq, ArgumentValue(b[0]), "");
      assert PrintCall(leq, a[0]) == PrintCall(leq, a[0]) + "";
      assert PrintCall(leq, b[0]) == PrintCall(leq, b[0]) + "";
      FingerprintInvariant(leq, a[1..], b[1..]);
    }
  }

  /** Two batches get the same fingerprint exactly when they are the same calls. */
  lemma FingerprintDecidesBatch(leq: KeyOrder, a: seq<ToolCall>, b: seq<ToolCall>)
    requires TotalPreorder(leq) && NoTies(leq) && ReadableBatch(a) && ReadableBatch(b)
    ensures CreateToolCallBatchFingerprint(leq, a) == CreateToolCallBatchFingerprint(leq, b)
            <==> SameBatch(a, b)
  {
    if CreateToolCallBatchFingerprint(leq, a) == CreateToolCallBatchFingerprint(leq, b) {
      FingerprintDecodes(leq, a, b);
    }
    if SameBatch(a, b) {
      FingerprintInvariant(leq, a, b);
    }
  }

  // ----- batches of one call, raw arguments included -----

  /** A call whose name has no ':'. */
  ghost predicate PlainCall(call: ToolCall) {
    ':' !in call.name && WellFormed(ArgumentValue(call))
  }

  /** The same raw text, or values that are equal up to key order; or raw text that, trimmed, is the print of the
      other's value. */
  ghost predicate SameArguments(leq: KeyOrder, a: ToolCall, b: ToolCall) {
    match (a.arguments, b.arguments)
    case (Unparsed(x), Unparsed(y)) => x == y
    case (Unparsed(x), _) => x == StableStringify(leq, ArgumentValue(b))
    case (_, Unparsed(y)) => y == StableStringify(leq, ArgumentValue(a))
    case _ => MeaningOf(ArgumentValue(a)) == MeaningOf(ArgumentValue(b))
  }

  lemma ArgumentsPrinted(leq: KeyOrder, call: ToolCall)
    ensures NormalizeToolArguments(leq, call.arguments)
            == if call.arguments.Unparsed? then call.arguments.trimmed else StableStringify(leq, ArgumentValue(call))
  {
    if call.arguments.Blank? {
      assert SortEntries(leq, []) == [];
    }
  }

  /** Two single calls, raw arguments included, get the same fingerprint exactly if they are the same call. */
  lemma SingleCallDecides(leq: KeyOrder, a: ToolCall, b: ToolCall)
    requires TotalPreorder(leq) && NoTies(leq) && PlainCall(a) && PlainCall(b)
    ensures CreateToolCallBatchFingerprint(leq, [a]) == CreateToolCallBatchFingerprint(leq, [b])
            <==> a.name == b.name && SameArguments(leq, a, b)
  {
    var x, y := NormalizeToolArguments(leq, a.arguments), NormalizeToolArguments(leq, b.arguments);
    ArgumentsPrinted(leq, a);
    ArgumentsPrinted(leq, b);
    hide StableStringify, NormalizeToolArguments;
    Assoc(a.name, ":", x);
    Assoc(b.name, ":", y);
    if a.name + (":" + x) == b.name + (":" + y) {
      NameDecodes(a.name, b.name, x, y);
    }
    if !a.arguments.Unparsed? && !b.arguments.Unparsed? {
      StringifyDecidesMeaning(leq, ArgumentValue(a), ArgumentValue(b));
    }
  }

  /** `trim` removes more than JSON allows around a value: a no-break space before `{}` is rejected by
      JSON.parse, and the text that is left is the print of the empty object. */
  lemma TrimmedRawTextCollides(leq: KeyOrder, name: string)
    ensures var raw := ToolCall("", name, Unparsed(Trim("\U{A0}{}")));
            var empty := ToolCall("", name, Parsed(Obj([])));
            CreateToolCallBatchFingerprint(leq, [raw]) == CreateToolCallBatchFingerprint(leq, [empty])
  {
    assert IsSpace('\U{A0}');
    assert "\U{A0}{}"[1..] == "{}";
    assert SortEntries(leq, []) == [];
  }

  // ----- where the fingerprint falls short -----

  /** The fingerprint ignores the order in which the keys of an object were written. */
  ghost predicate IgnoresKeyOrder(leq: KeyOrder) {
    forall a, b :: ReadableBatch(a) && ReadableBatch(b) && SameBatch(a, b) ==>
      CreateToolCallBatchFingerprint(leq, a) == CreateToolCallBatchFingerprint(leq, b)
  }

  lemma SortedPair(leq: KeyOrder, e: Entry, f: Entry)
    requires leq(e.key, f.key)
    ensures SortEntries(leq, [e, f]) == [e, f]
  {
  }

  /** Two keys that compare as equal keep their written order, so the fingerprint shows it. */
  lemma TiesShow(leq: KeyOrder, k: string, l: string)
    requires leq(k, l) && leq(l, k) && k != l
    ensures StableStringify(leq, Obj([Entry(k, Null), Entry(l, Null)]))
            != StableStringify(leq, Obj([Entry(l, Null), Entry(k, Null)]))
  {
    var e, f := Entry(k, Null), Entry(l, Null);
    var v, w := Obj([e, f]), Obj([f, e]);
    SortedPair(leq, e, f);
    SortedPair(leq, f, e);
    assert [e, f][1..] == [f] && [f, e][1..] == [e];
    hide SortEntries;
    if StableStringify(leq, v) == StableStringify(leq, w) {
      EmitIs(leq, v, "");
      EmitIs(leq, w, "");
      var x, y := EmitEntries(leq, [e, f], v, ""), EmitEntries(leq, [f, e], w, "");
      Cancel("{", x, "{", y);
      EntryDecodes(leq, e, f, "," + EmitEntries(leq, [f], v, ""), "," + EmitEntries(leq, [e], w, ""));
    }
  }

  /** Key order is ignored exactly when no two keys tie. */
  lemma KeyOrderIgnoredExactly(leq: KeyOrder)
    requires TotalPreorder(leq)
    ensures IgnoresKeyOrder(leq) <==> NoTies(leq)
  {
    if NoTies(leq) {
      forall a, b | ReadableBatch(a) && ReadableBatch(b) && SameBatch(a, b)
        ensures CreateToolCallBatchFingerprint(leq, a) == CreateToolCallBatchFingerprint(leq, b)
      {
        FingerprintInvariant(leq, a, b);
      }
    } else {
      var k, l :| leq(k, l) && leq(l, k) && k != l;
      TieIsVisible(leq, k, l);
    }
  }

  lemma TieIsVisible(leq: KeyOrder, k: string, l: string)
    requires leq(k, l) && leq(l, k) && k != l
    ensures !IgnoresKeyOrder(leq)
  {
    if IgnoresKeyOrder(leq) {
      SwappedMeaning(k, l);
      ValueKeyOrderIgnored(leq, Obj([Entry(k, Null), Entry(l, Null)]), Obj([Entry(l, Null), Entry(k, Null)]));
      TiesShow(leq, k, l);
    }
  }

  lemma ValueKeyOrderIgnored(leq: KeyOrder, v: Json, w: Json)
    requires IgnoresKeyOrder(leq)
    requires WellFormed(v) && WellFormed(w) && MeaningOf(v) == MeaningOf(w)
    ensures StableStringify(leq, v) == StableStringify(leq, w)
  {
    var a, b := ToolCall("", "t", Parsed(v)), ToolCall("", "t", Parsed(w));
    SingleCallFingerprint(leq, a);
    SingleCallFingerprint(leq, b);
    assert ReadableBatch([a]) && ReadableBatch([b]) && SameBatch([a], [b]);
    Cancel("t:", StableStringify(leq, v), "t:", StableStringify(leq, w));
  }

  lemma SingleCallFingerprint(leq: KeyOrder, call: ToolCall)
    requires call.name == "t" && call.arguments.Parsed?
    ensures CreateToolCallBatchFingerprint(leq, [call]) == "t:" + StableStringify(leq, call.arguments.value)
  {
  }

  lemma SwappedMeaning(k: string, l: string)
    requires k != l
    ensures MeaningOf(Obj([Entry(k, Null), Entry(l, Null)])) == MeaningOf(Obj([Entry(l, Null), Entry(k, Null)]))
    ensures WellFormed(Obj([Entry(k, Null), Entry(l, Null)])) && WellFormed(Obj([Entry(l, Null), Entry(k, Null)]))
  {
    TwoEntries(k, l);
    TwoEntries(l, k);
    assert map[l := MNull, k := MNull] == map[k := MNull, l := MNull];
  }

  lemma TwoEntries(k: string, l: string)
    ensures MeaningOfEntries([Entry(k, Null), Entry(l, Null)]) == map[l := MNull, k := MNull]
  {
  }

  /** Arguments that are not JSON are printed as they stand, and then one call can read as two;
      so can a name that holds a ':'. */
  lemma UnreadableBatchesCollide(leq: KeyOrder)
    ensures var two := [ToolCall("", "a", Blank), ToolCall("", "b", Blank)];
            var raw := [ToolCall("", "a", Unparsed("{}|b:{}"))];
            var colon := [ToolCall("", "a:{}|b", Blank)];
            && CreateToolCallBatchFingerprint(leq, two) == CreateToolCallBatchFingerprint(leq, raw)
            && CreateToolCallBatchFingerprint(leq, two) == CreateToolCallBatchFingerprint(leq, colon)
  {
  }
}
