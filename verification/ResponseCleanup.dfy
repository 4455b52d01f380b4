/**
 The removal of repeated blocks from an answer (src/application/chat/response-cleanup.ts):
 a greedy filter over the blocks of a text, by the similarity of their character shingles.
 */
module ResponseCleanup {
  import opened Text

  const MIN_DEDUPE_BLOCK_LENGTH := 80
  const FENCE := "```"

  // ----- similarity -----

  function ShingleSize(value: string): nat {
    if |value| < 140 then 5 else 8
  }

  function Piece(value: string, size: nat, i: nat): string
    requires i + size <= |value|
  {
    value[i..i + size]
  }

  /** The pieces of one size that begin before a position. */
  ghost function PiecesBefore(value: string, size: nat, end: nat): set<string>
    requires end + size <= |value| + 1
  {
    set i | 0 <= i < end :: Piece(value, size, i)
  }

  /** The pieces of a text of one size, or the text itself if it is shorter. */
  ghost function Shingles(value: string): set<string> {
    var size := ShingleSize(value);
    if |value| < size then (if value != "" then {value} else {})
    else PiecesBefore(value, size, |value| - size + 1)
  }

  method CreateCharacterShingles(value: string) returns (shingles: set<string>)
    ensures shingles == Shingles(value)
  {
    var size := ShingleSize(value);
    shingles := {};
    var index := 0;
    while index <= |value| - size
      invariant index == 0 || index + size <= |value| + 1
      invariant shingles == if index == 0 then {} else PiecesBefore(value, size, index)
    {
      shingles := shingles + {Piece(value, size, index)};
      index := index + 1;
    }
    if size <= |value| {
      assert Piece(value, size, 0) in PiecesBefore(value, size, index);
    }
    if shingles == {} && value != "" {
      shingles := {value};
    }
  }

  /** The shared share of the shingles is at least 82 percent, for texts of nearly the same length. */
  ghost predicate Similar(left: string, right: string) {
    var shorter, longer := Min(|left|, |right|), Max(|left|, |right|);
    var shared := |Shingles(left) * Shingles(right)|;
    var union := |Shingles(left)| + |Shingles(right)| - shared;
    && shorter >= MIN_DEDUPE_BLOCK_LENGTH && 25 * shorter >= 18 * longer
    && union > 0 && 50 * shared >= 41 * union
  }

  method AreNearDuplicateBlocks(left: string, right: string) returns (similar: bool)
    ensures similar == Similar(left, right)
  {
    var shorter, longer := Min(|left|, |right|), Max(|left|, |right|);
    if shorter < MIN_DEDUPE_BLOCK_LENGTH || 25 * shorter < 18 * longer {
      return false;
    }
    var leftShingles := CreateCharacterShingles(left);
    var rightShingles := CreateCharacterShingles(right);
    var shared := CountShared(leftShingles, rightShingles);
    var union := |leftShingles| + |rightShingles| - shared;
    return union > 0 && 50 * shared >= 41 * union;
  }

  method CountShared(left: set<string>, right: set<string>) returns (intersection: nat)
    ensures intersection == |left * right|
  {
    intersection := 0;
    var todo := left;
    while todo != {}
      invariant todo <= left
      invariant intersection == |(left - todo) * right|
      decreases |todo|
    {
      var shingle :| shingle in todo;
      CountedOne(left, todo, right, shingle);
      if shingle in right {
        intersection := intersection + 1;
      }
      todo := todo - {shingle};
    }
    assert left - {} == left;
  }

  lemma CountedOne(left: set<string>, todo: set<string>, right: set<string>, shingle: string)
    requires shingle in todo && todo <= left
    ensures |(left - (todo - {shingle})) * right| == |(left - todo) * right| + if shingle in right then 1 else 0
  {
    var before, after := (left - todo) * right, (left - (todo - {shingle})) * right;
    if shingle in right {
      assert after == before + {shingle};
    } else {
      assert after == before;
    }
  }

  lemma SimilarIsSymmetric(left: string, right: string)
    ensures Similar(left, right) <==> Similar(right, left)
  {
    assert Shingles(left) * Shingles(right) == Shingles(right) * Shingles(left);
  }

  /** A text that is long enough is similar to itself. */
  lemma LongIsSimilarToItself(s: string)
    requires |s| >= MIN_DEDUPE_BLOCK_LENGTH
    ensures Similar(s, s)
  {
    var size := ShingleSize(s);
    assert Piece(s, size, 0) in Shingles(s);
    assert Shingles(s) * Shingles(s) == Shingles(s);
  }

  /** The shingles of a text: every piece of five characters, of eight in a text of 140 or more;
      a text too short for one is its own. */
  lemma ShinglesExactly(value: string, p: string)
    ensures p in Shingles(value)
            <==> (|| (|p| == (if |value| >= 140 then 8 else 5) && Contains(value, p))
                  || (p == value && 0 < |value| < 5))
  {
    var size := ShingleSize(value);
    if p in Shingles(value) && |value| >= size {
      var i :| 0 <= i < |value| - size + 1 && Piece(value, size, i) == p;
      IndexOfAtMost(value, p, 0, i);
    }
    if |p| == size && Contains(value, p) {
      var i := IndexOf(value, p, 0);
      assert Piece(value, size, i) == p;
    }
  }

  /** Two texts are similar if both have at least 80 characters, the shorter one at least 72 percent of the
      longer one's, and if they share at least 82 percent of their shingles. */
  lemma SimilarExactly(left: string, right: string)
    ensures Similar(left, right)
            <==> && |left| >= 80 && |right| >= 80
                 && Share(|left|, |right|) >= 0.72 && Share(|right|, |left|) >= 0.72
                 && Share(|Shingles(left) * Shingles(right)|, |Shingles(left) + Shingles(right)|) >= 0.82
  {
    var shared, union := |Shingles(left) * Shingles(right)|, |Shingles(left) + Shingles(right)|;
    hide Shingles;
    ShareAtLeast(|left|, |right|);
    ShareAtLeast(|right|, |left|);
    ShareAtLeast(shared, union);
    hide Share;
  }

  /** `part / whole`; nothing is a share of nothing. */
  function Share(part: nat, whole: nat): real {
    if whole == 0 then 0.0 else part as real / whole as real
  }

  lemma ShareAtLeast(part: nat, whole: nat)
    ensures Share(part, whole) >= 0.72 <==> whole > 0 && 25 * part >= 18 * whole
    ensures Share(part, whole) >= 0.82 <==> whole > 0 && 50 * part >= 41 * whole
  {
    if whole > 0 {
      QuotientAtLeast(part as real, whole as real, 0.72);
      QuotientAtLeast(part as real, whole as real, 0.82);
    }
  }

  lemma QuotientAtLeast(p: real, w: real, bound: real)
    requires w > 0.0
    ensures p / w >= bound <==> p >= bound * w
  {
    var q := p / w;
    assert q * w == p;
    if q >= bound {
      assert (q - bound) * w >= 0.0;
    } else {
      assert (bound - q) * w > 0.0;
    }
  }

  // ----- the filter -----

  /** A short block and a block with code are never dropped; `key` normalises a block. */
  predicate Exempt(key: string -> string, block: string) {
    |key(block)| < MIN_DEDUPE_BLOCK_LENGTH || Contains(block, FENCE)
  }

  /** Exempt are the blocks of which less than 80 characters count, and those that hold three backquotes in a row. */
  lemma ExemptExactly(key: string -> string, block: string)
    ensures Exempt(key, block)
            <==> |key(block)| < 80 || exists i: nat :: i + 3 <= |block| && At(block, "```", i)
  {
    if i: nat :| i + 3 <= |block| && At(block, "```", i) {
      IndexOfAtMost(block, FENCE, 0, i);
    }
  }

  ghost predicate Repeats(key: string -> string, earlier: string, block: string) {
    key(earlier) == key(block) || Similar(key(earlier), key(block))
  }

  /** A block of a list that is neither short nor code is repeated. */
  ghost predicate RepeatsOneOf(key: string -> string, kept: seq<string>, block: string) {
    exists earlier :: earlier in kept && !Exempt(key, earlier) && Repeats(key, earlier, block)
  }

  ghost function Filtered(key: string -> string, blocks: seq<string>): seq<string> {
    if blocks == [] then []
    else
      var block, kept := blocks[|blocks| - 1], Filtered(key, blocks[..|blocks| - 1]);
      if !Exempt(key, block) && RepeatsOneOf(key, kept, block) then kept else kept + [block]
  }

  ghost function Keys(key: string -> string, kept: seq<string>): seq<string> {
    if kept == [] then []
    else
      var block := kept[|kept| - 1];
      Keys(key, kept[..|kept| - 1]) + if Exempt(key, block) then [] else [key(block)]
  }

  lemma {:induction false} KeysOfKept(key: string -> string, kept: seq<string>, k: string)
    ensures k in Keys(key, kept) <==> exists b :: b in kept && !Exempt(key, b) && key(b) == k
  {
    if kept != [] {
      var n := |kept| - 1;
      KeysOfKept(key, kept[..n], k);
      assert kept == kept[..n] + [kept[n]];
      assert kept[n] in kept;
    }
  }

  /** The loop over the blocks computes the filter. */
  method RemoveRepeatedBlocks(key: string -> string, blocks: seq<string>) returns (keptBlocks: seq<string>)
    ensures keptBlocks == Filtered(key, blocks)
  {
    keptBlocks := [];
    var keptKeys: seq<string> := [];
    for i := 0 to |blocks|
      invariant keptBlocks == Filtered(key, blocks[..i])
      invariant keptKeys == Keys(key, keptBlocks)
    {
      var block := blocks[i];
      assert blocks[..i + 1][..i] == blocks[..i] && blocks[..i + 1][i] == block;
      var repeated := FindRepeated(key, keptKeys, keptBlocks, block);
      if !Exempt(key, block) && repeated {
        continue;
      }
      assert (keptBlocks + [block])[..|keptBlocks|] == keptBlocks;
      keptBlocks := keptBlocks + [block];
      if !Exempt(key, block) {
        keptKeys := keptKeys + [key(block)];
      }
    }
    assert blocks[..|blocks|] == blocks;
  }

  /** Some key that is kept repeats the block. */
  method FindRepeated(key: string -> string, keptKeys: seq<string>, ghost kept: seq<string>, block: string)
    returns (found: bool)
    requires keptKeys == Keys(key, kept)
    ensures found == RepeatsOneOf(key, kept, block)
  {
    found := false;
    for i := 0 to |keptKeys|
      invariant !found
      invariant forall j :: 0 <= j < i ==> keptKeys[j] != key(block) && !Similar(keptKeys[j], key(block))
    {
      var similar := AreNearDuplicateBlocks(keptKeys[i], key(block));
      if keptKeys[i] == key(block) || similar {
        KeysOfKept(key, kept, keptKeys[i]);
        return true;
      }
    }
    forall b | b in kept && !Exempt(key, b) ensures !Repeats(key, b, block) {
      KeysOfKept(key, kept, key(b));
    }
  }

  // ----- what the filter selects -----

  /** The blocks at chosen positions, in their order. */
  ghost function Select(blocks: seq<string>, chosen: set<nat>): seq<string> {
    if blocks == [] then []
    else
      var n := |blocks| - 1;
      Select(blocks[..n], chosen) + if n in chosen then [blocks[n]] else []
  }

  /** An earlier chosen block is repeated at position `i`. */
  ghost predicate Answered(key: string -> string, blocks: seq<string>, chosen: set<nat>, i: nat)
    requires i < |blocks|
  {
    exists j :: j in chosen && j < i && !Exempt(key, blocks[j]) && Repeats(key, blocks[j], blocks[i])
  }

  /**
   What is not chosen is neither short nor code and repeats something chosen before it;
   what is chosen, and neither short nor code, repeats nothing chosen before it.
   */
  ghost predicate IsSelection(key: string -> string, blocks: seq<string>, chosen: set<nat>) {
    forall i: nat :: i < |blocks| ==>
      (i !in chosen <==> !Exempt(key, blocks[i]) && Answered(key, blocks, chosen, i))
  }

  lemma {:induction false} SelectHolds(blocks: seq<string>, chosen: set<nat>, b: string)
    ensures b in Select(blocks, chosen) <==> exists j :: j in chosen && j < |blocks| && blocks[j] == b
  {
    if blocks != [] {
      var n := |blocks| - 1;
      SelectHolds(blocks[..n], chosen, b);
      if b in Select(blocks[..n], chosen) {
        var j :| j in chosen && j < n && blocks[..n][j] == b;
        assert blocks[j] == b;
      }
      if j :| j in chosen && j < |blocks| && blocks[j] == b {
        assert j < n ==> blocks[..n][j] == b;
      }
    }
  }

  lemma AnsweredIsRepeated(key: string -> string, blocks: seq<string>, chosen: set<nat>, n: nat)
    requires n < |blocks|
    ensures Answered(key, blocks, chosen, n) <==> RepeatsOneOf(key, Select(blocks[..n], chosen), blocks[n])
  {
    hide Select, Exempt, Repeats;
    if Answered(key, blocks, chosen, n) {
      var j :| j in chosen && j < n && !Exempt(key, blocks[j]) && Repeats(key, blocks[j], blocks[n]);
      SelectHolds(blocks[..n], chosen, blocks[j]);
      assert blocks[..n][j] == blocks[j];
    }
    if RepeatsOneOf(key, Select(blocks[..n], chosen), blocks[n]) {
      var b :| b in Select(blocks[..n], chosen) && !Exempt(key, b) && Repeats(key, b, blocks[n]);
      SelectHolds(blocks[..n], chosen, b);
      var j :| j in chosen && j < n && blocks[..n][j] == b;
      assert blocks[j] == b;
    }
  }

  lemma SelectionOfPrefix(key: string -> string, blocks: seq<string>, chosen: set<nat>, n: nat)
    requires IsSelection(key, blocks, chosen) && n <= |blocks|
    ensures IsSelection(key, blocks[..n], chosen)
  {
  }

  /** Only the filter's result meets those two rules. */
  lemma {:induction false} SelectionIsFiltered(key: string -> string, blocks: seq<string>, chosen: set<nat>)
    requires IsSelection(key, blocks, chosen)
    ensures Select(blocks, chosen) == Filtered(key, blocks)
  {
    if blocks != [] {
      var n := |blocks| - 1;
      SelectionOfPrefix(key, blocks, chosen, n);
      SelectionIsFiltered(key, blocks[..n], chosen);
      AnsweredIsRepeated(key, blocks, chosen, n);
    }
  }

  /** And there are positions that do. */
  lemma {:induction false} FilteredIsSelection(key: string -> string, blocks: seq<string>) returns (chosen: set<nat>)
    ensures IsSelection(key, blocks, chosen) && Select(blocks, chosen) == Filtered(key, blocks)
    ensures forall i :: i in chosen ==> i < |blocks|
  {
    chosen := {};
    if blocks != [] {
      var n := |blocks| - 1;
      var before := FilteredIsSelection(key, blocks[..n]);
      AnsweredIsRepeated(key, blocks, before, n);
      chosen := if !Exempt(key, blocks[n]) && Answered(key, blocks, before, n) then before else before + {n};
      ExtendSelection(key, blocks, before, chosen);
    }
  }

  lemma ExtendSelection(key: string -> string, blocks: seq<string>, before: set<nat>, chosen: set<nat>)
    requires blocks != [] && IsSelection(key, blocks[..|blocks| - 1], before)
    requires forall i :: i in before ==> i < |blocks| - 1
    requires var n := |blocks| - 1;
             chosen == if !Exempt(key, blocks[n]) && Answered(key, blocks, before, n) then before else before + {n}
    ensures IsSelection(key, blocks, chosen)
    ensures Select(blocks[..|blocks| - 1], chosen) == Select(blocks[..|blocks| - 1], before)
  {
    hide Exempt, Answered, Select;
    var n := |blocks| - 1;
    var front := blocks[..n];
    SameAnswerLast(key, blocks, before, chosen, n);
    SameSelect(front, before, chosen);
    forall i: nat | i < |blocks|
      ensures i !in chosen <==> !Exempt(key, blocks[i]) && Answered(key, blocks, chosen, i)
    {
      if i < n {
        SameAnswer(key, blocks, before, chosen, n, i);
        assert front[i] == blocks[i];
      }
    }
  }

  lemma SameAnswer(key: string -> string, blocks: seq<string>, before: set<nat>, chosen: set<nat>, n: nat, i: nat)
    requires i < n < |blocks| && forall j: nat :: j < n ==> (j in before <==> j in chosen)
    ensures Answered(key, blocks, chosen, i) <==> Answered(key, blocks[..n], before, i)
  {
  }

  lemma SameAnswerLast(key: string -> string, blocks: seq<string>, before: set<nat>, chosen: set<nat>, n: nat)
    requires n < |blocks| && forall j: nat :: j < n ==> (j in before <==> j in chosen)
    ensures Answered(key, blocks, chosen, n) <==> Answered(key, blocks, before, n)
  {
  }

  lemma {:induction false} SameSelect(blocks: seq<string>, before: set<nat>, chosen: set<nat>)
    requires forall j: nat :: j < |blocks| ==> (j in before <==> j in chosen)
    ensures Select(blocks, chosen) == Select(blocks, before)
  {
    if blocks != [] {
      SameSelect(blocks[..|blocks| - 1], before, chosen);
    }
  }

  /** The first block always stays, in its place. */
  lemma {:induction false} FirstStays(key: string -> string, blocks: seq<string>)
    requires blocks != []
    ensures Filtered(key, blocks) != [] && Filtered(key, blocks)[0] == blocks[0]
  {
    if |blocks| > 1 {
      FirstStays(key, blocks[..|blocks| - 1]);
    }
  }

  // ----- filtering again -----

  /** No block that is neither short nor code is repeated later. */
  ghost predicate Dissimilar(key: string -> string, blocks: seq<string>) {
    forall i, j :: 0 <= i < j < |blocks| && !Exempt(key, blocks[i]) && !Exempt(key, blocks[j]) ==>
      !Repeats(key, blocks[i], blocks[j])
  }

  lemma DissimilarLast(key: string -> string, kept: seq<string>, block: string)
    requires Dissimilar(key, kept) && (Exempt(key, block) || !RepeatsOneOf(key, kept, block))
    ensures Dissimilar(key, kept + [block])
  {
  }

  lemma {:induction false} FilteredIsDissimilar(key: string -> string, blocks: seq<string>)
    ensures Dissimilar(key, Filtered(key, blocks))
  {
    if blocks != [] {
      var n := |blocks| - 1;
      FilteredIsDissimilar(key, blocks[..n]);
      if Exempt(key, blocks[n]) || !RepeatsOneOf(key, Filtered(key, blocks[..n]), blocks[n]) {
        DissimilarLast(key, Filtered(key, blocks[..n]), blocks[n]);
      }
    }
  }

  lemma {:induction false} DissimilarStays(key: string -> string, blocks: seq<string>)
    requires Dissimilar(key, blocks)
    ensures Filtered(key, blocks) == blocks
  {
    hide Exempt, Repeats;
    if blocks != [] {
      var n := |blocks| - 1;
      DissimilarStays(key, blocks[..n]);
      assert blocks[..n] + [blocks[n]] == blocks;
    }
  }

  /** Filtering what was filtered drops nothing. */
  lemma {:induction false} FilterTwice(key: string -> string, blocks: seq<string>)
    ensures Filtered(key, Filtered(key, blocks)) == Filtered(key, blocks)
  {
    FilteredIsDissimilar(key, blocks);
    DissimilarStays(key, Filtered(key, blocks));
  }

  // ----- the text of the blocks -----

  const BLANK_LINE := "\n\n"

  function DropBreaks(s: string): (r: string)
    ensures |r| <= |s| && (r == "" || r[0] != '\n')
  {
    if s != "" && s[0] == '\n' then DropBreaks(s[1..]) else s
  }

  /** `content.split(/\n{2,}/)`. */
  function Blocks(content: string): seq<string>
    decreases |content|
  {
    var i := IndexOf(content, BLANK_LINE, 0);
    if i < 0 then [content] else [content[..i]] + Blocks(DropBreaks(content[i + 2..]))
  }

  ghost function RemoveRepeatedSections(key: string -> string, content: string): string {
    if |content| < 2 * MIN_DEDUPE_BLOCK_LENGTH then content
    else TrimEnd(Join(Filtered(key, Blocks(content)), BLANK_LINE))
  }

  /** A text of less than 160 characters stays as it is; of a longer one the selected blocks stay, an empty
      line between two of them and no white space at the end. */
  lemma SectionsExactly(key: string -> string, content: string) returns (chosen: set<nat>)
    ensures IsSelection(key, Blocks(content), chosen)
    ensures RemoveRepeatedSections(key, content)
            == if |content| < 160 then content else TrimEnd(Join(Select(Blocks(content), chosen), "\n\n"))
  {
    chosen := FilteredIsSelection(key, Blocks(content));
  }

  method RemoveSections(key: string -> string, content: string) returns (r: string)
    ensures r == RemoveRepeatedSections(key, content)
  {
    if |content| < 2 * MIN_DEDUPE_BLOCK_LENGTH {
      return content;
    }
    var keptBlocks := RemoveRepeatedBlocks(key, Blocks(content));
    return TrimEnd(Join(keptBlocks, BLANK_LINE));
  }

  /** A block that another one follows. */
  predicate Inner(b: string, first: bool) {
    && !Contains(b, BLANK_LINE)
    && (b != "" ==> b[|b| - 1] != '\n')
    && (first || (b != "" && b[0] != '\n'))
  }

  /** The last block. */
  predicate Final(b: string, first: bool) {
    !Contains(b, BLANK_LINE) && (first || b == "" || b[0] != '\n')
  }

  predicate AllInner(bs: seq<string>, first: bool) {
    forall k :: 0 <= k < |bs| ==> Inner(bs[k], first && k == 0)
  }

  /** What a text is split into; `first` says that it may begin with a line break. */
  predicate Shaped(bs: seq<string>, first: bool) {
    bs != [] && AllInner(bs[..|bs| - 1], first) && Final(bs[|bs| - 1], first && |bs| == 1)
  }

  lemma ShapedCons(b: string, bs: seq<string>, first: bool)
    requires Inner(b, first) && Shaped(bs, false)
    ensures Shaped([b] + bs, first)
  {
  }

  lemma BeforeBlankLine(content: string, i: nat, first: bool)
    requires IndexOf(content, BLANK_LINE, 0) == i && (first || content == "" || content[0] != '\n')
    ensures Inner(content[..i], first)
  {
    var b := content[..i];
    var k := IndexOf(b, BLANK_LINE, 0);
    if k >= 0 {
      AtSlice(content, 0, i, BLANK_LINE, k);
    }
    AtChar(content, BLANK_LINE, i, 0);
    if b != "" && b[i - 1] == '\n' {
      assert content[i - 1..i + 1] == BLANK_LINE;
      assert At(content, BLANK_LINE, i - 1);
    }
  }

  lemma {:induction false} BlocksAreShaped(content: string, first: bool)
    requires first || content == "" || content[0] != '\n'
    ensures Shaped(Blocks(content), first)
    decreases |content|
  {
    var i := IndexOf(content, BLANK_LINE, 0);
    if i >= 0 {
      BeforeBlankLine(content, i, first);
      BlocksAreShaped(DropBreaks(content[i + 2..]), false);
      ShapedCons(content[..i], Blocks(DropBreaks(content[i + 2..])), first);
    }
  }

  lemma FirstBlankLine(b: string, rest: string)
    requires Inner(b, true)
    ensures IndexOf(b + (BLANK_LINE + rest), BLANK_LINE, 0) == |b|
  {
    var t := b + (BLANK_LINE + rest);
    AtShift(b, BLANK_LINE + rest, BLANK_LINE, |b|);
    assert (BLANK_LINE + rest)[0..2] == BLANK_LINE;
    forall i: nat | i < |b| ensures !At(t, BLANK_LINE, i) {
      AtExtends(b, BLANK_LINE + rest, BLANK_LINE, i);
      if i + 1 == |b| {
        AtChar(t, BLANK_LINE, i, 0);
      }
    }
    IndexOfIs(t, BLANK_LINE, 0, |b|);
  }

  lemma ShapedTail(bs: seq<string>, first: bool)
    requires Shaped(bs, first) && |bs| > 1
    ensures Inner(bs[0], true) && Shaped(bs[1..], false)
  {
    assert bs[..|bs| - 1][0] == bs[0];
    assert bs[1..][..|bs| - 2] == bs[..|bs| - 1][1..];
  }

  lemma JoinStart(bs: seq<string>)
    requires Shaped(bs, false)
    ensures Join(bs, BLANK_LINE) == "" || Join(bs, BLANK_LINE)[0] != '\n'
  {
  }

  /** Splitting the joined blocks gives them back. */
  lemma {:induction false} BlocksOfJoin(bs: seq<string>, first: bool)
    requires Shaped(bs, first)
    ensures Blocks(Join(bs, BLANK_LINE)) == bs
  {
    if |bs| > 1 {
      var b, rest := bs[0], Join(bs[1..], BLANK_LINE);
      ShapedTail(bs, first);
      JoinStart(bs[1..]);
      BlocksOfJoin(bs[1..], false);
      hide Shaped, AllInner, Final;
      Assoc(b, BLANK_LINE, rest);
      FirstBlankLine(b, rest);
      assert (b + (BLANK_LINE + rest))[..|b|] == b;
      assert (b + (BLANK_LINE + rest))[|b| + 2..] == rest;
      assert DropBreaks(rest) == rest;
    }
  }

  // ----- the white space at the end -----

  lemma {:induction false} JoinLast(bs: seq<string>, b: string)
    requires bs != []
    ensures Join(bs + [b], BLANK_LINE) == Join(bs, BLANK_LINE) + (BLANK_LINE + b)
  {
    if |bs| == 1 {
      Assoc(bs[0], BLANK_LINE, b);
      assert ([bs[0]] + [b])[1..] == [b];
    } else {
      assert (bs + [b])[1..] == bs[1..] + [b];
      JoinLast(bs[1..], b);
      Assoc(bs[0] + BLANK_LINE, Join(bs[1..], BLANK_LINE), BLANK_LINE + b);
    }
  }

  /** The blocks without the white space after them. */
  function TrimTail(bs: seq<string>): (r: seq<string>)
    requires bs != []
    ensures 0 < |r| <= |bs| && r[|r| - 1] == TrimEnd(bs[|r| - 1]) && r[..|r| - 1] == bs[..|r| - 1]
  {
    var n := |bs| - 1;
    if n > 0 && TrimEnd(bs[n]) == "" then TrimTail(bs[..n]) else bs[..n] + [TrimEnd(bs[n])]
  }

  lemma BlankTail(b: string)
    requires TrimEnd(b) == ""
    ensures IsBlank(BLANK_LINE + b)
  {
    var n := TrimEndIs(b);
    assert b[n..] == b;
  }

  lemma {:induction false} TrimEndOfJoin(bs: seq<string>)
    requires bs != []
    ensures TrimEnd(Join(bs, BLANK_LINE)) == Join(TrimTail(bs), BLANK_LINE)
  {
    var n := |bs| - 1;
    if n > 0 {
      var front, b := bs[..n], bs[n];
      assert bs == front + [b];
      JoinLast(front, b);
      if TrimEnd(b) == "" {
        BlankTail(b);
        TrimEndBlank(Join(front, BLANK_LINE), BLANK_LINE + b);
        TrimEndOfJoin(front);
      } else {
        TrimEndKeep(BLANK_LINE, b);
        TrimEndKeep(Join(front, BLANK_LINE), BLANK_LINE + b);
        JoinLast(front, TrimEnd(b));
      }
    }
  }

  lemma InnerIsFinal(b: string, first: bool)
    requires Inner(b, first) || Final(b, first)
    ensures Final(TrimEnd(b), first)
  {
    var n := TrimEndIs(b);
    var k := IndexOf(b[..n], BLANK_LINE, 0);
    if k >= 0 {
      AtSlice(b, 0, n, BLANK_LINE, k);
    }
  }

  lemma ShapedTrimTail(bs: seq<string>)
    requires Shaped(bs, true)
    ensures Shaped(TrimTail(bs), true)
  {
    var n := |bs| - 1;
    hide TrimEnd, Inner, Final;
    var r := TrimTail(bs);
    var m := |r| - 1;
    assert r[..m] == bs[..m];
    assert forall k :: 0 <= k < m ==> bs[..n][k] == r[..m][k];
    if m < n {
      assert bs[..n][m] == bs[m];
    }
    InnerIsFinal(bs[m], m == 0);
  }

  lemma {:induction false} FilteredInner(key: string -> string, bs: seq<string>)
    requires AllInner(bs, true)
    ensures AllInner(Filtered(key, bs), true)
  {
    if bs != [] {
      var n := |bs| - 1;
      assert AllInner(bs[..n], true);
      FilteredInner(key, bs[..n]);
      if n > 0 {
        FirstStays(key, bs[..n]);
      }
    }
  }

  lemma FilteredShaped(key: string -> string, bs: seq<string>)
    requires Shaped(bs, true)
    ensures Filtered(key, bs) != [] && Shaped(TrimTail(Filtered(key, bs)), true)
  {
    var n := |bs| - 1;
    var kept, front := Filtered(key, bs), Filtered(key, bs[..n]);
    FilteredInner(key, bs[..n]);
    if n > 0 {
      FirstStays(key, bs[..n]);
    }
    if kept != front {
      assert kept == front + [bs[n]];
      assert kept[..|kept| - 1] == front;
      ShapedTrimTail(kept);
    } else {
      InnerTrimTail(kept);
    }
  }

  lemma InnerTrimTail(kept: seq<string>)
    requires kept != [] && AllInner(kept, true)
    ensures Shaped(TrimTail(kept), true)
  {
    hide TrimEnd, Inner, Final;
    var r := TrimTail(kept);
    var m := |r| - 1;
    assert r[..m] == kept[..m];
    InnerIsFinal(kept[m], m == 0);
  }

  /** Normalising a block does not look at the white space at its end. */
  ghost predicate IgnoresEndSpace(key: string -> string) {
    forall b :: key(TrimEnd(b)) == key(b)
  }

  lemma ExemptTrimmed(key: string -> string, b: string)
    requires IgnoresEndSpace(key)
    ensures Exempt(key, TrimEnd(b)) <==> Exempt(key, b)
  {
    var n := TrimEndIs(b);
    var k, l := IndexOf(b, FENCE, 0), IndexOf(b[..n], FENCE, 0);
    if k >= 0 {
      AtChar(b, FENCE, k, 2);
      if k + 2 >= n {
        assert b[n..][k + 2 - n] == '`';
      }
      AtSlice(b, 0, n, FENCE, k);
    }
    if l >= 0 {
      AtSlice(b, 0, n, FENCE, l);
    }
  }

  lemma DissimilarTrimTail(key: string -> string, bs: seq<string>)
    requires bs != [] && Dissimilar(key, bs) && IgnoresEndSpace(key)
    ensures Dissimilar(key, TrimTail(bs))
  {
    var r := TrimTail(bs);
    forall k | 0 <= k < |r| ensures key(r[k]) == key(bs[k]) && (Exempt(key, r[k]) <==> Exempt(key, bs[k])) {
      TrimTailKeeps(key, bs, k);
    }
    hide TrimEnd, Exempt, TrimTail, Similar, IgnoresEndSpace;
    forall i, j | 0 <= i < j < |r| && !Exempt(key, r[i]) && !Exempt(key, r[j]) ensures !Repeats(key, r[i], r[j]) {
      assert !Repeats(key, bs[i], bs[j]);
    }
  }

  lemma TrimTailKeeps(key: string -> string, bs: seq<string>, k: nat)
    requires bs != [] && k < |TrimTail(bs)| && IgnoresEndSpace(key)
    ensures key(TrimTail(bs)[k]) == key(bs[k])
    ensures Exempt(key, TrimTail(bs)[k]) <==> Exempt(key, bs[k])
  {
    hide Exempt, TrimEnd, TrimTail;
    var r := TrimTail(bs);
    if k < |r| - 1 {
      assert r[..|r| - 1][k] == bs[..|r| - 1][k];
    } else {
      ExemptTrimmed(key, bs[k]);
    }
  }

  /** Removing the repeated sections of a text twice is removing them once. */
  lemma RemoveTwice(key: string -> string, content: string)
    requires IgnoresEndSpace(key)
    ensures RemoveRepeatedSections(key, RemoveRepeatedSections(key, content)) == RemoveRepeatedSections(key, content)
  {
    if |content| >= 2 * MIN_DEDUPE_BLOCK_LENGTH {
      var kept := Filtered(key, Blocks(content));
      BlocksAreShaped(content, true);
      FilteredShaped(key, Blocks(content));
      FilteredIsDissimilar(key, Blocks(content));
      RemovedAgain(key, kept);
    }
  }

  lemma RemovedAgain(key: string -> string, kept: seq<string>)
    requires IgnoresEndSpace(key) && kept != [] && Dissimilar(key, kept) && Shaped(TrimTail(kept), true)
    ensures var r := TrimEnd(Join(kept, BLANK_LINE));
            RemoveRepeatedSections(key, r) == r
  {
    hide IgnoresEndSpace, Dissimilar, Shaped, Filtered, Blocks, TrimEnd, Join;
    var t := TrimTail(kept);
    TrimEndOfJoin(kept);
    BlocksOfJoin(t, true);
    DissimilarTrimTail(key, kept);
    DissimilarStays(key, t);
    TrimEndTwice(Join(kept, BLANK_LINE));
  }
}
