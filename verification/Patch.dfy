/**
 Taking binary blocks without a payload out of a patch (backend/internal/runs/patch.go).
 */
module Patch {
  import opened Wrappers
  import opened Strings

  const HEADER := "diff --git "
  const BINARY_HEAD := "Binary files "
  const BINARY_TAIL := " differ"
  const PAYLOAD := "GIT binary patch"
  const TARGET := " and b/"
  const AND := " and "

  type Block = seq<string>

  predicate EndsWith(s: string, tail: string) {
    |tail| <= |s| && s[|s| - |tail|..] == tail
  }

  predicate IsHeader(line: string) {
    HEADER <= line
  }

  predicate IsBinaryMarker(line: string) {
    BINARY_HEAD <= line && EndsWith(line, BINARY_TAIL)
  }

  predicate IsPayload(line: string) {
    PAYLOAD <= line
  }

  // ----- the name in a binary marker

  function TrimPrefix(s: string, head: string): string {
    if head <= s then s[|head|..] else s
  }

  function TrimSuffix(s: string, tail: string): string {
    if EndsWith(s, tail) then s[..|s| - |tail|] else s
  }

  /** The last match that begins before `end`. */
  function LastIndex(s: string, key: string, end: nat): (at: Option<nat>)
    ensures at.Some? ==> at.value < end && OccursAt(s, key, at.value)
    ensures forall i: nat | i < end && (at.None? || at.value < i) :: !OccursAt(s, key, i)
  {
    if end == 0 then None
    else if OccursAt(s, key, end - 1) then Some(end - 1)
    else LastIndex(s, key, end - 1)
  }

  function BinaryName(line: string): string {
    var s := TrimSuffix(TrimPrefix(line, BINARY_HEAD), BINARY_TAIL);
    match LastIndex(s, TARGET, |s|)
    case Some(i) => s[i + |TARGET|..]
    case None =>
      match LastIndex(s, AND, |s|)
      case Some(i) => TrimPrefix(s[i + |AND|..], "b/")
      case None => TrimPrefix(s, "b/")
  }

  /** The path is found again, whatever it is, unless it has the separator inside. */
  lemma NameIsThePath(source: string, path: string)
    ensures var line := BINARY_HEAD + source + TARGET + path + BINARY_TAIL;
      && IsBinaryMarker(line)
      && (BinaryName(line) == path <==> !Contains(path, TARGET))
  {
    var s := source + TARGET + path;
    var line := BINARY_HEAD + source + TARGET + path + BINARY_TAIL;
    assert line == BINARY_HEAD + (s + BINARY_TAIL) == (BINARY_HEAD + s) + BINARY_TAIL;
    assert BINARY_HEAD <= line;
    assert line[|line| - |BINARY_TAIL|..] == BINARY_TAIL;
    assert TrimPrefix(line, BINARY_HEAD) == s + BINARY_TAIL;
    assert (s + BINARY_TAIL)[|s|..] == BINARY_TAIL;
    assert TrimSuffix(s + BINARY_TAIL, BINARY_TAIL) == s;
    var d := |source| + |TARGET|;
    assert s[d..] == path && OccursAt(s, TARGET, |source|);
    var at := LastIndex(s, TARGET, |s|);
    assert at.Some? && at.value >= |source|;
    if at.value > |source| {
      TargetsDoNotOverlap(s, |source|, at.value);
      OccursAfterDrop(s, d, TARGET, at.value - d);
      assert BinaryName(line) == s[at.value + |TARGET|..];
    } else {
      forall i: nat ensures !OccursAt(path, TARGET, i) {
        OccursAfterDrop(s, d, TARGET, i);
        assert d + i < |s| ==> !OccursAt(s, TARGET, d + i);
      }
    }
  }

  lemma MarkerIsStripped(s: string)
    ensures IsBinaryMarker(BINARY_HEAD + s + BINARY_TAIL)
    ensures TrimSuffix(TrimPrefix(BINARY_HEAD + s + BINARY_TAIL, BINARY_HEAD), BINARY_TAIL) == s
  {
    var line := BINARY_HEAD + s + BINARY_TAIL;
    assert line == BINARY_HEAD + (s + BINARY_TAIL);
    assert line[|line| - |BINARY_TAIL|..] == BINARY_TAIL;
    assert (s + BINARY_TAIL)[|s|..] == BINARY_TAIL;
  }

  lemma NoLaterAnd(source: string, path: string, i: nat)
    requires !Contains(path, AND) && forall j: nat | j < |AND| :: !OccursAt(AND[1..] + path, AND, j)
    requires i > |source|
    ensures !OccursAt(source + AND + path, AND, i)
  {
    var s, d, tail := source + AND + path, |source| + 1, AND[1..] + path;
    assert s[d..] == tail && tail[|AND| - 1..] == path;
    OccursAfterDrop(s, d, AND, i - d);
    if i - d >= |AND| - 1 {
      OccursAfterDrop(tail, |AND| - 1, AND, i - d - (|AND| - 1));
    }
  }

  /** Where no `b/` stands behind the separator, as with a deleted file, the name is what follows the last `and`. */
  lemma NameWithoutTarget(source: string, path: string)
    requires !Contains(source + AND + path, TARGET) && !Contains(path, AND)
    requires forall j: nat | j < |AND| :: !OccursAt(AND[1..] + path, AND, j)
    ensures BinaryName(BINARY_HEAD + (source + AND + path) + BINARY_TAIL) == TrimPrefix(path, "b/")
  {
    var s := source + AND + path;
    MarkerIsStripped(s);
    hide TrimPrefix, TrimSuffix;
    assert s[|source|..] == AND + path && OccursAt(s, AND, |source|);
    forall i: nat | i > |source| ensures !OccursAt(s, AND, i) {
      NoLaterAnd(source, path, i);
    }
    assert LastIndex(s, AND, |s|) == Some(|source|);
    assert s[|source| + |AND|..] == path;
  }

  lemma TargetHoldsAnd(s: string, i: nat)
    ensures OccursAt(s, TARGET, i) ==> OccursAt(s, AND, i)
  {
    assert TARGET[..|AND|] == AND;
  }

  /** And where there is no separator at all, it is the whole text. */
  lemma NameWithoutSeparator(s: string)
    requires !Contains(s, AND)
    ensures BinaryName(BINARY_HEAD + s + BINARY_TAIL) == TrimPrefix(s, "b/")
  {
    MarkerIsStripped(s);
    hide TrimPrefix, TrimSuffix;
    forall i: nat ensures !OccursAt(s, TARGET, i) {
      TargetHoldsAnd(s, i);
    }
  }

  lemma TargetsDoNotOverlap(s: string, i: nat, j: nat)
    requires OccursAt(s, TARGET, i) && OccursAt(s, TARGET, j) && i < j
    ensures i + |TARGET| <= j
  {
    if j < i + |TARGET| {
      OccursChar(s, TARGET, j, 0);
      OccursChar(s, TARGET, j, 1);
      OccursChar(s, TARGET, i, j - i);
      if j == i + 4 {
        OccursChar(s, TARGET, i, 5);
      }
    }
  }

  // ----- blocks

  function Concat(blocks: seq<Block>): Block {
    if blocks == [] then [] else Concat(blocks[..|blocks| - 1]) + blocks[|blocks| - 1]
  }

  /** A header starts a new block; what comes before the first header is a block of its own. */
  ghost predicate IsCut(blocks: seq<Block>) {
    && (forall i | 0 <= i < |blocks| :: blocks[i] != [])
    && (forall i | 0 < i < |blocks| :: IsHeader(blocks[i][0]))
    && (forall i, j | 0 <= i < |blocks| && 0 < j < |blocks[i]| :: !IsHeader(blocks[i][j]))
  }

  /** One more line: it opens a block or lengthens the last one. */
  function Grow(blocks: seq<Block>, line: string): (grown: seq<Block>)
    ensures grown != []
  {
    if blocks == [] || IsHeader(line) then blocks + [[line]]
    else blocks[..|blocks| - 1] + [blocks[|blocks| - 1] + [line]]
  }

  function BlocksOf(lines: seq<string>): (blocks: seq<Block>)
    ensures (blocks == []) == (lines == [])
  {
    if lines == [] then [] else Grow(BlocksOf(lines[..|lines| - 1]), lines[|lines| - 1])
  }

  lemma ConcatSnoc(blocks: seq<Block>, block: Block)
    ensures Concat(blocks + [block]) == Concat(blocks) + block
  {
    assert (blocks + [block])[..|blocks|] == blocks;
  }

  lemma SplitLast(blocks: seq<Block>)
    requires blocks != []
    ensures blocks == blocks[..|blocks| - 1] + [blocks[|blocks| - 1]]
    ensures Concat(blocks) == Concat(blocks[..|blocks| - 1]) + blocks[|blocks| - 1]
  {
    InitAndLast(blocks);
  }

  lemma InitAndLast<T>(s: seq<T>)
    requires s != []
    ensures s == s[..|s| - 1] + [s[|s| - 1]]
  {
  }

  lemma GrowKeepsCut(blocks: seq<Block>, line: string)
    requires IsCut(blocks)
    ensures IsCut(Grow(blocks, line))
  {
    var grown := Grow(blocks, line);
    var n := |grown| - 1;
    forall i | 0 <= i < n ensures grown[i] == blocks[i] {
    }
    if blocks != [] && !IsHeader(line) {
      assert grown[n] == blocks[n] + [line];
    } else {
      assert grown[n] == [line];
    }
  }

  lemma GrowConcat(blocks: seq<Block>, line: string)
    ensures Concat(Grow(blocks, line)) == Concat(blocks) + [line]
  {
    if blocks == [] || IsHeader(line) {
      ConcatSnoc(blocks, [line]);
    } else {
      SplitLast(blocks);
      ConcatSnoc(blocks[..|blocks| - 1], blocks[|blocks| - 1] + [line]);
    }
  }

  lemma {:induction false} BlocksCutTheLines(lines: seq<string>)
    ensures IsCut(BlocksOf(lines)) && Concat(BlocksOf(lines)) == lines
  {
    hide Grow, IsCut;
    if lines == [] {
      NoBlocks();
    } else {
      var shorter := lines[..|lines| - 1];
      BlocksCutTheLines(shorter);
      GrowKeepsCut(BlocksOf(shorter), lines[|lines| - 1]);
      GrowConcat(BlocksOf(shorter), lines[|lines| - 1]);
    }
  }

  lemma NoBlocks()
    ensures IsCut([]) && Concat([]) == []
  {
  }

  lemma CutPrefix(done: seq<Block>, block: Block)
    requires IsCut(done + [block])
    ensures IsCut(done) && block != [] && (done != [] ==> IsHeader(block[0]))
    ensures forall j | 0 < j < |block| :: !IsHeader(block[j])
  {
    var all := done + [block];
    assert all[|done|] == block;
    assert forall i | 0 <= i < |done| :: all[i] == done[i];
  }

  /** There is only one way to cut lines into blocks. */
  lemma {:induction false} CutsAreUnique(blocks: seq<Block>)
    requires IsCut(blocks)
    ensures BlocksOf(Concat(blocks)) == blocks
  {
    if blocks != [] {
      var n := |blocks| - 1;
      SplitLast(blocks);
      CutPrefix(blocks[..n], blocks[n]);
      hide IsCut;
      CutsAreUnique(blocks[..n]);
      LastBlockGrows(blocks[..n], blocks[n]);
    }
  }

  lemma {:induction false} LastBlockGrows(done: seq<Block>, block: Block)
    requires block != [] && (done != [] ==> IsHeader(block[0])) && forall j | 0 < j < |block| :: !IsHeader(block[j])
    requires BlocksOf(Concat(done)) == done
    ensures BlocksOf(Concat(done) + block) == done + [block]
    decreases |block|
  {
    hide Grow, Concat, IsHeader;
    var k := |block| - 1;
    var lines := Concat(done) + block;
    assert lines[|lines| - 1] == block[k] && lines[..|lines| - 1] == Concat(done) + block[..k];
    assert BlocksOf(lines) == Grow(BlocksOf(Concat(done) + block[..k]), block[k]);
    hide BlocksOf;
    if k == 0 {
      assert Concat(done) + block[..0] == Concat(done);
      assert block == [block[0]];
      GrowOpens(done, block[0]);
    } else {
      LastBlockGrows(done, block[..k]);
      GrowLast(done, block[..k], block[k]);
      assert block[..k] + [block[k]] == block;
    }
  }

  lemma GrowLast(done: seq<Block>, block: Block, line: string)
    ensures Grow(done + [block], line) == if IsHeader(line) then done + [block] + [[line]] else done + [block + [line]]
  {
    var all := done + [block];
    assert all[..|all| - 1] == done && all[|all| - 1] == block;
  }

  lemma GrowOpens(done: seq<Block>, line: string)
    requires done == [] || IsHeader(line)
    ensures Grow(done, line) == done + [[line]]
  {
  }

  predicate HasMarker(block: Block) {
    exists i | 0 <= i < |block| :: IsBinaryMarker(block[i])
  }

  predicate HasPayload(block: Block) {
    exists i | 0 <= i < |block| :: IsPayload(block[i])
  }

  /** A binary file with nothing to apply. */
  predicate Unappliable(block: Block) {
    HasMarker(block) && !HasPayload(block)
  }

  /** The name in the last binary marker. */
  function NameIn(block: Block): string {
    if block == [] then ""
    else if IsBinaryMarker(block[|block| - 1]) then BinaryName(block[|block| - 1])
    else NameIn(block[..|block| - 1])
  }

  /** A block with several binary markers is reported under the name in the last of them. */
  lemma {:induction false} NameInMeaning(block: Block) returns (k: nat)
    requires HasMarker(block)
    ensures k < |block| && IsBinaryMarker(block[k]) && NameIn(block) == BinaryName(block[k])
    ensures forall j | k < j < |block| :: !IsBinaryMarker(block[j])
  {
    hide IsBinaryMarker, BinaryName;
    var n := |block| - 1;
    if IsBinaryMarker(block[n]) {
      k := n;
    } else {
      assert forall j | 0 <= j < n :: block[..n][j] == block[j];
      k := NameInMeaning(block[..n]);
    }
  }

  function Kept(blocks: seq<Block>): seq<Block> {
    if blocks == [] then []
    else if Unappliable(blocks[|blocks| - 1]) then Kept(blocks[..|blocks| - 1])
    else Kept(blocks[..|blocks| - 1]) + [blocks[|blocks| - 1]]
  }

  function Skipped(blocks: seq<Block>): seq<string> {
    if blocks == [] then []
    else if Unappliable(blocks[|blocks| - 1]) then Skipped(blocks[..|blocks| - 1]) + [NameIn(blocks[|blocks| - 1])]
    else Skipped(blocks[..|blocks| - 1])
  }

  /** Kept blocks and reported names stay in the order of the patch. */
  lemma {:induction false} OrderIsKept(a: seq<Block>, b: seq<Block>)
    ensures Kept(a + b) == Kept(a) + Kept(b)
    ensures Skipped(a + b) == Skipped(a) + Skipped(b)
  {
    hide Unappliable, NameIn;
    if b == [] {
      assert a + b == a;
    } else {
      var n := |b| - 1;
      assert (a + b)[..|a + b| - 1] == a + b[..n] && (a + b)[|a + b| - 1] == b[n];
      OrderIsKept(a, b[..n]);
      assert Kept(a) + (Kept(b[..n]) + [b[n]]) == Kept(a) + Kept(b[..n]) + [b[n]];
      assert Skipped(a) + (Skipped(b[..n]) + [NameIn(b[n])]) == Skipped(a) + Skipped(b[..n]) + [NameIn(b[n])];
    }
  }

  /** Every block is either kept, and then it has something to apply, or reported. */
  lemma {:induction false} KeptOrReported(blocks: seq<Block>)
    ensures |Kept(blocks)| + |Skipped(blocks)| == |blocks|
    ensures forall b :: b in Kept(blocks) <==> b in blocks && !Unappliable(b)
    ensures forall name :: name in Skipped(blocks) <==> exists b :: b in blocks && Unappliable(b) && NameIn(b) == name
  {
    if blocks != [] {
      var n := |blocks| - 1;
      KeptOrReported(blocks[..n]);
      SplitLast(blocks);
      assert forall b :: b in blocks <==> b in blocks[..n] || b == blocks[n];
    }
  }

  lemma KeptSnoc(blocks: seq<Block>, block: Block)
    ensures Kept(blocks + [block]) == if Unappliable(block) then Kept(blocks) else Kept(blocks) + [block]
    ensures Skipped(blocks + [block]) == if Unappliable(block) then Skipped(blocks) + [NameIn(block)] else Skipped(blocks)
  {
    var all := blocks + [block];
    assert all[..|all| - 1] == blocks && all[|all| - 1] == block;
  }

  function Text(lines: seq<string>): string {
    if lines == [] then "" else Join(lines, "\n")
  }

  // ----- the function

  /** What `bitir` leaves in the two lists. */
  method CloseBlock(kept0: seq<string>, skipped0: seq<string>, block: Block, binary: bool, payload: bool, name: string,
                    ghost done: seq<Block>)
    returns (kept: seq<string>, skipped: seq<string>)
    requires kept0 == Concat(Kept(done)) && skipped0 == Skipped(done)
    requires binary == HasMarker(block) && payload == HasPayload(block) && name == NameIn(block)
    ensures kept == Concat(Kept(done + [block])) && skipped == Skipped(done + [block])
  {
    KeptSnoc(done, block);
    if binary && !payload {
      return kept0, skipped0 + [name];
    }
    ConcatSnoc(Kept(done), block);
    return kept0 + block, skipped0;
  }

  lemma SeeLine(block: Block, line: string)
    ensures HasMarker(block + [line]) == (HasMarker(block) || IsBinaryMarker(line))
    ensures HasPayload(block + [line]) == (HasPayload(block) || IsPayload(line))
    ensures NameIn(block + [line]) == if IsBinaryMarker(line) then BinaryName(line) else NameIn(block)
  {
    var grown := block + [line];
    assert grown[..|block|] == block;
    assert forall i | 0 <= i < |block| :: grown[i] == block[i];
    assert grown[|block|] == line;
  }

  /** What is known of the block so far, as `stripUnappliableBinary` keeps it. */
  ghost predicate Seen(block: Block, binary: bool, payload: bool, name: string) {
    binary == HasMarker(block) && payload == HasPayload(block) && name == NameIn(block)
  }

  lemma MarkerIsNoPayload(line: string)
    requires IsBinaryMarker(line)
    ensures !IsPayload(line)
  {
    assert line[0] == BINARY_HEAD[0];
  }

  method ReadLine(block0: Block, binary0: bool, payload0: bool, name0: string, line: string)
    returns (block: Block, binary: bool, payload: bool, name: string)
    requires Seen(block0, binary0, payload0, name0)
    ensures block == block0 + [line] && Seen(block, binary, payload, name)
  {
    hide HasMarker, HasPayload, NameIn, IsBinaryMarker, IsPayload;
    block, binary, payload, name := block0 + [line], binary0, payload0, name0;
    SeeLine(block0, line);
    if IsBinaryMarker(line) {
      MarkerIsNoPayload(line);
      binary := true;
      name := BinaryName(line);
    } else if IsPayload(line) {
      payload := true;
    }
  }

  /** Where the loop stands after the lines `lines`: `done` is what has been closed. */
  ghost predicate Reached(lines: seq<string>, done: seq<Block>, block: Block, kept: seq<string>, skipped: seq<string>) {
    && (block == []) == (lines == [])
    && BlocksOf(lines) == (if block == [] then [] else done + [block])
    && (block == [] ==> done == [])
    && kept == Concat(Kept(done)) && skipped == Skipped(done)
  }

  lemma OpenBlock(lines: seq<string>, done: seq<Block>, block: Block, line: string, kept: seq<string>, skipped: seq<string>)
    requires Reached(lines, done, block, kept, skipped)
    ensures BlocksOf(lines + [line]) ==
      if block == [] then [[line]] else if IsHeader(line) then done + [block] + [[line]] else done + [block + [line]]
  {
    hide Grow, IsHeader, Concat, Kept, Skipped;
    var all := lines + [line];
    assert all[..|all| - 1] == lines && all[|all| - 1] == line;
    assert BlocksOf(all) == Grow(BlocksOf(lines), line);
    if block == [] {
      GrowOpens([], line);
      assert [] + [[line]] == [[line]];
    } else {
      GrowLast(done, block, line);
    }
  }

  /** The kept blocks, in order and unchanged; the name of every other one. */
  method StripUnappliable(diff: string) returns (text: string, skipped: seq<string>)
    ensures text == Text(Concat(Kept(BlocksOf(Split(diff, "\n")))))
    ensures skipped == Skipped(BlocksOf(Split(diff, "\n")))
  {
    hide HasMarker, HasPayload, NameIn, Kept, Skipped, Concat, Text, IsHeader, BlocksOf;
    if diff == "" {
      EmptyDiff();
      return "", [];
    }
    var lines := Split(diff, "\n");
    var kept: seq<string> := [];
    skipped := [];
    var block: Block, binary, payload, name := [], false, false, "";
    ghost var done: seq<Block> := [];
    NothingYet();
    for i := 0 to |lines|
      invariant Reached(lines[..i], done, block, kept, skipped)
      invariant Seen(block, binary, payload, name)
    {
      var line := lines[i];
      assert lines[..i + 1] == lines[..i] + [line];
      OpenBlock(lines[..i], done, block, line, kept, skipped);
      if IsHeader(line) && block != [] {
        kept, skipped := CloseBlock(kept, skipped, block, binary, payload, name, done);
        done := done + [block];
        block, binary, payload, name := [], false, false, "";
        NothingYet();
        assert [] + [line] == [line];
      }
      assert block == [] ==> block + [line] == [line];
      block, binary, payload, name := ReadLine(block, binary, payload, name, line);
    }
    assert lines[..|lines|] == lines;
    kept, skipped := CloseBlock(kept, skipped, block, binary, payload, name, done);
    text := Text(kept);
  }

  lemma NothingYet()
    ensures BlocksOf([]) == [] && Concat(Kept([])) == [] && Skipped([]) == []
    ensures !HasMarker([]) && !HasPayload([]) && NameIn([]) == ""
  {
  }

  lemma EmptyDiff()
    ensures Split("", "\n") == [""]
    ensures Text(Concat(Kept(BlocksOf([""])))) == "" && Skipped(BlocksOf([""])) == []
  {
    hide Split;
    SplitHead("", "", '\n');
    var block: Block := [""];
    assert block == [] + [""];
    NothingYet();
    SeeLine([], "");
    assert !IsBinaryMarker("");
    assert BlocksOf(block[..0] + [""]) == Grow(BlocksOf(block[..0]), "");
    GrowOpens([], "");
    hide BlocksOf, Kept, Skipped, Concat, HasMarker, HasPayload;
    KeptSnoc([], block);
    ConcatSnoc([], block);
    assert [block] == [] + [block];
  }

  // ----- once is enough

  lemma CutSnoc(done: seq<Block>, block: Block)
    requires IsCut(done) && block != [] && (done != [] ==> IsHeader(block[0]))
    requires forall j | 0 < j < |block| :: !IsHeader(block[j])
    ensures IsCut(done + [block])
  {
    var all := done + [block];
    assert all[|done|] == block;
    assert forall i | 0 <= i < |done| :: all[i] == done[i];
  }

  lemma {:induction false} KeptBlocksAreACut(blocks: seq<Block>)
    requires IsCut(blocks)
    ensures IsCut(Kept(blocks)) && |Kept(blocks)| <= |blocks|
  {
    if blocks != [] {
      var n := |blocks| - 1;
      SplitLast(blocks);
      CutPrefix(blocks[..n], blocks[n]);
      hide IsCut, Unappliable;
      KeptBlocksAreACut(blocks[..n]);
      if !Unappliable(blocks[n]) {
        CutSnoc(Kept(blocks[..n]), blocks[n]);
      }
    }
  }

  lemma {:induction false} ConcatIsFree(blocks: seq<Block>, c: char)
    ensures FreeOf(Concat(blocks), c) ==> FreeOf(Concat(Kept(blocks)), c)
  {
    if blocks != [] {
      var n := |blocks| - 1;
      ConcatIsFree(blocks[..n], c);
      SplitLast(blocks);
      FreeOfSum(Concat(blocks[..n]), blocks[n], c);
      FreeOfSum(Concat(Kept(blocks[..n])), blocks[n], c);
      ConcatSnoc(Kept(blocks[..n]), blocks[n]);
    }
  }

  lemma FreeOfSum(a: seq<string>, b: seq<string>, c: char)
    ensures FreeOf(a + b, c) == (FreeOf(a, c) && FreeOf(b, c))
  {
    if FreeOf(a + b, c) {
      assert forall p | p in a :: p in a + b;
      assert forall p | p in b :: p in a + b;
    }
  }

  /** Splitting the result again gives back the kept lines, unless nothing was kept. */
  lemma ResultSplits(diff: string)
    ensures var kept := Concat(Kept(BlocksOf(Split(diff, "\n")))); kept != [] ==> Split(Text(kept), "\n") == kept
  {
    var blocks := BlocksOf(Split(diff, "\n"));
    SplitOnCharIsClean(diff, '\n');
    BlocksCutTheLines(Split(diff, "\n"));
    ConcatIsFree(blocks, '\n');
    if Concat(Kept(blocks)) != [] {
      SplitJoin(Concat(Kept(blocks)), '\n');
    }
  }

  lemma {:induction false} KeepingAgainKeepsAll(blocks: seq<Block>)
    ensures Kept(Kept(blocks)) == Kept(blocks) && Skipped(Kept(blocks)) == []
  {
    if blocks != [] {
      var n := |blocks| - 1;
      KeepingAgainKeepsAll(blocks[..n]);
      KeptSnoc(Kept(blocks[..n]), blocks[n]);
    }
  }

  /** Applied to its own result it changes nothing and skips nothing. */
  lemma OnceIsEnough(diff: string)
    ensures var text := Text(Concat(Kept(BlocksOf(Split(diff, "\n")))));
      && Text(Concat(Kept(BlocksOf(Split(text, "\n"))))) == text
      && Skipped(BlocksOf(Split(text, "\n"))) == []
  {
    hide Unappliable, Skipped, Concat, IsCut;
    var blocks := BlocksOf(Split(diff, "\n"));
    ResultSplits(diff);
    if Concat(Kept(blocks)) == [] {
      EmptyDiff();
    } else {
      BlocksCutTheLines(Split(diff, "\n"));
      KeptBlocksAreACut(blocks);
      CutsAreUnique(Kept(blocks));
      KeepingAgainKeepsAll(blocks);
    }
  }

  lemma {:induction false} DroppingShortens(blocks: seq<Block>)
    requires forall i | 0 <= i < |blocks| :: blocks[i] != []
    ensures Skipped(blocks) == [] ==> Kept(blocks) == blocks
    ensures Skipped(blocks) != [] ==> |Concat(Kept(blocks))| < |Concat(blocks)|
  {
    if blocks != [] {
      var n := |blocks| - 1;
      DroppingShortens(blocks[..n]);
      SplitLast(blocks);
      ConcatSnoc(Kept(blocks[..n]), blocks[n]);
    }
  }

  /** The patch comes back as it was exactly when no file is reported. */
  lemma UnchangedIffNothingSkipped(diff: string)
    ensures Text(Concat(Kept(BlocksOf(Split(diff, "\n"))))) == diff <==> Skipped(BlocksOf(Split(diff, "\n"))) == []
  {
    hide Unappliable, Skipped, Concat, Kept, BlocksOf;
    var blocks := BlocksOf(Split(diff, "\n"));
    JoinSplit(diff, "\n");
    BlocksCutTheLines(Split(diff, "\n"));
    DroppingShortens(blocks);
    ResultSplits(diff);
    EmptyDiff();
  }
}
