/** The DisplayID iterator (drm_displayid.c): walking the data blocks of the DisplayID sections in an EDID. */
module DisplayId {
  import opened Common

  newtype byte = x: int | 0 <= x < 256

  /** The size of an EDID block. */
  const EDID_LENGTH := 128

  /** The tag of an extension block that holds a DisplayID section (EDID extension tag 70h). */
  const DISPLAYID_EXT: byte := 0x70

  /** struct displayid_header and struct displayid_block */
  const HEADER_SIZE := 4
  const BLOCK_HEADER_SIZE := 3

  /** An extension block of an EDID. */
  predicate IsExtension(ext: seq<byte>) {
    |ext| == EDID_LENGTH
  }

  type Extensions = s: seq<seq<byte>> | forall i :: 0 <= i < |s| ==> IsExtension(s[i])

  /** A data block: from `start` to `end` in extension block `ext`. */
  datatype Block = Block(ext: nat, start: nat, end: nat)

  // ----- What there is to find -----

  /** The length a data block at `idx` says it has. */
  function BlockSize(ext: seq<byte>, idx: nat): nat
    requires idx + BLOCK_HEADER_SIZE <= |ext|
  {
    BLOCK_HEADER_SIZE + ext[idx + 2] as int
  }

  /** A whole data block lies at `idx`, below `length`. */
  predicate BlockFits(ext: seq<byte>, idx: nat, length: nat)
    requires length <= |ext|
  {
    idx + BLOCK_HEADER_SIZE <= length && idx + BlockSize(ext, idx) <= length
  }

  /** The data blocks from `idx` on, and then `rest`. */
  function Parse(ext: seq<byte>, n: nat, idx: nat, length: nat, rest: seq<Block>): seq<Block>
    requires length <= |ext|
    decreases |ext| - idx
  {
    if BlockFits(ext, idx, length)
    then [Block(n, idx, idx + BlockSize(ext, idx))] + Parse(ext, n, idx + BlockSize(ext, idx), length, rest)
    else rest
  }

  /** The sum of `n` bytes from `idx`. */
  function Sum(ext: seq<byte>, idx: nat, n: nat): nat
    requires idx + n <= |ext|
  {
    if n == 0 then 0 else Sum(ext, idx, n - 1) + ext[idx + n - 1] as int
  }

  /** The number of bytes in the section's data blocks, from its header. */
  function PayloadSize(ext: seq<byte>): nat
    requires IsExtension(ext)
  {
    ext[2] as int
  }

  /** A section begins behind the tag of its extension block. */
  const PAYLOAD_START := 1 + HEADER_SIZE

  function PayloadEnd(ext: seq<byte>): nat
    requires IsExtension(ext)
  {
    PAYLOAD_START + PayloadSize(ext)
  }

  /** The section fits into the extension block, which ends in a checksum of its own, and its bytes add up to 0. */
  predicate SectionOk(ext: seq<byte>, ignoreChecksum: bool)
    requires IsExtension(ext)
  {
    && HEADER_SIZE + PayloadSize(ext) + 1 <= EDID_LENGTH - 2
    && (Sum(ext, 1, HEADER_SIZE + PayloadSize(ext) + 1) % 256 == 0 || ignoreChecksum)
  }

  /** The first DisplayID extension block from `i` on. */
  function Find(exts: Extensions, i: nat): (j: nat)
    requires i <= |exts|
    ensures i <= j <= |exts|
    ensures j < |exts| ==> exts[j][0] == DISPLAYID_EXT
    ensures forall k :: i <= k < j ==> exts[k][0] != DISPLAYID_EXT
    decreases |exts| - i
  {
    if i == |exts| || exts[i][0] == DISPLAYID_EXT then i else Find(exts, i + 1)
  }

  /** All data blocks of the DisplayID sections from extension block `i` on, up to the first broken section. */
  function Sections(exts: Extensions, ignoreChecksum: bool, i: nat): seq<Block>
    requires i <= |exts|
    decreases |exts| - i
  {
    var j := Find(exts, i);
    if j == |exts| || !SectionOk(exts[j], ignoreChecksum) then []
    else Parse(exts[j], j, PAYLOAD_START, PayloadEnd(exts[j]),
               Sections(exts, ignoreChecksum, j + 1))
  }

  // ----- What the checksum covers -----

  lemma {:induction false} SumWithByte(ext: seq<byte>, i: nat, b: byte, idx: nat, n: nat)
    requires idx + n <= |ext| && i < |ext|
    ensures Sum(ext[i := b], idx, n) == Sum(ext, idx, n) + if idx <= i < idx + n then b as int - ext[i] as int else 0
  {
    if n > 0 {
      SumWithByte(ext, i, b, idx, n - 1);
    }
  }

  /** A section spans the bytes behind the tag up to its checksum, and a single wrong byte among them, other than the
      length, is always detected, while all other bytes of the extension block do not matter. */
  lemma OneWrongByte(ext: seq<byte>, i: nat, b: byte)
    requires IsExtension(ext) && SectionOk(ext, false) && i < |ext| && i != 2
    ensures SectionOk(ext[i := b], false) <==> b == ext[i] || !(1 <= i <= 5 + ext[2] as int)
  {
    SumWithByte(ext, i, b, 1, HEADER_SIZE + PayloadSize(ext) + 1);
  }

  // ----- What the blocks are like -----

  /** Blocks lie one behind the other. */
  ghost predicate Adjacent(blocks: seq<Block>) {
    forall k :: 0 <= k < |blocks| - 1 ==> blocks[k].end == blocks[k + 1].start && blocks[k].ext == blocks[k + 1].ext
  }

  /** The block lies between `idx` and `length` and is as long as it says. */
  predicate IsBlockOf(ext: seq<byte>, n: nat, idx: nat, length: nat, b: Block) {
    && b.ext == n && idx <= b.start && b.start + BLOCK_HEADER_SIZE <= b.end <= length <= |ext|
    && b.end == b.start + 3 + ext[b.start + 2] as int
  }

  /** The blocks of a section are non-empty, adjacent, and inside the payload; what is left at the end is too short for
      the block it begins. */
  lemma {:induction false} ParsedBlocks(ext: seq<byte>, n: nat, idx: nat, length: nat)
    requires length <= |ext| && idx <= length
    ensures var blocks := Parse(ext, n, idx, length, []);
            && Adjacent(blocks) && (blocks != [] ==> blocks[0].start == idx)
            && (forall k :: 0 <= k < |blocks| ==> IsBlockOf(ext, n, idx, length, blocks[k]))
            && var rest := if blocks == [] then idx else blocks[|blocks| - 1].end;
               rest <= length && (rest + 3 > length || rest + 3 + ext[rest + 2] as int > length)
    decreases |ext| - idx
  {
    if BlockFits(ext, idx, length) {
      ParsedBlocks(ext, n, idx + BlockSize(ext, idx), length);
      var later := Parse(ext, n, idx + BlockSize(ext, idx), length, []);
      assert Parse(ext, n, idx, length, []) == [Block(n, idx, idx + BlockSize(ext, idx))] + later;
    }
  }

  lemma ParseStep(ext: seq<byte>, n: nat, idx: nat, length: nat, rest: seq<Block>)
    requires length <= |ext|
    ensures Parse(ext, n, idx, length, rest)
            == if BlockFits(ext, idx, length)
               then [Block(n, idx, idx + BlockSize(ext, idx))]
                    + Parse(ext, n, idx + BlockSize(ext, idx), length, rest)
               else rest
  {}

  lemma {:induction false} ParseThen(ext: seq<byte>, n: nat, idx: nat, length: nat, rest: seq<Block>)
    requires length <= |ext|
    ensures Parse(ext, n, idx, length, rest) == Parse(ext, n, idx, length, []) + rest
    decreases |ext| - idx
  {
    if BlockFits(ext, idx, length) {
      var b, next := Block(n, idx, idx + BlockSize(ext, idx)), idx + BlockSize(ext, idx);
      ParseThen(ext, n, next, length, rest);
      assert ([b] + Parse(ext, n, next, length, [])) + rest == [b] + (Parse(ext, n, next, length, []) + rest);
    }
  }

  /** Every block the iterator can return lies wholly inside the payload of a valid DisplayID section. */
  ghost predicate InsidePayload(exts: Extensions, ignoreChecksum: bool, b: Block) {
    && b.ext < |exts| && exts[b.ext][0] == DISPLAYID_EXT && SectionOk(exts[b.ext], ignoreChecksum)
    && 5 <= b.start && b.start + 3 <= b.end && b.end <= 5 + exts[b.ext][2] as int
  }

  /** Inside the payloads of valid sections from extension block `i` on, and one behind the other. */
  ghost predicate InOrder(exts: Extensions, ignoreChecksum: bool, i: nat, blocks: seq<Block>) {
    && (forall k :: 0 <= k < |blocks| ==> InsidePayload(exts, ignoreChecksum, blocks[k]) && blocks[k].ext >= i)
    && (forall k, m :: 0 <= k < m < |blocks| ==> Disjoint(blocks[k], blocks[m]))
  }

  lemma {:induction false} BlocksAreInside(exts: Extensions, ignoreChecksum: bool, i: nat)
    requires i <= |exts|
    ensures InOrder(exts, ignoreChecksum, i, Sections(exts, ignoreChecksum, i))
    decreases |exts| - i
  {
    var j := Find(exts, i);
    if j < |exts| && SectionOk(exts[j], ignoreChecksum) {
      var first := Parse(exts[j], j, PAYLOAD_START, PayloadEnd(exts[j]), []);
      var rest := Sections(exts, ignoreChecksum, j + 1);
      assert Sections(exts, ignoreChecksum, i) == first + rest by {
        ParseThen(exts[j], j, PAYLOAD_START, PayloadEnd(exts[j]), rest);
      }
      SectionIsInside(exts, ignoreChecksum, j);
      BlocksAreInside(exts, ignoreChecksum, j + 1);
      JoinBlocks(exts, ignoreChecksum, i, j, first, rest);
    }
  }

  lemma SectionIsInside(exts: Extensions, ignoreChecksum: bool, j: nat)
    requires j < |exts| && exts[j][0] == DISPLAYID_EXT && SectionOk(exts[j], ignoreChecksum)
    ensures var blocks := Parse(exts[j], j, PAYLOAD_START, PayloadEnd(exts[j]), []);
            InOrder(exts, ignoreChecksum, j, blocks) && forall k :: 0 <= k < |blocks| ==> blocks[k].ext == j
  {
    var blocks := Parse(exts[j], j, PAYLOAD_START, PayloadEnd(exts[j]), []);
    ParsedBlocks(exts[j], j, PAYLOAD_START, PayloadEnd(exts[j]));
    AdjacentIsDisjoint(blocks);
  }

  lemma JoinBlocks(exts: Extensions, ignoreChecksum: bool, i: nat, j: nat, first: seq<Block>, rest: seq<Block>)
    requires i <= j && InOrder(exts, ignoreChecksum, j, first) && InOrder(exts, ignoreChecksum, j + 1, rest)
    requires forall k :: 0 <= k < |first| ==> first[k].ext == j
    ensures InOrder(exts, ignoreChecksum, i, first + rest)
  {}

  /** Two blocks have no byte in common, and the first one comes first. */
  predicate Disjoint(a: Block, b: Block) {
    a.ext < b.ext || (a.ext == b.ext && a.end <= b.start)
  }

  lemma AdjacentIsDisjoint(blocks: seq<Block>)
    requires Adjacent(blocks) && forall k :: 0 <= k < |blocks| ==> blocks[k].start <= blocks[k].end
    ensures forall k, m :: 0 <= k < m < |blocks| ==> Disjoint(blocks[k], blocks[m])
  {
    forall k, m | 0 <= k < m < |blocks|
      ensures Disjoint(blocks[k], blocks[m])
    {
      AdjacentBefore(blocks, k, m);
    }
  }

  lemma {:induction false} AdjacentBefore(blocks: seq<Block>, k: nat, m: nat)
    requires Adjacent(blocks) && forall i :: 0 <= i < |blocks| ==> blocks[i].start <= blocks[i].end
    requires k < m < |blocks|
    ensures Disjoint(blocks[k], blocks[m])
    decreases m
  {
    assert blocks[m - 1].end == blocks[m].start && blocks[m - 1].ext == blocks[m].ext;
    if k < m - 1 {
      AdjacentBefore(blocks, k, m - 1);
    }
  }

  // ----- What a broken section costs -----

  /** A DisplayID extension block with a valid section. */
  predicate IsValid(ext: seq<byte>, ignoreChecksum: bool)
    requires IsExtension(ext)
  {
    ext[0] == DISPLAYID_EXT && SectionOk(ext, ignoreChecksum)
  }

  predicate IsBroken(ext: seq<byte>, ignoreChecksum: bool)
    requires IsExtension(ext)
  {
    ext[0] == DISPLAYID_EXT && !SectionOk(ext, ignoreChecksum)
  }

  /** A valid section with at least one data block. */
  predicate HasBlock(ext: seq<byte>, ignoreChecksum: bool)
    requires IsExtension(ext)
  {
    IsValid(ext, ignoreChecksum) && BlockFits(ext, PAYLOAD_START, PayloadEnd(ext))
  }

  /** All data blocks of all valid DisplayID sections from extension block `i` on. */
  function AllSections(exts: Extensions, ignoreChecksum: bool, i: nat): seq<Block>
    requires i <= |exts|
    decreases |exts| - i
  {
    if i == |exts| then []
    else
      var rest := AllSections(exts, ignoreChecksum, i + 1);
      if IsValid(exts[i], ignoreChecksum) then Parse(exts[i], i, PAYLOAD_START, PayloadEnd(exts[i]), []) + rest
      else rest
  }

  /** Behind a broken section there is one with a data block. */
  ghost predicate Loses(exts: Extensions, ignoreChecksum: bool, i: nat) {
    exists k, m :: i <= k < m < |exts| && IsBroken(exts[k], ignoreChecksum) && HasBlock(exts[m], ignoreChecksum)
  }

  lemma {:induction false} NoBlocksIff(exts: Extensions, ignoreChecksum: bool, i: nat)
    requires i <= |exts|
    ensures AllSections(exts, ignoreChecksum, i) == [] <==>
              forall m :: i <= m < |exts| ==> !HasBlock(exts[m], ignoreChecksum)
    decreases |exts| - i
  {
    if i < |exts| {
      NoBlocksIff(exts, ignoreChecksum, i + 1);
    }
  }

  lemma SectionsFromNext(exts: Extensions, ignoreChecksum: bool, i: nat)
    requires i < |exts|
    ensures var rest := Sections(exts, ignoreChecksum, i + 1);
            Sections(exts, ignoreChecksum, i)
            == if IsValid(exts[i], ignoreChecksum) then
                 Parse(exts[i], i, PAYLOAD_START, PayloadEnd(exts[i]), []) + rest
               else if IsBroken(exts[i], ignoreChecksum) then []
               else rest
  {
    if IsValid(exts[i], ignoreChecksum) {
      ParseThen(exts[i], i, PAYLOAD_START, PayloadEnd(exts[i]), Sections(exts, ignoreChecksum, i + 1));
    }
  }

  lemma LosesFromNext(exts: Extensions, ignoreChecksum: bool, i: nat)
    requires i < |exts| && !IsBroken(exts[i], ignoreChecksum)
    ensures Loses(exts, ignoreChecksum, i) <==> Loses(exts, ignoreChecksum, i + 1)
  {
    if Loses(exts, ignoreChecksum, i) {
      var k, m :| i <= k < m < |exts| && IsBroken(exts[k], ignoreChecksum) && HasBlock(exts[m], ignoreChecksum);
      assert i + 1 <= k;
    }
    if Loses(exts, ignoreChecksum, i + 1) {
      var k, m :| i + 1 <= k < m < |exts| && IsBroken(exts[k], ignoreChecksum) && HasBlock(exts[m], ignoreChecksum);
      assert i <= k;
    }
  }

  /** The walk returns the blocks of all valid sections if and only if no broken section comes before one with a data
      block. */
  lemma {:induction false} FindsAllIff(exts: Extensions, ignoreChecksum: bool, i: nat)
    requires i <= |exts|
    ensures Sections(exts, ignoreChecksum, i) == AllSections(exts, ignoreChecksum, i) <==>
              !Loses(exts, ignoreChecksum, i)
    decreases |exts| - i
  {
    if i < |exts| {
      if IsBroken(exts[i], ignoreChecksum) {
        FindsAllBehindBrokenIff(exts, ignoreChecksum, i);
      } else {
        FindsAllIff(exts, ignoreChecksum, i + 1);
        LosesFromNext(exts, ignoreChecksum, i);
        FindsAllFromNext(exts, ignoreChecksum, i);
      }
    }
  }

  lemma FindsAllBehindBrokenIff(exts: Extensions, ignoreChecksum: bool, i: nat)
    requires i < |exts| && IsBroken(exts[i], ignoreChecksum)
    ensures Sections(exts, ignoreChecksum, i) == AllSections(exts, ignoreChecksum, i) <==>
              !Loses(exts, ignoreChecksum, i)
  {
    SectionsFromNext(exts, ignoreChecksum, i);
    NoBlocksIff(exts, ignoreChecksum, i + 1);
    LosesBehind(exts, ignoreChecksum, i);
  }

  lemma FindsAllFromNext(exts: Extensions, ignoreChecksum: bool, i: nat)
    requires i < |exts| && !IsBroken(exts[i], ignoreChecksum)
    ensures Sections(exts, ignoreChecksum, i) == AllSections(exts, ignoreChecksum, i) <==>
              Sections(exts, ignoreChecksum, i + 1) == AllSections(exts, ignoreChecksum, i + 1)
  {
    SectionsFromNext(exts, ignoreChecksum, i);
    if IsValid(exts[i], ignoreChecksum) {
      SameTails(Parse(exts[i], i, PAYLOAD_START, PayloadEnd(exts[i]), []),
                Sections(exts, ignoreChecksum, i + 1), AllSections(exts, ignoreChecksum, i + 1));
    }
  }

  lemma LosesBehind(exts: Extensions, ignoreChecksum: bool, i: nat)
    requires i < |exts| && IsBroken(exts[i], ignoreChecksum)
    ensures Loses(exts, ignoreChecksum, i) <==> exists m :: i + 1 <= m < |exts| && HasBlock(exts[m], ignoreChecksum)
  {
    if m :| i + 1 <= m < |exts| && HasBlock(exts[m], ignoreChecksum) {
      assert i <= i < m;
    }
  }

  lemma SameTails(a: seq<Block>, b: seq<Block>, c: seq<Block>)
    ensures a + b == a + c <==> b == c
  {
    if a + b == a + c {
      assert b == (a + b)[|a|..] && c == (a + c)[|a|..];
    }
  }

  /** An extension block with a section of `size` bytes, whose header goes on with `kind`: a data block with the tag 1, the
      revision 7 and two bytes of data, and then the checksum `sum`. */
  function Sample(size: byte, kind: byte, sum: byte): (ext: seq<byte>)
    ensures IsExtension(ext)
  {
    [DISPLAYID_EXT, 0x12, size, kind, 0, 1, 7, 2, 40, 50, sum] + seq(117, i => 9)
  }

  /** The first section claims more bytes than its extension block has; the second one is valid, with one data block. */
  lemma BrokenHidesValid()
    ensures var exts := [Sample(255, 0, 0), Sample(5, 2, 131)];
            Sections(exts, false, 0) == [] && AllSections(exts, false, 0) == [Block(1, 5, 10)]
  {
    var bad, good := Sample(255, 0, 0), Sample(5, 2, 131);
    var exts := [bad, good];
    assert good[..11] == [DISPLAYID_EXT, 0x12, 5, 2, 0, 1, 7, 2, 40, 50, 131];
    assert Sum(good, 1, 4) == 25 && Sum(good, 1, 7) == 35 && Sum(good, 1, 10) == 256;
    assert Parse(good, 1, 10, 10, []) == [];
    assert Parse(good, 1, 5, 10, []) == [Block(1, 5, 10)];
    assert AllSections(exts, false, 2) == [];
    assert AllSections(exts, false, 1) == [Block(1, 5, 10)];
  }

  // ----- The iterator -----

  /** A block, if there is one, and then the rest. */
  function After(block: Option<Block>, rest: seq<Block>): seq<Block> {
    if block.Some? then [block.value] + rest else rest
  }

  /** validate_displayid, for a section that begins behind the tag of its extension block. */
  method ValidateDisplayId(ext: seq<byte>, length: int, idx: int, ignoreChecksum: bool) returns (ok: bool)
    requires IsExtension(ext) && length == EDID_LENGTH - 1 && idx == 1
    ensures ok <==> SectionOk(ext, ignoreChecksum)
    ensures ok <==> 5 + ext[2] as int <= 126 && (Sum(ext, 1, 5 + ext[2] as int) % 256 == 0 || ignoreChecksum)
  {
    if HEADER_SIZE > length - idx {
      return false;
    }
    // +1 for the checksum
    var total := HEADER_SIZE + ext[idx + 1] as int + 1;
    if total > length - idx {
      return false;
    }
    var csum := 0;
    var i := 0;
    while i < total
      invariant 0 <= i <= total
      invariant csum == Sum(ext, 1, i) % 256
    {
      assert Sum(ext, 1, i + 1) == Sum(ext, 1, i) + ext[1 + i] as int;
      csum := (csum + ext[idx + i] as int) % 256;
      i := i + 1;
    }
    ok := csum == 0 || ignoreChecksum;
  }

  /** struct displayid_iter */
  class Iter {
    const exts: Extensions
    const ignoreChecksum: bool
    var active: bool              // drm_edid is not NULL
    var section: Option<nat>      // the extension block of the current section
    var length: int
    var idx: int
    var extIndex: nat
    var version: byte
    var primaryUse: byte

    /** Version and primary use are those in the header of the first section. */
    ghost predicate BaseKnown()
      reads this
    {
      && Find(exts, 0) < |exts|
      && version == exts[Find(exts, 0)][1] && primaryUse == exts[Find(exts, 0)][3]
    }

    /** The block at `idx` of the current section is whole. */
    ghost predicate Valid()
      reads this
    {
      && extIndex <= |exts|
      && (active && section == None ==> extIndex == 0)
      && (active && section.Some? ==>
            && BaseKnown() && section.value < extIndex && 0 <= idx && 0 <= length < EDID_LENGTH
            && BlockFits(exts[section.value], idx, length))
    }

    /** The blocks that are still to come. */
    ghost function Remaining(): seq<Block>
      requires Valid()
      reads this
    {
      if !active then []
      else if section.Some? then
        var ext := exts[section.value];
        Parse(ext, section.value, idx + BlockSize(ext, idx), length, Sections(exts, ignoreChecksum, extIndex))
      else Sections(exts, ignoreChecksum, extIndex)
    }

    /** displayid_iter_edid_begin */
    constructor (exts: Extensions, ignoreChecksum: bool)
      ensures Valid() && active && this.exts == exts && this.ignoreChecksum == ignoreChecksum
      ensures Remaining() == Sections(exts, ignoreChecksum, 0)
    {
      this.exts := exts;
      this.ignoreChecksum := ignoreChecksum;
      active, section, length, idx, extIndex, version, primaryUse := true, None, 0, 0, 0, 0, 0;
    }

    /** drm_edid_find_extension */
    method FindExtension() returns (ext: Option<nat>)
      requires extIndex <= |exts|
      modifies `extIndex
      ensures ext == if Find(exts, old(extIndex)) < |exts| then Some(Find(exts, old(extIndex))) else None
      ensures extIndex == if ext.Some? then ext.value + 1 else old(extIndex)
    {
      var i := extIndex;
      while i < |exts| && exts[i][0] != DISPLAYID_EXT
        invariant extIndex <= i <= |exts|
        invariant Find(exts, i) == Find(exts, extIndex)
      {
        i := i + 1;
      }
      if i >= |exts| {
        return None;
      }
      extIndex := i + 1;
      ext := Some(i);
    }

    /** find_next_displayid_extension */
    method FindNextDisplayIdExtension() returns (ext: Option<nat>)
      requires extIndex <= |exts|
      modifies `extIndex, `length, `idx
      ensures extIndex <= |exts|
      ensures var j := Find(exts, old(extIndex));
              if j < |exts| && SectionOk(exts[j], ignoreChecksum)
              then ext == Some(j) && extIndex == j + 1 && idx == 1
                   && length == PayloadEnd(exts[j])
              else ext == None
    {
      ext := FindExtension();
      if ext == None {
        return;
      }
      // the checksum of the extension block is not part of the section
      length := EDID_LENGTH - 1;
      idx := 1;
      var ok := ValidateDisplayId(exts[ext.value], length, idx, ignoreChecksum);
      if !ok {
        return None;
      }
      length := idx + HEADER_SIZE + exts[ext.value][idx + 1] as int;
    }

    /** displayid_iter_block */
    method IterBlock() returns (block: Option<Block>)
      requires section.Some? ==> section.value < |exts| && 0 <= idx && 0 <= length <= EDID_LENGTH
      ensures section == None ==> block == None
      ensures section.Some? ==> block == if BlockFits(exts[section.value], idx, length)
                then Some(Block(section.value, idx, idx + BlockSize(exts[section.value], idx))) else None
    {
      if section == None {
        return None;
      }
      var ext := exts[section.value];
      if idx + BLOCK_HEADER_SIZE <= length && idx + BLOCK_HEADER_SIZE + ext[idx + 2] as int <= length {
        return Some(Block(section.value, idx, idx + BLOCK_HEADER_SIZE + ext[idx + 2] as int));
      }
      return None;
    }

    /** One round of the loop of __displayid_iter_next over the sections. */
    method EnterSection() returns (block: Option<Block>)
      requires active && extIndex <= |exts| && if section == None then extIndex == 0 else BaseKnown()
      modifies this
      ensures active && extIndex <= |exts| && (section.Some? || old(BaseKnown()) ==> BaseKnown())
      ensures section == None ==> block == None && Sections(exts, ignoreChecksum, old(extIndex)) == []
      ensures section.Some? ==> section.value < extIndex && old(extIndex) < extIndex
      ensures block.Some? ==> Valid()
      ensures block.Some? ==> Sections(exts, ignoreChecksum, old(extIndex)) == [block.value] + Remaining()
      ensures section.Some? && block == None ==>
                Sections(exts, ignoreChecksum, old(extIndex)) == Sections(exts, ignoreChecksum, extIndex)
    {
      var baseSection := section == None;
      section := FindNextDisplayIdExtension();
      if section == None {
        return None;
      }
      if baseSection {
        version := exts[section.value][idx];
        primaryUse := exts[section.value][idx + 2];
      }
      idx := idx + HEADER_SIZE;
      block := IterBlock();
    }

    method NextSection() returns (block: Option<Block>)
      requires active && extIndex <= |exts| && if section == None then extIndex == 0 else BaseKnown()
      modifies this
      ensures Valid() && (active <==> block.Some?) && (block.Some? || old(BaseKnown()) ==> BaseKnown())
      ensures Sections(exts, ignoreChecksum, old(extIndex)) == After(block, Remaining())
    {
      ghost var first := extIndex;
      while true
        invariant active && extIndex <= |exts| && (old(BaseKnown()) ==> BaseKnown())
        invariant if section == None then extIndex == 0 else BaseKnown()
        invariant Sections(exts, ignoreChecksum, extIndex) == Sections(exts, ignoreChecksum, first)
        decreases |exts| - extIndex
      {
        block := EnterSection();
        if section == None {
          active := false;
          return;
        }
        if block.Some? {
          return;
        }
      }
    }

    /** The step of __displayid_iter_next within a section; the current block is always valid. */
    method NextInSection() returns (block: Option<Block>)
      requires Valid() && active && section.Some?
      modifies `idx
      ensures block.Some? ==> Valid() && old(Remaining()) == [block.value] + Remaining()
      ensures block == None ==> old(Remaining()) == Sections(exts, ignoreChecksum, extIndex)
    {
      ghost var remaining := Remaining();
      block := IterBlock();
      assert block.Some?;
      idx := idx + BLOCK_HEADER_SIZE + exts[section.value][idx + 2] as int;
      ghost var rest := Sections(exts, ignoreChecksum, extIndex);
      assert remaining == Parse(exts[section.value], section.value, idx, length, rest);
      ParseStep(exts[section.value], section.value, idx, length, rest);
      block := IterBlock();
    }

    /** __displayid_iter_next: the blocks come out one by one in the order of the parse. */
    method Next() returns (block: Option<Block>)
      requires Valid()
      modifies this
      ensures Valid() && old(Remaining()) == After(block, Remaining())
      ensures block == None ==> Remaining() == []
      ensures block.Some? || old(BaseKnown()) ==> BaseKnown()
    {
      if !active {
        return None;
      }
      if section.Some? {
        block := NextInSection();
        if block.Some? {
          return;
        }
      }
      block := NextSection();
    }
  }

  lemma Append<T>(all: seq<T>, done: seq<T>, x: T, rest: seq<T>)
    requires all == done + ([x] + rest)
    ensures all == (done + [x]) + rest
  {}

  /** displayid_iter_for_each */
  method AllBlocks(exts: Extensions, ignoreChecksum: bool) returns (blocks: seq<Block>)
    ensures blocks == Sections(exts, ignoreChecksum, 0)
  {
    var iter := new Iter(exts, ignoreChecksum);
    blocks := [];
    ghost var all := iter.Remaining();
    while true
      invariant iter.Valid() && iter.exts == exts && iter.ignoreChecksum == ignoreChecksum
      invariant all == blocks + iter.Remaining()
      decreases |iter.Remaining()|
    {
      var block := iter.Next();
      if block == None {
        return;
      }
      Append(all, blocks, block.value, iter.Remaining());
      blocks := blocks + [block.value];
    }
  }
}
