/** The page-usage map of src/mem.c: one 16-bit word for each block of 16 pages. */
module PageMap {
  import opened Lists

  const PAGES_PER_BLOCK: nat := 16
  const PAGE_BLOCK_COUNT: nat := 16
  const FULL: Word := 0xFFFF

  type Word = x: int | 0 <= x < 0x1_0000

  /** The lowest block at or after `from` whose word is zero. */
  function FirstFree(usage: seq<Word>, from: nat): (r: Option<nat>)
    requires from <= |usage|
    ensures r.Some? ==> from <= r.value < |usage| && usage[r.value] == 0
    ensures forall b :: from <= b < |usage| && (r == None || b < r.value) ==> usage[b] != 0
    decreases |usage| - from
  {
    if from == |usage| then None
    else if usage[from] == 0 then Some(from)
    else FirstFree(usage, from + 1)
  }

  /** mem_alloc_page_block: claims the first empty block and returns its first page, or -1. */
  method AllocPageBlock(usage: array<Word>) returns (page: int)
    requires usage.Length == PAGE_BLOCK_COUNT
    modifies usage
    ensures match FirstFree(old(usage[..]), 0)
            case None => page == -1 && usage[..] == old(usage[..])
            case Some(b) => page == b * 16 && usage[..] == old(usage[..])[b := 0xFFFF]
  {
    var block := 0;
    while block < PAGE_BLOCK_COUNT
      invariant 0 <= block <= PAGE_BLOCK_COUNT
      invariant usage[..] == old(usage[..])
      invariant FirstFree(old(usage[..]), 0) == FirstFree(old(usage[..]), block)
    {
      if usage[block] == 0 {
        usage[block] := FULL;
        return block * PAGES_PER_BLOCK;
      }
      block := block + 1;
    }
    return -1;
  }

  /** mem_alloc_page_block_specific: claims one given block if it is aligned, in range and empty. */
  method AllocPageBlockSpecific(usage: array<Word>, page: nat) returns (r: int)
    requires usage.Length == PAGE_BLOCK_COUNT
    modifies usage
    ensures var b := page / 16;
            if page % 16 == 0 && b < 16 && old(usage[..])[b] == 0
            then r == page && usage[..] == old(usage[..])[b := 0xFFFF]
            else r == -1 && usage[..] == old(usage[..])
  {
    if page % PAGES_PER_BLOCK == 0 {
      var block := page / PAGES_PER_BLOCK;
      if block < PAGE_BLOCK_COUNT {
        if usage[block] == 0 {
          usage[block] := FULL;
          return page;
        }
      }
    }
    return -1;
  }

  /** mem_free_page_block: clears the word of the block that holds the page. */
  method FreePageBlock(usage: array<Word>, page: nat)
    requires usage.Length == PAGE_BLOCK_COUNT && page < PAGE_BLOCK_COUNT * PAGES_PER_BLOCK
    modifies usage
    ensures usage[..] == old(usage[..])[page / 16 := 0]
  {
    usage[page / PAGES_PER_BLOCK] := 0;
  }
}
