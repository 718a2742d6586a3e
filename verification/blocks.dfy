/**
  The two kinds of call block and their markers, shared by the batch and
  the streaming parser (src/mfcs/response_parser.py:65-128 and 159-228).
 */
module Blocks {
  import opened Text
  import opened Extract
  import opened Render

  /** Which of the two block kinds a pass looks for. */
  datatype BlockKind = ToolBlock | MemoryBlock

  function Open(k: BlockKind): string {
    match k
    case ToolBlock => "<mfcs_tool>"
    case MemoryBlock => "<mfcs_memory>"
  }

  function Close(k: BlockKind): string {
    match k
    case ToolBlock => "</mfcs_tool>"
    case MemoryBlock => "</mfcs_memory>"
  }

  /** The id field a block of this kind carries. */
  function IdTags(k: BlockKind): Tags {
    match k
    case ToolBlock => CallId
    case MemoryBlock => MemoryId
  }

  /** Text that holds neither opening marker, so that no block can start in it. */
  predicate Unmarked(t: string) {
    !Contains(t, Open(ToolBlock)) && !Contains(t, Open(MemoryBlock))
  }

  lemma BlockMarkers(k: BlockKind)
    ensures BlockLike(Open(k)) && BlockLike(Close(k))
    ensures !Contains(Close(k), Open(k))
  {
    MarkerNotIn(Close(k), Open(k), 1);
  }

  /** A slice of unmarked text is unmarked. */
  lemma UnmarkedSlice(t: string, lo: nat, hi: nat)
    requires Unmarked(t) && lo <= hi <= |t|
    ensures Unmarked(t[lo..hi])
  {
    NotInSlice(t, lo, hi, Open(ToolBlock));
    NotInSlice(t, lo, hi, Open(MemoryBlock));
  }
}
