/** The fence state that both markdown scanners keep. */
module Fences {
  /** Outside every fence, or inside one that a run of at least `length` markers closes. */
  datatype Fence = Outside | Inside(marker: char, length: nat)
}
