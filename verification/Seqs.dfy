/** Sequences without repetition, as in lists of logged blocks, rings of buffers and free lists. */
module Seqs {
  ghost predicate Distinct(s: seq<int>)
  {
    forall i, j :: 0 <= i < j < |s| ==> s[i] != s[j]
  }
}
