/** What several modules share. */
module Basics {

  const MAXOPBLOCKS := 10       // blocks one file system operation may log
  const UINT := 0x1_0000_0000   // values of a 32-bit unsigned integer

  datatype Option<+T> = None | Some(value: T)

  ghost predicate Distinct(s: seq<int>) {
    forall i, j | 0 <= i < j < |s| :: s[i] != s[j]
  }
}
