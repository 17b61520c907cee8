/** Lists of names. */
module Sequences {
  ghost predicate NoRepeat(s: seq<string>) {
    forall i, j :: 0 <= i < j < |s| ==> s[i] != s[j]
  }
}
