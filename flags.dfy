/**
 * The `active` / open flags of a group of page elements that the handlers
 * of js/main.js switch, one flag per element.
 */
module Flags {

  /** No two elements of the group carry the flag at once. */
  predicate AtMostOne(flags: seq<bool>) {
    forall i, j :: 0 <= i < |flags| && 0 <= j < |flags| && flags[i] && flags[j] ==> i == j
  }
}
