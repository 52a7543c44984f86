/** `PathResult` (src/structure/path_result.rs): the answer of a path search. */
module PathResults {
  datatype PathResult = Possible(cost: nat, path: seq<nat>) | Impossible
}
