/** The match table as a sequence in ascending id order (oldest first). */
module MatchStore {
  import opened MatchRecord

  /** The listing page's order: newest first, i.e. descending id. */
  function NewestFirst(store: seq<Match>): (r: seq<Match>)
    ensures |r| == |store|
    ensures forall i :: 0 <= i < |store| ==> r[i] == store[|store| - 1 - i]
  {
    if store == [] then [] else [store[|store| - 1]] + NewestFirst(store[..|store| - 1])
  }

  /** Listing twice in reverse gives the store back. */
  lemma NewestFirstInvolution(store: seq<Match>)
    ensures NewestFirst(NewestFirst(store)) == store
  {
  }

  /** A newly appended match heads the listing and the rest keep their order. */
  lemma NewestFirstAppend(store: seq<Match>, m: Match)
    ensures NewestFirst(store + [m]) == [m] + NewestFirst(store)
  {
  }
}
