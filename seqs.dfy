/** First-match lookup over an ordered collection, the way a document store's
    `findOne` and `findById` answer over the records in insertion order. */
module Seqs {

  import opened Wrappers

  /** The index of the first element satisfying `p`, or None when no element does. */
  function Find<T>(s: seq<T>, p: T -> bool): (r: Option<nat>)
    ensures r.Some? ==> r.value < |s| && p(s[r.value])
    ensures r.Some? ==> forall j :: 0 <= j < r.value ==> !p(s[j])
    ensures r.None? <==> forall j :: 0 <= j < |s| ==> !p(s[j])
  {
    if s == [] then None
    else if p(s[0]) then Some(0)
    else match Find(s[1..], p)
      case None => None
      case Some(k) => Some(k + 1)
  }

  /** When a single element satisfies `p`, Find returns it whatever else the sequence holds. */
  lemma {:induction false} FindUnique<T>(s: seq<T>, p: T -> bool, i: nat)
    requires i < |s| && p(s[i])
    requires forall j :: 0 <= j < |s| && j != i ==> !p(s[j])
    ensures Find(s, p) == Some(i)
  {
  }
}
