/** The parts of an inbound HTTP request that the proxy looks at. */
module Http {
  import opened Hex
  import opened SeqFacts

  /** A multi-valued mapping such as `url.Values` or `http.Header`. */
  type Values = map<string, seq<string>>

  /**
   An inbound request: method (`verb`), decoded URL path, decoded query parameters,
   headers and body bytes.
   */
  datatype Request = Request(
    verb: string,
    path: string,
    query: Values,
    header: Values,
    body: seq<byte>)

  /** One possible order of a Go `range` over the map: every key exactly once. */
  predicate IsIterationOrder(order: seq<string>, m: Values) {
    && Distinct(order)
    && (forall k :: k in order ==> k in m)
    && (forall k :: k in m ==> k in order)
  }

  /** Any two iteration orders of the same map are permutations of each other. */
  lemma IterationOrdersPermute(o1: seq<string>, o2: seq<string>, m: Values)
    requires IsIterationOrder(o1, m) && IsIterationOrder(o2, m)
    ensures multiset(o1) == multiset(o2)
  {
    forall x
      ensures multiset(o1)[x] == multiset(o2)[x]
    {
      DistinctCount(o1, x);
      DistinctCount(o2, x);
    }
  }
}
