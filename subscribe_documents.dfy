/**
 * The gqlDocumentMutation subscription: document mutations from the broker, published as a list
 * under the single key `gqlDocumentMutation`.
 */
module DocumentSubscriptions {
  import opened BrokerEvents

  /** The module's `resolver`. */
  function Resolver<E>(x: Nested<E>): (r: map<string, seq<Nested<E>>>)
    ensures r.Keys == {"gqlDocumentMutation"}
    ensures x.Leaf? ==> r["gqlDocumentMutation"] == [x]
    ensures x.List? ==> r["gqlDocumentMutation"] == x.items
  {
    Resolve("gqlDocumentMutation", x)
  }

  /** The `gqlDocumentMutation` subscription field: its arguments and context only reach the log. */
  function GqlDocumentMutationSubscription<E, A, C>(args: A, context: C): (b: Binding<E>)
    ensures b.topic == "document.mutation.#" && b.exchange == Documents
  {
    Binding("document.mutation.#", Documents, Resolver)
  }

  /** The subscription publishes each event, or batch of them in the same order, under `gqlDocumentMutation`. */
  lemma BindingPublishes<E, A, C>(args: A, context: C, e: E, batch: seq<Nested<E>>)
    ensures var b := GqlDocumentMutationSubscription<E, A, C>(args, context);
      b.resolver(Leaf(e)) == map["gqlDocumentMutation" := [Leaf(e)]]
      && b.resolver(List(batch)) == map["gqlDocumentMutation" := batch]
  {
  }

  /** The filters argument is not used: every call binds the same topic and exchange. */
  lemma FiltersIgnored<E, A, C>(a1: A, a2: A, c1: C, c2: C)
    ensures GqlDocumentMutationSubscription<E, A, C>(a1, c1) == GqlDocumentMutationSubscription<E, A, C>(a2, c2)
  {
  }
}
