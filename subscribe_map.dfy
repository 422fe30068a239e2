/**
 * The mapLayers subscription: map layer entries from the broker, published as a list
 * under the single key `mapLayers`.
 */
module MapSubscriptions {
  import opened BrokerEvents

  /** The module's `resolver`. */
  function Resolver<E>(x: Nested<E>): (r: map<string, seq<Nested<E>>>)
    ensures r.Keys == {"mapLayers"}
    ensures x.Leaf? ==> r["mapLayers"] == [x]
    ensures x.List? ==> r["mapLayers"] == x.items
  {
    Resolve("mapLayers", x)
  }

  /** The `mapLayers` subscription field: its arguments and context only reach the log. */
  function MapLayersSubscription<E, A, C>(args: A, context: C): (b: Binding<E>)
    ensures b.topic == "map.layers.*" && b.exchange == Documents
  {
    Binding("map.layers.*", Documents, Resolver)
  }

  /** The subscription publishes each event, or batch of them in the same order, under `mapLayers`. */
  lemma BindingPublishes<E, A, C>(args: A, context: C, e: E, batch: seq<Nested<E>>)
    ensures var b := MapLayersSubscription<E, A, C>(args, context);
      b.resolver(Leaf(e)) == map["mapLayers" := [Leaf(e)]]
      && b.resolver(List(batch)) == map["mapLayers" := batch]
  {
  }

  /** The filters argument is not used: every call binds the same topic and exchange. */
  lemma FiltersIgnored<E, A, C>(a1: A, a2: A, c1: C, c2: C)
    ensures MapLayersSubscription<E, A, C>(a1, c1) == MapLayersSubscription<E, A, C>(a2, c2)
  {
  }
}
