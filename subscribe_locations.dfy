/**
 * The location subscriptions: location mutations from the documents
 * exchange and meter metrics from the h2obridge exchange, each published
 * under its own key as a list.
 */
module LocationSubscriptions {
  import opened BrokerEvents

  /** `locationMutationResolver`, which the module also exports as `resolver`. */
  function LocationMutationResolver<E>(x: Nested<E>): (r: map<string, seq<Nested<E>>>)
    ensures r.Keys == {"locationMutation"}
    ensures x.Leaf? ==> r["locationMutation"] == [x]
    ensures x.List? ==> r["locationMutation"] == x.items
  {
    Resolve("locationMutation", x)
  }

  /** `locationMetrics`. */
  function LocationMetrics<E>(x: Nested<E>): (r: map<string, seq<Nested<E>>>)
    ensures r.Keys == {"locationMetrics"}
    ensures x.Leaf? ==> r["locationMetrics"] == [x]
    ensures x.List? ==> r["locationMetrics"] == x.items
  {
    Resolve("locationMetrics", x)
  }

  /** The module's exported `resolver`. */
  function ExportedResolver<E>(x: Nested<E>): map<string, seq<Nested<E>>>
  {
    LocationMutationResolver(x)
  }

  /** The `locationMetrics` subscription field: its arguments and context only reach the log. */
  function LocationMetricsSubscription<E, A, C>(args: A, context: C): (b: Binding<E>)
    ensures b.topic == "meter.metrics.#" && b.exchange == H2obridge
  {
    Binding("meter.metrics.#", H2obridge, LocationMetrics)
  }

  /** The `locationMutation` subscription field. */
  function LocationMutationSubscription<E, A, C>(args: A, context: C): (b: Binding<E>)
    ensures b.topic == "locations.mutation.#" && b.exchange == Documents
  {
    Binding("locations.mutation.#", Documents, LocationMutationResolver)
  }

  /** The metrics subscription publishes each metric event, or batch of them, under `locationMetrics`. */
  lemma MetricsBindingPublishes<E, A, C>(args: A, context: C, e: E, batch: seq<Nested<E>>)
    ensures var b := LocationMetricsSubscription<E, A, C>(args, context);
      b.resolver(Leaf(e)) == map["locationMetrics" := [Leaf(e)]]
      && b.resolver(List(batch)) == map["locationMetrics" := batch]
  {
  }

  /** The mutation subscription publishes under `locationMutation`, and the exported resolver is the same. */
  lemma MutationBindingPublishes<E, A, C>(args: A, context: C, x: Nested<E>)
    ensures var b := LocationMutationSubscription<E, A, C>(args, context);
      b.resolver(x) == map["locationMutation" := Normalize(x)]
      && ExportedResolver(x) == b.resolver(x)
  {
  }

  /** The filters argument is not used: every call binds the same topic and exchange. */
  lemma FiltersIgnored<E, A, C>(a1: A, a2: A, c1: C, c2: C)
    ensures LocationMetricsSubscription<E, A, C>(a1, c1) == LocationMetricsSubscription<E, A, C>(a2, c2)
    ensures LocationMutationSubscription<E, A, C>(a1, c1) == LocationMutationSubscription<E, A, C>(a2, c2)
  {
  }
}
