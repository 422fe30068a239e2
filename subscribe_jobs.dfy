/**
 * The jobsResult subscription: completed scheduled jobs from the broker, published as a list
 * under the single key `jobsResult`.
 */
module JobSubscriptions {
  import opened BrokerEvents

  /** The module's `resolver`. */
  function Resolver<E>(x: Nested<E>): (r: map<string, seq<Nested<E>>>)
    ensures r.Keys == {"jobsResult"}
    ensures x.Leaf? ==> r["jobsResult"] == [x]
    ensures x.List? ==> r["jobsResult"] == x.items
  {
    Resolve("jobsResult", x)
  }

  /** The `jobsResult` subscription field: its arguments and context only reach the log. */
  function JobsResultSubscription<E, A, C>(args: A, context: C): (b: Binding<E>)
    ensures b.topic == "jobs.scheduled.complete" && b.exchange == Documents
  {
    Binding("jobs.scheduled.complete", Documents, Resolver)
  }

  /** The subscription publishes each event, or batch of them in the same order, under `jobsResult`. */
  lemma BindingPublishes<E, A, C>(args: A, context: C, e: E, batch: seq<Nested<E>>)
    ensures var b := JobsResultSubscription<E, A, C>(args, context);
      b.resolver(Leaf(e)) == map["jobsResult" := [Leaf(e)]]
      && b.resolver(List(batch)) == map["jobsResult" := batch]
  {
  }

  /** The filters argument is not used: every call binds the same topic and exchange. */
  lemma FiltersIgnored<E, A, C>(a1: A, a2: A, c1: C, c2: C)
    ensures JobsResultSubscription<E, A, C>(a1, c1) == JobsResultSubscription<E, A, C>(a2, c2)
  {
  }
}
