/**
 * What every broker-backed subscription shares: the payload normaliser
 * `{ key: [x].flat() }`, which accepts one event or a batch and always
 * publishes a list, and the binding of a subscription to a broker topic
 * and exchange.
 */
module BrokerEvents {

  /** A JavaScript value as `Array.prototype.flat` sees it: an event, or an array of such values. */
  datatype Nested<E> = Leaf(event: E) | List(items: seq<Nested<E>>)

  /** `xs.flat()` with the default depth of one: arrays are opened once, their own arrays stay. */
  function Flat<E>(xs: seq<Nested<E>>): seq<Nested<E>>
  {
    if |xs| == 0 then []
    else (if xs[0].List? then xs[0].items else [xs[0]]) + Flat(xs[1..])
  }

  /** `[x].flat()`: a single event becomes a one-element list, a batch is its own list. */
  function Normalize<E>(x: Nested<E>): (r: seq<Nested<E>>)
    ensures x.Leaf? ==> r == [x]
    ensures x.List? ==> r == x.items
  {
    assert [x][1..] == [] && Flat<E>([]) == [];
    Flat([x])
  }

  /** The published payload: an object with one key, whose value is the normalised list. */
  function Resolve<E>(key: string, x: Nested<E>): (r: map<string, seq<Nested<E>>>)
    ensures r.Keys == {key}
    ensures r[key] == Normalize(x)
  {
    map[key := Normalize(x)]
  }

  /** The broker exchanges the subscriptions listen on. */
  datatype Exchange = Documents | H2obridge

  /** The options a subscription hands to the broker-backed iterator factory. */
  datatype Binding<!E> = Binding(topic: string, exchange: Exchange, resolver: Nested<E> -> map<string, seq<Nested<E>>>)

  /** Flattening distributes over concatenation. */
  lemma {:induction false} FlatAppend<E>(a: seq<Nested<E>>, b: seq<Nested<E>>)
    ensures Flat(a + b) == Flat(a) + Flat(b)
  {
    if |a| > 0 {
      assert (a + b)[1..] == a[1..] + b;
      FlatAppend(a[1..], b);
    } else {
      assert a + b == b;
    }
  }

  /** A list of plain events is its own flattening: length, contents and order are kept. */
  lemma {:induction false} FlatOfEvents<E>(xs: seq<Nested<E>>)
    requires forall i :: 0 <= i < |xs| ==> xs[i].Leaf?
    ensures Flat(xs) == xs
  {
    if |xs| > 0 {
      FlatOfEvents(xs[1..]);
      assert [xs[0]] + xs[1..] == xs;
    }
  }

  /** Normalising twice changes nothing: a published list re-published as a batch is the same list. */
  lemma NormalizeIdempotent<E>(x: Nested<E>)
    ensures Normalize(List(Normalize(x))) == Normalize(x)
  {
  }

  /** Flattening is one level deep: an array inside a batch is published as an array. */
  lemma OneLevelOnly<E>(e: E)
    ensures Normalize(List([List([Leaf(e)])])) == [List([Leaf(e)])]
    ensures Normalize(List([Leaf(e), List([Leaf(e)])])) != [Leaf(e), Leaf(e)]
  {
    assert Normalize(List([Leaf(e), List([Leaf(e)])]))[1] == List([Leaf(e)]);
  }
}
