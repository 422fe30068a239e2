/** Option and Result, used wherever the source returns `undefined` or throws, and the subsequence relation `filter` keeps. */
module Wrappers {

  /** `None` stands for JavaScript's `undefined` (or `null` where the source treats both alike). */
  datatype Option<+T> = None | Some(value: T) {
    function GetOr(default: T): T {
      match this
      case Some(v) => v
      case None => default
    }
  }

  /** `Err` carries the message of an exception the source throws. */
  datatype Result<+T> = Ok(value: T) | Err(message: string)

  /** Looking a key up in a JavaScript object: a missing key gives `undefined`. */
  function Lookup<K, V>(m: map<K, V>, k: K): (r: Option<V>)
    ensures r.Some? <==> k in m
    ensures r.Some? ==> r.value == m[k]
  {
    if k in m then Some(m[k]) else None
  }

  /** Indexing a JavaScript array: an index outside it gives `undefined`. */
  function At<T>(s: seq<T>, i: int): (r: Option<T>)
    ensures r.Some? <==> 0 <= i < |s|
    ensures r.Some? ==> r.value == s[i]
  {
    if 0 <= i < |s| then Some(s[i]) else None
  }

  /** `a` is `b` with some elements left out, the rest in their original order. */
  predicate IsSubsequence<T(==)>(a: seq<T>, b: seq<T>)
    decreases |b|
  {
    if |a| == 0 then true
    else if |b| == 0 then false
    else (a[0] == b[0] && IsSubsequence(a[1..], b[1..])) || IsSubsequence(a, b[1..])
  }
}
