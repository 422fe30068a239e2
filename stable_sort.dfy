/**
 * `Array.prototype.sort(compare)` on a copy of an array. Since ES2019 the sort is
 * stable; it is modelled as an insertion sort that puts each element before the
 * first later-sorted element it does not compare greater than. The comparator
 * returns a number whose sign is what matters.
 */
module ArraySort {

  /** Places `x` before the first element of `t` it does not compare greater than. */
  function Insert<T>(x: T, t: seq<T>, cmp: (T, T) -> int): (r: seq<T>)
    ensures |r| == |t| + 1
  {
    if |t| == 0 then [x]
    else if cmp(x, t[0]) <= 0 then [x] + t
    else [t[0]] + Insert(x, t[1..], cmp)
  }

  /** `[...s].sort(cmp)`. */
  function Sort<T>(s: seq<T>, cmp: (T, T) -> int): (r: seq<T>)
    ensures |r| == |s|
  {
    if |s| == 0 then [] else Insert(s[0], Sort(s[1..], cmp), cmp)
  }

  lemma InsertFront<T>(x: T, t: seq<T>, cmp: (T, T) -> int)
    requires |t| > 0 && cmp(x, t[0]) <= 0
    ensures Insert(x, t, cmp) == [x] + t
  {
  }

  lemma InsertPast<T>(x: T, t: seq<T>, cmp: (T, T) -> int)
    requires |t| > 0 && cmp(x, t[0]) > 0
    ensures Insert(x, t, cmp) == [t[0]] + Insert(x, t[1..], cmp)
  {
  }

  /** Inserting adds exactly the one element. */
  lemma {:induction false} InsertPermutes<T>(x: T, t: seq<T>, cmp: (T, T) -> int)
    ensures multiset(Insert(x, t, cmp)) == multiset(t) + multiset{x}
  {
    if |t| > 0 && cmp(x, t[0]) > 0 {
      InsertPermutes(x, t[1..], cmp);
      assert t == [t[0]] + t[1..];
    }
  }

  /** The sorted copy is a permutation of the input. */
  lemma {:induction false} SortPermutes<T>(s: seq<T>, cmp: (T, T) -> int)
    ensures multiset(Sort(s, cmp)) == multiset(s)
  {
    if |s| > 0 {
      SortPermutes(s[1..], cmp);
      InsertPermutes(s[0], Sort(s[1..], cmp), cmp);
      assert s == [s[0]] + s[1..];
    }
  }

  /** Every element compares at most equal to every element after it. */
  predicate Sorted<T>(r: seq<T>, cmp: (T, T) -> int)
  {
    forall i, j :: 0 <= i < j < |r| ==> cmp(r[i], r[j]) <= 0
  }

  /** Any two values of `dom` are ordered one way or the other. */
  ghost predicate Total<T(!new)>(cmp: (T, T) -> int, dom: T -> bool)
  {
    forall a, b :: dom(a) && dom(b) ==> cmp(a, b) <= 0 || cmp(b, a) <= 0
  }

  /** "Not greater" chains across three values of `dom`. */
  ghost predicate Transitive<T(!new)>(cmp: (T, T) -> int, dom: T -> bool)
  {
    forall a, b, c :: dom(a) && dom(b) && dom(c) && cmp(a, b) <= 0 && cmp(b, c) <= 0 ==> cmp(a, c) <= 0
  }

  /** Every element of `s` satisfies `p`. */
  predicate All<T>(s: seq<T>, p: T -> bool)
  {
    forall i :: 0 <= i < |s| ==> p(s[i])
  }

  /** Once an element satisfies `p`, every later one does too. */
  predicate Partitioned<T>(r: seq<T>, p: T -> bool)
  {
    forall i, j :: 0 <= i < j < |r| && p(r[i]) ==> p(r[j])
  }

  /** Values satisfying `p` compare greater than, and others not greater than, values of the other kind. */
  ghost predicate KeepsLast<T(!new)>(cmp: (T, T) -> int, p: T -> bool)
  {
    forall a, b :: p(a) && !p(b) ==> cmp(a, b) > 0 && cmp(b, a) <= 0
  }

  lemma {:induction false} InsertLowerBound<T>(b: T, x: T, t: seq<T>, cmp: (T, T) -> int)
    requires forall i :: 0 <= i < |t| ==> cmp(b, t[i]) <= 0
    requires cmp(b, x) <= 0
    ensures forall i :: 0 <= i < |Insert(x, t, cmp)| ==> cmp(b, Insert(x, t, cmp)[i]) <= 0
    decreases |t|
  {
    if |t| > 0 && cmp(x, t[0]) > 0 {
      InsertLowerBound(b, x, t[1..], cmp);
    }
  }

  lemma {:induction false} InsertAll<T>(x: T, t: seq<T>, cmp: (T, T) -> int, p: T -> bool)
    requires All(t, p) && p(x)
    ensures All(Insert(x, t, cmp), p)
    decreases |t|
  {
    if |t| > 0 && cmp(x, t[0]) > 0 {
      InsertAll(x, t[1..], cmp, p);
    }
  }

  /** Sorting keeps every element of `s`, so a property of all of them holds of all of the result. */
  lemma {:induction false} SortAll<T>(s: seq<T>, cmp: (T, T) -> int, p: T -> bool)
    requires All(s, p)
    ensures All(Sort(s, cmp), p)
  {
    if |s| > 0 {
      SortAll(s[1..], cmp, p);
      InsertAll(s[0], Sort(s[1..], cmp), cmp, p);
    }
  }

  lemma {:induction false} InsertSorted<T(!new)>(x: T, t: seq<T>, cmp: (T, T) -> int, dom: T -> bool)
    requires Sorted(t, cmp)
    requires All(t, dom) && dom(x)
    requires Total(cmp, dom) && Transitive(cmp, dom)
    ensures Sorted(Insert(x, t, cmp), cmp)
    decreases |t|
  {
    if |t| > 0 {
      if cmp(x, t[0]) <= 0 {
        var r := [x] + t;
        forall i, j | 0 <= i < j < |r| ensures cmp(r[i], r[j]) <= 0 {
          if i == 0 && j > 1 {
            assert cmp(t[0], t[j - 1]) <= 0;
          }
        }
      } else {
        InsertSorted(x, t[1..], cmp, dom);
        InsertLowerBound(t[0], x, t[1..], cmp);
      }
    }
  }

  /** When every element lies in a domain where the comparator is total and transitive, the sorted copy is in order. */
  lemma {:induction false} SortSorted<T(!new)>(s: seq<T>, cmp: (T, T) -> int, dom: T -> bool)
    requires All(s, dom)
    requires Total(cmp, dom) && Transitive(cmp, dom)
    ensures Sorted(Sort(s, cmp), cmp)
  {
    if |s| > 0 {
      SortSorted(s[1..], cmp, dom);
      SortAll(s[1..], cmp, dom);
      InsertSorted(s[0], Sort(s[1..], cmp), cmp, dom);
    }
  }

  lemma {:induction false} InsertPartitioned<T(!new)>(x: T, t: seq<T>, cmp: (T, T) -> int, p: T -> bool)
    requires Partitioned(t, p)
    requires KeepsLast(cmp, p)
    ensures Partitioned(Insert(x, t, cmp), p)
    decreases |t|
  {
    if |t| > 0 {
      if cmp(x, t[0]) <= 0 {
        var r := [x] + t;
        forall i, j | 0 <= i < j < |r| && p(r[i]) ensures p(r[j]) {
          if i == 0 {
            assert p(t[0]);
            assert j == 1 || p(t[j - 1]);
          } else {
            assert r[i] == t[i - 1] && r[j] == t[j - 1];
          }
        }
      } else {
        InsertPartitioned(x, t[1..], cmp, p);
        if p(t[0]) {
          assert p(x);
          InsertAll(x, t[1..], cmp, p);
        }
      }
    }
  }

  /**
   * Under a comparator that keeps `p`-values last, the sorted copy has every
   * `p`-element after every other element. No transitivity is needed.
   */
  lemma {:induction false} SortPartitioned<T(!new)>(s: seq<T>, cmp: (T, T) -> int, p: T -> bool)
    requires KeepsLast(cmp, p)
    ensures Partitioned(Sort(s, cmp), p)
  {
    if |s| > 0 {
      SortPartitioned(s[1..], cmp, p);
      InsertPartitioned(s[0], Sort(s[1..], cmp), cmp, p);
    }
  }
}
