/** Option and Result values, partial lookup in a map, and suffixes and regrouping of sequences. */
module Wrappers {
  datatype Option<+T> = None | Some(value: T)

  datatype Result<+T, +E> = Ok(value: T) | Err(error: E)

  function At<K, V>(m: map<K, V>, k: K): Option<V> {
    if k in m then Some(m[k]) else None
  }

  ghost predicate IsSuffix<T>(tail: seq<T>, whole: seq<T>) {
    |tail| <= |whole| && whole[|whole| - |tail|..] == tail
  }

  lemma SuffixOfSuffix<T>(head: seq<T>, tail: seq<T>, whole: seq<T>)
    requires IsSuffix(head + tail, whole)
    ensures IsSuffix(tail, whole)
  {
    assert (head + tail)[|head|..] == tail;
  }

  lemma Regroup<T>(a: seq<T>, b: seq<T>, c: seq<T>)
    ensures (a + b) + c == a + (b + c)
  {
  }

  lemma MapsAgree<K(!new), V(!new)>(a: map<K, V>, b: map<K, V>)
    requires forall k: K :: At(a, k) == At(b, k)
    ensures a == b
  {
    forall k: K
      ensures k in a <==> k in b
      ensures k in a ==> a[k] == b[k]
    {
      assert At(a, k) == At(b, k);
    }
  }
}
