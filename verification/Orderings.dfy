/** Comparison functions built from smaller ones, as derived `Ord` does for numbers, byte strings and tuples. */
module Orderings {
  import opened Base
  import opened MergeSort

  function CompareNat(a: nat, b: nat): Ordering {
    if a < b then Less else if a > b then Greater else Equal
  }

  function CompareBytes(a: bytes, b: bytes): Ordering {
    if a == [] then (if b == [] then Equal else Less)
    else if b == [] then Greater
    else if a[0] != b[0] then CompareNat(a[0], b[0])
    else CompareBytes(a[1..], b[1..])
  }

  function Then(first: Ordering, second: Ordering): Ordering {
    if first == Equal then second else first
  }

  /** Compare by one key, and by the next one only where that is equal. */
  function ThenBy<T(!new)>(first: (T, T) -> Ordering, second: (T, T) -> Ordering): (T, T) -> Ordering {
    (x, y) => Then(first(x, y), second(x, y))
  }

  function By<T(!new), K>(key: T -> K, compare: (K, K) -> Ordering): (T, T) -> Ordering {
    (x, y) => compare(key(x), key(y))
  }

  /** Only equal values are equivalent. */
  ghost predicate Antisymmetric<T(!new)>(cmp: (T, T) -> Ordering) {
    forall x, y :: Equiv(cmp, x, y) <==> x == y
  }

  lemma {:induction false} NatIsTotal()
    ensures TotalPreorder(CompareNat)
    ensures Antisymmetric(CompareNat)
  {
  }

  lemma {:induction false} BytesMirror(a: bytes, b: bytes)
    ensures CompareBytes(a, b) == Greater <==> CompareBytes(b, a) == Less
    ensures CompareBytes(a, b) == Equal <==> a == b
  {
    if a != [] && b != [] && a[0] == b[0] {
      BytesMirror(a[1..], b[1..]);
      assert a == [a[0]] + a[1..] && b == [b[0]] + b[1..];
    }
  }

  lemma {:induction false} BytesChain(a: bytes, b: bytes, c: bytes)
    requires CompareBytes(a, b) != Greater && CompareBytes(b, c) != Greater
    ensures CompareBytes(a, c) != Greater
  {
    if a != [] && b != [] && c != [] && a[0] == b[0] == c[0] {
      BytesChain(a[1..], b[1..], c[1..]);
    }
  }

  lemma {:induction false} BytesIsTotal()
    ensures TotalPreorder<bytes>(CompareBytes)
    ensures Antisymmetric<bytes>(CompareBytes)
  {
    forall x: bytes, y: bytes
      ensures (CompareBytes(x, y) == Greater <==> CompareBytes(y, x) == Less)
              && (CompareBytes(x, y) == Equal <==> x == y) {
      BytesMirror(x, y);
    }
    forall x: bytes, y: bytes, z: bytes | Leq<bytes>(CompareBytes, x, y) && Leq<bytes>(CompareBytes, y, z)
      ensures Leq<bytes>(CompareBytes, x, z)
    {
      BytesChain(x, y, z);
    }
  }

  lemma {:induction false} ByIsTotal<T(!new), K(!new)>(key: T -> K, compare: (K, K) -> Ordering)
    requires TotalPreorder(compare)
    ensures TotalPreorder(By(key, compare))
  {
    var c := By(key, compare);
    forall x, y, z | Leq(c, x, y) && Leq(c, y, z) ensures Leq(c, x, z) {
      assert Leq(compare, key(x), key(y)) && Leq(compare, key(y), key(z));
    }
  }

  lemma {:induction false} ThenByEqual<T(!new)>(first: (T, T) -> Ordering, second: (T, T) -> Ordering, x: T, y: T)
    ensures ThenBy(first, second)(x, y) == Equal <==> first(x, y) == Equal && second(x, y) == Equal
  {
  }

  lemma {:induction false} EqualIsMutual<T(!new)>(c: (T, T) -> Ordering, x: T, y: T)
    requires TotalPreorder(c)
    ensures c(x, y) == Equal <==> Leq(c, x, y) && Leq(c, y, x)
  {
  }

  /** Comparing by two keys in turn is again a total preorder. */
  lemma {:induction false} ThenByIsTotal<T(!new)>(first: (T, T) -> Ordering, second: (T, T) -> Ordering)
    requires TotalPreorder(first) && TotalPreorder(second)
    ensures TotalPreorder(ThenBy(first, second))
  {
    var c := ThenBy(first, second);
    forall x, y ensures c(x, y) == Greater <==> c(y, x) == Less {
      EqualIsMutual(first, x, y);
      EqualIsMutual(first, y, x);
    }
    forall x, y, z | Leq(c, x, y) && Leq(c, y, z) ensures Leq(c, x, z) {
      assert Leq(first, x, y) && Leq(first, y, z) && Leq(first, x, z);
      if first(x, z) == Equal {
        EqualIsMutual(first, x, z);
        assert Leq(first, z, x) && Leq(first, z, y) && Leq(first, y, x);
        EqualIsMutual(first, x, y);
        EqualIsMutual(first, y, z);
        assert Leq(second, x, y) && Leq(second, y, z);
      }
    }
  }
}
