/** The algebra shared by the three replicated types.

    Merging counters, registers and per-element version sets is associative and idempotent, but
    merging registers or version sets is not commutative on arbitrary values: on a tie the left
    operand's contents win.  What all three satisfy is the law of a left-regular band,
    x.y.x == x.y, and that is enough for the gossip protocol.
 */
module Bands {

  // Each law is stated through an instance predicate, so that it is used only where it is named.

  ghost predicate Assoc<A>(op: (A, A) -> A, x: A, y: A, z: A) {
    op(op(x, y), z) == op(x, op(y, z))
  }

  ghost predicate Idem<A>(op: (A, A) -> A, x: A) {
    op(x, x) == x
  }

  ghost predicate Regular<A>(op: (A, A) -> A, x: A, y: A) {
    op(op(x, y), x) == op(x, y)
  }

  ghost predicate Associative<A(!new)>(op: (A, A) -> A) {
    forall x, y, z :: Assoc(op, x, y, z)
  }

  ghost predicate Idempotent<A(!new)>(op: (A, A) -> A) {
    forall x :: Idem(op, x)
  }

  ghost predicate LeftRegular<A(!new)>(op: (A, A) -> A) {
    forall x, y :: Regular(op, x, y)
  }

  ghost predicate Commutative<A(!new)>(op: (A, A) -> A) {
    forall x, y :: op(x, y) == op(y, x)
  }

  ghost predicate IsBand<A(!new)>(op: (A, A) -> A) {
    Associative(op) && Idempotent(op) && LeftRegular(op)
  }

  /** Key-wise merge of two Go maps: a key on one side only is adopted as it is. */
  function MapJoin<K, V>(f: (V, V) -> V, a: map<K, V>, b: map<K, V>): map<K, V> {
    map k | k in a.Keys + b.Keys ::
      if k in a && k in b then f(a[k], b[k]) else if k in a then a[k] else b[k]
  }

  /** A band on the entries lifts to a band on maps. */
  lemma MapJoinIsBand<K(!new), V(!new)>(f: (V, V) -> V)
    requires IsBand(f)
    ensures IsBand((a: map<K, V>, b: map<K, V>) => MapJoin(f, a, b))
  {
    var op := (a: map<K, V>, b: map<K, V>) => MapJoin(f, a, b);
    forall x, y, z ensures Assoc(op, x, y, z) {
      MapJoinAssociative(f, x, y, z);
    }
    forall x ensures Idem(op, x) {
      assert forall k | k in x :: Idem(f, x[k]);
      assert MapJoin(f, x, x) == x;
    }
    forall x, y ensures Regular(op, x, y) {
      assert forall k | k in x && k in y :: Regular(f, x[k], y[k]);
      assert forall k | k in x :: Idem(f, x[k]);
      assert MapJoin(f, MapJoin(f, x, y), x) == MapJoin(f, x, y);
    }
  }

  lemma MapJoinAssociative<K, V(!new)>(f: (V, V) -> V, x: map<K, V>, y: map<K, V>, z: map<K, V>)
    requires Associative(f)
    ensures MapJoin(f, MapJoin(f, x, y), z) == MapJoin(f, x, MapJoin(f, y, z))
  {
    var l, r := MapJoin(f, MapJoin(f, x, y), z), MapJoin(f, x, MapJoin(f, y, z));
    assert l.Keys == r.Keys;
    forall k | k in l ensures l[k] == r[k] {
      if k in x && k in y && k in z {
        assert Assoc(f, x[k], y[k], z[k]);
      }
    }
  }

  lemma MapJoinCommutative<K(!new), V(!new)>(f: (V, V) -> V)
    requires Commutative(f)
    ensures Commutative((a: map<K, V>, b: map<K, V>) => MapJoin(f, a, b))
  {
    var op := (a: map<K, V>, b: map<K, V>) => MapJoin(f, a, b);
    forall x, y ensures op(x, y) == op(y, x) {
      assert MapJoin(f, x, y) == MapJoin(f, y, x);
    }
  }
}
