/**
 * The dictionary the prediction form fills: entries are inserted one by one,
 * and a key inserted again overwrites the value stored for it before.
 */
module Records {

  /** A value an entry widget hands back: a whole number, a real number or text. */
  datatype Value = IntValue(i: int) | RealValue(r: real) | TextValue(s: string)

  /** Pairs the i-th name with the i-th value. */
  function Zip<A, B>(names: seq<A>, values: seq<B>): (r: seq<(A, B)>)
    requires |names| == |values|
    ensures |r| == |names|
    ensures forall i :: 0 <= i < |r| ==> r[i] == (names[i], values[i])
  {
    seq(|names|, i requires 0 <= i < |names| => (names[i], values[i]))
  }

  /** The dictionary left after `d[k] = v` has run for every pair, in order, starting from `{}`. */
  function Inserted<V>(pairs: seq<(string, V)>): map<string, V>
  {
    if pairs == [] then map[]
    else
      var last := pairs[|pairs| - 1];
      Inserted(pairs[..|pairs| - 1])[last.0 := last.1]
  }

  /** The position of the last occurrence of `k` in `keys`, or -1 when it does not occur. */
  function LastIndex(keys: seq<string>, k: string): (i: int)
    ensures -1 <= i < |keys|
    ensures i >= 0 ==> keys[i] == k && forall j :: i < j < |keys| ==> keys[j] != k
    ensures i == -1 <==> k !in keys
  {
    if keys == [] then -1
    else if keys[|keys| - 1] == k then |keys| - 1
    else LastIndex(keys[..|keys| - 1], k)
  }

  /** Inserting one more pair after a prefix updates the dictionary of that prefix. */
  lemma InsertedSnoc<V>(pairs: seq<(string, V)>, p: (string, V))
    ensures Inserted(pairs + [p]) == Inserted(pairs)[p.0 := p.1]
  {
    assert (pairs + [p])[..|pairs|] == pairs;
  }

  /** A key is in the dictionary exactly when some pair carries it. */
  lemma {:induction false} InsertedKeys<V>(pairs: seq<(string, V)>, k: string)
    ensures k in Inserted(pairs) <==> exists i :: 0 <= i < |pairs| && pairs[i].0 == k
  {
    if pairs != [] {
      var init := pairs[..|pairs| - 1];
      InsertedKeys(init, k);
      if k in Inserted(init) {
        var i :| 0 <= i < |init| && init[i].0 == k;
        assert pairs[i].0 == k;
      }
      if exists i :: 0 <= i < |pairs| && pairs[i].0 == k {
        var i :| 0 <= i < |pairs| && pairs[i].0 == k;
        if i < |init| {
          assert init[i].0 == k;
        }
      }
    }
  }

  /** The value kept for a key is the one of the LAST pair that carries it. */
  lemma {:induction false} InsertedLastWins<V>(pairs: seq<(string, V)>, i: nat)
    requires i < |pairs|
    requires forall j :: i < j < |pairs| ==> pairs[j].0 != pairs[i].0
    ensures pairs[i].0 in Inserted(pairs) && Inserted(pairs)[pairs[i].0] == pairs[i].1
  {
    if i < |pairs| - 1 {
      var init := pairs[..|pairs| - 1];
      InsertedLastWins(init, i);
    }
  }

  /** The dictionary never has more entries than pairs were inserted. */
  lemma {:induction false} InsertedSize<V>(pairs: seq<(string, V)>)
    ensures |Inserted(pairs)| <= |pairs|
  {
    if pairs != [] {
      InsertedSize(pairs[..|pairs| - 1]);
    }
  }

  /** Pairs with pairwise distinct keys give exactly one entry each. */
  lemma {:induction false} InsertedSizeDistinct<V>(pairs: seq<(string, V)>)
    requires forall i, j :: 0 <= i < j < |pairs| ==> pairs[i].0 != pairs[j].0
    ensures |Inserted(pairs)| == |pairs|
  {
    if pairs != [] {
      var init := pairs[..|pairs| - 1];
      var last := pairs[|pairs| - 1];
      InsertedSizeDistinct(init);
      InsertedKeys(init, last.0);
      assert last.0 !in Inserted(init) by {
        forall i | 0 <= i < |init| ensures init[i].0 != last.0 {
          assert pairs[i].0 != pairs[|pairs| - 1].0;
        }
      }
    }
  }
}
