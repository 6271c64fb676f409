/** The two Python built-ins behind the `probabilities` field of a prediction:
    `zip` and a dict built by a comprehension. A dict is kept as its entries in
    insertion order, which is the order Python iterates and serializes it in. */
module PyDict {
  import opened Wrappers

  /** `zip(a, b)`: pairs by position, stopping at the end of the shorter one. */
  function Zip<A, B>(a: seq<A>, b: seq<B>): (z: seq<(A, B)>)
    ensures |z| == if |a| < |b| then |a| else |b|
    ensures forall i :: 0 <= i < |z| ==> z[i] == (a[i], b[i])
  {
    if |a| == 0 || |b| == 0 then [] else [(a[0], b[0])] + Zip(a[1..], b[1..])
  }

  /** The keys of a dict, in insertion order (`list(d)`). */
  function Keys<K, V>(d: seq<(K, V)>): (ks: seq<K>)
    ensures |ks| == |d| && forall i :: 0 <= i < |d| ==> ks[i] == d[i].0
  {
    seq(|d|, i requires 0 <= i < |d| => d[i].0)
  }

  /** No key occurs twice: true of every Python dict. */
  predicate Distinct<K(==)>(ks: seq<K>) {
    forall i, j :: 0 <= i < j < |ks| ==> ks[i] != ks[j]
  }

  /** `d.get(k)`. */
  function Get<K(==), V>(d: seq<(K, V)>, k: K): (r: Option<V>)
    ensures r.Some? <==> k in Keys(d)
    ensures Distinct(Keys(d)) ==> forall i :: 0 <= i < |d| && d[i].0 == k ==> r == Some(d[i].1)
  {
    if |d| == 0 then None
    else if d[0].0 == k then Some(d[0].1)
    else
      var r := Get(d[1..], k);
      assert Keys(d) == [d[0].0] + Keys(d[1..]);
      r
  }

  /** `d[k] = v`: a new key goes to the end, an existing key keeps its place. */
  function Put<K(==), V>(d: seq<(K, V)>, k: K, v: V): (r: seq<(K, V)>)
    ensures k in Keys(d) ==> Keys(r) == Keys(d)
    ensures k !in Keys(d) ==> r == d + [(k, v)]
  {
    if |d| == 0 then [(k, v)]
    else if d[0].0 == k then
      assert Keys([(k, v)] + d[1..]) == Keys(d);
      [(k, v)] + d[1..]
    else
      var rest := Put(d[1..], k, v);
      assert Keys(d) == [d[0].0] + Keys(d[1..]);
      assert Keys([d[0]] + rest) == [d[0].0] + Keys(rest);
      [d[0]] + rest
  }

  /** After `d[k] = v`, `d[k]` is v and every other key reads as before. */
  lemma {:induction false} PutGet<K, V>(d: seq<(K, V)>, k: K, v: V, k': K)
    ensures Get(Put(d, k, v), k') == if k' == k then Some(v) else Get(d, k')
  {
    if |d| > 0 && d[0].0 != k {
      PutGet(d[1..], k, v, k');
      assert Put(d, k, v)[1..] == Put(d[1..], k, v);
    }
  }

  /** `{k: v for k, v in pairs}`: entries inserted left to right. */
  function FromPairs<K(==), V>(pairs: seq<(K, V)>): (d: seq<(K, V)>)
    ensures Distinct(Keys(d))
    ensures forall i :: 0 <= i < |pairs| ==> pairs[i].0 in Keys(d)
    ensures forall i :: 0 <= i < |d| ==> d[i].0 in Keys(pairs)
  {
    if |pairs| == 0 then []
    else
      var init, last := pairs[..|pairs| - 1], pairs[|pairs| - 1];
      var prev := FromPairs(init);
      PutKeys(prev, last.0, last.1);
      DistinctAppend(Keys(prev), last.0);
      assert Keys(pairs) == Keys(init) + [last.0];
      Put(prev, last.0, last.1)
  }

  /** The keys after `d[k] = v`: unchanged for a present key, k appended otherwise. */
  lemma PutKeys<K, V>(d: seq<(K, V)>, k: K, v: V)
    ensures Keys(Put(d, k, v)) == if k in Keys(d) then Keys(d) else Keys(d) + [k]
  {
    if k !in Keys(d) {
      assert Keys(d + [(k, v)]) == Keys(d) + [k];
    }
  }

  /** Appending a new key keeps the keys distinct. */
  lemma DistinctAppend<K>(ks: seq<K>, k: K)
    requires Distinct(ks)
    ensures k !in ks ==> Distinct(ks + [k])
  {
    var r := ks + [k];
    if k !in ks {
      forall i, j | 0 <= i < j < |r| ensures r[i] != r[j] {
        if j == |ks| {
          assert r[i] == ks[i];
        }
      }
    }
  }

  /** The keys of `{k: v for k, v in zip(ks, vs)}` are exactly the keys that
      `zip` pairs with a value: every one of them, and none past the shorter. */
  lemma FromZipKeys<K, V>(ks: seq<K>, vs: seq<V>)
    ensures var d := FromPairs(Zip(ks, vs));
      && (forall i :: 0 <= i < |d| ==> exists j :: 0 <= j < |ks| && j < |vs| && ks[j] == d[i].0)
      && (forall j :: 0 <= j < |ks| && j < |vs| ==> ks[j] in Keys(d))
  {
    var z := Zip(ks, vs);
    var d := FromPairs(z);
    forall i | 0 <= i < |d| ensures exists j :: 0 <= j < |ks| && j < |vs| && ks[j] == d[i].0 {
      var j :| 0 <= j < |z| && Keys(z)[j] == d[i].0;
      assert z[j] == (ks[j], vs[j]);
    }
    forall j | 0 <= j < |ks| && j < |vs| ensures ks[j] in Keys(d) {
      assert z[j].0 == ks[j];
    }
  }

  /** Dropping the last of distinct keys leaves distinct keys without it. */
  lemma DistinctDropLast<K>(ks: seq<K>)
    requires |ks| > 0 && Distinct(ks)
    ensures Distinct(ks[..|ks| - 1]) && ks[|ks| - 1] !in ks[..|ks| - 1]
  {
    var init := ks[..|ks| - 1];
    forall j | 0 <= j < |init| ensures init[j] != ks[|ks| - 1] {
      assert ks[j] != ks[|ks| - 1];
    }
  }

  /** With distinct keys the comprehension keeps every pair, in order. */
  lemma {:induction false} FromPairsOfDistinct<K, V>(pairs: seq<(K, V)>)
    requires Distinct(Keys(pairs))
    ensures FromPairs(pairs) == pairs
  {
    if |pairs| > 0 {
      var init := pairs[..|pairs| - 1];
      var last := pairs[|pairs| - 1];
      assert Keys(init) == Keys(pairs)[..|pairs| - 1];
      DistinctDropLast(Keys(pairs));
      FromPairsOfDistinct(init);
      assert FromPairs(pairs) == Put(init, last.0, last.1);
      assert pairs == init + [last];
    }
  }

  /** For a repeated key the comprehension keeps the value of its last pair. */
  lemma {:induction false} FromPairsLastWins<K, V>(pairs: seq<(K, V)>, i: nat)
    requires i < |pairs|
    requires forall j :: i < j < |pairs| ==> pairs[j].0 != pairs[i].0
    ensures Get(FromPairs(pairs), pairs[i].0) == Some(pairs[i].1)
  {
    var init := pairs[..|pairs| - 1];
    var last := pairs[|pairs| - 1];
    PutGet(FromPairs(init), last.0, last.1, pairs[i].0);
    if i < |pairs| - 1 {
      FromPairsLastWins(init, i);
    }
  }
}
