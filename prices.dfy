/**
 * The milk-price records and the grouped sums both dashboards build: a
 * dictionary from a key to `{ sum, count }` over the records with a positive
 * price, filled by one pass over the records.
 */
module Prices {
  import opened Sorting

  /** One row of the dataset: `{ data: "dd-mm-yyyy", estado, preco_leite_produtor }`. */
  datatype PriceRecord = PriceRecord(data: string, estado: string, precoLeiteProdutor: real)

  /** `preco_leite_produtor > 0`: a reported price; the rest are left out of every aggregate. */
  predicate IsReported(r: PriceRecord) {
    r.precoLeiteProdutor > 0.0
  }

  /** A dictionary entry `{ sum, count }`. */
  datatype Tally = Tally(sum: real, count: nat)

  /** The left-to-right sum `reduce((sum, x) => sum + x, 0)`. */
  function Sum(xs: seq<real>): real
  {
    if |xs| == 0 then 0.0 else Sum(xs[..|xs| - 1]) + xs[|xs| - 1]
  }

  function Mean(xs: seq<real>): real
    requires |xs| > 0
  {
    Sum(xs) / (|xs| as real)
  }

  /** The reported prices of the records filed under `k`, in record order. */
  function PricesOf<K(==)>(rs: seq<PriceRecord>, key: PriceRecord -> K, k: K): (ps: seq<real>)
    ensures forall x :: x in ps ==> x > 0.0
  {
    if |rs| == 0 then []
    else
      var r := rs[|rs| - 1];
      var ps := PricesOf(rs[..|rs| - 1], key, k);
      if IsReported(r) && key(r) == k then ps + [r.precoLeiteProdutor] else ps
  }

  /**
   * `Object.keys` of the dictionary: the key of every reported record, once,
   * in order of first appearance.
   */
  function GroupKeys<K(==, !new)>(rs: seq<PriceRecord>, key: PriceRecord -> K): (keys: seq<K>)
    ensures Distinct(keys)
    ensures forall k :: k in keys <==> |PricesOf(rs, key, k)| > 0
  {
    if |rs| == 0 then []
    else
      var r := rs[|rs| - 1];
      var ks := GroupKeys(rs[..|rs| - 1], key);
      if IsReported(r) && key(r) !in ks then ks + [key(r)] else ks
  }

  /** The dictionary after the pass: each key's sum and count of reported prices. */
  function GroupTable<K(==, !new)>(rs: seq<PriceRecord>, key: PriceRecord -> K): map<K, Tally>
  {
    map k | k in GroupKeys(rs, key) :: TallyOf(rs, key, k)
  }

  /**
   * The `forEach` pass of the dashboard (once keyed by state, once by year):
   * a reported record opens its key with `{ sum: 0, count: 0 }` when the key
   * is new, then adds its price to the sum and one to the count.
   */
  method AccumulateBy<K(==, !new)>(rs: seq<PriceRecord>, key: PriceRecord -> K) returns (keys: seq<K>, table: map<K, Tally>)
    ensures keys == GroupKeys(rs, key)
    ensures table == GroupTable(rs, key)
  {
    keys, table := [], map[];
    var i := 0;
    FiledEmpty(rs, key);
    while i < |rs|
      invariant 0 <= i <= |rs|
      invariant Filed(keys, table, rs[..i], key)
    {
      FiledStep(keys, table, rs[..i], rs[i], key);
      assert rs[..i + 1] == rs[..i] + [rs[i]];
      keys, table := FileRecord(keys, table, rs[i], key);
      i := i + 1;
    }
    FiledAll(keys, table, rs, key);
  }

  /**
   * The `forEach` callback: a reported record opens its key with
   * `{ sum: 0, count: 0 }` when the key is new, then adds its price to the
   * sum and one to the count.
   */
  method FileRecord<K>(keys: seq<K>, table: map<K, Tally>, r: PriceRecord, key: PriceRecord -> K)
    returns (keys': seq<K>, table': map<K, Tally>)
    ensures keys' == NextKeys(keys, table, r, key)
    ensures table' == NextTable(table, r, key)
  {
    keys', table' := keys, table;
    if r.precoLeiteProdutor > 0.0 {
      var k := key(r);
      var entry := Tally(0.0, 0);
      if k in table {
        entry := table[k];
      } else {
        keys' := keys + [k];
      }
      table' := table[k := Tally(entry.sum + r.precoLeiteProdutor, entry.count + 1)];
    }
  }

  lemma FiledEmpty<K(!new)>(rs: seq<PriceRecord>, key: PriceRecord -> K)
    ensures Filed([], map[], rs[..0], key)
  {
    assert rs[..0] == [];
  }

  lemma FiledAll<K(!new)>(keys: seq<K>, table: map<K, Tally>, rs: seq<PriceRecord>, key: PriceRecord -> K)
    requires Filed(keys, table, rs[..|rs|], key)
    ensures keys == GroupKeys(rs, key) && table == GroupTable(rs, key)
  {
    assert rs[..|rs|] == rs;
    TabulatesGroupTable(table, rs, key);
  }

  /** The keys and the table of the dictionary pass after reading `done`. */
  ghost predicate Filed<K(!new)>(keys: seq<K>, table: map<K, Tally>, done: seq<PriceRecord>, key: PriceRecord -> K)
  {
    keys == GroupKeys(done, key) && Tabulates(table, done, key)
  }

  /** The keys after reading `r`: its key is appended when it is reported and new. */
  function NextKeys<K>(keys: seq<K>, table: map<K, Tally>, r: PriceRecord, key: PriceRecord -> K): seq<K>
  {
    if IsReported(r) && key(r) !in table then keys + [key(r)] else keys
  }

  /** The table after reading `r`. */
  function NextTable<K>(table: map<K, Tally>, r: PriceRecord, key: PriceRecord -> K): map<K, Tally>
  {
    if IsReported(r) then AddPrice(table, key(r), r.precoLeiteProdutor) else table
  }

  /** One step of the dictionary pass keeps the keys and the table in step with the records read. */
  lemma FiledStep<K(!new)>(keys: seq<K>, table: map<K, Tally>, done: seq<PriceRecord>, r: PriceRecord, key: PriceRecord -> K)
    requires Filed(keys, table, done, key)
    ensures Filed(NextKeys(keys, table, r, key), NextTable(table, r, key), done + [r], key)
  {
    KeysSnoc(done, r, key);
    if IsReported(r) {
      TabulatesStep(table, done, r, key);
    } else {
      TabulatesSkip(table, done, r, key);
    }
  }

  /** The entry a key has once `rs` has been read. */
  function TallyOf<K(==)>(rs: seq<PriceRecord>, key: PriceRecord -> K, k: K): Tally
  {
    Tally(Sum(PricesOf(rs, key, k)), |PricesOf(rs, key, k)|)
  }

  /** `table` holds exactly the reported keys of `rs`, each with its entry. */
  ghost predicate Tabulates<K(!new)>(table: map<K, Tally>, rs: seq<PriceRecord>, key: PriceRecord -> K)
  {
    && (forall k :: k in table <==> |PricesOf(rs, key, k)| > 0)
    && (forall k :: k in table ==> table[k] == TallyOf(rs, key, k))
  }

  lemma TabulatesGroupTable<K(!new)>(table: map<K, Tally>, rs: seq<PriceRecord>, key: PriceRecord -> K)
    requires Tabulates(table, rs, key)
    ensures table == GroupTable(rs, key)
  {
  }

  /** Adds one price to a key's entry, opening the entry when the key is new. */
  function AddPrice<K>(table: map<K, Tally>, k: K, p: real): map<K, Tally>
  {
    var entry := if k in table then table[k] else Tally(0.0, 0);
    table[k := Tally(entry.sum + p, entry.count + 1)]
  }

  /** Reading a reported record adds its price under its key. */
  lemma TabulatesStep<K(!new)>(table: map<K, Tally>, rs: seq<PriceRecord>, r: PriceRecord, key: PriceRecord -> K)
    requires Tabulates(table, rs, key)
    requires IsReported(r)
    ensures Tabulates(AddPrice(table, key(r), r.precoLeiteProdutor), rs + [r], key)
  {
    var t := AddPrice(table, key(r), r.precoLeiteProdutor);
    forall k ensures k in t <==> |PricesOf(rs + [r], key, k)| > 0 {
      PricesSnoc(rs, r, key, k);
    }
    forall k | k in t ensures t[k] == TallyOf(rs + [r], key, k) {
      PricesSnoc(rs, r, key, k);
      if k == key(r) {
        SumSnoc(PricesOf(rs, key, k), r.precoLeiteProdutor);
      }
    }
  }

  /** Reading a record without a reported price changes nothing. */
  lemma TabulatesSkip<K(!new)>(table: map<K, Tally>, rs: seq<PriceRecord>, r: PriceRecord, key: PriceRecord -> K)
    requires Tabulates(table, rs, key)
    requires !IsReported(r)
    ensures Tabulates(table, rs + [r], key)
  {
    forall k ensures PricesOf(rs + [r], key, k) == PricesOf(rs, key, k) {
      PricesSnoc(rs, r, key, k);
    }
  }

  lemma SumSnoc(xs: seq<real>, x: real)
    ensures Sum(xs + [x]) == Sum(xs) + x
  {
    assert (xs + [x])[..|xs|] == xs;
  }

  lemma PricesSnoc<K>(rs: seq<PriceRecord>, r: PriceRecord, key: PriceRecord -> K, k: K)
    ensures IsReported(r) && key(r) == k ==> PricesOf(rs + [r], key, k) == PricesOf(rs, key, k) + [r.precoLeiteProdutor]
    ensures !(IsReported(r) && key(r) == k) ==> PricesOf(rs + [r], key, k) == PricesOf(rs, key, k)
  {
    assert (rs + [r])[..|rs|] == rs;
  }

  /** One more record: the keys of `rs + [r]` from those of `rs`. */
  lemma KeysSnoc<K(!new)>(rs: seq<PriceRecord>, r: PriceRecord, key: PriceRecord -> K)
    ensures GroupKeys(rs + [r], key)
         == if IsReported(r) && key(r) !in GroupKeys(rs, key) then GroupKeys(rs, key) + [key(r)] else GroupKeys(rs, key)
  {
    assert (rs + [r])[..|rs|] == rs;
  }

  /** A key has prices exactly when some reported record carries it. */
  lemma {:induction false} PricesOfWitness<K>(rs: seq<PriceRecord>, key: PriceRecord -> K, k: K)
    ensures |PricesOf(rs, key, k)| > 0 <==> exists i :: 0 <= i < |rs| && IsReported(rs[i]) && key(rs[i]) == k
  {
    if |rs| > 0 {
      var init := rs[..|rs| - 1];
      PricesOfWitness(init, key, k);
      if exists i :: 0 <= i < |init| && IsReported(init[i]) && key(init[i]) == k {
        var i :| 0 <= i < |init| && IsReported(init[i]) && key(init[i]) == k;
        assert rs[i] == init[i];
      }
      if exists i :: 0 <= i < |rs| && IsReported(rs[i]) && key(rs[i]) == k {
        var i :| 0 <= i < |rs| && IsReported(rs[i]) && key(rs[i]) == k;
        if i < |init| { assert init[i] == rs[i]; }
      }
    }
  }

  /** Every price filed under `k` is the price of a reported record carrying `k`. */
  lemma {:induction false} PricesOfSound<K>(rs: seq<PriceRecord>, key: PriceRecord -> K, k: K)
    ensures forall x :: x in PricesOf(rs, key, k) ==>
      exists i :: 0 <= i < |rs| && IsReported(rs[i]) && key(rs[i]) == k && rs[i].precoLeiteProdutor == x
  {
    if |rs| > 0 {
      var init := rs[..|rs| - 1];
      PricesOfSound(init, key, k);
      forall x | x in PricesOf(rs, key, k)
        ensures exists i :: 0 <= i < |rs| && IsReported(rs[i]) && key(rs[i]) == k && rs[i].precoLeiteProdutor == x
      {
        if x in PricesOf(init, key, k) {
          var i :| 0 <= i < |init| && IsReported(init[i]) && key(init[i]) == k && init[i].precoLeiteProdutor == x;
          assert rs[i] == init[i];
        } else {
          assert rs[|rs| - 1].precoLeiteProdutor == x;
        }
      }
    }
  }

  /** The price of every reported record is filed under its key. */
  lemma {:induction false} PricesOfComplete<K>(rs: seq<PriceRecord>, key: PriceRecord -> K, i: int)
    requires 0 <= i < |rs| && IsReported(rs[i])
    ensures rs[i].precoLeiteProdutor in PricesOf(rs, key, key(rs[i]))
  {
    var init := rs[..|rs| - 1];
    if i < |init| {
      assert init[i] == rs[i];
      PricesOfComplete(init, key, i);
    }
  }

  /** The indices of the reported records carrying `k`. */
  ghost function FiledIndices<K>(rs: seq<PriceRecord>, key: PriceRecord -> K, k: K): set<int>
  {
    set i | 0 <= i < |rs| && IsReported(rs[i]) && key(rs[i]) == k
  }

  /** A key has one price per reported record that carries it. */
  lemma {:induction false} PricesOfCount<K>(rs: seq<PriceRecord>, key: PriceRecord -> K, k: K)
    ensures |PricesOf(rs, key, k)| == |FiledIndices(rs, key, k)|
  {
    if |rs| > 0 {
      var init, n := rs[..|rs| - 1], |rs| - 1;
      PricesOfCount(init, key, k);
      var before := FiledIndices(init, key, k);
      var after := FiledIndices(rs, key, k);
      assert forall i :: 0 <= i < n ==> init[i] == rs[i];
      if IsReported(rs[n]) && key(rs[n]) == k {
        assert after == before + {n};
      } else {
        assert after == before;
      }
    }
  }

  /** A record without a reported price changes no key's prices, wherever it stands. */
  lemma {:induction false} UnreportedIgnored<K>(a: seq<PriceRecord>, r: PriceRecord, b: seq<PriceRecord>, key: PriceRecord -> K, k: K)
    requires !IsReported(r)
    ensures PricesOf(a + [r] + b, key, k) == PricesOf(a + b, key, k)
  {
    if |b| == 0 {
      assert a + [r] + b == a + [r];
      assert (a + [r])[..|a|] == a;
      assert a + b == a;
    } else {
      var b' := b[..|b| - 1];
      UnreportedIgnored(a, r, b', key, k);
      assert (a + [r] + b)[..|a + [r] + b| - 1] == a + [r] + b';
      assert (a + b)[..|a + b| - 1] == a + b';
    }
  }

  /** A record without a reported price opens no key, wherever it stands. */
  lemma KeysUnreportedIgnored<K(!new)>(a: seq<PriceRecord>, r: PriceRecord, b: seq<PriceRecord>, key: PriceRecord -> K)
    requires !IsReported(r)
    ensures GroupKeys(a + [r] + b, key) == GroupKeys(a + b, key)
  {
    KeysSnoc(a, r, key);
    KeysSameSuffix(a + [r], a, b, key);
  }

  /** Record sequences with the same keys keep the same keys when the same records follow. */
  lemma {:induction false} KeysSameSuffix<K(!new)>(x: seq<PriceRecord>, y: seq<PriceRecord>, b: seq<PriceRecord>, key: PriceRecord -> K)
    requires GroupKeys(x, key) == GroupKeys(y, key)
    ensures GroupKeys(x + b, key) == GroupKeys(y + b, key)
  {
    if |b| == 0 {
      assert x + b == x && y + b == y;
    } else {
      var b', last := b[..|b| - 1], b[|b| - 1];
      KeysSameSuffix(x, y, b', key);
      assert b == b' + [last];
      assert x + b == (x + b') + [last];
      assert y + b == (y + b') + [last];
      KeysSnocCongruent(x + b', y + b', last, key);
    }
  }

  /** Record sequences with the same keys still have the same keys after one more record. */
  lemma KeysSnocCongruent<K(!new)>(x: seq<PriceRecord>, y: seq<PriceRecord>, r: PriceRecord, key: PriceRecord -> K)
    requires GroupKeys(x, key) == GroupKeys(y, key)
    ensures GroupKeys(x + [r], key) == GroupKeys(y + [r], key)
  {
    KeysSnoc(x, r, key);
    KeysSnoc(y, r, key);
  }

  /** A record without a reported price changes neither the keys nor any sum or count. */
  lemma TableUnreportedIgnored<K(!new)>(a: seq<PriceRecord>, r: PriceRecord, b: seq<PriceRecord>, key: PriceRecord -> K)
    requires !IsReported(r)
    ensures GroupTable(a + [r] + b, key) == GroupTable(a + b, key)
  {
    forall k ensures PricesOf(a + [r] + b, key, k) == PricesOf(a + b, key, k) {
      UnreportedIgnored(a, r, b, key, k);
    }
    var t := GroupTable(a + b, key);
    assert Tabulates(t, a + [r] + b, key);
    TabulatesGroupTable(t, a + [r] + b, key);
  }

  /** Two keyings that file the same reported records under `k1` and `k2` give the same prices. */
  lemma {:induction false} PricesOfTransfer<K, L>(rs: seq<PriceRecord>, key1: PriceRecord -> K, k1: K, key2: PriceRecord -> L, k2: L)
    requires forall i :: 0 <= i < |rs| && IsReported(rs[i]) ==> (key1(rs[i]) == k1 <==> key2(rs[i]) == k2)
    ensures PricesOf(rs, key1, k1) == PricesOf(rs, key2, k2)
  {
    if |rs| > 0 {
      var init := rs[..|rs| - 1];
      forall i | 0 <= i < |init| && IsReported(init[i]) ensures key1(init[i]) == k1 <==> key2(init[i]) == k2 {
        assert init[i] == rs[i];
      }
      PricesOfTransfer(init, key1, k1, key2, k2);
    }
  }

  lemma {:induction false} SumBounds(xs: seq<real>, lo: real, hi: real)
    requires forall x :: x in xs ==> lo <= x <= hi
    ensures (|xs| as real) * lo <= Sum(xs) <= (|xs| as real) * hi
  {
    if |xs| > 0 {
      var init := xs[..|xs| - 1];
      forall x | x in init ensures lo <= x <= hi { assert x in xs; }
      var last := xs[|xs| - 1];
      SumBounds(init, lo, hi);
      assert last in xs;
      var n := |init| as real;
      assert Sum(xs) == Sum(init) + last;
      assert |xs| as real == n + 1.0;
      assert (n + 1.0) * lo == n * lo + lo && (n + 1.0) * hi == n * hi + hi;
    }
  }

  /** A mean lies between any bounds of its values. */
  lemma MeanBounds(xs: seq<real>, lo: real, hi: real)
    requires |xs| > 0
    requires forall x :: x in xs ==> lo <= x <= hi
    ensures lo <= Mean(xs) <= hi
  {
    SumBounds(xs, lo, hi);
    var n := |xs| as real;
    assert Mean(xs) * n == Sum(xs);
  }

  lemma {:induction false} SumPositive(xs: seq<real>)
    requires |xs| > 0
    requires forall x :: x in xs ==> x > 0.0
    ensures Sum(xs) > 0.0
  {
    var init := xs[..|xs| - 1];
    assert xs[|xs| - 1] in xs;
    if |init| > 0 {
      forall x | x in init ensures x > 0.0 { assert x in xs; }
      SumPositive(init);
    }
  }

  /** The mean of reported prices is itself a positive price. */
  lemma MeanPositive(xs: seq<real>)
    requires |xs| > 0
    requires forall x :: x in xs ==> x > 0.0
    ensures Mean(xs) > 0.0
  {
    SumPositive(xs);
  }
}
