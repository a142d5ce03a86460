/** The deduplication step of `HCBClient.getTotalDisbursementsFromHQ`
    (src/clients/hcb.js): every transaction is `set` into a JS `Map` keyed
    by `id`, and the map's values are read back. A JS `Map` keeps its keys
    in order of first insertion and `set` on an existing key replaces the
    value in place, so the result lists each id once, in order of first
    occurrence, with the value of its last occurrence. */
module HcbDedup {
  import opened HcbTransactions

  predicate HasId(txs: seq<Transaction>, id: TxId)
  {
    exists k :: 0 <= k < |txs| && txs[k].id == id
  }

  predicate DistinctIds(txs: seq<Transaction>)
  {
    forall i, j :: 0 <= i < j < |txs| ==> txs[i].id != txs[j].id
  }

  /** The ids of `txs`, each once, in order of first occurrence. */
  function FirstIds(txs: seq<Transaction>): (ids: seq<TxId>)
    ensures forall id :: id in ids <==> HasId(txs, id)
    ensures forall i, j :: 0 <= i < j < |ids| ==> ids[i] != ids[j]
    decreases |txs|
  {
    if txs == [] then []
    else
      var init := txs[..|txs| - 1];
      var ids := FirstIds(init);
      var id := txs[|txs| - 1].id;
      assert forall x :: HasId(txs, x) <==> HasId(init, x) || x == id by {
        forall x ensures HasId(txs, x) <==> HasId(init, x) || x == id {
          if HasId(init, x) {
            var k :| 0 <= k < |init| && init[k].id == x;
            assert txs[k].id == x;
          }
        }
      }
      if id in ids then ids else ids + [id]
  }

  /** Index of the last transaction with the given id. */
  function LastIndex(txs: seq<Transaction>, id: TxId): (k: nat)
    requires HasId(txs, id)
    ensures k < |txs| && txs[k].id == id
    ensures forall j :: k < j < |txs| ==> txs[j].id != id
    decreases |txs|
  {
    if txs[|txs| - 1].id == id then |txs| - 1
    else
      var init := txs[..|txs| - 1];
      var k :| 0 <= k < |txs| && txs[k].id == id;
      assert init[k].id == id;
      LastIndex(init, id)
  }

  /** Index of the first transaction with the given id. */
  function FirstIndex(txs: seq<Transaction>, id: TxId): (k: nat)
    requires HasId(txs, id)
    ensures k < |txs| && txs[k].id == id
    ensures forall j :: 0 <= j < k ==> txs[j].id != id
    decreases |txs|
  {
    if txs[0].id == id then 0
    else
      var k :| 0 <= k < |txs| && txs[k].id == id;
      assert txs[1..][k - 1].id == id;
      1 + FirstIndex(txs[1..], id)
  }

  /** An id's first occurrence is the same in any prefix that holds it. */
  lemma FirstIndexPrefix(txs: seq<Transaction>, n: nat, id: TxId)
    requires n <= |txs| && HasId(txs[..n], id)
    ensures HasId(txs, id) && FirstIndex(txs, id) == FirstIndex(txs[..n], id)
  {
    var a := FirstIndex(txs[..n], id);
    assert txs[a].id == id;
    var b := FirstIndex(txs, id);
    assert forall j :: 0 <= j < a ==> txs[j] == txs[..n][j];
  }

  /** `ids` are ids of `txs` listed in order of their first occurrence. */
  predicate IdsInFirstOrder(txs: seq<Transaction>, ids: seq<TxId>)
  {
    forall i, j :: 0 <= i < j < |ids| ==>
      HasId(txs, ids[i]) && HasId(txs, ids[j]) && FirstIndex(txs, ids[i]) < FirstIndex(txs, ids[j])
  }

  /** Appending a transaction keeps the first occurrences of the ids seen
      so far, and a new id comes after all of them. */
  lemma FirstOrderStep(txs: seq<Transaction>, ids0: seq<TxId>)
    requires txs != []
    requires IdsInFirstOrder(txs[..|txs| - 1], ids0)
    requires forall x :: x in ids0 <==> HasId(txs[..|txs| - 1], x)
    ensures IdsInFirstOrder(txs, ids0)
    ensures txs[|txs| - 1].id !in ids0 ==> IdsInFirstOrder(txs, ids0 + [txs[|txs| - 1].id])
  {
    var n := |txs| - 1;
    var init := txs[..n];
    forall x | x in ids0 ensures HasId(txs, x) && FirstIndex(txs, x) == FirstIndex(init, x) < n {
      FirstIndexPrefix(txs, n, x);
    }
    var id := txs[n].id;
    if id !in ids0 {
      assert HasId(txs, id);
      assert forall j :: 0 <= j < n ==> txs[j] == init[j];
      assert FirstIndex(txs, id) == n;
      var ids := ids0 + [id];
      forall i, j | 0 <= i < j < |ids|
        ensures HasId(txs, ids[i]) && HasId(txs, ids[j]) && FirstIndex(txs, ids[i]) < FirstIndex(txs, ids[j])
      {
        assert ids[i] == ids0[i] && ids0[i] in ids0;
        if j < |ids0| {
          assert ids[j] == ids0[j] && ids0[j] in ids0;
        }
      }
    }
  }

  /** The map's keys are in order of first occurrence. */
  lemma {:induction false} FirstIdsOrder(txs: seq<Transaction>)
    ensures IdsInFirstOrder(txs, FirstIds(txs))
    decreases |txs|
  {
    if txs != [] {
      var init := txs[..|txs| - 1];
      FirstIdsOrder(init);
      FirstOrderStep(txs, FirstIds(init));
    }
  }

  /** The deduplicated transactions: one per id, in order of first
      occurrence, each the last occurrence of its id. */
  function Dedup(txs: seq<Transaction>): (r: seq<Transaction>)
  {
    var ids := FirstIds(txs);
    seq(|ids|, k requires 0 <= k < |ids| => txs[LastIndex(txs, ids[k])])
  }

  /** The result has pairwise-distinct ids, holds exactly the ids of the
      input, lists them in order of first occurrence, and keeps for each
      id its last occurrence in the input. */
  lemma DedupSpec(txs: seq<Transaction>)
    ensures DistinctIds(Dedup(txs))
    ensures forall id :: HasId(Dedup(txs), id) <==> HasId(txs, id)
    ensures forall k :: 0 <= k < |Dedup(txs)| ==> Dedup(txs)[k].id == FirstIds(txs)[k]
    ensures IdsInFirstOrder(txs, FirstIds(txs))
    ensures forall k :: 0 <= k < |Dedup(txs)| ==>
      var last := LastIndex(txs, Dedup(txs)[k].id);
      Dedup(txs)[k] == txs[last]
    ensures |Dedup(txs)| <= |txs|
  {
    var r := Dedup(txs);
    var ids := FirstIds(txs);
    forall id ensures HasId(r, id) <==> HasId(txs, id) {
      if HasId(txs, id) {
        var k :| 0 <= k < |ids| && ids[k] == id;
        assert r[k].id == id;
      }
    }
    DistinctIdsBound(txs);
    FirstIdsOrder(txs);
  }

  /** There are no more distinct ids than transactions. */
  lemma {:induction false} DistinctIdsBound(txs: seq<Transaction>)
    ensures |FirstIds(txs)| <= |txs|
    decreases |txs|
  {
    if txs != [] {
      DistinctIdsBound(txs[..|txs| - 1]);
    }
  }

  /** Transactions with distinct ids are their own deduplication. */
  lemma {:induction false} DedupOfDistinct(ys: seq<Transaction>)
    requires DistinctIds(ys)
    ensures Dedup(ys) == ys
  {
    FirstIdsOfDistinct(ys);
    forall k | 0 <= k < |ys| ensures LastIndex(ys, ys[k].id) == k {
      var l := LastIndex(ys, ys[k].id);
      assert !(k < l) && !(l < k);
    }
  }

  lemma {:induction false} FirstIdsOfDistinct(ys: seq<Transaction>)
    requires DistinctIds(ys)
    ensures FirstIds(ys) == seq(|ys|, k requires 0 <= k < |ys| => ys[k].id)
    decreases |ys|
  {
    if ys != [] {
      var init := ys[..|ys| - 1];
      FirstIdsOfDistinct(init);
      assert ys[|ys| - 1].id !in FirstIds(init);
    }
  }

  /** Deduplication is idempotent. */
  lemma DedupIdempotent(txs: seq<Transaction>)
    ensures Dedup(Dedup(txs)) == Dedup(txs)
  {
    DedupSpec(txs);
    DedupOfDistinct(Dedup(txs));
  }

  /** Appending transactions whose ids all occur already does not change
      the key order. */
  lemma {:induction false} FirstIdsOfKnown(p: seq<Transaction>, q: seq<Transaction>)
    requires forall k :: 0 <= k < |q| ==> HasId(p, q[k].id)
    ensures FirstIds(p + q) == FirstIds(p)
    decreases |q|
  {
    if q == [] {
      assert p + q == p;
    } else {
      var q' := q[..|q| - 1];
      assert (p + q)[..|p + q| - 1] == p + q';
      FirstIdsOfKnown(p, q');
    }
  }

  /** Reading the same transactions twice (two overlapping pages that
      return the same records) gives the same deduplicated result as
      reading them once. */
  lemma DedupDoubled(xs: seq<Transaction>)
    ensures Dedup(xs + xs) == Dedup(xs)
  {
    forall k | 0 <= k < |xs| ensures HasId(xs, xs[k].id) { }
    FirstIdsOfKnown(xs, xs);
    var ids := FirstIds(xs);
    forall k | 0 <= k < |ids|
      ensures (xs + xs)[LastIndex(xs + xs, ids[k])] == xs[LastIndex(xs, ids[k])]
    {
      var id := ids[k];
      var j := LastIndex(xs, id);
      var l := LastIndex(xs + xs, id);
      assert (xs + xs)[|xs| + j].id == id;
      assert !(l < |xs| + j);
      assert l == |xs| + j;
    }
  }

  /** Extending a prefix by one transaction: its id is appended unless
      already seen, it becomes its id's last occurrence, and every other
      id keeps its last occurrence. */
  lemma PrefixStep(txs: seq<Transaction>, i: nat)
    requires i < |txs|
    ensures txs[..i + 1][..i] == txs[..i]
    ensures FirstIds(txs[..i + 1]) ==
      if txs[i].id in FirstIds(txs[..i]) then FirstIds(txs[..i]) else FirstIds(txs[..i]) + [txs[i].id]
    ensures HasId(txs[..i + 1], txs[i].id) && LastIndex(txs[..i + 1], txs[i].id) == i
    ensures forall id :: id in FirstIds(txs[..i]) && id != txs[i].id ==>
      HasId(txs[..i + 1], id) && LastIndex(txs[..i + 1], id) == LastIndex(txs[..i], id)
  {
    var p := txs[..i];
    var q := txs[..i + 1];
    assert q[..i] == p;
    assert q[i] == txs[i];
    forall id | id in FirstIds(p) && id != txs[i].id
      ensures HasId(q, id) && LastIndex(q, id) == LastIndex(p, id)
    {
      var k := LastIndex(p, id);
      assert q[k] == p[k];
    }
  }

  /** `txMap = new Map(); for (tx of transactions) txMap.set(tx.id, tx);
      Array.from(txMap.values())`, with the map's key order kept in
      `keys`. */
  method Deduplicate(transactions: seq<Transaction>) returns (unique: seq<Transaction>)
    ensures unique == Dedup(transactions)
  {
    var keys: seq<TxId> := [];
    var txMap: map<TxId, Transaction> := map[];
    for i := 0 to |transactions|
      invariant keys == FirstIds(transactions[..i])
      invariant forall id :: id in txMap <==> id in keys
      invariant forall id :: id in keys ==>
        txMap[id] == transactions[LastIndex(transactions[..i], id)]
    {
      var tx := transactions[i];
      PrefixStep(transactions, i);
      if tx.id !in txMap {
        keys := keys + [tx.id];
      }
      txMap := txMap[tx.id := tx];
    }
    assert transactions[..|transactions|] == transactions;
    unique := seq(|keys|, k requires 0 <= k < |keys| => txMap[keys[k]]);
  }
}
