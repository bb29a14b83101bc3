/** Value conservation: committing a valid transaction whose hash keys no coin
    of the pool lowers the total value held in the pool by exactly its fee
    (inputs minus outputs); over a pool of non-negative coins any commit, and
    so any epoch, never creates value. */
module Conservation {
  import opened Ledger
  import opened Rules
  import opened Settlement

  /** The total value of the coins in the pool. */
  ghost function PoolValue(pool: Pool): real
    decreases |pool|
  {
    if pool == map[] then 0.0
    else
      var k :| k in pool;
      pool[k].value + PoolValue(pool - {k})
  }

  /** The total splits off any one coin of the pool. */
  lemma {:induction false} PoolValueRemove(pool: Pool, k: UTXO)
    requires k in pool
    ensures PoolValue(pool) == pool[k].value + PoolValue(pool - {k})
    decreases |pool|
  {
    var k' :| k' in pool && PoolValue(pool) == pool[k'].value + PoolValue(pool - {k'});
    if k' != k {
      PoolValueRemove(pool - {k'}, k);
      PoolValueRemove(pool - {k}, k');
      assert pool - {k'} - {k} == pool - {k} - {k'};
    }
  }

  /** Adding a coin under a new identifier adds its value to the total. */
  lemma PoolValueAdd(pool: Pool, k: UTXO, o: Output)
    requires k !in pool
    ensures PoolValue(pool[k := o]) == PoolValue(pool) + o.value
  {
    PoolValueRemove(pool[k := o], k);
    assert pool[k := o] - {k} == pool;
  }

  /** Removing distinct claims, all in the pool, lowers the total by the
      value they claim. */
  lemma {:induction false} RemoveAllValue(pool: Pool, ins: seq<Input>)
    requires InPool(pool, ins) && ClaimsDistinct(ins)
    ensures PoolValue(RemoveAll(pool, ins)) == PoolValue(pool) - InputSum(pool, ins)
    decreases |ins|
  {
    if ins != [] {
      var n := |ins| - 1;
      var u := InputUtxo(ins[n]);
      RemoveAllValue(pool, ins[..n]);
      RemoveAllIsDifference(pool, ins[..n]);
      assert u !in ClaimSet(ins[..n]);
      PoolValueRemove(RemoveAll(pool, ins[..n]), u);
    }
  }

  /** Adding the outputs of a transaction whose hash keys no coin of the pool
      raises the total by the outputs' value. */
  lemma {:induction false} AddAllValue(pool: Pool, h: Bytes, outs: seq<Output>)
    requires forall k :: k in pool ==> k.txHash != h
    ensures PoolValue(AddAll(pool, h, outs)) == PoolValue(pool) + OutputSum(outs)
    decreases |outs|
  {
    if outs != [] {
      var n := |outs| - 1;
      AddAllValue(pool, h, outs[..n]);
      AddAllIsUnion(pool, h, outs[..n]);
      PoolValueAdd(AddAll(pool, h, outs[..n]), UTXO(h, n), outs[n]);
    }
  }

  /** Committing a valid transaction whose hash keys no coin of the pool
      lowers the total by exactly its fee, which is never negative. */
  lemma CommitValue(pool: Pool, crypto: Crypto, tx: Transaction)
    requires IsValid(pool, crypto, tx)
    requires forall k :: k in pool ==> k.txHash != tx.hash
    ensures PoolValue(Commit(pool, tx))
            == PoolValue(pool) - (InputSum(pool, tx.inputs) - OutputSum(tx.outputs))
    ensures PoolValue(Commit(pool, tx)) <= PoolValue(pool)
  {
    DoubleSpendingIffRepeated(pool, tx);
    RemoveAllValue(pool, tx.inputs);
    RemoveAllIsDifference(pool, tx.inputs);
    AddAllValue(RemoveAll(pool, tx.inputs), tx.hash, tx.outputs);
  }

  /** Every coin of the pool holds a non-negative value. */
  ghost predicate NonNegativePool(pool: Pool)
  {
    forall k :: k in pool ==> pool[k].value >= 0.0
  }

  /** Storing a coin under any identifier of a non-negative pool raises the
      total by at most the coin's value: an overwrite only discards the coin
      it replaces. */
  lemma PoolValueUpdate(pool: Pool, k: UTXO, o: Output)
    requires NonNegativePool(pool)
    ensures PoolValue(pool[k := o]) <= PoolValue(pool) + o.value
  {
    if k in pool {
      PoolValueRemove(pool, k);
      assert pool[k := o] == (pool - {k})[k := o];
      PoolValueAdd(pool - {k}, k, o);
    } else {
      PoolValueAdd(pool, k, o);
    }
  }

  /** Adding non-negative outputs under any hash keeps the pool non-negative
      and raises its total by at most the outputs' value. */
  lemma {:induction false} AddAllAtMost(pool: Pool, h: Bytes, outs: seq<Output>)
    requires NonNegativePool(pool)
    requires forall j :: 0 <= j < |outs| ==> outs[j].value >= 0.0
    ensures NonNegativePool(AddAll(pool, h, outs))
    ensures PoolValue(AddAll(pool, h, outs)) <= PoolValue(pool) + OutputSum(outs)
    decreases |outs|
  {
    if outs != [] {
      var n := |outs| - 1;
      AddAllAtMost(pool, h, outs[..n]);
      PoolValueUpdate(AddAll(pool, h, outs[..n]), UTXO(h, n), outs[n]);
    }
  }

  /** Committing a valid transaction to a non-negative pool, whatever its
      hash, keeps the pool non-negative and never raises its total. */
  lemma CommitCreatesNoValue(pool: Pool, crypto: Crypto, tx: Transaction)
    requires NonNegativePool(pool) && IsValid(pool, crypto, tx)
    ensures NonNegativePool(Commit(pool, tx))
    ensures PoolValue(Commit(pool, tx)) <= PoolValue(pool)
  {
    DoubleSpendingIffRepeated(pool, tx);
    RemoveAllValue(pool, tx.inputs);
    RemoveAllIsDifference(pool, tx.inputs);
    AddAllAtMost(RemoveAll(pool, tx.inputs), tx.hash, tx.outputs);
  }

  /** Any candidate, accepted or skipped, leaves a non-negative pool
      non-negative and never raises its total. */
  lemma StepValue(e: Epoch, crypto: Crypto, tx: Transaction)
    requires NonNegativePool(e.pool)
    ensures NonNegativePool(Step(e, crypto, tx).pool)
    ensures PoolValue(Step(e, crypto, tx).pool) <= PoolValue(e.pool)
  {
    if IsValid(e.pool, crypto, tx) {
      CommitCreatesNoValue(e.pool, crypto, tx);
    }
  }

  /** Starting from a pool of non-negative coins, an epoch never raises the
      total value of the pool, whatever the batch. */
  lemma {:induction false} EpochCreatesNoValue(pool0: Pool, crypto: Crypto, txs: seq<Transaction>)
    requires NonNegativePool(pool0)
    ensures NonNegativePool(Settle(pool0, crypto, txs).pool)
    ensures PoolValue(Settle(pool0, crypto, txs).pool) <= PoolValue(pool0)
    decreases |txs|
  {
    if txs != [] {
      var n := |txs| - 1;
      EpochCreatesNoValue(pool0, crypto, txs[..n]);
      StepValue(Settle(pool0, crypto, txs[..n]), crypto, txs[n]);
    }
  }

  /** Without non-negative coins the bound fails: a valid transaction with no
      inputs and one zero output, whose hash keys a coin worth -5, overwrites
      that coin and raises the total from -5 to 0. */
  lemma NegativeCoinOverwritten(crypto: Crypto)
    ensures var u := UTXO([1], 0);
            var pool := map[u := Output(-5.0, [])];
            var tx := Transaction([1], [], [Output(0.0, [])]);
            IsValid(pool, crypto, tx) && PoolValue(Commit(pool, tx)) > PoolValue(pool)
  {
    var u := UTXO([1], 0);
    var pool := map[u := Output(-5.0, [])];
    var tx := Transaction([1], [], [Output(0.0, [])]);
    var outs := tx.outputs;
    assert outs[..0] == [];
    assert RemoveAll(pool, tx.inputs) == pool;
    assert Commit(pool, tx) == map[u := Output(0.0, [])];
    PoolValueRemove(pool, u);
    assert pool - {u} == map[];
    PoolValueRemove(map[u := Output(0.0, [])], u);
    assert map[u := Output(0.0, [])] - {u} == map[];
  }
}
