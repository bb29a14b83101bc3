/** One epoch of settlement as a pure function: the batch is read once, in the
    order supplied; each transaction is checked against the pool as it stands
    at that moment and, when valid, committed at once (its claims removed, its
    outputs added) and appended to the accepted list. */
module Settlement {
  import opened Ledger
  import opened Rules

  /** The pool after removing, first to last, the identifier each input claims. */
  function RemoveAll(pool: Pool, ins: seq<Input>): Pool
    decreases |ins|
  {
    if ins == [] then pool
    else RemoveAll(pool, ins[..|ins| - 1]) - {InputUtxo(ins[|ins| - 1])}
  }

  /** The pool after adding, first to last, output `j` under `(h, j)`. */
  function AddAll(pool: Pool, h: Bytes, outs: seq<Output>): Pool
    decreases |outs|
  {
    if outs == [] then pool
    else AddAll(pool, h, outs[..|outs| - 1])[UTXO(h, |outs| - 1) := outs[|outs| - 1]]
  }

  /** Committing a transaction: its claims leave the pool, then its outputs enter it. */
  function Commit(pool: Pool, tx: Transaction): Pool
  {
    AddAll(RemoveAll(pool, tx.inputs), tx.hash, tx.outputs)
  }

  /** The state of an epoch: the live pool and the transactions accepted so far. */
  datatype Epoch = Epoch(pool: Pool, accepted: seq<Transaction>)

  /** Processing one candidate: commit it if it is valid now, skip it otherwise. */
  function Step(e: Epoch, crypto: Crypto, tx: Transaction): Epoch
  {
    if IsValid(e.pool, crypto, tx) then Epoch(Commit(e.pool, tx), e.accepted + [tx]) else e
  }

  /** The epoch after processing `txs` in order, starting from `pool`. */
  function Settle(pool: Pool, crypto: Crypto, txs: seq<Transaction>): Epoch
    decreases |txs|
  {
    if txs == [] then Epoch(pool, [])
    else Step(Settle(pool, crypto, txs[..|txs| - 1]), crypto, txs[|txs| - 1])
  }

  /** The positions in `txs` of the transactions the epoch accepts. */
  ghost function Positions(pool: Pool, crypto: Crypto, txs: seq<Transaction>): seq<nat>
    decreases |txs|
  {
    if txs == [] then []
    else
      var n := |txs| - 1;
      Positions(pool, crypto, txs[..n])
        + (if IsValid(Settle(pool, crypto, txs[..n]).pool, crypto, txs[n]) then [n] else [])
  }

  /** Removing the claims one at a time removes exactly the set of claims. */
  lemma {:induction false} RemoveAllIsDifference(pool: Pool, ins: seq<Input>)
    ensures RemoveAll(pool, ins) == pool - ClaimSet(ins)
    decreases |ins|
  {
    if ins != [] {
      var n := |ins| - 1;
      RemoveAllIsDifference(pool, ins[..n]);
      assert ins == ins[..n] + [ins[n]];
      assert ClaimSet(ins) == ClaimSet(ins[..n]) + {InputUtxo(ins[n])};
    }
  }

  /** Adding the outputs one at a time adds exactly the produced coins. */
  lemma {:induction false} AddAllIsUnion(pool: Pool, h: Bytes, outs: seq<Output>)
    ensures AddAll(pool, h, outs) == pool + ProducedAt(h, outs)
    decreases |outs|
  {
    if outs != [] {
      var n := |outs| - 1;
      AddAllIsUnion(pool, h, outs[..n]);
      ProducedAtLast(h, outs);
    }
  }

  /** The coins of `outs` are those of all but the last, plus the last one. */
  lemma ProducedAtLast(h: Bytes, outs: seq<Output>)
    requires outs != []
    ensures ProducedAt(h, outs) == ProducedAt(h, outs[..|outs| - 1])[UTXO(h, |outs| - 1) := outs[|outs| - 1]]
  {
  }

  /** The pool after a commit is the old pool, minus the consumed identifiers,
      plus one coin per output keyed by `(tx.hash, j)`. */
  lemma CommitClosedForm(pool: Pool, tx: Transaction)
    ensures Commit(pool, tx) == (pool - ConsumedSet(tx)) + Produced(tx)
  {
    RemoveAllIsDifference(pool, tx.inputs);
    AddAllIsUnion(RemoveAll(pool, tx.inputs), tx.hash, tx.outputs);
  }

  /** The epoch after the first `i + 1` candidates is the epoch after the first
      `i`, with candidate `i` committed if it is valid against the live pool
      and skipped otherwise. */
  lemma CommitPoint(pool: Pool, crypto: Crypto, txs: seq<Transaction>, i: int)
    requires 0 <= i < |txs|
    ensures var before := Settle(pool, crypto, txs[..i]);
            var after := Settle(pool, crypto, txs[..i + 1]);
            if IsValid(before.pool, crypto, txs[i]) then
              && after.pool == (before.pool - ConsumedSet(txs[i])) + Produced(txs[i])
              && after.accepted == before.accepted + [txs[i]]
            else after == before
  {
    assert txs[..i + 1][..i] == txs[..i];
    CommitClosedForm(Settle(pool, crypto, txs[..i]).pool, txs[i]);
  }

  /** The accepted list is a subsequence of the batch, in batch order:
      accepted transaction `k` is the batch's transaction at `Positions[k]`,
      and the positions strictly increase. */
  lemma {:induction false} AcceptedInOrder(pool: Pool, crypto: Crypto, txs: seq<Transaction>)
    ensures var idx := Positions(pool, crypto, txs);
            var acc := Settle(pool, crypto, txs).accepted;
            && |idx| == |acc|
            && (forall k :: 0 <= k < |idx| ==> idx[k] < |txs| && acc[k] == txs[idx[k]])
            && (forall k, l :: 0 <= k < l < |idx| ==> idx[k] < idx[l])
    decreases |txs|
  {
    if txs != [] {
      AcceptedInOrder(pool, crypto, txs[..|txs| - 1]);
    }
  }

  /** First seen, valid, wins: candidate `i` is accepted exactly when it is
      valid against the pool left by the candidates before it. */
  lemma {:induction false} AcceptedIffValidAtCommit(pool: Pool, crypto: Crypto, txs: seq<Transaction>, i: int)
    requires 0 <= i < |txs|
    ensures i in Positions(pool, crypto, txs)
            <==> IsValid(Settle(pool, crypto, txs[..i]).pool, crypto, txs[i])
    decreases |txs|
  {
    var n := |txs| - 1;
    var prefix := txs[..n];
    var earlier := Positions(pool, crypto, prefix);
    var valid := IsValid(Settle(pool, crypto, prefix).pool, crypto, txs[n]);
    assert Positions(pool, crypto, txs) == earlier + (if valid then [n] else []);
    AcceptedInOrder(pool, crypto, prefix);
    if i < n {
      AcceptedIffValidAtCommit(pool, crypto, prefix, i);
      assert prefix[..i] == txs[..i];
      assert prefix[i] == txs[i];
    } else {
      assert n !in earlier;
      assert txs[..i] == prefix;
    }
  }

  /** Every accepted transaction was valid against the pool as it stood just
      before it was committed. */
  lemma AcceptedValidAtCommit(pool: Pool, crypto: Crypto, txs: seq<Transaction>)
    ensures var idx := Positions(pool, crypto, txs);
            var acc := Settle(pool, crypto, txs).accepted;
            && |idx| == |acc|
            && forall k :: 0 <= k < |acc| ==>
                 idx[k] < |txs| && IsValid(Settle(pool, crypto, txs[..idx[k]]).pool, crypto, acc[k])
  {
    AcceptedInOrder(pool, crypto, txs);
    var idx := Positions(pool, crypto, txs);
    forall k | 0 <= k < |idx|
      ensures IsValid(Settle(pool, crypto, txs[..idx[k]]).pool, crypto, txs[idx[k]])
    {
      AcceptedIffValidAtCommit(pool, crypto, txs, idx[k]);
    }
  }

  /** Every transaction hash already in use: those of the pool's identifiers
      and those of the transactions in `txs`. */
  ghost function SeenHashes(pool0: Pool, txs: seq<Transaction>): set<Bytes>
  {
    (set k | k in pool0 :: k.txHash) + (set t | t in txs :: t.hash)
  }

  /** Every coin in the epoch's pool comes from a hash already in use: one of
      the initial pool or one of the batch read so far. */
  ghost predicate PoolHashesSeen(pool0: Pool, txs: seq<Transaction>, e: Epoch)
  {
    forall k :: k in e.pool ==> k.txHash in SeenHashes(pool0, txs)
  }

  /** Whatever the batch, every coin in the pool after it was keyed by a hash
      already in use: an epoch never invents a transaction hash. */
  lemma {:induction false} PoolHashesSeenInvariant(pool0: Pool, crypto: Crypto, txs: seq<Transaction>)
    ensures PoolHashesSeen(pool0, txs, Settle(pool0, crypto, txs))
    decreases |txs|
  {
    if txs != [] {
      var n := |txs| - 1;
      var prefix, tx := txs[..n], txs[n];
      PoolHashesSeenInvariant(pool0, crypto, prefix);
      assert txs == prefix + [tx];
      var e := Settle(pool0, crypto, prefix);
      assert SeenHashes(pool0, txs) == SeenHashes(pool0, prefix) + {tx.hash};
      if IsValid(e.pool, crypto, tx) {
        CommitClosedForm(e.pool, tx);
        forall k | k in Produced(tx) ensures k.txHash == tx.hash {
        }
      }
    }
  }

  /** No transaction of the batch has a hash that an input of itself or of an
      earlier entry quotes as `prevTxHash`, so no commit can put back an
      identifier claimed up to that point. */
  ghost predicate NoRecreatedClaims(txs: seq<Transaction>)
  {
    forall k, i :: 0 <= k <= i < |txs| ==>
      forall u :: u in ConsumedSet(txs[k]) ==> u.txHash != txs[i].hash
  }

  /** The claims of every entry of a batch stay clear of its later hashes in
      each prefix too. */
  lemma NoRecreatedClaimsPrefix(txs: seq<Transaction>, n: int)
    requires NoRecreatedClaims(txs) && 0 <= n <= |txs|
    ensures NoRecreatedClaims(txs[..n])
  {
  }

  /** What holds of the epoch after `txs`: every accepted transaction is an
      entry of the batch, no identifier an accepted transaction claimed is back
      in the pool, and no two accepted transactions claim the same identifier. */
  ghost predicate SpentStaysSpent(txs: seq<Transaction>, e: Epoch)
  {
    && (forall t :: t in e.accepted ==> t in txs)
    && (forall t, u :: t in e.accepted && u in ConsumedSet(t) ==> u !in e.pool)
    && (forall a, b :: 0 <= a < b < |e.accepted| ==>
          ConsumedSet(e.accepted[a]) !! ConsumedSet(e.accepted[b]))
  }

  /** Every identifier a valid transaction claims is in the pool. */
  lemma ClaimsInPool(pool: Pool, tx: Transaction)
    requires AllClaimed(pool, tx)
    ensures ConsumedSet(tx) <= pool.Keys
  {
  }

  /** Committing a transaction whose claims are all in the pool, and whose
      hash none of the claims made so far (its own included) quotes, keeps
      `SpentStaysSpent`. */
  lemma SpentStaysSpentCommit(txs: seq<Transaction>, e: Epoch, tx: Transaction)
    requires SpentStaysSpent(txs, e)
    requires NoRecreatedClaims(txs + [tx])
    requires ConsumedSet(tx) <= e.pool.Keys
    ensures SpentStaysSpent(txs + [tx], Epoch(Commit(e.pool, tx), e.accepted + [tx]))
  {
    var txs' := txs + [tx];
    var e' := Epoch(Commit(e.pool, tx), e.accepted + [tx]);
    CommitClosedForm(e.pool, tx);
    forall k | k in Produced(tx) ensures k.txHash == tx.hash {
    }
    forall t, u | t in e'.accepted && u in ConsumedSet(t)
      ensures u !in e'.pool
    {
      if t == tx {
        assert txs'[|txs|] == tx;
        assert u in e.pool;
      } else {
        assert t in txs;
        var k :| 0 <= k < |txs| && txs[k] == t;
        assert txs'[k] == t && txs'[|txs|] == tx;
      }
    }
    forall a, b | 0 <= a < b < |e'.accepted|
      ensures ConsumedSet(e'.accepted[a]) !! ConsumedSet(e'.accepted[b])
    {
      if b == |e.accepted| {
        assert e'.accepted[a] in e.accepted;
      }
    }
  }

  /** `SpentStaysSpent` survives one more candidate, accepted or skipped. */
  lemma SpentStaysSpentStep(crypto: Crypto, txs: seq<Transaction>, e: Epoch, tx: Transaction)
    requires SpentStaysSpent(txs, e)
    requires NoRecreatedClaims(txs + [tx])
    ensures SpentStaysSpent(txs + [tx], Step(e, crypto, tx))
  {
    if IsValid(e.pool, crypto, tx) {
      ClaimsInPool(e.pool, tx);
      SpentStaysSpentCommit(txs, e, tx);
    }
  }

  /** When no commit can put back a claimed identifier, the epoch ends with
      `SpentStaysSpent` after the batch. */
  lemma {:induction false} SpentStaysSpentInvariant(pool0: Pool, crypto: Crypto, txs: seq<Transaction>)
    requires NoRecreatedClaims(txs)
    ensures SpentStaysSpent(txs, Settle(pool0, crypto, txs))
    decreases |txs|
  {
    if txs != [] {
      var n := |txs| - 1;
      var prefix := txs[..n];
      NoRecreatedClaimsPrefix(txs, n);
      SpentStaysSpentInvariant(pool0, crypto, prefix);
      assert txs == prefix + [txs[n]];
      SpentStaysSpentStep(crypto, prefix, Settle(pool0, crypto, prefix), txs[n]);
    }
  }

  /** No double spend across the epoch: unless some transaction's hash is one
      that an input of itself or of an earlier entry quotes, no two accepted
      transactions claim the same identifier. A batch that repeats a
      transaction, or replays one already committed, is covered as long as
      no claim made before the repeat quotes its hash. */
  lemma NoDoubleSpend(pool0: Pool, crypto: Crypto, txs: seq<Transaction>)
    requires NoRecreatedClaims(txs)
    ensures var acc := Settle(pool0, crypto, txs).accepted;
            forall a, b :: 0 <= a < b < |acc| ==> ConsumedSet(acc[a]) !! ConsumedSet(acc[b])
  {
    SpentStaysSpentInvariant(pool0, crypto, txs);
  }

  /** Two transactions that claim the same identifier: whichever is supplied
      first and is valid is accepted, and the other is rejected. */
  lemma FirstSeenWins(pool: Pool, crypto: Crypto, first: Transaction, second: Transaction, u: UTXO)
    requires IsValid(pool, crypto, first)
    requires u in ConsumedSet(first) && u in ConsumedSet(second)
    requires first.hash != u.txHash
    ensures Settle(pool, crypto, [first, second]).accepted == [first]
  {
    assert [first, second][..1] == [first];
    assert [first][..0] == [];
    var after := Commit(pool, first);
    CommitClosedForm(pool, first);
    assert u !in after;
    var inp :| inp in second.inputs && u == InputUtxo(inp);
    var i :| 0 <= i < |second.inputs| && second.inputs[i] == inp;
    assert !AllClaimed(after, second);
    assert Settle(pool, crypto, [first]) == Epoch(after, [first]);
  }

  /** A transaction that spends one UTXO of the pool, correctly signed, into one
      non-negative output worth no more than it is accepted on its own; the UTXO
      leaves the pool and the output enters it under `(tx.hash, 0)`. */
  lemma SpendOneCoin(pool: Pool, crypto: Crypto, u: UTXO, tx: Transaction)
    requires u in pool
    requires |tx.inputs| == 1 && InputUtxo(tx.inputs[0]) == u
    requires crypto.verify(pool[u].address, crypto.rawDataToSign(tx, 0), tx.inputs[0].signature) == Verified
    requires |tx.outputs| == 1 && 0.0 <= tx.outputs[0].value <= pool[u].value
    ensures Settle(pool, crypto, [tx]) == Epoch((pool - {u})[UTXO(tx.hash, 0) := tx.outputs[0]], [tx])
  {
    assert tx.inputs[..0] == [] && tx.outputs[..0] == [];
    assert IsValid(pool, crypto, tx);
    assert [tx][..0] == [];
    assert RemoveAll(pool, tx.inputs) == pool - {u};
    assert AddAll(pool - {u}, tx.hash, tx.outputs[..0]) == pool - {u};
    assert Commit(pool, tx) == (pool - {u})[UTXO(tx.hash, 0) := tx.outputs[0]];
  }
}
