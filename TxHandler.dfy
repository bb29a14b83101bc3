/** The transaction handler: it owns the pool of unspent outputs, checks
    transactions against it and settles one epoch's batch, updating the pool
    in place. */
module Handler {
  import opened Ledger
  import opened Rules
  import opened Settlement

  class TxHandler {
    /** The current pool of unspent outputs. */
    var pool: Pool
    /** The signature scheme and the signing payloads the handler relies on. */
    const crypto: Crypto

    /** A handler whose current pool is `utxoPool`. */
    constructor (utxoPool: Pool, crypto: Crypto)
      ensures pool == utxoPool && this.crypto == crypto
    {
      pool := utxoPool;
      this.crypto := crypto;
    }

    /** The coin stored under `utxo`, or None when there is none. */
    function GetPrevTxOutputFromPool(utxo: UTXO): (o: Option<Output>)
      reads this
      ensures o.Some? <==> utxo in pool
      ensures o.Some? ==> o.value == pool[utxo]
    {
      if utxo in pool then Some(pool[utxo]) else None
    }

    /** The coin at output `outputIndex` of transaction `prevTxHash`, or None. */
    function GetPrevTxOutputAt(prevTxHash: Bytes, outputIndex: int): (o: Option<Output>)
      reads this
      ensures o.Some? <==> UTXO(prevTxHash, outputIndex) in pool
      ensures o.Some? ==> o.value == pool[UTXO(prevTxHash, outputIndex)]
    {
      GetPrevTxOutputFromPool(GetUtxo(prevTxHash, outputIndex))
    }

    /** Rule 1: every input's claim is a key of the pool. */
    method CheckAllOutputsClaimed(tx: Transaction) returns (claimed: bool)
      ensures claimed <==> forall i :: 0 <= i < |tx.inputs| ==> InputUtxo(tx.inputs[i]) in pool
    {
      for i := 0 to |tx.inputs|
        invariant forall k :: 0 <= k < i ==> InputUtxo(tx.inputs[k]) in pool
      {
        var inp := tx.inputs[i];
        if GetUtxo(inp.prevTxHash, inp.outputIndex) !in pool {
          return false;
        }
      }
      return true;
    }

    /** Rule 2: every input's signature verifies, under the key of the coin it
        claims, against that input's signing payload; a signature error counts
        as a failed check. Only called once every claim is in the pool. */
    method CheckValidInputSignatures(tx: Transaction) returns (valid: bool)
      requires AllClaimed(pool, tx)
      ensures valid <==> forall i :: 0 <= i < |tx.inputs| ==>
        crypto.verify(pool[InputUtxo(tx.inputs[i])].address,
                      crypto.rawDataToSign(tx, i),
                      tx.inputs[i].signature) == Verified
    {
      for i := 0 to |tx.inputs|
        invariant forall k :: 0 <= k < i ==>
          crypto.verify(pool[InputUtxo(tx.inputs[k])].address,
                        crypto.rawDataToSign(tx, k),
                        tx.inputs[k].signature) == Verified
      {
        var inp := tx.inputs[i];
        var prevOut := GetPrevTxOutputAt(inp.prevTxHash, inp.outputIndex);
        var outcome := crypto.verify(prevOut.value.address, crypto.rawDataToSign(tx, i), inp.signature);
        match outcome
        case Verified =>
        case Mismatch =>
          return false;
        case SignatureFault =>
          return false;
      }
      return true;
    }

    /** Rule 3 as `isDoubleSpending` decides it: some coin of the pool is
        claimed by two different inputs. Claims of coins not in the pool are
        not counted. */
    method IsDoubleSpending(tx: Transaction) returns (doubled: bool)
      ensures doubled <==> (exists i, j :: 0 <= i < j < |tx.inputs| &&
                              InputUtxo(tx.inputs[i]) == InputUtxo(tx.inputs[j]) &&
                              InputUtxo(tx.inputs[j]) in pool)
    {
      var seen: set<UTXO> := {};
      for i := 0 to |tx.inputs|
        invariant seen == set k | 0 <= k < i && InputUtxo(tx.inputs[k]) in pool :: InputUtxo(tx.inputs[k])
        invariant !DoubleSpending(pool, Transaction(tx.hash, tx.inputs[..i], tx.outputs))
      {
        var inp := tx.inputs[i];
        var utxo := GetUtxo(inp.prevTxHash, inp.outputIndex);
        if utxo in pool {
          var added := utxo !in seen;
          seen := seen + {utxo};
          if !added {
            var k :| 0 <= k < i && InputUtxo(tx.inputs[k]) in pool && InputUtxo(tx.inputs[k]) == utxo;
            return true;
          }
        }
        assert tx.inputs[..i + 1][..i] == tx.inputs[..i];
      }
      assert tx.inputs[..|tx.inputs|] == tx.inputs;
      return false;
    }

    /** Rule 4 fails: some output has a negative value. */
    method CheckNegativeOutput(tx: Transaction) returns (negative: bool)
      ensures negative <==> exists j :: 0 <= j < |tx.outputs| && tx.outputs[j].value < 0.0
    {
      for j := 0 to |tx.outputs|
        invariant forall k :: 0 <= k < j ==> tx.outputs[k].value >= 0.0
      {
        if tx.outputs[j].value < 0.0 {
          return true;
        }
      }
      return false;
    }

    /** Rule 5: the coins claimed are worth at least the outputs. Only called
        once every claim is in the pool. */
    method CheckValidInputOutputSum(tx: Transaction) returns (balanced: bool)
      requires AllClaimed(pool, tx)
      ensures balanced <==> InputSum(pool, tx.inputs) >= OutputSum(tx.outputs)
    {
      var inpSum, outSum := 0.0, 0.0;
      for i := 0 to |tx.inputs|
        invariant inpSum == InputSum(pool, tx.inputs[..i])
      {
        var inp := tx.inputs[i];
        var prevOut := pool[GetUtxo(inp.prevTxHash, inp.outputIndex)];
        inpSum := inpSum + prevOut.value;
        assert tx.inputs[..i + 1][..i] == tx.inputs[..i];
      }
      for j := 0 to |tx.outputs|
        invariant outSum == OutputSum(tx.outputs[..j])
      {
        outSum := outSum + tx.outputs[j].value;
        assert tx.outputs[..j + 1][..j] == tx.outputs[..j];
      }
      assert tx.inputs[..|tx.inputs|] == tx.inputs;
      assert tx.outputs[..|tx.outputs|] == tx.outputs;
      return inpSum >= outSum;
    }

    /** A transaction is valid exactly when the five rules hold; they are
        checked in order and the first that fails decides. */
    method IsValidTx(tx: Transaction) returns (ok: bool)
      ensures ok <==>
        && AllClaimed(pool, tx)
        && SignaturesValid(pool, crypto, tx)
        && !DoubleSpending(pool, tx)
        && !HasNegativeOutput(tx)
        && ValueConserved(pool, tx)
    {
      var claimed := CheckAllOutputsClaimed(tx);
      if !claimed {
        return false;
      }
      var signed := CheckValidInputSignatures(tx);
      if !signed {
        return false;
      }
      var doubled := IsDoubleSpending(tx);
      if doubled {
        return false;
      }
      var negative := CheckNegativeOutput(tx);
      if negative {
        return false;
      }
      var balanced := CheckValidInputOutputSum(tx);
      if !balanced {
        return false;
      }
      return true;
    }

    /** Settles one epoch: the batch is read once in the order given; each
        transaction valid against the live pool is committed at once (its
        claims removed, then its outputs added under `(tx.hash, j)`) and
        appended to the result; the others are skipped for good. The result
        and the new pool are those of `Settle`. */
    method HandleTxs(possibleTxs: seq<Transaction>) returns (accepted: seq<Transaction>)
      modifies this
      ensures Settle(old(pool), crypto, possibleTxs) == Epoch(pool, accepted)
    {
      ghost var initial := pool;
      accepted := [];
      for n := 0 to |possibleTxs|
        invariant Settle(initial, crypto, possibleTxs[..n]) == Epoch(pool, accepted)
      {
        assert possibleTxs[..n + 1][..n] == possibleTxs[..n];
        var tx := possibleTxs[n];
        var ok := IsValidTx(tx);
        if !ok {
          continue;
        }
        ghost var before := pool;
        for i := 0 to |tx.inputs|
          invariant pool == RemoveAll(before, tx.inputs[..i])
        {
          var inp := tx.inputs[i];
          var utxo := GetUtxo(inp.prevTxHash, inp.outputIndex);
          pool := pool - {utxo};
          assert tx.inputs[..i + 1][..i] == tx.inputs[..i];
        }
        assert tx.inputs[..|tx.inputs|] == tx.inputs;
        ghost var spent := pool;
        for j := 0 to |tx.outputs|
          invariant pool == AddAll(spent, tx.hash, tx.outputs[..j])
        {
          var utxo := GetUtxo(tx.hash, j);
          pool := pool[utxo := tx.outputs[j]];
          assert tx.outputs[..j + 1][..j] == tx.outputs[..j];
        }
        assert tx.outputs[..|tx.outputs|] == tx.outputs;
        accepted := accepted + [tx];
      }
      assert possibleTxs[..|possibleTxs|] == possibleTxs;
    }
  }
}
