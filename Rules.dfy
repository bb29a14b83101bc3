/** The five rules a transaction must satisfy against the current pool of
    unspent outputs, each as a predicate, and their conjunction. */
module Rules {
  import opened Ledger

  /** The pool of unspent outputs: identifier to coin. */
  type Pool = map<UTXO, Output>

  /** Every input in `ins` claims an identifier present in `pool`. */
  predicate InPool(pool: Pool, ins: seq<Input>)
  {
    forall i :: 0 <= i < |ins| ==> InputUtxo(ins[i]) in pool
  }

  /** Rule 1: every output the transaction claims is unspent. */
  predicate AllClaimed(pool: Pool, tx: Transaction)
  {
    InPool(pool, tx.inputs)
  }

  /** Rule 2: for every input `i`, the owner of the coin it claims has signed
      input `i`'s payload. */
  predicate SignaturesValid(pool: Pool, crypto: Crypto, tx: Transaction)
    requires AllClaimed(pool, tx)
  {
    forall i :: 0 <= i < |tx.inputs| ==>
      crypto.verify(pool[InputUtxo(tx.inputs[i])].address,
                    crypto.rawDataToSign(tx, i),
                    tx.inputs[i].signature) == Verified
  }

  /** Rule 3 as the handler's `isDoubleSpending` decides it: some identifier
      present in the pool is claimed by two different inputs. */
  predicate DoubleSpending(pool: Pool, tx: Transaction)
  {
    exists i, j :: 0 <= i < j < |tx.inputs| &&
      InputUtxo(tx.inputs[i]) == InputUtxo(tx.inputs[j]) && InputUtxo(tx.inputs[j]) in pool
  }

  /** No identifier is claimed twice by `ins`, present in the pool or not. */
  predicate ClaimsDistinct(ins: seq<Input>)
  {
    forall i, j :: 0 <= i < j < |ins| ==> InputUtxo(ins[i]) != InputUtxo(ins[j])
  }

  /** Rule 4 fails: some output has a negative value. */
  predicate HasNegativeOutput(tx: Transaction)
  {
    exists j :: 0 <= j < |tx.outputs| && tx.outputs[j].value < 0.0
  }

  /** The total value of the coins the inputs claim, summed first to last. */
  function InputSum(pool: Pool, ins: seq<Input>): real
    requires InPool(pool, ins)
    decreases |ins|
  {
    if ins == [] then 0.0
    else InputSum(pool, ins[..|ins| - 1]) + pool[InputUtxo(ins[|ins| - 1])].value
  }

  /** The total value of the outputs, summed first to last. */
  function OutputSum(outs: seq<Output>): real
    decreases |outs|
  {
    if outs == [] then 0.0 else OutputSum(outs[..|outs| - 1]) + outs[|outs| - 1].value
  }

  /** Rule 5: the inputs are worth at least as much as the outputs. */
  predicate ValueConserved(pool: Pool, tx: Transaction)
    requires AllClaimed(pool, tx)
  {
    InputSum(pool, tx.inputs) >= OutputSum(tx.outputs)
  }

  /** A transaction is valid against `pool` when all five rules hold. */
  predicate IsValid(pool: Pool, crypto: Crypto, tx: Transaction)
  {
    && AllClaimed(pool, tx)
    && SignaturesValid(pool, crypto, tx)
    && !DoubleSpending(pool, tx)
    && !HasNegativeOutput(tx)
    && ValueConserved(pool, tx)
  }

  /** Once every claim is in the pool, the in-pool duplicate test of
      `isDoubleSpending` is exactly "some identifier is claimed twice". */
  lemma DoubleSpendingIffRepeated(pool: Pool, tx: Transaction)
    requires AllClaimed(pool, tx)
    ensures DoubleSpending(pool, tx) <==> !ClaimsDistinct(tx.inputs)
  {
  }
}
