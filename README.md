# A verified model of the UTXO transaction handler

`TxHandler` is the validation and settlement core of a simplified UTXO
ledger. It holds a pool of unspent transaction outputs (UTXOs), where each
UTXO is keyed by the hash of the transaction that produced it and the
output's position. It decides whether a transaction is valid against that
pool. It also settles one epoch: it reads a batch of candidate transactions
once, in the order supplied, and commits each one that is valid against the
live pool. Committing a transaction removes the UTXOs it claims, adds one UTXO
per output, and appends the transaction to the result.

The project has five modules:

- `Ledger` (Ledger.dfy): the values. `UTXO` is the UTXO identifier. The
  other values are `Output`, `Input` and `Transaction`, the last carrying its
  own `hash`. `Crypto` holds the two collaborators: signature verification
  and the per-input signing payload. `GetUtxo` is the handler's `getUtxo`, and
  `ConsumedSet` and `Produced` are the identifiers a transaction claims and the
  UTXOs it creates.
- `Rules` (Rules.dfy): the five validity rules as predicates over the pool,
  and `IsValid`, their conjunction.
- `Settlement` (Settlement.dfy): one epoch as a pure function. `Settle` folds
  `Step` over the batch, and `Commit` removes the claims one at a time and then
  adds the outputs one at a time, as the two loops of `handleTxs` do. Beside them are
  the lemmas about order, commit-point validity, the pool update, no double
  spend and first-seen-wins.
- `Conservation` (Conservation.dfy): the total value in the pool. A commit
  whose hash keys no coin of the pool lowers it by exactly the transaction's
  fee. Any commit to a pool of non-negative coins keeps the coins non-negative
  and never raises the total, so such an epoch never raises it.
- `Handler` (TxHandler.dfy): the class `TxHandler`. It has the `pool` field,
  the read-only check methods (loops, each proved against its rule) and
  `HandleTxs`. `HandleTxs` updates `pool` in place in nested loops and is
  proved equal to `Settle`.

The check methods and `IsValidTx` have no `modifies` clause, so they leave
the pool unchanged. Each one's `ensures` states its answer as an
if-and-only-if over the pool and the transaction. So checking the same
transaction twice against the same pool gives the same answer.

Where the code and its documentation differ:

- The constructor stores the caller's pool without copying it
  (TxHandler.java:16-18), although its comment asks for a copy
  (TxHandler.java:13). Here the model follows the comment: the pool is a value
  owned by the handler, so later changes by the caller are not seen.
- `isDoubleSpending` only counts repeated claims of UTXOs that are in the pool
  (TxHandler.java:122). It does not count every repeated claim. The model
  follows the code. `Rules.DoubleSpendingIffRepeated` shows that the two agree
  once rule 1 has passed, which is how `isValidTx` orders them.

A `SignatureException` from the signature scheme makes the signature check
return false (TxHandler.java:163-166). It is not propagated.

## Model

| member | source | states |
|---|---|---|
| `Handler.TxHandler.constructor` | TxHandler.java:16-18 | the new handler's pool is the pool it was given |
| `Handler.TxHandler.GetPrevTxOutputFromPool` | TxHandler.java:139-142 | returns the `Output` stored under the identifier if the pool has it, and None otherwise |
| `Handler.TxHandler.GetPrevTxOutputAt` | TxHandler.java:129-137 | the same lookup, keyed by the identifier that `Ledger.GetUtxo` (`getUtxo`) builds from (prevTxHash, outputIndex): Some of the stored `Output` iff that identifier is in the pool |
| `Handler.TxHandler.CheckAllOutputsClaimed` | TxHandler.java:104-112 | true iff every input's (prevTxHash, outputIndex) is a key of the pool |
| `Handler.TxHandler.CheckValidInputSignatures` | TxHandler.java:146-173 | given every claim is in the pool: true iff, for every input i, verify(key of the claimed UTXO, signing payload of i, signature of i) answers Verified; a mismatch or a signature error gives false |
| `Handler.TxHandler.IsDoubleSpending` | TxHandler.java:114-126 | true iff two different inputs claim the same identifier and that identifier is in the pool |
| `Handler.TxHandler.CheckNegativeOutput` | TxHandler.java:95-102 | true iff some output has a negative value |
| `Handler.TxHandler.CheckValidInputOutputSum` | TxHandler.java:76-92 | given every claim is in the pool: true iff the claimed UTXOs' values, summed in input order, are at least the sum of the output values |
| `Handler.TxHandler.IsValidTx` | TxHandler.java:29-42 | true iff all five rules hold: claims in the pool, signatures valid, no in-pool double claim, no negative output, inputs worth at least the outputs |
| `Handler.TxHandler.HandleTxs` | TxHandler.java:49-74 | the accepted list and the new pool are exactly those of `Settle` on the old pool and the batch, so every lemma about `Settle` below holds of the method |
| `Rules.DoubleSpendingIffRepeated` | TxHandler.java:114-126 | once every claim is in the pool, the in-pool duplicate test holds iff the input identifiers are not pairwise distinct |
| `Settlement.RemoveAllIsDifference` | TxHandler.java:56-61 | removing the claims one at a time leaves the pool minus the set of claimed identifiers |
| `Settlement.AddAllIsUnion` | TxHandler.java:63-67 | adding the outputs one at a time adds exactly the UTXOs (hash, j) mapped to output j |
| `Settlement.CommitClosedForm` | TxHandler.java:56-67 | the pool after a commit is the old pool minus the consumed identifiers, plus (tx.hash, j) mapped to output j for every j |
| `Settlement.CommitPoint` | TxHandler.java:52-69 | after candidate i, the epoch is the one before it with candidate i committed (pool in closed form, accepted list extended by it) if it is valid against the live pool, and unchanged otherwise |
| `Settlement.AcceptedInOrder` | TxHandler.java:51-72 | the accepted list is a subsequence of the batch: accepted[k] is the batch entry at a position, and the positions strictly increase |
| `Settlement.AcceptedIffValidAtCommit` | TxHandler.java:52-54 | candidate i is accepted iff it is valid against the pool left by the candidates before it; a rejected candidate is never retried |
| `Settlement.AcceptedValidAtCommit` | TxHandler.java:54 | every accepted transaction is valid against the pool as it stood just before its commit |
| `Settlement.PoolHashesSeenInvariant` | TxHandler.java:49-74 | whatever the batch, every UTXO in the pool after the epoch is keyed by a hash of the initial pool or of a batch entry |
| `Settlement.SpentStaysSpentCommit` | TxHandler.java:56-69 | a commit by a transaction whose claims are in the pool, and whose hash no claim made so far quotes, keeps the epoch invariant: accepted transactions come from the batch, spent identifiers stay out of the pool, and accepted transactions claim disjoint sets |
| `Settlement.SpentStaysSpentStep` | TxHandler.java:52-69 | the epoch invariant survives one more candidate, whether it is accepted or skipped |
| `Settlement.SpentStaysSpentInvariant` | TxHandler.java:49-74 | when no transaction's hash is quoted by an input of itself or of an earlier entry, the epoch invariant holds after the batch |
| `Settlement.NoDoubleSpend` | TxHandler.java:52-67 | under the same condition, no two accepted transactions claim the same identifier; a batch that repeats a transaction, or replays one already committed, is covered as long as no claim made before the repeat quotes its hash |
| `Settlement.FirstSeenWins` | TxHandler.java:52-67 | if A is valid, B claims an identifier that A also claims, and A's own outputs cannot recreate that identifier, the batch [A, B] accepts exactly [A] |
| `Settlement.SpendOneCoin` | TxHandler.java:29-69 | a correctly signed transaction that spends one UTXO of the pool into one non-negative output worth no more than it is accepted: the UTXO leaves the pool and the output enters it under (tx.hash, 0) |
| `Conservation.RemoveAllValue` | TxHandler.java:56-61 | removing distinct claims that are in the pool lowers the total by the input sum the rule-5 check computes |
| `Conservation.AddAllValue` | TxHandler.java:63-67 | adding the outputs under a hash that keys no UTXO of the pool raises the total by the output sum |
| `Conservation.CommitValue` | TxHandler.java:37 | committing a valid transaction whose hash keys no UTXO of the pool lowers the total by exactly inputs minus outputs, which is never negative |
| `Conservation.PoolValueUpdate` | TxHandler.java:66 | storing a coin under any identifier of a non-negative pool raises the total by at most the coin's value, whether the identifier is new or overwritten |
| `Conservation.AddAllAtMost` | TxHandler.java:63-67 | adding non-negative outputs under any hash keeps a non-negative pool non-negative and raises its total by at most the output sum, because an overwrite only discards the coin it replaces |
| `Conservation.CommitCreatesNoValue` | TxHandler.java:56-67 | committing a valid transaction, whatever its hash, to a non-negative pool keeps it non-negative and never raises its total |
| `Conservation.StepValue` | TxHandler.java:52-69 | any candidate, accepted or skipped, keeps a non-negative pool non-negative and never raises its total |
| `Conservation.EpochCreatesNoValue` | TxHandler.java:49-74 | from a pool of non-negative coins, the pool after an epoch over any batch is still non-negative and holds no more value than before it |
| `Conservation.NegativeCoinOverwritten` | TxHandler.java:29-67 | the non-negativity hypothesis cannot be dropped: a valid transaction with no inputs and one zero output, whose hash keys a coin worth -5, raises the total from -5 to 0 |

## Left out

- Values are `real`, not Java `double`: rounding in the sums at TxHandler.java:78-91 is not modelled, and neither are NaN and the infinities. A NaN output passes the negative-output test (TxHandler.java:99) and is rejected only because the comparison at TxHandler.java:91 is false. A sum that overflows to Infinity is not modelled either.
- The signature scheme (SHA256withRSA through `java.security.Signature`) is the `verify` field of `Crypto`, an arbitrary function. A `SignatureException` is its `SignatureFault` answer. The `NoSuchAlgorithmException`/`InvalidKeyException` path, which becomes a `RuntimeException`, is an environment error and is not modelled.
- `Transaction.getHash()` is the `hash` field of a transaction, and `getRawDataToSign(i)` is the `rawDataToSign` field of `Crypto`. The Transaction class is not part of this model, so how both are computed is not modelled.
- The UTXOPool and UTXO classes are not part of this model. The pool is a `map`: `removeUTXO` is map removal (nothing happens for an absent key) and `addUTXO` is map update (it overwrites an existing key).
- Aliasing: the constructor shares the caller's pool object. The model copies the pool value, so changes made by the caller later are not seen.
- Null references (a null transaction, array or field) and the exceptions they raise are not modelled.
- Settlement.NoDoubleSpend: is proved under `NoRecreatedClaims`: no transaction's hash equals the `prevTxHash` of an input of itself or of an earlier batch entry. This condition is sufficient, not necessary. The handler does not check it. A transaction whose hash equals a spent UTXO's transaction hash puts that identifier back in the pool, so it can be spent again. This needs no hash collision: a transaction with no inputs and only zero-valued outputs is valid each time it is replayed, and a replay re-creates its outputs even after they were spent.
- Conservation.EpochCreatesNoValue: assumes every coin of the initial pool is non-negative (`NonNegativePool`). Rule 4 keeps the pool that way. `Conservation.NegativeCoinOverwritten` shows the bound fails without this assumption.
