/** The values a UTXO ledger works with: identifiers of unspent outputs,
    transaction inputs and outputs, transactions, and the two collaborators
    the handler consults but does not implement (the signature scheme and the
    canonical per-input signing payload). */
module Ledger {

  type Bytes = seq<bv8>

  /** An owner credential, in its encoded form. */
  type PublicKey = Bytes

  datatype Option<T> = None | Some(value: T)

  /** An unspent output is named by the hash of the transaction that produced
      it and its position among that transaction's outputs. Equality is by value. */
  datatype UTXO = UTXO(txHash: Bytes, index: int)

  /** A coin: an amount (a Java `double` in the handler, a `real` here) and its owner. */
  datatype Output = Output(value: real, address: PublicKey)

  /** A claim on an earlier output, signed by that output's owner. */
  datatype Input = Input(prevTxHash: Bytes, outputIndex: int, signature: Bytes)

  /** A transaction, already parsed; `hash` is the digest the transaction
      carries and that later transactions quote as `prevTxHash`. */
  datatype Transaction = Transaction(hash: Bytes, inputs: seq<Input>, outputs: seq<Output>)

  /** What the signature scheme answers: the signature verifies, it does not,
      or the scheme raised a signature error (a malformed signature). */
  datatype VerifyResult = Verified | Mismatch | SignatureFault

  /** The collaborators: `verify(key, message, signature)` is the signature
      scheme and `rawDataToSign(tx, i)` the bytes the owner of input `i` signs. */
  datatype Crypto = Crypto(
    verify: (PublicKey, Bytes, Bytes) -> VerifyResult,
    rawDataToSign: (Transaction, nat) -> Bytes)

  /** The identifier of the output at `outputIndex` of transaction `prevTxHash`. */
  function GetUtxo(prevTxHash: Bytes, outputIndex: int): UTXO
  {
    UTXO(prevTxHash, outputIndex)
  }

  /** The identifier an input claims. */
  function InputUtxo(inp: Input): UTXO
  {
    GetUtxo(inp.prevTxHash, inp.outputIndex)
  }

  /** Every identifier the inputs `ins` claim. */
  function ClaimSet(ins: seq<Input>): set<UTXO>
  {
    set inp | inp in ins :: InputUtxo(inp)
  }

  /** Every identifier the transaction's inputs claim. */
  function ConsumedSet(tx: Transaction): set<UTXO>
  {
    ClaimSet(tx.inputs)
  }

  /** The coins `outs` become once a transaction with hash `h` commits: output
      `j` is keyed by `h` and its own position `j`. */
  function ProducedAt(h: Bytes, outs: seq<Output>): map<UTXO, Output>
  {
    map j | 0 <= j < |outs| :: UTXO(h, j) := outs[j]
  }

  /** The outputs the transaction creates. */
  function Produced(tx: Transaction): map<UTXO, Output>
  {
    ProducedAt(tx.hash, tx.outputs)
  }
}
