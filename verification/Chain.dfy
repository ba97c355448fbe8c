/** What the Ethereum node knows, and the record the service makes of it. */
module Chain {
  import opened Prelude

  /** A stored or returned transaction, models.Transaction without its relations. */
  datatype Tx = Tx(
    hash: string, status: int, blockHash: string, blockNumber: int, sender: string,
    to: Option<string>, contract: Option<string>, logsCount: int, input: string, value: int)

  /** The sender of a transaction, or why the signer cannot recover it. */
  datatype Sender = Recovered(address: string) | Unrecovered(why: string)

  /** The two answers of the node. */
  datatype EthTx = EthTx(hash: string, to: Option<string>, data: string, value: int, sender: Sender)
  datatype Receipt = Receipt(status: int, blockHash: string, blockNumber: int, contract: string, logsCount: int)

  /** A node answers every hash text it is asked; whether a call succeeds is up to each call. */
  datatype Node = Node(details: string -> EthTx, receipt: string -> Receipt)

  const ZERO_ADDRESS := "0x0000000000000000000000000000000000000000"

  function Present(address: string): Option<string> {
    if address == ZERO_ADDRESS then None else Some(address)
  }

  /** The record built from both answers, absent when the sender cannot be recovered. */
  function BuildRecord(tx: EthTx, receipt: Receipt): Option<Tx> {
    if tx.sender.Unrecovered? then None else
      Some(Tx(tx.hash, receipt.status, receipt.blockHash, receipt.blockNumber, tx.sender.address,
              if tx.to.None? then None else Present(tx.to.value), Present(receipt.contract),
              receipt.logsCount, "0x" + tx.data, tx.value))
  }

  function ChainRecord(node: Node, hash: string): Option<Tx> {
    BuildRecord(node.details(hash), node.receipt(hash))
  }

  /** An address of zeros only. */
  predicate AllZero(address: string) {
    |address| == 42 && address[..2] == "0x" && forall k :: 2 <= k < 42 ==> address[k] == '0'
  }

  /** What a record says of the two answers, field by field. */
  ghost predicate Describes(rec: Tx, tx: EthTx, receipt: Receipt) {
    && rec.hash == tx.hash && rec.value == tx.value && tx.sender == Recovered(rec.sender)
    && rec.status == receipt.status && rec.logsCount == receipt.logsCount
    && rec.blockHash == receipt.blockHash && rec.blockNumber == receipt.blockNumber
    && |rec.input| == |tx.data| + 2 && rec.input[..2] == "0x" && rec.input[2..] == tx.data
    && (rec.to.None? <==> tx.to.None? || AllZero(tx.to.value)) && (rec.to.Some? ==> rec.to == tx.to)
    && (rec.contract.None? <==> AllZero(receipt.contract))
    && (rec.contract.Some? ==> rec.contract.value == receipt.contract)
  }

  lemma ZeroIsAllZero(address: string)
    ensures AllZero(address) <==> address == ZERO_ADDRESS
  {
    assert |ZERO_ADDRESS| == 42 && ZERO_ADDRESS[0] == '0' && ZERO_ADDRESS[1] == 'x';
    assert ZERO_ADDRESS[..2] == "0x";
    if AllZero(address) {
      assert forall k :: 0 <= k < 2 ==> address[k] == address[..2][k] && ZERO_ADDRESS[k] == ZERO_ADDRESS[..2][k];
      assert forall k :: 0 <= k < 42 ==> address[k] == ZERO_ADDRESS[k];
    }
  }

  /** There is a record exactly when the sender was recovered, and each of its fields comes from the answer
      that knows it. */
  lemma RecordDescribes(node: Node, hash: string)
    ensures ChainRecord(node, hash).Some? <==> node.details(hash).sender.Recovered?
    ensures ChainRecord(node, hash).Some? ==>
              Describes(ChainRecord(node, hash).value, node.details(hash), node.receipt(hash))
  {
    var tx, receipt := node.details(hash), node.receipt(hash);
    ZeroIsAllZero(receipt.contract);
    if tx.to.Some? {
      ZeroIsAllZero(tx.to.value);
    }
    assert ("0x" + tx.data)[..2] == "0x" && ("0x" + tx.data)[2..] == tx.data;
  }

  /** The placeholder a failed task reports: only the hash is filled in. */
  function HashOnly(hash: string): Tx {
    Tx(hash, 0, "", 0, "", None, None, 0, "", 0)
  }

  /** A message on a result channel. The zero value is what a closed channel yields. */
  datatype TxResult = TxResult(tx: Option<Tx>, err: Option<string>)

  const ZERO_RESULT := TxResult(None, None)

  /** What a result channel may carry for a hash: its chain record, or an error beside a transaction
      that is the chain record or names the hash. */
  ghost predicate Answers(node: Node, hash: string, res: TxResult) {
    && res.tx.Some?
    && (res.tx == ChainRecord(node, hash) || (res.err.Some? && res.tx == Some(HashOnly(hash))))
  }
}
