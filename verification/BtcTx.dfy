/** What staking and slashing transactions share. */
module BtcTx {
  import opened Prelude

  const OP_RETURN: Byte := 0x6a

  /** An output; btcutil.Amount is an int64. */
  datatype TxOut = TxOut(value: Int64, pkScript: Bytes)
}
