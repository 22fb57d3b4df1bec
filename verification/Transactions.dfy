/** Transactions as the pool sees them: the fields its rules read, nothing of the payload. */
module Transactions {

  type Address = nat
  type Hash = nat

  datatype Option<+T> = None | Some(value: T)

  datatype Tx = Tx(hash: Hash, sender: Address, nonce: nat, gas: nat, cost: int,
                   feeCap: int, tipCap: int, size: nat)

  const TX_SLOT_SIZE: nat := 32 * 1024

  /** The number of pool slots a transaction occupies. */
  function NumSlots(tx: Tx): nat {
    (tx.size + TX_SLOT_SIZE - 1) / TX_SLOT_SIZE
  }

  /** The slots cover the size, and one fewer would not. */
  lemma SlotsCover(tx: Tx)
    ensures 32768 * (NumSlots(tx) - 1) < tx.size <= 32768 * NumSlots(tx)
  {
  }

  /** The tip left for the miner at a given base fee; it may be negative. */
  function EffectiveTip(tx: Tx, baseFee: Option<int>): int {
    match baseFee
    case None => tx.tipCap
    case Some(fee) => if tx.tipCap <= tx.feeCap - fee then tx.tipCap else tx.feeCap - fee
  }
}
