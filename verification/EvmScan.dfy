/** The arithmetic and the data of the EVM watcher: block ranges, in-flight transfers, confirmation counts. */
module EvmScan {
  import opened Domain

  /** A transfer awaiting confirmations. */
  datatype Entry = Entry(amount: Money, height: int)

  type PendingMap = map<TxHash, Entry>

  const LOOKBACK: int := 50
  const DEFAULT_BATCH: int := 2000

  /** The first block a poll scans. A stored cursor of zero means that nothing was scanned yet. */
  function ScanFrom(cursor: int, latest: int): int {
    if cursor == 0 then (if latest - LOOKBACK < 0 then 0 else latest - LOOKBACK) else cursor + 1
  }

  function BatchSize(configured: int): (b: int)
    ensures b > 0
  {
    if configured <= 0 then DEFAULT_BATCH else configured
  }

  function BatchEnd(next: int, batch: int, latest: int): int {
    if next + batch - 1 > latest then latest else next + batch - 1
  }

  function Confirmations(latest: int, height: int): int {
    if latest - height + 1 < 0 then 0 else latest - height + 1
  }

  predicate Final(latest: int, height: int, required: int) {
    latest - height + 1 >= required
  }

  function EventFor(chain: Chain, tx: TxHash, p: Entry, latest: int): TransferEvent {
    TransferEvent(chain, tx, p.amount, p.height, Confirmations(latest, p.height))
  }

  /** A saved cursor of zero is taken for a first run: the next scan then skips blocks exactly when the head has moved
      more than one block past the lookback. Any other saved cursor is continued without a gap. */
  lemma NextScanGap(saved: int, latest: int)
    requires saved >= 0
    ensures ScanFrom(saved, latest) > saved + 1 <==> saved == 0 && latest > LOOKBACK + 1
  {
  }
}
