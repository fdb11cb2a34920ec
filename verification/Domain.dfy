/** The values that travel between the chain watchers, the order service and the database. */
module Domain {

  datatype Option<+T> = None | Some(value: T)

  datatype Result<+T, +E> = Ok(value: T) | Err(error: E)

  /** The networks the service knows; the lower-case names are the values of the `chain` column. */
  datatype Chain = Tron | Ton | Polygon | Bsc

  datatype TxHash = TxHash(text: string)

  /** A UUID primary key; only its identity matters. */
  type OrderId = nat

  /** NUMERIC(20,8), counted in units of 1e-8 USD. */
  type Money = int

  datatype Status = Pending | Confirming | Confirmed | Underpaid | Expired

  /** A row of the `orders` table. Times are instants on one clock. */
  datatype Order = Order(
    chain: Chain,
    base: Money,
    expected: Money,
    required: int,
    expiresAt: int,
    status: Status,
    tx: Option<TxHash>,
    received: Option<Money>,
    height: Option<int>,
    confirmations: int,
    confirmedAt: Option<int>)

  type Orders = map<OrderId, Order>

  datatype Reason = ReasonUnmatched | ReasonUnderpaid

  /** A row of the `review_items` table. */
  datatype ReviewItem = ReviewItem(chain: Chain, tx: TxHash, amount: Money, reason: Reason, related: Option<OrderId>)

  /** What a watcher reports to the service. */
  datatype TransferEvent = TransferEvent(chain: Chain, tx: TxHash, amount: Money, height: int, confirmations: int)

  /** Configuration read by the order service. `required` lists the enabled chains. */
  datatype Config = Config(
    required: map<Chain, int>,
    tolerance: Money,
    maxGapPercent: int,
    offsetMin: int,
    offsetMax: int,
    maxRetries: int,
    expiry: int)
}
