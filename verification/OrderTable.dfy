/** The `orders` and `review_items` tables: their indexes, and every SQL statement as a function from table to table. */
module OrderTable {
  import opened Domain
  import opened Underpayment

  // ---------------------------------------------------------------- indexes

  /** idx_orders_chain_txhash */
  predicate UniqueTx(t: Orders) {
    forall i, j :: i in t && j in t && t[i].tx.Some? && t[i].tx == t[j].tx && t[i].chain == t[j].chain ==> i == j
  }

  predicate SamePendingAmount(o: Order, p: Order) {
    o.status == Pending && p.status == Pending && o.chain == p.chain && o.expected == p.expected
  }

  /** idx_orders_chain_pending_amount */
  predicate UniquePendingAmount(t: Orders) {
    forall i, j :: i in t && j in t && SamePendingAmount(t[i], t[j]) ==> i == j
  }

  /** A write that would leave the table without this is rejected and changes nothing. */
  predicate Indexed(t: Orders) {
    UniqueTx(t) && UniquePendingAmount(t)
  }

  /** idx_review_items_chain_tx */
  predicate UniqueReviews(rs: seq<ReviewItem>) {
    forall i, j :: 0 <= i < j < |rs| ==> rs[i].chain != rs[j].chain || rs[i].tx != rs[j].tx
  }

  // ----------------------------------------------------------------- insert

  /** One ten-thousandth of a dollar. */
  const OFFSET_UNIT: Money := 10_000

  /** Storing a decimal in NUMERIC(20,8) rounds it to eight places, halves away from zero. */
  function Round8(x: real): Money {
    if x >= 0.0 then (x + 0.5).Floor else -(-x + 0.5).Floor
  }

  /** Rounding goes to a nearest integer, away from zero when two are equally near. */
  lemma Round8Means(x: real)
    ensures x >= 0.0 ==> Round8(x) as real <= x + 0.5 < Round8(x) as real + 1.0
    ensures x < 0.0 ==> Round8(x) as real - 1.0 < x - 0.5 <= Round8(x) as real
  {
    if x >= 0.0 {
      assert (x + 0.5).Floor as real <= x + 0.5 < (x + 0.5).Floor as real + 1.0;
    } else {
      assert (-x + 0.5).Floor as real <= -x + 0.5 < (-x + 0.5).Floor as real + 1.0;
    }
  }

  function NewRow(chain: Chain, rawBase: real, offset: int, required: int, expiresAt: int): Order {
    Order(chain, Round8(rawBase), Round8(rawBase + (offset * OFFSET_UNIT) as real), required, expiresAt,
          Pending, None, None, None, 0, None)
  }

  /** The CHECK constraints and the range of NUMERIC(20,8). */
  predicate Storable(o: Order) {
    0 < o.base < 100_000_000_000_000_000_000 && 0 < o.expected < 100_000_000_000_000_000_000
  }

  /** INSERT meets a unique index (or the primary key). */
  predicate Collides(t: Orders, id: OrderId, o: Order) {
    id in t || !Indexed(t[id := o])
  }

  // ----------------------------------------------------------------- update

  predicate Advances(o: Order, chain: Chain, tx: TxHash, confirmations: int) {
    o.chain == chain && o.tx == Some(tx) && o.status == Confirming && confirmations >= o.confirmations
  }

  function Advance(o: Order, height: int, confirmations: int, now: int): Order {
    o.(height := Some(height),
       confirmations := confirmations,
       status := if confirmations >= o.required then Confirmed else Confirming,
       confirmedAt := if confirmations >= o.required && o.confirmedAt.None? then Some(now) else o.confirmedAt)
  }

  /** UpdateConfirmations finds a row. */
  predicate Advancing(t: Orders, ev: TransferEvent) {
    exists i :: i in t && Advances(t[i], ev.chain, ev.tx, ev.confirmations)
  }

  function AdvanceAll(t: Orders, ev: TransferEvent, now: int): Orders {
    map i | i in t ::
      if Advances(t[i], ev.chain, ev.tx, ev.confirmations) then Advance(t[i], ev.height, ev.confirmations, now) else t[i]
  }

  /** TxAlreadyClaimed */
  predicate Held(t: Orders, chain: Chain, tx: TxHash) {
    exists i :: i in t && t[i].chain == chain && t[i].tx == Some(tx)
  }

  // ------------------------------------------------------------ exact match

  predicate Open(o: Order, chain: Chain) {
    o.chain == chain && o.status == Pending && o.tx.None?
  }

  /** Rows in `hidden` are locked by another transaction and skipped. */
  function ExactCandidates(t: Orders, chain: Chain, amount: Money, tolerance: Money, hidden: set<OrderId>): set<OrderId> {
    set i | i in t && i !in hidden && Open(t[i], chain) && amount - tolerance <= t[i].expected <= amount + tolerance
  }

  predicate Earliest(t: Orders, among: set<OrderId>, i: OrderId)
    requires among <= t.Keys
  {
    i in among && forall j :: j in among ==> t[i].expiresAt <= t[j].expiresAt
  }

  /** ORDER BY expires_at LIMIT 1; which of several equally old rows comes first is not specified. */
  predicate ExactPick(t: Orders, among: set<OrderId>, pick: Option<OrderId>)
    requires among <= t.Keys
  {
    if pick.None? then among == {} else Earliest(t, among, pick.value)
  }

  function Claim(o: Order, ev: TransferEvent, now: int): Order {
    o.(tx := Some(ev.tx),
       height := Some(ev.height),
       received := Some(ev.amount),
       confirmations := ev.confirmations,
       status := if ev.confirmations >= o.required then Confirmed else Confirming,
       confirmedAt := if ev.confirmations >= o.required then Some(now) else None)
  }

  // ----------------------------------------------------------- underpayment

  /** expected_amount > $2; the CHECK constraint keeps every stored amount positive. */
  predicate Short(o: Order, amount: Money) {
    o.expected > amount && o.expected > 0
  }

  function UnderpaidCandidates(t: Orders, chain: Chain, amount: Money, hidden: set<OrderId>): set<OrderId> {
    set i | i in t && i !in hidden && Open(t[i], chain) && Short(t[i], amount)
  }

  /** The order with the smallest relative shortfall, the smallest amount first among equals, if that shortfall is
      within the limit; otherwise no order's is. */
  predicate UnderpaidPick(t: Orders, among: set<OrderId>, amount: Money, maxGapPercent: int, pick: Option<OrderId>)
    requires among <= t.Keys
    requires forall j :: j in among ==> t[j].expected > amount && t[j].expected > 0
  {
    if pick.None? then
      forall j :: j in among ==> GapPercent(t[j].expected, amount) > maxGapPercent
    else
      pick.value in among
      && GapPercent(t[pick.value].expected, amount) <= maxGapPercent
      && forall j :: j in among ==> Preferred(t[pick.value].expected, t[j].expected, amount)
  }

  predicate Preferred(e1: Money, e2: Money, amount: Money)
    requires amount < e1 && 0 < e1 && amount < e2 && 0 < e2
  {
    GapPercent(e1, amount) < GapPercent(e2, amount) || (GapPercent(e1, amount) == GapPercent(e2, amount) && e1 <= e2)
  }

  /** For an amount that is not negative this is the order nearest above it. */
  lemma SmallestGapIsNearest(t: Orders, among: set<OrderId>, amount: Money, maxGapPercent: int, i: OrderId)
    requires among <= t.Keys && amount >= 0 && forall j :: j in among ==> t[j].expected > amount && t[j].expected > 0
    ensures UnderpaidPick(t, among, amount, maxGapPercent, Some(i)) <==>
      i in among && GapPercent(t[i].expected, amount) <= maxGapPercent
      && forall j :: j in among ==> t[i].expected <= t[j].expected
  {
    forall j | i in among && j in among
      ensures Preferred(t[i].expected, t[j].expected, amount) <==> t[i].expected <= t[j].expected
    {
      if t[i].expected <= t[j].expected {
        GapPercentMonotone(t[i].expected, t[j].expected, amount);
      } else {
        GapPercentMonotone(t[j].expected, t[i].expected, amount);
      }
    }
  }

  function MarkUnderpaid(o: Order, ev: TransferEvent): Order {
    o.(tx := Some(ev.tx), height := Some(ev.height), received := Some(ev.amount), status := Underpaid)
  }

  // ----------------------------------------------------------------- expiry

  predicate PastDue(o: Order, now: int) {
    o.status == Pending && o.expiresAt < now
  }

  function ExpireAll(t: Orders, now: int): Orders {
    map i | i in t :: if PastDue(t[i], now) then t[i].(status := Expired) else t[i]
  }

  // ---------------------------------------------------------------- reviews

  predicate Reviewed(rs: seq<ReviewItem>, chain: Chain, tx: TxHash) {
    exists i :: 0 <= i < |rs| && rs[i].chain == chain && rs[i].tx == tx
  }

  /** INSERT ... ON CONFLICT (chain, tx_hash) DO NOTHING */
  function LogReview(rs: seq<ReviewItem>, item: ReviewItem): seq<ReviewItem> {
    if Reviewed(rs, item.chain, item.tx) then rs else rs + [item]
  }

  function UnmatchedItem(ev: TransferEvent): ReviewItem {
    ReviewItem(ev.chain, ev.tx, ev.amount, ReasonUnmatched, None)
  }

  function UnderpaidItem(ev: TransferEvent, id: OrderId): ReviewItem {
    ReviewItem(ev.chain, ev.tx, ev.amount, ReasonUnderpaid, Some(id))
  }
}
