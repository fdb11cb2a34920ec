/**
 The matching engine as a state machine over single SQL statements. Every chain has at most one OnTransfer call in
 flight; order creation, the expiry sweep and the statements of all chains interleave freely.
 */
module Engine {
  import opened Domain
  import opened Underpayment
  import opened OrderTable

  /** Where an OnTransfer call stands: the statement it executes next. `quiet` remembers that the exact-match
      statement skipped no locked row and that no order was inserted on the chain since. */
  datatype Call =
    | AtUpdate(ev: TransferEvent)
    | AtCheck(ev: TransferEvent)
    | AtExact(ev: TransferEvent)
    | AtUnderpaid(ev: TransferEvent, quiet: bool)
    | AtLogUnderpaid(ev: TransferEvent, id: OrderId)
    | AtLogUnmatched(ev: TransferEvent)

  datatype State = State(orders: Orders, reviews: seq<ReviewItem>, calls: map<Chain, Call>)

  /** Events carry what the environment decides: fresh ids, random offsets, clock readings, locked rows and the row a
      LIMIT 1 query happens to return. */
  datatype Event =
    | Insert(id: OrderId, chain: Chain, rawBase: real, offset: int, expiresAt: int)
    | Expire(now: int)
    | Deliver(ev: TransferEvent)
    | Statement(at: Chain, now: int, hidden: set<OrderId>, pick: Option<OrderId>)
    | Fault(at: Chain)

  const Start: State := State(map[], [], map[])

  function InsertedRow(cfg: Config, e: Event): Order
    requires e.Insert? && e.chain in cfg.required
  {
    NewRow(e.chain, e.rawBase, e.offset, cfg.required[e.chain], e.expiresAt)
  }

  predicate LegalPick(cfg: Config, t: Orders, call: Call, hidden: set<OrderId>, pick: Option<OrderId>) {
    match call
    case AtExact(ev) => ExactPick(t, ExactCandidates(t, ev.chain, ev.amount, cfg.tolerance, hidden), pick)
    case AtUnderpaid(ev, _) =>
      UnderpaidPick(t, UnderpaidCandidates(t, ev.chain, ev.amount, hidden), ev.amount, cfg.maxGapPercent, pick)
    case _ => true
  }

  predicate Legal(cfg: Config, s: State, e: Event) {
    match e
    case Insert(id, chain, rawBase, offset, expiresAt) =>
      && id !in s.orders && chain in cfg.required && cfg.offsetMin <= offset <= cfg.offsetMax
      && Storable(InsertedRow(cfg, e))
    case Expire(now) => true
    case Deliver(ev) => ev.chain !in s.calls
    case Statement(at, now, hidden, pick) => at in s.calls && LegalPick(cfg, s.orders, s.calls[at], hidden, pick)
    case Fault(at) => at in s.calls
  }

  /** The order table the event's statement writes, before the indexes are checked. */
  function Written(cfg: Config, s: State, e: Event): Orders
    requires Legal(cfg, s, e)
  {
    match e
    case Insert(id, _, _, _, _) => s.orders[id := InsertedRow(cfg, e)]
    case Expire(now) => ExpireAll(s.orders, now)
    case Deliver(_) => s.orders
    case Fault(_) => s.orders
    case Statement(at, now, hidden, pick) =>
      match s.calls[at]
      case AtUpdate(ev) => AdvanceAll(s.orders, ev, now)
      case AtExact(ev) =>
        if pick.Some? then s.orders[pick.value := Claim(s.orders[pick.value], ev, now)] else s.orders
      case AtUnderpaid(ev, _) =>
        if pick.Some? then s.orders[pick.value := MarkUnderpaid(s.orders[pick.value], ev)] else s.orders
      case _ => s.orders
  }

  /** What the call does after its current statement succeeded; None when OnTransfer returns. */
  function Continue(t: Orders, call: Call, hidden: set<OrderId>, pick: Option<OrderId>): Option<Call> {
    match call
    case AtUpdate(ev) => if Advancing(t, ev) then None else Some(AtCheck(ev))
    case AtCheck(ev) => if Held(t, ev.chain, ev.tx) then None else Some(AtExact(ev))
    case AtExact(ev) => if pick.Some? then None else Some(AtUnderpaid(ev, hidden == {}))
    case AtUnderpaid(ev, _) => Some(if pick.Some? then AtLogUnderpaid(ev, pick.value) else AtLogUnmatched(ev))
    case AtLogUnderpaid(_, _) => None
    case AtLogUnmatched(_) => None
  }

  function NextReviews(s: State, e: Event): seq<ReviewItem> {
    if e.Statement? && e.at in s.calls then
      match s.calls[e.at]
      case AtLogUnderpaid(ev, id) => LogReview(s.reviews, UnderpaidItem(ev, id))
      case AtLogUnmatched(ev) => LogReview(s.reviews, UnmatchedItem(ev))
      case _ => s.reviews
    else s.reviews
  }

  function Disturb(call: Call): Call {
    if call.AtUnderpaid? then call.(quiet := false) else call
  }

  function NextCalls(s: State, e: Event): map<Chain, Call> {
    match e
    case Insert(_, chain, _, _, _) => map c | c in s.calls :: if c == chain then Disturb(s.calls[c]) else s.calls[c]
    case Expire(_) => s.calls
    case Deliver(ev) => s.calls[ev.chain := AtUpdate(ev)]
    case Fault(at) => s.calls - {at}
    case Statement(at, _, hidden, pick) =>
      if at !in s.calls then s.calls else
      var next := Continue(s.orders, s.calls[at], hidden, pick);
      if next.Some? then s.calls[at := next.value] else s.calls - {at}
  }

  /** A write that breaks an index changes nothing; inside OnTransfer it also ends the call with an error. */
  function Apply(cfg: Config, s: State, e: Event): State
    requires Legal(cfg, s, e)
  {
    var t := Written(cfg, s, e);
    if Indexed(t) then State(t, NextReviews(s, e), NextCalls(s, e))
    else if e.Statement? then s.(calls := s.calls - {e.at})
    else s
  }

  ghost predicate LegalRun(cfg: Config, s: State, es: seq<Event>)
    decreases |es|
  {
    es == [] || (Legal(cfg, s, es[0]) && LegalRun(cfg, Apply(cfg, s, es[0]), es[1..]))
  }

  ghost function Run(cfg: Config, s: State, es: seq<Event>): State
    requires LegalRun(cfg, s, es)
    decreases |es|
  {
    if es == [] then s else Run(cfg, Apply(cfg, s, es[0]), es[1..])
  }

  // ------------------------------------------------------------- invariants

  /** The columns agree with the status. */
  ghost predicate Consistent(o: Order) {
    match o.status
    case Pending => o.tx.None? && o.received.None? && o.height.None? && o.confirmations == 0 && o.confirmedAt.None?
    case Expired => o.tx.None? && o.received.None? && o.height.None? && o.confirmations == 0 && o.confirmedAt.None?
    case Underpaid => o.tx.Some? && o.received.Some? && o.height.Some? && o.confirmations == 0 && o.confirmedAt.None?
    case Confirming =>
      o.tx.Some? && o.received.Some? && o.height.Some? && o.confirmations < o.required && o.confirmedAt.None?
    case Confirmed =>
      o.tx.Some? && o.received.Some? && o.height.Some? && o.confirmations >= o.required && o.confirmedAt.Some?
  }

  /** How far the received amount may lie from the expected one. */
  ghost predicate Attributed(cfg: Config, o: Order) {
    && ((o.status == Confirming || o.status == Confirmed) && o.received.Some? ==>
          o.expected - cfg.tolerance <= o.received.value <= o.expected + cfg.tolerance)
    && (o.status == Underpaid && o.received.Some? ==>
          Short(o, o.received.value) && GapPercent(o.expected, o.received.value) <= cfg.maxGapPercent)
  }

  /** The CHECK constraints, and the stored amounts differ by a whole number of offset units within the configured range. */
  ghost predicate Offset(cfg: Config, o: Order) {
    && o.base > 0 && o.expected > 0 && (o.expected - o.base) % OFFSET_UNIT == 0
    && cfg.offsetMin * OFFSET_UNIT <= o.expected - o.base <= cfg.offsetMax * OFFSET_UNIT
  }

  ghost predicate RowOk(cfg: Config, o: Order) {
    && o.chain in cfg.required && o.required == cfg.required[o.chain]
    && Consistent(o) && Attributed(cfg, o) && Offset(cfg, o)
  }

  ghost predicate RowsOk(cfg: Config, t: Orders) {
    forall i :: i in t ==> RowOk(cfg, t[i])
  }

  ghost predicate NoneWithin(t: Orders, chain: Chain, amount: Money, tolerance: Money) {
    forall i :: i in t && Open(t[i], chain) ==> !(amount - tolerance <= t[i].expected <= amount + tolerance)
  }

  ghost predicate UnderpaidBy(t: Orders, i: OrderId, chain: Chain, tx: TxHash, amount: Money) {
    i in t && t[i].status == Underpaid && t[i].chain == chain && t[i].tx == Some(tx) && t[i].received == Some(amount)
  }

  /** What a call in flight may rely on while others run. */
  ghost predicate CallOk(cfg: Config, t: Orders, call: Call) {
    match call
    case AtExact(ev) => !Held(t, ev.chain, ev.tx)
    case AtUnderpaid(ev, quiet) =>
      !Held(t, ev.chain, ev.tx) && (quiet ==> NoneWithin(t, ev.chain, ev.amount, cfg.tolerance))
    case AtLogUnmatched(ev) => !Held(t, ev.chain, ev.tx)
    case AtLogUnderpaid(ev, id) => UnderpaidBy(t, id, ev.chain, ev.tx, ev.amount)
    case _ => true
  }

  ghost predicate CallsOk(cfg: Config, t: Orders, calls: map<Chain, Call>) {
    forall c :: c in calls ==> calls[c].ev.chain == c && CallOk(cfg, t, calls[c])
  }

  ghost predicate ReviewOk(t: Orders, r: ReviewItem) {
    match r.reason
    case ReasonUnmatched => r.related.None?
    case ReasonUnderpaid => r.related.Some? && UnderpaidBy(t, r.related.value, r.chain, r.tx, r.amount)
  }

  ghost predicate ReviewsOk(t: Orders, rs: seq<ReviewItem>) {
    UniqueReviews(rs) && forall i :: 0 <= i < |rs| ==> ReviewOk(t, rs[i])
  }

  ghost predicate Inv(cfg: Config, s: State) {
    Indexed(s.orders) && RowsOk(cfg, s.orders) && CallsOk(cfg, s.orders, s.calls) && ReviewsOk(s.orders, s.reviews)
  }

  // -------------------------------------------------- the history of one row

  predicate Terminal(st: Status) {
    st == Confirmed || st == Underpaid || st == Expired
  }

  /** The row history allowed by the order lifecycle: a preorder, so it speaks of any number of steps. */
  ghost predicate Evolves(o: Order, p: Order) {
    && p.chain == o.chain && p.base == o.base && p.expected == o.expected
    && p.required == o.required && p.expiresAt == o.expiresAt
    && (o.tx.Some? ==> p.tx == o.tx)
    && (o.received.Some? ==> p.received == o.received)
    && (o.status != Pending ==> p.confirmations >= o.confirmations)
    && (p.status == Pending ==> o == p)
    && (o.status == Confirming ==> p.status == Confirming || p.status == Confirmed)
    && (Terminal(o.status) ==> p == o)
  }

  ghost predicate TableEvolves(t: Orders, u: Orders) {
    forall i :: i in t ==> i in u && Evolves(t[i], u[i])
  }

  // ------------------------------------------------------------ preservation

  /** Rounding the sum to eight decimals is adding the offset to the rounded base, whenever the result is stored. */
  lemma RoundShift(x: real, n: int)
    requires Round8(x) > 0 && Round8(x + n as real) > 0
    ensures Round8(x + n as real) == Round8(x) + n
  {
    assert x >= 0.0 && x + n as real >= 0.0;
    assert x + n as real + 0.5 == (x + 0.5) + n as real;
    assert (x + 0.5).Floor as real <= x + 0.5 < (x + 0.5).Floor as real + 1.0;
  }

  lemma InsertedRowOk(cfg: Config, s: State, e: Event)
    requires e.Insert? && Legal(cfg, s, e)
    ensures RowOk(cfg, InsertedRow(cfg, e))
  {
    RoundShift(e.rawBase, e.offset * OFFSET_UNIT);
  }

  /** What one event may do to one existing row. */
  ghost predicate RowStep(cfg: Config, s: State, e: Event, o: Order, p: Order) {
    || p == o
    || (e.Expire? && PastDue(o, e.now) && p == o.(status := Expired))
    || (e.Statement? && e.at in s.calls && StatementRowStep(cfg, s.calls[e.at], e.now, o, p))
  }

  ghost predicate StatementRowStep(cfg: Config, call: Call, now: int, o: Order, p: Order) {
    match call
    case AtUpdate(ev) => Advances(o, ev.chain, ev.tx, ev.confirmations)
                         && p == Advance(o, ev.height, ev.confirmations, now)
    case AtExact(ev) => Open(o, ev.chain) && p == Claim(o, ev, now)
                        && ev.amount - cfg.tolerance <= o.expected <= ev.amount + cfg.tolerance
    case AtUnderpaid(ev, _) => Open(o, ev.chain) && p == MarkUnderpaid(o, ev)
                               && Short(o, ev.amount) && GapPercent(o.expected, ev.amount) <= cfg.maxGapPercent
    case _ => false
  }

  lemma WrittenRows(cfg: Config, s: State, e: Event)
    requires Legal(cfg, s, e)
    ensures s.orders.Keys <= Written(cfg, s, e).Keys
    ensures forall i :: i in s.orders ==> RowStep(cfg, s, e, s.orders[i], Written(cfg, s, e)[i])
    ensures forall i :: i in Written(cfg, s, e) && i !in s.orders ==>
      e.Insert? && i == e.id && Written(cfg, s, e)[i] == InsertedRow(cfg, e)
  {
  }

  lemma RowStepOk(cfg: Config, s: State, e: Event, o: Order, p: Order)
    requires RowOk(cfg, o) && RowStep(cfg, s, e, o, p)
    ensures RowOk(cfg, p) && Evolves(o, p)
  {
  }

  /** The event is a claim statement writing the call's transfer to this row. */
  ghost predicate ClaimsRow(s: State, e: Event, i: OrderId) {
    e.Statement? && e.at in s.calls && (s.calls[e.at].AtExact? || s.calls[e.at].AtUnderpaid?) && e.pick == Some(i)
  }

  /** A row holds a transfer because it did before, or because a claim just wrote it. */
  lemma TransferOrigin(cfg: Config, s: State, e: Event, i: OrderId)
    requires Inv(cfg, s) && Legal(cfg, s, e) && i in Written(cfg, s, e) && Written(cfg, s, e)[i].tx.Some?
    ensures i in s.orders && Written(cfg, s, e)[i].chain == s.orders[i].chain
    ensures Written(cfg, s, e)[i].tx == s.orders[i].tx
      || (ClaimsRow(s, e, i) && s.orders[i].chain == e.at && Written(cfg, s, e)[i].tx == Some(s.calls[e.at].ev.tx))
  {
    WrittenRows(cfg, s, e);
    assert i in s.orders && RowStep(cfg, s, e, s.orders[i], Written(cfg, s, e)[i]);
  }

  /** Claims write to one row, and only when no row of the chain holds the transfer yet. */
  lemma WriteKeepsUniqueTx(cfg: Config, s: State, e: Event)
    requires Inv(cfg, s) && Legal(cfg, s, e)
    ensures UniqueTx(Written(cfg, s, e))
  {
    var t := Written(cfg, s, e);
    forall i, j | i in t && j in t && t[i].tx.Some? && t[i].tx == t[j].tx && t[i].chain == t[j].chain
      ensures i == j
    {
      TransferOrigin(cfg, s, e, i);
      TransferOrigin(cfg, s, e, j);
      if ClaimsRow(s, e, i) || ClaimsRow(s, e, j) {
        assert CallOk(cfg, s.orders, s.calls[e.at]);
      }
    }
  }

  /** After UpdateConfirmations no order waits for the transfer although the reported count would do. */
  lemma UpdateOutruns(cfg: Config, s: State, e: Event, i: OrderId)
    requires Inv(cfg, s) && Legal(cfg, s, e) && e.Statement? && s.calls[e.at].AtUpdate? && i in Written(cfg, s, e)
    requires var p := Written(cfg, s, e)[i];
      p.chain == e.at && p.tx == Some(s.calls[e.at].ev.tx) && p.status == Confirming
    ensures s.calls[e.at].ev.confirmations < Written(cfg, s, e)[i].required
  {
    WrittenRows(cfg, s, e);
    assert RowOk(cfg, s.orders[i]);
  }

  lemma WriteKeepsUniquePending(cfg: Config, s: State, e: Event)
    requires Inv(cfg, s) && Legal(cfg, s, e) && !e.Insert?
    ensures UniquePendingAmount(Written(cfg, s, e))
  {
    var t := Written(cfg, s, e);
    RowsEvolve(cfg, s, e);
    WrittenRows(cfg, s, e);
    forall i, j | i in t && j in t && SamePendingAmount(t[i], t[j])
      ensures i == j
    {
      assert t[i] == s.orders[i] && t[j] == s.orders[j];
    }
  }

  /** Every write other than an insert keeps both indexes, so it is never rejected. */
  lemma WriteKeepsIndexes(cfg: Config, s: State, e: Event)
    requires Inv(cfg, s) && Legal(cfg, s, e) && !e.Insert?
    ensures Indexed(Written(cfg, s, e))
  {
    WriteKeepsUniqueTx(cfg, s, e);
    WriteKeepsUniquePending(cfg, s, e);
  }

  lemma RowsStayOk(cfg: Config, s: State, e: Event)
    requires Inv(cfg, s) && Legal(cfg, s, e)
    ensures RowsOk(cfg, Written(cfg, s, e))
  {
    var t := Written(cfg, s, e);
    WrittenRows(cfg, s, e);
    forall i | i in t
      ensures RowOk(cfg, t[i])
    {
      if i in s.orders {
        RowStepOk(cfg, s, e, s.orders[i], t[i]);
      } else {
        InsertedRowOk(cfg, s, e);
      }
    }
  }

  lemma RowsEvolve(cfg: Config, s: State, e: Event)
    requires Inv(cfg, s) && Legal(cfg, s, e)
    ensures TableEvolves(s.orders, Written(cfg, s, e))
  {
    var t := Written(cfg, s, e);
    WrittenRows(cfg, s, e);
    forall i | i in s.orders
      ensures i in t && Evolves(s.orders[i], t[i])
    {
      RowStepOk(cfg, s, e, s.orders[i], t[i]);
    }
  }

  /** A call is not disturbed by anything but its own statements: nobody else attributes a transfer on its chain. */
  lemma CallStable(cfg: Config, s: State, e: Event, c: Chain)
    requires Inv(cfg, s) && Legal(cfg, s, e)
    requires c in s.calls && !(e.Statement? && e.at == c)
    ensures CallOk(cfg, Written(cfg, s, e), if e.Insert? && e.chain == c then Disturb(s.calls[c]) else s.calls[c])
  {
    var t := Written(cfg, s, e);
    var call := s.calls[c];
    WrittenRows(cfg, s, e);
    RowsEvolve(cfg, s, e);
    assert CallOk(cfg, s.orders, call);
    if !Held(s.orders, c, call.ev.tx) {
      forall i | i in t && t[i].chain == c
        ensures t[i].tx != Some(call.ev.tx)
      {
        if i in s.orders {
          assert RowStep(cfg, s, e, s.orders[i], t[i]);
        }
      }
    }
  }

  lemma OwnCallOk(cfg: Config, s: State, e: Event)
    requires Inv(cfg, s) && Legal(cfg, s, e) && e.Statement?
    ensures var next := Continue(s.orders, s.calls[e.at], e.hidden, e.pick);
      next.Some? ==> next.value.ev == s.calls[e.at].ev && CallOk(cfg, Written(cfg, s, e), next.value)
  {
    var t := Written(cfg, s, e);
    var call := s.calls[e.at];
    match call
    case AtExact(ev) =>
      var candidates := ExactCandidates(s.orders, ev.chain, ev.amount, cfg.tolerance, e.hidden);
      if e.pick.None? && e.hidden == {} {
        forall i | i in t && Open(t[i], ev.chain)
          ensures !(ev.amount - cfg.tolerance <= t[i].expected <= ev.amount + cfg.tolerance)
        {
          assert i !in candidates;
        }
      }
    case _ =>
  }

  lemma CallsStayOk(cfg: Config, s: State, e: Event)
    requires Inv(cfg, s) && Legal(cfg, s, e)
    ensures CallsOk(cfg, Written(cfg, s, e), NextCalls(s, e))
  {
    var t, calls := Written(cfg, s, e), NextCalls(s, e);
    forall c | c in calls
      ensures calls[c].ev.chain == c && CallOk(cfg, t, calls[c])
    {
      if e.Statement? && e.at == c {
        OwnCallOk(cfg, s, e);
      } else if c in s.calls && !(e.Deliver? && e.ev.chain == c) {
        CallStable(cfg, s, e, c);
      }
    }
  }

  lemma ReviewsStayOk(cfg: Config, s: State, e: Event)
    requires Inv(cfg, s) && Legal(cfg, s, e)
    ensures ReviewsOk(Written(cfg, s, e), NextReviews(s, e))
  {
    RowsEvolve(cfg, s, e);
  }

  lemma StepKeepsInv(cfg: Config, s: State, e: Event)
    requires Inv(cfg, s) && Legal(cfg, s, e)
    ensures Inv(cfg, Apply(cfg, s, e))
  {
    RowsStayOk(cfg, s, e);
    CallsStayOk(cfg, s, e);
    ReviewsStayOk(cfg, s, e);
  }
}
