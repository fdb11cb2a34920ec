/** The order repository: each method runs one SQL statement (ClaimUnderpaid one transaction) against the tables. */
module Repository {
  import opened Domain
  import opened Underpayment
  import opened OrderTable

  datatype DbError = Unavailable | UniqueViolation

  datatype CreateError = InvalidOffsetRange | InsertFailed | NoUniqueAmount

  /** What one pass of the retry loop draws from its surroundings: a new UUID, rand.Intn, the clock, the connection. */
  datatype Attempt = Attempt(id: OrderId, draw: nat, now: int, fault: bool)

  /** The request an order is created from, apart from the random offset. */
  datatype Request = Request(chain: Chain, rawBase: real, required: int, expiry: int, offsetMin: int, offsetMax: int)

  function AttemptRow(q: Request, a: Attempt): Order {
    NewRow(q.chain, q.rawBase, if q.offsetMax > q.offsetMin then q.offsetMin + a.draw else q.offsetMin,
           q.required, a.now + q.expiry)
  }

  /** The attempt fails for another reason than a collision. */
  predicate Breaks(q: Request, a: Attempt) {
    a.fault || !Storable(AttemptRow(q, a))
  }

  predicate Retries(t: Orders, q: Request, a: Attempt) {
    !Breaks(q, a) && Collides(t, a.id, AttemptRow(q, a))
  }

  // ------------------------------------------------------ what the columns must be

  /** The amount the attempt asks the payer for: base plus offset in ten-thousandths of a dollar, in hundred-millionths. */
  ghost function Price(q: Request, a: Attempt): Money {
    Round8(q.rawBase + ((if q.offsetMax > q.offsetMin then q.offsetMin + a.draw else q.offsetMin) * 10_000) as real)
  }

  /** No connection, or an amount that is not positive or has more than twelve digits before the point. */
  ghost predicate Refused(q: Request, a: Attempt) {
    a.fault || !(0 < Round8(q.rawBase) < 100_000_000_000_000_000_000 && 0 < Price(q, a) < 100_000_000_000_000_000_000)
  }

  /** The id is in use, or a pending order of the chain asks for the same amount. */
  ghost predicate Taken(t: Orders, q: Request, a: Attempt) {
    a.id in t || exists i :: i in t && t[i].status == Pending && t[i].chain == q.chain && t[i].expected == Price(q, a)
  }

  ghost predicate AllTaken(t: Orders, q: Request, attempts: seq<Attempt>, n: int)
    requires n <= |attempts|
  {
    forall k :: 0 <= k < n ==> !Refused(q, attempts[k]) && Taken(t, q, attempts[k])
  }

  ghost function FreshRow(q: Request, a: Attempt): Order {
    Order(q.chain, Round8(q.rawBase), Price(q, a), q.required, a.now + q.expiry, Pending, None, None, None, 0, None)
  }

  /** A confirming order that holds the event's transfer with no higher a count. */
  ghost predicate Due(o: Order, ev: TransferEvent) {
    o.chain == ev.chain && o.tx == Some(ev.tx) && o.status == Confirming && o.confirmations <= ev.confirmations
  }

  /** An open order of the event's chain whose amount lies within the tolerance of the event's. */
  ghost predicate Within(o: Order, ev: TransferEvent, tolerance: Money) {
    o.chain == ev.chain && o.status == Pending && o.tx == None && -tolerance <= o.expected - ev.amount <= tolerance
  }

  /** An open order of the event's chain that asks for more than the event's amount. */
  ghost predicate Above(o: Order, ev: TransferEvent) {
    o.chain == ev.chain && o.status == Pending && o.tx == None && o.expected > ev.amount && o.expected > 0
  }

  /** The share of the expected amount that is missing, in units of 1e-16 percent, exceeds the bound. */
  ghost predicate MissesOver(o: Order, amount: Money, bound: int) {
    (o.expected - amount) * 1_000_000_000_000_000_000 > bound * o.expected
  }

  class Repository {
    var orders: Orders
    var reviews: seq<ReviewItem>

    /** What the database itself guarantees. */
    ghost predicate Valid()
      reads this
    {
      Indexed(orders) && UniqueReviews(reviews)
    }

    constructor ()
      ensures Valid() && orders == map[] && reviews == []
    {
      orders, reviews := map[], [];
    }

    /** Retries with a fresh offset while the insert collides; stores the first attempt that does not. */
    method CreateWithUniqueAmount(q: Request, maxRetries: int, attempts: seq<Attempt>)
      returns (r: Result<OrderId, CreateError>)
      requires Valid() && maxRetries <= |attempts|
      requires forall k :: 0 <= k < |attempts| ==> q.offsetMin + attempts[k].draw <= q.offsetMax || q.offsetMax <= q.offsetMin
      modifies this`orders
      ensures Valid()
      ensures r == Err(InvalidOffsetRange) <==> q.offsetMax < q.offsetMin
      ensures r.Err? ==> orders == old(orders)
      ensures r == Err(NoUniqueAmount) <==> q.offsetMin <= q.offsetMax && AllTaken(old(orders), q, attempts, maxRetries)
      ensures r == Err(InsertFailed) <==>
        q.offsetMin <= q.offsetMax
        && exists k :: 0 <= k < maxRetries && AllTaken(old(orders), q, attempts, k) && Refused(q, attempts[k])
      ensures r.Ok? ==>
        exists k :: 0 <= k < maxRetries && AllTaken(old(orders), q, attempts, k)
                    && !Refused(q, attempts[k]) && !Taken(old(orders), q, attempts[k])
                    && r.value == attempts[k].id && orders == old(orders)[r.value := FreshRow(q, attempts[k])]
    {
      if q.offsetMax < q.offsetMin {
        return Err(InvalidOffsetRange);
      }
      var attempt := 0;
      while attempt < maxRetries
        invariant 0 <= attempt && (attempt <= maxRetries || attempt == 0)
        invariant orders == old(orders)
        invariant attempt <= |attempts| && AllTaken(orders, q, attempts, attempt)
      {
        var a := attempts[attempt];
        var row := AttemptRow(q, a);
        AttemptMeans(orders, q, a);
        if Breaks(q, a) {
          return Err(InsertFailed);
        }
        if !Collides(orders, a.id, row) {
          orders := orders[a.id := row];
          return Ok(a.id);
        }
        attempt := attempt + 1;
      }
      return Err(NoUniqueAmount);
    }

    /** Every order accumulating confirmations on the chain, in no particular order, each once. */
    method ListConfirming(chain: Chain, fault: bool) returns (r: Result<seq<OrderId>, DbError>)
      ensures r.Err? <==> fault
      ensures r.Ok? ==> forall i, j :: 0 <= i < j < |r.value| ==> r.value[i] != r.value[j]
      ensures r.Ok? ==>
        forall i :: i in r.value <==> i in orders && orders[i].chain == chain && orders[i].status == Confirming
    {
      if fault {
        return Err(Unavailable);
      }
      var rest := set i | i in orders && orders[i].chain == chain && orders[i].status == Confirming;
      var ids: seq<OrderId> := [];
      while rest != {}
        invariant forall i :: i in rest || i in ids <==>
          i in orders && orders[i].chain == chain && orders[i].status == Confirming
        invariant forall i :: i in ids ==> i !in rest
        invariant forall i, j :: 0 <= i < j < |ids| ==> ids[i] != ids[j]
        decreases |rest|
      {
        var i :| i in rest;
        rest := rest - {i};
        ids := ids + [i];
      }
      return Ok(ids);
    }

    /** SELECT EXISTS: whether an order of the chain, in whatever status, holds the transfer already. */
    method TxAlreadyClaimed(chain: Chain, tx: TxHash, fault: bool) returns (r: Result<bool, DbError>)
      requires Valid()
      ensures r.Err? <==> fault
      ensures r.Ok? ==> (r.value <==> exists i :: i in orders && orders[i].chain == chain && orders[i].tx == Some(tx))
      // what the caller learns: false exactly if any open order of the chain can take the transfer without being rejected
      ensures r.Ok? ==> forall i, ev: TransferEvent, now: int ::
        i in orders && Open(orders[i], chain) && ev.chain == chain && ev.tx == tx ==>
          (r.value <==> !Indexed(orders[i := Claim(orders[i], ev, now)]))
    {
      if fault {
        return Err(Unavailable);
      }
      var found := false;
      var rest := orders.Keys;
      while rest != {} && !found
        invariant rest <= orders.Keys
        invariant found <==> exists i :: i in orders && i !in rest && orders[i].chain == chain && orders[i].tx == Some(tx)
        decreases |rest|
      {
        var i :| i in rest;
        rest := rest - {i};
        found := orders[i].chain == chain && orders[i].tx == Some(tx);
      }
      forall i, ev: TransferEvent, now: int | i in orders && Open(orders[i], chain) && ev.chain == chain && ev.tx == tx
        ensures Held(orders, chain, tx) <==> !Indexed(orders[i := Claim(orders[i], ev, now)])
      {
        ClaimIsRejectedIff(orders, i, ev, now);
      }
      return Ok(found);
    }

    /** Advances the order that holds the transfer; true when such a row was found. */
    method UpdateConfirmations(ev: TransferEvent, now: int, fault: bool) returns (r: Result<bool, DbError>)
      requires Valid()
      modifies this`orders
      ensures Valid()
      ensures r == if fault then Err(Unavailable) else Ok(Advancing(old(orders), ev))
      ensures orders == if fault then old(orders) else AdvanceAll(old(orders), ev, now)
      ensures r.Ok? ==> (r.value <==> exists i :: i in old(orders) && Due(old(orders)[i], ev))
      ensures orders.Keys == old(orders).Keys
      ensures forall i :: i in orders ==>
        var o := old(orders)[i];
        orders[i] == if fault || !Due(o, ev) then o
                     else if ev.confirmations < o.required then o.(height := Some(ev.height), confirmations := ev.confirmations)
                     else o.(height := Some(ev.height), confirmations := ev.confirmations, status := Confirmed,
                             confirmedAt := if o.confirmedAt == None then Some(now) else o.confirmedAt)
    {
      if fault {
        return Err(Unavailable);
      }
      var found := Advancing(orders, ev);
      orders := AdvanceAll(orders, ev, now);
      return Ok(found);
    }

    /** SELECT id ... ORDER BY expires_at ASC LIMIT 1 */
    method OldestOf(among: set<OrderId>) returns (pick: Option<OrderId>)
      requires among <= orders.Keys
      ensures ExactPick(orders, among, pick)
    {
      pick := None;
      var rest := among;
      while rest != {}
        invariant rest <= among
        invariant ExactPick(orders, among - rest, pick)
        decreases |rest|
      {
        var i :| i in rest;
        if pick.None? || orders[i].expiresAt < orders[pick.value].expiresAt {
          pick := Some(i);
        }
        rest := rest - {i};
      }
      assert among - rest == among;
    }

    /** Attributes a transfer to the oldest unlocked pending order within the tolerance. */
    method ClaimExactMatch(ev: TransferEvent, now: int, tolerance: Money, hidden: set<OrderId>, fault: bool)
      returns (r: Result<Option<OrderId>, DbError>)
      requires Valid()
      modifies this`orders
      ensures Valid()
      ensures r == Err(Unavailable) <==> fault
      ensures r == Err(UniqueViolation) ==> Held(old(orders), ev.chain, ev.tx)
      ensures r.Err? ==> orders == old(orders)
      ensures r.Ok? ==> ExactPick(old(orders), ExactCandidates(old(orders), ev.chain, ev.amount, tolerance, hidden), r.value)
      ensures r.Ok? ==> orders == if r.value.None? then old(orders)
        else old(orders)[r.value.value := Claim(old(orders)[r.value.value], ev, now)]
      ensures r == Ok(None) ==> forall i :: i in old(orders) && i !in hidden ==> !Within(old(orders)[i], ev, tolerance)
      ensures r.Ok? && r.value.Some? ==>
        var i := r.value.value;
        && i in old(orders) && i !in hidden && Within(old(orders)[i], ev, tolerance)
        && (forall j :: j in old(orders) && j !in hidden && Within(old(orders)[j], ev, tolerance) ==>
              old(orders)[i].expiresAt <= old(orders)[j].expiresAt)
        && var o := old(orders)[i];
          orders == old(orders)[i := Order(o.chain, o.base, o.expected, o.required, o.expiresAt,
                                           if ev.confirmations < o.required then Confirming else Confirmed, Some(ev.tx),
                                           Some(ev.amount), Some(ev.height), ev.confirmations,
                                           if ev.confirmations < o.required then None else Some(now))]
    {
      assert forall i :: i in ExactCandidates(orders, ev.chain, ev.amount, tolerance, hidden) <==>
        i in orders && i !in hidden && Within(orders[i], ev, tolerance);
      if fault {
        return Err(Unavailable);
      }
      var pick := OldestOf(ExactCandidates(orders, ev.chain, ev.amount, tolerance, hidden));
      if pick.None? {
        return Ok(None);
      }
      var t := orders[pick.value := Claim(orders[pick.value], ev, now)];
      OneRowWrite(orders, t, pick.value, ev);
      if !Indexed(t) {
        return Err(UniqueViolation);
      }
      orders := t;
      return Ok(pick);
    }

    /** SELECT ... ORDER BY expected_amount ASC */
    method OrderByExpected(among: set<OrderId>) returns (ids: seq<OrderId>)
      requires among <= orders.Keys
      ensures forall i :: i in ids <==> i in among
      ensures forall i :: 0 <= i < |ids| ==> ids[i] in among
      ensures forall i, j :: 0 <= i < j < |ids| ==> ids[i] != ids[j] && orders[ids[i]].expected <= orders[ids[j]].expected
    {
      ids := [];
      var rest := among;
      while rest != {}
        invariant rest <= among && forall i :: 0 <= i < |ids| ==> ids[i] in among
        invariant forall i :: i in ids <==> i in among && i !in rest
        invariant forall i, j :: 0 <= i < j < |ids| ==> ids[i] != ids[j] && orders[ids[i]].expected <= orders[ids[j]].expected
        invariant forall i, j :: i in ids && j in rest ==> orders[i].expected <= orders[j].expected
        decreases |rest|
      {
        var least :| least in rest;
        var unseen := rest;
        while unseen != {}
          invariant unseen <= rest && least in rest
          invariant forall i :: i in rest && i !in unseen ==> orders[least].expected <= orders[i].expected
          decreases |unseen|
        {
          var i :| i in unseen;
          if orders[i].expected < orders[least].expected {
            least := i;
          }
          unseen := unseen - {i};
        }
        rest := rest - {least};
        ids := ids + [least];
      }
    }

    /** The candidates in ascending order of amount, scanned for the smallest acceptable shortfall. */
    method NearestAbove(among: set<OrderId>, amount: Money, maxGapPercent: int) returns (pick: Option<OrderId>)
      requires among <= orders.Keys && forall j :: j in among ==> orders[j].expected > amount && orders[j].expected > 0
      ensures UnderpaidPick(orders, among, amount, maxGapPercent, pick)
      ensures pick.Some? && amount >= 0 ==> forall j :: j in among ==> orders[pick.value].expected <= orders[j].expected
    {
      var candidates := OrderByExpected(among);
      var t := orders;
      var expected := seq(|candidates|, k requires 0 <= k < |candidates| && candidates[k] in t => t[candidates[k]].expected);
      var best := BestCandidate(expected, amount, maxGapPercent);
      pick := if best.None? then None else Some(candidates[best.value]);
      BestIsPick(t, among, candidates, expected, amount, maxGapPercent, best);
      if pick.Some? && amount >= 0 {
        SmallestGapIsNearest(t, among, amount, maxGapPercent, pick.value);
      }
    }

    /** Marks the nearest order above the amount underpaid, if the shortfall is within the limit. */
    method ClaimUnderpaid(ev: TransferEvent, maxGapPercent: int, hidden: set<OrderId>, fault: bool)
      returns (r: Result<Option<OrderId>, DbError>)
      requires Valid()
      modifies this`orders
      ensures Valid()
      ensures r == Err(Unavailable) <==> fault
      ensures r == Err(UniqueViolation) ==> Held(old(orders), ev.chain, ev.tx)
      ensures r.Err? ==> orders == old(orders)
      ensures r.Ok? ==> UnderpaidPick(old(orders), UnderpaidCandidates(old(orders), ev.chain, ev.amount, hidden),
                                      ev.amount, maxGapPercent, r.value)
      ensures r.Ok? ==> orders == if r.value.None? then old(orders)
        else old(orders)[r.value.value := MarkUnderpaid(old(orders)[r.value.value], ev)]
      ensures r == Ok(None) ==> forall i :: i in old(orders) && i !in hidden && Above(old(orders)[i], ev) ==>
        MissesOver(old(orders)[i], ev.amount, maxGapPercent - 50)
      ensures r.Ok? && r.value.Some? ==>
        var i := r.value.value;
        && i in old(orders) && i !in hidden && Above(old(orders)[i], ev)
        && !MissesOver(old(orders)[i], ev.amount, maxGapPercent + 50)
        && (ev.amount >= 0 ==> forall j :: j in old(orders) && j !in hidden && Above(old(orders)[j], ev) ==>
              old(orders)[i].expected <= old(orders)[j].expected)
        && var o := old(orders)[i];
          orders == old(orders)[i := Order(o.chain, o.base, o.expected, o.required, o.expiresAt, Underpaid, Some(ev.tx),
                                           Some(ev.amount), Some(ev.height), o.confirmations, o.confirmedAt)]
    {
      if fault {
        return Err(Unavailable);
      }
      var among := UnderpaidCandidates(orders, ev.chain, ev.amount, hidden);
      assert forall i :: i in among <==> i in orders && i !in hidden && Above(orders[i], ev);
      ShareMeans(orders, among, ev.amount, maxGapPercent);
      var best := NearestAbove(among, ev.amount, maxGapPercent);
      if best.None? {
        return Ok(None);
      }
      var pick := best.value;
      var t := orders[pick := MarkUnderpaid(orders[pick], ev)];
      OneRowWrite(orders, t, pick, ev);
      if !Indexed(t) {
        return Err(UniqueViolation);
      }
      orders := t;
      return Ok(Some(pick));
    }

    /** Expires every pending order past its due time and reports which. */
    method ExpirePastDue(now: int, fault: bool) returns (r: Result<set<OrderId>, DbError>)
      requires Valid()
      modifies this`orders
      ensures Valid()
      ensures r.Err? <==> fault
      ensures r.Ok? ==> forall i :: i in r.value <==> i in old(orders) && PastDue(old(orders)[i], now)
      ensures orders == if fault then old(orders) else ExpireAll(old(orders), now)
      // exactly the pending rows past due expire, none of them is left, and no other row changes
      ensures orders.Keys == old(orders).Keys
      ensures forall i :: i in orders ==>
        var o := old(orders)[i];
        orders[i] == if !fault && o.status == Pending && o.expiresAt < now then o.(status := Expired) else o
      ensures !fault ==> forall i :: i in orders && orders[i].status == Pending ==> now <= orders[i].expiresAt
      ensures r.Ok? ==> forall i :: i in r.value <==> i in orders && orders[i] != old(orders)[i]
    {
      if fault {
        return Err(Unavailable);
      }
      var expired := set i | i in orders && PastDue(orders[i], now);
      orders := ExpireAll(orders, now);
      return Ok(expired);
    }

    /** Adds a review row unless the transfer already has one. */
    method LogReviewItem(item: ReviewItem, fault: bool) returns (r: Result<(), DbError>)
      requires Valid()
      modifies this`reviews
      ensures Valid()
      ensures r == if fault then Err(Unavailable) else Ok(())
      ensures reviews == if fault then old(reviews) else LogReview(old(reviews), item)
      ensures !fault ==> Reviewed(reviews, item.chain, item.tx)
      ensures reviews ==
        if fault || exists k :: 0 <= k < |old(reviews)| && old(reviews)[k].chain == item.chain && old(reviews)[k].tx == item.tx
        then old(reviews) else old(reviews) + [item]
    {
      if fault {
        return Err(Unavailable);
      }
      if !Reviewed(reviews, item.chain, item.tx) {
        reviews := reviews + [item];
        assert reviews[|reviews| - 1] == item;
      }
      return Ok(());
    }
  }

  /** An attempt in terms of its columns. */
  lemma AttemptMeans(t: Orders, q: Request, a: Attempt)
    requires Indexed(t)
    ensures AttemptRow(q, a) == FreshRow(q, a)
    ensures Breaks(q, a) <==> Refused(q, a)
    ensures Collides(t, a.id, AttemptRow(q, a)) <==> Taken(t, q, a)
  {
    var o := AttemptRow(q, a);
    if a.id !in t {
      CollisionMeans(t, a.id, o);
    }
  }

  /** A new row without a transfer collides exactly when a pending order of its chain asks for the same amount. */
  lemma CollisionMeans(t: Orders, id: OrderId, o: Order)
    requires Indexed(t) && id !in t && o.status == Pending && o.tx.None?
    ensures Collides(t, id, o) <==>
      exists i :: i in t && t[i].status == Pending && t[i].chain == o.chain && t[i].expected == o.expected
  {
    var u := t[id := o];
    if i :| i in t && t[i].status == Pending && t[i].chain == o.chain && t[i].expected == o.expected {
      assert u[i] == t[i] && u[id] == o;
      assert SamePendingAmount(u[i], u[id]);
    } else {
      forall i, j | i in u && j in u && SamePendingAmount(u[i], u[j])
        ensures i == j
      {
        assert i in t && j in t ==> SamePendingAmount(t[i], t[j]);
      }
    }
  }

  /** The limit on the rounded share, in terms of the amounts. */
  lemma ShareMeans(t: Orders, among: set<OrderId>, amount: Money, maxGapPercent: int)
    requires among <= t.Keys && forall j :: j in among ==> t[j].expected > amount && t[j].expected > 0
    ensures forall j :: j in among ==>
      if GapPercent(t[j].expected, amount) <= maxGapPercent then !MissesOver(t[j], amount, maxGapPercent + 50)
      else MissesOver(t[j], amount, maxGapPercent - 50)
  {
    forall j | j in among
      ensures if GapPercent(t[j].expected, amount) <= maxGapPercent then !MissesOver(t[j], amount, maxGapPercent + 50)
              else MissesOver(t[j], amount, maxGapPercent - 50)
    {
      ShareOfRow(t[j], amount, maxGapPercent);
    }
  }

  lemma ShareOfRow(o: Order, amount: Money, maxGapPercent: int)
    requires amount < o.expected && 0 < o.expected
    ensures if GapPercent(o.expected, amount) <= maxGapPercent then !MissesOver(o, amount, maxGapPercent + 50)
            else MissesOver(o, amount, maxGapPercent - 50)
  {
    LimitMeans(o.expected, amount, maxGapPercent);
  }

  /** What the scan over the ordered amounts picks is what the specification picks among the rows. */
  lemma BestIsPick(t: Orders, among: set<OrderId>, ids: seq<OrderId>, expected: seq<Money>, amount: Money,
                   maxGapPercent: int, best: Option<nat>)
    requires among <= t.Keys && forall j :: j in among ==> t[j].expected > amount && t[j].expected > 0
    requires |expected| == |ids| && Ascending(expected) && forall j :: j in ids <==> j in among
    requires forall k :: 0 <= k < |ids| ==> ids[k] in among && expected[k] == t[ids[k]].expected
    requires best.None? <==> forall k :: 0 <= k < |ids| ==> GapPercent(expected[k], amount) > maxGapPercent
    requires best.Some? ==>
      && best.value < |ids| && GapPercent(expected[best.value], amount) <= maxGapPercent
      && (forall k :: 0 <= k < |ids| ==> GapPercent(expected[best.value], amount) <= GapPercent(expected[k], amount))
      && (forall k :: 0 <= k < best.value ==> GapPercent(expected[best.value], amount) < GapPercent(expected[k], amount))
    ensures UnderpaidPick(t, among, amount, maxGapPercent, if best.None? then None else Some(ids[best.value]))
  {
    forall j | j in among
      ensures best.None? ==> GapPercent(t[j].expected, amount) > maxGapPercent
      ensures best.Some? ==> Preferred(expected[best.value], t[j].expected, amount)
    {
      assert j in ids;
      var k :| 0 <= k < |ids| && ids[k] == j;
      assert expected[k] == t[j].expected;
    }
  }

  /** Giving one open row a transfer no other row of the chain holds keeps the indexes. */
  lemma OneRowWrite(t: Orders, u: Orders, i: OrderId, ev: TransferEvent)
    requires Indexed(t) && i in t && Open(t[i], ev.chain)
    requires i in u && u == t[i := u[i]] && u[i].chain == ev.chain && u[i].status != Pending && u[i].tx == Some(ev.tx)
    ensures Indexed(u) || Held(t, ev.chain, ev.tx)
  {
  }

  /** The unique index on transfers rejects a claim exactly when some order of the chain holds the transfer. */
  lemma ClaimIsRejectedIff(t: Orders, i: OrderId, ev: TransferEvent, now: int)
    requires Indexed(t) && i in t && Open(t[i], ev.chain)
    ensures Held(t, ev.chain, ev.tx) <==> !Indexed(t[i := Claim(t[i], ev, now)])
  {
    var u := t[i := Claim(t[i], ev, now)];
    OneRowWrite(t, u, i, ev);
    if j :| j in t && t[j].chain == ev.chain && t[j].tx == Some(ev.tx) {
      assert u[j] == t[j] && u[i].tx == u[j].tx && u[i].chain == u[j].chain;
    }
  }
}
