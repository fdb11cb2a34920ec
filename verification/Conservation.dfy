/** No money is lost or counted twice: every observed payment is on exactly one order or only in the review queue. */
module Conservation {
  import opened Domain
  import opened OrderTable
  import opened Engine

  type Key = (Chain, TxHash)

  // ------------------------------------------------------------ sums of maps

  ghost function Total<K>(m: map<K, int>): int
    decreases |m|
  {
    if m == map[] then 0 else
      var k :| k in m;
      m[k] + Total(m - {k})
  }

  lemma {:induction false} TotalRemove<K>(m: map<K, int>, k: K)
    requires k in m
    ensures Total(m) == m[k] + Total(m - {k})
    decreases |m|
  {
    var j :| j in m && Total(m) == m[j] + Total(m - {j});
    if j != k {
      TotalRemove(m - {j}, k);
      TotalRemove(m - {k}, j);
      assert m - {j} - {k} == m - {k} - {j};
    }
  }

  /** Renaming the keys one to one does not change the sum. */
  lemma {:induction false} TotalRename<A, B>(m: map<A, int>, name: map<A, B>, n: map<B, int>)
    requires name.Keys == m.Keys
    requires forall a, b :: a in m && b in m && name[a] == name[b] ==> a == b
    requires forall a :: a in m ==> name[a] in n && n[name[a]] == m[a]
    requires forall b :: b in n ==> exists a :: a in m && name[a] == b
    ensures Total(m) == Total(n)
    decreases |m|
  {
    if m == map[] {
      if b :| b in n {
        assert false;
      }
    } else {
      var a :| a in m;
      TotalRemove(m, a);
      TotalRemove(n, name[a]);
      forall b | b in n - {name[a]}
        ensures exists j :: j in m - {a} && (name - {a})[j] == b
      {
        var j :| j in m && name[j] == b;
        assert j in m - {a} && (name - {a})[j] == b;
      }
      TotalRename(m - {a}, name - {a}, n - {name[a]});
    }
  }

  lemma {:induction false} TotalUnion<K>(m: map<K, int>, n: map<K, int>)
    requires m.Keys !! n.Keys
    ensures Total(m + n) == Total(m) + Total(n)
    decreases |m|
  {
    if m == map[] {
      assert m + n == n;
    } else {
      var k :| k in m;
      assert m + n - {k} == (m - {k}) + n;
      calc {
        Total(m + n);
        { TotalRemove(m + n, k); }
        m[k] + Total((m - {k}) + n);
        { TotalUnion(m - {k}, n); }
        m[k] + Total(m - {k}) + Total(n);
        { TotalRemove(m, k); }
        Total(m) + Total(n);
      }
    }
  }

  // --------------------------------------------------------- money in the tables

  /** What the orders hold, row by row. */
  ghost function OnOrders(t: Orders): map<OrderId, int> {
    map i | i in t && t[i].tx.Some? && t[i].received.Some? :: t[i].received.value
  }

  /** Review rows whose transfer no order holds. */
  ghost function InReviewOnly(t: Orders, rs: seq<ReviewItem>): map<int, int> {
    map k | 0 <= k < |rs| && !Held(t, rs[k].chain, rs[k].tx) :: rs[k].amount
  }

  ghost predicate Recorded(s: State, k: Key) {
    Held(s.orders, k.0, k.1) || Reviewed(s.reviews, k.0, k.1)
  }

  // ------------------------------------------------------------------ history

  /** Every transfer is always reported with the one amount that was paid. */
  ghost predicate Honest(paid: map<Key, int>, es: seq<Event>) {
    forall e :: e in es && e.Deliver? ==> HonestEvent(paid, e.ev)
  }

  ghost predicate HonestEvent(paid: map<Key, int>, ev: TransferEvent) {
    (ev.chain, ev.tx) in paid && ev.amount == paid[(ev.chain, ev.tx)]
  }

  ghost predicate NoFaults(es: seq<Event>) {
    forall e :: e in es ==> !e.Fault?
  }

  /** The transfers whose OnTransfer call returned during the run. */
  ghost function Observed(cfg: Config, s: State, es: seq<Event>): set<Key>
    requires LegalRun(cfg, s, es)
    decreases |es|
  {
    if es == [] then {} else
      (if Returns(s, es[0]) then {(es[0].at, s.calls[es[0].at].ev.tx)} else {})
      + Observed(cfg, Apply(cfg, s, es[0]), es[1..])
  }

  ghost predicate Returns(s: State, e: Event) {
    e.Statement? && e.at in s.calls && Continue(s.orders, s.calls[e.at], e.hidden, e.pick).None?
  }

  /** Amounts agree with what was paid, and the recorded transfers are those observed so far plus the ones between an
      underpaid claim and its review row. */
  ghost predicate MoneyInv(paid: map<Key, int>, s: State, seen: set<Key>) {
    && (forall i :: i in s.orders && s.orders[i].tx.Some? ==>
          var k := (s.orders[i].chain, s.orders[i].tx.value); k in paid && s.orders[i].received == Some(paid[k]))
    && (forall r :: r in s.reviews ==> (r.chain, r.tx) in paid && r.amount == paid[(r.chain, r.tx)])
    && (forall c :: c in s.calls ==> HonestEvent(paid, s.calls[c].ev))
    && (forall k :: k in seen ==> Recorded(s, k))
    && (forall k :: Recorded(s, k) ==> k in seen || (k.0 in s.calls && s.calls[k.0].AtLogUnderpaid? && s.calls[k.0].ev.tx == k.1))
  }

  lemma RecordedStays(cfg: Config, s: State, e: Event, k: Key)
    requires Inv(cfg, s) && Legal(cfg, s, e) && Recorded(s, k)
    ensures Recorded(Apply(cfg, s, e), k)
  {
    RowsEvolve(cfg, s, e);
    var t := Written(cfg, s, e);
    if Held(s.orders, k.0, k.1) {
      var i :| i in s.orders && s.orders[i].chain == k.0 && s.orders[i].tx == Some(k.1);
      assert i in t && Evolves(s.orders[i], t[i]);
    } else {
      var j :| 0 <= j < |s.reviews| && s.reviews[j].chain == k.0 && s.reviews[j].tx == k.1;
      assert s.reviews <= NextReviews(s, e);
      assert NextReviews(s, e)[j] == s.reviews[j];
    }
  }

  /** A call returns without a fault only once its transfer is recorded. */
  lemma ReturnRecords(cfg: Config, s: State, e: Event)
    requires Inv(cfg, s) && Legal(cfg, s, e) && Returns(s, e)
    ensures Recorded(Apply(cfg, s, e), (e.at, s.calls[e.at].ev.tx))
  {
    WriteKeepsIndexes(cfg, s, e);
    var call, r := s.calls[e.at], Apply(cfg, s, e);
    var k := (e.at, call.ev.tx);
    match call
    case AtUpdate(ev) =>
      var i :| i in s.orders && Advances(s.orders[i], ev.chain, ev.tx, ev.confirmations);
      assert Recorded(s, k);
      RecordedStays(cfg, s, e, k);
    case AtCheck(ev) =>
      assert Recorded(s, k);
    case AtExact(ev) =>
      assert r.orders[e.pick.value].tx == Some(ev.tx);
    case AtLogUnderpaid(ev, id) =>
      assert Held(s.orders, e.at, ev.tx);
      RecordedStays(cfg, s, e, k);
    case AtLogUnmatched(ev) =>
      if !Reviewed(s.reviews, e.at, ev.tx) {
        assert r.reviews[|s.reviews|] == UnmatchedItem(ev);
      }
  }

  /** A transfer is newly recorded only by the call reporting it. */
  lemma NewlyRecorded(cfg: Config, s: State, e: Event, k: Key)
    requires Inv(cfg, s) && Legal(cfg, s, e) && !Recorded(s, k) && Recorded(Apply(cfg, s, e), k)
    ensures e.Statement? && k == (e.at, s.calls[e.at].ev.tx)
    ensures Returns(s, e) || Continue(s.orders, s.calls[e.at], e.hidden, e.pick).value.AtLogUnderpaid?
  {
    StepKeepsInv(cfg, s, e);
    WrittenRows(cfg, s, e);
    var r := Apply(cfg, s, e);
    if Held(r.orders, k.0, k.1) {
      var i :| i in r.orders && r.orders[i].chain == k.0 && r.orders[i].tx == Some(k.1);
      if i in s.orders {
        assert RowStep(cfg, s, e, s.orders[i], Written(cfg, s, e)[i]);
      }
    }
  }

  ghost function SeenAfter(s: State, e: Event, seen: set<Key>): set<Key> {
    seen + if Returns(s, e) then {(e.at, s.calls[e.at].ev.tx)} else {}
  }

  lemma AmountsStayHonest(cfg: Config, paid: map<Key, int>, s: State, e: Event, seen: set<Key>)
    requires Inv(cfg, s) && Legal(cfg, s, e) && MoneyInv(paid, s, seen) && Honest(paid, [e])
    ensures var r := Apply(cfg, s, e);
      && (forall i :: i in r.orders && r.orders[i].tx.Some? ==>
            var k := (r.orders[i].chain, r.orders[i].tx.value); k in paid && r.orders[i].received == Some(paid[k]))
      && (forall v :: v in r.reviews ==> (v.chain, v.tx) in paid && v.amount == paid[(v.chain, v.tx)])
      && (forall c :: c in r.calls ==> HonestEvent(paid, r.calls[c].ev))
  {
    var r := Apply(cfg, s, e);
    assert e in [e];
    WrittenRows(cfg, s, e);
    forall i | i in r.orders && r.orders[i].tx.Some?
      ensures var k := (r.orders[i].chain, r.orders[i].tx.value); k in paid && r.orders[i].received == Some(paid[k])
    {
      if i in s.orders {
        assert RowStep(cfg, s, e, s.orders[i], Written(cfg, s, e)[i]);
      }
    }
  }

  lemma MoneyStep(cfg: Config, paid: map<Key, int>, s: State, e: Event, seen: set<Key>)
    requires Inv(cfg, s) && Legal(cfg, s, e) && MoneyInv(paid, s, seen) && Honest(paid, [e]) && NoFaults([e])
    ensures MoneyInv(paid, Apply(cfg, s, e), SeenAfter(s, e, seen))
  {
    var r, after := Apply(cfg, s, e), SeenAfter(s, e, seen);
    assert e in [e];
    AmountsStayHonest(cfg, paid, s, e, seen);
    if !e.Insert? {
      WriteKeepsIndexes(cfg, s, e);
    }
    forall k | k in after
      ensures Recorded(r, k)
    {
      if k in seen {
        RecordedStays(cfg, s, e, k);
      } else {
        ReturnRecords(cfg, s, e);
      }
    }
    forall k | Recorded(r, k)
      ensures k in after || (k.0 in r.calls && r.calls[k.0].AtLogUnderpaid? && r.calls[k.0].ev.tx == k.1)
    {
      if !Recorded(s, k) {
        NewlyRecorded(cfg, s, e, k);
      }
    }
  }

  lemma {:induction false} MoneyRun(cfg: Config, paid: map<Key, int>, s: State, es: seq<Event>, seen: set<Key>)
    requires Inv(cfg, s) && LegalRun(cfg, s, es) && MoneyInv(paid, s, seen) && Honest(paid, es) && NoFaults(es)
    ensures Inv(cfg, Run(cfg, s, es)) && MoneyInv(paid, Run(cfg, s, es), seen + Observed(cfg, s, es))
    decreases |es|
  {
    if es == [] {
      assert seen + Observed(cfg, s, es) == seen;
    } else {
      var e, m := es[0], Apply(cfg, s, es[0]);
      assert Honest(paid, [e]) && NoFaults([e]);
      StepKeepsInv(cfg, s, e);
      MoneyStep(cfg, paid, s, e, seen);
      MoneyRun(cfg, paid, m, es[1..], SeenAfter(s, e, seen));
      assert SeenAfter(s, e, seen) + Observed(cfg, m, es[1..]) == seen + Observed(cfg, s, es);
    }
  }

  /** With no call in flight the tables account for exactly the observed payments. */
  lemma Balance(cfg: Config, paid: map<Key, int>, s: State, seen: set<Key>)
    requires Inv(cfg, s) && MoneyInv(paid, s, seen) && s.calls == map[] && seen <= paid.Keys
    ensures Total(OnOrders(s.orders)) + Total(InReviewOnly(s.orders, s.reviews)) == Total(map k | k in seen :: paid[k])
  {
    var held: map<Key, int> := map k | k in seen && Held(s.orders, k.0, k.1) :: paid[k];
    var loose: map<Key, int> := map k | k in seen && !Held(s.orders, k.0, k.1) :: paid[k];
    assert held + loose == map k | k in seen :: paid[k];
    TotalUnion(held, loose);
    HeldMoney(cfg, paid, s, seen, held);
    LooseMoney(cfg, paid, s, seen, loose);
  }

  lemma HeldMoney(cfg: Config, paid: map<Key, int>, s: State, seen: set<Key>, held: map<Key, int>)
    requires Inv(cfg, s) && MoneyInv(paid, s, seen) && s.calls == map[] && seen <= paid.Keys
    requires held == map k | k in seen && Held(s.orders, k.0, k.1) :: paid[k]
    ensures Total(OnOrders(s.orders)) == Total(held)
  {
    var m := OnOrders(s.orders);
    var name := map i | i in m :: (s.orders[i].chain, s.orders[i].tx.value);
    forall i | i in m
      ensures name[i] in held && held[name[i]] == m[i]
    {
      assert Recorded(s, name[i]);
    }
    forall k | k in held
      ensures exists i :: i in m && name[i] == k
    {
      var i :| i in s.orders && s.orders[i].chain == k.0 && s.orders[i].tx == Some(k.1);
      assert i in m && name[i] == k;
    }
    TotalRename(m, name, held);
  }

  lemma ReviewRow(s: State, k: Key) returns (j: int)
    requires Reviewed(s.reviews, k.0, k.1)
    ensures 0 <= j < |s.reviews| && (s.reviews[j].chain, s.reviews[j].tx) == k
  {
    j :| 0 <= j < |s.reviews| && s.reviews[j].chain == k.0 && s.reviews[j].tx == k.1;
  }

  lemma ReviewNamesDiffer(cfg: Config, s: State, i: int, j: int)
    requires Inv(cfg, s) && 0 <= i < |s.reviews| && 0 <= j < |s.reviews|
    requires s.reviews[i].chain == s.reviews[j].chain && s.reviews[i].tx == s.reviews[j].tx
    ensures i == j
  {
  }

  ghost function ReviewName(t: Orders, rs: seq<ReviewItem>): map<int, Key> {
    map j | 0 <= j < |rs| && !Held(t, rs[j].chain, rs[j].tx) :: (rs[j].chain, rs[j].tx)
  }

  lemma LooseOnto(cfg: Config, paid: map<Key, int>, s: State, seen: set<Key>, k: Key)
    requires MoneyInv(paid, s, seen) && k in seen && !Held(s.orders, k.0, k.1)
    ensures exists j :: j in InReviewOnly(s.orders, s.reviews) && ReviewName(s.orders, s.reviews)[j] == k
  {
    assert Recorded(s, k);
    var j := ReviewRow(s, k);
    assert j in InReviewOnly(s.orders, s.reviews) && ReviewName(s.orders, s.reviews)[j] == k;
  }

  lemma LooseNamed(cfg: Config, paid: map<Key, int>, s: State, seen: set<Key>, j: int)
    requires MoneyInv(paid, s, seen) && s.calls == map[] && j in InReviewOnly(s.orders, s.reviews)
    ensures var k := ReviewName(s.orders, s.reviews)[j];
      k in seen && k in paid && !Held(s.orders, k.0, k.1) && paid[k] == InReviewOnly(s.orders, s.reviews)[j]
  {
    assert s.reviews[j] in s.reviews;
    assert Recorded(s, (s.reviews[j].chain, s.reviews[j].tx));
  }

  lemma LooseMoney(cfg: Config, paid: map<Key, int>, s: State, seen: set<Key>, loose: map<Key, int>)
    requires Inv(cfg, s) && MoneyInv(paid, s, seen) && s.calls == map[] && seen <= paid.Keys
    requires loose == map k | k in seen && !Held(s.orders, k.0, k.1) :: paid[k]
    ensures Total(InReviewOnly(s.orders, s.reviews)) == Total(loose)
  {
    var m, name := InReviewOnly(s.orders, s.reviews), ReviewName(s.orders, s.reviews);
    forall j | j in m
      ensures name[j] in loose && loose[name[j]] == m[j]
    {
      LooseNamed(cfg, paid, s, seen, j);
    }
    forall i, j | i in m && j in m && name[i] == name[j]
      ensures i == j
    {
      ReviewNamesDiffer(cfg, s, i, j);
    }
    forall k | k in loose
      ensures exists j :: j in m && name[j] == k
    {
      LooseOnto(cfg, paid, s, seen, k);
    }
    TotalRename(m, name, loose);
  }

  /** The transfers reported during the run. */
  ghost function Delivered(es: seq<Event>): set<Key> {
    set e | e in es && e.Deliver? :: (e.ev.chain, e.ev.tx)
  }

  ghost function InFlight(s: State): set<Key> {
    set c | c in s.calls :: (c, s.calls[c].ev.tx)
  }

  lemma DeliveredFirst(es: seq<Event>)
    requires es != []
    ensures Delivered(es) == Delivered([es[0]]) + Delivered(es[1..])
  {
    assert es == [es[0]] + es[1..];
  }

  lemma Exchange(a: set<Key>, d: set<Key>, o: set<Key>, m: set<Key>, later: set<Key>, rest: set<Key>, f: set<Key>)
    requires a + d == o + m && m + later == rest + f
    ensures a + (d + later) == (o + rest) + f
  {
    calc {
      a + (d + later);
      (a + d) + later;
      o + (m + later);
      (o + rest) + f;
    }
  }

  /** Without faults every reported transfer's call returns or is still in flight. */
  lemma {:induction false} DeliveredCallsReturn(cfg: Config, s: State, es: seq<Event>)
    requires Inv(cfg, s) && LegalRun(cfg, s, es) && NoFaults(es)
    ensures InFlight(s) + Delivered(es) == Observed(cfg, s, es) + InFlight(Run(cfg, s, es))
    decreases |es|
  {
    if es != [] {
      var e, m := es[0], Apply(cfg, s, es[0]);
      StepKeepsInv(cfg, s, e);
      DeliveredCallsReturn(cfg, m, es[1..]);
      DeliveredFirst(es);
      FlightStep(cfg, s, e);
      Exchange(InFlight(s), Delivered([e]), SeenAfter(s, e, {}), InFlight(m), Delivered(es[1..]),
               Observed(cfg, m, es[1..]), InFlight(Run(cfg, m, es[1..])));
    }
  }

  ghost predicate Flying(s: State, k: Key) {
    k.0 in s.calls && s.calls[k.0].ev.tx == k.1
  }

  lemma FlyingKey(s: State, k: Key)
    ensures k in InFlight(s) <==> Flying(s, k)
  {
  }

  lemma FlightOfKey(cfg: Config, s: State, e: Event, k: Key)
    requires Inv(cfg, s) && Legal(cfg, s, e) && !e.Fault?
    ensures Flying(s, k) || (e.Deliver? && k == (e.ev.chain, e.ev.tx))
      <==> Flying(Apply(cfg, s, e), k) || (Returns(s, e) && k == (e.at, s.calls[e.at].ev.tx))
  {
    if !e.Insert? {
      WriteKeepsIndexes(cfg, s, e);
    }
  }

  lemma FlightStep(cfg: Config, s: State, e: Event)
    requires Inv(cfg, s) && Legal(cfg, s, e) && !e.Fault?
    ensures InFlight(s) + Delivered([e]) == SeenAfter(s, e, {}) + InFlight(Apply(cfg, s, e))
  {
    var m := Apply(cfg, s, e);
    assert e in [e];
    forall k
      ensures k in InFlight(s) + Delivered([e]) <==> k in SeenAfter(s, e, {}) + InFlight(m)
    {
      FlyingKey(s, k);
      FlyingKey(m, k);
      FlightOfKey(cfg, s, e, k);
      assert k in Delivered([e]) <==> e.Deliver? && k == (e.ev.chain, e.ev.tx);
    }
  }

  /** Conservation over every fault-free run: the observed payments add up to what the orders received plus the review
      rows whose transfer no order holds, including transfers first logged as unmatched and claimed later. */
  lemma MoneyIsConserved(cfg: Config, paid: map<Key, int>, es: seq<Event>)
    requires LegalRun(cfg, Start, es) && Honest(paid, es) && NoFaults(es) && Run(cfg, Start, es).calls == map[]
    ensures var s, seen := Run(cfg, Start, es), Delivered(es);
      && seen <= paid.Keys
      && Total(OnOrders(s.orders)) + Total(InReviewOnly(s.orders, s.reviews)) == Total(map k | k in seen :: paid[k])
      && forall k :: k in seen <==> Recorded(s, k)
  {
    var s, seen := Run(cfg, Start, es), Observed(cfg, Start, es);
    DeliveredCallsReturn(cfg, Start, es);
    assert InFlight(Start) + Delivered(es) == Delivered(es) && seen + InFlight(s) == seen;
    MoneyRun(cfg, paid, Start, es, {});
    assert {} + seen == seen;
    forall k | k in seen
      ensures k in paid
    {
      assert Recorded(s, k);
    }
    Balance(cfg, paid, s, seen);
  }
}
