/** What every run of the matching engine keeps, whatever the interleaving of statements, faults, creations and sweeps. */
module EngineSafety {
  import opened Domain
  import opened Underpayment
  import opened OrderTable
  import opened Engine

  lemma {:induction false} RunKeepsInv(cfg: Config, s: State, es: seq<Event>)
    requires Inv(cfg, s) && LegalRun(cfg, s, es)
    ensures Inv(cfg, Run(cfg, s, es))
    decreases |es|
  {
    if es != [] {
      StepKeepsInv(cfg, s, es[0]);
      RunKeepsInv(cfg, Apply(cfg, s, es[0]), es[1..]);
    }
  }

  lemma StartInv(cfg: Config)
    ensures Inv(cfg, Start)
  {
  }

  /** Of all statements only the insert of a new order can ever be rejected by an index, and exactly when another
      pending order of the chain has the same expected amount. */
  lemma OnlyInsertsAreRejected(cfg: Config, es: seq<Event>, e: Event)
    requires LegalRun(cfg, Start, es) && Legal(cfg, Run(cfg, Start, es), e)
    ensures var s := Run(cfg, Start, es);
      Indexed(s.orders)
      && (!Indexed(Written(cfg, s, e)) <==>
            e.Insert?
            && exists i :: i in s.orders && s.orders[i].status == Pending && s.orders[i].chain == e.chain
                           && s.orders[i].expected == Round8(e.rawBase + (e.offset * 10_000) as real))
  {
    StartInv(cfg);
    RunKeepsInv(cfg, Start, es);
    var s := Run(cfg, Start, es);
    WriteKeepsUniqueTx(cfg, s, e);
    if e.Insert? {
      var t := Written(cfg, s, e);
      assert t[e.id] == InsertedRow(cfg, e);
      if i :| i in s.orders && s.orders[i].status == Pending && s.orders[i].chain == e.chain
              && s.orders[i].expected == Round8(e.rawBase + (e.offset * 10_000) as real) {
        assert i in t && SamePendingAmount(t[i], t[e.id]);
      }
    } else {
      WriteKeepsIndexes(cfg, s, e);
    }
  }

  /** In every reachable state a transfer is on at most one order of its chain, and pending orders of a chain ask for
      different amounts. */
  lemma OrdersAreTellable(cfg: Config, es: seq<Event>, i: OrderId, j: OrderId)
    requires LegalRun(cfg, Start, es) && i in Run(cfg, Start, es).orders && j in Run(cfg, Start, es).orders && i != j
    ensures var o, p := Run(cfg, Start, es).orders[i], Run(cfg, Start, es).orders[j];
      && (o.chain == p.chain && o.tx.Some? ==> o.tx != p.tx)
      && (o.chain == p.chain && o.status == Pending && p.status == Pending ==> o.expected != p.expected)
  {
    StartInv(cfg);
    RunKeepsInv(cfg, Start, es);
    var t := Run(cfg, Start, es).orders;
    assert SamePendingAmount(t[i], t[j]) ==> i == j;
  }

  lemma EvolvesTransitive(o: Order, p: Order, q: Order)
    requires Evolves(o, p) && Evolves(p, q)
    ensures Evolves(o, q)
  {
  }

  /** Over any run no row disappears, and each moves only along the lifecycle: terminal rows never change, transfer and
      received amount are written once, confirmations never fall. */
  lemma {:induction false} RunEvolves(cfg: Config, s: State, es: seq<Event>)
    requires Inv(cfg, s) && LegalRun(cfg, s, es)
    ensures TableEvolves(s.orders, Run(cfg, s, es).orders)
    decreases |es|
  {
    if es != [] {
      var m := Apply(cfg, s, es[0]);
      StepKeepsInv(cfg, s, es[0]);
      RowsEvolve(cfg, s, es[0]);
      RunEvolves(cfg, m, es[1..]);
      var t := Run(cfg, m, es[1..]).orders;
      assert t == Run(cfg, s, es).orders;
      forall i | i in s.orders
        ensures i in t && Evolves(s.orders[i], t[i])
      {
        EvolvesTransitive(s.orders[i], m.orders[i], t[i]);
      }
    }
  }

  /** In every reachable state the columns of every row agree with its status, and what was received lies within the
      tolerance (confirming, confirmed) or short by at most the configured gap (underpaid). */
  lemma RowsAreConsistent(cfg: Config, es: seq<Event>, i: OrderId)
    requires LegalRun(cfg, Start, es) && i in Run(cfg, Start, es).orders
    ensures var o := Run(cfg, Start, es).orders[i];
      && (o.tx.Some? <==> o.status in {Confirming, Confirmed, Underpaid})
      && (o.tx.Some? <==> o.received.Some?) && (o.tx.Some? <==> o.height.Some?)
      && (o.confirmedAt.Some? <==> o.status == Confirmed)
      && (o.status == Confirmed ==> o.confirmations >= o.required)
      && (o.status == Confirming ==> o.confirmations < o.required)
      && (o.status in {Confirming, Confirmed} ==> -cfg.tolerance <= o.received.value - o.expected <= cfg.tolerance)
      && (o.status == Underpaid ==>
            0 < o.expected && o.received.value < o.expected && GapPercent(o.expected, o.received.value) <= cfg.maxGapPercent
            && (o.expected - o.received.value) * 1_000_000_000_000_000_000 <= (cfg.maxGapPercent + 50) * o.expected)
  {
    StartInv(cfg);
    RunKeepsInv(cfg, Start, es);
    var o := Run(cfg, Start, es).orders[i];
    assert RowOk(cfg, o);
    if o.status == Underpaid {
      LimitMeans(o.expected, o.received.value, cfg.maxGapPercent);
    }
  }

  /** The run sweeps at a time past the due time. */
  ghost predicate SweptAfter(es: seq<Event>, due: int) {
    exists k :: 0 <= k < |es| && es[k].Expire? && due < es[k].now
  }

  /** One step expires an order only by a sweep past its due time, and such a sweep expires every pending one. */
  lemma ExpiryStep(cfg: Config, s: State, e: Event, i: OrderId)
    requires Inv(cfg, s) && Legal(cfg, s, e) && i in Apply(cfg, s, e).orders
    ensures var p := Apply(cfg, s, e).orders[i];
      && (p.status == Expired ==>
            i in s.orders && (s.orders[i].status == Expired || (e.Expire? && s.orders[i].expiresAt < e.now)))
      && (e.Expire? && p.status == Pending ==> e.now <= p.expiresAt)
  {
    WrittenRows(cfg, s, e);
    if !e.Insert? {
      WriteKeepsIndexes(cfg, s, e);
    }
    if i in s.orders {
      assert RowStep(cfg, s, e, s.orders[i], Written(cfg, s, e)[i]);
    }
  }

  /** Over every run: no order is expired before some sweep found it past due. */
  lemma {:induction false} ExpiredWasDue(cfg: Config, s: State, es: seq<Event>, i: OrderId)
    requires Inv(cfg, s) && LegalRun(cfg, s, es) && i in Run(cfg, s, es).orders
    requires Run(cfg, s, es).orders[i].status == Expired
    ensures (i in s.orders && s.orders[i].status == Expired) || SweptAfter(es, Run(cfg, s, es).orders[i].expiresAt)
    decreases |es|
  {
    if es != [] {
      var e, m, rest := es[0], Apply(cfg, s, es[0]), es[1..];
      StepKeepsInv(cfg, s, e);
      ExpiredWasDue(cfg, m, rest, i);
      var due := Run(cfg, s, es).orders[i].expiresAt;
      if SweptAfter(rest, due) {
        var k :| 0 <= k < |rest| && rest[k].Expire? && due < rest[k].now;
        assert es[k + 1] == rest[k];
      } else {
        ExpiryStep(cfg, s, e, i);
        RunEvolves(cfg, m, rest);
        RowsEvolve(cfg, s, e);
        assert s.orders[i].status == Expired || es[0].Expire?;
      }
    }
  }

  /** When no row was skipped and nothing was inserted between the two claim statements, an underpaid order is short by
      more than the tolerance: a payment good enough for an exact match is never downgraded. */
  lemma QuietShortfall(cfg: Config, es: seq<Event>, e: Event)
    requires LegalRun(cfg, Start, es) && Legal(cfg, Run(cfg, Start, es), e)
    requires e.Statement? && e.pick.Some?
    requires var call := Run(cfg, Start, es).calls[e.at]; call.AtUnderpaid? && call.quiet
    ensures var s := Run(cfg, Start, es);
      s.orders[e.pick.value].expected - s.calls[e.at].ev.amount > cfg.tolerance
      && Apply(cfg, s, e).orders[e.pick.value].status == Underpaid
  {
    StartInv(cfg);
    RunKeepsInv(cfg, Start, es);
    var s := Run(cfg, Start, es);
    WriteKeepsIndexes(cfg, s, e);
    assert CallOk(cfg, s.orders, s.calls[e.at]);
    assert Open(s.orders[e.pick.value], e.at);
    if cfg.tolerance < 0 {
      assert s.orders[e.pick.value].expected > s.calls[e.at].ev.amount;
    }
  }

  /** One review row per transfer; an `underpaid` row points at an underpaid order holding exactly that payment; an
      `unmatched` row points at no order. */
  lemma ReviewsAreCoherent(cfg: Config, es: seq<Event>)
    requires LegalRun(cfg, Start, es)
    ensures var s := Run(cfg, Start, es);
      && UniqueReviews(s.reviews)
      && (forall i, j :: 0 <= i < j < |s.reviews| && s.reviews[i].chain == s.reviews[j].chain ==> s.reviews[i].tx != s.reviews[j].tx)
      && forall r :: r in s.reviews ==>
        if r.reason == ReasonUnmatched then r.related.None?
        else r.related.Some? && r.related.value in s.orders && s.orders[r.related.value].status == Underpaid
             && s.orders[r.related.value].tx == Some(r.tx) && s.orders[r.related.value].chain == r.chain
             && s.orders[r.related.value].received == Some(r.amount)
  {
    StartInv(cfg);
    RunKeepsInv(cfg, Start, es);
    var s := Run(cfg, Start, es);
    forall r | r in s.reviews
      ensures ReviewOk(s.orders, r)
    {
      var k :| 0 <= k < |s.reviews| && s.reviews[k] == r;
    }
  }

  /** The review of an underpaid order carries the reason `underpaid` exactly when the transfer had no review row yet:
      a transfer first logged as unmatched keeps that row. */
  lemma FirstReviewWins(cfg: Config, s: State, e: Event)
    requires Inv(cfg, s) && Legal(cfg, s, e) && e.Statement? && s.calls[e.at].AtLogUnderpaid?
    ensures var call := s.calls[e.at];
      var after := Apply(cfg, s, e).reviews;
      Reviewed(after, e.at, call.ev.tx)
      && (UnderpaidItem(call.ev, call.id) in after && UnderpaidItem(call.ev, call.id) !in s.reviews
          <==> !Reviewed(s.reviews, e.at, call.ev.tx))
  {
    WriteKeepsIndexes(cfg, s, e);
    var call := s.calls[e.at];
    var after := Apply(cfg, s, e).reviews;
    var item := UnderpaidItem(call.ev, call.id);
    if Reviewed(s.reviews, e.at, call.ev.tx) {
      assert after == s.reviews;
    } else {
      assert after == s.reviews + [item] && after[|s.reviews|] == item;
    }
  }

  // ----------------------------------------------------------- offset capacity

  ghost function PendingOfBase(t: Orders, c: Chain, base: Money): set<OrderId> {
    set i | i in t && t[i].status == Pending && t[i].chain == c && t[i].base == base
  }

  /** The offset, in ten-thousandths, that a row was given. */
  ghost function OffsetOf(o: Order): int {
    (o.expected - o.base) / OFFSET_UNIT
  }

  lemma {:induction false} InjectiveIntoRange(s: set<OrderId>, f: map<OrderId, int>, lo: int, hi: int)
    requires s <= f.Keys && lo <= hi + 1
    requires forall i, j :: i in s && j in s && f[i] == f[j] ==> i == j
    requires forall i :: i in s ==> lo <= f[i] <= hi
    ensures |s| <= hi - lo + 1
    decreases hi - lo + 1
  {
    if lo <= hi {
      if i :| i in s && f[i] == hi {
        InjectiveIntoRange(s - {i}, f, lo, hi - 1);
        assert |s| == |s - {i}| + 1;
      } else {
        InjectiveIntoRange(s, f, lo, hi - 1);
      }
    } else if i :| i in s {
      assert false;
    }
  }

  /** Every stored order lies a configured number of offset units above its stored base, so a chain never has more
      pending orders of one base than there are offsets. */
  lemma OffsetCapacity(cfg: Config, es: seq<Event>, c: Chain, base: Money)
    requires LegalRun(cfg, Start, es) && cfg.offsetMin <= cfg.offsetMax
    ensures var t := Run(cfg, Start, es).orders;
      (forall i :: i in t ==> cfg.offsetMin <= OffsetOf(t[i]) <= cfg.offsetMax
                              && t[i].expected == t[i].base + OffsetOf(t[i]) * 10_000)
      && |PendingOfBase(t, c, base)| <= cfg.offsetMax - cfg.offsetMin + 1
  {
    StartInv(cfg);
    RunKeepsInv(cfg, Start, es);
    var t := Run(cfg, Start, es).orders;
    forall i | i in t
      ensures cfg.offsetMin <= OffsetOf(t[i]) <= cfg.offsetMax && t[i].expected == t[i].base + OffsetOf(t[i]) * OFFSET_UNIT
    {
      assert RowOk(cfg, t[i]);
    }
    var s := PendingOfBase(t, c, base);
    var f := map i | i in t :: OffsetOf(t[i]);
    forall i, j | i in s && j in s && f[i] == f[j]
      ensures i == j
    {
      assert SamePendingAmount(t[i], t[j]);
    }
    InjectiveIntoRange(s, f, cfg.offsetMin, cfg.offsetMax);
  }
}
