/** At-least-once delivery: what repeated, reordered and interleaved reports of one transfer amount to. */
module Delivery {
  import opened Domain
  import opened Underpayment
  import opened OrderTable
  import opened Engine
  import EngineSafety

  /** The event runs the UpdateConfirmations statement for this transfer. */
  predicate Reporting(s: State, e: Event, c: Chain, tx: TxHash) {
    e.Statement? && e.at == c && c in s.calls && s.calls[c].AtUpdate? && s.calls[c].ev.tx == tx
  }

  /** The confirmation counts reported for a transfer along a run, in order. */
  ghost function Reports(cfg: Config, s: State, es: seq<Event>, c: Chain, tx: TxHash): seq<int>
    requires LegalRun(cfg, s, es)
    decreases |es|
  {
    if es == [] then [] else
      (if Reporting(s, es[0], c, tx) then [s.calls[c].ev.confirmations] else [])
      + Reports(cfg, Apply(cfg, s, es[0]), es[1..], c, tx)
  }

  ghost predicate Reaches(ns: seq<int>, required: int) {
    exists n :: n in ns && n >= required
  }

  /** m is the largest of n and ns. */
  ghost predicate IsMax(m: int, n: int, ns: seq<int>) {
    (m == n || m in ns) && m >= n && forall k :: k in ns ==> m >= k
  }

  ghost predicate Holds(t: Orders, i: OrderId, c: Chain, tx: TxHash) {
    i in t && t[i].chain == c && t[i].tx == Some(tx)
  }

  /** One event moves a claimed order's row only by reporting its transfer with a count no lower than the stored one. */
  lemma ClaimedRowStep(cfg: Config, s: State, e: Event, i: OrderId, c: Chain, tx: TxHash)
    requires Inv(cfg, s) && Legal(cfg, s, e) && Holds(s.orders, i, c, tx)
    requires s.orders[i].status in {Confirming, Confirmed}
    ensures Inv(cfg, Apply(cfg, s, e)) && Holds(Apply(cfg, s, e).orders, i, c, tx)
    ensures var o, p := s.orders[i], Apply(cfg, s, e).orders[i];
      && p.required == o.required
      && if o.status == Confirming && Reporting(s, e, c, tx) && s.calls[c].ev.confirmations >= o.confirmations then
           p.confirmations == s.calls[c].ev.confirmations
           && p.status == if p.confirmations >= o.required then Confirmed else Confirming
         else p == o
  {
    StepKeepsInv(cfg, s, e);
    WrittenRows(cfg, s, e);
    RowsEvolve(cfg, s, e);
    assert RowStep(cfg, s, e, s.orders[i], Written(cfg, s, e)[i]);
    if !e.Insert? {
      WriteKeepsIndexes(cfg, s, e);
    }
  }

  /** The row o may become p by reports ns: confirmed exactly when some count, its own included, reached the required
      one; until then it stores the largest count. */
  ghost predicate Absorbs(o: Order, ns: seq<int>, p: Order) {
    && p.required == o.required && p.status in {Confirming, Confirmed}
    && (p.status == Confirmed <==> o.confirmations >= o.required || Reaches(ns, o.required))
    && (p.status == Confirming ==> IsMax(p.confirmations, o.confirmations, ns))
  }

  lemma AbsorbFirst(o: Order, first: seq<int>, p: Order, rest: seq<int>, q: Order)
    requires o.status == Confirmed <==> o.confirmations >= o.required
    requires o.status in {Confirming, Confirmed} && p.required == o.required && |first| <= 1
    requires if o.status == Confirming && |first| == 1 && first[0] >= o.confirmations then
               p.confirmations == first[0] && p.status == if p.confirmations >= o.required then Confirmed else Confirming
             else p == o
    requires Absorbs(p, rest, q)
    ensures Absorbs(o, first + rest, q)
  {
    var ns := first + rest;
    assert forall n :: n in ns <==> n in first || n in rest;
    assert |first| == 1 ==> first[0] in ns;
  }

  /** Once a transfer has matched an order, the order is confirmed exactly when some report, the claim's included,
      reached the required count; until then it stores the largest count reported. Nothing else in the run matters. */
  lemma {:induction false} AtLeastOnce(cfg: Config, s: State, es: seq<Event>, i: OrderId, c: Chain, tx: TxHash)
    requires Inv(cfg, s) && LegalRun(cfg, s, es) && Holds(s.orders, i, c, tx)
    requires s.orders[i].status in {Confirming, Confirmed}
    ensures var o, t, ns := s.orders[i], Run(cfg, s, es).orders, Reports(cfg, s, es, c, tx);
      Holds(t, i, c, tx) && Absorbs(o, ns, t[i])
    decreases |es|
  {
    assert RowOk(cfg, s.orders[i]);
    if es != [] {
      var e, m := es[0], Apply(cfg, s, es[0]);
      ClaimedRowStep(cfg, s, e, i, c, tx);
      AtLeastOnce(cfg, m, es[1..], i, c, tx);
      AbsorbFirst(s.orders[i], if Reporting(s, e, c, tx) then [s.calls[c].ev.confirmations] else [], m.orders[i],
                  Reports(cfg, m, es[1..], c, tx), Run(cfg, s, es).orders[i]);
    }
  }

  /** The effect does not depend on the order of the reports, nor on what they were interleaved with. */
  lemma OrderInsensitive(cfg: Config, s1: State, es1: seq<Event>, s2: State, es2: seq<Event>,
                         i1: OrderId, i2: OrderId, c: Chain, tx: TxHash)
    requires Inv(cfg, s1) && LegalRun(cfg, s1, es1) && Holds(s1.orders, i1, c, tx)
    requires Inv(cfg, s2) && LegalRun(cfg, s2, es2) && Holds(s2.orders, i2, c, tx)
    requires s1.orders[i1] == s2.orders[i2] && s1.orders[i1].status in {Confirming, Confirmed}
    requires multiset(Reports(cfg, s1, es1, c, tx)) == multiset(Reports(cfg, s2, es2, c, tx))
    ensures i1 in Run(cfg, s1, es1).orders && i2 in Run(cfg, s2, es2).orders
    ensures var p1, p2 := Run(cfg, s1, es1).orders[i1], Run(cfg, s2, es2).orders[i2];
      p1.status == p2.status && (p1.status == Confirming ==> p1.confirmations == p2.confirmations)
  {
    var ns1, ns2 := Reports(cfg, s1, es1, c, tx), Reports(cfg, s2, es2, c, tx);
    AtLeastOnce(cfg, s1, es1, i1, c, tx);
    AtLeastOnce(cfg, s2, es2, i2, c, tx);
    forall n
      ensures n in ns1 <==> n in ns2
    {
      assert n in ns1 <==> n in multiset(ns1);
      assert n in ns2 <==> n in multiset(ns2);
    }
  }

  /** While an order holds a transfer, every statement of a call for that transfer leaves all other orders alone. */
  lemma OthersUntouched(cfg: Config, s: State, e: Event, i: OrderId, j: OrderId, tx: TxHash)
    requires Inv(cfg, s) && Legal(cfg, s, e) && e.Statement? && s.calls[e.at].ev.tx == tx
    requires Holds(s.orders, i, e.at, tx) && j in s.orders && j != i
    ensures Apply(cfg, s, e).orders.Keys == s.orders.Keys && Apply(cfg, s, e).orders[j] == s.orders[j]
  {
    WrittenRows(cfg, s, e);
    assert CallOk(cfg, s.orders, s.calls[e.at]);
    assert RowStep(cfg, s, e, s.orders[j], Written(cfg, s, e)[j]);
    WriteKeepsIndexes(cfg, s, e);
  }

  /** And so over every run that follows: a report of a held transfer never changes another order. */
  lemma ReportsSpareOthers(cfg: Config, s: State, es: seq<Event>, e: Event, i: OrderId, j: OrderId, tx: TxHash)
    requires Inv(cfg, s) && LegalRun(cfg, s, es) && Legal(cfg, Run(cfg, s, es), e) && e.Statement?
    requires Holds(s.orders, i, e.at, tx) && Run(cfg, s, es).calls[e.at].ev.tx == tx
    requires j in Run(cfg, s, es).orders && j != i
    ensures var m := Run(cfg, s, es);
      Holds(m.orders, i, e.at, tx)
      && Apply(cfg, m, e).orders.Keys == m.orders.Keys && Apply(cfg, m, e).orders[j] == m.orders[j]
  {
    EngineSafety.RunKeepsInv(cfg, s, es);
    EngineSafety.RunEvolves(cfg, s, es);
    OthersUntouched(cfg, Run(cfg, s, es), e, i, j, tx);
  }

  // ------------------------------------------------------- unmatched verdicts

  /** No order holds the transfer, and none could take it. */
  ghost predicate NoTaker(cfg: Config, t: Orders, c: Chain, tx: TxHash, amount: Money) {
    && !Held(t, c, tx)
    && NoneWithin(t, c, amount, cfg.tolerance)
    && forall i :: i in t && Open(t[i], c) && Short(t[i], amount) ==> GapPercent(t[i].expected, amount) > cfg.maxGapPercent
  }

  /** No call in flight reports the transfer with another amount, and none is past its verdict with an order in hand. */
  ghost predicate OneAmount(s: State, c: Chain, tx: TxHash, amount: Money) {
    c in s.calls && s.calls[c].ev.tx == tx ==> s.calls[c].ev.amount == amount && !s.calls[c].AtLogUnderpaid?
  }

  /** The run inserts nothing on the chain and always reports the transfer with this amount. */
  ghost predicate Undisturbed(es: seq<Event>, c: Chain, tx: TxHash, amount: Money) {
    forall e :: e in es ==>
      && !(e.Insert? && e.chain == c)
      && (e.Deliver? && e.ev.chain == c && e.ev.tx == tx ==> e.ev.amount == amount)
  }

  /** Without a taker no statement touches an order on behalf of the transfer. */
  lemma NoTakerRows(cfg: Config, s: State, e: Event, c: Chain, tx: TxHash, amount: Money, i: OrderId)
    requires Inv(cfg, s) && Legal(cfg, s, e) && NoTaker(cfg, s.orders, c, tx, amount) && OneAmount(s, c, tx, amount)
    requires Undisturbed([e], c, tx, amount)
    requires i in Written(cfg, s, e) && Written(cfg, s, e)[i].chain == c
    ensures var p := Written(cfg, s, e)[i];
      p.tx != Some(tx) && (Open(p, c) ==> i in s.orders && p == s.orders[i])
  {
    WrittenRows(cfg, s, e);
    assert e in [e];
    assert i in s.orders && RowStep(cfg, s, e, s.orders[i], Written(cfg, s, e)[i]);
    assert s.orders[i].tx != Some(tx);
  }

  lemma OneAmountStep(cfg: Config, s: State, e: Event, c: Chain, tx: TxHash, amount: Money)
    requires Inv(cfg, s) && Legal(cfg, s, e) && NoTaker(cfg, s.orders, c, tx, amount) && OneAmount(s, c, tx, amount)
    requires Undisturbed([e], c, tx, amount)
    ensures OneAmount(Apply(cfg, s, e), c, tx, amount)
  {
    assert e in [e];
  }

  lemma NoTakerStep(cfg: Config, s: State, e: Event, c: Chain, tx: TxHash, amount: Money)
    requires Inv(cfg, s) && Legal(cfg, s, e) && NoTaker(cfg, s.orders, c, tx, amount) && OneAmount(s, c, tx, amount)
    requires Undisturbed([e], c, tx, amount)
    ensures NoTaker(cfg, Apply(cfg, s, e).orders, c, tx, amount) && OneAmount(Apply(cfg, s, e), c, tx, amount)
    ensures Inv(cfg, Apply(cfg, s, e))
  {
    StepKeepsInv(cfg, s, e);
    OneAmountStep(cfg, s, e, c, tx, amount);
    forall i | i in Written(cfg, s, e) && Written(cfg, s, e)[i].chain == c
      ensures Written(cfg, s, e)[i].tx != Some(tx)
      ensures Open(Written(cfg, s, e)[i], c) ==> i in s.orders && Written(cfg, s, e)[i] == s.orders[i]
    {
      NoTakerRows(cfg, s, e, c, tx, amount, i);
    }
  }

  /** An unmatched verdict is final until an order is created on the chain: later deliveries of the same payment find
      no taker either, whatever else happens in between. */
  lemma {:induction false} UnmatchedIsStable(cfg: Config, s: State, es: seq<Event>, c: Chain, tx: TxHash, amount: Money)
    requires Inv(cfg, s) && LegalRun(cfg, s, es) && NoTaker(cfg, s.orders, c, tx, amount) && OneAmount(s, c, tx, amount)
    requires Undisturbed(es, c, tx, amount)
    ensures var r := Run(cfg, s, es);
      NoTaker(cfg, r.orders, c, tx, amount) && OneAmount(r, c, tx, amount) && Inv(cfg, r)
    decreases |es|
  {
    if es != [] {
      assert Undisturbed([es[0]], c, tx, amount);
      NoTakerStep(cfg, s, es[0], c, tx, amount);
      UnmatchedIsStable(cfg, Apply(cfg, s, es[0]), es[1..], c, tx, amount);
    }
  }

  /** The verdict: with no taker, a call for the payment can only go on to the unmatched review. */
  lemma NoTakerMeansUnmatched(cfg: Config, s: State, e: Event)
    requires Inv(cfg, s) && Legal(cfg, s, e) && e.Statement?
    requires var ev := s.calls[e.at].ev; NoTaker(cfg, s.orders, e.at, ev.tx, ev.amount)
    ensures Written(cfg, s, e) == s.orders
    ensures s.calls[e.at].AtLogUnmatched? || Continue(s.orders, s.calls[e.at], e.hidden, e.pick).Some?
    ensures var next := Continue(s.orders, s.calls[e.at], e.hidden, e.pick);
      next.Some? ==> !next.value.AtLogUnderpaid?
  {
    var call := s.calls[e.at];
    assert CallOk(cfg, s.orders, call);
    match call
    case AtUpdate(ev) => assert Written(cfg, s, e) == s.orders;
    case AtExact(ev) =>
      var candidates := ExactCandidates(s.orders, ev.chain, ev.amount, cfg.tolerance, e.hidden);
      assert candidates == {};
    case AtUnderpaid(ev, _) =>
      var candidates := UnderpaidCandidates(s.orders, ev.chain, ev.amount, e.hidden);
      assert forall i :: i in candidates ==> GapPercent(s.orders[i].expected, ev.amount) > cfg.maxGapPercent;
    case _ =>
  }

  /** The statement that gives the unmatched verdict leaves a state without a taker, provided both claim statements saw
      every row and no order was inserted on the chain between them. */
  lemma VerdictHasNoTaker(cfg: Config, s: State, e: Event)
    requires Inv(cfg, s) && Legal(cfg, s, e) && e.Statement? && e.pick.None? && e.hidden == {}
    requires s.calls[e.at].AtUnderpaid? && s.calls[e.at].quiet
    ensures var ev, r := s.calls[e.at].ev, Apply(cfg, s, e);
      r.calls[e.at] == AtLogUnmatched(ev) && NoTaker(cfg, r.orders, e.at, ev.tx, ev.amount)
      && OneAmount(r, e.at, ev.tx, ev.amount)
  {
    var ev := s.calls[e.at].ev;
    assert CallOk(cfg, s.orders, s.calls[e.at]);
    WriteKeepsIndexes(cfg, s, e);
    var candidates := UnderpaidCandidates(s.orders, ev.chain, ev.amount, e.hidden);
    forall i | i in s.orders && Open(s.orders[i], e.at) && Short(s.orders[i], ev.amount)
      ensures GapPercent(s.orders[i].expected, ev.amount) > cfg.maxGapPercent
    {
      assert i in candidates;
    }
  }

  /** After an unmatched verdict that saw every row, and until an order is created on the chain, every further call for the
      payment ends unmatched: whatever the run, each of its statements writes to no order, and if it returns it has just
      logged the transfer as unmatched. */
  lemma VerdictIsRepeated(cfg: Config, s: State, e: Event, es: seq<Event>, f: Event)
    requires Inv(cfg, s) && Legal(cfg, s, e) && e.Statement? && e.pick.None? && e.hidden == {}
    requires s.calls[e.at].AtUnderpaid? && s.calls[e.at].quiet
    requires LegalRun(cfg, Apply(cfg, s, e), es) && Undisturbed(es, e.at, s.calls[e.at].ev.tx, s.calls[e.at].ev.amount)
    requires var r := Run(cfg, Apply(cfg, s, e), es);
      Legal(cfg, r, f) && f.Statement? && f.at == e.at && r.calls[e.at].ev.tx == s.calls[e.at].ev.tx
    ensures var r := Run(cfg, Apply(cfg, s, e), es);
      var next := Continue(r.orders, r.calls[f.at], f.hidden, f.pick);
      && Apply(cfg, r, f).orders == r.orders
      && (next.None? <==> r.calls[f.at].AtLogUnmatched?)
      && (next.None? ==> NextReviews(r, f) == LogReview(r.reviews, UnmatchedItem(r.calls[f.at].ev)))
  {
    var ev, m := s.calls[e.at].ev, Apply(cfg, s, e);
    VerdictHasNoTaker(cfg, s, e);
    StepKeepsInv(cfg, s, e);
    UnmatchedIsStable(cfg, m, es, e.at, ev.tx, ev.amount);
    var r := Run(cfg, m, es);
    NoTakerMeansUnmatched(cfg, r, f);
    WriteKeepsIndexes(cfg, r, f);
    assert r.calls[f.at].ev.amount == ev.amount;
  }
}
