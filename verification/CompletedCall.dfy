/** One whole OnTransfer call as a relation between tables, and its place among the engine's runs. */
module CompletedCall {
  import opened Domain
  import opened OrderTable
  import opened Engine

  datatype Tables = Tables(orders: Orders, reviews: seq<ReviewItem>)

  datatype Verdict =
    | Progressed
    | AlreadyFinal
    | Matched(id: OrderId)
    | ShortOn(id: OrderId)
    | Unmatched
    | Failed

  /** Which statement's round trip to the database fails, should it be reached. */
  datatype Faults = Faults(update: bool, check: bool, exact: bool, underpaid: bool, review: bool)

  /** Rows other transactions hold locked while a claim statement runs. */
  datatype Locks = Locks(exact: set<OrderId>, underpaid: set<OrderId>)

  const NO_FAULTS: Faults := Faults(false, false, false, false, false)
  const NO_LOCKS: Locks := Locks({}, {})

  ghost predicate Logged(a: Tables, item: ReviewItem, fault: bool, b: Tables) {
    b == if fault then a else a.(reviews := LogReview(a.reviews, item))
  }

  ghost predicate ShortClaim(cfg: Config, a: Tables, ev: TransferEvent, locks: Locks, faults: Faults, v: Verdict, b: Tables) {
    var among := UnderpaidCandidates(a.orders, ev.chain, ev.amount, locks.underpaid);
    if faults.underpaid then v == Failed && b == a else
      match v
      case ShortOn(i) =>
        UnderpaidPick(a.orders, among, ev.amount, cfg.maxGapPercent, Some(i))
        && Logged(a.(orders := a.orders[i := MarkUnderpaid(a.orders[i], ev)]), UnderpaidItem(ev, i), faults.review, b)
      case Unmatched =>
        UnderpaidPick(a.orders, among, ev.amount, cfg.maxGapPercent, None)
        && Logged(a, UnmatchedItem(ev), faults.review, b)
      case _ => false
  }

  ghost predicate NewTransfer(cfg: Config, a: Tables, ev: TransferEvent, now: int, locks: Locks, faults: Faults,
                              v: Verdict, b: Tables) {
    var among := ExactCandidates(a.orders, ev.chain, ev.amount, cfg.tolerance, locks.exact);
    if faults.exact then v == Failed && b == a else
      match v
      case Matched(i) =>
        ExactPick(a.orders, among, Some(i)) && b == a.(orders := a.orders[i := Claim(a.orders[i], ev, now)])
      case _ => ExactPick(a.orders, among, None) && ShortClaim(cfg, a, ev, locks, faults, v, b)
  }

  /** What one OnTransfer call may do to the tables when nothing interleaves with it. */
  ghost predicate Settles(cfg: Config, a: Tables, ev: TransferEvent, now: int, locks: Locks, faults: Faults,
                       v: Verdict, b: Tables) {
    if faults.update then v == Failed && b == a
    else if Advancing(a.orders, ev) then v == Progressed && b == a.(orders := AdvanceAll(a.orders, ev, now))
    else if faults.check then v == Failed && b == a
    else if Held(a.orders, ev.chain, ev.tx) then v == AlreadyFinal && b == a
    else NewTransfer(cfg, a, ev, now, locks, faults, v, b)
  }

  // ---------------------------------------------------- sequences of calls

  /** A chain of completed calls, one per delivered event. */
  ghost predicate CallTrace(cfg: Config, trace: seq<Tables>, evs: seq<TransferEvent>, inputs: Inputs) {
    && |trace| == |evs| + 1
    && forall k :: 0 <= k < |evs| ==> OneCall(cfg, trace[k], evs[k], inputs, trace[k + 1])
  }

  ghost predicate OneCall(cfg: Config, a: Tables, ev: TransferEvent, inputs: Inputs, b: Tables) {
    SomeVerdict(cfg, a, ev, inputs.now, inputs.locks(ev.tx), inputs.faults(ev.tx), b)
  }

  ghost predicate SomeVerdict(cfg: Config, a: Tables, ev: TransferEvent, now: int, locks: Locks, faults: Faults, b: Tables) {
    exists v :: Settles(cfg, a, ev, now, locks, faults, v, b)
  }

  /** What a refresh meets at the database: the clock, locked rows and failing statements, by transfer. */
  datatype Inputs = Inputs(now: int, locks: TxHash -> Locks, faults: TxHash -> Faults)

  // ---------------------------------------------------- refinement to statements

  /** Only statements of the chain's call, and faults of it unless `clean`. */
  ghost predicate OwnStatements(es: seq<Event>, c: Chain, clean: bool) {
    forall e :: e in es ==> (e.Statement? && e.at == c) || (!clean && e == Fault(c))
  }

  ghost predicate RunsTo(cfg: Config, c: Chain, clean: bool, s: State, r: State) {
    exists es :: OwnStatements(es, c, clean) && LegalRun(cfg, s, es) && Run(cfg, s, es) == r
  }

  lemma Stay(cfg: Config, c: Chain, clean: bool, s: State)
    ensures RunsTo(cfg, c, clean, s, s)
  {
    assert OwnStatements([], c, clean) && LegalRun(cfg, s, []) && Run(cfg, s, []) == s;
  }

  lemma Prepend(cfg: Config, c: Chain, clean: bool, s: State, e: Event, r: State)
    requires Legal(cfg, s, e) && OwnStatements([e], c, clean) && RunsTo(cfg, c, clean, Apply(cfg, s, e), r)
    ensures RunsTo(cfg, c, clean, s, r)
  {
    var es :| OwnStatements(es, c, clean) && LegalRun(cfg, Apply(cfg, s, e), es) && Run(cfg, Apply(cfg, s, e), es) == r;
    assert ([e] + es)[1..] == es && e in [e];
    assert OwnStatements([e] + es, c, clean);
    assert LegalRun(cfg, s, [e] + es) && Run(cfg, s, [e] + es) == r;
  }

  /** The engine state in which the chain's call has returned. */
  ghost function Done(s: State, c: Chain, b: Tables): State {
    State(b.orders, b.reviews, s.calls - {c})
  }

  lemma FailureRuns(cfg: Config, s: State, c: Chain)
    requires Inv(cfg, s) && c in s.calls
    ensures RunsTo(cfg, c, false, s, Done(s, c, Tables(s.orders, s.reviews)))
  {
    Stay(cfg, c, false, Apply(cfg, s, Fault(c)));
    Prepend(cfg, c, false, s, Fault(c), Apply(cfg, s, Fault(c)));
  }

  lemma LogRuns(cfg: Config, s: State, c: Chain, clean: bool, now: int, item: ReviewItem, fault: bool, b: Tables)
    requires Inv(cfg, s) && c in s.calls
    requires s.calls[c].AtLogUnmatched? || s.calls[c].AtLogUnderpaid?
    requires item == if s.calls[c].AtLogUnmatched? then UnmatchedItem(s.calls[c].ev) else UnderpaidItem(s.calls[c].ev, s.calls[c].id)
    requires Logged(Tables(s.orders, s.reviews), item, fault, b) && (clean ==> !fault)
    ensures RunsTo(cfg, c, clean, s, Done(s, c, b))
  {
    if fault {
      FailureRuns(cfg, s, c);
    } else {
      var e := Statement(c, now, {}, None);
      Stay(cfg, c, clean, Apply(cfg, s, e));
      Prepend(cfg, c, clean, s, e, Apply(cfg, s, e));
    }
  }

  /** An accepted statement of the chain's call that does not end it. */
  lemma Continues(cfg: Config, s: State, e: Event) returns (m: State)
    requires Inv(cfg, s) && Legal(cfg, s, e) && e.Statement?
    requires Continue(s.orders, s.calls[e.at], e.hidden, e.pick).Some?
    ensures Inv(cfg, m) && m == Apply(cfg, s, e) && m.orders == Written(cfg, s, e) && m.reviews == s.reviews
    ensures m.calls == s.calls[e.at := Continue(s.orders, s.calls[e.at], e.hidden, e.pick).value]
    ensures m.calls - {e.at} == s.calls - {e.at}
  {
    m := Apply(cfg, s, e);
    WriteKeepsIndexes(cfg, s, e);
    StepKeepsInv(cfg, s, e);
  }

  lemma ShortClaimRuns(cfg: Config, s: State, c: Chain, clean: bool, now: int, locks: Locks, faults: Faults, v: Verdict, b: Tables)
    requires Inv(cfg, s) && c in s.calls && s.calls[c].AtUnderpaid?
    requires clean ==> faults == NO_FAULTS
    requires ShortClaim(cfg, Tables(s.orders, s.reviews), s.calls[c].ev, locks, faults, v, b)
    ensures RunsTo(cfg, c, clean, s, Done(s, c, b))
  {
    if faults.underpaid {
      FailureRuns(cfg, s, c);
    } else {
      var ev := s.calls[c].ev;
      var e := Statement(c, now, locks.underpaid, if v.ShortOn? then Some(v.id) else None);
      var m := Continues(cfg, s, e);
      LogRuns(cfg, m, c, clean, now, if v.ShortOn? then UnderpaidItem(ev, v.id) else UnmatchedItem(ev), faults.review, b);
      Prepend(cfg, c, clean, s, e, Done(s, c, b));
    }
  }

  lemma NewTransferRuns(cfg: Config, s: State, c: Chain, clean: bool, now: int, locks: Locks, faults: Faults, v: Verdict, b: Tables)
    requires Inv(cfg, s) && c in s.calls && s.calls[c].AtExact?
    requires clean ==> faults == NO_FAULTS
    requires NewTransfer(cfg, Tables(s.orders, s.reviews), s.calls[c].ev, now, locks, faults, v, b)
    ensures RunsTo(cfg, c, clean, s, Done(s, c, b))
  {
    if faults.exact {
      FailureRuns(cfg, s, c);
    } else {
      var e := Statement(c, now, locks.exact, if v.Matched? then Some(v.id) else None);
      var m := Apply(cfg, s, e);
      WriteKeepsIndexes(cfg, s, e);
      StepKeepsInv(cfg, s, e);
      if v.Matched? {
        Stay(cfg, c, clean, m);
      } else {
        ShortClaimRuns(cfg, m, c, clean, now, locks, faults, v, b);
        assert Done(m, c, b) == Done(s, c, b);
      }
      Prepend(cfg, c, clean, s, e, Done(s, c, b));
    }
  }

  lemma CheckRuns(cfg: Config, s: State, c: Chain, clean: bool, now: int, locks: Locks, faults: Faults, v: Verdict, b: Tables)
    requires Inv(cfg, s) && c in s.calls && s.calls[c].AtCheck? && !Advancing(s.orders, s.calls[c].ev)
    requires clean ==> faults == NO_FAULTS
    requires !faults.update && Settles(cfg, Tables(s.orders, s.reviews), s.calls[c].ev, now, locks, faults, v, b)
    ensures RunsTo(cfg, c, clean, s, Done(s, c, b))
  {
    if faults.check {
      FailureRuns(cfg, s, c);
    } else {
      var e := Statement(c, now, {}, None);
      var m := Apply(cfg, s, e);
      StepKeepsInv(cfg, s, e);
      if Held(s.orders, c, s.calls[c].ev.tx) {
        Stay(cfg, c, clean, m);
      } else {
        NewTransferRuns(cfg, m, c, clean, now, locks, faults, v, b);
        assert Done(m, c, b) == Done(s, c, b);
      }
      Prepend(cfg, c, clean, s, e, Done(s, c, b));
    }
  }

  /** The update statement found a row: the call returns. */
  lemma UpdateReturns(cfg: Config, s: State, c: Chain, clean: bool, now: int)
    requires Inv(cfg, s) && c in s.calls && s.calls[c].AtUpdate? && Advancing(s.orders, s.calls[c].ev)
    ensures RunsTo(cfg, c, clean, s, Done(s, c, Tables(AdvanceAll(s.orders, s.calls[c].ev, now), s.reviews)))
  {
    var e := Statement(c, now, {}, None);
    WriteKeepsIndexes(cfg, s, e);
    Stay(cfg, c, clean, Apply(cfg, s, e));
    Prepend(cfg, c, clean, s, e, Apply(cfg, s, e));
  }

  lemma NothingAdvances(t: Orders, ev: TransferEvent, now: int)
    requires !Advancing(t, ev)
    ensures AdvanceAll(t, ev, now) == t
  {
  }

  lemma UpdateRuns(cfg: Config, s: State, c: Chain, clean: bool, now: int, locks: Locks, faults: Faults, v: Verdict, b: Tables)
    requires Inv(cfg, s) && c in s.calls && s.calls[c].AtUpdate?
    requires clean ==> faults == NO_FAULTS
    requires Settles(cfg, Tables(s.orders, s.reviews), s.calls[c].ev, now, locks, faults, v, b)
    ensures RunsTo(cfg, c, clean, s, Done(s, c, b))
  {
    if faults.update {
      FailureRuns(cfg, s, c);
    } else if Advancing(s.orders, s.calls[c].ev) {
      UpdateReturns(cfg, s, c, clean, now);
    } else {
      var e := Statement(c, now, {}, None);
      NothingAdvances(s.orders, s.calls[c].ev, now);
      var n := Continues(cfg, s, e);
      CheckRuns(cfg, n, c, clean, now, locks, faults, v, b);
      Prepend(cfg, c, clean, s, e, Done(s, c, b));
    }
  }

  /** A completed call is a run of single statements: whatever holds of all runs of the engine holds of sequences of
      completed calls. */
  lemma CallIsRun(cfg: Config, s: State, ev: TransferEvent, now: int, locks: Locks, faults: Faults, v: Verdict, b: Tables)
    requires Inv(cfg, s) && ev.chain !in s.calls
    requires Settles(cfg, Tables(s.orders, s.reviews), ev, now, locks, faults, v, b)
    ensures exists es :: LegalRun(cfg, s, es) && Run(cfg, s, es) == State(b.orders, b.reviews, s.calls)
  {
    var d := Deliver(ev);
    var m := Apply(cfg, s, d);
    StepKeepsInv(cfg, s, d);
    UpdateRuns(cfg, m, ev.chain, false, now, locks, faults, v, b);
    var r := State(b.orders, b.reviews, s.calls);
    assert Done(m, ev.chain, b) == r;
    var es :| OwnStatements(es, ev.chain, false) && LegalRun(cfg, m, es) && Run(cfg, m, es) == r;
    assert ([d] + es)[1..] == es;
    assert LegalRun(cfg, s, [d] + es) && Run(cfg, s, [d] + es) == r;
  }

  // --------------------------------------------------------- nothing is dropped

  ghost predicate OnRecord(a: Tables, ev: TransferEvent) {
    Held(a.orders, ev.chain, ev.tx) || Reviewed(a.reviews, ev.chain, ev.tx)
  }

  /** No open order the claim statements can see takes the transfer: none within the tolerance, none within the gap. */
  ghost predicate NoneTakes(cfg: Config, a: Tables, ev: TransferEvent, locks: Locks) {
    && ExactCandidates(a.orders, ev.chain, ev.amount, cfg.tolerance, locks.exact) == {}
    && UnderpaidPick(a.orders, UnderpaidCandidates(a.orders, ev.chain, ev.amount, locks.underpaid), ev.amount,
                     cfg.maxGapPercent, None)
  }

  /** A statement whose failure OnTransfer returns is reached and fails. */
  ghost predicate Breaks(cfg: Config, a: Tables, ev: TransferEvent, locks: Locks, faults: Faults) {
    faults.update
    || (!Advancing(a.orders, ev)
        && (faults.check
            || (!Held(a.orders, ev.chain, ev.tx)
                && (faults.exact
                    || (faults.underpaid
                        && ExactCandidates(a.orders, ev.chain, ev.amount, cfg.tolerance, locks.exact) == {})))))
  }

  /** An error is returned exactly when such a statement fails; the tables are then as they were. */
  lemma FailsIff(cfg: Config, a: Tables, ev: TransferEvent, now: int, locks: Locks, faults: Faults, v: Verdict, b: Tables)
    requires Settles(cfg, a, ev, now, locks, faults, v, b)
    ensures v == Failed <==> Breaks(cfg, a, ev, locks, faults)
    ensures v == Failed ==> b == a
  {
  }

  /** After a call that returns without error the transfer is missing from the record in one case only: it was not on
      record before, no order the statements see takes it, and writing its review row fails, an error OnTransfer only logs. */
  lemma DroppedOnlyByFailedReview(cfg: Config, a: Tables, ev: TransferEvent, now: int, locks: Locks, faults: Faults,
                                  v: Verdict, b: Tables)
    requires Settles(cfg, a, ev, now, locks, faults, v, b) && !Breaks(cfg, a, ev, locks, faults)
    ensures !OnRecord(b, ev) <==> !OnRecord(a, ev) && NoneTakes(cfg, a, ev, locks) && faults.review
  {
    FailsIff(cfg, a, ev, now, locks, faults, v, b);
    match v
    case Progressed =>
      var i :| i in a.orders && Advances(a.orders[i], ev.chain, ev.tx, ev.confirmations);
      assert b.orders[i].tx == Some(ev.tx) && b.orders[i].chain == ev.chain;
    case AlreadyFinal =>
    case Matched(i) => assert b.orders[i].tx == Some(ev.tx);
    case ShortOn(i) => assert b.orders[i].tx == Some(ev.tx);
    case Unmatched =>
      if !faults.review && !Reviewed(a.reviews, ev.chain, ev.tx) {
        assert b.reviews[|a.reviews|] == UnmatchedItem(ev);
      }
  }
}
