/** Concrete inputs on which a promise of the documentation fails; each is one instance of an exact condition proved elsewhere. */
module Examples {
  import opened Domain
  import opened OrderTable
  import opened CompletedCall
  import opened Settlement
  import EvmSystem
  import EvmGuarantees
  import EvmScan
  import EvmLogs
  import Paging
  import Conservation
  import Engine
  import Underpayment
  import PollRefinement

  const CFG: Config := Config(map[Polygon := 1], 2_000_000, 500_000_000_000_000_000, 1, 99, 20, 1200)
  const TX: TxHash := TxHash("a")
  const PAYMENT: TransferEvent := TransferEvent(Polygon, TX, 1_000_010_000, 7, 1)

  /** An unmatched payment whose review row cannot be written leaves no trace, although OnTransfer reports success. */
  lemma ReviewFaultDropsPayment()
    ensures var none := Tables(map[], []);
      Settles(CFG, none, PAYMENT, 0, NO_LOCKS, Faults(false, false, false, false, true), Unmatched, none)
      && !OnRecord(none, PAYMENT)
  {
    var t: Orders := map[];
    assert ExactCandidates(t, Polygon, PAYMENT.amount, CFG.tolerance, {}) == {};
    assert UnderpaidCandidates(t, Polygon, PAYMENT.amount, {}) == {};
  }

  function Row(expected: Money, expiresAt: int): Order {
    Order(Polygon, 1_000_000_000, expected, 1, expiresAt, Pending, None, None, None, 0, None)
  }

  /** Two orders of ten dollars: the exact amount of the first claims the second, which expires earlier. */
  lemma ExactPayerSettlesAnotherOrder()
    ensures var t: Orders := map[1 := Row(1_000_010_000, 200), 2 := Row(1_000_050_000, 100)];
      PAYMENT.amount == t[1].expected
      && forall v, b :: Settles(CFG, Tables(t, []), PAYMENT, 0, NO_LOCKS, NO_FAULTS, v, b) ==> v == Matched(2)
  {
    var t: Orders := map[1 := Row(1_000_010_000, 200), 2 := Row(1_000_050_000, 100)];
    assert 2 in ExactCandidates(t, Polygon, PAYMENT.amount, CFG.tolerance, {});
    forall v, b | Settles(CFG, Tables(t, []), PAYMENT, 0, NO_LOCKS, NO_FAULTS, v, b)
      ensures v == Matched(2)
    {
      ExactMatchVerdict(CFG, Tables(t, []), PAYMENT, 0, v, b);
    }
  }

  /** An underpaid order's transfer keeps the reason `unmatched` it was first logged with. */
  lemma UnderpaidKeepsUnmatchedReview()
    ensures var t: Orders := map[1 := Row(1_500_000_000, 200)];
      var a := Tables(t, [UnmatchedItem(PAYMENT)]);
      Settles(CFG, a, PAYMENT, 0, NO_LOCKS, NO_FAULTS, ShortOn(1),
              Tables(t[1 := MarkUnderpaid(t[1], PAYMENT)], [UnmatchedItem(PAYMENT)]))
  {
    var t: Orders := map[1 := Row(1_500_000_000, 200)];
    assert ExactCandidates(t, Polygon, PAYMENT.amount, CFG.tolerance, {}) == {};
    assert UnderpaidCandidates(t, Polygon, PAYMENT.amount, {}) == {1};
    assert Underpayment.GapPercent(t[1].expected, PAYMENT.amount) <= CFG.maxGapPercent;
    var rs := [UnmatchedItem(PAYMENT)];
    assert rs[0].chain == Polygon && rs[0].tx == TX;
  }

  // ----------------------------------------------------------- the EVM chain

  const ENV: EvmSystem.Env := EvmSystem.Env(CFG, Polygon, 2000, map[TX := EvmSystem.Transfer(1_000_010_000, 7)])

  const FETCHED: seq<EvmSystem.Event> := [EvmSystem.PollStart(10), EvmSystem.FetchBatch, EvmSystem.SaveCursor]

  ghost function AfterCrash(): EvmSystem.Sys {
    EvmSystem.Sys(Engine.Start, 10, map[], EvmSystem.Resting, Some(0), 10)
  }

  /** A crash after the cursor is saved and before the first emission loses the payment for good. */
  lemma CrashAfterSaveLosesPayment(later: seq<EvmSystem.Event>)
    requires EvmSystem.LegalRun(ENV, AfterCrash(), later)
    ensures EvmSystem.ValidEnv(ENV) && EvmSystem.LegalRun(ENV, EvmSystem.Start, FETCHED)
    ensures var r := EvmGuarantees.Crash(ENV, EvmSystem.Run(ENV, EvmSystem.Start, FETCHED));
      r == AfterCrash() && !EvmGuarantees.AllCovered(ENV, r)
    ensures EvmGuarantees.Lost(ENV, EvmSystem.Run(ENV, AfterCrash(), later), TX)
  {
    var es := FETCHED;
    var s1 := EvmSystem.Apply(ENV, EvmSystem.Start, es[0]);
    var s2 := EvmSystem.Apply(ENV, s1, es[1]);
    assert s2.pending == TRACKED;
    var s3 := EvmSystem.Apply(ENV, s2, es[2]);
    RunFirst(ENV, s2, es[2], [], s3);
    RunFirst(ENV, s1, es[1], [es[2]] + [], s3);
    RunFirst(ENV, EvmSystem.Start, es[0], [es[1]] + ([es[2]] + []), s3);
    assert es == [es[0]] + ([es[1]] + ([es[2]] + []));
    assert EvmSystem.Reseed(map[], Polygon) == map[];
    assert EvmSystem.InSavedBlocks(ENV, AfterCrash(), TX) && !EvmSystem.Recorded(ENV, AfterCrash(), TX);
    EvmGuarantees.LostStaysLost(ENV, AfterCrash(), later, TX);
  }

  const EMITTED: seq<EvmSystem.Event> :=
    [EvmSystem.PollStart(10), EvmSystem.FetchBatch, EvmSystem.SaveCursor, EvmSystem.Emit(TX)]

  const TRACKED: EvmScan.PendingMap := map[TX := EvmScan.Entry(1_000_010_000, 7)]

  ghost function AfterEmission(): EvmSystem.Sys {
    EvmSystem.Sys(Engine.State(map[], [], map[Polygon := Engine.AtUpdate(TransferEvent(Polygon, TX, 1_000_010_000, 7, 4))]),
                  10, TRACKED, EvmSystem.Refreshing(10, TRACKED, Some(TX)), Some(0), 10)
  }

  lemma RunFirst(env: EvmSystem.Env, s: EvmSystem.Sys, e: EvmSystem.Event, rest: seq<EvmSystem.Event>, r: EvmSystem.Sys)
    requires EvmSystem.ValidEnv(env) && EvmSystem.Legal(env, s, e) && EvmSystem.LegalRun(env, EvmSystem.Apply(env, s, e), rest)
    requires EvmSystem.Run(env, EvmSystem.Apply(env, s, e), rest) == r
    ensures EvmSystem.LegalRun(env, s, [e] + rest) && EvmSystem.Run(env, s, [e] + rest) == r
  {
    assert ([e] + rest)[1..] == rest;
  }

  lemma RunEmission()
    ensures EvmSystem.LegalRun(ENV, EvmSystem.Start, EMITTED)
      && EvmSystem.Run(ENV, EvmSystem.Start, EMITTED) == AfterEmission()
  {
    var es, r := EMITTED, AfterEmission();
    var s1 := EvmSystem.Apply(ENV, EvmSystem.Start, es[0]);
    var s2 := EvmSystem.Apply(ENV, s1, es[1]);
    assert s2.pending == TRACKED;
    var s3 := EvmSystem.Apply(ENV, s2, es[2]);
    assert EvmSystem.Apply(ENV, s3, es[3]) == r;
    RunFirst(ENV, s3, es[3], [], r);
    RunFirst(ENV, s2, es[2], [es[3]] + [], r);
    RunFirst(ENV, s1, es[1], [es[2]] + ([es[3]] + []), r);
    RunFirst(ENV, EvmSystem.Start, es[0], [es[1]] + ([es[2]] + ([es[3]] + [])), r);
    assert es == [es[0]] + ([es[1]] + ([es[2]] + ([es[3]] + [])));
  }

  /** The sink rejects that report. */
  ghost function AfterRejection(): EvmSystem.Sys {
    EvmSystem.Sys(Engine.Start, 10, map[], EvmSystem.Refreshing(10, map[], None), Some(0), 10)
  }

  /** A report that is rejected when the head already makes the payment final: neither tracked nor on record, for good. */
  lemma RejectedReportLosesPayment(later: seq<EvmSystem.Event>)
    requires EvmSystem.LegalRun(ENV, AfterRejection(), later)
    ensures EvmSystem.LegalRun(ENV, EvmSystem.Start, EMITTED)
      && var s := EvmSystem.Run(ENV, EvmSystem.Start, EMITTED);
        Engine.Legal(CFG, s.engine, Engine.Fault(Polygon))
        && var faulted := s.(engine := Engine.Apply(CFG, s.engine, Engine.Fault(Polygon)));
          EvmSystem.Legal(ENV, faulted, EvmSystem.Finish)
          && EvmSystem.Apply(ENV, faulted, EvmSystem.Finish) == AfterRejection()
    ensures EvmGuarantees.Lost(ENV, EvmSystem.Run(ENV, AfterRejection(), later), TX)
  {
    RunEmission();
    var s := AfterEmission();
    var faulted := s.(engine := Engine.Apply(CFG, s.engine, Engine.Fault(Polygon)));
    assert faulted.engine == Engine.Start;
    assert EvmSystem.Apply(ENV, faulted, EvmSystem.Finish) == AfterRejection();
    EvmGuarantees.LostStaysLost(ENV, AfterRejection(), later, TX);
  }

  // An order that needs two confirmations: claimed at head 7, and its report at head 10 is rejected.

  const CFG_TWO: Config := CFG.(required := map[Polygon := 2])
  const ENV_TWO: EvmSystem.Env := EvmSystem.Env(CFG_TWO, Polygon, 2000, map[TX := EvmSystem.Transfer(1_000_010_000, 7)])
  const ROW: Order := Order(Polygon, 1_000_000_000, 1_000_010_000, 2, 100, Pending, None, None, None, 0, None)
  const CLAIMED: Order := Order(Polygon, 1_000_000_000, 1_000_010_000, 2, 100, Confirming, Some(TX), Some(1_000_010_000), Some(7), 1, None)

  /** The chain's watcher in the refresh at a head, with this order and this call. */
  function At(o: Order, calls: map<Chain, Engine.Call>, head: int, todo: EvmScan.PendingMap, current: Option<TxHash>): EvmSystem.Sys {
    EvmSystem.Sys(Engine.State(map[1 := o], [], calls), head, TRACKED, EvmSystem.Refreshing(head, todo, current), Some(0), head)
  }

  function Reported(confirmations: int): TransferEvent {
    TransferEvent(Polygon, TX, 1_000_010_000, 7, confirmations)
  }

  lemma Step(s: EvmSystem.Sys, e: EvmSystem.Event, r: EvmSystem.Sys)
    requires PollRefinement.Leads(ENV_TWO, EvmSystem.Start, s) && EvmSystem.Legal(ENV_TWO, s, e)
    requires EvmSystem.Apply(ENV_TWO, s, e) == r
    ensures PollRefinement.Leads(ENV_TWO, EvmSystem.Start, r)
  {
    PollRefinement.One(ENV_TWO, s, e);
    PollRefinement.Then(ENV_TWO, EvmSystem.Start, s, r);
  }

  const STORED: Engine.State := Engine.State(map[1 := ROW], [], map[])

  lemma ReachesOrder()
    ensures PollRefinement.Leads(ENV_TWO, EvmSystem.Start, EvmSystem.Start.(engine := STORED))
  {
    var e := Engine.Insert(1, Polygon, 1_000_000_000.0, 1, 100);
    assert Engine.InsertedRow(CFG_TWO, e) == ROW;
    PollRefinement.Nothing(ENV_TWO, EvmSystem.Start);
    assert Engine.Written(CFG_TWO, Engine.Start, e) == map[1 := ROW];
    assert Engine.Apply(CFG_TWO, Engine.Start, e) == STORED;
    Step(EvmSystem.Start, EvmSystem.Others(e), EvmSystem.Start.(engine := STORED));
  }

  lemma ReachesFirstScan()
    ensures PollRefinement.Leads(ENV_TWO, EvmSystem.Start,
                                 EvmSystem.Sys(STORED, 0, TRACKED, EvmSystem.Scanning(7, 8), None, 7))
  {
    ReachesOrder();
    var s := EvmSystem.Sys(STORED, 0, map[], EvmSystem.Scanning(7, 0), None, 7);
    Step(EvmSystem.Start.(engine := STORED), EvmSystem.PollStart(7), s);
    assert EvmSystem.Apply(ENV_TWO, s, EvmSystem.FetchBatch).pending == TRACKED;
    Step(s, EvmSystem.FetchBatch, EvmSystem.Sys(STORED, 0, TRACKED, EvmSystem.Scanning(7, 8), None, 7));
  }

  lemma ReachesFirstReport()
    ensures PollRefinement.Leads(ENV_TWO, EvmSystem.Start,
                                 At(ROW, map[Polygon := Engine.AtUpdate(Reported(1))], 7, TRACKED, Some(TX)))
  {
    ReachesFirstScan();
    var s := At(ROW, map[], 7, TRACKED, None);
    Step(EvmSystem.Sys(STORED, 0, TRACKED, EvmSystem.Scanning(7, 8), None, 7), EvmSystem.SaveCursor, s);
    Step(s, EvmSystem.Emit(TX), At(ROW, map[Polygon := Engine.AtUpdate(Reported(1))], 7, TRACKED, Some(TX)));
  }

  lemma ReachesCheck()
    ensures PollRefinement.Leads(ENV_TWO, EvmSystem.Start,
                                 At(ROW, map[Polygon := Engine.AtCheck(Reported(1))], 7, TRACKED, Some(TX)))
  {
    ReachesFirstReport();
    var s := At(ROW, map[Polygon := Engine.AtUpdate(Reported(1))], 7, TRACKED, Some(TX));
    assert AdvanceAll(s.engine.orders, Reported(1), 0) == s.engine.orders && !Advancing(s.engine.orders, Reported(1));
    assert s.engine.calls[Polygon := Engine.AtCheck(Reported(1))] == map[Polygon := Engine.AtCheck(Reported(1))];
    Step(s, EvmSystem.OwnStatement(0, {}, None), At(ROW, map[Polygon := Engine.AtCheck(Reported(1))], 7, TRACKED, Some(TX)));
  }

  lemma ReachesExactMatch()
    ensures PollRefinement.Leads(ENV_TWO, EvmSystem.Start,
                                 At(ROW, map[Polygon := Engine.AtExact(Reported(1))], 7, TRACKED, Some(TX)))
  {
    ReachesCheck();
    var s := At(ROW, map[Polygon := Engine.AtCheck(Reported(1))], 7, TRACKED, Some(TX));
    assert !Held(s.engine.orders, Polygon, TX);
    assert s.engine.calls[Polygon := Engine.AtExact(Reported(1))] == map[Polygon := Engine.AtExact(Reported(1))];
    Step(s, EvmSystem.OwnStatement(0, {}, None), At(ROW, map[Polygon := Engine.AtExact(Reported(1))], 7, TRACKED, Some(TX)));
  }

  lemma ReachesClaim()
    ensures PollRefinement.Leads(ENV_TWO, EvmSystem.Start, At(CLAIMED, map[], 7, TRACKED, Some(TX)))
  {
    ReachesExactMatch();
    var s := At(ROW, map[Polygon := Engine.AtExact(Reported(1))], 7, TRACKED, Some(TX));
    assert ExactCandidates(s.engine.orders, Polygon, 1_000_010_000, CFG_TWO.tolerance, {}) == {1};
    assert Claim(ROW, Reported(1), 0) == CLAIMED;
    assert s.engine.calls - {Polygon} == map[];
    Step(s, EvmSystem.OwnStatement(0, {}, Some(1)), At(CLAIMED, map[], 7, TRACKED, Some(TX)));
  }

  lemma ReachesRest()
    ensures PollRefinement.Leads(ENV_TWO, EvmSystem.Start,
                                 At(CLAIMED, map[], 7, map[], None).(phase := EvmSystem.Resting))
  {
    ReachesClaim();
    var s := At(CLAIMED, map[], 7, map[], None);
    assert TRACKED - {TX} == map[];
    Step(At(CLAIMED, map[], 7, TRACKED, Some(TX)), EvmSystem.Finish, s);
    Step(s, EvmSystem.PollEnd, s.(phase := EvmSystem.Resting));
  }

  lemma ReachesSecondScan()
    ensures PollRefinement.Leads(ENV_TWO, EvmSystem.Start,
      EvmSystem.Sys(At(CLAIMED, map[], 7, map[], None).engine, 7, TRACKED, EvmSystem.Scanning(10, 11), Some(0), 10))
  {
    ReachesRest();
    var rested := At(CLAIMED, map[], 7, map[], None).(phase := EvmSystem.Resting);
    var s := EvmSystem.Sys(rested.engine, 7, TRACKED, EvmSystem.Scanning(10, 8), Some(0), 10);
    Step(rested, EvmSystem.PollStart(10), s);
    assert EvmSystem.Apply(ENV_TWO, s, EvmSystem.FetchBatch).pending == TRACKED;
    Step(s, EvmSystem.FetchBatch, s.(phase := EvmSystem.Scanning(10, 11)));
  }

  ghost function BeforeRejection(): EvmSystem.Sys {
    At(CLAIMED, map[Polygon := Engine.AtUpdate(Reported(4))], 10, TRACKED, Some(TX))
  }

  lemma ReachesRejection()
    ensures PollRefinement.Leads(ENV_TWO, EvmSystem.Start, BeforeRejection())
  {
    ReachesSecondScan();
    var s := At(CLAIMED, map[], 10, TRACKED, None);
    Step(EvmSystem.Sys(s.engine, 7, TRACKED, EvmSystem.Scanning(10, 11), Some(0), 10), EvmSystem.SaveCursor, s);
    Step(s, EvmSystem.Emit(TX), BeforeRejection());
  }

  /** A confirming order whose final report is rejected: the watcher forgets the transfer while the order still waits. */
  lemma RejectedReportStrandsOrder()
    ensures PollRefinement.Leads(ENV_TWO, EvmSystem.Start, BeforeRejection())
    ensures var s := BeforeRejection();
      var faulted := s.(engine := Engine.Apply(CFG_TWO, s.engine, Engine.Fault(Polygon)));
      EvmSystem.Legal(ENV_TWO, faulted, EvmSystem.Finish)
      && var r := EvmSystem.Apply(ENV_TWO, faulted, EvmSystem.Finish);
        r.engine.orders[1].status == Confirming && r.engine.orders[1].tx == Some(TX) && TX !in r.pending
  {
    ReachesRejection();
    var s := BeforeRejection();
    assert Engine.Written(CFG_TWO, s.engine, Engine.Fault(Polygon)) == s.engine.orders;
  }

  /** Two polls, of head 0 and of head 60: the payment in block 5 lies between them and is never scanned. */
  const ZERO_ENV: EvmSystem.Env := EvmSystem.Env(CFG, Polygon, 2000, map[TX := EvmSystem.Transfer(1_000_010_000, 5)])

  const TWO_POLLS: seq<EvmSystem.Event> :=
    [EvmSystem.PollStart(0), EvmSystem.FetchBatch, EvmSystem.SaveCursor, EvmSystem.PollEnd,
     EvmSystem.PollStart(60), EvmSystem.FetchBatch, EvmSystem.SaveCursor]

  lemma ZeroCursorSkipsPayment(later: seq<EvmSystem.Event>)
    requires EvmSystem.LegalRun(ZERO_ENV, AfterTwoPolls(), later)
    ensures EvmSystem.LegalRun(ZERO_ENV, EvmSystem.Start, TWO_POLLS)
      && EvmSystem.Run(ZERO_ENV, EvmSystem.Start, TWO_POLLS) == AfterTwoPolls()
    ensures EvmGuarantees.Lost(ZERO_ENV, EvmSystem.Run(ZERO_ENV, AfterTwoPolls(), later), TX)
  {
    RunTwoPolls();
    EvmSystem.RunKeepsInv(ZERO_ENV, EvmSystem.Start, TWO_POLLS);
    EvmGuarantees.LostStaysLost(ZERO_ENV, AfterTwoPolls(), later, TX);
  }

  ghost function AfterTwoPolls(): EvmSystem.Sys {
    EvmSystem.Sys(Engine.Start, 60, map[], EvmSystem.Refreshing(60, map[], None), Some(10), 60)
  }

  /** Each poll of an empty range of blocks only moves the cursor and the head. */
  lemma RunTwoPolls()
    ensures EvmSystem.LegalRun(ZERO_ENV, EvmSystem.Start, TWO_POLLS)
      && EvmSystem.Run(ZERO_ENV, EvmSystem.Start, TWO_POLLS) == AfterTwoPolls()
  {
    var es, r := TWO_POLLS, AfterTwoPolls();
    ScanNothing(EvmSystem.Start, 0, None);
    var rested := EvmSystem.Start;
    var scanned := EvmSystem.Start.(phase := EvmSystem.Refreshing(0, map[], None));
    assert EvmSystem.Apply(ZERO_ENV, scanned, es[3]) == rested;
    ScanNothing(rested, 60, Some(10));
    RunThree(rested, es[4], es[5], es[6], [], r);
    RunFirst(ZERO_ENV, scanned, es[3], [es[4], es[5], es[6]] + [], r);
    RunThree(EvmSystem.Start, es[0], es[1], es[2], [es[3]] + ([es[4], es[5], es[6]] + []), r);
    assert es == [es[0], es[1], es[2]] + ([es[3]] + ([es[4], es[5], es[6]] + []));
  }

  lemma RunThree(s: EvmSystem.Sys, e: EvmSystem.Event, f: EvmSystem.Event, g: EvmSystem.Event,
                 rest: seq<EvmSystem.Event>, r: EvmSystem.Sys)
    requires EvmSystem.Legal(ZERO_ENV, s, e) && EvmSystem.Legal(ZERO_ENV, EvmSystem.Apply(ZERO_ENV, s, e), f)
    requires var m := EvmSystem.Apply(ZERO_ENV, EvmSystem.Apply(ZERO_ENV, s, e), f);
      EvmSystem.Legal(ZERO_ENV, m, g) && EvmSystem.LegalRun(ZERO_ENV, EvmSystem.Apply(ZERO_ENV, m, g), rest)
      && EvmSystem.Run(ZERO_ENV, EvmSystem.Apply(ZERO_ENV, m, g), rest) == r
    ensures EvmSystem.LegalRun(ZERO_ENV, s, [e, f, g] + rest) && EvmSystem.Run(ZERO_ENV, s, [e, f, g] + rest) == r
  {
    var m := EvmSystem.Apply(ZERO_ENV, s, e);
    RunFirst(ZERO_ENV, EvmSystem.Apply(ZERO_ENV, m, f), g, rest, r);
    RunFirst(ZERO_ENV, m, f, [g] + rest, r);
    RunFirst(ZERO_ENV, s, e, [f] + ([g] + rest), r);
    assert [e, f, g] + rest == [e] + ([f] + ([g] + rest));
  }

  lemma ScanNothing(s: EvmSystem.Sys, latest: int, lo: Option<int>)
    requires s == EvmSystem.Start && (latest == 0 || latest == 60)
    requires lo == if latest == 0 then None else Some(10)
    ensures var m := EvmSystem.Apply(ZERO_ENV, s, EvmSystem.PollStart(latest));
      EvmSystem.Legal(ZERO_ENV, m, EvmSystem.FetchBatch)
      && var n := EvmSystem.Apply(ZERO_ENV, m, EvmSystem.FetchBatch);
        EvmSystem.Legal(ZERO_ENV, n, EvmSystem.SaveCursor)
        && EvmSystem.Apply(ZERO_ENV, n, EvmSystem.SaveCursor)
           == EvmSystem.Sys(Engine.Start, latest, map[], EvmSystem.Refreshing(latest, map[], None), lo, latest)
  {
    var m := EvmSystem.Apply(ZERO_ENV, s, EvmSystem.PollStart(latest));
    var n := EvmSystem.Apply(ZERO_ENV, m, EvmSystem.FetchBatch);
    assert n.pending == map[];
  }

  /** Two payments in one transaction: only the second amount is tracked. */
  lemma SecondTransferOverwrites()
    ensures var fs := [EvmLogs.Found(TX, EvmScan.Entry(500, 7)), EvmLogs.Found(TX, EvmScan.Entry(700, 7))];
      EvmLogs.Paid(fs) == 1200 && Conservation.Total(EvmLogs.Amounts(EvmLogs.PutAll(map[], fs))) < 1200
  {
    var f, g := EvmLogs.Found(TX, EvmScan.Entry(500, 7)), EvmLogs.Found(TX, EvmScan.Entry(700, 7));
    var fs := [f, g];
    assert fs[..1] == [f] && [f][..0] == [];
    assert EvmLogs.Paid([f]) == 500;
    EvmLogs.PutsLoseMoney(fs);
    assert fs[0].tx == fs[1].tx;
  }

  /** A transfer of time 5 that the server shows only once the one of time 6 was read is never handled: two polls of a new
      watcher, the second showing both, and whatever polls follow. */
  lemma LateTransferIsNeverHandled(later: seq<Paging.Poll>)
    requires Paging.Grows(SHOWN_LATE + later)
    ensures 0 !in Paging.AfterPolls([5, 6], 100, Paging.FRESH, SHOWN_LATE + later).handled
  {
    var qs := SHOWN_LATE + later;
    FirstOfLate();
    assert qs[..0] == [] && qs[0] == SHOWN_LATE[0];
    assert Paging.CrossedBy([5, 6], 100, Paging.FRESH, qs, 0, 0);
    Paging.LateEntryIsMissed([5, 6], 100, qs, 0, 0);
  }

  lemma FirstOfLate()
    ensures Paging.AfterPoll([5, 6], 100, Paging.FRESH, SHOWN_LATE[0]) == Paging.Progress({1}, Some(6), Some(0))
  {
    var times := [5, 6];
    assert Paging.Window(times, {1}, 0, 1) == Paging.Window(times, {1}, 0, 0) == [];
    assert Paging.Window(times, {1}, 0, 2) == [1];
    var read := Paging.Reads(times, 100, Paging.FRESH, SHOWN_LATE[0]);
    assert read == [1];
    assert read[0] == 1 && (set k | 0 <= k < |read| :: read[k]) == {1};
  }

  const SHOWN_LATE: seq<Paging.Poll> := [Paging.Poll({1}, true, 0, 0), Paging.Poll({0, 1}, true, 0, 0)]
}
