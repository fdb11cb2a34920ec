/** A poll of the watcher, as it runs its loops and calls, is a run of the EVM system: what holds over all runs of the
    system holds over every sequence of such polls, however other chains, creations and sweeps come between them. */
module PollRefinement {
  import opened Domain
  import opened OrderTable
  import opened EvmScan
  import opened EvmSystem
  import opened CompletedCall
  import Engine
  import EvmWatcher
  import EvmLogs

  // ----------------------------------------------------------- chaining runs

  ghost predicate Leads(env: Env, s: Sys, r: Sys)
    requires ValidEnv(env)
  {
    exists es :: LegalRun(env, s, es) && Run(env, s, es) == r
  }

  lemma Nothing(env: Env, s: Sys)
    requires ValidEnv(env)
    ensures Leads(env, s, s)
  {
    assert LegalRun(env, s, []) && Run(env, s, []) == s;
  }

  lemma First(env: Env, s: Sys, e: Event, r: Sys)
    requires ValidEnv(env) && Legal(env, s, e) && Leads(env, Apply(env, s, e), r)
    ensures Leads(env, s, r)
  {
    var m := Apply(env, s, e);
    var es :| LegalRun(env, m, es) && Run(env, m, es) == r;
    assert ([e] + es)[1..] == es;
    assert LegalRun(env, s, [e] + es) && Run(env, s, [e] + es) == r;
  }

  lemma One(env: Env, s: Sys, e: Event)
    requires ValidEnv(env) && Legal(env, s, e)
    ensures Leads(env, s, Apply(env, s, e))
  {
    Nothing(env, Apply(env, s, e));
    First(env, s, e, Apply(env, s, e));
  }

  lemma {:induction false} ThenRun(env: Env, s: Sys, es: seq<Event>, r: Sys)
    requires ValidEnv(env) && LegalRun(env, s, es) && Leads(env, Run(env, s, es), r)
    ensures Leads(env, s, r)
    decreases |es|
  {
    if es != [] {
      ThenRun(env, Apply(env, s, es[0]), es[1..], r);
      First(env, s, es[0], r);
    }
  }

  lemma Then(env: Env, s: Sys, m: Sys, r: Sys)
    requires ValidEnv(env) && Leads(env, s, m) && Leads(env, m, r)
    ensures Leads(env, s, r)
  {
    var es :| LegalRun(env, s, es) && Run(env, s, es) == m;
    ThenRun(env, s, es, r);
  }

  lemma LeadsKeepsInv(env: Env, s: Sys, r: Sys)
    requires ValidEnv(env) && Inv(env, s) && Leads(env, s, r)
    ensures Inv(env, r)
  {
    var es :| LegalRun(env, s, es) && Run(env, s, es) == r;
    RunKeepsInv(env, s, es);
  }

  ghost predicate LeadsIfInv(env: Env, s: Sys, r: Sys)
    requires ValidEnv(env)
  {
    Inv(env, s) ==> Leads(env, s, r)
  }

  ghost predicate Steps(env: Env, ss: seq<Sys>)
    requires ValidEnv(env)
  {
    forall j :: 0 < j < |ss| ==> LeadsIfInv(env, ss[j - 1], ss[j])
  }

  lemma {:induction false} Chained(env: Env, ss: seq<Sys>, k: nat)
    requires ValidEnv(env) && k < |ss| && Inv(env, ss[0])
    requires Steps(env, ss)
    ensures Leads(env, ss[0], ss[k]) && Inv(env, ss[k])
    decreases k
  {
    if k == 0 {
      Nothing(env, ss[0]);
    } else {
      Chained(env, ss, k - 1);
      assert LeadsIfInv(env, ss[k - 1], ss[k]);
      Then(env, ss[0], ss[k - 1], ss[k]);
      LeadsKeepsInv(env, ss[k - 1], ss[k]);
    }
  }

  // --------------------------------------------------------------- emissions

  lemma {:induction false} OwnRun(env: Env, s: Sys, es: seq<Engine.Event>)
    requires ValidEnv(env) && s.phase.Refreshing? && s.phase.current.Some?
    requires OwnStatements(es, env.chain, true) && Engine.LegalRun(env.cfg, s.engine, es)
    ensures Leads(env, s, s.(engine := Engine.Run(env.cfg, s.engine, es)))
    decreases |es|
  {
    if es == [] {
      Nothing(env, s);
    } else {
      var e := es[0];
      assert e in es;
      var o := OwnStatement(e.now, e.hidden, e.pick);
      assert EngineStep(env, s, o) == Some(e);
      var m := s.(engine := Engine.Apply(env.cfg, s.engine, e));
      assert Apply(env, s, o) == m;
      OwnRun(env, m, es[1..]);
      First(env, s, o, s.(engine := Engine.Run(env.cfg, s.engine, es)));
    }
  }

  /** The system after the transfer was reported, settled and, if final, forgotten. */
  ghost function Emitted(env: Env, s: Sys, tx: TxHash, b: Tables): Sys
    requires ValidEnv(env) && s.phase.Refreshing?
  {
    s.(engine := Engine.State(b.orders, b.reviews, s.engine.calls),
       pending := Forget(s.pending, tx, s.phase.latest, env.cfg.required[env.chain]),
       phase := s.phase.(todo := s.phase.todo - {tx}, current := None))
  }

  /** The system while the call reporting the transfer runs. */
  ghost function Calling(env: Env, s: Sys, tx: TxHash): Sys
    requires s.phase.Refreshing? && tx in s.phase.todo
  {
    var ev := EventFor(env.chain, tx, s.phase.todo[tx], s.phase.latest);
    s.(engine := s.engine.(calls := s.engine.calls[env.chain := Engine.AtUpdate(ev)]),
       phase := s.phase.(current := Some(tx)))
  }

  lemma EmitCalls(env: Env, s: Sys, tx: TxHash)
    requires ValidEnv(env) && Inv(env, s) && s.phase.Refreshing? && s.phase.current.None? && tx in s.phase.todo
    ensures env.chain !in s.engine.calls && Legal(env, s, Emit(tx))
    ensures Apply(env, s, Emit(tx)) == Calling(env, s, tx) && Inv(env, Calling(env, s, tx))
  {
    StepKeepsInv(env, s, Emit(tx));
  }

  lemma FinishEnds(env: Env, s: Sys, tx: TxHash, b: Tables)
    requires ValidEnv(env) && s.phase.Refreshing? && s.phase.current.None? && tx in s.phase.todo
    requires env.chain !in s.engine.calls
    ensures var n := Calling(env, s, tx).(engine := Engine.State(b.orders, b.reviews, s.engine.calls));
      Leads(env, n, Emitted(env, s, tx, b))
  {
    var n := Calling(env, s, tx).(engine := Engine.State(b.orders, b.reviews, s.engine.calls));
    One(env, n, Finish);
    assert Apply(env, n, Finish) == Emitted(env, s, tx, b);
  }

  lemma CallLeads(env: Env, s: Sys, done: Engine.State)
    requires ValidEnv(env) && s.phase.Refreshing? && s.phase.current.Some?
    requires RunsTo(env.cfg, env.chain, true, s.engine, done)
    ensures Leads(env, s, s.(engine := done))
  {
    var es :| OwnStatements(es, env.chain, true) && Engine.LegalRun(env.cfg, s.engine, es)
              && Engine.Run(env.cfg, s.engine, es) == done;
    OwnRun(env, s, es);
  }

  lemma CallEnds(env: Env, s: Sys, tx: TxHash, b: Tables)
    requires s.phase.Refreshing? && tx in s.phase.todo && env.chain !in s.engine.calls
    ensures Done(Calling(env, s, tx).engine, env.chain, b) == Engine.State(b.orders, b.reviews, s.engine.calls)
  {
    assert (s.engine.calls[env.chain := Engine.AtUpdate(EventFor(env.chain, tx, s.phase.todo[tx], s.phase.latest))])
           - {env.chain} == s.engine.calls;
  }

  /** The statements of one call without faults lead from its start to its end. */
  lemma CallSettles(env: Env, m: Sys, ev: TransferEvent, now: int, locks: Locks, v: Verdict, b: Tables)
    requires ValidEnv(env) && m.phase.Refreshing? && m.phase.current.Some?
    requires Engine.Inv(env.cfg, m.engine) && env.chain in m.engine.calls && m.engine.calls[env.chain] == Engine.AtUpdate(ev)
    requires Settles(env.cfg, Tables(m.engine.orders, m.engine.reviews), ev, now, locks, NO_FAULTS, v, b)
    ensures Leads(env, m, m.(engine := Done(m.engine, env.chain, b)))
  {
    UpdateRuns(env.cfg, m.engine, env.chain, true, now, locks, NO_FAULTS, v, b);
    CallLeads(env, m, Done(m.engine, env.chain, b));
  }

  /** Reporting one transfer without faults: the call's statements, between the emission and its end. */
  lemma EmissionIsRun(env: Env, s: Sys, tx: TxHash, now: int, locks: Locks, v: Verdict, b: Tables)
    requires ValidEnv(env) && Inv(env, s) && s.phase.Refreshing? && s.phase.current.None? && tx in s.phase.todo
    requires Settles(env.cfg, Tables(s.engine.orders, s.engine.reviews),
                     EventFor(env.chain, tx, s.phase.todo[tx], s.phase.latest), now, locks, NO_FAULTS, v, b)
    ensures Leads(env, s, Emitted(env, s, tx, b))
  {
    var m := Calling(env, s, tx);
    EmitCalls(env, s, tx);
    CallSettles(env, m, EventFor(env.chain, tx, s.phase.todo[tx], s.phase.latest), now, locks, v, b);
    CallEnds(env, s, tx, b);
    FinishEnds(env, s, tx, b);
    Then(env, m, m.(engine := Done(m.engine, env.chain, b)), Emitted(env, s, tx, b));
    First(env, s, Emit(tx), Emitted(env, s, tx, b));
  }

  /** The system after the first k reports of a refresh. */
  ghost function RefreshedUpTo(env: Env, s: Sys, evs: seq<TransferEvent>, trace: seq<Tables>, k: nat): Sys
    requires ValidEnv(env) && s.phase.Refreshing? && k <= |evs| && |trace| == |evs| + 1
    decreases k
  {
    if k == 0 then s else Emitted(env, RefreshedUpTo(env, s, evs, trace, k - 1), evs[k - 1].tx, trace[k])
  }

  ghost predicate FaultFree(inputs: Inputs) {
    forall t :: inputs.faults(t) == NO_FAULTS
  }

  /** What k reports leave of the entries to report and of those in flight, both being `start` before the first. */
  ghost predicate Remaining(start: PendingMap, todo: PendingMap, pending: PendingMap, evs: seq<TransferEvent>, k: nat,
                            latest: int, required: int)
    requires k <= |evs|
  {
    && (forall t :: t in todo <==> t in start && forall j :: 0 <= j < k ==> evs[j].tx != t)
    && (forall t :: t in todo ==> todo[t] == start[t])
    && (forall t :: t in pending <==> t in start && (t in todo || !Final(latest, start[t].height, required)))
    && (forall t :: t in pending ==> pending[t] == start[t])
  }

  lemma RemainingStep(start: PendingMap, todo: PendingMap, pending: PendingMap, evs: seq<TransferEvent>, k: nat,
                      latest: int, required: int)
    requires 0 < k <= |evs| && Remaining(start, todo, pending, evs, k - 1, latest, required)
    ensures var tx := evs[k - 1].tx;
      Remaining(start, todo - {tx}, Forget(pending, tx, latest, required), evs, k, latest, required)
  {
  }

  lemma StillToReport(env: Env, s: Sys, evs: seq<TransferEvent>, trace: seq<Tables>, k: nat, m: Sys)
    requires ValidEnv(env) && s.phase.Refreshing? && 0 < k <= |evs| && |trace| == |evs| + 1
    requires ShapeAfter(env, s, evs, trace, k - 1, m) && EvmWatcher.ReportsAll(env.chain, s.pending, s.phase.latest, evs)
    ensures Due(env, evs, trace, k, m)
  {
    assert evs[k - 1] in evs;
  }

  /** The k-th report is the one its transfer's entry stands for, and that transfer is still to be reported. */
  ghost predicate Due(env: Env, evs: seq<TransferEvent>, trace: seq<Tables>, k: nat, m: Sys)
    requires 0 < k <= |evs| && |trace| == |evs| + 1
  {
    var tx := evs[k - 1].tx;
    && m.phase.Refreshing? && m.phase.current.None? && tx in m.phase.todo
    && evs[k - 1] == EventFor(env.chain, tx, m.phase.todo[tx], m.phase.latest)
    && trace[k - 1] == Tables(m.engine.orders, m.engine.reviews)
  }

  lemma NoneRemaining(chain: Chain, start: PendingMap, todo: PendingMap, pending: PendingMap, evs: seq<TransferEvent>,
                      latest: int, required: int)
    requires Remaining(start, todo, pending, evs, |evs|, latest, required)
    requires EvmWatcher.ReportsAll(chain, start, latest, evs)
    ensures todo == map[] && pending == EvmWatcher.NotFinal(start, latest, required)
  {
    forall t | t in start
      ensures t !in todo
    {
      assert EventFor(chain, t, start[t], latest) in evs;
    }
  }

  /** The system r after k reports: the tables of the k-th call, and what remains in memory. */
  ghost predicate ShapeAfter(env: Env, s: Sys, evs: seq<TransferEvent>, trace: seq<Tables>, k: nat, r: Sys)
    requires ValidEnv(env) && s.phase.Refreshing? && k <= |evs| && |trace| == |evs| + 1
  {
    && r.phase.Refreshing?
    && r == Sys(Engine.State(trace[k].orders, trace[k].reviews, s.engine.calls), s.cursor, r.pending,
                Refreshing(s.phase.latest, r.phase.todo, None), s.lo, s.maxHead)
    && Remaining(s.pending, r.phase.todo, r.pending, evs, k, s.phase.latest, env.cfg.required[env.chain])
  }

  lemma {:induction false} RefreshShape(env: Env, s: Sys, evs: seq<TransferEvent>, trace: seq<Tables>, k: nat)
    requires ValidEnv(env) && s.phase.Refreshing? && s.phase.current.None? && s.phase.todo == s.pending
    requires k <= |evs| && |trace| == |evs| + 1 && trace[0] == Tables(s.engine.orders, s.engine.reviews)
    ensures ShapeAfter(env, s, evs, trace, k, RefreshedUpTo(env, s, evs, trace, k))
    decreases k
  {
    if k > 0 {
      RefreshShape(env, s, evs, trace, k - 1);
      var m := RefreshedUpTo(env, s, evs, trace, k - 1);
      RemainingStep(s.pending, m.phase.todo, m.pending, evs, k, s.phase.latest, env.cfg.required[env.chain]);
    }
  }

  lemma ReportDue(env: Env, s: Sys, evs: seq<TransferEvent>, trace: seq<Tables>, k: nat)
    requires ValidEnv(env) && s.phase.Refreshing? && s.phase.current.None? && s.phase.todo == s.pending
    requires 0 < k <= |evs| && |trace| == |evs| + 1 && EvmWatcher.ReportsAll(env.chain, s.pending, s.phase.latest, evs)
    requires trace[0] == Tables(s.engine.orders, s.engine.reviews)
    ensures Due(env, evs, trace, k, RefreshedUpTo(env, s, evs, trace, k - 1))
  {
    RefreshShape(env, s, evs, trace, k - 1);
    StillToReport(env, s, evs, trace, k, RefreshedUpTo(env, s, evs, trace, k - 1));
  }

  lemma CallAt(cfg: Config, trace: seq<Tables>, evs: seq<TransferEvent>, inputs: Inputs, k: nat) returns (v: Verdict)
    requires CallTrace(cfg, trace, evs, inputs) && FaultFree(inputs) && 0 < k <= |evs|
    ensures Settles(cfg, trace[k - 1], evs[k - 1], inputs.now, inputs.locks(evs[k - 1].tx), NO_FAULTS, v, trace[k])
  {
    var ev := evs[k - 1];
    assert OneCall(cfg, trace[k - 1], ev, inputs, trace[k]);
    v :| Settles(cfg, trace[k - 1], ev, inputs.now, inputs.locks(ev.tx), inputs.faults(ev.tx), v, trace[k]);
    assert inputs.faults(ev.tx) == NO_FAULTS;
  }

  /** The reports and the completed calls are those of a refresh begun in s, without faults. */
  ghost predicate RefreshOf(env: Env, s: Sys, evs: seq<TransferEvent>, trace: seq<Tables>, inputs: Inputs) {
    && ValidEnv(env) && s.phase.Refreshing? && s.phase.current.None? && s.phase.todo == s.pending
    && CallTrace(env.cfg, trace, evs, inputs) && FaultFree(inputs)
    && EvmWatcher.ReportsAll(env.chain, s.pending, s.phase.latest, evs)
    && trace[0] == Tables(s.engine.orders, s.engine.reviews)
  }

  lemma ReportIsRun(env: Env, s: Sys, evs: seq<TransferEvent>, trace: seq<Tables>, inputs: Inputs, k: nat)
    requires RefreshOf(env, s, evs, trace, inputs) && 0 < k <= |evs|
    ensures LeadsIfInv(env, RefreshedUpTo(env, s, evs, trace, k - 1), RefreshedUpTo(env, s, evs, trace, k))
  {
    var m := RefreshedUpTo(env, s, evs, trace, k - 1);
    var tx := evs[k - 1].tx;
    ReportDue(env, s, evs, trace, k);
    var v := CallAt(env.cfg, trace, evs, inputs, k);
    if Inv(env, m) {
      EmissionIsRun(env, m, tx, inputs.now, inputs.locks(tx), v, trace[k]);
    }
  }

  /** The system before the refresh and after each of its reports. */
  ghost function Refreshes(env: Env, s: Sys, evs: seq<TransferEvent>, trace: seq<Tables>): (ss: seq<Sys>)
    requires ValidEnv(env) && s.phase.Refreshing? && |trace| == |evs| + 1
    ensures |ss| == |evs| + 1 && forall k :: 0 <= k < |ss| ==> ss[k] == RefreshedUpTo(env, s, evs, trace, k)
  {
    seq(|evs| + 1, k requires 0 <= k <= |evs| => RefreshedUpTo(env, s, evs, trace, k))
  }

  lemma ReportsAreSteps(env: Env, s: Sys, evs: seq<TransferEvent>, trace: seq<Tables>, inputs: Inputs)
    requires RefreshOf(env, s, evs, trace, inputs)
    ensures Steps(env, Refreshes(env, s, evs, trace))
  {
    var ss := Refreshes(env, s, evs, trace);
    forall k | 0 < k < |ss|
      ensures LeadsIfInv(env, ss[k - 1], ss[k])
    {
      ReportIsRun(env, s, evs, trace, inputs, k);
    }
  }

  /** A refresh without faults, report by report. */
  lemma RefreshIsRun(env: Env, s: Sys, evs: seq<TransferEvent>, trace: seq<Tables>, inputs: Inputs)
    requires RefreshOf(env, s, evs, trace, inputs) && Inv(env, s)
    ensures Leads(env, s, RefreshedUpTo(env, s, evs, trace, |evs|))
  {
    ReportsAreSteps(env, s, evs, trace, inputs);
    Chained(env, Refreshes(env, s, evs, trace), |evs|);
  }

  /** The system between polls after a whole refresh. */
  ghost function Refreshed(env: Env, s: Sys, b: Tables): Sys
    requires ValidEnv(env) && s.phase.Refreshing?
  {
    s.(engine := Engine.State(b.orders, b.reviews, s.engine.calls),
       pending := EvmWatcher.NotFinal(s.pending, s.phase.latest, env.cfg.required[env.chain]), phase := Resting)
  }

  lemma WholeRefreshIsRun(env: Env, s: Sys, evs: seq<TransferEvent>, trace: seq<Tables>, inputs: Inputs)
    requires RefreshOf(env, s, evs, trace, inputs) && Inv(env, s)
    ensures Leads(env, s, Refreshed(env, s, trace[|evs|]))
  {
    var n := |evs|;
    var m := RefreshedUpTo(env, s, evs, trace, n);
    RefreshIsRun(env, s, evs, trace, inputs);
    RefreshShape(env, s, evs, trace, n);
    NoneRemaining(env.chain, s.pending, m.phase.todo, m.pending, evs, s.phase.latest, env.cfg.required[env.chain]);
    One(env, m, PollEnd);
    assert Apply(env, m, PollEnd) == Refreshed(env, s, trace[n]);
    Then(env, s, m, Refreshed(env, s, trace[n]));
  }

  // -------------------------------------------------------------------- scans

  /** The system after fetching the first k ranges. */
  ghost function FetchedUpTo(env: Env, s: Sys, rs: seq<EvmWatcher.Range>, k: nat): Sys
    requires s.phase.Scanning? && k <= |rs|
  {
    if k == 0 then s else
      s.(pending := s.pending + Logs(env, s.phase.next, rs[k - 1].hi), phase := s.phase.(next := rs[k - 1].hi + 1))
  }

  lemma FetchRange(env: Env, m: Sys, r: EvmWatcher.Range)
    requires ValidEnv(env) && m.phase.Scanning? && m.phase.next == r.lo <= m.phase.latest
    requires r.hi == BatchEnd(r.lo, env.batch, m.phase.latest)
    ensures Legal(env, m, FetchBatch)
    ensures Apply(env, m, FetchBatch) == m.(pending := m.pending + Logs(env, r.lo, r.hi), phase := m.phase.(next := r.hi + 1))
  {
  }

  lemma FetchStep(env: Env, s: Sys, rs: seq<EvmWatcher.Range>, k: nat)
    requires ValidEnv(env) && s.phase.Scanning? && 0 < k <= |rs|
    requires rs[k - 1].hi == BatchEnd(rs[k - 1].lo, env.batch, s.phase.latest) && rs[k - 1].lo <= s.phase.latest
    requires k == 1 ==> rs[0].lo == s.phase.next
    requires k > 1 ==> rs[k - 2].hi + 1 == rs[k - 1].lo && s.phase.next <= rs[k - 1].lo
    ensures var m := FetchedUpTo(env, s, rs, k - 1);
      Legal(env, m, FetchBatch) && Apply(env, m, FetchBatch) == FetchedUpTo(env, s, rs, k)
  {
    var r := rs[k - 1];
    FetchRange(env, FetchedUpTo(env, s, rs, k - 1), r);
    if k > 1 {
      EvmLogs.LogsSplit(env, s.phase.next, r.lo - 1, r.hi);
      EvmLogs.MergeMaps(s.pending, Logs(env, s.phase.next, r.lo - 1), Logs(env, r.lo, r.hi));
    }
  }

  lemma {:induction false} FetchesAreRun(env: Env, s: Sys, rs: seq<EvmWatcher.Range>, k: nat)
    requires ValidEnv(env) && s.phase.Scanning? && k <= |rs|
    requires EvmWatcher.FullBatches(rs, env.batch, s.phase.latest)
    requires rs != [] ==> EvmWatcher.Tiles(rs, s.phase.next, rs[|rs| - 1].hi, env.batch)
    ensures Leads(env, s, FetchedUpTo(env, s, rs, k))
    ensures k > 0 ==> s.phase.next <= rs[k - 1].lo <= rs[k - 1].hi
    decreases k
  {
    if k == 0 {
      Nothing(env, s);
    } else {
      FetchesAreRun(env, s, rs, k - 1);
      var m := FetchedUpTo(env, s, rs, k - 1);
      FetchStep(env, s, rs, k);
      One(env, m, FetchBatch);
      Then(env, s, m, FetchedUpTo(env, s, rs, k));
    }
  }

  /** The system when the refresh of a poll begins. */
  ghost function Scanned(env: Env, s: Sys, latest: int, ok: bool, scanned: PendingMap): Sys {
    var from := ScanFrom(s.cursor, latest);
    var saves := ok && from <= latest;
    Sys(s.engine, if saves then latest else s.cursor, scanned, Refreshing(latest, scanned, None),
        if saves && s.lo.None? && latest != 0 then Some(from) else s.lo, if latest > s.maxHead then latest else s.maxHead)
  }

  lemma ScanIsRun(env: Env, s: Sys, latest: int, ok: bool, rs: seq<EvmWatcher.Range>, rpc: EvmWatcher.LogServer)
    requires ValidEnv(env) && Inv(env, s) && s.phase.Resting?
    requires EvmLogs.HonestServer(env, rpc) && EvmWatcher.AllAnswered(rpc, rs)
    requires EvmWatcher.ScannedRanges(rs, ScanFrom(s.cursor, latest), latest, env.batch, ok)
    ensures Leads(env, s, Scanned(env, s, latest, ok, EvmWatcher.AbsorbRanges(s.pending, rpc, rs)))
  {
    var from := ScanFrom(s.cursor, latest);
    var scanned := EvmWatcher.AbsorbRanges(s.pending, rpc, rs);
    var r := Scanned(env, s, latest, ok, scanned);
    var m := Apply(env, s, PollStart(latest));
    if from > latest {
      assert rs == [] && m == r;
      Nothing(env, m);
    } else {
      FetchesAreRun(env, m, rs, |rs|);
      var n := FetchedUpTo(env, m, rs, |rs|);
      if rs == [] {
        assert scanned == s.pending;
      } else {
        EvmLogs.ScanFindsLedger(env, s.pending, rpc, rs, from, rs[|rs| - 1].hi, env.batch);
      }
      assert n.pending == scanned;
      var e := if ok then SaveCursor else ScanFail;
      One(env, n, e);
      assert Apply(env, n, e) == r;
      Then(env, m, n, r);
    }
    First(env, s, PollStart(latest), r);
  }

  /** One poll of the watcher is a run of the system: given the postconditions of PollOnce, an honest log server and
      sink calls that succeed, the system leads from the state before the poll to the state after it. */
  lemma PollIsRun(env: Env, s: Sys, latest: int, ok: bool, rs: seq<EvmWatcher.Range>, rpc: EvmWatcher.LogServer,
                  evs: seq<TransferEvent>, trace: seq<Tables>, inputs: Inputs)
    requires ValidEnv(env) && Inv(env, s) && s.phase.Resting?
    requires EvmLogs.HonestServer(env, rpc) && EvmWatcher.AllAnswered(rpc, rs)
    requires EvmWatcher.ScannedRanges(rs, ScanFrom(s.cursor, latest), latest, env.batch, ok)
    requires EvmWatcher.ReportsAll(env.chain, EvmWatcher.AbsorbRanges(s.pending, rpc, rs), latest, evs)
    requires CallTrace(env.cfg, trace, evs, inputs) && FaultFree(inputs)
    requires trace[0] == Tables(s.engine.orders, s.engine.reviews)
    ensures var scanned := EvmWatcher.AbsorbRanges(s.pending, rpc, rs);
      var r := Refreshed(env, Scanned(env, s, latest, ok, scanned), trace[|evs|]);
      && Leads(env, s, r) && Inv(env, r) && r.phase.Resting?
      && r.pending == EvmWatcher.NotFinal(scanned, latest, env.cfg.required[env.chain])
      && r.cursor == (if ok && ScanFrom(s.cursor, latest) <= latest then latest else s.cursor)
      && Tables(r.engine.orders, r.engine.reviews) == trace[|evs|]
  {
    var m := Scanned(env, s, latest, ok, EvmWatcher.AbsorbRanges(s.pending, rpc, rs));
    ScanIsRun(env, s, latest, ok, rs, rpc);
    LeadsKeepsInv(env, s, m);
    WholeRefreshIsRun(env, m, evs, trace, inputs);
    var r := Refreshed(env, m, trace[|evs|]);
    Then(env, s, m, r);
    LeadsKeepsInv(env, s, r);
  }
}
