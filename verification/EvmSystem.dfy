/**
 One EVM chain end to end: its watcher polling, scanning, emitting and restarting, on top of the matching engine shared
 with order creation, the expiry sweep and all other chains. The watcher's sink calls succeed and restarts happen
 between polls; `CrashLosesOnlyUnrecorded` and `SinkFaultLoses` say exactly what happens otherwise.
 */
module EvmSystem {
  import opened Domain
  import opened OrderTable
  import opened EvmScan
  import Engine
  import Conservation

  /** A payment on the chain to the watched address. */
  datatype Transfer = Transfer(amount: Money, block: int)

  /** The ledger lists every payment ever made, one per transaction; eth_getLogs answers from it. */
  datatype Env = Env(cfg: Config, chain: Chain, batch: int, ledger: map<TxHash, Transfer>)

  datatype Phase =
    | Resting
    | Scanning(latest: int, next: int)
    | Refreshing(latest: int, todo: PendingMap, current: Option<TxHash>)

  /** `lo` and `maxHead` are history: the first block of the first scan that saved a cursor other than zero (a saved zero
      is taken for a first run), and the highest head, or zero. */
  datatype Sys = Sys(engine: Engine.State, cursor: int, pending: PendingMap, phase: Phase, lo: Option<int>, maxHead: int)

  datatype Event =
    | PollStart(latest: int)
    | FetchBatch
    | ScanFail
    | SaveCursor
    | Emit(tx: TxHash)
    | OwnStatement(now: int, hidden: set<OrderId>, pick: Option<OrderId>)
    | Finish
    | PollEnd
    | Restart
    | Others(e: Engine.Event)

  const Start: Sys := Sys(Engine.Start, 0, map[], Resting, None, 0)

  predicate ValidEnv(env: Env) {
    env.chain in env.cfg.required && env.batch > 0
  }

  /** What eth_getLogs puts into the in-flight map for a block range. */
  function Logs(env: Env, first: int, last: int): PendingMap {
    map t | t in env.ledger && first <= env.ledger[t].block <= last :: Entry(env.ledger[t].amount, env.ledger[t].block)
  }

  /** An order LoadPendingTransfers seeds the watcher with; others are skipped. */
  predicate Seeds(o: Order, c: Chain) {
    o.chain == c && o.status == Confirming && o.tx.Some? && o.received.Some?
  }

  function SeedEntry(o: Order): Entry
    requires o.received.Some?
  {
    Entry(o.received.value, if o.height.Some? then o.height.value else 0)
  }

  ghost predicate SeededBy(t: Orders, c: Chain, i: OrderId, x: TxHash) {
    i in t && Seeds(t[i], c) && t[i].tx == Some(x)
  }

  ghost predicate Seeded(t: Orders, c: Chain, x: TxHash) {
    exists i :: SeededBy(t, c, i, x)
  }

  ghost function SeededTxs(t: Orders, c: Chain): (txs: set<TxHash>)
    ensures forall x :: x in txs <==> Seeded(t, c, x)
  {
    var txs := set i | i in t && Seeds(t[i], c) :: t[i].tx.value;
    assert forall i, x :: SeededBy(t, c, i, x) ==> t[i].tx.value == x;
    assert forall i :: i in t && Seeds(t[i], c) ==> SeededBy(t, c, i, t[i].tx.value);
    txs
  }

  ghost function SeedOf(t: Orders, c: Chain, x: TxHash): (p: Entry)
    requires Seeded(t, c, x)
    ensures exists i :: SeededBy(t, c, i, x) && p == SeedEntry(t[i])
  {
    var i :| SeededBy(t, c, i, x);
    SeedEntry(t[i])
  }

  /** The in-flight map of a fresh watcher after LoadPendingTransfers. */
  ghost function Reseed(t: Orders, c: Chain): PendingMap {
    map x | x in SeededTxs(t, c) :: SeedOf(t, c, x)
  }

  // ------------------------------------------------------------------- steps

  /** The step of the matching engine an event stands for, if any. */
  ghost function EngineStep(env: Env, s: Sys, e: Event): Option<Engine.Event> {
    match e
    case Emit(tx) =>
      if s.phase.Refreshing? && tx in s.phase.todo then
        Some(Engine.Deliver(EventFor(env.chain, tx, s.phase.todo[tx], s.phase.latest)))
      else None
    case OwnStatement(now, hidden, pick) => Some(Engine.Statement(env.chain, now, hidden, pick))
    case Others(o) => Some(o)
    case _ => None
  }

  ghost predicate OtherChains(env: Env, e: Engine.Event) {
    match e
    case Deliver(ev) => ev.chain != env.chain
    case Statement(at, _, _, _) => at != env.chain
    case Fault(at) => at != env.chain
    case _ => true
  }

  ghost predicate LegalPhase(env: Env, s: Sys, e: Event) {
    match e
    case PollStart(latest) => s.phase.Resting?
    case FetchBatch => s.phase.Scanning? && s.phase.next <= s.phase.latest
    case ScanFail => s.phase.Scanning?
    case SaveCursor => s.phase.Scanning? && s.phase.next > s.phase.latest
    case Emit(tx) => s.phase.Refreshing? && s.phase.current.None? && tx in s.phase.todo
    case OwnStatement(_, _, _) => s.phase.Refreshing? && s.phase.current.Some?
    case Finish => s.phase.Refreshing? && s.phase.current.Some? && env.chain !in s.engine.calls
    case PollEnd => s.phase.Refreshing? && s.phase.current.None? && s.phase.todo == map[]
    case Restart => s.phase.Resting?
    case Others(o) => OtherChains(env, o)
  }

  ghost predicate Legal(env: Env, s: Sys, e: Event) {
    LegalPhase(env, s, e)
    && (EngineStep(env, s, e).Some? ==> Engine.Legal(env.cfg, s.engine, EngineStep(env, s, e).value))
  }

  ghost function NextEngine(env: Env, s: Sys, e: Event): Engine.State
    requires Legal(env, s, e)
  {
    if EngineStep(env, s, e).Some? then Engine.Apply(env.cfg, s.engine, EngineStep(env, s, e).value)
    else if e.Restart? then s.engine.(calls := map[])
    else s.engine
  }

  ghost function Forget(p: PendingMap, tx: TxHash, latest: int, required: int): PendingMap {
    if tx in p && Final(latest, p[tx].height, required) then p - {tx} else p
  }

  ghost function NextPending(env: Env, s: Sys, e: Event): PendingMap
    requires ValidEnv(env) && Legal(env, s, e)
  {
    match e
    case FetchBatch =>
      s.pending + Logs(env, s.phase.next, BatchEnd(s.phase.next, env.batch, s.phase.latest))
    case Finish => Forget(s.pending, s.phase.current.value, s.phase.latest, env.cfg.required[env.chain])
    case Restart => Reseed(s.engine.orders, env.chain)
    case _ => s.pending
  }

  ghost function NextPhase(env: Env, s: Sys, e: Event): Phase
    requires ValidEnv(env) && Legal(env, s, e)
  {
    match e
    case PollStart(latest) =>
      var from := ScanFrom(s.cursor, latest);
      if from > latest then Refreshing(latest, s.pending, None) else Scanning(latest, from)
    case FetchBatch => s.phase.(next := BatchEnd(s.phase.next, env.batch, s.phase.latest) + 1)
    case ScanFail => Refreshing(s.phase.latest, s.pending, None)
    case SaveCursor => Refreshing(s.phase.latest, s.pending, None)
    case Emit(tx) => s.phase.(current := Some(tx))
    case Finish => s.phase.(todo := s.phase.todo - {s.phase.current.value}, current := None)
    case PollEnd => Resting
    case _ => s.phase
  }

  ghost function Apply(env: Env, s: Sys, e: Event): Sys
    requires ValidEnv(env) && Legal(env, s, e)
  {
    Sys(NextEngine(env, s, e),
        if e.SaveCursor? then s.phase.next - 1 else s.cursor,
        NextPending(env, s, e),
        NextPhase(env, s, e),
        if e.SaveCursor? && s.lo.None? && s.phase.next != 1 then Some(ScanFrom(s.cursor, s.phase.latest)) else s.lo,
        if e.PollStart? && e.latest > s.maxHead then e.latest else s.maxHead)
  }

  ghost predicate LegalRun(env: Env, s: Sys, es: seq<Event>)
    requires ValidEnv(env)
    decreases |es|
  {
    es == [] || (Legal(env, s, es[0]) && LegalRun(env, Apply(env, s, es[0]), es[1..]))
  }

  ghost function Run(env: Env, s: Sys, es: seq<Event>): Sys
    requires ValidEnv(env) && LegalRun(env, s, es)
    decreases |es|
  {
    if es == [] then s else Run(env, Apply(env, s, es[0]), es[1..])
  }

  // --------------------------------------------------------------- invariants

  ghost predicate Recorded(env: Env, s: Sys, tx: TxHash) {
    Conservation.Recorded(s.engine, (env.chain, tx))
  }

  /** A claimed order of the chain carries its transfer's true amount and block, and a count the heads justify. */
  ghost predicate RowTrue(env: Env, maxHead: int, o: Order) {
    o.chain == env.chain && o.tx.Some? ==>
      && o.tx.value in env.ledger
      && o.received == Some(env.ledger[o.tx.value].amount)
      && o.height == Some(env.ledger[o.tx.value].block)
      && (o.confirmations >= 1 ==> env.ledger[o.tx.value].block + o.confirmations - 1 <= maxHead)
  }

  ghost predicate RowsTrue(env: Env, s: Sys) {
    forall i :: i in s.engine.orders ==> RowTrue(env, s.maxHead, s.engine.orders[i])
  }

  ghost predicate Faithful(env: Env, p: PendingMap) {
    forall t :: t in p ==> t in env.ledger && p[t] == Entry(env.ledger[t].amount, env.ledger[t].block)
  }

  ghost predicate Within(p: PendingMap, q: PendingMap) {
    forall t :: t in p ==> t in q && p[t] == q[t]
  }

  ghost predicate Tracked(env: Env, s: Sys) {
    forall i :: i in s.engine.orders && s.engine.orders[i].chain == env.chain && s.engine.orders[i].status == Confirming ==>
      s.engine.orders[i].tx.Some? && s.engine.orders[i].tx.value in s.pending
  }

  /** No order still waits for a transfer whose reported count was enough. */
  ghost predicate NotWaiting(t: Orders, c: Chain, tx: TxHash, confirmations: int) {
    forall i :: i in t && t[i].chain == c && t[i].tx == Some(tx) && t[i].status == Confirming ==> confirmations < t[i].required
  }

  ghost predicate Awaited(env: Env, s: Sys, ev: TransferEvent) {
    && s.phase.Refreshing? && s.phase.current.Some? && s.phase.current.value in s.phase.todo
    && ev == EventFor(env.chain, s.phase.current.value, s.phase.todo[s.phase.current.value], s.phase.latest)
  }

  /** The chain's call is the one the watcher is waiting for. */
  ghost predicate Linked(env: Env, s: Sys) {
    && (env.chain in s.engine.calls ==> Awaited(env, s, s.engine.calls[env.chain].ev))
    && (s.phase.Refreshing? ==> Within(s.phase.todo, s.pending))
    && (s.phase.Refreshing? && s.phase.current.Some? ==> s.phase.current.value in s.phase.todo)
  }

  ghost predicate HeadsOk(env: Env, s: Sys) {
    && s.cursor >= 0 && (s.cursor == 0 <==> s.lo.None?) && (s.lo.Some? ==> s.lo.value <= s.cursor)
    && (!s.phase.Resting? ==> s.phase.latest <= s.maxHead)
    && (s.phase.Scanning? ==> ScanFrom(s.cursor, s.phase.latest) <= s.phase.next <= s.phase.latest + 1)
    && (s.phase.Scanning? ==> ScanFrom(s.cursor, s.phase.latest) <= s.phase.latest)
  }

  /** A transfer the watcher may hold in memory only: found by the scan in progress, or not yet emitted in this poll. */
  ghost predicate InMemory(env: Env, s: Sys, t: TxHash) {
    match s.phase
    case Resting => false
    case Scanning(latest, next) => t in s.pending && ScanFrom(s.cursor, latest) <= s.pending[t].height < next
    case Refreshing(_, todo, current) => t in todo && !(current == Some(t) && env.chain !in s.engine.calls)
  }

  ghost predicate PendingRecorded(env: Env, s: Sys) {
    forall t :: t in s.pending && !InMemory(env, s, t) ==> Recorded(env, s, t)
  }

  ghost predicate InSavedBlocks(env: Env, s: Sys, t: TxHash) {
    t in env.ledger && s.lo.Some? && s.lo.value <= env.ledger[t].block <= s.cursor
  }

  ghost predicate InScannedBlocks(env: Env, s: Sys, t: TxHash) {
    t in env.ledger && s.phase.Scanning? && ScanFrom(s.cursor, s.phase.latest) <= env.ledger[t].block < s.phase.next
  }

  /** The blocks already scanned and saved, and those of the scan in progress. */
  ghost predicate Covered(env: Env, s: Sys) {
    && (forall t :: InSavedBlocks(env, s, t) ==> t in s.pending || Recorded(env, s, t))
    && (forall t :: InScannedBlocks(env, s, t) ==> t in s.pending)
  }

  /** In a refresh: the call in flight, or just returned, has advanced the order; finished entries are not final. */
  ghost predicate Advanced(env: Env, s: Sys)
    requires ValidEnv(env)
  {
    s.phase.Refreshing? ==>
      && (forall t :: t in s.pending && t !in s.phase.todo ==>
            !Final(s.phase.latest, s.pending[t].height, env.cfg.required[env.chain]))
      && (s.phase.current.Some? && s.phase.current.value in s.phase.todo
          && !(env.chain in s.engine.calls && s.engine.calls[env.chain].AtUpdate?) ==>
            NotWaiting(s.engine.orders, env.chain, s.phase.current.value,
                       Confirmations(s.phase.latest, s.phase.todo[s.phase.current.value].height)))
  }

  /** What holds even after transfers were lost. */
  ghost predicate Sound(env: Env, s: Sys) {
    Engine.Inv(env.cfg, s.engine) && HeadsOk(env, s) && Linked(env, s)
  }

  ghost predicate Inv(env: Env, s: Sys)
    requires ValidEnv(env)
  {
    && Sound(env, s) && RowsTrue(env, s) && Faithful(env, s.pending)
    && Tracked(env, s) && PendingRecorded(env, s) && Covered(env, s) && Advanced(env, s)
  }

  // ------------------------------------------------------------- preservation

  lemma EngineStays(env: Env, s: Sys, e: Event)
    requires ValidEnv(env) && Sound(env, s) && Legal(env, s, e)
    ensures Engine.Inv(env.cfg, NextEngine(env, s, e))
  {
    if EngineStep(env, s, e).Some? {
      Engine.StepKeepsInv(env.cfg, s.engine, EngineStep(env, s, e).value);
    }
  }

  /** How one step may change an order of the chain: by expiry, or by the call in flight for the current transfer. */
  lemma RowMoves(env: Env, s: Sys, e: Event, i: OrderId)
    requires ValidEnv(env) && Inv(env, s) && Legal(env, s, e) && i in NextEngine(env, s, e).orders
    requires NextEngine(env, s, e).orders[i].chain == env.chain
    ensures var p := NextEngine(env, s, e).orders[i];
      if i !in s.engine.orders then p.status == Pending && p.tx.None?
      else var o := s.engine.orders[i];
        o.chain == env.chain
        && (p == o || (o.status == Pending && p == o.(status := Expired))
            || (e.OwnStatement? && env.chain in s.engine.calls
                && Engine.StatementRowStep(env.cfg, s.engine.calls[env.chain], e.now, o, p)))
  {
    if EngineStep(env, s, e).Some? {
      var g := EngineStep(env, s, e).value;
      Engine.WrittenRows(env.cfg, s.engine, g);
      if i in s.engine.orders {
        assert Engine.RowStep(env.cfg, s.engine, g, s.engine.orders[i], Engine.Written(env.cfg, s.engine, g)[i]);
      }
    }
  }

  lemma RowsStayTrue(env: Env, s: Sys, e: Event)
    requires ValidEnv(env) && Inv(env, s) && Legal(env, s, e)
    ensures RowsTrue(env, Apply(env, s, e))
  {
    var r := Apply(env, s, e);
    forall i | i in r.engine.orders
      ensures RowTrue(env, r.maxHead, r.engine.orders[i])
    {
      if r.engine.orders[i].chain == env.chain {
        RowMoves(env, s, e, i);
        if i in s.engine.orders {
          assert Engine.RowOk(env.cfg, s.engine.orders[i]);
        }
      }
    }
  }

  lemma TrackedStays(env: Env, s: Sys, e: Event)
    requires ValidEnv(env) && Inv(env, s) && Legal(env, s, e)
    ensures Tracked(env, Apply(env, s, e))
  {
    var r := Apply(env, s, e);
    forall i | i in r.engine.orders && r.engine.orders[i].chain == env.chain && r.engine.orders[i].status == Confirming
      ensures r.engine.orders[i].tx.Some? && r.engine.orders[i].tx.value in r.pending
    {
      RowMoves(env, s, e, i);
      assert Engine.RowOk(env.cfg, s.engine.orders[i]);
      if e.Restart? {
        assert SeededBy(s.engine.orders, env.chain, i, s.engine.orders[i].tx.value);
      }
    }
  }

  lemma RecordedStays(env: Env, s: Sys, e: Event, t: TxHash)
    requires ValidEnv(env) && Sound(env, s) && Legal(env, s, e) && Recorded(env, s, t)
    ensures Recorded(env, Apply(env, s, e), t)
  {
    if EngineStep(env, s, e).Some? {
      Conservation.RecordedStays(env.cfg, s.engine, EngineStep(env, s, e).value, (env.chain, t));
    }
  }

  lemma HeadsStay(env: Env, s: Sys, e: Event)
    requires ValidEnv(env) && Sound(env, s) && Legal(env, s, e)
    ensures HeadsOk(env, Apply(env, s, e))
  {
  }

  lemma LinkStays(env: Env, s: Sys, e: Event)
    requires ValidEnv(env) && Sound(env, s) && Legal(env, s, e)
    ensures Linked(env, Apply(env, s, e))
  {
    if e.OwnStatement? {
      Engine.WriteKeepsIndexes(env.cfg, s.engine, EngineStep(env, s, e).value);
    }
  }

  lemma PendingStaysFaithful(env: Env, s: Sys, e: Event)
    requires ValidEnv(env) && Inv(env, s) && Legal(env, s, e)
    ensures Faithful(env, Apply(env, s, e).pending)
  {
    if e.Restart? {
      ReseedFaithful(env, s);
    }
  }

  lemma ReseedFaithful(env: Env, s: Sys)
    requires ValidEnv(env) && Inv(env, s)
    ensures Faithful(env, Reseed(s.engine.orders, env.chain))
    ensures forall x :: x in Reseed(s.engine.orders, env.chain) ==> Recorded(env, s, x)
  {
    var p := Reseed(s.engine.orders, env.chain);
    forall x | x in p
      ensures x in env.ledger && p[x] == Entry(env.ledger[x].amount, env.ledger[x].block) && Recorded(env, s, x)
    {
      var i :| SeededBy(s.engine.orders, env.chain, i, x) && p[x] == SeedEntry(s.engine.orders[i]);
      assert RowTrue(env, s.maxHead, s.engine.orders[i]);
    }
  }

  /** The chain's call returns only when its transfer is on record. */
  lemma ReturnIsRecorded(env: Env, s: Sys, e: Event)
    requires ValidEnv(env) && Inv(env, s) && Legal(env, s, e) && e.OwnStatement?
    requires env.chain in s.engine.calls && env.chain !in Apply(env, s, e).engine.calls
    ensures Recorded(env, Apply(env, s, e), s.phase.current.value)
  {
    var g := EngineStep(env, s, e).value;
    Engine.WriteKeepsIndexes(env.cfg, s.engine, g);
    Conservation.ReturnRecords(env.cfg, s.engine, g);
  }

  lemma PendingStaysRecorded(env: Env, s: Sys, e: Event)
    requires ValidEnv(env) && Inv(env, s) && Legal(env, s, e)
    ensures PendingRecorded(env, Apply(env, s, e))
  {
    var r := Apply(env, s, e);
    forall t | t in r.pending && !InMemory(env, r, t)
      ensures Recorded(env, r, t)
    {
      if e.Restart? {
        ReseedFaithful(env, s);
      } else if t in s.pending && !InMemory(env, s, t) {
        RecordedStays(env, s, e, t);
      } else if e.OwnStatement? {
        ReturnIsRecorded(env, s, e);
      }
    }
  }

  lemma CoverageStays(env: Env, s: Sys, e: Event)
    requires ValidEnv(env) && Inv(env, s) && Legal(env, s, e)
    ensures Covered(env, Apply(env, s, e))
  {
    var r := Apply(env, s, e);
    forall t | InSavedBlocks(env, r, t)
      ensures t in r.pending || Recorded(env, r, t)
    {
      if Recorded(env, s, t) {
        RecordedStays(env, s, e, t);
      } else {
        assert t in s.pending;
        assert InMemory(env, s, t);
      }
    }
  }

  /** After a statement of the chain's call, no order waits for the transfer with too low a count. */
  lemma CallAdvances(env: Env, s: Sys, e: Event, i: OrderId)
    requires ValidEnv(env) && Inv(env, s) && Legal(env, s, e) && e.OwnStatement?
    requires i in NextEngine(env, s, e).orders
    requires var p := NextEngine(env, s, e).orders[i];
      p.chain == env.chain && p.tx == s.phase.current && p.status == Confirming
    ensures s.phase.current.value in s.phase.todo
    ensures Confirmations(s.phase.latest, s.phase.todo[s.phase.current.value].height) < NextEngine(env, s, e).orders[i].required
  {
    var call := s.engine.calls[env.chain];
    assert Awaited(env, s, call.ev);
    if call.AtUpdate? {
      Engine.WriteKeepsIndexes(env.cfg, s.engine, EngineStep(env, s, e).value);
      Engine.UpdateOutruns(env.cfg, s.engine, EngineStep(env, s, e).value, i);
    } else {
      RowMoves(env, s, e, i);
      assert Engine.CallOk(env.cfg, s.engine.orders, call);
    }
  }

  /** Rows untouched by the chain's call keep not waiting. */
  lemma QuietRowStays(env: Env, s: Sys, e: Event, i: OrderId)
    requires ValidEnv(env) && Inv(env, s) && Legal(env, s, e) && !(e.OwnStatement? && env.chain in s.engine.calls)
    requires i in NextEngine(env, s, e).orders
    requires var p := NextEngine(env, s, e).orders[i]; p.chain == env.chain && p.status == Confirming
    ensures i in s.engine.orders && NextEngine(env, s, e).orders[i] == s.engine.orders[i]
  {
    RowMoves(env, s, e, i);
  }

  /** Only another chain's step, or a creation or a sweep, leaves the chain's call past its update and in place. */
  lemma QuietCallStays(env: Env, s: Sys, e: Event)
    requires ValidEnv(env) && Legal(env, s, e) && !e.OwnStatement? && Engine.Inv(env.cfg, s.engine)
    requires var r := Apply(env, s, e);
      && r.phase.Refreshing? && r.phase.current.Some?
      && !(env.chain in r.engine.calls && r.engine.calls[env.chain].AtUpdate?)
    ensures Apply(env, s, e).phase == s.phase
    ensures !(env.chain in s.engine.calls && s.engine.calls[env.chain].AtUpdate?)
  {
  }

  lemma NotWaitingStays(env: Env, s: Sys, e: Event, i: OrderId)
    requires ValidEnv(env) && Inv(env, s) && Legal(env, s, e)
    requires var r := Apply(env, s, e);
      && r.phase.Refreshing? && r.phase.current.Some? && r.phase.current.value in r.phase.todo
      && !(env.chain in r.engine.calls && r.engine.calls[env.chain].AtUpdate?)
      && i in r.engine.orders && r.engine.orders[i].chain == env.chain
      && r.engine.orders[i].tx == r.phase.current && r.engine.orders[i].status == Confirming
    ensures var r := Apply(env, s, e);
      Confirmations(r.phase.latest, r.phase.todo[r.phase.current.value].height) < r.engine.orders[i].required
  {
    if e.OwnStatement? {
      CallAdvances(env, s, e, i);
    } else {
      QuietRowStays(env, s, e, i);
      QuietCallStays(env, s, e);
      assert NotWaiting(s.engine.orders, env.chain, s.phase.current.value,
                        Confirmations(s.phase.latest, s.phase.todo[s.phase.current.value].height));
    }
  }

  lemma FinishedStays(env: Env, s: Sys, e: Event, t: TxHash)
    requires ValidEnv(env) && Inv(env, s) && Legal(env, s, e)
    requires var r := Apply(env, s, e); r.phase.Refreshing? && t in r.pending && t !in r.phase.todo
    ensures var r := Apply(env, s, e); !Final(r.phase.latest, r.pending[t].height, env.cfg.required[env.chain])
  {
  }

  lemma AdvancedStays(env: Env, s: Sys, e: Event)
    requires ValidEnv(env) && Inv(env, s) && Legal(env, s, e)
    ensures Advanced(env, Apply(env, s, e))
  {
    var r := Apply(env, s, e);
    if r.phase.Refreshing? {
      forall t | t in r.pending && t !in r.phase.todo
        ensures !Final(r.phase.latest, r.pending[t].height, env.cfg.required[env.chain])
      {
        FinishedStays(env, s, e, t);
      }
      if r.phase.current.Some? && r.phase.current.value in r.phase.todo
         && !(env.chain in r.engine.calls && r.engine.calls[env.chain].AtUpdate?) {
        forall i | i in r.engine.orders && r.engine.orders[i].chain == env.chain
                   && r.engine.orders[i].tx == r.phase.current && r.engine.orders[i].status == Confirming
          ensures Confirmations(r.phase.latest, r.phase.todo[r.phase.current.value].height) < r.engine.orders[i].required
        {
          NotWaitingStays(env, s, e, i);
        }
      }
    }
  }

  lemma StepKeepsInv(env: Env, s: Sys, e: Event)
    requires ValidEnv(env) && Inv(env, s) && Legal(env, s, e)
    ensures Inv(env, Apply(env, s, e))
  {
    EngineStays(env, s, e);
    HeadsStay(env, s, e);
    LinkStays(env, s, e);
    PendingStaysFaithful(env, s, e);
    RowsStayTrue(env, s, e);
    TrackedStays(env, s, e);
    PendingStaysRecorded(env, s, e);
    CoverageStays(env, s, e);
    AdvancedStays(env, s, e);
  }

  lemma {:induction false} RunKeepsInv(env: Env, s: Sys, es: seq<Event>)
    requires ValidEnv(env) && Inv(env, s) && LegalRun(env, s, es)
    ensures Inv(env, Run(env, s, es))
    decreases |es|
  {
    if es != [] {
      StepKeepsInv(env, s, es[0]);
      RunKeepsInv(env, Apply(env, s, es[0]), es[1..]);
    }
  }
}
