/** What the composed system promises of one EVM chain over every run, and exactly where its promises end. */
module EvmGuarantees {
  import opened Domain
  import opened OrderTable
  import opened EvmScan
  import opened EvmSystem
  import Conservation
  import Engine

  lemma Reached(env: Env, es: seq<Event>)
    requires ValidEnv(env) && LegalRun(env, Start, es)
    ensures Inv(env, Run(env, Start, es))
  {
    assert Inv(env, Start);
    RunKeepsInv(env, Start, es);
  }

  /** Coverage: from the first scan that saved its cursor, every payment in a scanned block is in memory or on record (an
      order's transfer or a review row), and between polls it is on record. */
  lemma EveryPaymentIsCovered(env: Env, es: seq<Event>, t: TxHash)
    requires ValidEnv(env) && LegalRun(env, Start, es) && t in env.ledger
    requires var s := Run(env, Start, es); s.lo.Some? && s.lo.value <= env.ledger[t].block <= s.cursor
    ensures var s := Run(env, Start, es);
      && (t in s.pending || Recorded(env, s, t))
      && (s.phase.Resting? ==> Recorded(env, s, t))
  {
    Reached(env, es);
    var s := Run(env, Start, es);
    assert InSavedBlocks(env, s, t);
    assert !InMemory(env, s, t) || !s.phase.Resting?;
  }

  /** No stranded order: at every step every confirming order's payment is tracked by the watcher, with the amount the
      order received and the block it lies in. */
  lemma NoStrandedOrder(env: Env, es: seq<Event>, i: OrderId)
    requires ValidEnv(env) && LegalRun(env, Start, es) && i in Run(env, Start, es).engine.orders
    requires var o := Run(env, Start, es).engine.orders[i]; o.chain == env.chain && o.status == Confirming
    ensures var s := Run(env, Start, es);
      var o := s.engine.orders[i];
      && o.tx.Some? && o.received.Some? && o.height.Some?
      && o.tx.value in s.pending && s.pending[o.tx.value] == Entry(o.received.value, o.height.value)
  {
    Reached(env, es);
    var s := Run(env, Start, es);
    assert RowTrue(env, s.maxHead, s.engine.orders[i]);
  }

  /** Dropping a payment from memory never leaves an order waiting for it. */
  lemma ForgettingIsSafe(env: Env, es: seq<Event>, t: TxHash, i: OrderId)
    requires ValidEnv(env) && LegalRun(env, Start, es) && Legal(env, Run(env, Start, es), Finish)
    requires var s := Run(env, Start, es); t in s.pending && t !in Apply(env, s, Finish).pending && i in s.engine.orders
    ensures var s := Run(env, Start, es);
      var o := s.engine.orders[i];
      Recorded(env, s, t) && !(o.chain == env.chain && o.tx == Some(t) && o.status == Confirming)
  {
    Reached(env, es);
    var s := Run(env, Start, es);
    StepKeepsInv(env, s, Finish);
    assert t == s.phase.current.value && !InMemory(env, s, t);
  }

  /** A poll leaves no order of the chain behind that its head allowed to confirm. */
  lemma PollConfirmsAllItCan(env: Env, es: seq<Event>, i: OrderId)
    requires ValidEnv(env) && LegalRun(env, Start, es) && Legal(env, Run(env, Start, es), PollEnd)
    requires i in Run(env, Start, es).engine.orders
    requires var o := Run(env, Start, es).engine.orders[i]; o.chain == env.chain && o.status == Confirming
    ensures var s := Run(env, Start, es);
      var o := s.engine.orders[i]; o.height.Some? && s.phase.latest - o.height.value + 1 < o.required
  {
    Reached(env, es);
    var s := Run(env, Start, es);
    NoStrandedOrder(env, es, i);
    assert Engine.RowOk(env.cfg, s.engine.orders[i]);
  }

  /** Never confirmed early: the highest head ever reported lies at least required - 1 blocks above the payment's. */
  lemma NeverConfirmedEarly(env: Env, es: seq<Event>, i: OrderId)
    requires ValidEnv(env) && LegalRun(env, Start, es) && env.cfg.required[env.chain] >= 1
    requires i in Run(env, Start, es).engine.orders
    requires var o := Run(env, Start, es).engine.orders[i]; o.chain == env.chain && o.status == Confirmed
    ensures var s := Run(env, Start, es);
      var o := s.engine.orders[i];
      && o.tx.Some? && o.tx.value in env.ledger && o.height == Some(env.ledger[o.tx.value].block)
      && o.height.value + o.required - 1 <= s.maxHead
  {
    Reached(env, es);
    var s := Run(env, Start, es);
    assert Engine.RowOk(env.cfg, s.engine.orders[i]) && RowTrue(env, s.maxHead, s.engine.orders[i]);
  }

  /** Every save moves the cursor forward, to the poll's head, unless that is zero, and the blocks scanned continue the
      saved interval without a gap; no other step moves it. */
  lemma CursorAdvances(env: Env, es: seq<Event>, e: Event)
    requires ValidEnv(env) && LegalRun(env, Start, es) && Legal(env, Run(env, Start, es), e)
    ensures var s := Run(env, Start, es);
      var r := Apply(env, s, e);
      if e.SaveCursor? then
        r.cursor == s.phase.latest && (r.cursor > s.cursor || r.cursor == 0 == s.cursor)
        && (s.lo.Some? ==> r.lo == s.lo && ScanFrom(s.cursor, s.phase.latest) == s.cursor + 1)
        && (s.lo.None? ==> r.lo == if r.cursor == 0 then None else Some(ScanFrom(0, s.phase.latest)))
      else r.cursor == s.cursor && r.lo == s.lo
  {
    Reached(env, es);
  }

  // ------------------------------------------------------------ where it ends

  /** The process dies at any point and starts again. */
  ghost function Crash(env: Env, s: Sys): Sys {
    s.(engine := s.engine.(calls := map[]), pending := Reseed(s.engine.orders, env.chain), phase := Resting)
  }

  ghost predicate AllCovered(env: Env, s: Sys) {
    forall t :: InSavedBlocks(env, s, t) ==> t in s.pending || Recorded(env, s, t)
  }

  /** A crash keeps coverage exactly when no payment below the saved cursor is still waiting for its first emission in
      the refresh it interrupts. Between polls and during a scan it always does. */
  lemma CrashLosesOnlyUnrecorded(env: Env, es: seq<Event>)
    requires ValidEnv(env) && LegalRun(env, Start, es)
    ensures var s := Run(env, Start, es);
      AllCovered(env, Crash(env, s)) <==>
        (s.phase.Refreshing? ==> forall t :: t in s.phase.todo && InSavedBlocks(env, s, t) ==> Recorded(env, s, t))
  {
    Reached(env, es);
    var s := Run(env, Start, es);
    var r := Crash(env, s);
    ReseedFaithful(env, s);
    forall t | InSavedBlocks(env, s, t) && (s.phase.Refreshing? ==> t !in s.phase.todo)
      ensures Recorded(env, s, t)
    {
      assert t in s.pending ==> !InMemory(env, s, t);
    }
    forall t
      ensures InSavedBlocks(env, s, t) <==> InSavedBlocks(env, r, t)
      ensures Recorded(env, s, t) <==> Recorded(env, r, t)
    {
    }
  }

  /** If the sink fails during the current emission, the payment survives exactly when it was on record before or the
      poll's head does not make it final yet, so that a later poll emits it again. */
  lemma SinkFaultLoses(env: Env, es: seq<Event>)
    requires ValidEnv(env) && LegalRun(env, Start, es)
    requires var s := Run(env, Start, es); s.phase.Refreshing? && env.chain in s.engine.calls
    ensures var s := Run(env, Start, es);
      var faulted := s.(engine := Engine.Apply(env.cfg, s.engine, Engine.Fault(env.chain)));
      s.phase.current.Some? && s.phase.current.value in s.pending && Legal(env, faulted, Finish)
      && var r, t := Apply(env, faulted, Finish), s.phase.current.value;
        (t in r.pending || Recorded(env, r, t)) <==>
          (Recorded(env, s, t) || !Final(s.phase.latest, s.pending[t].height, env.cfg.required[env.chain]))
  {
    Reached(env, es);
    var s := Run(env, Start, es);
    assert Awaited(env, s, s.engine.calls[env.chain].ev);
    var faulted := s.(engine := Engine.Apply(env.cfg, s.engine, Engine.Fault(env.chain)));
    assert faulted.engine == s.engine.(calls := s.engine.calls - {env.chain});
  }

  /** If the sink fails during the current emission, some confirming order is left untracked exactly when
      the poll's head makes the transfer final and the call had not yet advanced an order that waits for it. */
  lemma SinkFaultStrands(env: Env, es: seq<Event>)
    requires ValidEnv(env) && LegalRun(env, Start, es)
    requires var s := Run(env, Start, es); s.phase.Refreshing? && env.chain in s.engine.calls
    ensures var s := Run(env, Start, es);
      var faulted := s.(engine := Engine.Apply(env.cfg, s.engine, Engine.Fault(env.chain)));
      s.phase.current.Some? && s.phase.current.value in s.pending && Legal(env, faulted, Finish)
      && var r, t := Apply(env, faulted, Finish), s.phase.current.value;
        !Tracked(env, r) <==>
          Final(s.phase.latest, s.pending[t].height, env.cfg.required[env.chain])
          && s.engine.calls[env.chain].AtUpdate? && Waits(env, s, t)
  {
    Reached(env, es);
    var s := Run(env, Start, es);
    assert Awaited(env, s, s.engine.calls[env.chain].ev);
    var faulted := s.(engine := Engine.Apply(env.cfg, s.engine, Engine.Fault(env.chain)));
    assert faulted.engine == s.engine.(calls := s.engine.calls - {env.chain});
    var r, t := Apply(env, faulted, Finish), s.phase.current.value;
    if Waits(env, s, t) && Final(s.phase.latest, s.pending[t].height, env.cfg.required[env.chain]) {
      var i :| WaitsFor(env, s, t, i);
      assert Engine.RowOk(env.cfg, s.engine.orders[i]);
      assert i in r.engine.orders && t !in r.pending;
    } else {
      forall i | i in r.engine.orders && r.engine.orders[i].chain == env.chain && r.engine.orders[i].status == Confirming
        ensures r.engine.orders[i].tx.Some? && r.engine.orders[i].tx.value in r.pending
      {
        assert r.engine.orders[i].tx == Some(t) ==> WaitsFor(env, s, t, i);
      }
    }
  }

  ghost predicate WaitsFor(env: Env, s: Sys, t: TxHash, i: OrderId) {
    i in s.engine.orders && s.engine.orders[i].chain == env.chain && s.engine.orders[i].tx == Some(t)
    && s.engine.orders[i].status == Confirming
  }

  ghost predicate Waits(env: Env, s: Sys, t: TxHash) {
    exists i :: WaitsFor(env, s, t, i)
  }

  /** A restart tracks every confirming order again, whatever was lost before. */
  lemma RestartTracks(env: Env, s: Sys)
    requires Engine.Inv(env.cfg, s.engine)
    ensures Tracked(env, Crash(env, s))
  {
    forall i | i in s.engine.orders && s.engine.orders[i].chain == env.chain && s.engine.orders[i].status == Confirming
      ensures s.engine.orders[i].tx.Some? && s.engine.orders[i].tx.value in Reseed(s.engine.orders, env.chain)
    {
      assert Engine.RowOk(env.cfg, s.engine.orders[i]);
      assert SeededBy(s.engine.orders, env.chain, i, s.engine.orders[i].tx.value);
    }
  }

  // ------------------------------------------------------------ lost for good

  /** Neither in memory nor on record, in a block the next scan will not read again. */
  ghost predicate Lost(env: Env, s: Sys, t: TxHash) {
    && t in env.ledger && s.cursor > 0 && env.ledger[t].block <= s.cursor
    && t !in s.pending && !Recorded(env, s, t)
  }

  /** A step puts on record only what was in memory. */
  lemma RecordedFromMemory(env: Env, s: Sys, e: Event, t: TxHash)
    requires ValidEnv(env) && Sound(env, s) && Legal(env, s, e) && Recorded(env, Apply(env, s, e), t)
    ensures Recorded(env, s, t) || t in s.pending
  {
    if !Recorded(env, s, t) {
      Conservation.NewlyRecorded(env.cfg, s.engine, EngineStep(env, s, e).value, (env.chain, t));
      assert Awaited(env, s, s.engine.calls[env.chain].ev);
    }
  }

  lemma ReseededIsRecorded(env: Env, s: Sys, t: TxHash)
    requires t in Reseed(s.engine.orders, env.chain)
    ensures Recorded(env, s, t)
  {
    var i :| SeededBy(s.engine.orders, env.chain, i, t);
  }

  lemma LostStep(env: Env, s: Sys, e: Event, t: TxHash)
    requires ValidEnv(env) && Sound(env, s) && Legal(env, s, e) && Lost(env, s, t)
    ensures Sound(env, Apply(env, s, e)) && Lost(env, Apply(env, s, e), t)
  {
    EngineStays(env, s, e);
    HeadsStay(env, s, e);
    LinkStays(env, s, e);
    forall x | Recorded(env, Apply(env, s, e), x)
      ensures Recorded(env, s, x) || x in s.pending
    {
      RecordedFromMemory(env, s, e, x);
    }
    forall x | x in Reseed(s.engine.orders, env.chain)
      ensures Recorded(env, s, x)
    {
      ReseededIsRecorded(env, s, x);
    }
  }

  /** What is lost stays lost: over every further run, restarts included, the payment is never tracked nor put on record. */
  lemma {:induction false} LostStaysLost(env: Env, s: Sys, es: seq<Event>, t: TxHash)
    requires ValidEnv(env) && Sound(env, s) && LegalRun(env, s, es) && Lost(env, s, t)
    ensures Lost(env, Run(env, s, es), t)
    decreases |es|
  {
    if es != [] {
      LostStep(env, s, es[0], t);
      LostStaysLost(env, Apply(env, s, es[0]), es[1..], t);
    }
  }
}
