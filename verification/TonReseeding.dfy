/** Elapsed time as a confirmation count on TON, through any number of restarts. */
module TonReseeding {
  import opened Domain
  import opened OrderTable
  import opened TonWatcher
  import opened CompletedCall

  /** A claimed order, and the time its transfer counts from while it is tracked. */
  datatype State = State(order: Order, observed: int, tracked: bool)

  /** A poll whose report the sink accepts, or rejects; a restart, which reseeds confirming orders from the clock; a scan
      reading the transfer again. */
  datatype Event = Poll(now: int) | Rejected(now: int) | Restart(now: int) | Rediscover

  /** What UpdateConfirmations makes of the order when a count is reported for its transfer. */
  function Report(o: Order, count: int, now: int): Order {
    if o.status == Confirming && count >= o.confirmations && o.height.Some? then Advance(o, o.height.value, count, now) else o
  }

  function Step(s: State, e: Event, origin: int): State {
    match e
    case Poll(now) =>
      if s.tracked then
        State(Report(s.order, Elapsed(now, s.observed), now), s.observed, Elapsed(now, s.observed) < s.order.required)
      else s
    case Rejected(now) => s.(tracked := s.tracked && Elapsed(now, s.observed) < s.order.required)
    case Restart(now) => State(s.order, if s.order.status == Confirming then now else s.observed, s.order.status == Confirming)
    case Rediscover => State(s.order, origin, true)
  }

  function Run(s: State, es: seq<Event>, origin: int): State
    decreases |es|
  {
    if es == [] then s else Run(Step(s, es[0], origin), es[1..], origin)
  }

  /** Clock readings never decrease, and none lies before the transfer's own time. */
  ghost predicate Timed(es: seq<Event>, from: int)
    decreases |es|
  {
    es == [] || match es[0]
      case Poll(now) => now >= from && Timed(es[1..], now)
      case Rejected(now) => now >= from && Timed(es[1..], now)
      case Restart(now) => now >= from && Timed(es[1..], now)
      case Rediscover => Timed(es[1..], from)
  }

  ghost predicate Plausible(o: Order) {
    && o.chain == Ton && o.tx.Some? && o.height.Some? && o.required >= 1
    && (o.status == Confirming || o.status == Confirmed)
    && (o.status == Confirming ==> o.confirmations < o.required && o.confirmedAt.None?)
    && (o.status == Confirmed ==> o.confirmedAt.Some?)
  }

  /** A count taken from a later starting time is never larger, and counts grow with the clock. */
  lemma ElapsedMonotone(now1: int, now2: int, observed1: int, observed2: int)
    requires now1 <= now2 && observed1 <= observed2
    ensures Elapsed(now1, observed2) <= Elapsed(now1, observed1) <= Elapsed(now2, observed1)
  {
  }

  /** The count is never negative, and reaches n exactly when n block times of five seconds have passed. */
  lemma ElapsedReaches(now: int, observed: int, n: int)
    requires n >= 1
    ensures Elapsed(now, observed) >= 0
    ensures Elapsed(now, observed) >= n <==> now - observed >= n * 5
  {
  }

  /** No restart moves the starting time before the true one; the stored count and the confirmation never run ahead of
      the time really elapsed. */
  ghost predicate Honest(s: State, origin: int, clock: int) {
    && Plausible(s.order) && origin <= s.observed <= clock
    && s.order.confirmations <= Elapsed(clock, origin)
    && (s.order.status == Confirmed ==> s.order.confirmedAt.value - origin >= s.order.required * 5)
  }

  ghost function ClockAfter(e: Event, clock: int): int {
    match e
    case Poll(now) => now
    case Rejected(now) => now
    case Restart(now) => now
    case Rediscover => clock
  }

  lemma StepStaysHonest(s: State, e: Event, origin: int, clock: int)
    requires Honest(s, origin, clock) && origin <= clock <= ClockAfter(e, clock)
    ensures Honest(Step(s, e, origin), origin, ClockAfter(e, clock))
    ensures Step(s, e, origin).order.required == s.order.required
    ensures s.order.confirmations <= Step(s, e, origin).order.confirmations
  {
    ElapsedMonotone(clock, ClockAfter(e, clock), origin, s.observed);
    if e.Poll? {
      ElapsedMonotone(e.now, e.now, origin, s.observed);
      ElapsedReaches(e.now, origin, s.order.required);
    }
  }

  /** Over any number of restarts and polls the stored count never exceeds the time really elapsed since the transfer, so
      a restart only ever makes a payment wait longer; the count never drops, and an order is confirmed only once the
      required number of block times has passed. */
  lemma {:induction false} ReseedingIsConservative(s: State, es: seq<Event>, origin: int, clock: int)
    requires Honest(s, origin, clock) && origin <= clock && Timed(es, clock)
    ensures var o := Run(s, es, origin).order;
      && s.order.confirmations <= o.confirmations && o.required == s.order.required
      && (o.status == Confirmed ==> o.confirmedAt.Some? && o.confirmedAt.value - origin >= o.required * 5)
    ensures exists last :: last >= clock && Honest(Run(s, es, origin), origin, last)
    decreases |es|
  {
    if es == [] {
      assert Honest(s, origin, clock);
    } else {
      StepStaysHonest(s, es[0], origin, clock);
      ReseedingIsConservative(Step(s, es[0], origin), es[1..], origin, ClockAfter(es[0], clock));
    }
  }

  /** A reseeded entry counts, at every later time, at most what it would have counted without the restart, and at most
      what an entry never restarted counts. */
  lemma ReseededNeverAhead(s: State, restart: int, now: int, origin: int)
    requires Honest(s, origin, restart) && origin <= restart <= now && s.order.status == Confirming
    ensures Elapsed(now, Step(s, Restart(restart), origin).observed) <= Elapsed(now, s.observed) <= Elapsed(now, origin)
  {
    ElapsedMonotone(now, now, s.observed, restart);
    ElapsedMonotone(now, now, origin, s.observed);
  }

  /** A tracked confirming order is confirmed by an accepted poll exactly when the required block times have passed since the
      last reseeding (or since the transfer itself, if none intervened). */
  lemma ConfirmedByFirstLatePoll(s: State, origin: int, clock: int, now: int)
    requires Honest(s, origin, clock) && clock <= now && s.order.status == Confirming && s.tracked
    ensures Step(s, Poll(now), origin).order.status == Confirmed <==> now - s.observed >= s.order.required * 5
  {
    ElapsedReaches(now, s.observed, s.order.required);
  }

  // ---------------------------------------------------------- losing track

  /** The entry is dropped although its report was rejected. */
  ghost predicate Loses(s: State, e: Event) {
    s.tracked && e.Rejected? && Elapsed(e.now, s.observed) >= s.order.required
  }

  ghost predicate NoneRegains(es: seq<Event>) {
    forall e :: e in es ==> !e.Restart? && !e.Rediscover?
  }

  /** The k-th event dropped the entry and nothing brought it back. */
  ghost predicate LostAt(s: State, es: seq<Event>, origin: int, k: nat)
    requires k < |es|
  {
    Loses(Run(s, es[..k], origin), es[k]) && NoneRegains(es[k + 1..])
  }

  lemma {:induction false} RunLast(s: State, es: seq<Event>, origin: int)
    requires es != []
    ensures Run(s, es, origin) == Step(Run(s, es[..|es| - 1], origin), es[|es| - 1], origin)
    decreases |es|
  {
    if |es| > 1 {
      RunLast(Step(s, es[0], origin), es[1..], origin);
      assert es[1..][..|es[1..]| - 1] == es[..|es| - 1][1..];
    } else {
      assert es[1..] == [] && es[..0] == [];
    }
  }

  /** A confirming order is untracked exactly when the sink rejected a report that had already reached the required count,
      and since then there was no restart and no scan reading the transfer again. */
  lemma {:induction false} TrackLostIff(s: State, es: seq<Event>, origin: int, clock: int)
    requires Honest(s, origin, clock) && origin <= clock && Timed(es, clock) && s.tracked
    requires Run(s, es, origin).order.status == Confirming
    ensures !Run(s, es, origin).tracked <==> exists k :: 0 <= k < |es| && LostAt(s, es, origin, k)
    decreases |es|
  {
    if es != [] {
      var init, e := es[..|es| - 1], es[|es| - 1];
      var m := Run(s, init, origin);
      RunLast(s, es, origin);
      TimedPrefix(es, |es| - 1, clock);
      ReseedingIsConservative(s, init, origin, clock);
      TrackLostIff(s, init, origin, clock);
      LostAtLast(s, es, origin);
      forall k | 0 <= k < |init|
        ensures LostAt(s, es, origin, k) <==> LostAt(s, init, origin, k) && NoneRegains([e])
      {
        LostAtMore(s, es, origin, k);
      }
    }
  }

  lemma LostAtLast(s: State, es: seq<Event>, origin: int)
    requires es != []
    ensures LostAt(s, es, origin, |es| - 1) <==> Loses(Run(s, es[..|es| - 1], origin), es[|es| - 1])
  {
    assert es[|es|..] == [];
  }

  lemma LostAtMore(s: State, es: seq<Event>, origin: int, k: nat)
    requires k < |es| - 1
    ensures LostAt(s, es, origin, k) <==> LostAt(s, es[..|es| - 1], origin, k) && NoneRegains([es[|es| - 1]])
  {
    var init, e := es[..|es| - 1], es[|es| - 1];
    assert init[..k] == es[..k] && es[k + 1..] == init[k + 1..] + [e];
  }

  lemma {:induction false} TimedPrefix(es: seq<Event>, n: nat, from: int)
    requires Timed(es, from) && n <= |es|
    ensures Timed(es[..n], from)
    decreases n
  {
    if n > 0 {
      TimedPrefix(es[1..], n - 1, ClockAfter(es[0], from));
      assert es[..n][1..] == es[1..][..n - 1];
    }
  }

  /** An OnTransfer call for a tracked transfer does to the order that holds it what an accepted poll does, or nothing if a
      statement it reaches fails: whatever is locked and whatever fails. */
  lemma CallIsPoll(cfg: Config, a: Tables, tx: TxHash, p: Entry, i: OrderId, now: int, locks: Locks, faults: Faults,
                   v: Verdict, b: Tables, origin: int)
    requires i in a.orders && Plausible(a.orders[i]) && a.orders[i].tx == Some(tx) && a.orders[i].height == Some(p.lt)
    requires Settles(cfg, a, EventFor(tx, p, now), now, locks, faults, v, b)
    ensures i in b.orders
    ensures var e := if Breaks(cfg, a, EventFor(tx, p, now), locks, faults) then Rejected(now) else Poll(now);
      b.orders[i] == Step(State(a.orders[i], p.observed, true), e, origin).order
  {
    assert Held(a.orders, Ton, tx);
    FailsIff(cfg, a, EventFor(tx, p, now), now, locks, faults, v, b);
  }
}
