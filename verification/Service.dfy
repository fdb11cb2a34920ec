/** The order service: what the HTTP layer and the chain watchers call. */
module Service {
  import opened Domain
  import opened OrderTable
  import opened Repository
  import opened CompletedCall
  import Engine

  datatype CreateOrderError = UserRequired | AmountOutOfRange | ChainRequired | ChainNotEnabled | NotCreated(why: CreateError)

  const MIN_ORDER_USD: real := 1_000_000.0
  const MAX_ORDER_USD: real := 100_000_000_000_000.0

  function ToLowerChar(c: char): char {
    if 'A' <= c <= 'Z' then c - 'A' + 'a' else c
  }

  function ToLower(s: string): string {
    seq(|s|, i requires 0 <= i < |s| => ToLowerChar(s[i]))
  }

  function ChainOf(s: string): Option<Chain> {
    match s
    case "tron" => Some(Tron)
    case "ton" => Some(Ton)
    case "polygon" => Some(Polygon)
    case "bsc" => Some(Bsc)
    case _ => None
  }

  // ------------------------------------------------------ what the request must say

  ghost predicate SameIgnoringCase(s: string, lower: string) {
    |s| == |lower|
    && forall i :: 0 <= i < |s| ==> s[i] == lower[i] || ('A' <= s[i] <= 'Z' && s[i] as int + 32 == lower[i] as int)
  }

  /** The chain goes by this name, in whatever case. */
  ghost predicate Names(s: string, c: Chain) {
    match c
    case Tron => SameIgnoringCase(s, "tron")
    case Ton => SameIgnoringCase(s, "ton")
    case Polygon => SameIgnoringCase(s, "polygon")
    case Bsc => SameIgnoringCase(s, "bsc")
  }

  lemma LowerIs(s: string, lower: string)
    requires forall i :: 0 <= i < |lower| ==> 'a' <= lower[i] <= 'z'
    ensures ToLower(s) == lower <==> SameIgnoringCase(s, lower)
  {
    if ToLower(s) == lower {
      forall i | 0 <= i < |s|
        ensures s[i] == lower[i] || ('A' <= s[i] <= 'Z' && s[i] as int + 32 == lower[i] as int)
      {
        assert ToLower(s)[i] == ToLowerChar(s[i]);
      }
    }
  }

  lemma ChainOfMeans(s: string, c: Chain)
    ensures ChainOf(ToLower(s)) == Some(c) <==> Names(s, c)
  {
    LowerIs(s, "tron");
    LowerIs(s, "ton");
    LowerIs(s, "polygon");
    LowerIs(s, "bsc");
  }

  /** What the service asks of the repository for a chain. */
  ghost function Asked(cfg: Config, c: Chain, rawBase: real): Request
    requires c in cfg.required
  {
    Request(c, rawBase, cfg.required[c], cfg.expiry, cfg.offsetMin, cfg.offsetMax)
  }

  ghost predicate ValidRequest(cfg: Config, userId: string, rawBase: real, chainStr: string, c: Chain) {
    userId != "" && 1_000_000.0 <= rawBase <= 100_000_000_000_000.0 && Names(chainStr, c) && c in cfg.required
  }

  class Service {
    const repo: Repository
    const cfg: Config

    constructor (repo: Repository, cfg: Config)
      ensures this.repo == repo && this.cfg == cfg
    {
      this.repo, this.cfg := repo, cfg;
    }

    function Current(): Tables
      reads repo
    {
      Tables(repo.orders, repo.reviews)
    }

    /** Validates the request and stores an order with an amount no pending order of the chain shares. */
    method CreateOrder(userId: string, rawBase: real, chainStr: string, attempts: seq<Attempt>)
      returns (r: Result<OrderId, CreateOrderError>)
      requires repo.Valid() && cfg.maxRetries <= |attempts|
      requires forall k :: 0 <= k < |attempts| ==>
        cfg.offsetMin + attempts[k].draw <= cfg.offsetMax || cfg.offsetMax <= cfg.offsetMin
      modifies repo`orders
      ensures repo.Valid()
      ensures r.Err? ==> repo.orders == old(repo.orders)
      // the checks, in this order: user, amount between one cent and a million dollars, chain given, chain enabled
      ensures r == Err(UserRequired) <==> userId == ""
      ensures r == Err(AmountOutOfRange) <==> userId != "" && !(1_000_000.0 <= rawBase <= 100_000_000_000_000.0)
      ensures r == Err(ChainRequired) <==>
        userId != "" && 1_000_000.0 <= rawBase <= 100_000_000_000_000.0 && chainStr == ""
      ensures r.Ok? || r.error.NotCreated? <==> exists c :: ValidRequest(cfg, userId, rawBase, chainStr, c)
      // a valid request fails only for a bad offset range, a refused insert, or when every attempt's amount was taken
      ensures forall c :: ValidRequest(cfg, userId, rawBase, chainStr, c) ==>
        var q := Asked(cfg, c, rawBase);
        && (r == Err(NotCreated(InvalidOffsetRange)) <==> cfg.offsetMax < cfg.offsetMin)
        && (r == Err(NotCreated(NoUniqueAmount)) <==>
              cfg.offsetMin <= cfg.offsetMax && AllTaken(old(repo.orders), q, attempts, cfg.maxRetries))
        && (r == Err(NotCreated(InsertFailed)) <==>
              cfg.offsetMin <= cfg.offsetMax
              && exists k :: 0 <= k < cfg.maxRetries && AllTaken(old(repo.orders), q, attempts, k) && Refused(q, attempts[k]))
      // otherwise exactly one row is added, whose columns are these
      ensures r.Ok? ==>
        && r.value !in old(repo.orders) && r.value in repo.orders
        && repo.orders == old(repo.orders)[r.value := repo.orders[r.value]]
      ensures r.Ok? ==>
        var o := repo.orders[r.value];
        && ValidRequest(cfg, userId, rawBase, chainStr, o.chain)
        && o.base == Round8(rawBase) && o.required == cfg.required[o.chain]
        && o.status == Pending && o.tx == None && o.received == None && o.height == None
        && o.confirmations == 0 && o.confirmedAt == None
        && (exists k :: 0 <= k < cfg.maxRetries && attempts[k].id == r.value && !attempts[k].fault
                        && o.expiresAt == attempts[k].now + cfg.expiry && o.expected == Price(Asked(cfg, o.chain, rawBase), attempts[k])
                        && AllTaken(old(repo.orders), Asked(cfg, o.chain, rawBase), attempts, k))
        && (exists offset :: cfg.offsetMin <= offset <= cfg.offsetMax
                             && o.expected == Round8(rawBase + (offset * 10_000) as real) == o.base + offset * 10_000)
        && forall i :: i in old(repo.orders) && old(repo.orders)[i].status == Pending && old(repo.orders)[i].chain == o.chain ==>
             old(repo.orders)[i].expected != o.expected
    {
      if userId == "" {
        return Err(UserRequired);
      }
      if rawBase < MIN_ORDER_USD || rawBase > MAX_ORDER_USD {
        return Err(AmountOutOfRange);
      }
      if chainStr == "" {
        return Err(ChainRequired);
      }
      var chain := ChainOf(ToLower(chainStr));
      forall c ensures chain == Some(c) <==> Names(chainStr, c) {
        ChainOfMeans(chainStr, c);
      }
      if chain.None? || chain.value !in cfg.required {
        return Err(ChainNotEnabled);
      }
      assert ValidRequest(cfg, userId, rawBase, chainStr, chain.value);
      var q := Request(chain.value, rawBase, cfg.required[chain.value], cfg.expiry, cfg.offsetMin, cfg.offsetMax);
      var created := repo.CreateWithUniqueAmount(q, cfg.maxRetries, attempts);
      if created.Err? {
        return Err(NotCreated(created.error));
      }
      ghost var k :| 0 <= k < cfg.maxRetries && AllTaken(old(repo.orders), q, attempts, k)
                     && !Refused(q, attempts[k]) && !Taken(old(repo.orders), q, attempts[k])
                     && created.value == attempts[k].id && repo.orders == old(repo.orders)[created.value := FreshRow(q, attempts[k])];
      ghost var offset := if q.offsetMax > q.offsetMin then q.offsetMin + attempts[k].draw else q.offsetMin;
      assert repo.orders[created.value] == FreshRow(q, attempts[k]);
      Engine.RoundShift(rawBase, offset * 10_000);
      return Ok(created.value);
    }

    /** Settles one report of a transfer: advance, ignore, match, attribute as underpaid, or log for review. */
    method OnTransfer(ev: TransferEvent, now: int, locks: Locks, faults: Faults)
      returns (r: Result<(), DbError>, v: Verdict)
      requires repo.Valid()
      modifies repo
      ensures repo.Valid()
      ensures r.Err? <==> v == Failed
      ensures Settles(cfg, old(Current()), ev, now, locks, faults, v, Current())
    {
      var advanced := repo.UpdateConfirmations(ev, now, faults.update);
      if advanced.Err? {
        return Err(advanced.error), Failed;
      }
      if advanced.value {
        return Ok(()), Progressed;
      }
      assert repo.orders == old(repo.orders);

      var claimed := repo.TxAlreadyClaimed(ev.chain, ev.tx, faults.check);
      if claimed.Err? {
        return Err(claimed.error), Failed;
      }
      if claimed.value {
        return Ok(()), AlreadyFinal;
      }

      assert !Held(repo.orders, ev.chain, ev.tx);
      var exact := repo.ClaimExactMatch(ev, now, cfg.tolerance, locks.exact, faults.exact);
      if exact.Err? {
        assert exact.error == Unavailable;
        return Err(exact.error), Failed;
      }
      if exact.value.Some? {
        return Ok(()), Matched(exact.value.value);
      }

      var short := repo.ClaimUnderpaid(ev, cfg.maxGapPercent, locks.underpaid, faults.underpaid);
      if short.Err? {
        assert short.error == Unavailable;
        return Err(short.error), Failed;
      }
      if short.value.Some? {
        var _ := repo.LogReviewItem(UnderpaidItem(ev, short.value.value), faults.review);
        return Ok(()), ShortOn(short.value.value);
      }

      var _ := repo.LogReviewItem(UnmatchedItem(ev), faults.review);
      return Ok(()), Unmatched;
    }

    /** The expiry sweep; a failing statement is only logged. */
    method ExpireOnce(now: int, fault: bool)
      requires repo.Valid()
      modifies repo`orders
      ensures repo.Valid()
      ensures repo.orders == if fault then old(repo.orders) else ExpireAll(old(repo.orders), now)
      // exactly the pending rows past due expire, none of them is left, and no other row changes
      ensures repo.orders.Keys == old(repo.orders).Keys
      ensures forall i :: i in repo.orders ==>
        var o := old(repo.orders)[i];
        repo.orders[i] == if !fault && o.status == Pending && o.expiresAt < now then o.(status := Expired) else o
      ensures !fault ==> forall i :: i in repo.orders && repo.orders[i].status == Pending ==> now <= repo.orders[i].expiresAt
    {
      var _ := repo.ExpirePastDue(now, fault);
    }
  }

  /** Storing a new order is one step of the engine. */
  lemma CreationIsStep(cfg: Config, s: Engine.State, c: Chain, rawBase: real, a: Attempt, offset: int)
    requires Indexed(s.orders) && c in cfg.required && cfg.offsetMin <= offset <= cfg.offsetMax
    requires offset == if cfg.offsetMax > cfg.offsetMin then cfg.offsetMin + a.draw else cfg.offsetMin
    requires !Refused(Asked(cfg, c, rawBase), a) && !Taken(s.orders, Asked(cfg, c, rawBase), a)
    ensures var e := Engine.Insert(a.id, c, rawBase, offset, a.now + cfg.expiry);
      Engine.Legal(cfg, s, e)
      && Engine.Apply(cfg, s, e).orders == s.orders[a.id := FreshRow(Asked(cfg, c, rawBase), a)]
      && Engine.Apply(cfg, s, e).reviews == s.reviews
  {
    AttemptMeans(s.orders, Asked(cfg, c, rawBase), a);
  }

  // --------------------------------------------------- what a completed call has done

  /** When a call ends how, in terms of the columns it met. */
  lemma VerdictMeans(cfg: Config, a: Tables, ev: TransferEvent, now: int, locks: Locks, faults: Faults, v: Verdict, b: Tables)
    requires Settles(cfg, a, ev, now, locks, faults, v, b)
    ensures v == Progressed <==> !faults.update && exists i :: i in a.orders && Due(a.orders[i], ev)
    ensures v == AlreadyFinal ==> exists i :: i in a.orders && a.orders[i].chain == ev.chain && a.orders[i].tx == Some(ev.tx)
    ensures v.Matched? || v.ShortOn? || v == Unmatched ==>
      forall i :: i in a.orders && a.orders[i].chain == ev.chain ==> a.orders[i].tx != Some(ev.tx)
    ensures v.Matched? ==>
      && v.id in a.orders && v.id !in locks.exact && Within(a.orders[v.id], ev, cfg.tolerance)
      && forall j :: j in a.orders && j !in locks.exact && Within(a.orders[j], ev, cfg.tolerance) ==>
           a.orders[v.id].expiresAt <= a.orders[j].expiresAt
    ensures v.ShortOn? || v == Unmatched ==>
      forall i :: i in a.orders && i !in locks.exact ==> !Within(a.orders[i], ev, cfg.tolerance)
  {
    assert forall i :: i in ExactCandidates(a.orders, ev.chain, ev.amount, cfg.tolerance, locks.exact) <==>
      i in a.orders && i !in locks.exact && Within(a.orders[i], ev, cfg.tolerance);
    assert forall i :: i in a.orders ==> (Due(a.orders[i], ev) <==> Advances(a.orders[i], ev.chain, ev.tx, ev.confirmations));
  }

  /** An order is found short only within the limit, and the nearest above; a transfer is unmatched only beyond it. */
  lemma ShortfallMeans(cfg: Config, a: Tables, ev: TransferEvent, now: int, locks: Locks, faults: Faults, v: Verdict, b: Tables)
    requires Settles(cfg, a, ev, now, locks, faults, v, b)
    ensures v.ShortOn? ==>
      && v.id in a.orders && v.id !in locks.underpaid && Above(a.orders[v.id], ev)
      && !MissesOver(a.orders[v.id], ev.amount, cfg.maxGapPercent + 50)
      && (ev.amount >= 0 ==> forall j :: j in a.orders && j !in locks.underpaid && Above(a.orders[j], ev) ==>
            a.orders[v.id].expected <= a.orders[j].expected)
    ensures v == Unmatched ==>
      forall i :: i in a.orders && i !in locks.underpaid && Above(a.orders[i], ev) ==>
        MissesOver(a.orders[i], ev.amount, cfg.maxGapPercent - 50)
  {
    if v.ShortOn? || v == Unmatched {
      var among := UnderpaidCandidates(a.orders, ev.chain, ev.amount, locks.underpaid);
      assert forall i :: i in among <==> i in a.orders && i !in locks.underpaid && Above(a.orders[i], ev);
      ShareMeans(a.orders, among, ev.amount, cfg.maxGapPercent);
      if v.ShortOn? && ev.amount >= 0 {
        SmallestGapIsNearest(a.orders, among, ev.amount, cfg.maxGapPercent, v.id);
      }
    }
  }

  /** What the call has done to the orders, column by column. */
  lemma EffectMeans(cfg: Config, a: Tables, ev: TransferEvent, now: int, locks: Locks, faults: Faults, v: Verdict, b: Tables)
    requires Settles(cfg, a, ev, now, locks, faults, v, b)
    ensures v == AlreadyFinal || v == Unmatched || v == Failed ==> b.orders == a.orders
    ensures v.Matched? ==>
      v.id in a.orders
      && var o := a.orders[v.id];
        b.orders == a.orders[v.id := Order(o.chain, o.base, o.expected, o.required, o.expiresAt,
                                           if ev.confirmations < o.required then Confirming else Confirmed, Some(ev.tx),
                                           Some(ev.amount), Some(ev.height), ev.confirmations,
                                           if ev.confirmations < o.required then None else Some(now))]
    ensures v.ShortOn? ==>
      v.id in a.orders
      && var o := a.orders[v.id];
        b.orders == a.orders[v.id := Order(o.chain, o.base, o.expected, o.required, o.expiresAt, Underpaid, Some(ev.tx),
                                           Some(ev.amount), Some(ev.height), o.confirmations, o.confirmedAt)]
    ensures v == Progressed ==> b.orders.Keys == a.orders.Keys
    ensures v == Progressed ==> forall i :: i in a.orders ==>
      var o := a.orders[i];
      b.orders[i] == if !Due(o, ev) then o
                     else if ev.confirmations < o.required then o.(height := Some(ev.height), confirmations := ev.confirmations)
                     else o.(height := Some(ev.height), confirmations := ev.confirmations, status := Confirmed,
                             confirmedAt := if o.confirmedAt == None then Some(now) else o.confirmedAt)
  {
    if v == Progressed {
      assert b.orders == AdvanceAll(a.orders, ev, now);
    }
  }

  ghost predicate InQueue(rs: seq<ReviewItem>, c: Chain, tx: TxHash) {
    exists k :: 0 <= k < |rs| && rs[k].chain == c && rs[k].tx == tx
  }

  /** What the call has done to the review queue. */
  lemma QueueMeans(cfg: Config, a: Tables, ev: TransferEvent, now: int, locks: Locks, faults: Faults, v: Verdict, b: Tables)
    requires Settles(cfg, a, ev, now, locks, faults, v, b)
    ensures b.reviews ==
      if faults.review || InQueue(a.reviews, ev.chain, ev.tx) then a.reviews
      else if v.ShortOn? then a.reviews + [ReviewItem(ev.chain, ev.tx, ev.amount, ReasonUnderpaid, Some(v.id))]
      else if v == Unmatched then a.reviews + [ReviewItem(ev.chain, ev.tx, ev.amount, ReasonUnmatched, None)]
      else a.reviews
  {
  }
}
