/** Payments that cannot be told apart by amount still settle every order exactly once. */
module Settlement {
  import opened Domain
  import opened OrderTable
  import opened Engine
  import opened EngineSafety
  import opened CompletedCall

  ghost predicate Close(x: Money, y: Money, tolerance: Money) {
    -tolerance <= x - y <= tolerance
  }

  /** A set of open orders of one chain whose amounts lie pairwise within the tolerance. */
  ghost predicate IsCluster(cfg: Config, t: Orders, c: Chain, cluster: set<OrderId>) {
    && (forall i :: i in cluster ==> i in t && Open(t[i], c))
    && (forall i, j :: i in cluster && j in cluster ==> Close(t[i].expected, t[j].expected, cfg.tolerance))
  }

  /** New, distinct transfers, each paying the amount of some order of the cluster and close to no order outside it. */
  ghost predicate PaysInto(cfg: Config, t: Orders, c: Chain, cluster: set<OrderId>, evs: seq<TransferEvent>) {
    && (forall k :: 0 <= k < |evs| ==> evs[k].chain == c && !Held(t, c, evs[k].tx))
    && (forall k, l :: 0 <= k < l < |evs| ==> evs[k].tx != evs[l].tx)
    && (forall k :: 0 <= k < |evs| ==> PaysOne(t, cluster, evs[k].amount))
    && (forall k, i :: 0 <= k < |evs| && i in t && i !in cluster && Open(t[i], c) ==>
          !Close(evs[k].amount, t[i].expected, cfg.tolerance))
  }

  ghost predicate PaysOne(t: Orders, cluster: set<OrderId>, amount: Money) {
    exists j :: j in cluster && j in t && t[j].expected == amount
  }

  /** The calls run one after the other, without faults or locked rows. */
  ghost predicate CallSequence(cfg: Config, ts: seq<Tables>, evs: seq<TransferEvent>, nows: seq<int>, vs: seq<Verdict>) {
    && |ts| == |evs| + 1 && |nows| == |evs| && |vs| == |evs|
    && forall k :: 0 <= k < |evs| ==> Settles(cfg, ts[k], evs[k], nows[k], NO_LOCKS, NO_FAULTS, vs[k], ts[k + 1])
  }

  /** The orders matched by the first n calls. */
  ghost function Taken(vs: seq<Verdict>, n: nat): set<OrderId>
    requires n <= |vs|
  {
    set k | 0 <= k < n && vs[k].Matched? :: vs[k].id
  }

  ghost predicate Claimed(t: Orders, cluster: set<OrderId>, evs: seq<TransferEvent>, nows: seq<int>, vs: seq<Verdict>,
                          n: nat, u: Orders)
    requires n <= |vs| && |vs| == |evs| == |nows|
  {
    forall k :: 0 <= k < n ==>
      vs[k].Matched? && vs[k].id in cluster && vs[k].id in t && vs[k].id in u && u[vs[k].id] == Claim(t[vs[k].id], evs[k], nows[k])
  }

  ghost predicate Untouched(t: Orders, u: Orders, taken: set<OrderId>) {
    u.Keys == t.Keys && forall i :: i in t && i !in taken ==> u[i] == t[i]
  }

  /** Each call took an order no younger than any then left. */
  ghost predicate OldestFirst(t: Orders, cluster: set<OrderId>, vs: seq<Verdict>, n: nat)
    requires n <= |vs|
  {
    forall k, j :: 0 <= k < n && j in cluster && j in t && j !in Taken(vs, k) ==>
      vs[k].Matched? && vs[k].id in t && t[vs[k].id].expiresAt <= t[j].expiresAt
  }

  /** After n calls: n different orders of the cluster each hold one of the transfers, the oldest remaining one first,
      and every other order is as it was. */
  ghost predicate SettledUpTo(t: Orders, cluster: set<OrderId>, evs: seq<TransferEvent>, nows: seq<int>,
                              vs: seq<Verdict>, n: nat, u: Orders)
    requires n <= |vs| && |vs| == |evs| == |nows|
  {
    && cluster <= t.Keys && |Taken(vs, n)| == n
    && Claimed(t, cluster, evs, nows, vs, n, u) && Untouched(t, u, Taken(vs, n)) && OldestFirst(t, cluster, vs, n)
  }

  /** The next payment is new and its candidates are exactly the cluster's orders not yet taken. */
  lemma RemainingCandidates(cfg: Config, t: Orders, c: Chain, cluster: set<OrderId>, evs: seq<TransferEvent>,
                            nows: seq<int>, vs: seq<Verdict>, n: nat, u: Orders)
    requires IsCluster(cfg, t, c, cluster) && PaysInto(cfg, t, c, cluster, evs)
    requires n < |evs| == |vs| == |nows| && SettledUpTo(t, cluster, evs, nows, vs, n, u)
    ensures !Held(u, c, evs[n].tx) && !Advancing(u, evs[n])
    ensures ExactCandidates(u, c, evs[n].amount, cfg.tolerance, {}) == cluster - Taken(vs, n)
  {
    var ev := evs[n];
    forall i | i in u && u[i].chain == c
      ensures u[i].tx != Some(ev.tx)
    {
      if i in Taken(vs, n) {
        var k :| 0 <= k < n && vs[k].Matched? && vs[k].id == i;
      }
    }
    forall i
      ensures i in ExactCandidates(u, c, ev.amount, cfg.tolerance, {}) <==> i in cluster - Taken(vs, n)
    {
      CandidateIffRemaining(cfg, t, c, cluster, evs, nows, vs, n, u, i);
    }
  }

  lemma CandidateIffRemaining(cfg: Config, t: Orders, c: Chain, cluster: set<OrderId>, evs: seq<TransferEvent>,
                              nows: seq<int>, vs: seq<Verdict>, n: nat, u: Orders, i: OrderId)
    requires IsCluster(cfg, t, c, cluster) && PaysInto(cfg, t, c, cluster, evs)
    requires n < |evs| == |vs| == |nows| && SettledUpTo(t, cluster, evs, nows, vs, n, u)
    ensures i in ExactCandidates(u, c, evs[n].amount, cfg.tolerance, {}) <==> i in cluster - Taken(vs, n)
  {
    var amount := evs[n].amount;
    if i in t {
      if i in Taken(vs, n) {
        var k :| 0 <= k < n && vs[k].Matched? && vs[k].id == i;
        assert !Open(u[i], c);
      } else if i in cluster {
        assert PaysOne(t, cluster, amount);
        var j :| j in cluster && j in t && t[j].expected == amount;
        assert Close(t[j].expected, t[i].expected, cfg.tolerance);
      } else if Open(t[i], c) {
        assert !Close(amount, t[i].expected, cfg.tolerance);
      }
    }
  }

  /** A new transfer with some candidate within the tolerance is matched to the oldest of them. */
  lemma ExactMatchVerdict(cfg: Config, a: Tables, ev: TransferEvent, now: int, v: Verdict, b: Tables)
    requires !Held(a.orders, ev.chain, ev.tx) && ExactCandidates(a.orders, ev.chain, ev.amount, cfg.tolerance, {}) != {}
    requires Settles(cfg, a, ev, now, NO_LOCKS, NO_FAULTS, v, b)
    ensures v.Matched? && Earliest(a.orders, ExactCandidates(a.orders, ev.chain, ev.amount, cfg.tolerance, {}), v.id)
    ensures b == a.(orders := a.orders[v.id := Claim(a.orders[v.id], ev, now)])
  {
    assert !Advancing(a.orders, ev);
  }

  lemma SomeRemain(cluster: set<OrderId>, taken: set<OrderId>)
    requires |taken| < |cluster|
    ensures cluster - taken != {}
  {
    if cluster - taken == {} {
      forall x | x in cluster
        ensures x in taken
      {
        assert x !in cluster - taken;
      }
      CardinalityOfSubset(cluster, taken);
      assert false;
    }
  }

  /** While an order of the cluster remains, the call matches the oldest remaining one. */
  lemma MatchesOldest(cfg: Config, t: Orders, c: Chain, cluster: set<OrderId>, evs: seq<TransferEvent>, nows: seq<int>,
                      vs: seq<Verdict>, n: nat, a: Tables, b: Tables)
    requires IsCluster(cfg, t, c, cluster) && PaysInto(cfg, t, c, cluster, evs)
    requires n < |evs| == |vs| == |nows| && |evs| <= |cluster| && SettledUpTo(t, cluster, evs, nows, vs, n, a.orders)
    requires Settles(cfg, a, evs[n], nows[n], NO_LOCKS, NO_FAULTS, vs[n], b)
    ensures vs[n].Matched? && Earliest(a.orders, cluster - Taken(vs, n), vs[n].id)
    ensures b == a.(orders := a.orders[vs[n].id := Claim(a.orders[vs[n].id], evs[n], nows[n])])
  {
    RemainingCandidates(cfg, t, c, cluster, evs, nows, vs, n, a.orders);
    SomeRemain(cluster, Taken(vs, n));
    ExactMatchVerdict(cfg, a, evs[n], nows[n], vs[n], b);
  }

  lemma SettleOne(cfg: Config, t: Orders, c: Chain, cluster: set<OrderId>, evs: seq<TransferEvent>, nows: seq<int>,
                  vs: seq<Verdict>, n: nat, a: Tables, b: Tables)
    requires IsCluster(cfg, t, c, cluster) && PaysInto(cfg, t, c, cluster, evs)
    requires n < |evs| == |vs| == |nows| && |evs| <= |cluster| && SettledUpTo(t, cluster, evs, nows, vs, n, a.orders)
    requires Settles(cfg, a, evs[n], nows[n], NO_LOCKS, NO_FAULTS, vs[n], b)
    ensures SettledUpTo(t, cluster, evs, nows, vs, n + 1, b.orders) && b.reviews == a.reviews
  {
    MatchesOldest(cfg, t, c, cluster, evs, nows, vs, n, a, b);
    Extend(t, cluster, evs, nows, vs, n, a.orders, vs[n].id);
  }

  lemma ExtendClaimed(t: Orders, cluster: set<OrderId>, evs: seq<TransferEvent>, nows: seq<int>, vs: seq<Verdict>, n: nat,
                      u: Orders, i: OrderId)
    requires n < |evs| == |vs| == |nows| && Claimed(t, cluster, evs, nows, vs, n, u)
    requires vs[n] == Matched(i) && i in cluster && i in t && i in u && i !in Taken(vs, n) && u[i] == t[i]
    ensures Claimed(t, cluster, evs, nows, vs, n + 1, u[i := Claim(u[i], evs[n], nows[n])])
  {
    forall k | 0 <= k < n
      ensures vs[k].id != i
    {
      assert vs[k].Matched?;
      assert vs[k].id in Taken(vs, n);
    }
  }

  lemma ExtendOldest(t: Orders, cluster: set<OrderId>, vs: seq<Verdict>, n: nat, u: Orders, i: OrderId)
    requires n < |vs| && OldestFirst(t, cluster, vs, n) && Untouched(t, u, Taken(vs, n))
    requires cluster <= t.Keys && vs[n] == Matched(i) && Earliest(u, cluster - Taken(vs, n), i)
    ensures OldestFirst(t, cluster, vs, n + 1)
  {
    forall j | j in cluster && j !in Taken(vs, n)
      ensures t[i].expiresAt <= t[j].expiresAt
    {
      assert j in cluster - Taken(vs, n) && u[j] == t[j] && u[i] == t[i];
    }
  }

  lemma ExtendTaken(vs: seq<Verdict>, n: nat, i: OrderId)
    requires n < |vs| && vs[n] == Matched(i) && i !in Taken(vs, n)
    ensures Taken(vs, n + 1) == Taken(vs, n) + {i} && |Taken(vs, n + 1)| == |Taken(vs, n)| + 1
  {
    assert Taken(vs, n + 1) == Taken(vs, n) + {i};
  }

  lemma ExtendUntouched(t: Orders, u: Orders, taken: set<OrderId>, i: OrderId, o: Order)
    requires Untouched(t, u, taken) && i in t
    ensures Untouched(t, u[i := o], taken + {i})
  {
  }

  lemma Extend(t: Orders, cluster: set<OrderId>, evs: seq<TransferEvent>, nows: seq<int>, vs: seq<Verdict>, n: nat,
               u: Orders, i: OrderId)
    requires n < |evs| == |vs| == |nows| && SettledUpTo(t, cluster, evs, nows, vs, n, u)
    requires vs[n] == Matched(i) && i in cluster && i in u && i !in Taken(vs, n)
    requires Earliest(u, cluster - Taken(vs, n), i)
    ensures SettledUpTo(t, cluster, evs, nows, vs, n + 1, u[i := Claim(u[i], evs[n], nows[n])])
  {
    ExtendTaken(vs, n, i);
    ExtendUntouched(t, u, Taken(vs, n), i, Claim(u[i], evs[n], nows[n]));
    ExtendClaimed(t, cluster, evs, nows, vs, n, u, i);
    ExtendOldest(t, cluster, vs, n, u, i);
  }

  lemma {:induction false} CardinalityOfSubset<T>(a: set<T>, b: set<T>)
    requires a <= b
    ensures |a| <= |b|
    decreases |a|
  {
    if x :| x in a {
      CardinalityOfSubset(a - {x}, b - {x});
    }
  }

  lemma {:induction false} SettleSome(cfg: Config, c: Chain, cluster: set<OrderId>, evs: seq<TransferEvent>,
                                      nows: seq<int>, vs: seq<Verdict>, ts: seq<Tables>, n: nat)
    requires CallSequence(cfg, ts, evs, nows, vs) && n <= |evs| <= |cluster|
    requires IsCluster(cfg, ts[0].orders, c, cluster) && PaysInto(cfg, ts[0].orders, c, cluster, evs)
    ensures SettledUpTo(ts[0].orders, cluster, evs, nows, vs, n, ts[n].orders) && ts[n].reviews == ts[0].reviews
  {
    if n == 0 {
      assert Taken(vs, 0) == {};
    } else {
      SettleSome(cfg, c, cluster, evs, nows, vs, ts, n - 1);
      SettleOne(cfg, ts[0].orders, c, cluster, evs, nows, vs, n - 1, ts[n - 1], ts[n]);
    }
  }

  lemma {:induction false} FullSubset<T>(a: set<T>, b: set<T>)
    requires a <= b && |a| == |b|
    ensures a == b
  {
    if x :| x in b && x !in a {
      CardinalityOfSubset(a, b - {x});
    }
  }

  /** As many payments as the cluster has orders, each paying any of its amounts, in any order: every order of the cluster
      is claimed by exactly one of the payments, the oldest unclaimed order first; nothing else changes and nothing goes
      to the review queue. */
  lemma ClusterSettles(cfg: Config, c: Chain, cluster: set<OrderId>, evs: seq<TransferEvent>, nows: seq<int>,
                       vs: seq<Verdict>, ts: seq<Tables>)
    requires CallSequence(cfg, ts, evs, nows, vs) && |evs| == |cluster|
    requires IsCluster(cfg, ts[0].orders, c, cluster) && PaysInto(cfg, ts[0].orders, c, cluster, evs)
    ensures var t, u := ts[0].orders, ts[|evs|].orders;
      && ts[|evs|].reviews == ts[0].reviews && u.Keys == t.Keys
      && (forall k :: 0 <= k < |evs| ==> vs[k].Matched? && vs[k].id in cluster && u[vs[k].id].tx == Some(evs[k].tx)
                                         && u[vs[k].id].received == Some(evs[k].amount))
      && (forall k, l :: 0 <= k < l < |evs| ==> vs[k].id != vs[l].id)
      && (forall i :: i in cluster ==> exists k :: 0 <= k < |evs| && vs[k].id == i)
      && (forall k, l :: 0 <= k < l < |evs| ==> t[vs[k].id].expiresAt <= t[vs[l].id].expiresAt)
      && (forall i :: i in t && i !in cluster ==> u[i] == t[i])
  {
    var n := |evs|;
    var t, u := ts[0].orders, ts[n].orders;
    SettleSome(cfg, c, cluster, evs, nows, vs, ts, n);
    FullSubset(Taken(vs, n), cluster);
    forall k, l | 0 <= k < l < n
      ensures vs[k].id != vs[l].id
    {
      assert u[vs[k].id].tx == Some(evs[k].tx) && u[vs[l].id].tx == Some(evs[l].tx);
    }
    forall k, l | 0 <= k < l < n
      ensures t[vs[k].id].expiresAt <= t[vs[l].id].expiresAt
    {
      assert vs[l].id !in Taken(vs, k);
    }
  }

  /** Open orders of one stored base form a cluster whenever the whole range of offsets fits in the tolerance. */
  lemma SameBaseIsCluster(cfg: Config, es: seq<Event>, c: Chain, base: Money)
    requires LegalRun(cfg, Start, es) && (cfg.offsetMax - cfg.offsetMin) * OFFSET_UNIT <= cfg.tolerance
    ensures var t := Run(cfg, Start, es).orders; IsCluster(cfg, t, c, PendingOfBase(t, c, base))
  {
    StartInv(cfg);
    RunKeepsInv(cfg, Start, es);
    var t := Run(cfg, Start, es).orders;
    forall i | i in PendingOfBase(t, c, base)
      ensures Open(t[i], c) && cfg.offsetMin * OFFSET_UNIT <= t[i].expected - base <= cfg.offsetMax * OFFSET_UNIT
    {
      assert RowOk(cfg, t[i]);
    }
  }

  /** A payer whose exact amount is close to no other open order of the chain gets their own order. */
  lemma PayerGetsOwnOrder(cfg: Config, a: Tables, i: OrderId, ev: TransferEvent, now: int, v: Verdict, b: Tables)
    requires cfg.tolerance >= 0 && i in a.orders && Open(a.orders[i], ev.chain) && ev.amount == a.orders[i].expected
    requires !Held(a.orders, ev.chain, ev.tx)
    requires forall j :: j in a.orders && j != i && Open(a.orders[j], ev.chain) ==> !Close(ev.amount, a.orders[j].expected, cfg.tolerance)
    requires Settles(cfg, a, ev, now, NO_LOCKS, NO_FAULTS, v, b)
    ensures v == Matched(i) && b == a.(orders := a.orders[i := Claim(a.orders[i], ev, now)])
  {
    assert !Advancing(a.orders, ev);
    assert ExactCandidates(a.orders, ev.chain, ev.amount, cfg.tolerance, {}) == {i};
  }

  lemma {:induction false} EarliestExists(t: Orders, among: set<OrderId>) returns (i: OrderId)
    requires among <= t.Keys && among != {}
    ensures Earliest(t, among, i)
    decreases |among|
  {
    i :| i in among;
    if among != {i} {
      assert among - {i} != {};
      var j := EarliestExists(t, among - {i});
      if t[j].expiresAt < t[i].expiresAt {
        i := j;
      }
    }
  }

  /** Another order that a payment of ev's amount could settle as well. */
  ghost predicate Rival(cfg: Config, t: Orders, ev: TransferEvent, i: OrderId, j: OrderId) {
    j in t && j != i && Open(t[j], ev.chain) && Close(ev.amount, t[j].expected, cfg.tolerance)
  }

  /** Paying the exact amount of an open order is sure to claim that order exactly when every other open order within the
      tolerance expires strictly later: the amount alone does not decide. */
  lemma OwnOrderIff(cfg: Config, a: Tables, i: OrderId, ev: TransferEvent, now: int)
    requires cfg.tolerance >= 0 && i in a.orders && Open(a.orders[i], ev.chain) && ev.amount == a.orders[i].expected
    requires !Held(a.orders, ev.chain, ev.tx)
    ensures (forall v, b :: Settles(cfg, a, ev, now, NO_LOCKS, NO_FAULTS, v, b) ==> v == Matched(i))
      <==> (forall j :: Rival(cfg, a.orders, ev, i, j) ==> a.orders[i].expiresAt < a.orders[j].expiresAt)
  {
    var among := ExactCandidates(a.orders, ev.chain, ev.amount, cfg.tolerance, {});
    assert i in among;
    assert forall j :: j in among && j != i <==> Rival(cfg, a.orders, ev, i, j);
    if forall j :: j in among && j != i ==> a.orders[i].expiresAt < a.orders[j].expiresAt {
      forall v, b | Settles(cfg, a, ev, now, NO_LOCKS, NO_FAULTS, v, b)
        ensures v == Matched(i)
      {
        ExactMatchVerdict(cfg, a, ev, now, v, b);
      }
    } else {
      var j :| j in among && j != i && a.orders[j].expiresAt <= a.orders[i].expiresAt;
      var k := EarliestExists(a.orders, among - {i});
      assert Earliest(a.orders, among, k);
      MayMatch(cfg, a, ev, now, k);
    }
  }

  /** Any oldest candidate may be the one that is claimed. */
  lemma MayMatch(cfg: Config, a: Tables, ev: TransferEvent, now: int, k: OrderId)
    requires !Held(a.orders, ev.chain, ev.tx)
    requires Earliest(a.orders, ExactCandidates(a.orders, ev.chain, ev.amount, cfg.tolerance, {}), k)
    ensures Settles(cfg, a, ev, now, NO_LOCKS, NO_FAULTS, Matched(k), a.(orders := a.orders[k := Claim(a.orders[k], ev, now)]))
  {
    assert !Advancing(a.orders, ev);
  }
}
