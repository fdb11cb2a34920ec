/** Reseeding the watchers from the database before they start polling. */
module Startup {
  import opened Domain
  import opened OrderTable
  import opened EvmScan
  import opened EvmSystem
  import opened Repository
  import EvmWatcher

  /** Some seeding order among `ids` carries the transfer. */
  ghost predicate CarriedBy(t: Orders, c: Chain, ids: seq<OrderId>, x: TxHash) {
    exists i :: i in ids && SeededBy(t, c, i, x)
  }

  /** The map after seeding it with the listed orders: what was tracked stays, the rest comes from an order. */
  ghost predicate SeededWith(t: Orders, c: Chain, ids: seq<OrderId>, before: PendingMap, after: PendingMap) {
    && (forall x :: x in after <==> x in before || CarriedBy(t, c, ids, x))
    && (forall x :: x in before ==> after[x] == before[x])
    && (forall x :: x in after && x !in before ==> exists i :: i in ids && SeededBy(t, c, i, x) && after[x] == SeedEntry(t[i]))
  }

  /** The listed orders are exactly the chain's confirming ones. */
  ghost predicate ListsConfirming(t: Orders, c: Chain, ids: seq<OrderId>) {
    forall i :: i in ids <==> i in t && t[i].chain == c && t[i].status == Confirming
  }

  lemma ReseedAt(t: Orders, c: Chain, i: OrderId, x: TxHash)
    requires UniqueTx(t) && SeededBy(t, c, i, x)
    ensures x in Reseed(t, c) && Reseed(t, c)[x] == SeedEntry(t[i])
  {
    assert EvmSystem.Seeded(t, c, x);
    var j :| SeededBy(t, c, j, x) && SeedOf(t, c, x) == SeedEntry(t[j]);
  }

  lemma SameKeys(t: Orders, c: Chain, ids: seq<OrderId>, after: PendingMap, x: TxHash)
    requires ListsConfirming(t, c, ids) && SeededWith(t, c, ids, map[], after)
    ensures x in after <==> x in Reseed(t, c)
  {
    if EvmSystem.Seeded(t, c, x) {
      var i :| SeededBy(t, c, i, x);
      assert i in ids;
    }
  }

  lemma SeededAt(t: Orders, c: Chain, ids: seq<OrderId>, after: PendingMap, x: TxHash)
    requires UniqueTx(t) && SeededWith(t, c, ids, map[], after) && x in after
    ensures x in Reseed(t, c) && after[x] == Reseed(t, c)[x]
  {
    var i :| i in ids && SeededBy(t, c, i, x) && after[x] == SeedEntry(t[i]);
    ReseedAt(t, c, i, x);
  }

  /** For a fresh watcher, seeding yields the map the system's restart step starts from. */
  lemma SeededIsReseed(t: Orders, c: Chain, ids: seq<OrderId>, after: PendingMap)
    requires UniqueTx(t) && ListsConfirming(t, c, ids) && SeededWith(t, c, ids, map[], after)
    ensures after == Reseed(t, c)
  {
    var r := Reseed(t, c);
    forall x
      ensures x in after <==> x in r
      ensures x in after ==> after[x] == r[x]
    {
      SameKeys(t, c, ids, after, x);
      if x in after {
        SeededAt(t, c, ids, after, x);
      }
    }
  }

  /** Tracked are exactly the transfers that confirming orders of the chain wait for, as those orders hold them; an order
      without a transfer or an amount is passed over. */
  ghost predicate AwaitsExactly(t: Orders, c: Chain, tracked: PendingMap) {
    && (forall x :: x in tracked <==> exists i :: Awaits(t, c, i, x))
    && (forall i, x :: Awaits(t, c, i, x) && x in tracked ==>
          tracked[x] == Entry(t[i].received.value, if t[i].height == None then 0 else t[i].height.value))
  }

  ghost predicate Awaits(t: Orders, c: Chain, i: OrderId, x: TxHash) {
    i in t && t[i].chain == c && t[i].status == Confirming && t[i].tx == Some(x) && t[i].received.Some?
  }

  lemma SeedingMeans(t: Orders, c: Chain, ids: seq<OrderId>, after: PendingMap)
    requires UniqueTx(t) && ListsConfirming(t, c, ids) && SeededWith(t, c, ids, map[], after)
    ensures AwaitsExactly(t, c, after)
  {
    forall i, x | Awaits(t, c, i, x)
      ensures x in after && after[x] == Entry(t[i].received.value, if t[i].height == None then 0 else t[i].height.value)
    {
      assert i in ids && SeededBy(t, c, i, x);
      assert CarriedBy(t, c, ids, x);
      var j :| j in ids && SeededBy(t, c, j, x) && after[x] == SeedEntry(t[j]);
      assert i == j;
    }
    forall x | x in after
      ensures exists i :: Awaits(t, c, i, x)
    {
      var j :| j in ids && SeededBy(t, c, j, x);
      assert Awaits(t, c, j, x);
    }
  }

  method SeedAll(repo: Repository, w: EvmWatcher.Watcher, c: Chain, ids: seq<OrderId>)
    requires ListsConfirming(repo.orders, c, ids)
    modifies w
    ensures SeededWith(repo.orders, c, ids, old(w.pending), w.pending)
  {
    assert SeededWith(repo.orders, c, ids[..0], w.pending, w.pending);
    for k := 0 to |ids|
      invariant SeededWith(repo.orders, c, ids[..k], old(w.pending), w.pending)
    {
      assert ids[k] in ids;
      var o := repo.orders[ids[k]];
      ghost var before := w.pending;
      if o.tx.Some? && o.received.Some? {
        var blockHeight := if o.height.Some? then o.height.value else 0;
        w.SeedPending(o.tx.value, Entry(o.received.value, blockHeight));
      }
      SeedOne(repo.orders, c, ids, k, old(w.pending), before, w.pending);
    }
    assert ids[..|ids|] == ids;
  }

  lemma SeedOne(t: Orders, c: Chain, ids: seq<OrderId>, k: nat, start: PendingMap, before: PendingMap, after: PendingMap)
    requires ListsConfirming(t, c, ids) && k < |ids| && ids[k] in t && SeededWith(t, c, ids[..k], start, before)
    requires after == if Seeds(t[ids[k]], c) && t[ids[k]].tx.value !in before
                      then before[t[ids[k]].tx.value := SeedEntry(t[ids[k]])] else before
    ensures SeededWith(t, c, ids[..k + 1], start, after)
  {
    assert ids[..k + 1] == ids[..k] + [ids[k]];
    forall x
      ensures CarriedBy(t, c, ids[..k + 1], x) <==> CarriedBy(t, c, ids[..k], x) || SeededBy(t, c, ids[k], x)
    {
      if CarriedBy(t, c, ids[..k], x) {
        var i :| i in ids[..k] && SeededBy(t, c, i, x);
        assert i in ids[..k + 1];
      }
      assert ids[k] in ids[..k + 1];
    }
    forall x | x in after && x !in start
      ensures exists i :: i in ids[..k + 1] && SeededBy(t, c, i, x) && after[x] == SeedEntry(t[i])
    {
      if x in before {
        var i :| i in ids[..k] && SeededBy(t, c, i, x) && before[x] == SeedEntry(t[i]);
        assert i in ids[..k + 1] && after[x] == before[x];
      } else {
        assert ids[k] in ids[..k + 1] && SeededBy(t, c, ids[k], x);
      }
    }
  }

  ghost predicate FullySeeded(t: Orders, c: Chain, before: PendingMap, after: PendingMap) {
    exists ids :: ListsConfirming(t, c, ids) && SeededWith(t, c, ids, before, after)
  }

  /** Every registered watcher is seeded with its chain's confirming orders; a failing listing stops the start-up. */
  method LoadPendingTransfers(repo: Repository, watchers: map<Chain, EvmWatcher.Watcher>, fault: Chain -> bool)
    returns (r: Result<(), DbError>)
    requires repo.Valid() && forall c :: c in watchers ==> watchers[c].chain == c
    modifies watchers.Values
    ensures r.Err? <==> exists c :: c in watchers && fault(c)
    ensures r.Ok? ==> forall c :: c in watchers ==> FullySeeded(repo.orders, c, old(watchers[c].pending), watchers[c].pending)
    ensures r.Ok? ==> forall c :: c in watchers && old(watchers[c].pending) == map[] ==>
      watchers[c].pending == Reseed(repo.orders, c) && AwaitsExactly(repo.orders, c, watchers[c].pending)
  {
    var rest := watchers.Keys;
    while rest != {}
      invariant rest <= watchers.Keys
      invariant forall c :: c in watchers && c !in rest ==> !fault(c)
      invariant forall c :: c in watchers && c !in rest ==>
        FullySeeded(repo.orders, c, old(watchers[c].pending), watchers[c].pending)
      invariant forall c :: c in rest ==> watchers[c].pending == old(watchers[c].pending)
      decreases |rest|
    {
      var c :| c in rest;
      rest := rest - {c};
      var confirming := repo.ListConfirming(c, fault(c));
      if confirming.Err? {
        return Err(confirming.error);
      }
      SeedAll(repo, watchers[c], c, confirming.value);
      assert FullySeeded(repo.orders, c, old(watchers[c].pending), watchers[c].pending);
    }
    forall c | c in watchers && old(watchers[c].pending) == map[]
      ensures watchers[c].pending == Reseed(repo.orders, c) && AwaitsExactly(repo.orders, c, watchers[c].pending)
    {
      assert FullySeeded(repo.orders, c, old(watchers[c].pending), watchers[c].pending);
      var ids :| ListsConfirming(repo.orders, c, ids) && SeededWith(repo.orders, c, ids, map[], watchers[c].pending);
      SeededIsReseed(repo.orders, c, ids, watchers[c].pending);
      SeedingMeans(repo.orders, c, ids, watchers[c].pending);
    }
    return Ok(());
  }
}
