/** What the scan's in-flight map says about the ledger: faithful for one transfer per transaction, lossy for more. */
module EvmLogs {
  import opened Domain
  import opened HexCodec
  import opened EvmScan
  import opened EvmSystem
  import opened EvmWatcher
  import opened Conservation
  import opened OrderTable

  // ------------------------------------------------------------ amounts in logs

  /** A well-formed log carries its word's positional value, in hundred-millionths, whatever the padding: the word counts
      millionths of a dollar. */
  lemma PaddedLogAmount(l: RpcLog, padding: nat, digits: string, block: int)
    requires l.topics >= 3 && AllHex(digits) && padding + |digits| > 0
    requires -0x8000_0000_0000_0000 <= block < 0x8000_0000_0000_0000
    requires l.data == "0x" + Zeros(padding) + digits && l.blockNumber == ToHexQuantity(block)
    ensures Decode(l).Some? && Decode(l).value.height == block
    ensures Decode(l).value.amount * 1_000_000 == Positional(digits) * 100_000_000
  {
    PaddedWord(padding, digits);
    RoundTrip(block);
  }

  /** A transfer of so many whole dollars carries exactly the amount an order of so many dollars stores. */
  lemma WholeDollars(l: RpcLog, padding: nat, digits: string, block: int, dollars: nat)
    requires l.topics >= 3 && AllHex(digits) && padding + |digits| > 0
    requires -0x8000_0000_0000_0000 <= block < 0x8000_0000_0000_0000
    requires l.data == "0x" + Zeros(padding) + digits && l.blockNumber == ToHexQuantity(block)
    requires Positional(digits) == dollars * 1_000_000
    ensures Decode(l).Some? && Decode(l).value.amount == Round8(dollars as real * 100_000_000.0) == dollars * 100_000_000
  {
    PaddedLogAmount(l, padding, digits, block);
    Round8Means(dollars as real * 100_000_000.0);
    assert dollars as real * 100_000_000.0 == (dollars * 100_000_000) as real;
  }

  /** The transfers a list of logs reports, skipped logs left out. */
  datatype Found = Found(tx: TxHash, entry: Entry)

  function Founds(ls: seq<RpcLog>): seq<Found>
  {
    if ls == [] then [] else
      var last := ls[|ls| - 1];
      Founds(ls[..|ls| - 1]) + if Decode(last).Some? then [Found(TxHash(last.txHash), Decode(last).value)] else []
  }

  /** Each transfer found overwrites what was held under its transaction. */
  function PutAll(p: PendingMap, fs: seq<Found>): PendingMap {
    if fs == [] then p else PutAll(p, fs[..|fs| - 1])[fs[|fs| - 1].tx := fs[|fs| - 1].entry]
  }

  lemma {:induction false} AbsorbIsPut(p: PendingMap, ls: seq<RpcLog>)
    ensures Absorb(p, ls) == PutAll(p, Founds(ls))
  {
    if ls != [] {
      var init, last := ls[..|ls| - 1], ls[|ls| - 1];
      AbsorbIsPut(p, init);
      if Decode(last).Some? {
        PutLast(p, Founds(init), Found(TxHash(last.txHash), Decode(last).value));
      } else {
        assert Founds(ls) == Founds(init);
      }
    }
  }

  lemma PutLast(p: PendingMap, fs: seq<Found>, f: Found)
    ensures PutAll(p, fs + [f]) == PutAll(p, fs)[f.tx := f.entry]
  {
    assert (fs + [f])[..|fs|] == fs;
  }

  ghost predicate Mentions(fs: seq<Found>, t: TxHash) {
    exists k :: 0 <= k < |fs| && fs[k].tx == t
  }

  lemma MentionsLast(fs: seq<Found>, t: TxHash)
    requires fs != []
    ensures Mentions(fs, t) <==> Mentions(fs[..|fs| - 1], t) || t == fs[|fs| - 1].tx
  {
    var init := fs[..|fs| - 1];
    if Mentions(init, t) {
      var k :| 0 <= k < |init| && init[k].tx == t;
      assert fs[k] == init[k];
    }
  }

  // ---------------------------------------------------------- honest log servers

  /** The transfer's true amount and block. */
  ghost function Truth(env: Env, t: TxHash): Entry
    requires t in env.ledger
  {
    Entry(env.ledger[t].amount, env.ledger[t].block)
  }

  /** The transfers found are exactly the ledger's in the range. */
  ghost predicate ExactlyLedger(env: Env, fs: seq<Found>, first: int, last: int) {
    && (forall k :: 0 <= k < |fs| ==> fs[k].tx in Logs(env, first, last) && fs[k].entry == Truth(env, fs[k].tx))
    && (forall t :: t in Logs(env, first, last) ==> Mentions(fs, t))
  }

  ghost predicate HonestServer(env: Env, rpc: LogServer)
  {
    forall a, b :: rpc(a, b).Some? ==> ExactlyLedger(env, Founds(rpc(a, b).value), a, b)
  }

  lemma {:induction false} PutTrue(env: Env, p: PendingMap, fs: seq<Found>, t: TxHash)
    requires forall k :: 0 <= k < |fs| ==> fs[k].tx in env.ledger && fs[k].entry == Truth(env, fs[k].tx)
    ensures t in PutAll(p, fs) <==> t in p || Mentions(fs, t)
    ensures Mentions(fs, t) ==> t in env.ledger && PutAll(p, fs)[t] == Truth(env, t)
    ensures t in p && !Mentions(fs, t) ==> PutAll(p, fs)[t] == p[t]
  {
    if fs != [] {
      PutTrue(env, p, fs[..|fs| - 1], t);
      MentionsLast(fs, t);
    }
  }

  /** Absorbing an honest answer is the system's fetch step. */
  lemma AbsorbIsFetch(env: Env, p: PendingMap, ls: seq<RpcLog>, first: int, last: int)
    requires ExactlyLedger(env, Founds(ls), first, last)
    ensures Absorb(p, ls) == p + Logs(env, first, last)
  {
    AbsorbIsPut(p, ls);
    PutExactly(env, p, Founds(ls), first, last);
  }

  lemma PutExactly(env: Env, p: PendingMap, fs: seq<Found>, first: int, last: int)
    requires ExactlyLedger(env, fs, first, last)
    ensures PutAll(p, fs) == p + Logs(env, first, last)
  {
    var q, r := PutAll(p, fs), p + Logs(env, first, last);
    forall t
      ensures t in q <==> t in r
      ensures t in q && t in r ==> q[t] == r[t]
    {
      PutTrue(env, p, fs, t);
    }
  }

  lemma LogsSplit(env: Env, first: int, middle: int, last: int)
    requires first - 1 <= middle <= last
    ensures Logs(env, first, last) == Logs(env, first, middle) + Logs(env, middle + 1, last)
  {
  }

  lemma LastRange(p: PendingMap, rpc: LogServer, rs: seq<Range>)
    requires rs != [] && rpc(rs[|rs| - 1].lo, rs[|rs| - 1].hi).Some?
    ensures AbsorbRanges(p, rpc, rs)
      == Absorb(AbsorbRanges(p, rpc, rs[..|rs| - 1]), rpc(rs[|rs| - 1].lo, rs[|rs| - 1].hi).value)
  {
  }

  lemma AnswerIsFetch(env: Env, p: PendingMap, rpc: LogServer, r: Range)
    requires HonestServer(env, rpc) && rpc(r.lo, r.hi).Some?
    ensures Absorb(p, rpc(r.lo, r.hi).value) == p + Logs(env, r.lo, r.hi)
  {
    AbsorbIsFetch(env, p, rpc(r.lo, r.hi).value, r.lo, r.hi);
  }

  lemma ScanStep(env: Env, p: PendingMap, rpc: LogServer, rs: seq<Range>, first: int)
    requires HonestServer(env, rpc) && rs != []
    requires first <= rs[|rs| - 1].lo <= rs[|rs| - 1].hi && rpc(rs[|rs| - 1].lo, rs[|rs| - 1].hi).Some?
    requires AbsorbRanges(p, rpc, rs[..|rs| - 1]) == p + Logs(env, first, rs[|rs| - 1].lo - 1)
    ensures AbsorbRanges(p, rpc, rs) == p + Logs(env, first, rs[|rs| - 1].hi)
  {
    var r := rs[|rs| - 1];
    var before := AbsorbRanges(p, rpc, rs[..|rs| - 1]);
    LastRange(p, rpc, rs);
    AnswerIsFetch(env, before, rpc, r);
    LogsSplit(env, first, r.lo - 1, r.hi);
    MergeMaps(p, Logs(env, first, r.lo - 1), Logs(env, r.lo, r.hi));
  }

  lemma MergeMaps(p: PendingMap, a: PendingMap, b: PendingMap)
    ensures (p + a) + b == p + (a + b)
  {
  }

  /** A whole batched scan finds exactly the ledger's transfers from its first to its last block. */
  lemma {:induction false} ScanFindsLedger(env: Env, p: PendingMap, rpc: LogServer, rs: seq<Range>, first: int, last: int, batch: int)
    requires HonestServer(env, rpc) && Tiles(rs, first, last, batch)
    requires AllAnswered(rpc, rs)
    ensures AbsorbRanges(p, rpc, rs) == p + Logs(env, first, last)
    decreases |rs|
  {
    if rs == [] {
      assert Logs(env, first, last) == map[];
    } else {
      var init, r := rs[..|rs| - 1], rs[|rs| - 1];
      TilesInit(rs, first, last, batch);
      ScanFindsLedger(env, p, rpc, init, first, r.lo - 1, batch);
      ScanStep(env, p, rpc, rs, first);
    }
  }

  /** A scan that continues from a saved cursor misses a payment between that cursor and the head exactly when the saved
      cursor is zero, which is taken for a first run, and the payment lies before the lookback. */
  lemma SkippedPayment(env: Env, p: PendingMap, rpc: LogServer, rs: seq<Range>, batch: int, saved: int, latest: int, t: TxHash)
    requires HonestServer(env, rpc) && AllAnswered(rpc, rs) && saved >= 0
    requires Tiles(rs, ScanFrom(saved, latest), latest, batch)
    requires t in env.ledger && saved < env.ledger[t].block <= latest && t !in p
    ensures t !in AbsorbRanges(p, rpc, rs) <==> saved == 0 && env.ledger[t].block < latest - LOOKBACK
  {
    ScanFindsLedger(env, p, rpc, rs, ScanFrom(saved, latest), latest, batch);
  }

  lemma {:induction false} TilesInit(rs: seq<Range>, first: int, last: int, batch: int)
    requires Tiles(rs, first, last, batch) && rs != []
    ensures Tiles(rs[..|rs| - 1], first, rs[|rs| - 1].lo - 1, batch)
    ensures first <= rs[|rs| - 1].lo <= rs[|rs| - 1].hi == last
    decreases |rs|
  {
    var init := rs[..|rs| - 1];
    assert Tiles(init, first, rs[|rs| - 1].lo - 1, batch);
    if |rs| > 1 {
      TilesInit(init, first, rs[|rs| - 1].lo - 1, batch);
    }
  }

  // ----------------------------------------------- several transfers, one transaction

  ghost predicate Positive(fs: seq<Found>) {
    forall k :: 0 <= k < |fs| ==> fs[k].entry.amount > 0
  }

  /** What the logs paid in total. */
  ghost function Paid(fs: seq<Found>): int {
    if fs == [] then 0 else Paid(fs[..|fs| - 1]) + fs[|fs| - 1].entry.amount
  }

  ghost function Amounts(p: PendingMap): map<TxHash, int> {
    map t | t in p :: p[t].amount
  }

  ghost predicate OnePerTransaction(fs: seq<Found>) {
    forall i, j :: 0 <= i < j < |fs| ==> fs[i].tx != fs[j].tx
  }

  lemma {:induction false} PutKeys(fs: seq<Found>, t: TxHash)
    requires Positive(fs)
    ensures t in PutAll(map[], fs) <==> Mentions(fs, t)
    ensures t in PutAll(map[], fs) ==> PutAll(map[], fs)[t].amount > 0
  {
    if fs != [] {
      PutKeys(fs[..|fs| - 1], t);
      MentionsLast(fs, t);
    }
  }

  /** One more transfer adds its amount, less what it overwrites. */
  lemma PutTotal(p: PendingMap, t: TxHash, e: Entry)
    ensures Total(Amounts(p[t := e])) == Total(Amounts(p)) + e.amount - (if t in p then p[t].amount else 0)
  {
    var q := p[t := e];
    TotalRemove(Amounts(q), t);
    assert Amounts(q) - {t} == Amounts(p) - {t};
    if t in p {
      TotalRemove(Amounts(p), t);
    } else {
      assert Amounts(p) - {t} == Amounts(p);
    }
  }

  lemma OneMorePerTransaction(fs: seq<Found>)
    requires fs != []
    ensures OnePerTransaction(fs) <==> OnePerTransaction(fs[..|fs| - 1]) && !Mentions(fs[..|fs| - 1], fs[|fs| - 1].tx)
  {
    var init, t := fs[..|fs| - 1], fs[|fs| - 1].tx;
    if Mentions(init, t) {
      var k :| 0 <= k < |init| && init[k].tx == t;
      assert fs[k].tx == fs[|fs| - 1].tx;
    }
  }

  lemma {:induction false} PutsLoseMoney(fs: seq<Found>)
    requires Positive(fs)
    ensures Total(Amounts(PutAll(map[], fs))) <= Paid(fs)
    ensures Total(Amounts(PutAll(map[], fs))) == Paid(fs) <==> OnePerTransaction(fs)
  {
    if fs != [] {
      var init, f := fs[..|fs| - 1], fs[|fs| - 1];
      PutsLoseMoney(init);
      PutKeys(init, f.tx);
      PutTotal(PutAll(map[], init), f.tx, f.entry);
      OneMorePerTransaction(fs);
    }
  }

  /** The in-flight map of a scan holds at most the money its logs reported, and all of it exactly when no two of them
      belong to one transaction: a second transfer in the same transaction overwrites the first. */
  lemma OverwritingLosesMoney(ls: seq<RpcLog>)
    requires Positive(Founds(ls))
    ensures var held := Total(Amounts(Absorb(map[], ls)));
      held <= Paid(Founds(ls)) && (held == Paid(Founds(ls)) <==> OnePerTransaction(Founds(ls)))
  {
    AbsorbIsPut(map[], ls);
    PutsLoseMoney(Founds(ls));
  }
}
