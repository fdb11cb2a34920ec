/** The EVM watcher itself: its batching scan, its in-flight map and the emission of transfers to the order service. */
module EvmWatcher {
  import opened Domain
  import opened OrderTable
  import opened HexCodec
  import opened EvmScan
  import opened CompletedCall
  import CursorStore
  import Service
  import Conservation
  import EvmSystem

  /** One entry of an eth_getLogs answer. */
  datatype RpcLog = RpcLog(topics: nat, data: string, blockNumber: string, txHash: string)

  datatype Range = Range(lo: int, hi: int)

  datatype ScanError = CursorUnavailable | LogsUnavailable | CursorNotSaved

  /** Answers eth_getLogs for a block range; None when the call fails. */
  type LogServer = (int, int) -> Option<seq<RpcLog>>

  /** USDT counts millionths of a dollar. */
  const RAW_UNIT: Money := 100

  /** The transfer a log reports; None when the log is skipped. */
  function Decode(l: RpcLog): Option<Entry>
  {
    var raw, block := ParseHexBigInt(l.data), ParseHexQuantity(l.blockNumber);
    if l.topics < 3 || raw.None? || block.None? then None else Some(Entry(raw.value * RAW_UNIT, block.value))
  }

  function AbsorbLog(p: PendingMap, l: RpcLog): PendingMap
  {
    if Decode(l).Some? then p[TxHash(l.txHash) := Decode(l).value] else p
  }

  function Absorb(p: PendingMap, ls: seq<RpcLog>): PendingMap
  {
    if ls == [] then p else AbsorbLog(Absorb(p, ls[..|ls| - 1]), ls[|ls| - 1])
  }

  /** The in-flight map after absorbing the answers for the ranges, in order. */
  ghost function AbsorbRanges(p: PendingMap, rpc: LogServer, rs: seq<Range>): PendingMap
  {
    if rs == [] then p else
      var before := AbsorbRanges(p, rpc, rs[..|rs| - 1]);
      var answer := rpc(rs[|rs| - 1].lo, rs[|rs| - 1].hi);
      if answer.None? then before else Absorb(before, answer.value)
  }

  /** Adjacent, non-empty ranges of at most `batch` blocks that together are exactly first..last. */
  ghost predicate Tiles(rs: seq<Range>, first: int, last: int, batch: int) {
    && (if rs == [] then last == first - 1 else rs[0].lo == first && rs[|rs| - 1].hi == last)
    && (forall k :: 0 <= k < |rs| ==> rs[k].lo <= rs[k].hi < rs[k].lo + batch)
    && (forall k :: 0 <= k < |rs| - 1 ==> rs[k].hi + 1 == rs[k + 1].lo)
  }

  /** Every range is a full batch, cut off only by the head. */
  ghost predicate FullBatches(rs: seq<Range>, batch: int, latest: int) {
    forall k :: 0 <= k < |rs| ==> rs[k].hi == BatchEnd(rs[k].lo, batch, latest) && rs[k].hi <= latest
  }

  ghost predicate AllAnswered(rpc: LogServer, rs: seq<Range>) {
    forall k :: 0 <= k < |rs| ==> rpc(rs[k].lo, rs[k].hi).Some?
  }

  lemma ExtendAnswered(rpc: LogServer, rs: seq<Range>, r: Range)
    requires AllAnswered(rpc, rs) && rpc(r.lo, r.hi).Some?
    ensures AllAnswered(rpc, rs + [r])
  {
  }

  /** Between two requests: everything before `next` was requested, answered and absorbed. */
  ghost predicate ScanState(start: PendingMap, rpc: LogServer, from: int, next: int, batch: int, latest: int,
                            rs: seq<Range>, p: PendingMap)
  {
    && from <= next <= latest + 1 && Tiles(rs, from, next - 1, batch) && FullBatches(rs, batch, latest)
    && AllAnswered(rpc, rs) && p == AbsorbRanges(start, rpc, rs)
  }

  lemma PartialScan(rs: seq<Range>, from: int, next: int, batch: int, latest: int)
    requires Tiles(rs, from, next - 1, batch) && FullBatches(rs, batch, latest) && from <= latest
    ensures ScannedRanges(rs, from, latest, batch, false)
    ensures next == latest + 1 ==> ScannedRanges(rs, from, latest, batch, true)
  {
  }

  lemma ExtendRanges(rs: seq<Range>, from: int, next: int, batch: int, latest: int)
    requires Tiles(rs, from, next - 1, batch) && FullBatches(rs, batch, latest) && from <= next <= latest && batch > 0
    ensures var end := BatchEnd(next, batch, latest);
      Tiles(rs + [Range(next, end)], from, end, batch) && FullBatches(rs + [Range(next, end)], batch, latest)
  {
  }

  lemma AbsorbMore(p: PendingMap, rpc: LogServer, rs: seq<Range>, r: Range)
    requires rpc(r.lo, r.hi).Some?
    ensures AbsorbRanges(p, rpc, rs + [r]) == Absorb(AbsorbRanges(p, rpc, rs), rpc(r.lo, r.hi).value)
  {
    assert (rs + [r])[..|rs + [r]| - 1] == rs;
  }

  /** The ranges a scan requested: everything from its first block to the head, or a part from the start if it failed. */
  ghost predicate ScannedRanges(rs: seq<Range>, from: int, latest: int, batch: int, ok: bool) {
    && FullBatches(rs, batch, latest)
    && (ok && from <= latest ==> Tiles(rs, from, latest, batch))
    && (from > latest ==> rs == [])
    && (rs != [] ==> Tiles(rs, from, rs[|rs| - 1].hi, batch))
  }

  /** What a refresh reports: every tracked transfer once, with its count at the head. */
  ghost predicate ReportsAll(chain: Chain, p: PendingMap, latest: int, evs: seq<TransferEvent>) {
    && (forall ev :: ev in evs <==> ev.tx in p && ev == EventFor(chain, ev.tx, p[ev.tx], latest))
    && (forall k, l :: 0 <= k < l < |evs| ==> evs[k].tx != evs[l].tx)
  }

  function NotFinal(p: PendingMap, latest: int, required: int): PendingMap {
    map t | t in p && !Final(latest, p[t].height, required) :: p[t]
  }

  /** So every tracked transfer is reported, once, as it is tracked, with its count at the time. */
  lemma ReportsMean(chain: Chain, items: PendingMap, latest: int, evs: seq<TransferEvent>)
    requires ReportsAll(chain, items, latest, evs)
    ensures forall k, l :: 0 <= k < l < |evs| ==> evs[k].tx != evs[l].tx
    ensures forall t :: t in items <==> exists k :: 0 <= k < |evs| && evs[k].tx == t
    ensures forall k :: 0 <= k < |evs| && evs[k].tx in items ==>
      var p := items[evs[k].tx];
      evs[k] == TransferEvent(chain, evs[k].tx, p.amount, p.height, if latest < p.height then 0 else latest - p.height + 1)
  {
    forall k | 0 <= k < |evs|
      ensures evs[k] in evs
    {
    }
    forall t | t in items
      ensures exists k :: 0 <= k < |evs| && evs[k].tx == t
    {
      assert EventFor(chain, t, items[t], latest) in evs;
    }
  }

  class Watcher {
    const chain: Chain
    const required: int
    const logsBatchBlocks: int
    const sink: Service.Service
    const cursors: CursorStore.CursorStore
    var pending: PendingMap

    constructor (chain: Chain, required: int, logsBatchBlocks: int, sink: Service.Service, cursors: CursorStore.CursorStore)
      ensures this.chain == chain && this.required == required && this.logsBatchBlocks == logsBatchBlocks
      ensures this.sink == sink && this.cursors == cursors && pending == map[]
    {
      this.chain, this.required, this.logsBatchBlocks := chain, required, logsBatchBlocks;
      this.sink, this.cursors, pending := sink, cursors, map[];
    }

    /** Tracks a transfer known from before a restart, unless it is tracked already. */
    method SeedPending(tx: TxHash, p: Entry)
      modifies this
      ensures pending == if tx in old(pending) then old(pending) else old(pending)[tx := p]
    {
      if tx !in pending {
        pending := pending[tx := p];
      }
    }

    method HandleLog(l: RpcLog)
      modifies this
      ensures pending == AbsorbLog(old(pending), l)
      // malformed logs are skipped; a unit of the token is a millionth of a dollar, a hundred of the stored unit
      ensures pending ==
        if l.topics < 3 || ParseHexBigInt(l.data) == None || ParseHexQuantity(l.blockNumber) == None then old(pending)
        else old(pending)[TxHash(l.txHash) := Entry(100 * ParseHexBigInt(l.data).value, ParseHexQuantity(l.blockNumber).value)]
    {
      if l.topics < 3 {
        return;
      }
      var rawAmount := ParseHexBigInt(l.data);
      if rawAmount.None? {
        return;
      }
      var amount := rawAmount.value * RAW_UNIT;
      var blockHeight := ParseHexQuantity(l.blockNumber);
      if blockHeight.None? {
        return;
      }
      pending := pending[TxHash(l.txHash) := Entry(amount, blockHeight.value)];
    }

    /** Scans from the cursor to the head in batches; saves the cursor only when every batch was answered. */
    method ScanNewLogs(latest: int, rpc: LogServer, now: int, loadFault: bool, saveFault: bool)
      returns (r: Result<(), ScanError>, ranges: seq<Range>)
      modifies this, cursors
      ensures var from := ScanFrom(old(cursors.At(chain)).height, latest);
        && (loadFault <==> r == Err(CursorUnavailable))
        && ScannedRanges(ranges, from, latest, BatchSize(logsBatchBlocks), r.Ok?)
        && cursors.At(chain) == (if r.Ok? && from <= latest then CursorStore.Cursor(latest, Some(now)) else old(cursors.At(chain)))
      ensures AllAnswered(rpc, ranges)
      // the scan starts after the saved block, or fifty blocks back when none was saved, in batches of the configured size
      ensures ranges != [] ==>
        var saved := old(cursors.At(chain)).height;
        ranges[0].lo == if saved != 0 then saved + 1 else if latest < 50 then 0 else latest - 50
      ensures forall k :: 0 <= k < |ranges| ==>
        var size := if logsBatchBlocks <= 0 then 2000 else logsBatchBlocks;
        ranges[k].hi == (if ranges[k].lo + size <= latest then ranges[k].lo + size - 1 else latest)
      ensures r.Ok? && ranges == [] ==> old(cursors.At(chain)).height >= latest || latest < 0
      ensures r.Err? ==> loadFault || saveFault || exists a, b :: rpc(a, b).None?
      ensures r.Ok? && ranges != [] ==> !saveFault
      ensures r.Ok? && ranges != [] ==>
        ranges[|ranges| - 1].hi == latest && cursors.At(chain) == CursorStore.Cursor(latest, Some(now))
      ensures pending == AbsorbRanges(old(pending), rpc, ranges)
      ensures forall d :: d != chain ==> cursors.At(d) == old(cursors.At(d))
    {
      ranges := [];
      var loaded := cursors.GetCursor(chain, loadFault);
      if loaded.None? {
        return Err(CursorUnavailable), ranges;
      }
      var fromBlock := loaded.value.height;
      if fromBlock == 0 {
        fromBlock := latest - LOOKBACK;
        if fromBlock < 0 {
          fromBlock := 0;
        }
      } else {
        fromBlock := fromBlock + 1;
      }
      if fromBlock > latest {
        return Ok(()), ranges;
      }
      var batch := logsBatchBlocks;
      if batch <= 0 {
        batch := DEFAULT_BATCH;
      }
      var answered;
      answered, ranges := FetchBatches(fromBlock, latest, batch, rpc);
      if !answered {
        return Err(LogsUnavailable), ranges;
      }
      var saved := cursors.SetCursor(chain, ranges[|ranges| - 1].hi, now, saveFault);
      if !saved {
        return Err(CursorNotSaved), ranges;
      }
      return Ok(()), ranges;
    }

    /** One eth_getLogs request for the batch that starts at `cursor`. */
    method FetchBatch(cursor: int, latest: int, batch: int, rpc: LogServer,
                      ghost start: PendingMap, ghost from: int, ranges: seq<Range>)
      returns (fetched: bool, more: seq<Range>)
      requires batch > 0 && cursor <= latest
      requires ScanState(start, rpc, from, cursor, batch, latest, ranges, pending)
      modifies this
      ensures !fetched ==> more == ranges && pending == old(pending) && rpc(cursor, BatchEnd(cursor, batch, latest)).None?
      ensures fetched ==> ScanState(start, rpc, from, BatchEnd(cursor, batch, latest) + 1, batch, latest, more, pending)
    {
      var to := cursor + batch - 1;
      if to > latest {
        to := latest;
      }
      var answer := rpc(cursor, to);
      if answer.None? {
        return false, ranges;
      }
      HandleLogs(answer.value);
      ExtendRanges(ranges, from, cursor, batch, latest);
      AbsorbMore(start, rpc, ranges, Range(cursor, to));
      ExtendAnswered(rpc, ranges, Range(cursor, to));
      return true, ranges + [Range(cursor, to)];
    }

    /** The batching loop: requests adjacent ranges up to the head until one request fails. */
    method FetchBatches(fromBlock: int, latest: int, batch: int, rpc: LogServer) returns (answered: bool, ranges: seq<Range>)
      requires fromBlock <= latest && batch > 0
      modifies this
      ensures ScannedRanges(ranges, fromBlock, latest, batch, answered)
      ensures AllAnswered(rpc, ranges)
      ensures !answered ==> exists a, b :: rpc(a, b).None?
      ensures pending == AbsorbRanges(old(pending), rpc, ranges)
    {
      ranges := [];
      var cursor := fromBlock;
      while cursor <= latest
        invariant ScanState(old(pending), rpc, fromBlock, cursor, batch, latest, ranges, pending)
        decreases latest - cursor + 1
      {
        var fetched;
        fetched, ranges := FetchBatch(cursor, latest, batch, rpc, old(pending), fromBlock, ranges);
        if !fetched {
          PartialScan(ranges, fromBlock, cursor, batch, latest);
          return false, ranges;
        }
        cursor := BatchEnd(cursor, batch, latest) + 1;
      }
      PartialScan(ranges, fromBlock, cursor, batch, latest);
      return true, ranges;
    }

    method HandleLogs(logs: seq<RpcLog>)
      modifies this
      ensures pending == Absorb(old(pending), logs)
    {
      for k := 0 to |logs|
        invariant pending == Absorb(old(pending), logs[..k])
      {
        HandleLog(logs[k]);
        assert logs[..k + 1][..k] == logs[..k];
      }
      assert logs[..|logs|] == logs;
    }

    /** Reports every tracked transfer once and forgets those whose head makes them final. */
    method RefreshConfirmations(latest: int, inputs: Inputs) returns (delivered: seq<TransferEvent>, ghost trace: seq<Tables>)
      requires sink.repo.Valid()
      modifies this, sink.repo
      ensures sink.repo.Valid()
      ensures pending == NotFinal(old(pending), latest, required)
      ensures forall t :: t in pending <==> t in old(pending) && latest - old(pending)[t].height + 1 < required
      ensures forall t :: t in pending ==> pending[t] == old(pending)[t]
      ensures ReportsAll(chain, old(pending), latest, delivered)
      ensures CallTrace(sink.cfg, trace, delivered, inputs)
      ensures trace[0] == old(sink.Current()) && trace[|delivered|] == sink.Current()
    {
      var items := pending;
      var rest := items.Keys;
      delivered, trace := [], [sink.Current()];
      while rest != {}
        invariant rest <= items.Keys && sink.repo.Valid()
        invariant forall t :: t in pending <==> t in items && (t in rest || !Final(latest, items[t].height, required))
        invariant forall t :: t in pending ==> pending[t] == items[t]
        invariant forall ev :: ev in delivered <==>
          ev.tx in items && ev.tx !in rest && ev == EventFor(chain, ev.tx, items[ev.tx], latest)
        invariant forall k, l :: 0 <= k < l < |delivered| ==> delivered[k].tx != delivered[l].tx
        invariant CallTrace(sink.cfg, trace, delivered, inputs)
        invariant trace[0] == old(sink.Current()) && trace[|delivered|] == sink.Current()
        decreases |rest|
      {
        var tx :| tx in rest;
        var it := items[tx];
        rest := rest - {tx};

        var event := Emit(tx, it, latest, inputs);
        delivered, trace := delivered + [event], trace + [sink.Current()];

        if latest - it.height + 1 >= required {
          pending := pending - {tx};
        }
      }
    }

    /** Reports one transfer; a rejected event is only logged. */
    method Emit(tx: TxHash, it: Entry, latest: int, inputs: Inputs) returns (event: TransferEvent)
      requires sink.repo.Valid()
      modifies sink.repo
      ensures sink.repo.Valid() && event == EventFor(chain, tx, it, latest)
      ensures event.chain == chain && event.tx == tx && event.amount == it.amount && event.height == it.height
      ensures event.confirmations == if latest < it.height then 0 else latest - it.height + 1
      ensures OneCall(sink.cfg, old(sink.Current()), event, inputs, sink.Current())
    {
      var confirmations := latest - it.height + 1;
      if confirmations < 0 {
        confirmations := 0;
      }
      event := TransferEvent(chain, tx, it.amount, it.height, confirmations);
      var _, v := sink.OnTransfer(event, inputs.now, inputs.locks(tx), inputs.faults(tx));
    }

    /** One poll: ask for the head, scan, refresh. A failing scan does not stop the refresh. */
    method PollOnce(head: Option<string>, rpc: LogServer, loadFault: bool, saveFault: bool, inputs: Inputs)
      returns (latest: Option<int>, scan: Result<(), ScanError>, ranges: seq<Range>, delivered: seq<TransferEvent>,
               ghost trace: seq<Tables>)
      requires sink.repo.Valid()
      modifies this, cursors, sink.repo
      ensures sink.repo.Valid() && latest == if head.None? then None else ParseHexQuantity(head.value)
      ensures latest.None? ==> delivered == [] && ranges == [] && pending == old(pending)
      ensures latest.None? ==> sink.Current() == old(sink.Current()) && cursors.At(chain) == old(cursors.At(chain))
      ensures latest.Some? ==>
        var from, scanned := ScanFrom(old(cursors.At(chain)).height, latest.value), AbsorbRanges(old(pending), rpc, ranges);
        && ScannedRanges(ranges, from, latest.value, BatchSize(logsBatchBlocks), scan.Ok?)
        && AllAnswered(rpc, ranges)
        && cursors.At(chain).height
           == (if scan.Ok? && from <= latest.value then latest.value else old(cursors.At(chain)).height)
        && ReportsAll(chain, scanned, latest.value, delivered)
        && pending == NotFinal(scanned, latest.value, required)
        && CallTrace(sink.cfg, trace, delivered, inputs)
        && trace[0] == old(sink.Current()) && trace[|delivered|] == sink.Current()
    {
      scan, ranges, delivered, trace := Ok(()), [], [], [];
      if head.None? {
        latest := None;
        return;
      }
      latest := ParseHexQuantity(head.value);
      if latest.None? {
        return;
      }
      scan, ranges := ScanNewLogs(latest.value, rpc, inputs.now, loadFault, saveFault);
      delivered, trace := RefreshConfirmations(latest.value, inputs);
    }
  }
}
