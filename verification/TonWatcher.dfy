/** The TON watcher: offset paging with a time cursor, and elapsed time in place of a confirmation count. */
module TonWatcher {
  import opened Domain
  import opened OrderTable
  import opened Paging
  import opened CompletedCall
  import CursorStore
  import Service

  /** One decoded transfer; amount and logical time are absent when they do not parse. */
  datatype JettonTransfer = JettonTransfer(tx: TxHash, amount: Option<Money>, lt: Option<int>, now: int)

  datatype Entry = Entry(amount: Money, lt: int, observed: int)

  type PendingMap = map<TxHash, Entry>

  datatype ScanError = CursorUnavailable | TransfersUnavailable | CursorNotSaved

  /** Answers a query for transfers from a start time, at an offset; None when the request fails. */
  type TransferServer = (int, nat) -> Option<seq<JettonTransfer>>

  const PAGE_LIMIT: nat := 100
  const BLOCK_SECONDS: int := 5
  const FIRST_LOOKBACK: int := 600
  const RAW_UNIT: Money := 100

  function Times(es: seq<JettonTransfer>): (ts: seq<int>)
    ensures |ts| == |es| && forall i :: 0 <= i < |es| ==> ts[i] == es[i].now
  {
    seq(|es|, i requires 0 <= i < |es| => es[i].now)
  }

  ghost predicate ServesFrom(fetch: TransferServer, start: int, window: seq<JettonTransfer>) {
    forall offset :: fetch(start, offset).Some? ==> fetch(start, offset).value == Page(window, offset, PAGE_LIMIT)
  }

  /** The server shows these transfers, oldest first, and serves consecutive pages of those from the start time on. */
  ghost predicate Serves(fetch: TransferServer, es: seq<JettonTransfer>) {
    && Ascending(Times(es)) && (forall i :: 0 <= i < |es| ==> es[i].now > 0)
    && forall start :: ServesFrom(fetch, start, es[Earlier(Times(es), start)..])
  }

  /** What the page loop gets from any server: it ends on a short page, after twenty pages, or when a request fails. */
  function Gather(fetch: TransferServer, start: int, page: nat): Gathered<JettonTransfer>
    requires page <= MAX_PAGES
    decreases MAX_PAGES - page
  {
    if page == MAX_PAGES then Gathered(true, [])
    else
      var answer := fetch(start, page * PAGE_LIMIT);
      if answer.None? then Gathered(false, [])
      else if |answer.value| < PAGE_LIMIT then Gathered(true, answer.value)
      else
        var rest := Gather(fetch, start, page + 1);
        Gathered(rest.complete, answer.value + rest.entries)
  }

  /** From an honest server it gets a prefix of the window, each entry once and in order: all of it, or twenty full pages,
      when no request fails. */
  lemma {:induction false} GatherWindow(fetch: TransferServer, start: int, window: seq<JettonTransfer>, page: nat)
    requires ServesFrom(fetch, start, window) && page <= MAX_PAGES
    ensures PrefixFrom(window, page * PAGE_LIMIT, PAGE_LIMIT, Gather(fetch, start, page))
    decreases MAX_PAGES - page
  {
    var position := page * PAGE_LIMIT;
    if page == MAX_PAGES || fetch(start, position).None? {
      NoPage(window, position, PAGE_LIMIT, page == MAX_PAGES);
    } else {
      var data := fetch(start, position).value;
      if |data| < PAGE_LIMIT {
        LastPage(window, position, PAGE_LIMIT, data);
      } else {
        GatherWindow(fetch, start, window, page + 1);
        FullPage(window, position, PAGE_LIMIT, data, Gather(fetch, start, page + 1));
      }
    }
  }

  /** What a scan has gathered: the in-flight map, the largest logical time and the largest time. */
  datatype Seen = Seen(pending: PendingMap, maxLt: int, maxUtime: int)

  function Track(p: PendingMap, tr: JettonTransfer): PendingMap {
    if tr.amount.None? || tr.lt.None? then p else p[tr.tx := Entry(tr.amount.value * RAW_UNIT, tr.lt.value, tr.now)]
  }

  function See(s: Seen, tr: JettonTransfer): Seen {
    Seen(Track(s.pending, tr),
         if tr.lt.Some? && tr.lt.value > s.maxLt then tr.lt.value else s.maxLt,
         if tr.now > s.maxUtime then tr.now else s.maxUtime)
  }

  function SeeAll(s: Seen, es: seq<JettonTransfer>): Seen {
    Fold(See, s, es)
  }

  /** Before page `page`: what was got so far is what the whole loop gets, less what the remaining pages get. */
  ghost predicate ReadSoFar(fetch: TransferServer, start: int, page: nat, p: PendingMap, got: seq<JettonTransfer>, seen: Seen)
    requires page <= MAX_PAGES
  {
    var rest := Gather(fetch, start, page);
    Gather(fetch, start, 0) == Gathered(rest.complete, got + rest.entries) && seen == SeeAll(Seen(p, 0, 0), got)
  }

  lemma ReadMore(fetch: TransferServer, start: int, page: nat, p: PendingMap, got: seq<JettonTransfer>, seen: Seen,
                 answer: seq<JettonTransfer>)
    requires page < MAX_PAGES && ReadSoFar(fetch, start, page, p, got, seen) && fetch(start, page * PAGE_LIMIT) == Some(answer)
    ensures if |answer| < PAGE_LIMIT then
        Gather(fetch, start, 0).complete && SeeAll(seen, answer) == SeeAll(Seen(p, 0, 0), Gather(fetch, start, 0).entries)
      else ReadSoFar(fetch, start, page + 1, p, got + answer, SeeAll(seen, answer))
  {
    FoldAppend(See, Seen(p, 0, 0), got, answer);
    if |answer| >= PAGE_LIMIT {
      Associative(got, answer, Gather(fetch, start, page + 1).entries);
    }
  }

  lemma ReadAll(fetch: TransferServer, start: int, page: nat, p: PendingMap, got: seq<JettonTransfer>, seen: Seen)
    requires page <= MAX_PAGES && ReadSoFar(fetch, start, page, p, got, seen)
    requires page < MAX_PAGES ==> fetch(start, page * PAGE_LIMIT).None?
    ensures Gather(fetch, start, 0).complete == (page == MAX_PAGES)
    ensures seen == SeeAll(Seen(p, 0, 0), Gather(fetch, start, 0).entries)
  {
    assert got + [] == got;
  }

  // --------------------------------------------------- what a scan leaves tracked

  /** Some usable transfer got belongs to the transaction. */
  ghost predicate Mentioned(es: seq<JettonTransfer>, tx: TxHash) {
    exists k :: 0 <= k < |es| && es[k].tx == tx && es[k].amount.Some? && es[k].lt.Some?
  }

  /** The k-th is the last usable one of the transaction. */
  ghost predicate LastOf(es: seq<JettonTransfer>, tx: TxHash, k: nat) {
    && k < |es| && es[k].tx == tx && es[k].amount.Some? && es[k].lt.Some?
    && forall j :: k < j < |es| && es[j].tx == tx ==> !(es[j].amount.Some? && es[j].lt.Some?)
  }

  /** Exactly the transactions tracked before and those mentioned are tracked, each with the last mention's amount, in the
      stored unit, and place; the others are as they were. */
  ghost predicate TracksExactly(before: PendingMap, es: seq<JettonTransfer>, after: PendingMap) {
    && (forall tx :: tx in after <==> tx in before || Mentioned(es, tx))
    && (forall tx, k: nat :: LastOf(es, tx, k) && tx in after ==> after[tx] == Entry(100 * es[k].amount.value, es[k].lt.value, es[k].now))
    && (forall tx :: tx in before && tx in after && !Mentioned(es, tx) ==> after[tx] == before[tx])
  }

  lemma {:induction false} ScanTracksExactly(s: Seen, es: seq<JettonTransfer>)
    ensures TracksExactly(s.pending, es, SeeAll(s, es).pending)
    decreases |es|
  {
    if es != [] {
      var init, last := es[..|es| - 1], es[|es| - 1];
      ScanTracksExactly(s, init);
      forall tx
        ensures Mentioned(es, tx) <==> Mentioned(init, tx) || (last.tx == tx && last.amount.Some? && last.lt.Some?)
      {
        MentionedLast(es, tx);
      }
      var after := SeeAll(s, es).pending;
      forall tx, k: nat | LastOf(es, tx, k) && tx in after
        ensures after[tx] == Entry(100 * es[k].amount.value, es[k].lt.value, es[k].now)
      {
        if k < |init| {
          assert init[k] == es[k] && LastOf(init, tx, k) && Mentioned(init, tx);
          assert last == es[|init|];
        }
      }
    }
  }

  lemma MentionedLast(es: seq<JettonTransfer>, tx: TxHash)
    requires es != []
    ensures var last := es[|es| - 1];
      Mentioned(es, tx) <==> Mentioned(es[..|es| - 1], tx) || (last.tx == tx && last.amount.Some? && last.lt.Some?)
  {
    var init := es[..|es| - 1];
    if Mentioned(init, tx) {
      var k :| 0 <= k < |init| && init[k].tx == tx && init[k].amount.Some? && init[k].lt.Some?;
      assert es[k] == init[k];
    }
  }

  /** The two marks a scan keeps are the largest values met. */
  lemma {:induction false} LargestSeen(s: Seen, es: seq<JettonTransfer>)
    ensures var r := SeeAll(s, es);
      && r.maxLt >= s.maxLt && r.maxUtime >= s.maxUtime
      && (forall k :: 0 <= k < |es| ==> es[k].lt.Some? ==> r.maxLt >= es[k].lt.value)
      && (forall k :: 0 <= k < |es| ==> r.maxUtime >= es[k].now)
      && (r.maxLt == s.maxLt || exists k :: 0 <= k < |es| && es[k].lt.Some? && r.maxLt == es[k].lt.value)
      && (r.maxUtime == s.maxUtime || exists k :: 0 <= k < |es| && r.maxUtime == es[k].now)
    decreases |es|
  {
    if es != [] {
      var init := es[..|es| - 1];
      LargestSeen(s, init);
      assert forall k :: 0 <= k < |init| ==> init[k] == es[k];
      assert es[|es| - 1] == es[|init|];
    }
  }

  /** With transfers in time order the largest time is the last one's. */
  lemma {:induction false} LastIsLatest(p: PendingMap, es: seq<JettonTransfer>)
    requires Ascending(Times(es)) && forall i :: 0 <= i < |es| ==> es[i].now > 0
    ensures SeeAll(Seen(p, 0, 0), es).maxUtime == if es == [] then 0 else es[|es| - 1].now
  {
    if |es| > 1 {
      var init := es[..|es| - 1];
      SliceAscending(Times(es), 0, |init|);
      assert Times(init) == Times(es)[0..|init|];
      LastIsLatest(p, init);
      assert Times(es)[|es| - 2] <= Times(es)[|es| - 1];
    } else if |es| == 1 {
      assert es[..0] == [];
      assert Fold(See, Seen(p, 0, 0), es[..0]) == Seen(p, 0, 0);
      assert SeeAll(Seen(p, 0, 0), es) == See(Seen(p, 0, 0), es[0]);
    }
  }

  /** The time asked for: one second after the stored one, or a short lookback on the first run. */
  function StartTime(cursor: CursorStore.Cursor, clock: int): int {
    if cursor.at.Some? then cursor.at.value / 1000 + 1 else clock - FIRST_LOOKBACK
  }

  /** Integer division of Go: towards zero. */
  function Truncated(n: int, d: int): int
    requires d > 0
  {
    if n >= 0 then n / d else -(-n / d)
  }

  /** The stand-in for a confirmation count. */
  function Elapsed(now: int, observed: int): int {
    var n := Truncated(now - observed, BLOCK_SECONDS);
    if n < 0 then 0 else n
  }

  function EventFor(tx: TxHash, p: Entry, now: int): TransferEvent {
    TransferEvent(Ton, tx, p.amount, p.lt, Elapsed(now, p.observed))
  }

  /** What a refresh has reported once only `rest` is left: every other tracked transfer, once. */
  ghost predicate Reported(items: PendingMap, rest: set<TxHash>, now: int, evs: seq<TransferEvent>) {
    && (forall ev :: ev in evs <==> ev.tx in items && ev.tx !in rest && ev == EventFor(ev.tx, items[ev.tx], now))
    && (forall k, l :: 0 <= k < l < |evs| ==> evs[k].tx != evs[l].tx)
  }

  lemma ReportOne(items: PendingMap, rest: set<TxHash>, now: int, evs: seq<TransferEvent>, tx: TxHash)
    requires rest <= items.Keys && tx in rest && Reported(items, rest, now, evs)
    ensures Reported(items, rest - {tx}, now, evs + [EventFor(tx, items[tx], now)])
  {
    assert forall ev :: ev in evs ==> ev.tx != tx;
  }

  /** So every tracked transfer is reported, once, as it is tracked, with its count at the time. */
  lemma ReportsMean(items: PendingMap, now: int, evs: seq<TransferEvent>)
    requires Reported(items, {}, now, evs)
    ensures forall k, l :: 0 <= k < l < |evs| ==> evs[k].tx != evs[l].tx
    ensures forall t :: t in items <==> exists k :: 0 <= k < |evs| && evs[k].tx == t
    ensures forall k :: 0 <= k < |evs| && evs[k].tx in items ==>
      var p := items[evs[k].tx];
      evs[k] == TransferEvent(Ton, evs[k].tx, p.amount, p.lt, if now < p.observed then 0 else (now - p.observed) / 5)
  {
    forall k | 0 <= k < |evs|
      ensures evs[k] in evs
    {
    }
    forall t | t in items
      ensures exists k :: 0 <= k < |evs| && evs[k].tx == t
    {
      assert EventFor(t, items[t], now) in evs;
    }
  }

  class Watcher {
    const required: int
    const sink: Service.Service
    const cursors: CursorStore.CursorStore
    var pending: PendingMap

    constructor (required: int, sink: Service.Service, cursors: CursorStore.CursorStore)
      ensures this.required == required && this.sink == sink && this.cursors == cursors && pending == map[]
    {
      this.required, this.sink, this.cursors, pending := required, sink, cursors, map[];
    }

    /** After a restart the elapsed time counts from the moment of reseeding. */
    method SeedPending(tx: TxHash, amount: Money, blockHeight: int, clock: int)
      modifies this
      ensures pending == if tx in old(pending) then old(pending) else old(pending)[tx := Entry(amount, blockHeight, clock)]
    {
      if tx !in pending {
        pending := pending[tx := Entry(amount, blockHeight, clock)];
      }
    }

    method HandleTransfer(tr: JettonTransfer)
      modifies this
      ensures pending == Track(old(pending), tr)
      // a transfer that does not parse is skipped; a unit of the token is a millionth of a dollar
      ensures pending == if tr.amount == None || tr.lt == None then old(pending)
        else old(pending)[tr.tx := Entry(100 * tr.amount.value, tr.lt.value, tr.now)]
    {
      if tr.amount.None? {
        return;
      }
      var amount := tr.amount.value * RAW_UNIT;
      if tr.lt.None? {
        return;
      }
      pending := pending[tr.tx := Entry(amount, tr.lt.value, tr.now)];
    }

    /** Handles one page and keeps the largest logical time and the largest time seen. */
    method HandlePage(page: seq<JettonTransfer>, maxLt: int, maxUtime: int) returns (lt: int, utime: int)
      modifies this
      ensures Seen(pending, lt, utime) == SeeAll(Seen(old(pending), maxLt, maxUtime), page)
    {
      lt, utime := maxLt, maxUtime;
      for k := 0 to |page|
        invariant Seen(pending, lt, utime) == SeeAll(Seen(old(pending), maxLt, maxUtime), page[..k])
      {
        var tr := page[k];
        HandleTransfer(tr);
        if tr.lt.Some? && tr.lt.value > lt {
          lt := tr.lt.value;
        }
        if tr.now > utime {
          utime := tr.now;
        }
        assert page[..k + 1][..k] == page[..k];
      }
      assert page[..|page|] == page;
    }

    /** Tracks what at most twenty pages from the stored time on contain, and stores the largest time seen. */
    method ScanNewTransfers(fetch: TransferServer, clock: int, loadFault: bool, saveFault: bool)
      returns (r: Result<(), ScanError>)
      modifies this, cursors
      ensures r == Err(CursorUnavailable) <==> loadFault
      ensures loadFault ==> pending == old(pending) && cursors.At(Ton) == old(cursors.At(Ton))
      ensures !loadFault ==>
        // from the second after the stored time on, or from ten minutes ago when none is stored
        var stored := old(cursors.At(Ton)).at;
        var g := Gather(fetch, if stored == None then clock - 600 else stored.value / 1000 + 1, 0);
        var seen := SeeAll(Seen(old(pending), 0, 0), g.entries);
        && pending == seen.pending && TracksExactly(old(pending), g.entries, pending)
        && (r == Err(TransfersUnavailable) <==> !g.complete)
        && (r == Err(CursorNotSaved) <==> g.complete && seen.maxUtime > 0 && saveFault)
        && cursors.At(Ton) == if r.Ok? && seen.maxUtime > 0 then CursorStore.Cursor(seen.maxLt, Some(seen.maxUtime * 1000))
                              else old(cursors.At(Ton))
      ensures forall d :: d != Ton ==> cursors.At(d) == old(cursors.At(d))
    {
      var loaded := cursors.GetCursor(Ton, loadFault);
      if loaded.None? {
        return Err(CursorUnavailable);
      }
      var startUtime := if loaded.value.at.Some? then loaded.value.at.value / 1000 + 1 else clock - FIRST_LOOKBACK;
      ScanTracksExactly(Seen(pending, 0, 0), Gather(fetch, startUtime, 0).entries);
      var answered, maxLtSeen, maxUtimeSeen := ReadPages(fetch, startUtime);
      if !answered {
        return Err(TransfersUnavailable);
      }
      if maxUtimeSeen > 0 {
        var saved := cursors.SetCursor(Ton, maxLtSeen, maxUtimeSeen * 1000, saveFault);
        if !saved {
          return Err(CursorNotSaved);
        }
      }
      return Ok(());
    }

    /** The page loop. */
    method ReadPages(fetch: TransferServer, startUtime: int) returns (answered: bool, maxLtSeen: int, maxUtimeSeen: int)
      modifies this
      ensures answered == Gather(fetch, startUtime, 0).complete
      ensures Seen(pending, maxLtSeen, maxUtimeSeen) == SeeAll(Seen(old(pending), 0, 0), Gather(fetch, startUtime, 0).entries)
    {
      maxLtSeen, maxUtimeSeen := 0, 0;
      var offset, page := 0, 0;
      ghost var got: seq<JettonTransfer> := [];
      assert [] + Gather(fetch, startUtime, 0).entries == Gather(fetch, startUtime, 0).entries;
      while page < MAX_PAGES
        invariant 0 <= page <= MAX_PAGES && offset == page * PAGE_LIMIT
        invariant ReadSoFar(fetch, startUtime, page, old(pending), got, Seen(pending, maxLtSeen, maxUtimeSeen))
        decreases MAX_PAGES - page
      {
        ghost var seen := Seen(pending, maxLtSeen, maxUtimeSeen);
        var answer := fetch(startUtime, offset);
        if answer.None? {
          ReadAll(fetch, startUtime, page, old(pending), got, seen);
          return false, maxLtSeen, maxUtimeSeen;
        }
        var transfers := answer.value;
        ReadMore(fetch, startUtime, page, old(pending), got, seen, transfers);
        maxLtSeen, maxUtimeSeen := HandlePage(transfers, maxLtSeen, maxUtimeSeen);
        if |transfers| < PAGE_LIMIT {
          return true, maxLtSeen, maxUtimeSeen;
        }
        got := got + transfers;
        offset := offset + PAGE_LIMIT;
        page := page + 1;
      }
      ReadAll(fetch, startUtime, page, old(pending), got, Seen(pending, maxLtSeen, maxUtimeSeen));
      return true, maxLtSeen, maxUtimeSeen;
    }

    /** Reports one transfer; a rejected event is only logged. */
    method Emit(tx: TxHash, it: Entry, now: int, inputs: Inputs) returns (event: TransferEvent)
      requires sink.repo.Valid()
      modifies sink.repo
      ensures sink.repo.Valid() && event == EventFor(tx, it, now)
      ensures event.chain == Ton && event.tx == tx && event.amount == it.amount && event.height == it.lt
      ensures event.confirmations == if now < it.observed then 0 else (now - it.observed) / 5
      ensures OneCall(sink.cfg, old(sink.Current()), event, inputs, sink.Current())
    {
      var confirmations := Truncated(now - it.observed, BLOCK_SECONDS);
      if confirmations < 0 {
        confirmations := 0;
      }
      event := TransferEvent(Ton, tx, it.amount, it.lt, confirmations);
      var _, v := sink.OnTransfer(event, inputs.now, inputs.locks(tx), inputs.faults(tx));
    }

    /** Reports every tracked transfer once and forgets those that have waited long enough. */
    method RefreshConfirmations(now: int, inputs: Inputs) returns (delivered: seq<TransferEvent>, ghost trace: seq<Tables>)
      requires sink.repo.Valid()
      modifies this, sink.repo
      ensures sink.repo.Valid()
      ensures pending == map t | t in old(pending) && Elapsed(now, old(pending)[t].observed) < required :: old(pending)[t]
      // forgotten are those whose time since observation makes up the required number of five-second blocks
      ensures forall t :: t in pending <==>
        t in old(pending) && (if now < old(pending)[t].observed then 0 else (now - old(pending)[t].observed) / 5) < required
      ensures Reported(old(pending), {}, now, delivered)
      ensures CallTrace(sink.cfg, trace, delivered, inputs)
      ensures trace[0] == old(sink.Current()) && trace[|delivered|] == sink.Current()
    {
      var items := pending;
      var rest := items.Keys;
      delivered, trace := [], [sink.Current()];
      while rest != {}
        invariant rest <= items.Keys && sink.repo.Valid()
        invariant forall t :: t in pending <==> t in items && (t in rest || Elapsed(now, items[t].observed) < required)
        invariant forall t :: t in pending ==> pending[t] == items[t]
        invariant Reported(items, rest, now, delivered)
        invariant CallTrace(sink.cfg, trace, delivered, inputs)
        invariant trace[0] == old(sink.Current()) && trace[|delivered|] == sink.Current()
        decreases |rest|
      {
        var tx :| tx in rest;
        var it := items[tx];
        ReportOne(items, rest, now, delivered, tx);
        rest := rest - {tx};

        var event := Emit(tx, it, now, inputs);
        delivered, trace := delivered + [event], trace + [sink.Current()];

        if event.confirmations >= required {
          pending := pending - {tx};
        }
      }
    }
  }

  lemma SelectWindow(all: seq<JettonTransfer>, shown: set<nat>, min: int)
    requires Ascending(Times(all))
    ensures var es := Select(all, Listed(shown, |all|));
      es[Earlier(Times(es), min)..] == Select(all, Window(Times(all), shown, min, |all|))
  {
    var idx := Listed(shown, |all|);
    assert Times(Select(all, idx)) == Select(Times(all), idx);
    WindowIsSuffix(Times(all), shown, min, |all|);
  }

  /** The scan got the first entries of those shown from the minimum time on, all up to the page cap if it completed, and
      `largest` is the last one's time. */
  ghost predicate GotFirst(all: seq<JettonTransfer>, shown: set<nat>, min: int, g: Gathered<JettonTransfer>, largest: int) {
    var w := Window(Times(all), shown, min, |all|);
    && |g.entries| <= ReadCount(|w|, PAGE_LIMIT) && (g.complete ==> |g.entries| == ReadCount(|w|, PAGE_LIMIT))
    && g.entries == Select(all, w[..|g.entries|])
    && (g.entries != [] ==> largest == all[w[|g.entries| - 1]].now)
  }

  lemma HonestScanGetsFirst(all: seq<JettonTransfer>, shown: set<nat>, fetch: TransferServer, min: int, pending: PendingMap)
    requires Ascending(Times(all)) && Serves(fetch, Select(all, Listed(shown, |all|)))
    ensures var g := Gather(fetch, min, 0);
      GotFirst(all, shown, min, g, SeeAll(Seen(pending, 0, 0), g.entries).maxUtime)
  {
    SelectWindow(all, shown, min);
    HonestScan(fetch, Select(all, Listed(shown, |all|)), min, pending);
    SelectPrefix(all, Window(Times(all), shown, min, |all|), |Gather(fetch, min, 0).entries|);
  }

  /** Such a scan, complete or cut short, is one poll of the paging model: it handles the same entries, and the stored time
      moves as the model's cursor does. */
  lemma ScanIsPoll(all: seq<JettonTransfer>, g: Gathered<JettonTransfer>, largest: int, p: Progress, q: Poll, cursor: CursorStore.Cursor,
                   clock: int)
    requires GotFirst(all, q.shown, StartTime(cursor, clock), g, largest)
    requires p.cursor == (if cursor.at.Some? then Some(cursor.at.value / 1000) else None) && q.fallback == clock - FIRST_LOOKBACK
    requires (q.ok ==> g.complete) && (!q.ok ==> q.partial == |g.entries|)
    ensures g.entries == Select(all, Reads(Times(all), PAGE_LIMIT, p, q))
    ensures AfterPoll(Times(all), PAGE_LIMIT, p, q).cursor == if q.ok && g.entries != [] then Some(largest) else p.cursor
  {
    assert StartTime(cursor, clock) == MinTime(p, q);
    ReadsPrefix(Times(all), PAGE_LIMIT, p, q, |g.entries|);
  }

  lemma {:induction false} SeenIsTracked(s: Seen, es: seq<JettonTransfer>, i: nat)
    requires i < |es| && es[i].amount.Some? && es[i].lt.Some?
    ensures es[i].tx in SeeAll(s, es).pending
    decreases |es|
  {
    if i < |es| - 1 {
      SeenIsTracked(s, es[..|es| - 1], i);
    }
  }

  /** The scan got the first entries from the minimum time on: all up to the page cap if it completed. */
  ghost predicate GotPrefix(es: seq<JettonTransfer>, start: int, g: Gathered<JettonTransfer>) {
    var window := es[Earlier(Times(es), start)..];
    && |g.entries| <= ReadCount(|window|, PAGE_LIMIT) && g.entries == window[..|g.entries|]
    && (g.complete ==> |g.entries| == ReadCount(|window|, PAGE_LIMIT))
  }

  /** A completed scan that ended on a short page, or whose cap cut between distinct times, tracks every decodable transfer
      shown from the minimum time up to the new cursor. */
  lemma ScanTracksAll(es: seq<JettonTransfer>, start: int, g: Gathered<JettonTransfer>, p: PendingMap, i: nat)
    requires Ascending(Times(es)) && i < |es| && es[i].amount.Some? && es[i].lt.Some?
    requires GotPrefix(es, start, g) && g.complete && g.entries != []
    requires var end := Earlier(Times(es), start) + |g.entries|;
      end == |es| || es[end - 1].now < es[end].now
    requires start <= es[i].now <= g.entries[|g.entries| - 1].now
    ensures es[i].tx in SeeAll(Seen(p, 0, 0), g.entries).pending
  {
    var first := Earlier(Times(es), start);
    CleanScanReads(Times(es), start, PAGE_LIMIT, i);
    assert g.entries[i - first] == es[i];
    SeenIsTracked(Seen(p, 0, 0), g.entries, i - first);
  }

  /** From an honest server a scan gets the entries from the minimum time on, up to the page cap when no request fails; the
      largest time seen is the last one's. */
  lemma HonestScan(fetch: TransferServer, es: seq<JettonTransfer>, start: int, p: PendingMap)
    requires Serves(fetch, es)
    ensures var g, window := Gather(fetch, start, 0), es[Earlier(Times(es), start)..];
      && GotPrefix(es, start, g)
      && SeeAll(Seen(p, 0, 0), g.entries).maxUtime == (if g.entries == [] then 0 else g.entries[|g.entries| - 1].now)
      && (g.entries != [] ==> g.entries[|g.entries| - 1].now > 0)
      && (g.complete ==> |g.entries| == if |window| < 2000 then |window| else 2000)
  {
    var g, first := Gather(fetch, start, 0), Earlier(Times(es), start);
    GatherWindow(fetch, start, es[first..], 0);
    SliceAscending(Times(es), first, first + |g.entries|);
    assert Times(g.entries) == Times(es)[first..first + |g.entries|];
    LastIsLatest(p, g.entries);
  }
}
