/** The TRON watcher's scan: fingerprint paging through the contract's events with a millisecond cursor. */
module TronWatcher {
  import opened Domain
  import opened Paging
  import opened EvmScan
  import CursorStore

  /** One Transfer event of the token contract. `toUs`: its recipient is the watched address, compared case-insensitively;
      the value is absent when it does not parse. */
  datatype ContractEvent = ContractEvent(tx: TxHash, toUs: bool, value: Option<Money>, block: int, timestamp: int)

  /** One answer; `next` is the fingerprint of the following page, absent when empty. */
  datatype EventPage = EventPage(data: seq<ContractEvent>, next: Option<nat>)

  datatype ScanError = CursorUnavailable | EventsUnavailable | CursorNotSaved

  /** Answers a query from a minimum timestamp and a fingerprint; None when the request fails. */
  type EventServer = (int, Option<nat>) -> Option<EventPage>

  const PAGE_LIMIT: nat := 200
  const FIRST_LOOKBACK: int := 600_000
  const RAW_UNIT: Money := 100

  function Times(es: seq<ContractEvent>): (ts: seq<int>)
    ensures |ts| == |es| && forall i :: 0 <= i < |es| ==> ts[i] == es[i].timestamp
  {
    seq(|es|, i requires 0 <= i < |es| => es[i].timestamp)
  }

  /** A fingerprint stands for the position the next page starts at. */
  function Position(fingerprint: Option<nat>): nat {
    if fingerprint.None? then 0 else fingerprint.value
  }

  /** A page of the window; a fingerprint is given whenever more events follow, and leads to the following page. */
  ghost predicate PageOf(answer: EventPage, window: seq<ContractEvent>, position: nat) {
    && answer.data == Page(window, position, PAGE_LIMIT)
    && (answer.next.Some? ==> answer.next.value == position + PAGE_LIMIT)
    && (position + PAGE_LIMIT < |window| ==> answer.next.Some?)
  }

  ghost predicate ServesEvents(fetch: EventServer, min: int, window: seq<ContractEvent>) {
    forall fp :: fetch(min, fp).Some? ==> PageOf(fetch(min, fp).value, window, Position(fp))
  }

  /** The server shows these events, oldest first, and serves those from the minimum timestamp on. */
  ghost predicate Serves(fetch: EventServer, es: seq<ContractEvent>) {
    && Ascending(Times(es)) && (forall i :: 0 <= i < |es| ==> es[i].timestamp > 0)
    && forall min :: ServesEvents(fetch, min, es[Earlier(Times(es), min)..])
  }

  /** What the page loop gets from any server: it ends when no fingerprint is given, on a short page, after twenty pages, or
      when a request fails. */
  function Gather(fetch: EventServer, min: int, fingerprint: Option<nat>, page: nat): Gathered<ContractEvent>
    requires page <= MAX_PAGES
    decreases MAX_PAGES - page
  {
    if page == MAX_PAGES then Gathered(true, [])
    else
      var answer := fetch(min, fingerprint);
      if answer.None? then Gathered(false, [])
      else if answer.value.next.None? || |answer.value.data| < PAGE_LIMIT then Gathered(true, answer.value.data)
      else
        var rest := Gather(fetch, min, answer.value.next, page + 1);
        Gathered(rest.complete, answer.value.data + rest.entries)
  }

  /** From an honest server it gets a prefix of the window, each entry once and in order: all of it, or twenty full pages,
      when no request fails. */
  lemma {:induction false} GatherWindow(fetch: EventServer, min: int, window: seq<ContractEvent>, fingerprint: Option<nat>,
                                        page: nat)
    requires ServesEvents(fetch, min, window) && page <= MAX_PAGES && Position(fingerprint) == page * PAGE_LIMIT
    ensures PrefixFrom(window, page * PAGE_LIMIT, PAGE_LIMIT, Gather(fetch, min, fingerprint, page))
    decreases MAX_PAGES - page
  {
    var position := page * PAGE_LIMIT;
    if page == MAX_PAGES || fetch(min, fingerprint).None? {
      NoPage(window, position, PAGE_LIMIT, page == MAX_PAGES);
    } else {
      var answer := fetch(min, fingerprint).value;
      assert PageOf(answer, window, position);
      if answer.next.None? || |answer.data| < PAGE_LIMIT {
        LastPage(window, position, PAGE_LIMIT, answer.data);
      } else {
        GatherWindow(fetch, min, window, answer.next, page + 1);
        FullPage(window, position, PAGE_LIMIT, answer.data, Gather(fetch, min, answer.next, page + 1));
      }
    }
  }

  /** What a scan has gathered: the in-flight map, the largest block and the largest timestamp. */
  datatype Seen = Seen(pending: PendingMap, maxBlock: int, maxTimestamp: int)

  function Track(p: PendingMap, ev: ContractEvent): PendingMap {
    if !ev.toUs || ev.value.None? then p else p[ev.tx := Entry(ev.value.value * RAW_UNIT, ev.block)]
  }

  function See(s: Seen, ev: ContractEvent): Seen {
    Seen(Track(s.pending, ev),
         if ev.block > s.maxBlock then ev.block else s.maxBlock,
         if ev.timestamp > s.maxTimestamp then ev.timestamp else s.maxTimestamp)
  }

  function SeeAll(s: Seen, es: seq<ContractEvent>): Seen {
    Fold(See, s, es)
  }

  /** Before page `page`: what was got so far is what the whole loop gets, less what the remaining pages get. */
  ghost predicate ReadSoFar(fetch: EventServer, min: int, fingerprint: Option<nat>, page: nat, p: PendingMap,
                            got: seq<ContractEvent>, seen: Seen)
    requires page <= MAX_PAGES
  {
    var rest := Gather(fetch, min, fingerprint, page);
    Gather(fetch, min, None, 0) == Gathered(rest.complete, got + rest.entries) && seen == SeeAll(Seen(p, 0, 0), got)
  }

  lemma ReadMore(fetch: EventServer, min: int, fingerprint: Option<nat>, page: nat, p: PendingMap,
                 got: seq<ContractEvent>, seen: Seen, answer: EventPage)
    requires page < MAX_PAGES && ReadSoFar(fetch, min, fingerprint, page, p, got, seen) && fetch(min, fingerprint) == Some(answer)
    ensures if answer.next.None? || |answer.data| < PAGE_LIMIT then
        Gather(fetch, min, None, 0).complete
        && SeeAll(seen, answer.data) == SeeAll(Seen(p, 0, 0), Gather(fetch, min, None, 0).entries)
      else ReadSoFar(fetch, min, answer.next, page + 1, p, got + answer.data, SeeAll(seen, answer.data))
  {
    FoldAppend(See, Seen(p, 0, 0), got, answer.data);
    if answer.next.Some? && |answer.data| >= PAGE_LIMIT {
      Associative(got, answer.data, Gather(fetch, min, answer.next, page + 1).entries);
    }
  }

  lemma ReadAll(fetch: EventServer, min: int, fingerprint: Option<nat>, page: nat, p: PendingMap,
                got: seq<ContractEvent>, seen: Seen)
    requires page <= MAX_PAGES && ReadSoFar(fetch, min, fingerprint, page, p, got, seen)
    requires page < MAX_PAGES ==> fetch(min, fingerprint).None?
    ensures Gather(fetch, min, None, 0).complete == (page == MAX_PAGES)
    ensures seen == SeeAll(Seen(p, 0, 0), Gather(fetch, min, None, 0).entries)
  {
    assert got + [] == got;
  }

  // --------------------------------------------------- what a scan leaves tracked

  /** Some usable event to the watched address got belongs to the transaction. */
  ghost predicate Mentioned(es: seq<ContractEvent>, tx: TxHash) {
    exists k :: 0 <= k < |es| && es[k].tx == tx && es[k].toUs && es[k].value.Some?
  }

  /** The k-th is the last usable one of the transaction. */
  ghost predicate LastOf(es: seq<ContractEvent>, tx: TxHash, k: nat) {
    && k < |es| && es[k].tx == tx && es[k].toUs && es[k].value.Some?
    && forall j :: k < j < |es| && es[j].tx == tx ==> !(es[j].toUs && es[j].value.Some?)
  }

  /** Exactly the transactions tracked before and those mentioned are tracked, each with the last mention's amount, in the
      stored unit, and place; the others are as they were. */
  ghost predicate TracksExactly(before: PendingMap, es: seq<ContractEvent>, after: PendingMap) {
    && (forall tx :: tx in after <==> tx in before || Mentioned(es, tx))
    && (forall tx, k: nat :: LastOf(es, tx, k) && tx in after ==> after[tx] == Entry(100 * es[k].value.value, es[k].block))
    && (forall tx :: tx in before && tx in after && !Mentioned(es, tx) ==> after[tx] == before[tx])
  }

  lemma {:induction false} ScanTracksExactly(s: Seen, es: seq<ContractEvent>)
    ensures TracksExactly(s.pending, es, SeeAll(s, es).pending)
    decreases |es|
  {
    if es != [] {
      var init, last := es[..|es| - 1], es[|es| - 1];
      ScanTracksExactly(s, init);
      forall tx
        ensures Mentioned(es, tx) <==> Mentioned(init, tx) || (last.tx == tx && last.toUs && last.value.Some?)
      {
        MentionedLast(es, tx);
      }
      var after := SeeAll(s, es).pending;
      forall tx, k: nat | LastOf(es, tx, k) && tx in after
        ensures after[tx] == Entry(100 * es[k].value.value, es[k].block)
      {
        if k < |init| {
          assert init[k] == es[k] && LastOf(init, tx, k) && Mentioned(init, tx);
          assert last == es[|init|];
        }
      }
    }
  }

  lemma MentionedLast(es: seq<ContractEvent>, tx: TxHash)
    requires es != []
    ensures var last := es[|es| - 1];
      Mentioned(es, tx) <==> Mentioned(es[..|es| - 1], tx) || (last.tx == tx && last.toUs && last.value.Some?)
  {
    var init := es[..|es| - 1];
    if Mentioned(init, tx) {
      var k :| 0 <= k < |init| && init[k].tx == tx && init[k].toUs && init[k].value.Some?;
      assert es[k] == init[k];
    }
  }

  /** The two marks a scan keeps are the largest values met. */
  lemma {:induction false} LargestSeen(s: Seen, es: seq<ContractEvent>)
    ensures var r := SeeAll(s, es);
      && r.maxBlock >= s.maxBlock && r.maxTimestamp >= s.maxTimestamp
      && (forall k :: 0 <= k < |es| ==>  r.maxBlock >= es[k].block)
      && (forall k :: 0 <= k < |es| ==> r.maxTimestamp >= es[k].timestamp)
      && (r.maxBlock == s.maxBlock || exists k :: 0 <= k < |es| && r.maxBlock == es[k].block)
      && (r.maxTimestamp == s.maxTimestamp || exists k :: 0 <= k < |es| && r.maxTimestamp == es[k].timestamp)
    decreases |es|
  {
    if es != [] {
      var init := es[..|es| - 1];
      LargestSeen(s, init);
      assert forall k :: 0 <= k < |init| ==> init[k] == es[k];
      assert es[|es| - 1] == es[|init|];
    }
  }

  /** With events in time order the largest timestamp is the last one's. */
  lemma {:induction false} LastIsLatest(p: PendingMap, es: seq<ContractEvent>)
    requires Ascending(Times(es)) && forall i :: 0 <= i < |es| ==> es[i].timestamp > 0
    ensures SeeAll(Seen(p, 0, 0), es).maxTimestamp == if es == [] then 0 else es[|es| - 1].timestamp
  {
    if |es| > 1 {
      var init := es[..|es| - 1];
      SliceAscending(Times(es), 0, |init|);
      assert Times(init) == Times(es)[0..|init|];
      LastIsLatest(p, init);
      assert Times(es)[|es| - 2] <= Times(es)[|es| - 1];
    } else if |es| == 1 {
      assert es[..0] == [];
      assert Fold(See, Seen(p, 0, 0), es[..0]) == Seen(p, 0, 0);
      assert SeeAll(Seen(p, 0, 0), es) == See(Seen(p, 0, 0), es[0]);
    }
  }

  /** The timestamp asked for: one millisecond after the stored one, or a short lookback on the first run. */
  function MinTimestamp(cursor: CursorStore.Cursor, clock: int): int {
    if cursor.at.Some? then cursor.at.value + 1 else clock - FIRST_LOOKBACK
  }

  class Watcher {
    const cursors: CursorStore.CursorStore
    var pending: PendingMap

    constructor (cursors: CursorStore.CursorStore)
      ensures this.cursors == cursors && pending == map[]
    {
      this.cursors, pending := cursors, map[];
    }

    method HandleEvent(ev: ContractEvent)
      modifies this
      ensures pending == Track(old(pending), ev)
      // transfers to others and values that do not parse are skipped; a unit of the token is a millionth of a dollar
      ensures pending == if !ev.toUs || ev.value == None then old(pending)
        else old(pending)[ev.tx := Entry(100 * ev.value.value, ev.block)]
    {
      if !ev.toUs {
        return;
      }
      if ev.value.None? {
        return;
      }
      var amount := ev.value.value * RAW_UNIT;
      pending := pending[ev.tx := Entry(amount, ev.block)];
    }

    method HandlePage(page: seq<ContractEvent>, maxBlock: int, maxTimestamp: int) returns (block: int, timestamp: int)
      modifies this
      ensures Seen(pending, block, timestamp) == SeeAll(Seen(old(pending), maxBlock, maxTimestamp), page)
    {
      block, timestamp := maxBlock, maxTimestamp;
      for k := 0 to |page|
        invariant Seen(pending, block, timestamp) == SeeAll(Seen(old(pending), maxBlock, maxTimestamp), page[..k])
      {
        var ev := page[k];
        HandleEvent(ev);
        if ev.block > block {
          block := ev.block;
        }
        if ev.timestamp > timestamp {
          timestamp := ev.timestamp;
        }
        assert page[..k + 1][..k] == page[..k];
      }
      assert page[..|page|] == page;
    }

    /** The page loop. */
    method ReadPages(fetch: EventServer, minTimestamp: int)
      returns (answered: bool, maxBlockSeen: int, maxTimestampSeen: int)
      modifies this
      ensures answered == Gather(fetch, minTimestamp, None, 0).complete
      ensures Seen(pending, maxBlockSeen, maxTimestampSeen)
        == SeeAll(Seen(old(pending), 0, 0), Gather(fetch, minTimestamp, None, 0).entries)
    {
      maxBlockSeen, maxTimestampSeen := 0, 0;
      var fingerprint := None;
      var page := 0;
      ghost var got: seq<ContractEvent> := [];
      assert [] + Gather(fetch, minTimestamp, None, 0).entries == Gather(fetch, minTimestamp, None, 0).entries;
      while page < MAX_PAGES
        invariant 0 <= page <= MAX_PAGES
        invariant ReadSoFar(fetch, minTimestamp, fingerprint, page, old(pending), got,
                            Seen(pending, maxBlockSeen, maxTimestampSeen))
        decreases MAX_PAGES - page
      {
        ghost var seen := Seen(pending, maxBlockSeen, maxTimestampSeen);
        var answer := fetch(minTimestamp, fingerprint);
        if answer.None? {
          ReadAll(fetch, minTimestamp, fingerprint, page, old(pending), got, seen);
          return false, maxBlockSeen, maxTimestampSeen;
        }
        var events := answer.value.data;
        ReadMore(fetch, minTimestamp, fingerprint, page, old(pending), got, seen, answer.value);
        maxBlockSeen, maxTimestampSeen := HandlePage(events, maxBlockSeen, maxTimestampSeen);
        if answer.value.next.None? || |events| < PAGE_LIMIT {
          return true, maxBlockSeen, maxTimestampSeen;
        }
        got := got + events;
        fingerprint := answer.value.next;
        page := page + 1;
      }
      ReadAll(fetch, minTimestamp, fingerprint, page, old(pending), got, Seen(pending, maxBlockSeen, maxTimestampSeen));
      return true, maxBlockSeen, maxTimestampSeen;
    }

    /** Tracks what at most twenty pages from the stored timestamp on contain, and stores the largest timestamp seen. */
    method ScanNewEvents(fetch: EventServer, clock: int, loadFault: bool, saveFault: bool) returns (r: Result<(), ScanError>)
      modifies this, cursors
      ensures r == Err(CursorUnavailable) <==> loadFault
      ensures loadFault ==> pending == old(pending) && cursors.At(Tron) == old(cursors.At(Tron))
      ensures !loadFault ==>
        // from the millisecond after the stored time on, or from ten minutes ago when none is stored
        var stored := old(cursors.At(Tron)).at;
        var g := Gather(fetch, if stored == None then clock - 600_000 else stored.value + 1, None, 0);
        var seen := SeeAll(Seen(old(pending), 0, 0), g.entries);
        && pending == seen.pending && TracksExactly(old(pending), g.entries, pending)
        && (r == Err(EventsUnavailable) <==> !g.complete)
        && (r == Err(CursorNotSaved) <==> g.complete && seen.maxTimestamp > 0 && saveFault)
        && cursors.At(Tron) == if r.Ok? && seen.maxTimestamp > 0 then CursorStore.Cursor(seen.maxBlock, Some(seen.maxTimestamp))
                               else old(cursors.At(Tron))
      ensures forall d :: d != Tron ==> cursors.At(d) == old(cursors.At(d))
    {
      var loaded := cursors.GetCursor(Tron, loadFault);
      if loaded.None? {
        return Err(CursorUnavailable);
      }
      var minTimestamp := if loaded.value.at.Some? then loaded.value.at.value + 1 else clock - FIRST_LOOKBACK;
      ScanTracksExactly(Seen(pending, 0, 0), Gather(fetch, minTimestamp, None, 0).entries);
      var answered, maxBlockSeen, maxTimestampSeen := ReadPages(fetch, minTimestamp);
      if !answered {
        return Err(EventsUnavailable);
      }
      if maxTimestampSeen > 0 {
        var saved := cursors.SetCursor(Tron, maxBlockSeen, maxTimestampSeen, saveFault);
        if !saved {
          return Err(CursorNotSaved);
        }
      }
      return Ok(());
    }
  }

  lemma SelectWindow(all: seq<ContractEvent>, shown: set<nat>, min: int)
    requires Ascending(Times(all))
    ensures var es := Select(all, Listed(shown, |all|));
      es[Earlier(Times(es), min)..] == Select(all, Window(Times(all), shown, min, |all|))
  {
    var idx := Listed(shown, |all|);
    assert Times(Select(all, idx)) == Select(Times(all), idx);
    WindowIsSuffix(Times(all), shown, min, |all|);
  }

  /** The scan got the first entries of those shown from the minimum time on, all up to the page cap if it completed, and
      `largest` is the last one's time. */
  ghost predicate GotFirst(all: seq<ContractEvent>, shown: set<nat>, min: int, g: Gathered<ContractEvent>, largest: int) {
    var w := Window(Times(all), shown, min, |all|);
    && |g.entries| <= ReadCount(|w|, PAGE_LIMIT) && (g.complete ==> |g.entries| == ReadCount(|w|, PAGE_LIMIT))
    && g.entries == Select(all, w[..|g.entries|])
    && (g.entries != [] ==> largest == all[w[|g.entries| - 1]].timestamp)
  }

  lemma HonestScanGetsFirst(all: seq<ContractEvent>, shown: set<nat>, fetch: EventServer, min: int, pending: PendingMap)
    requires Ascending(Times(all)) && Serves(fetch, Select(all, Listed(shown, |all|)))
    ensures var g := Gather(fetch, min, None, 0);
      GotFirst(all, shown, min, g, SeeAll(Seen(pending, 0, 0), g.entries).maxTimestamp)
  {
    SelectWindow(all, shown, min);
    HonestScan(fetch, Select(all, Listed(shown, |all|)), min, pending);
    SelectPrefix(all, Window(Times(all), shown, min, |all|), |Gather(fetch, min, None, 0).entries|);
  }

  /** Such a scan, complete or cut short, is one poll of the paging model: it handles the same entries, and the stored time
      moves as the model's cursor does. */
  lemma ScanIsPoll(all: seq<ContractEvent>, g: Gathered<ContractEvent>, largest: int, p: Progress, q: Poll, cursor: CursorStore.Cursor,
                   clock: int)
    requires GotFirst(all, q.shown, MinTimestamp(cursor, clock), g, largest)
    requires p.cursor == (if cursor.at.Some? then Some(cursor.at.value) else None) && q.fallback == clock - FIRST_LOOKBACK
    requires (q.ok ==> g.complete) && (!q.ok ==> q.partial == |g.entries|)
    ensures g.entries == Select(all, Reads(Times(all), PAGE_LIMIT, p, q))
    ensures AfterPoll(Times(all), PAGE_LIMIT, p, q).cursor == if q.ok && g.entries != [] then Some(largest) else p.cursor
  {
    assert MinTimestamp(cursor, clock) == MinTime(p, q);
    ReadsPrefix(Times(all), PAGE_LIMIT, p, q, |g.entries|);
  }

  lemma {:induction false} SeenIsTracked(s: Seen, es: seq<ContractEvent>, i: nat)
    requires i < |es| && es[i].toUs && es[i].value.Some?
    ensures es[i].tx in SeeAll(s, es).pending
    decreases |es|
  {
    if i < |es| - 1 {
      SeenIsTracked(s, es[..|es| - 1], i);
    }
  }

  /** The scan got the first entries from the minimum time on: all up to the page cap if it completed. */
  ghost predicate GotPrefix(es: seq<ContractEvent>, min: int, g: Gathered<ContractEvent>) {
    var window := es[Earlier(Times(es), min)..];
    && |g.entries| <= ReadCount(|window|, PAGE_LIMIT) && g.entries == window[..|g.entries|]
    && (g.complete ==> |g.entries| == ReadCount(|window|, PAGE_LIMIT))
  }

  /** A completed scan that ended on a short page, or whose cap cut between distinct times, tracks every decodable event
      shown from the minimum time up to the new cursor. */
  lemma ScanTracksAll(es: seq<ContractEvent>, min: int, g: Gathered<ContractEvent>, p: PendingMap, i: nat)
    requires Ascending(Times(es)) && i < |es| && es[i].toUs && es[i].value.Some?
    requires GotPrefix(es, min, g) && g.complete && g.entries != []
    requires var end := Earlier(Times(es), min) + |g.entries|;
      end == |es| || es[end - 1].timestamp < es[end].timestamp
    requires min <= es[i].timestamp <= g.entries[|g.entries| - 1].timestamp
    ensures es[i].tx in SeeAll(Seen(p, 0, 0), g.entries).pending
  {
    var first := Earlier(Times(es), min);
    CleanScanReads(Times(es), min, PAGE_LIMIT, i);
    assert g.entries[i - first] == es[i];
    SeenIsTracked(Seen(p, 0, 0), g.entries, i - first);
  }

  /** From an honest server a scan gets the entries from the minimum time on, up to the page cap when no request fails; the
      largest time seen is the last one's. */
  lemma HonestScan(fetch: EventServer, es: seq<ContractEvent>, min: int, p: PendingMap)
    requires Serves(fetch, es)
    ensures var g, window := Gather(fetch, min, None, 0), es[Earlier(Times(es), min)..];
      && GotPrefix(es, min, g)
      && SeeAll(Seen(p, 0, 0), g.entries).maxTimestamp == (if g.entries == [] then 0 else g.entries[|g.entries| - 1].timestamp)
      && (g.entries != [] ==> g.entries[|g.entries| - 1].timestamp > 0)
      && (g.complete ==> |g.entries| == if |window| < 4000 then |window| else 4000)
  {
    var g, first := Gather(fetch, min, None, 0), Earlier(Times(es), min);
    GatherWindow(fetch, min, es[first..], None, 0);
    SliceAscending(Times(es), first, first + |g.entries|);
    assert Times(g.entries) == Times(es)[first..first + |g.entries|];
    LastIsLatest(p, g.entries);
  }
}
