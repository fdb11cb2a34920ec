/** Paging by timestamp, as the TRON and TON watchers do: what a capped scan reads, and what repeated scans miss. */
module Paging {
  import opened Domain

  const MAX_PAGES: nat := 20

  predicate Ascending(times: seq<int>) {
    forall i, j :: 0 <= i <= j < |times| ==> times[i] <= times[j]
  }

  lemma SliceAscending(times: seq<int>, lo: nat, hi: nat)
    requires Ascending(times) && lo <= hi <= |times|
    ensures Ascending(times[lo..hi])
  {
  }

  /** How many of the entries lie before the minimum time. */
  function Earlier(times: seq<int>, min: int): (n: nat)
    ensures n <= |times|
  {
    if times == [] || times[0] >= min then 0 else 1 + Earlier(times[1..], min)
  }

  lemma {:induction false} EarlierSplits(times: seq<int>, min: int)
    requires Ascending(times)
    ensures forall i :: 0 <= i < |times| ==> (times[i] < min <==> i < Earlier(times, min))
  {
    if times != [] && times[0] < min {
      assert Ascending(times[1..]);
      EarlierSplits(times[1..], min);
      forall i | 0 <= i < |times|
        ensures times[i] < min <==> i < Earlier(times, min)
      {
        if i > 0 {
          assert times[1..][i - 1] == times[i];
        }
      }
    }
  }

  /** How many entries of a window a scan reads: all of them, or as many as the pages hold. */
  function ReadCount(window: nat, limit: nat): (n: nat)
    ensures n <= window
  {
    if window < limit * MAX_PAGES then window else limit * MAX_PAGES
  }

  /** One page: `limit` consecutive entries from a position, fewer at the end. */
  function Page<T>(window: seq<T>, position: nat, limit: nat): seq<T> {
    if position >= |window| then []
    else if position + limit <= |window| then window[position..position + limit]
    else window[position..]
  }

  lemma PageIsSlice<T>(window: seq<T>, position: nat, limit: nat)
    ensures var from := if position < |window| then position else |window|;
      var to := if position + limit < |window| then position + limit else |window|;
      Page(window, position, limit) == window[from..to]
  {
  }

  lemma SlicesJoin<T>(window: seq<T>, a: nat, b: nat, c: nat)
    requires a <= b <= c <= |window|
    ensures window[a..b] + window[b..c] == window[a..c]
  {
  }

  lemma Associative<T>(a: seq<T>, b: seq<T>, c: seq<T>)
    ensures a + (b + c) == (a + b) + c
  {
  }

  /** What a loop over the entries makes of a state. */
  function Fold<S, E>(f: (S, E) -> S, s: S, es: seq<E>): S {
    if es == [] then s else f(Fold(f, s, es[..|es| - 1]), es[|es| - 1])
  }

  lemma {:induction false} FoldAppend<S, E>(f: (S, E) -> S, s: S, a: seq<E>, b: seq<E>)
    ensures Fold(f, s, a + b) == Fold(f, Fold(f, s, a), b)
  {
    if b == [] {
      assert a + b == a;
    } else {
      FoldAppend(f, s, a, b[..|b| - 1]);
      assert (a + b)[..|a + b| - 1] == a + b[..|b| - 1];
    }
  }

  /** All entries a scan got, and whether it ended without a failing request. */
  datatype Gathered<E> = Gathered(complete: bool, entries: seq<E>)

  /** From this position of the window a loop got what follows, each entry once and in order, up to the page cap if it
      completed. */
  ghost predicate PrefixFrom<E>(window: seq<E>, position: nat, limit: nat, g: Gathered<E>) {
    var from := if position < |window| then position else |window|;
    && from + |g.entries| <= ReadCount(|window|, limit)
    && g.entries == window[from..from + |g.entries|]
    && (g.complete ==> from + |g.entries| == ReadCount(|window|, limit))
  }

  lemma NoPage<E>(window: seq<E>, position: nat, limit: nat, complete: bool)
    requires position <= limit * MAX_PAGES && (complete ==> position == limit * MAX_PAGES)
    ensures PrefixFrom(window, position, limit, Gathered(complete, []))
  {
  }

  lemma LastPage<E>(window: seq<E>, position: nat, limit: nat, data: seq<E>)
    requires data == Page(window, position, limit) && position + limit <= limit * MAX_PAGES
    requires |data| < limit || |window| <= position + limit
    ensures PrefixFrom(window, position, limit, Gathered(true, data))
  {
    PageIsSlice(window, position, limit);
  }

  lemma FullPage<E>(window: seq<E>, position: nat, limit: nat, data: seq<E>, rest: Gathered<E>)
    requires data == Page(window, position, limit) && |data| == limit > 0 && PrefixFrom(window, position + limit, limit, rest)
    ensures PrefixFrom(window, position, limit, Gathered(rest.complete, data + rest.entries))
  {
    PageIsSlice(window, position, limit);
    SlicesJoin(window, position, position + limit, position + limit + |rest.entries|);
  }

  /** With everything in time order, a scan that ended on a short page, or whose cap cut between distinct times, reads every
      entry from the minimum up to the new cursor. */
  lemma CleanScanReads(times: seq<int>, min: int, limit: nat, i: nat)
    requires Ascending(times) && i < |times|
    requires var first := Earlier(times, min);
      var read := ReadCount(|times| - first, limit);
      && read > 0 && (first + read == |times| || times[first + read - 1] < times[first + read])
      && min <= times[i] <= times[first + read - 1]
    ensures var first := Earlier(times, min); first <= i < first + ReadCount(|times| - first, limit)
  {
    EarlierSplits(times, min);
  }

  // ------------------------------------------------------------ what a scan sees

  /** The given positions' entries. */
  function Select<T>(all: seq<T>, idx: seq<nat>): (s: seq<T>)
    requires forall k :: 0 <= k < |idx| ==> idx[k] < |all|
    ensures |s| == |idx| && forall k :: 0 <= k < |idx| ==> s[k] == all[idx[k]]
  {
    seq(|idx|, k requires 0 <= k < |idx| => all[idx[k]])
  }

  lemma SelectPrefix<T>(all: seq<T>, idx: seq<nat>, n: nat)
    requires (forall k :: 0 <= k < |idx| ==> idx[k] < |all|) && n <= |idx|
    ensures Select(all, idx)[..n] == Select(all, idx[..n])
  {
  }

  /** The shown entries before position n, in order. */
  function Listed(shown: set<nat>, n: nat): (idx: seq<nat>)
    ensures forall k :: 0 <= k < |idx| ==> idx[k] < n && idx[k] in shown
  {
    if n == 0 then []
    else if n - 1 in shown then Listed(shown, n - 1) + [n - 1]
    else Listed(shown, n - 1)
  }

  /** Those of them from the minimum time on: what the pages are cut from. */
  function Window(times: seq<int>, shown: set<nat>, min: int, n: nat): (w: seq<nat>)
    requires n <= |times|
    ensures forall k :: 0 <= k < |w| ==> w[k] < n
  {
    if n == 0 then []
    else if n - 1 in shown && times[n - 1] >= min then Window(times, shown, min, n - 1) + [n - 1]
    else Window(times, shown, min, n - 1)
  }

  /** How many shown entries from the minimum on come before position i. */
  function Rank(times: seq<int>, shown: set<nat>, min: int, i: nat): nat
    requires i <= |times|
  {
    |Window(times, shown, min, i)|
  }

  lemma {:induction false} RankCounts(times: seq<int>, shown: set<nat>, min: int, i: nat)
    requires i <= |times|
    ensures Rank(times, shown, min, i) == Ahead(times, shown, min, i)
    decreases i
  {
    var before := set j | j in shown && j < i && times[j] >= min;
    if i > 0 {
      RankCounts(times, shown, min, i - 1);
      var earlier := set j | j in shown && j < i - 1 && times[j] >= min;
      assert before == if i - 1 in shown && times[i - 1] >= min then earlier + {i - 1} else earlier;
    }
  }

  lemma {:induction false} WindowHas(times: seq<int>, shown: set<nat>, min: int, n: nat, i: nat)
    requires i < n <= |times| && i in shown && times[i] >= min
    ensures Rank(times, shown, min, i) < |Window(times, shown, min, n)|
    ensures Window(times, shown, min, n)[Rank(times, shown, min, i)] == i
    decreases n
  {
    if i < n - 1 {
      WindowHas(times, shown, min, n - 1, i);
    }
  }

  lemma {:induction false} WindowAt(times: seq<int>, shown: set<nat>, min: int, n: nat, k: nat)
    requires n <= |times| && k < |Window(times, shown, min, n)|
    ensures var i := Window(times, shown, min, n)[k];
      i < n && i in shown && times[i] >= min && Rank(times, shown, min, i) == k
    decreases n
  {
    if k < |Window(times, shown, min, n - 1)| {
      WindowAt(times, shown, min, n - 1, k);
    }
  }

  lemma {:induction false} WindowInOrder(times: seq<int>, shown: set<nat>, min: int, n: nat, k: nat, l: nat)
    requires Ascending(times) && n <= |times| && k <= l < |Window(times, shown, min, n)|
    ensures Window(times, shown, min, n)[k] < n && Window(times, shown, min, n)[l] < n
    ensures times[Window(times, shown, min, n)[k]] <= times[Window(times, shown, min, n)[l]]
    decreases n
  {
    WindowAt(times, shown, min, n, k);
    WindowAt(times, shown, min, n, l);
    if l < |Window(times, shown, min, n - 1)| {
      WindowInOrder(times, shown, min, n - 1, k, l);
    }
  }

  /** The shown entries before the minimum time. */
  function Early(times: seq<int>, shown: set<nat>, min: int, n: nat): seq<nat>
    requires n <= |times|
  {
    if n == 0 then []
    else if n - 1 in shown && times[n - 1] < min then Early(times, shown, min, n - 1) + [n - 1]
    else Early(times, shown, min, n - 1)
  }

  lemma {:induction false} EarlyAt(times: seq<int>, shown: set<nat>, min: int, n: nat, k: nat)
    requires n <= |times| && k < |Early(times, shown, min, n)|
    ensures var i := Early(times, shown, min, n)[k]; i < n && times[i] < min
    decreases n
  {
    if k < |Early(times, shown, min, n - 1)| {
      EarlyAt(times, shown, min, n - 1, k);
    }
  }

  lemma NoneBeforeMinimum(times: seq<int>, shown: set<nat>, min: int, n: nat)
    requires Ascending(times) && n < |times| && times[n] < min
    ensures Window(times, shown, min, n) == []
  {
    if Window(times, shown, min, n) != [] {
      WindowAt(times, shown, min, n, 0);
    }
  }

  /** In time order the listed entries are those before the minimum time, then the others. */
  lemma {:induction false} ListedSplits(times: seq<int>, shown: set<nat>, min: int, n: nat)
    requires Ascending(times) && n <= |times|
    ensures Listed(shown, n) == Early(times, shown, min, n) + Window(times, shown, min, n)
    decreases n
  {
    if n > 0 {
      var e, w := Early(times, shown, min, n - 1), Window(times, shown, min, n - 1);
      ListedSplits(times, shown, min, n - 1);
      if n - 1 in shown && times[n - 1] < min {
        NoneBeforeMinimum(times, shown, min, n - 1);
        assert e + w == e && (e + [n - 1]) + [] == e + [n - 1];
      } else if n - 1 in shown {
        Associative(e, w, [n - 1]);
      }
    }
  }

  lemma {:induction false} EarlierOfConcat(a: seq<int>, b: seq<int>, min: int)
    requires (forall k :: 0 <= k < |a| ==> a[k] < min) && (b != [] ==> b[0] >= min)
    ensures Earlier(a + b, min) == |a|
    decreases |a|
  {
    if a == [] {
      assert a + b == b;
    } else {
      assert (a + b)[1..] == a[1..] + b;
      EarlierOfConcat(a[1..], b, min);
    }
  }

  lemma SelectConcat<T>(all: seq<T>, a: seq<nat>, b: seq<nat>)
    requires (forall k :: 0 <= k < |a| ==> a[k] < |all|) && forall k :: 0 <= k < |b| ==> b[k] < |all|
    ensures Select(all, a + b) == Select(all, a) + Select(all, b)
  {
  }

  lemma ConcatSuffix<T>(a: seq<T>, b: seq<T>)
    ensures (a + b)[|a|..] == b
  {
  }

  /** Dropping the entries before the minimum time from those listed leaves the window. */
  lemma WindowIsSuffix(times: seq<int>, shown: set<nat>, min: int, n: nat)
    requires Ascending(times) && n <= |times|
    ensures Listed(shown, n)[Earlier(Select(times, Listed(shown, n)), min)..] == Window(times, shown, min, n)
  {
    var e, w := Early(times, shown, min, n), Window(times, shown, min, n);
    ListedSplits(times, shown, min, n);
    forall k | 0 <= k < |e|
      ensures e[k] < |times| && times[e[k]] < min
    {
      EarlyAt(times, shown, min, n, k);
    }
    if w != [] {
      WindowAt(times, shown, min, n, 0);
    }
    SelectConcat(times, e, w);
    EarlierOfConcat(Select(times, e), Select(times, w), min);
    ConcatSuffix(e, w);
  }

  // ------------------------------------------------------------------- polls

  /** What a poll meets: which entries the server shows by now, whether the cursor could be loaded and every page and the
      save succeeded, how many entries a failed scan got through, and the minimum time used while no cursor is stored. */
  datatype Poll = Poll(shown: set<nat>, ok: bool, partial: nat, fallback: int)

  /** `lo` is the minimum time of the first scan that saved its cursor. */
  datatype Progress = Progress(handled: set<nat>, cursor: Option<int>, lo: Option<int>)

  const FRESH: Progress := Progress({}, None, None)

  function MinTime(p: Progress, q: Poll): int {
    if p.cursor.Some? then p.cursor.value + 1 else q.fallback
  }

  /** How many entries the poll can read at most. */
  function Quota(q: Poll, limit: nat): nat {
    if !q.ok && q.partial < limit * MAX_PAGES then q.partial else limit * MAX_PAGES
  }

  /** The entries a poll handles, in order. */
  function Reads(times: seq<int>, limit: nat, p: Progress, q: Poll): (read: seq<nat>)
    ensures forall k :: 0 <= k < |read| ==> read[k] < |times|
  {
    var w := Window(times, q.shown, MinTime(p, q), |times|);
    if |w| < Quota(q, limit) then w else w[..Quota(q, limit)]
  }

  function AfterPoll(times: seq<int>, limit: nat, p: Progress, q: Poll): Progress {
    var read := Reads(times, limit, p, q);
    var handled := p.handled + set k | 0 <= k < |read| :: read[k];
    if !q.ok || read == [] then p.(handled := handled)
    else Progress(handled, Some(times[read[|read| - 1]]), if p.lo.None? then Some(MinTime(p, q)) else p.lo)
  }

  function AfterPolls(times: seq<int>, limit: nat, p: Progress, qs: seq<Poll>): Progress
    decreases |qs|
  {
    if qs == [] then p else AfterPolls(times, limit, AfterPoll(times, limit, p, qs[0]), qs[1..])
  }

  lemma ReadsPrefix(times: seq<int>, limit: nat, p: Progress, q: Poll, n: nat)
    requires var w := Window(times, q.shown, MinTime(p, q), |times|);
      n <= ReadCount(|w|, limit) && n == if q.ok then ReadCount(|w|, limit) else q.partial
    ensures var w := Window(times, q.shown, MinTime(p, q), |times|);
      && n <= |w| && Reads(times, limit, p, q) == w[..n]
      && AfterPoll(times, limit, p, q).cursor == if q.ok && n > 0 then Some(times[w[n - 1]]) else p.cursor
  {
  }

  lemma ReadByRank(times: seq<int>, limit: nat, p: Progress, q: Poll, i: nat)
    ensures i in Reads(times, limit, p, q) <==>
      i < |times| && i in q.shown && times[i] >= MinTime(p, q) && Rank(times, q.shown, MinTime(p, q), i) < Quota(q, limit)
  {
    var w, read := Window(times, q.shown, MinTime(p, q), |times|), Reads(times, limit, p, q);
    if i in read {
      var k :| 0 <= k < |read| && read[k] == i;
      WindowAt(times, q.shown, MinTime(p, q), |times|, k);
    }
    if i < |times| && i in q.shown && times[i] >= MinTime(p, q) {
      WindowHas(times, q.shown, MinTime(p, q), |times|, i);
      if Rank(times, q.shown, MinTime(p, q), i) < Quota(q, limit) {
        assert read[Rank(times, q.shown, MinTime(p, q), i)] == i;
      }
    }
  }

  /** How many shown entries from the minimum time on come before the entry. */
  ghost function Ahead(times: seq<int>, shown: set<nat>, min: int, i: nat): nat
    requires i <= |times|
  {
    |set j | j in shown && j < i && times[j] >= min|
  }

  /** An entry is read exactly when it is shown by now, not before the minimum time, and fewer such entries come before it
      than twenty pages hold, or than the failed scan got through. */
  lemma ReadExactly(times: seq<int>, limit: nat, p: Progress, q: Poll, i: nat)
    ensures i in Reads(times, limit, p, q) <==>
      i < |times| && i in q.shown && times[i] >= MinTime(p, q)
      && Ahead(times, q.shown, MinTime(p, q), i) < limit * 20
      && (q.ok || Ahead(times, q.shown, MinTime(p, q), i) < q.partial)
  {
    ReadByRank(times, limit, p, q, i);
    if i < |times| {
      RankCounts(times, q.shown, MinTime(p, q), i);
    }
  }

  /** What a successful scan reads lies at or before the cursor it stores. */
  lemma ReadUpToCursor(times: seq<int>, limit: nat, p: Progress, q: Poll, i: nat)
    requires Ascending(times) && i in Reads(times, limit, p, q)
    ensures q.ok ==> Passed(times, AfterPoll(times, limit, p, q), i)
  {
    var read := Reads(times, limit, p, q);
    var k :| 0 <= k < |read| && read[k] == i;
    WindowInOrder(times, q.shown, MinTime(p, q), |times|, k, |read| - 1);
  }

  /** The stored cursor is at or past the entry's time. */
  predicate Passed(times: seq<int>, p: Progress, i: nat) {
    i < |times| && p.cursor.Some? && times[i] <= p.cursor.value
  }

  /** No poll lowers the cursor or handles anything at or before it. */
  lemma CursorNeverFalls(times: seq<int>, limit: nat, p: Progress, q: Poll)
    requires Ascending(times)
    ensures var r := AfterPoll(times, limit, p, q);
      && (p.cursor.Some? ==> r.cursor.Some? && r.cursor.value >= p.cursor.value)
      && forall i: nat :: i in r.handled && i !in p.handled ==>
           i < |times| && i in Reads(times, limit, p, q) && (p.cursor.Some? ==> times[i] > p.cursor.value)
  {
    var read, r := Reads(times, limit, p, q), AfterPoll(times, limit, p, q);
    forall i: nat | i in read
      ensures i < |times| && times[i] >= MinTime(p, q)
    {
      ReadByRank(times, limit, p, q, i);
    }
    assert forall i :: i in r.handled && i !in p.handled ==> i in read;
    if read != [] {
      assert read[|read| - 1] in read;
    }
  }

  // ------------------------------------------------ what repeated polls handle

  /** Once the cursor is past an entry, nothing decides any more whether it was handled. */
  lemma {:induction false} PassedIsSettled(times: seq<int>, limit: nat, p: Progress, qs: seq<Poll>, i: nat)
    requires Ascending(times) && Passed(times, p, i)
    ensures var r := AfterPolls(times, limit, p, qs); Passed(times, r, i) && (i in r.handled <==> i in p.handled)
    decreases |qs|
  {
    if qs != [] {
      CursorNeverFalls(times, limit, p, qs[0]);
      PassedIsSettled(times, limit, AfterPoll(times, limit, p, qs[0]), qs[1..], i);
    }
  }

  ghost function Before(times: seq<int>, limit: nat, p: Progress, qs: seq<Poll>, k: nat): Progress
    requires k <= |qs|
  {
    AfterPolls(times, limit, p, qs[..k])
  }

  /** The k-th poll reads the entry. */
  ghost predicate ReadBy(times: seq<int>, limit: nat, p: Progress, qs: seq<Poll>, k: nat, i: nat)
    requires k < |qs|
  {
    i in Reads(times, limit, Before(times, limit, p, qs, k), qs[k])
  }

  /** The k-th poll moves the cursor to the entry's time or past it. */
  ghost predicate CrossedBy(times: seq<int>, limit: nat, p: Progress, qs: seq<Poll>, k: nat, i: nat)
    requires k < |qs|
  {
    var m := Before(times, limit, p, qs, k);
    !Passed(times, m, i) && Passed(times, AfterPoll(times, limit, m, qs[k]), i)
  }

  ghost predicate ReadByFailed(times: seq<int>, limit: nat, p: Progress, qs: seq<Poll>, k: nat, i: nat)
    requires k <= |qs|
  {
    exists j :: 0 <= j < k && !qs[j].ok && ReadBy(times, limit, p, qs, j, i)
  }

  lemma BeforeShift(times: seq<int>, limit: nat, p: Progress, qs: seq<Poll>, k: nat)
    requires qs != [] && k <= |qs| - 1
    ensures Before(times, limit, p, qs, k + 1) == Before(times, limit, AfterPoll(times, limit, p, qs[0]), qs[1..], k)
  {
    assert qs[..k + 1][0] == qs[0] && qs[..k + 1][1..] == qs[1..][..k];
  }

  lemma FailedShift(times: seq<int>, limit: nat, p: Progress, qs: seq<Poll>, k: nat, i: nat)
    requires qs != [] && k <= |qs| - 1
    ensures ReadByFailed(times, limit, p, qs, k + 1, i) <==>
      (!qs[0].ok && ReadBy(times, limit, p, qs, 0, i))
      || ReadByFailed(times, limit, AfterPoll(times, limit, p, qs[0]), qs[1..], k, i)
  {
    var m, rest := AfterPoll(times, limit, p, qs[0]), qs[1..];
    forall j | 0 <= j < k
      ensures ReadBy(times, limit, m, rest, j, i) <==> ReadBy(times, limit, p, qs, j + 1, i)
      ensures rest[j].ok <==> qs[j + 1].ok
    {
      BeforeShift(times, limit, p, qs, j);
    }
    if ReadByFailed(times, limit, p, qs, k + 1, i) {
      var j :| 0 <= j < k + 1 && !qs[j].ok && ReadBy(times, limit, p, qs, j, i);
      if j > 0 {
        assert !rest[j - 1].ok && ReadBy(times, limit, m, rest, j - 1, i);
      }
    }
    if ReadByFailed(times, limit, m, rest, k, i) {
      var j :| 0 <= j < k && !rest[j].ok && ReadBy(times, limit, m, rest, j, i);
      assert !qs[j + 1].ok && ReadBy(times, limit, p, qs, j + 1, i);
    }
  }

  /** The poll that takes the cursor past an entry decides: the entry is handled in the end exactly when it was already,
      when this poll reads it, or when a failed one did before. */
  lemma {:induction false} CrossingDecides(times: seq<int>, limit: nat, p: Progress, qs: seq<Poll>, i: nat) returns (k: nat)
    requires Ascending(times) && !Passed(times, p, i) && Passed(times, AfterPolls(times, limit, p, qs), i)
    ensures k < |qs| && CrossedBy(times, limit, p, qs, k, i)
    ensures i in AfterPolls(times, limit, p, qs).handled <==>
      i in p.handled || ReadBy(times, limit, p, qs, k, i) || ReadByFailed(times, limit, p, qs, k, i)
    decreases |qs|
  {
    var m := AfterPoll(times, limit, p, qs[0]);
    assert qs[..0] == [] && Before(times, limit, p, qs, 0) == p;
    if Passed(times, m, i) {
      k := 0;
      PassedIsSettled(times, limit, m, qs[1..], i);
    } else {
      var l := CrossingDecides(times, limit, m, qs[1..], i);
      k := l + 1;
      BeforeShift(times, limit, p, qs, l);
      FailedShift(times, limit, p, qs, l, i);
      if i in Reads(times, limit, p, qs[0]) {
        ReadUpToCursor(times, limit, p, qs[0], i);
      }
    }
  }

  /** What the server shows it goes on showing. */
  ghost predicate Grows(qs: seq<Poll>) {
    forall j, k :: 0 <= j <= k < |qs| ==> qs[j].shown <= qs[k].shown
  }

  lemma FailedReadWasShown(times: seq<int>, limit: nat, qs: seq<Poll>, k: nat, i: nat)
    requires Grows(qs) && k < |qs| && ReadByFailed(times, limit, FRESH, qs, k, i)
    ensures i in qs[k].shown
  {
    var j :| 0 <= j < k && !qs[j].ok && ReadBy(times, limit, FRESH, qs, j, i);
    ReadByRank(times, limit, Before(times, limit, FRESH, qs, j), qs[j], i);
  }

  /** Over all polls of a new watcher, failed ones included: an entry the cursor has passed was handled exactly when the
      server showed it by the poll that took the cursor past it and that poll's pages reached it from its minimum time on,
      or a failed poll had read it before. */
  lemma HandledIff(times: seq<int>, limit: nat, qs: seq<Poll>, i: nat) returns (k: nat)
    requires Ascending(times) && Grows(qs) && Passed(times, AfterPolls(times, limit, FRESH, qs), i)
    ensures k < |qs| && CrossedBy(times, limit, FRESH, qs, k, i) && qs[k].ok
    ensures var min := MinTime(Before(times, limit, FRESH, qs, k), qs[k]);
      i in AfterPolls(times, limit, FRESH, qs).handled <==>
        i in qs[k].shown
        && ((times[i] >= min && Ahead(times, qs[k].shown, min, i) < limit * 20)
            || ReadByFailed(times, limit, FRESH, qs, k, i))
  {
    k := CrossingDecides(times, limit, FRESH, qs, i);
    ReadExactly(times, limit, Before(times, limit, FRESH, qs, k), qs[k], i);
    if ReadByFailed(times, limit, FRESH, qs, k, i) {
      FailedReadWasShown(times, limit, qs, k, i);
    }
  }

  lemma CrossedOnce(times: seq<int>, limit: nat, p: Progress, qs: seq<Poll>, k: nat, l: nat, i: nat)
    requires Ascending(times) && k < l < |qs| && CrossedBy(times, limit, p, qs, k, i)
    ensures !CrossedBy(times, limit, p, qs, l, i)
  {
    var m := AfterPoll(times, limit, Before(times, limit, p, qs, k), qs[k]);
    Continued(times, limit, p, qs[..l], k + 1);
    assert qs[..l][..k + 1] == qs[..k] + [qs[k]];
    Continued(times, limit, p, qs[..k] + [qs[k]], k);
    assert (qs[..k] + [qs[k]])[..k] == qs[..k] && (qs[..k] + [qs[k]])[k..] == [qs[k]];
    PassedIsSettled(times, limit, m, qs[..l][k + 1..], i);
  }

  lemma {:induction false} Continued(times: seq<int>, limit: nat, p: Progress, qs: seq<Poll>, k: nat)
    requires k <= |qs|
    ensures AfterPolls(times, limit, p, qs) == AfterPolls(times, limit, Before(times, limit, p, qs, k), qs[k..])
    decreases k
  {
    if k == 0 {
      assert qs[..0] == [] && qs[0..] == qs;
    } else {
      Continued(times, limit, AfterPoll(times, limit, p, qs[0]), qs[1..], k - 1);
      BeforeShift(times, limit, p, qs, k - 1);
      assert qs[1..][k - 1..] == qs[k..];
    }
  }

  /** An entry shown only after the poll that took the cursor past it is never handled, whatever follows. */
  lemma LateEntryIsMissed(times: seq<int>, limit: nat, qs: seq<Poll>, k: nat, i: nat)
    requires Ascending(times) && Grows(qs) && k < |qs| && CrossedBy(times, limit, FRESH, qs, k, i)
    requires i !in qs[k].shown
    ensures i !in AfterPolls(times, limit, FRESH, qs).handled
  {
    Continued(times, limit, FRESH, qs, k + 1);
    Continued(times, limit, FRESH, qs[..k + 1], k);
    assert qs[..k + 1][..k] == qs[..k] && qs[..k + 1][k..] == [qs[k]];
    assert AfterPolls(times, limit, Before(times, limit, FRESH, qs, k), [qs[k]])
           == AfterPoll(times, limit, Before(times, limit, FRESH, qs, k), qs[k]);
    PassedIsSettled(times, limit, Before(times, limit, FRESH, qs, k + 1), qs[k + 1..], i);
    var l := HandledIff(times, limit, qs, i);
    if l < k {
      CrossedOnce(times, limit, FRESH, qs, l, k, i);
    } else if k < l {
      CrossedOnce(times, limit, FRESH, qs, k, l, i);
    }
  }

  // --------------------------------------------------------- when nothing is missed

  /** The page cap, if it is reached, does not cut between two entries of the same time. */
  ghost predicate CleanCut(times: seq<int>, limit: nat, p: Progress, q: Poll) {
    var w := Window(times, q.shown, MinTime(p, q), |times|);
    forall k, l :: 0 <= k < limit * MAX_PAGES <= l < |w| ==> times[w[k]] < times[w[l]]
  }

  /** After one successful scan, every shown entry from the minimum up to the new cursor was read exactly when the page cap
      did not cut between two entries of the same time. A scan that ended on a short page always qualifies. */
  lemma OneScanComplete(times: seq<int>, limit: nat, p: Progress, q: Poll)
    requires Ascending(times) && q.ok && Reads(times, limit, p, q) != []
    ensures var r := AfterPoll(times, limit, p, q);
      (forall i: nat :: i < |times| && i in q.shown && MinTime(p, q) <= times[i] && Passed(times, r, i) ==>
         i in Reads(times, limit, p, q))
      <==> CleanCut(times, limit, p, q)
    ensures |Window(times, q.shown, MinTime(p, q), |times|)| <= limit * MAX_PAGES ==> CleanCut(times, limit, p, q)
  {
    var w, read := Window(times, q.shown, MinTime(p, q), |times|), Reads(times, limit, p, q);
    var r := AfterPoll(times, limit, p, q);
    var last := |read| - 1;
    WindowAt(times, q.shown, MinTime(p, q), |times|, last);
    assert r.cursor == Some(times[read[last]]);
    if CleanCut(times, limit, p, q) {
      forall i: nat | i < |times| && i in q.shown && MinTime(p, q) <= times[i] && Passed(times, r, i)
        ensures i in read
      {
        WindowHas(times, q.shown, MinTime(p, q), |times|, i);
        ReadByRank(times, limit, p, q, i);
      }
    } else {
      var k, l :| 0 <= k < limit * MAX_PAGES <= l < |w| && times[w[k]] >= times[w[l]];
      WindowInOrder(times, q.shown, MinTime(p, q), |times|, k, last);
      WindowInOrder(times, q.shown, MinTime(p, q), |times|, last, l);
      WindowAt(times, q.shown, MinTime(p, q), |times|, l);
      ReadByRank(times, limit, p, q, w[l]);
      assert Passed(times, r, w[l]);
    }
  }

  /** The cap cuts between distinct times, and all there ever is from the minimum up to the new cursor is shown by now. */
  ghost predicate CleanPoll(times: seq<int>, limit: nat, p: Progress, q: Poll) {
    q.ok && Reads(times, limit, p, q) != [] ==>
      && CleanCut(times, limit, p, q)
      && forall i: nat :: MinTime(p, q) <= TimeAt(times, i) && Passed(times, AfterPoll(times, limit, p, q), i) ==> i in q.shown
  }

  function TimeAt(times: seq<int>, i: nat): int {
    if i < |times| then times[i] else 0
  }

  ghost predicate CleanPolls(times: seq<int>, limit: nat, p: Progress, qs: seq<Poll>)
    decreases |qs|
  {
    qs == [] || (CleanPoll(times, limit, p, qs[0]) && CleanPolls(times, limit, AfterPoll(times, limit, p, qs[0]), qs[1..]))
  }

  /** Everything from the first saving scan's minimum time up to the cursor was handled. */
  ghost predicate Complete(times: seq<int>, p: Progress) {
    && (p.cursor.Some? <==> p.lo.Some?)
    && (p.cursor.Some? ==> forall i: nat :: p.lo.value <= TimeAt(times, i) && Passed(times, p, i) ==> i in p.handled)
  }

  lemma PollStaysComplete(times: seq<int>, limit: nat, p: Progress, q: Poll)
    requires Ascending(times) && Complete(times, p) && CleanPoll(times, limit, p, q)
    ensures Complete(times, AfterPoll(times, limit, p, q))
  {
    var read, r := Reads(times, limit, p, q), AfterPoll(times, limit, p, q);
    if q.ok && read != [] {
      OneScanComplete(times, limit, p, q);
      WindowAt(times, q.shown, MinTime(p, q), |times|, |read| - 1);
      forall i: nat | r.lo.value <= TimeAt(times, i) && Passed(times, r, i)
        ensures i in r.handled
      {
        if p.cursor.Some? && times[i] <= p.cursor.value {
          assert Passed(times, p, i);
        } else {
          assert i in q.shown && i in read;
        }
      }
    }
  }

  /** Repeated polls miss nothing: over any sequence of clean polls, failed ones included, every entry from the first saved
      scan up to the cursor was handled, and the cursor never goes back. */
  lemma {:induction false} PollsMissNothing(times: seq<int>, limit: nat, p: Progress, qs: seq<Poll>)
    requires Ascending(times) && Complete(times, p) && CleanPolls(times, limit, p, qs)
    ensures var r := AfterPolls(times, limit, p, qs);
      Complete(times, r) && p.handled <= r.handled
      && (p.cursor.Some? ==> r.cursor.Some? && r.cursor.value >= p.cursor.value)
    decreases |qs|
  {
    if qs != [] {
      PollStaysComplete(times, limit, p, qs[0]);
      CursorNeverFalls(times, limit, p, qs[0]);
      PollsMissNothing(times, limit, AfterPoll(times, limit, p, qs[0]), qs[1..]);
    }
  }
}
