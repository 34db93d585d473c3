/** The history page's scan cache: stale rows served at once, one background refresh at a time,
    with every lock release an opening for anything else. */
module ScanCache {
  import opened Wrappers

  /** Five minutes. */
  const SELF_HEAL: nat := 300

  /** What one whole scan shows, by the numbers of the archive writes that are in it. */
  type Rows = set<nat>

  datatype Cached = Cached(at: nat, rows: Rows)

  /** A background refresh: the flag is taken and its task waits for a thread; or it walks the archive,
      `known` being the number of writes made before the walk began; or it is done with that and about
      to clear the flag. */
  datatype Refresh = Queued | Walking(known: nat) | Finishing

  /** A history request: between its two looks at the cache, walking the archive inline, or over. */
  datatype Request = Retrying | Scanning(known: nat) | Served(rows: Rows) | Failed

  /** `scans` are those that succeeded. */
  datatype State = State(
    now: nat,
    writes: nat,
    cache: Option<Cached>,
    refreshing: bool,
    refreshes: seq<Refresh>,
    requests: map<nat, Request>,
    scans: seq<Rows>)

  datatype Event =
    | Tick(seconds: nat)
    | Write
    | Ask(request: nat)
    | Retry(request: nat)
    | InlineDone(request: nat, result: Option<Rows>)
    | Warm
    | RefreshStart(which: nat)
    | RefreshRead(which: nat, result: Option<Rows>)
    | RefreshClear(which: nat)

  const START := State(0, 0, None, false, [], map[], [])

  predicate Expired(s: State) {
    s.cache.Some? && s.now - s.cache.value.at >= SELF_HEAL
  }

  /** The first n writes. */
  function Upto(n: nat): (rows: Rows)
    ensures forall i :: i in rows <==> 0 <= i < n
  {
    if n == 0 then {} else Upto(n - 1) + {n - 1}
  }

  /** What a walk that knew this many writes when it began can show if it ends now: it reads one listing
      and one manifest after the other, so all of those, and of the later ones any. */
  predicate CanShow(s: State, known: nat, rows: Rows) {
    Upto(known) <= rows <= Upto(s.writes)
  }

  /** The flag is taken if it was clear; otherwise nothing is started. */
  function Spawn(s: State): State {
    if s.refreshing then s else s.(refreshing := true, refreshes := s.refreshes + [Queued])
  }

  /** A scan that succeeds replaces the cache. */
  function Store(s: State, rows: Rows): State {
    s.(scans := s.scans + [rows], cache := Some(Cached(s.now, rows)))
  }

  predicate Enabled(s: State, e: Event) {
    match e
    case Ask(r) => r !in s.requests
    case Retry(r) => r in s.requests && s.requests[r].Retrying?
    case InlineDone(r, result) =>
      && r in s.requests && s.requests[r].Scanning?
      && (result.Some? ==> CanShow(s, s.requests[r].known, result.value))
    case RefreshStart(k) => k < |s.refreshes| && s.refreshes[k].Queued?
    case RefreshRead(k, result) =>
      && k < |s.refreshes| && s.refreshes[k].Walking?
      && (result.Some? ==> CanShow(s, s.refreshes[k].known, result.value))
    case RefreshClear(k) => k < |s.refreshes| && s.refreshes[k].Finishing?
    case _ => true
  }

  function Next(s: State, e: Event): State
    requires Enabled(s, e)
  {
    match e
    case Tick(n) => s.(now := s.now + n)
    case Write => s.(writes := s.writes + 1)
    case Warm => Spawn(s)
    case Ask(r) =>
      if s.cache.Some? then
        var t := if Expired(s) then Spawn(s) else s;
        t.(requests := s.requests[r := Served(s.cache.value.rows)])
      else s.(requests := s.requests[r := Retrying])
    case Retry(r) =>
      if s.cache.Some? && !Expired(s) then s.(requests := s.requests[r := Served(s.cache.value.rows)])
      else s.(requests := s.requests[r := Scanning(s.writes)])
    case InlineDone(r, result) =>
      if result.Some? then Store(s, result.value).(requests := s.requests[r := Served(result.value)])
      else s.(requests := s.requests[r := Failed])
    case RefreshStart(k) => s.(refreshes := s.refreshes[k := Walking(s.writes)])
    case RefreshRead(k, result) =>
      var t := if result.Some? then Store(s, result.value) else s;
      t.(refreshes := s.refreshes[k := Finishing])
    case RefreshClear(k) => s.(refreshing := false, refreshes := s.refreshes[..k] + s.refreshes[k + 1..])
  }

  ghost predicate IsRun(trace: seq<State>, events: seq<Event>) {
    && |trace| == |events| + 1 && trace[0] == START
    && (forall i :: 0 <= i < |events| ==> Enabled(trace[i], events[i]) && trace[i + 1] == Next(trace[i], events[i]))
  }

  // ---------------------------------------------------------------- what every step keeps

  /** The flag is up exactly while a refresh is in flight, and there is never a second one. */
  ghost predicate SingleFlight(s: State) {
    |s.refreshes| == (if s.refreshing then 1 else 0)
  }

  /** The cache is the whole of some finished scan, and none shows writes that have not happened. */
  ghost predicate GenuineCache(s: State) {
    && (forall i :: 0 <= i < |s.scans| ==> s.scans[i] <= Upto(s.writes))
    && (s.cache.Some? ==> s.cache.value.rows in s.scans && s.cache.value.at <= s.now)
  }

  /** Whatever was served is the whole of some finished scan. */
  ghost predicate GenuineRequests(s: State) {
    forall r :: r in s.requests ==>
      && (s.requests[r].Served? ==> s.requests[r].rows in s.scans)
      && (s.requests[r].Scanning? ==> s.requests[r].known <= s.writes)
  }

  ghost predicate GenuineRefreshes(s: State) {
    forall k :: 0 <= k < |s.refreshes| && s.refreshes[k].Walking? ==> s.refreshes[k].known <= s.writes
  }

  ghost predicate Inv(s: State) {
    SingleFlight(s) && GenuineCache(s) && GenuineRequests(s) && GenuineRefreshes(s)
  }

  lemma UptoGrows(m: nat, n: nat)
    ensures Upto(m) <= Upto(n) <==> m <= n
  {
  }

  lemma StepKeepsCache(s: State, e: Event)
    requires Inv(s) && Enabled(s, e)
    ensures GenuineCache(Next(s, e))
  {
  }

  lemma StepKeepsRequests(s: State, e: Event)
    requires Inv(s) && Enabled(s, e)
    ensures GenuineRequests(Next(s, e))
  {
  }

  lemma StepKeepsFlights(s: State, e: Event)
    requires Inv(s) && Enabled(s, e)
    ensures SingleFlight(Next(s, e)) && GenuineRefreshes(Next(s, e))
  {
  }

  lemma StepKeepsInv(s: State, e: Event)
    requires Inv(s) && Enabled(s, e)
    ensures Inv(Next(s, e))
  {
    StepKeepsCache(s, e);
    StepKeepsRequests(s, e);
    StepKeepsFlights(s, e);
    hide Next, GenuineCache, GenuineRequests, GenuineRefreshes, SingleFlight;
  }

  lemma {:induction false} RunInv(trace: seq<State>, events: seq<Event>, i: nat)
    requires IsRun(trace, events) && i <= |events|
    ensures Inv(trace[i])
  {
    hide Next, Inv;
    if i == 0 {
      StartInv();
    } else {
      RunInv(trace, events, i - 1);
      StepKeepsInv(trace[i - 1], events[i - 1]);
    }
  }

  lemma StartInv()
    ensures Inv(START)
  {
  }

  // ---------------------------------------------------------------- never empty again, never blocking

  lemma {:induction false} StaysFilled(trace: seq<State>, events: seq<Event>, i: nat, j: nat)
    requires IsRun(trace, events) && i <= j <= |events| && trace[i].cache.Some?
    ensures trace[j].cache.Some?
    decreases j - i
  {
    if i == j {
    } else {
      StaysFilled(trace, events, i, j - 1);
      assert trace[j] == Next(trace[j - 1], events[j - 1]);
    }
  }

  lemma {:induction false} ServedStays(trace: seq<State>, events: seq<Event>, i: nat, j: nat, r: nat)
    requires IsRun(trace, events) && i <= j <= |events|
    requires r in trace[i].requests && trace[i].requests[r].Served?
    ensures r in trace[j].requests && trace[j].requests[r] == trace[i].requests[r]
    decreases j - i
  {
    if i == j {
    } else {
      ServedStays(trace, events, i, j - 1, r);
      assert trace[j] == Next(trace[j - 1], events[j - 1]);
    }
  }

  /** Once the cache has been filled, every later request is answered in the very step that makes
      it, with the whole of an earlier scan, and never scans at any later point either. */
  lemma WarmRequestsNeverScan(trace: seq<State>, events: seq<Event>, i: nat, j: nat, k: nat)
    requires IsRun(trace, events) && i <= j < k <= |events|
    requires trace[i].cache.Some? && events[j].Ask?
    ensures
      var r := events[j].request;
      && trace[j].cache.Some? && r in trace[k].requests
      && trace[k].requests[r] == Served(trace[j].cache.value.rows)
      && trace[j].cache.value.rows in trace[j].scans
  {
    StaysFilled(trace, events, i, j);
    RunInv(trace, events, j);
    var r := events[j].request;
    assert Enabled(trace[j], events[j]) && trace[j + 1] == Next(trace[j], events[j]);
    assert trace[j + 1].requests[r] == Served(trace[j].cache.value.rows);
    ServedStays(trace, events, j + 1, k, r);
  }

  /** The first look: whatever is cached is served at once, however old, and after five minutes a refresh
      is started behind it unless one is in flight; a request that finds nothing goes on to the second. */
  lemma FirstLookExactly(s: State, r: nat)
    requires Inv(s) && r !in s.requests
    ensures
      var t := Next(s, Ask(r));
      && t.requests == s.requests[r := if s.cache.Some? then Served(s.cache.value.rows) else Retrying]
      && t.cache == s.cache
      && t.refreshes ==
           if s.cache.Some? && s.now - s.cache.value.at >= 300 && s.refreshes == [] then [Queued] else s.refreshes
  {
  }

  /** The second look: rows less than five minutes old are served, and otherwise the request scans. */
  lemma SecondLookExactly(s: State, r: nat)
    requires Enabled(s, Retry(r))
    ensures Next(s, Retry(r)) == s.(requests := s.requests[r :=
              if s.cache.Some? && s.now - s.cache.value.at < 300 then Served(s.cache.value.rows)
              else Scanning(s.writes)])
  {
  }

  // ---------------------------------------------------------------- the cache moves forward

  predicate Inline(q: Request) {
    q.Retrying? || q.Scanning?
  }

  /** No request is inside its own scan, and a background walk began with at least what is cached. */
  ghost predicate Forward(s: State) {
    && s.cache.Some?
    && (forall r :: r in s.requests ==> !Inline(s.requests[r]))
    && (forall k :: 0 <= k < |s.refreshes| && s.refreshes[k].Walking? ==>
          s.cache.value.rows <= Upto(s.refreshes[k].known))
  }

  lemma StepForward(s: State, e: Event)
    requires Inv(s) && Forward(s) && Enabled(s, e)
    ensures Forward(Next(s, e)) && s.cache.value.rows <= Next(s, e).cache.value.rows
  {
  }

  /** From the first moment the cache is filled, no request is scanning for itself and no refresh walks
      that began before a write in the cache, nothing the cache shows is ever missing from it again. */
  lemma {:induction false} CacheOnlyMovesForward(trace: seq<State>, events: seq<Event>, i: nat, j: nat)
    requires IsRun(trace, events) && i <= j <= |events| && Forward(trace[i])
    ensures Forward(trace[j])
    ensures trace[i].cache.value.rows <= trace[j].cache.value.rows
    decreases j - i
  {
    hide Next, Forward;
    if i == j {
    } else {
      CacheOnlyMovesForward(trace, events, i, j - 1);
      RunInv(trace, events, j - 1);
      StepForward(trace[j - 1], events[j - 1]);
      ForwardMeans(trace[j - 1]);
      ForwardMeans(trace[j]);
    }
  }

  lemma ForwardMeans(s: State)
    requires Forward(s)
    ensures s.cache.Some?
  {
  }

  // ---------------------------------------------------------------- scans by their walks

  /** A walk begins with this step: a refresh gets its thread, or a request finds no fresh rows. */
  predicate Begins(s: State, e: Event) {
    e.RefreshStart? || (e.Retry? && (s.cache.None? || Expired(s)))
  }

  /** The scan that is stored at step n: what it shows, if it ends well there. */
  function Result(e: Event): Option<Rows> {
    match e
    case InlineDone(_, result) => result
    case RefreshRead(_, result) => result
    case _ => None
  }

  /** Some walk began before n, when this many writes had been made. */
  ghost predicate Began(trace: seq<State>, events: seq<Event>, n: nat, known: nat)
    requires n <= |events| <= |trace|
  {
    exists i :: 0 <= i < n && Begins(trace[i], events[i]) && trace[i].writes == known
  }

  ghost predicate WalksBegan(trace: seq<State>, events: seq<Event>, n: nat)
    requires n <= |events| < |trace|
  {
    && (forall r :: r in trace[n].requests && trace[n].requests[r].Scanning? ==>
          Began(trace, events, n, trace[n].requests[r].known))
    && (forall k :: 0 <= k < |trace[n].refreshes| && trace[n].refreshes[k].Walking? ==>
          Began(trace, events, n, trace[n].refreshes[k].known))
  }

  /** A walk is as it was, or begins with this step. */
  lemma WalksStay(s: State, e: Event)
    requires Enabled(s, e)
    ensures
      forall r :: r in Next(s, e).requests && Next(s, e).requests[r].Scanning? ==>
        || (r in s.requests && s.requests[r] == Next(s, e).requests[r])
        || (Begins(s, e) && Next(s, e).requests[r].known == s.writes)
    ensures
      forall k :: 0 <= k < |Next(s, e).refreshes| && Next(s, e).refreshes[k].Walking? ==>
        || Next(s, e).refreshes[k] in s.refreshes
        || (Begins(s, e) && Next(s, e).refreshes[k].known == s.writes)
  {
  }

  lemma WalkBegan(trace: seq<State>, events: seq<Event>, n: nat, known: nat)
    requires n < |events| <= |trace|
    requires Began(trace, events, n, known) || (Begins(trace[n], events[n]) && trace[n].writes == known)
    ensures Began(trace, events, n + 1, known)
  {
  }

  lemma StepBegan(trace: seq<State>, events: seq<Event>, n: nat)
    requires n < |events| == |trace| - 1 && WalksBegan(trace, events, n)
    requires Enabled(trace[n], events[n]) && trace[n + 1] == Next(trace[n], events[n])
    ensures WalksBegan(trace, events, n + 1)
  {
    hide Next, Enabled, Begins, Began;
    var s, t := trace[n], trace[n + 1];
    WalksStay(s, events[n]);
    forall r | r in t.requests && t.requests[r].Scanning? ensures Began(trace, events, n + 1, t.requests[r].known) {
      WalkBegan(trace, events, n, t.requests[r].known);
    }
    forall k | 0 <= k < |t.refreshes| && t.refreshes[k].Walking?
      ensures Began(trace, events, n + 1, t.refreshes[k].known)
    {
      WalkBegan(trace, events, n, t.refreshes[k].known);
    }
  }

  lemma {:induction false} AllWalksBegan(trace: seq<State>, events: seq<Event>, n: nat)
    requires IsRun(trace, events) && n <= |events|
    ensures WalksBegan(trace, events, n)
  {
    if n == 0 {
    } else {
      hide Next, Enabled, WalksBegan;
      AllWalksBegan(trace, events, n - 1);
      StepBegan(trace, events, n - 1);
    }
  }

  /** In every run, a scan that ends well began with some earlier step, shows every write made before
      that step, and none that was not made by its end. */
  lemma ScansAreDated(trace: seq<State>, events: seq<Event>, n: nat)
    requires IsRun(trace, events) && n < |events| && Result(events[n]).Some?
    ensures
      exists i :: 0 <= i < n && Begins(trace[i], events[i])
        && Upto(trace[i].writes) <= Result(events[n]).value <= Upto(trace[n].writes)
  {
    hide Upto, Next, Begins;
    AllWalksBegan(trace, events, n);
    assert Enabled(trace[n], events[n]);
  }

  /** A request that scans for itself can set the cache back, to a scan without some write that the cache
      shows, exactly if the cache shows a write made after the request's walk began. */
  lemma InlineScanSetsBackExactly(s: State, r: nat)
    requires Inv(s) && s.cache.Some? && r in s.requests && s.requests[r].Scanning?
    ensures
      (exists rows :: Enabled(s, InlineDone(r, Some(rows)))
         && !(s.cache.value.rows <= Next(s, InlineDone(r, Some(rows))).cache.value.rows)) <==>
      (exists write :: write in s.cache.value.rows && write >= s.requests[r].known)
  {
    var known, cached := s.requests[r].known, s.cache.value.rows;
    if write :| write in cached && write >= known {
      UptoGrows(known, s.writes);
      assert Enabled(s, InlineDone(r, Some(Upto(known)))) && write !in Upto(known);
    } else {
      assert cached <= Upto(known);
    }
  }

  // ---------------------------------------------------------------- publishing an archive write

  /** The cache shows every write made so far. */
  predicate Published(s: State) {
    s.cache.Some? && s.cache.value.rows == Upto(s.writes)
  }

  /** What the refresh in flight can show if nothing but its own steps happens from now on. */
  predicate CanEnd(s: State, rows: Rows) {
    s.refreshes != [] && !s.refreshes[0].Finishing? ==>
      CanShow(s, if s.refreshes[0].Walking? then s.refreshes[0].known else s.writes, rows)
  }

  /** The refresh in flight, if there is one, gets its thread, walks to its end, shows these rows and
      clears the flag; nothing else happens. */
  function Settled(s: State, rows: Rows): State
    requires Inv(s) && CanEnd(s, rows)
  {
    if s.refreshes == [] then s
    else
      var t := if s.refreshes[0].Queued? then Next(s, RefreshStart(0)) else s;
      var u := if t.refreshes[0].Walking? then Next(t, RefreshRead(0, Some(rows))) else t;
      Next(u, RefreshClear(0))
  }

  /** What warming the cache is worth: however the refresh then in flight ends, if it ends well, the
      cache shows every write made before the warming, exactly if that refresh has yet to start
      walking, or began to after the last write, or was finishing when the cache showed all writes
      already. A walk that began earlier may show them all, a finishing one cannot. */
  lemma WarmPublishesExactly(s: State)
    requires Inv(s)
    ensures Inv(Next(s, Warm))
    ensures
      var warmed := Next(s, Warm);
      (forall rows :: CanEnd(warmed, rows) ==> Published(Settled(warmed, rows))) <==>
      || s.refreshes == [] || s.refreshes[0].Queued?
      || (s.refreshes[0].Walking? && s.refreshes[0].known == s.writes)
      || (s.refreshes[0].Finishing? && Published(s))
    ensures
      var warmed := Next(s, Warm);
      (exists rows :: CanEnd(warmed, rows) && Published(Settled(warmed, rows))) <==>
      s.refreshes == [] || !s.refreshes[0].Finishing? || Published(s)
  {
    StepKeepsInv(s, Warm);
    var warmed := Next(s, Warm);
    hide Upto;
    if s.refreshes != [] && s.refreshes[0].Walking? {
      UptoGrows(s.refreshes[0].known, s.writes);
      UptoGrows(s.writes, s.refreshes[0].known);
      assert CanEnd(warmed, Upto(s.refreshes[0].known));
    }
    if warmed.refreshes[0].Walking? {
      UptoGrows(warmed.refreshes[0].known, s.writes);
    }
    assert CanEnd(warmed, Upto(s.writes));
    forall rows | CanEnd(warmed, rows)
      ensures Published(Settled(warmed, rows)) <==>
              if warmed.refreshes[0].Finishing? then Published(s) else rows == Upto(s.writes)
    {
      SettledShows(warmed, rows);
    }
  }

  lemma SettledShows(s: State, rows: Rows)
    requires Inv(s) && CanEnd(s, rows)
    ensures
      var t := Settled(s, rows);
      && Inv(t) && t.refreshes == [] && t.writes == s.writes && t.now == s.now && t.requests == s.requests
      && t.cache == if s.refreshes == [] || s.refreshes[0].Finishing? then s.cache else Some(Cached(s.now, rows))
  {
  }

  /** A warming that did not publish is lost: the refresh has ended, nothing is running that would fetch
      the write, and requests are served without it and start nothing until the cache expires. */
  lemma LostWarmingStaysLost(s: State, rows: Rows, r: nat, wait: nat)
    requires Inv(s) && Inv(Next(s, Warm)) && CanEnd(Next(s, Warm), rows) && r !in s.requests
    requires !Published(Settled(Next(s, Warm), rows)) && Settled(Next(s, Warm), rows).cache.Some?
    requires s.now + wait < Settled(Next(s, Warm), rows).cache.value.at + SELF_HEAL
    ensures
      var waited := Next(Settled(Next(s, Warm), rows), Tick(wait));
      && waited.cache.Some? && (exists write :: write < s.writes && write !in waited.cache.value.rows)
      && Enabled(waited, Ask(r))
      && Next(waited, Ask(r)).requests[r] == Served(waited.cache.value.rows) && Next(waited, Ask(r)).refreshes == []
  {
    var settled := Settled(Next(s, Warm), rows);
    SettledShows(Next(s, Warm), rows);
    hide Settled, CanEnd;
    assert settled.cache.value.rows < Upto(s.writes);
    var write :| write in Upto(s.writes) && write !in settled.cache.value.rows;
  }

  /** And that happens: an archive write during a refresh's walk, which has already passed the place;
      the warming that follows starts nothing, and the next request is served without the write. */
  lemma WarmingIsLost(r: nat) returns (trace: seq<State>, events: seq<Event>)
    ensures IsRun(trace, events) && trace[|events|].refreshes == [] && trace[|events|].writes == 1
    ensures events == [Warm, RefreshStart(0), Write, Warm, RefreshRead(0, Some({})), RefreshClear(0), Ask(r)]
    ensures trace[|events|].requests == map[r := Served({})] && !Published(trace[|events|])
  {
    var s1 := Next(START, Warm);
    var s2 := Next(s1, RefreshStart(0));
    var s3 := Next(s2, Write);
    var s4 := Next(s3, Warm);
    var s5 := Next(s4, RefreshRead(0, Some({})));
    var s6 := Next(s5, RefreshClear(0));
    var s7 := Next(s6, Ask(r));
    trace := [START, s1, s2, s3, s4, s5, s6, s7];
    events := [Warm, RefreshStart(0), Write, Warm, RefreshRead(0, Some({})), RefreshClear(0), Ask(r)];
    assert 0 in Upto(1);
  }

  /** And then it heals: the first request after the cache expires starts a scan that shows every write
      made so far. */
  lemma ExpiredRequestHeals(s: State, r: nat, rows: Rows)
    requires Inv(s) && s.cache.Some? && s.now >= s.cache.value.at + 300 && s.refreshes == [] && r !in s.requests
    ensures
      var asked := Next(s, Ask(r));
      && Inv(asked) && asked.requests[r] == Served(s.cache.value.rows)
      && (CanEnd(asked, rows) ==> Published(Settled(asked, rows)))
  {
    StepKeepsInv(s, Ask(r));
    if CanEnd(Next(s, Ask(r)), rows) {
      SettledShows(Next(s, Ask(r)), rows);
    }
  }

  // ---------------------------------------------------------------- the runtime

  class ArchiveRuntime {
    var now: nat
    var writes: nat
    var cache: Option<Cached>
    var refreshing: bool
    var refreshes: seq<Refresh>
    var requests: map<nat, Request>
    var scans: seq<Rows>

    ghost function Now(): State
      reads this
    {
      State(now, writes, cache, refreshing, refreshes, requests, scans)
    }

    constructor ()
      ensures Now() == START
    {
      now, writes, cache, refreshing := 0, 0, None, false;
      refreshes, requests, scans := [], map[], [];
    }

    /** One atomic exchange: whether the flag was clear and is now taken. */
    method TakeFlag() returns (taken: bool)
      modifies this`refreshing
      ensures refreshing && taken == !old(refreshing)
    {
      taken := !refreshing;
      refreshing := true;
    }

    method SpawnScanRefresh()
      modifies this`refreshing, this`refreshes
      ensures Now() == Spawn(old(Now()))
    {
      var taken := TakeFlag();
      if !taken {
        return;
      }
      refreshes := refreshes + [Queued];
    }

    method WarmScanCache()
      modifies this`refreshing, this`refreshes
      ensures Now() == Next(old(Now()), Warm)
    {
      SpawnScanRefresh();
    }

    /** The first look; without rows the request goes on to `ScanRows`. */
    method ScanRowsCached(r: nat) returns (rows: Option<Rows>)
      requires Enabled(Now(), Ask(r))
      modifies this
      ensures Now() == Next(old(Now()), Ask(r))
      ensures rows == if old(cache).Some? then Some(old(cache).value.rows) else None
    {
      var cached := cache;
      if cached.None? {
        requests := requests[r := Retrying];
        return None;
      }
      if now - cached.value.at >= SELF_HEAL {
        SpawnScanRefresh();
      }
      requests := requests[r := Served(cached.value.rows)];
      return Some(cached.value.rows);
    }

    /** The second look; without fresh rows the request goes on to `Rescan`. */
    method ScanRows(r: nat) returns (rows: Option<Rows>)
      requires Enabled(Now(), Retry(r))
      modifies this
      ensures Now() == Next(old(Now()), Retry(r))
      ensures rows.Some? ==> requests[r] == Served(rows.value)
      ensures rows.None? ==> requests[r].Scanning?
    {
      var cached := cache;
      if cached.Some? {
        if now - cached.value.at < SELF_HEAL {
          requests := requests[r := Served(cached.value.rows)];
          return Some(cached.value.rows);
        }
      }
      requests := requests[r := Scanning(writes)];
      return None;
    }

    /** The end of a scan: on success it replaces the cache, whatever that holds. */
    method Rescan(result: Option<Rows>) returns (rows: Option<Rows>)
      modifies this`cache, this`scans
      ensures Now() == if result.Some? then Store(old(Now()), result.value) else old(Now())
      ensures rows == result
    {
      if result.Some? {
        scans := scans + [result.value];
        cache := Some(Cached(now, result.value));
      }
      return result;
    }

    method EndInlineScan(r: nat, result: Option<Rows>)
      requires Enabled(Now(), InlineDone(r, result))
      modifies this
      ensures Now() == Next(old(Now()), InlineDone(r, result))
    {
      var rows := Rescan(result);
      requests := requests[r := if rows.Some? then Served(rows.value) else Failed];
    }

    method StartRefresh(k: nat)
      requires Enabled(Now(), RefreshStart(k))
      modifies this
      ensures Now() == Next(old(Now()), RefreshStart(k))
    {
      refreshes := refreshes[k := Walking(writes)];
    }

    method EndRefreshScan(k: nat, result: Option<Rows>)
      requires Enabled(Now(), RefreshRead(k, result))
      modifies this
      ensures Now() == Next(old(Now()), RefreshRead(k, result))
    {
      var rows := Rescan(result);
      refreshes := refreshes[k := Finishing];
    }

    method ClearFlag(k: nat)
      requires Enabled(Now(), RefreshClear(k))
      modifies this
      ensures Now() == Next(old(Now()), RefreshClear(k))
    {
      refreshing := false;
      refreshes := refreshes[..k] + refreshes[k + 1..];
    }
  }
}
