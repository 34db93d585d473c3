/** The retention cycle: which sessions are archived beforehand, which rows are then deleted, and
    exactly what that loses. */
module Retention {
  import opened Wrappers
  import opened ObjectKeys
  import opened Transcripts
  import opened ArchiveStore
  import opened Durability

  const MAX_DELETES_PER_CYCLE: nat := 1000

  const DAY := 86400

  /** `retentionDays` 0 switches the age rule off. */
  datatype RetentionConfig = RetentionConfig(maxMessages: nat, retentionDays: nat)

  /** Which of the three candidate queries succeed. */
  datatype Queries = Queries(age: bool, count: bool, load: bool)

  type Rows = map<nat, Row>

  // ---------------------------------------------------------------- candidates

  function Cutoff(config: RetentionConfig, now: int): int {
    now - config.retentionDays * DAY
  }

  predicate TooOld(config: RetentionConfig, now: int, line: Line) {
    config.retentionDays > 0 && line.createdAt < Cutoff(config, now)
  }

  predicate Crowded(hot: Rows, config: RetentionConfig, sid: Uuid) {
    |HotOf(hot, sid)| > config.maxMessages
  }

  function AgedSessions(hot: Rows, config: RetentionConfig, now: int): set<Uuid> {
    set id | id in hot && TooOld(config, now, hot[id].line) :: hot[id].session
  }

  function CrowdedSessions(hot: Rows, config: RetentionConfig): set<Uuid> {
    set id | id in hot && Crowded(hot, config, hot[id].session) :: hot[id].session
  }

  /** The sessions that the trim is expected to touch. */
  function Affected(hot: Rows, config: RetentionConfig, now: int, queries: Queries): set<Uuid> {
    (if config.retentionDays > 0 && queries.age then AgedSessions(hot, config, now) else {})
    + (if queries.count then CrowdedSessions(hot, config) else {})
  }

  // ---------------------------------------------------------------- the trim

  /** `ids` are the n oldest keys, or all if there are fewer; ties in any way. */
  ghost predicate Takes(ages: map<nat, int>, n: nat, ids: set<nat>) {
    && ids <= ages.Keys && |ids| == Least(n, |ages.Keys|)
    && (forall k, j :: k in ids && j in ages && j !in ids ==> ages[k] <= ages[j])
  }

  function AgedRows(hot: Rows, config: RetentionConfig, now: int, held: set<Uuid>): map<nat, int> {
    map id: nat | id in hot && TooOld(config, now, hot[id].line) && hot[id].session !in held :: hot[id].line.createdAt
  }

  function SessionRows(hot: Rows, sid: Uuid): map<nat, int> {
    map id: nat | id in hot && hot[id].session == sid :: hot[id].line.createdAt
  }

  function Excess(hot: Rows, config: RetentionConfig, sid: Uuid): nat {
    var total := |HotOf(hot, sid)|;
    if total > config.maxMessages then total - config.maxMessages else 0
  }

  /** One session is cut down towards its cap, unless it is held. */
  ghost predicate Cut(hot: Rows, config: RetentionConfig, sid: Uuid, held: set<Uuid>, budget: nat, ids: set<nat>) {
    if sid in held then ids == {} else Takes(SessionRows(hot, sid), Least(Excess(hot, config, sid), budget), ids)
  }

  /** What the age trim and the first n cuts delete together. */
  function Gone(aged: set<nat>, cuts: seq<set<nat>>, n: nat): set<nat>
    requires n <= |cuts|
  {
    if n == 0 then aged else Gone(aged, cuts, n - 1) + cuts[n - 1]
  }

  function BudgetLeft(spent: nat): nat {
    if spent <= MAX_DELETES_PER_CYCLE then MAX_DELETES_PER_CYCLE - spent else 0
  }

  /** The i-th cut is that of the i-th queued session, counted anew. */
  ghost predicate CutAt(hot: Rows, pending: seq<Uuid>, config: RetentionConfig, held: set<Uuid>,
                        aged: set<nat>, cuts: seq<set<nat>>, i: nat)
    requires i < |cuts| <= |pending|
  {
    var gone := Gone(aged, cuts, i);
    Cut(hot - gone, config, pending[i], held, BudgetLeft(|gone|), cuts[i])
  }

  /** The cuts of the first queued sessions. */
  ghost predicate AreCuts(hot: Rows, pending: seq<Uuid>, config: RetentionConfig, held: set<Uuid>,
                          aged: set<nat>, cuts: seq<set<nat>>)
  {
    |cuts| <= |pending| && forall i :: 0 <= i < |cuts| ==> CutAt(hot, pending, config, held, aged, cuts, i)
  }

  /** The trim: the aged rows first, then all queued sessions. */
  ghost predicate IsTrim(hot: Rows, pending: seq<Uuid>, config: RetentionConfig, now: int, held: set<Uuid>,
                         aged: set<nat>, cuts: seq<set<nat>>)
  {
    && Takes(AgedRows(hot, config, now, held), MAX_DELETES_PER_CYCLE, aged)
    && AreCuts(hot, pending, config, held, aged, cuts) && |cuts| == |pending|
  }

  lemma {:induction false} GoneAppend(aged: set<nat>, cuts: seq<set<nat>>, cut: set<nat>, n: nat)
    requires n <= |cuts|
    ensures Gone(aged, cuts + [cut], n) == Gone(aged, cuts, n)
  {
    if n == 0 {
    } else {
      GoneAppend(aged, cuts, cut, n - 1);
    }
  }

  lemma CutOneMore(hot: Rows, pending: seq<Uuid>, config: RetentionConfig, held: set<Uuid>, aged: set<nat>,
                   cuts: seq<set<nat>>, cut: set<nat>)
    requires AreCuts(hot, pending, config, held, aged, cuts) && |cuts| < |pending|
    requires
      var gone := Gone(aged, cuts, |cuts|);
      Cut(hot - gone, config, pending[|cuts|], held, BudgetLeft(|gone|), cut)
    ensures AreCuts(hot, pending, config, held, aged, cuts + [cut])
    ensures Gone(aged, cuts + [cut], |cuts| + 1) == Gone(aged, cuts, |cuts|) + cut
  {
    hide CutAt, Cut, Gone;
    var more, n := cuts + [cut], |cuts|;
    forall i | 0 <= i < |more| ensures CutAt(hot, pending, config, held, aged, more, i) {
      if i < n {
        CutStays(hot, pending, config, held, aged, cuts, cut, i);
      } else {
        LastCut(hot, pending, config, held, aged, cuts, cut);
      }
    }
    GoneMore(aged, cuts, cut);
  }

  lemma GoneMore(aged: set<nat>, cuts: seq<set<nat>>, cut: set<nat>)
    ensures Gone(aged, cuts + [cut], |cuts| + 1) == Gone(aged, cuts, |cuts|) + cut
  {
    GoneAppend(aged, cuts, cut, |cuts|);
  }

  lemma CutStays(hot: Rows, pending: seq<Uuid>, config: RetentionConfig, held: set<Uuid>, aged: set<nat>,
                 cuts: seq<set<nat>>, cut: set<nat>, i: nat)
    requires i < |cuts| < |pending| && CutAt(hot, pending, config, held, aged, cuts, i)
    ensures CutAt(hot, pending, config, held, aged, cuts + [cut], i)
  {
    hide Cut, Gone;
    GoneAppend(aged, cuts, cut, i);
  }

  lemma LastCut(hot: Rows, pending: seq<Uuid>, config: RetentionConfig, held: set<Uuid>, aged: set<nat>,
                cuts: seq<set<nat>>, cut: set<nat>)
    requires |cuts| < |pending|
    requires
      var gone := Gone(aged, cuts, |cuts|);
      Cut(hot - gone, config, pending[|cuts|], held, BudgetLeft(|gone|), cut)
    ensures CutAt(hot, pending, config, held, aged, cuts + [cut], |cuts|)
  {
    hide Cut, Gone;
    GoneAppend(aged, cuts, cut, |cuts|);
  }

  /** Rows the trim may delete: old enough, or of a session over its cap. */
  ghost predicate TrimTarget(hot: Rows, config: RetentionConfig, now: int, id: nat)
    requires id in hot
  {
    TooOld(config, now, hot[id].line) || Crowded(hot, config, hot[id].session)
  }

  lemma FewerRows(hot: Rows, gone: set<nat>, sid: Uuid)
    ensures |HotOf(hot - gone, sid)| <= |HotOf(hot, sid)|
  {
    SubsetSize(HotOf(hot - gone, sid).Keys, HotOf(hot, sid).Keys);
    assert |HotOf(hot - gone, sid)| == |HotOf(hot - gone, sid).Keys|;
    assert |HotOf(hot, sid)| == |HotOf(hot, sid).Keys|;
  }

  /** The trim deletes only trim targets of sessions that are not held. */
  lemma {:induction false} TrimHitsTargets(hot: Rows, pending: seq<Uuid>, config: RetentionConfig, now: int,
                                           held: set<Uuid>, aged: set<nat>, cuts: seq<set<nat>>, n: nat)
    requires IsTrim(hot, pending, config, now, held, aged, cuts) && n <= |cuts|
    ensures forall id :: id in Gone(aged, cuts, n) ==>
      id in hot && hot[id].session !in held && TrimTarget(hot, config, now, id)
  {
    hide HotOf, Takes, Cut, Crowded, TooOld;
    assert n > 0 ==> CutAt(hot, pending, config, held, aged, cuts, n - 1);
    if n == 0 {
      AgedAreTargets(hot, config, now, held, aged);
    } else {
      TrimHitsTargets(hot, pending, config, now, held, aged, cuts, n - 1);
      var gone := Gone(aged, cuts, n - 1);
      CutHitsTargets(hot, gone, config, pending[n - 1], held, BudgetLeft(|gone|), cuts[n - 1]);
    }
  }

  lemma AgedAreTargets(hot: Rows, config: RetentionConfig, now: int, held: set<Uuid>, aged: set<nat>)
    requires Takes(AgedRows(hot, config, now, held), MAX_DELETES_PER_CYCLE, aged)
    ensures forall id :: id in aged ==> id in hot && hot[id].session !in held && TooOld(config, now, hot[id].line)
  {
  }

  lemma CutHitsTargets(hot: Rows, gone: set<nat>, config: RetentionConfig, sid: Uuid, held: set<Uuid>, budget: nat,
                       ids: set<nat>)
    requires Cut(hot - gone, config, sid, held, budget, ids)
    ensures forall id :: id in ids ==>
      id in hot && id !in gone && hot[id].session == sid && sid !in held && Crowded(hot, config, sid)
  {
    FewerRows(hot, gone, sid);
    if !Crowded(hot, config, sid) {
      assert sid !in held ==> |ids| == 0;
    }
  }

  // ---------------------------------------------------------------- what a session keeps

  /** The ids of a session's messages. */
  function RowsOf(hot: Rows, sid: Uuid): set<nat> {
    set id | id in hot && hot[id].session == sid
  }

  /** Every row left is at least as new as every row gone. */
  ghost predicate NewestLeft(hot: Rows, left: set<nat>, gone: set<nat>) {
    forall k, j :: k in left && j in gone && k in hot && j in hot ==> hot[j].line.createdAt <= hot[k].line.createdAt
  }

  /** One cut: a session within its cap keeps all its rows, one over it comes down to the cap, or as far
      towards it as the budget goes; the newest rows stay. */
  lemma CutKeepsNewest(hot: Rows, config: RetentionConfig, sid: Uuid, held: set<Uuid>, budget: nat, ids: set<nat>)
    requires Cut(hot, config, sid, held, budget, ids)
    ensures
      var mine, left := RowsOf(hot, sid), RowsOf(hot - ids, sid);
      && ids <= mine && left == mine - ids
      && |left| == (if sid in held || |mine| <= config.maxMessages then |mine|
                    else if |mine| - budget >= config.maxMessages then |mine| - budget
                    else config.maxMessages)
      && NewestLeft(hot, left, ids)
  {
    var mine, ages := RowsOf(hot, sid), SessionRows(hot, sid);
    assert mine == ages.Keys && mine == HotOf(hot, sid).Keys;
    assert ids <= mine && RowsOf(hot - ids, sid) == mine - ids;
    assert |HotOf(hot, sid)| == |HotOf(hot, sid).Keys|;
    assert |mine - ids| == |mine| - |ids|;
  }

  /** The cut of another session leaves this one's rows alone. */
  lemma CutOfAnother(hot: Rows, config: RetentionConfig, other: Uuid, sid: Uuid, held: set<Uuid>, budget: nat,
                     ids: set<nat>)
    requires Cut(hot, config, other, held, budget, ids) && sid != other
    ensures RowsOf(hot - ids, sid) == RowsOf(hot, sid)
  {
    CutKeepsNewest(hot, config, other, held, budget, ids);
  }

  /** What the age trim and the first n cuts have done to a session: never below its cap, the newest
      rows stay, and whoever has had its turn is at its cap, unless the budget is spent. */
  ghost predicate KeptSoFar(hot: Rows, pending: seq<Uuid>, config: RetentionConfig, held: set<Uuid>, aged: set<nat>,
                            gone: set<nat>, n: nat, sid: Uuid)
    requires n <= |pending|
  {
    var spared, left := RowsOf(hot - aged, sid), RowsOf(hot - gone, sid);
    && left <= spared
    && |left| >= Least(config.maxMessages, |spared|)
    && (sid in held || sid !in pending[..n] ==> left == spared)
    && (sid in pending[..n] && sid !in held && |gone| < MAX_DELETES_PER_CYCLE ==>
          |left| == Least(config.maxMessages, |spared|))
    && NewestLeft(hot, left, spared - left)
  }

  lemma CutKeepsSoFar(hot: Rows, pending: seq<Uuid>, config: RetentionConfig, held: set<Uuid>, aged: set<nat>,
                      gone: set<nat>, n: nat, sid: Uuid, cut: set<nat>)
    requires n < |pending| && KeptSoFar(hot, pending, config, held, aged, gone, n, sid)
    requires Cut(hot - gone, config, pending[n], held, BudgetLeft(|gone|), cut)
    requires |gone| + |cut| == |gone + cut|
    ensures KeptSoFar(hot, pending, config, held, aged, gone + cut, n + 1, sid)
  {
    hide Cut, RowsOf, NewestLeft;
    assert pending[..n + 1] == pending[..n] + [pending[n]];
    assert hot - (gone + cut) == hot - gone - cut;
    if pending[n] != sid {
      CutOfAnother(hot - gone, config, pending[n], sid, held, BudgetLeft(|gone|), cut);
    } else {
      CutKeepsNewest(hot - gone, config, sid, held, BudgetLeft(|gone|), cut);
      RowsAreHot(hot - gone, sid);
      RowsAreHot(hot - aged, sid);
      var left, left' := RowsOf(hot - gone, sid), RowsOf(hot - (gone + cut), sid);
      assert |cut| == |left| - |left'| by {
        assert left' + cut == left && left' !! cut;
      }
      StillNewest(hot, gone, RowsOf(hot - aged, sid), left, left', cut);
    }
  }

  lemma RowsAreHot(hot: Rows, sid: Uuid)
    ensures RowsOf(hot, sid) <= hot.Keys
  {
  }

  lemma StillNewest(hot: Rows, gone: set<nat>, spared: set<nat>, left: set<nat>, left': set<nat>, cut: set<nat>)
    requires spared <= hot.Keys && left <= spared && left <= (hot - gone).Keys && cut <= left && left' == left - cut
    requires NewestLeft(hot, left, spared - left) && NewestLeft(hot - gone, left', cut)
    ensures NewestLeft(hot, left', spared - left')
  {
  }

  lemma {:induction false} CutsKeep(hot: Rows, pending: seq<Uuid>, config: RetentionConfig, now: int, held: set<Uuid>,
                                    aged: set<nat>, cuts: seq<set<nat>>, n: nat, sid: Uuid)
    requires IsTrim(hot, pending, config, now, held, aged, cuts) && n <= |cuts|
    ensures KeptSoFar(hot, pending, config, held, aged, Gone(aged, cuts, n), n, sid)
  {
    hide Takes, Cut, AgedRows, KeptSoFar;
    if n == 0 {
      NothingCutYet(hot, pending, config, held, aged, sid);
    } else {
      CutsKeep(hot, pending, config, now, held, aged, cuts, n - 1, sid);
      assert CutAt(hot, pending, config, held, aged, cuts, n - 1);
      var gone := Gone(aged, cuts, n - 1);
      CutIsNew(hot, gone, config, pending[n - 1], held, BudgetLeft(|gone|), cuts[n - 1]);
      CutKeepsSoFar(hot, pending, config, held, aged, gone, n - 1, sid, cuts[n - 1]);
    }
  }

  lemma NothingCutYet(hot: Rows, pending: seq<Uuid>, config: RetentionConfig, held: set<Uuid>, aged: set<nat>,
                      sid: Uuid)
    ensures KeptSoFar(hot, pending, config, held, aged, aged, 0, sid)
  {
  }

  lemma CutIsNew(hot: Rows, gone: set<nat>, config: RetentionConfig, sid: Uuid, held: set<Uuid>, budget: nat,
                 cut: set<nat>)
    requires Cut(hot - gone, config, sid, held, budget, cut)
    ensures gone !! cut && |gone| + |cut| == |gone + cut|
  {
    assert gone !! cut;
  }

  /** What a trim from `before` to `after`, whose age rule took `aged`, leaves of a session: nothing but
      the age rule takes it below its cap; if it is held or not queued it keeps all that the age rule
      spared; if it is queued and fewer than a thousand rows were deleted in all, it keeps exactly as many
      as its cap allows; and of what the age rule spared, every row kept is at least as new as every row
      cut. */
  ghost predicate TrimKept(before: Rows, after: Rows, pending: seq<Uuid>, config: RetentionConfig, held: set<Uuid>,
                           aged: set<nat>, sid: Uuid)
  {
    var spared, left := RowsOf(before - aged, sid), RowsOf(after, sid);
    && left <= spared
    && |left| >= (if |spared| <= config.maxMessages then |spared| else config.maxMessages)
    && (sid in held || sid !in pending ==> left == spared)
    && (sid in pending && sid !in held && |before.Keys - after.Keys| < 1000 ==>
          |left| == if |spared| <= config.maxMessages then |spared| else config.maxMessages)
    && NewestLeft(before, left, spared - left)
  }

  lemma TrimKeepsNewest(hot: Rows, pending: seq<Uuid>, config: RetentionConfig, now: int, held: set<Uuid>,
                        aged: set<nat>, cuts: seq<set<nat>>, sid: Uuid)
    requires IsTrim(hot, pending, config, now, held, aged, cuts)
    ensures TrimKept(hot, hot - Gone(aged, cuts, |cuts|), pending, config, held, aged, sid)
  {
    CutsKeep(hot, pending, config, now, held, aged, cuts, |cuts|, sid);
    TrimHitsTargets(hot, pending, config, now, held, aged, cuts, |cuts|);
    var n := |cuts|;
    assert n == |pending|;
    hide IsTrim, KeptSoFar, TrimKept, TrimTarget, Gone;
    KeptInAll(hot, pending, config, held, aged, Gone(aged, cuts, n), sid);
  }

  lemma KeptInAll(hot: Rows, pending: seq<Uuid>, config: RetentionConfig, held: set<Uuid>, aged: set<nat>,
                  gone: set<nat>, sid: Uuid)
    requires KeptSoFar(hot, pending, config, held, aged, gone, |pending|, sid) && gone <= hot.Keys
    ensures TrimKept(hot, hot - gone, pending, config, held, aged, sid)
  {
    hide RowsOf, NewestLeft;
    assert pending[..|pending|] == pending && gone == hot.Keys - (hot - gone).Keys;
  }

  /** The messages past the cutoff of sessions that are not held. */
  function PastCutoff(hot: Rows, config: RetentionConfig, now: int, held: set<Uuid>): set<nat> {
    set id | id in hot && hot[id].session !in held && config.retentionDays > 0
             && hot[id].line.createdAt < now - config.retentionDays * 86400
  }

  /** The age trim takes all messages past the cutoff, or as many as the budget allows, oldest first. */
  lemma AgeTrimExact(hot: Rows, config: RetentionConfig, now: int, held: set<Uuid>, budget: nat, ids: set<nat>)
    requires Takes(AgedRows(hot, config, now, held), budget, ids)
    ensures
      var past := PastCutoff(hot, config, now, held);
      && ids <= past && |ids| == (if |past| <= budget then |past| else budget)
      && (forall k, j :: k in past && k !in ids && j in ids ==> hot[j].line.createdAt <= hot[k].line.createdAt)
  {
    assert AgedRows(hot, config, now, held).Keys == PastCutoff(hot, config, now, held);
  }

  /** The candidate sessions: those with a row past the cutoff and those over their cap, as far as the
      queries answer. */
  lemma AffectedExactly(hot: Rows, config: RetentionConfig, now: int, queries: Queries, sid: Uuid)
    ensures
      sid in Affected(hot, config, now, queries) <==>
        || (queries.age && config.retentionDays > 0
            && exists id :: id in hot && hot[id].session == sid
                 && hot[id].line.createdAt < now - config.retentionDays * 86400)
        || (queries.count && |RowsOf(hot, sid)| > config.maxMessages)
  {
    hide HotOf, RowsOf, Crowded;
    CrowdedExactly(hot, config, sid);
  }

  lemma CrowdedExactly(hot: Rows, config: RetentionConfig, sid: Uuid)
    ensures sid in CrowdedSessions(hot, config) <==> |RowsOf(hot, sid)| > config.maxMessages
  {
    assert HotOf(hot, sid).Keys == RowsOf(hot, sid);
    assert |HotOf(hot, sid)| == |HotOf(hot, sid).Keys|;
    hide HotOf;
    if |RowsOf(hot, sid)| > config.maxMessages {
      var id :| id in RowsOf(hot, sid);
      assert Crowded(hot, config, hot[id].session);
    }
  }

  // ---------------------------------------------------------------- what slips through

  /** A row that came of age between the candidate query and the trim. */
  predicate AgedMeanwhile(config: RetentionConfig, queriedAt: int, trimmedAt: int, line: Line) {
    !TooOld(config, queriedAt, line) && TooOld(config, trimmedAt, line)
  }

  /** A session that was within its cap at the candidate query and is over it at the trim. */
  predicate CrowdedMeanwhile(hot0: Rows, hot1: Rows, config: RetentionConfig, sid: Uuid) {
    !Crowded(hot0, config, sid) && Crowded(hot1, config, sid)
  }

  /** The rows the candidate queries did not see coming: the row itself, its age or its session's
      size is news, or the query that should have found it failed. `hot0` are the rows at the
      queries, `hot1` those at the trim. */
  predicate Slipped(hot0: Rows, hot1: Rows, config: RetentionConfig, queriedAt: int, trimmedAt: int,
                    queries: Queries, id: nat)
    requires id in hot1
  {
    || id !in hot0
    || AgedMeanwhile(config, queriedAt, trimmedAt, hot1[id].line)
    || CrowdedMeanwhile(hot0, hot1, config, hot1[id].session)
    || (!queries.age && TooOld(config, trimmedAt, hot1[id].line))
    || (!queries.count && Crowded(hot1, config, hot1[id].session))
  }

  /** Every trim target slipped through or is of a candidate session. */
  lemma TargetsAreCandidates(hot0: Rows, hot1: Rows, config: RetentionConfig, queriedAt: int, trimmedAt: int,
                             queries: Queries, id: nat)
    requires id in hot1 && TrimTarget(hot1, config, trimmedAt, id)
    requires id in hot0 ==> hot0[id] == hot1[id]
    ensures Slipped(hot0, hot1, config, queriedAt, trimmedAt, queries, id) ||
            (id in hot0 && hot1[id].session in Affected(hot0, config, queriedAt, queries))
  {
  }

  /** By the time of the trim, the candidates' rows, as they were at the queries, are archived, unless
      the freshness test overlooked them or their session is held. */
  predicate Vetted(w0: World, w1: World, candidates: set<Uuid>, held: set<Uuid>) {
    forall id :: id in w0.hot && id in w1.hot ==>
      && w0.hot[id] == w1.hot[id]
      && (w0.hot[id].session in candidates - held ==> id in w1.caught || Overlooked(w0, id))
  }

  /** The rows of a trim that slipped through, or that the freshness test overlooked, and that no archive
      pass has caught. */
  function SlippedLosses(w0: World, w1: World, config: RetentionConfig, queriedAt: int, trimmedAt: int,
                         queries: Queries, gone: set<nat>): set<nat>
  {
    set id | id in gone && id in w1.hot && id !in w1.caught
             && (Slipped(w0.hot, w1.hot, config, queriedAt, trimmedAt, queries, id) || Overlooked(w0, id))
  }

  /** The account of a whole cycle, age trim and count trim, held sessions and failed queries: it
      destroys exactly the rows it deletes that slipped through, or that the freshness test overlooked,
      and that no archive pass has caught. */
  lemma TrimLosesExactly(w0: World, w1: World, config: RetentionConfig, queriedAt: int, trimmedAt: int,
                         queries: Queries, held: set<Uuid>, pending: seq<Uuid>, aged: set<nat>, cuts: seq<set<nat>>)
    requires Basic(w1) && Vetted(w0, w1, Affected(w0.hot, config, queriedAt, queries), held)
    requires IsTrim(w1.hot, pending, config, trimmedAt, held, aged, cuts)
    ensures
      var gone := Gone(aged, cuts, |cuts|);
      Lost(w1.(hot := w1.hot - gone)) ==
        Lost(w1) + SlippedLosses(w0, w1, config, queriedAt, trimmedAt, queries, gone)
    ensures
      var gone := Gone(aged, cuts, |cuts|);
      NothingLost(w1.(hot := w1.hot - gone)) <==>
        NothingLost(w1) && SlippedLosses(w0, w1, config, queriedAt, trimmedAt, queries, gone) == {}
  {
    hide HotOf, Slipped, Overlooked, Affected, IsTrim, TrimTarget, Basic, Lost;
    var gone := Gone(aged, cuts, |cuts|);
    TrimHitsTargets(w1.hot, pending, config, trimmedAt, held, aged, cuts, |cuts|);
    PurgeLoses(w1, gone);
    forall id | id in gone && id !in w1.caught
      ensures Slipped(w0.hot, w1.hot, config, queriedAt, trimmedAt, queries, id) || Overlooked(w0, id)
    {
      TargetsAreCandidates(w0.hot, w1.hot, config, queriedAt, trimmedAt, queries, id);
    }
  }

  lemma PurgeLoses(w: World, ids: set<nat>)
    requires Basic(w)
    ensures Lost(w.(hot := w.hot - ids)) == Lost(w) + (ids * w.hot.Keys - w.caught)
  {
  }

  /** The same by history: after the trim that follows n steps, a message is lost exactly if it was
      lost before, or is a trimmed row that slipped through or that the freshness test overlooked, and
      none of the n steps was a pass that caught it. */
  lemma TrimLosesByHistory(trace: seq<World>, actions: seq<Action>, n: nat, w0: World, config: RetentionConfig,
                           queriedAt: int, trimmedAt: int, queries: Queries, held: set<Uuid>, pending: seq<Uuid>,
                           aged: set<nat>, cuts: seq<set<nat>>, id: nat)
    requires IsRun(trace, actions) && trace[0] == EMPTY && n <= |actions|
    requires Vetted(w0, trace[n], Affected(w0.hot, config, queriedAt, queries), held)
    requires IsTrim(trace[n].hot, pending, config, trimmedAt, held, aged, cuts)
    ensures
      var w1, gone := trace[n], Gone(aged, cuts, |cuts|);
      id in Lost(w1.(hot := w1.hot - gone)) <==>
        || id in Lost(w1)
        || (id in gone && id in w1.hot && !Caught(trace, actions, n, id)
            && (Slipped(w0.hot, w1.hot, config, queriedAt, trimmedAt, queries, id) || Overlooked(w0, id)))
  {
    hide Basic, Next, Enabled, Caught, Lost, IsTrim, Vetted, Slipped, Overlooked;
    StartSound();
    RunKeepsBasic(trace, actions, n, n);
    CaughtExactly(trace, actions, n, id);
    TrimLosesExactly(w0, trace[n], config, queriedAt, trimmedAt, queries, held, pending, aged, cuts);
  }

  // ---------------------------------------------------------------- each way of slipping through loses

  /** One session, one message, nothing archived yet. */
  ghost function OneMessage(sid: Uuid, user: Uuid, line: Line, now: int): (w: World)
    ensures Basic(w) && Reachable(EMPTY, w)
    ensures w.hot == map[line.id := Row(sid, line)] && w.store == map[]
    ensures w.ever == map[line.id := Entry(sid, user, line)] && w.sessions.Keys == {sid}
  {
    var a, b := Create(sid, user, now), Insert(sid, line);
    StartSound();
    StepKeepsBasic(EMPTY, a);
    StepKeepsBasic(Next(EMPTY, a), b);
    ReachSelf(EMPTY);
    ReachStep(EMPTY, EMPTY, a);
    ReachStep(EMPTY, Next(EMPTY, a), b);
    Next(Next(EMPTY, a), b)
  }

  lemma UnarchivedIsLost(w: World, gone: set<nat>, id: nat)
    requires w.store == map[] && id in w.ever && id in gone
    ensures id in Lost(w.(hot := w.hot - gone))
  {
  }

  lemma OneRow(sid: Uuid, line: Line)
    ensures HotOf(map[line.id := Row(sid, line)], sid) == map[line.id := line]
    ensures |HotOf(map[line.id := Row(sid, line)], sid)| == 1
  {
  }

  /** Whatever the trim does with a lone message past the cutoff, it deletes it. */
  lemma LoneAgedIsTrimmed(sid: Uuid, line: Line, pending: seq<Uuid>, config: RetentionConfig, now: int,
                          aged: set<nat>, cuts: seq<set<nat>>)
    requires IsTrim(map[line.id := Row(sid, line)], pending, config, now, {}, aged, cuts)
    requires TooOld(config, now, line)
    ensures line.id in aged
  {
  }

  lemma {:induction false} GoneGrows(aged: set<nat>, cuts: seq<set<nat>>, n: nat)
    requires n <= |cuts|
    ensures aged <= Gone(aged, cuts, n)
  {
    if n == 0 {
    } else {
      GoneGrows(aged, cuts, n - 1);
    }
  }

  /** A message that comes of age between the candidate queries and the trim: both queries answered,
      its session is no candidate, and any trim at the later time destroys the only copy. */
  lemma AgedMeanwhileIsLost(sid: Uuid, user: Uuid, line: Line, config: RetentionConfig, queriedAt: int, trimmedAt: int,
                            pending: seq<Uuid>, aged: set<nat>, cuts: seq<set<nat>>)
    requires AgedMeanwhile(config, queriedAt, trimmedAt, line) && config.maxMessages > 0
    requires IsTrim(map[line.id := Row(sid, line)], pending, config, trimmedAt, {}, aged, cuts)
    ensures
      var w := OneMessage(sid, user, line, 0);
      && Affected(w.hot, config, queriedAt, Queries(true, true, true)) == {}
      && line.id in Lost(w.(hot := w.hot - Gone(aged, cuts, |cuts|)))
  {
    hide Lost, Basic, Reachable, IsTrim, HotOf;
    OneRow(sid, line);
    LoneAgedIsTrimmed(sid, line, pending, config, trimmedAt, aged, cuts);
    GoneGrows(aged, cuts, |cuts|);
    UnarchivedIsLost(OneMessage(sid, user, line, 0), Gone(aged, cuts, |cuts|), line.id);
  }

  /** A failed age query leaves the candidate set empty but does not stop the age trim. */
  lemma FailedAgeQueryIsLost(sid: Uuid, user: Uuid, line: Line, config: RetentionConfig, now: int,
                             pending: seq<Uuid>, aged: set<nat>, cuts: seq<set<nat>>)
    requires TooOld(config, now, line) && config.maxMessages > 0
    requires IsTrim(map[line.id := Row(sid, line)], pending, config, now, {}, aged, cuts)
    ensures
      var w := OneMessage(sid, user, line, 0);
      && Affected(w.hot, config, now, Queries(false, true, true)) == {}
      && line.id in Lost(w.(hot := w.hot - Gone(aged, cuts, |cuts|)))
  {
    hide Lost, Basic, Reachable, IsTrim, HotOf;
    OneRow(sid, line);
    LoneAgedIsTrimmed(sid, line, pending, config, now, aged, cuts);
    GoneGrows(aged, cuts, |cuts|);
    UnarchivedIsLost(OneMessage(sid, user, line, 0), Gone(aged, cuts, |cuts|), line.id);
  }

  /** Two messages of one session. */
  function Two(sid: Uuid, a: Line, b: Line): Rows {
    map[a.id := Row(sid, a), b.id := Row(sid, b)]
  }

  lemma TwoRows(sid: Uuid, a: Line, b: Line)
    requires a.id != b.id
    ensures HotOf(Two(sid, a, b), sid).Keys == {a.id, b.id} && |HotOf(Two(sid, a, b), sid)| == 2
    ensures SessionRows(Two(sid, a, b), sid).Keys == {a.id, b.id}
  {
  }

  lemma NoAgeRule(hot: Rows, now: int, aged: set<nat>)
    requires Takes(AgedRows(hot, RetentionConfig(1, 0), now, {}), MAX_DELETES_PER_CYCLE, aged)
    ensures aged == {}
  {
  }

  lemma CutOfTwo(sid: Uuid, a: Line, b: Line, cut: set<nat>)
    requires a.id != b.id && Cut(Two(sid, a, b), RetentionConfig(1, 0), sid, {}, MAX_DELETES_PER_CYCLE, cut)
    ensures a.id in cut || b.id in cut
  {
    TwoRows(sid, a, b);
    assert |cut| == 1;
    var id :| id in cut;
  }

  /** With a cap of one and no age rule, the trim of two messages deletes one of them. */
  lemma OneOfTwoIsTrimmed(sid: Uuid, a: Line, b: Line, now: int, aged: set<nat>, cuts: seq<set<nat>>)
    requires a.id != b.id
    requires IsTrim(Two(sid, a, b), [sid], RetentionConfig(1, 0), now, {}, aged, cuts)
    ensures a.id in Gone(aged, cuts, |cuts|) || b.id in Gone(aged, cuts, |cuts|)
  {
    hide Cut, Takes, Two, AgedRows;
    NoAgeRule(Two(sid, a, b), now, aged);
    assert Gone(aged, cuts, 0) == {} && Two(sid, a, b) - {} == Two(sid, a, b);
    assert CutAt(Two(sid, a, b), [sid], RetentionConfig(1, 0), {}, aged, cuts, 0);
    CutOfTwo(sid, a, b, cuts[0]);
  }

  /** A session exactly at its cap is no candidate; one message arriving before the trim puts it over,
      and the trim, which counts anew, destroys the only copy of a message. */
  lemma CrowdedMeanwhileIsLost(sid: Uuid, user: Uuid, a: Line, b: Line, queriedAt: int, trimmedAt: int,
                               aged: set<nat>, cuts: seq<set<nat>>)
    requires a.id != b.id
    requires IsTrim(Two(sid, a, b), [sid], RetentionConfig(1, 0), trimmedAt, {}, aged, cuts)
    ensures
      var w0 := OneMessage(sid, user, a, 0);
      && Affected(w0.hot, RetentionConfig(1, 0), queriedAt, Queries(true, true, true)) == {}
      && Enabled(w0, Insert(sid, b))
      && var w1 := Next(w0, Insert(sid, b));
         w1.hot == Two(sid, a, b) && !NothingLost(w1.(hot := w1.hot - Gone(aged, cuts, |cuts|)))
  {
    hide Lost, Basic, Reachable, IsTrim, HotOf;
    OneRow(sid, a);
    OneOfTwoIsTrimmed(sid, a, b, trimmedAt, aged, cuts);
    var w1 := Next(OneMessage(sid, user, a, 0), Insert(sid, b));
    var gone := Gone(aged, cuts, |cuts|);
    UnarchivedIsLost(w1, gone, if a.id in gone then a.id else b.id);
  }

  /** A failed count query leaves the candidate set empty but does not stop the count trim. */
  lemma FailedCountQueryIsLost(sid: Uuid, user: Uuid, a: Line, b: Line, now: int, aged: set<nat>, cuts: seq<set<nat>>)
    requires a.id != b.id
    requires IsTrim(Two(sid, a, b), [sid], RetentionConfig(1, 0), now, {}, aged, cuts)
    ensures
      var w := Next(OneMessage(sid, user, a, 0), Insert(sid, b));
      && w.hot == Two(sid, a, b)
      && Affected(w.hot, RetentionConfig(1, 0), now, Queries(true, false, true)) == {}
      && !NothingLost(w.(hot := w.hot - Gone(aged, cuts, |cuts|)))
  {
    hide Lost, Basic, Reachable, IsTrim;
    CrowdedMeanwhileIsLost(sid, user, a, b, now, now, aged, cuts);
  }
}
