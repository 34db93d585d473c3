/** How fast the archive sweep drains its queue, and what a persistent failure does to it. */
module SweepProgress {
  import opened Wrappers
  import opened ObjectKeys
  import opened Durability
  import opened ArchiveService
  import opened OldestFirst
  import opened Retention

  type Sessions = map<Uuid, Session>

  /** One sweep in which every archive and stamp succeeds and nothing arrives: the sessions before and
      after. */
  ghost predicate CleanSweep(s: Sessions, s': Sessions, cutoff: int, now: int) {
    cutoff <= now && exists batch :: CleanBatch(s, s', cutoff, now, batch)
  }

  /** A clean sweep takes min(25, n) of the n eligible sessions off the queue, and nothing left
      on the queue has been idle longer than what was taken. */
  lemma SweepTakes(s: Sessions, s': Sessions, cutoff: int, now: int)
    requires CleanSweep(s, s', cutoff, now)
    ensures var before, after := EligibleAges(s, cutoff).Keys, EligibleAges(s', cutoff).Keys;
            && after <= before
            && |after| == |before| - Least(ARCHIVE_SWEEP_BATCH, |before|)
            && (forall taken, left :: taken in before - after && left in after ==>
                  s[taken].lastActivity <= s[left].lastActivity)
  {
    var batch :| CleanBatch(s, s', cutoff, now, batch);
    var before, after := EligibleAges(s, cutoff), EligibleAges(s', cutoff);
    StampedLeaves(s, batch, cutoff, now);
    DistinctSize<Uuid>(batch);
    assert SetOf<Uuid>(batch) <= before.Keys;
    assert |before.Keys - SetOf<Uuid>(batch)| == |before.Keys| - |batch|;
  }

  lemma StampedLeaves(s: Sessions, batch: seq<Uuid>, cutoff: int, now: int)
    requires cutoff <= now
    ensures EligibleAges(Stamped(s, SetOf(batch), now), cutoff).Keys ==
            EligibleAges(s, cutoff).Keys - SetOf<Uuid>(batch)
  {
  }

  /** Consecutive clean sweeps, with the cutoffs moving forward and nothing newly eligible. */
  ghost predicate SweepRun(hist: seq<Sessions>, cutoffs: seq<int>, nows: seq<int>) {
    && |hist| == |cutoffs| == |nows| > 0
    && (forall i :: 0 <= i < |hist| - 1 ==>
          CleanSweep(hist[i], hist[i + 1], cutoffs[i], nows[i]) && cutoffs[i] <= cutoffs[i + 1])
    && (forall i :: 0 <= i < |hist| ==>
          EligibleAges(hist[i], cutoffs[i]).Keys <= EligibleAges(hist[0], cutoffs[0]).Keys)
  }

  lemma {:induction false} RunKeeps(hist: seq<Sessions>, cutoffs: seq<int>, nows: seq<int>, k: nat)
    requires SweepRun(hist, cutoffs, nows) && k < |hist|
    ensures cutoffs[0] <= cutoffs[k] && hist[k].Keys == hist[0].Keys
    ensures forall sid :: sid in hist[0] ==> hist[k][sid].lastActivity == hist[0][sid].lastActivity
  {
    if k == 0 {
    } else {
      RunKeeps(hist, cutoffs, nows, k - 1);
      assert CleanSweep(hist[k - 1], hist[k], cutoffs[k - 1], nows[k - 1]);
    }
  }

  /** Between two sweeps only the cutoff moves, and that makes nothing eligible. */
  lemma SameQueue(hist: seq<Sessions>, cutoffs: seq<int>, nows: seq<int>, k: nat)
    requires SweepRun(hist, cutoffs, nows) && 0 < k < |hist|
    ensures EligibleAges(hist[k], cutoffs[k]).Keys == EligibleAges(hist[k], cutoffs[k - 1]).Keys
  {
    RunKeeps(hist, cutoffs, nows, k - 1);
    RunKeeps(hist, cutoffs, nows, k);
    assert CleanSweep(hist[k - 1], hist[k], cutoffs[k - 1], nows[k - 1]);
    var first := EligibleAges(hist[0], cutoffs[0]).Keys;
    forall sid | sid in EligibleAges(hist[k], cutoffs[k]) ensures sid in EligibleAges(hist[k], cutoffs[k - 1]) {
      assert sid in first;
    }
  }

  /** After k sweeps exactly max(0, n - 25 k) of n eligible sessions wait: the queue is empty
      after ceil(n / 25) sweeps and no sooner. */
  lemma {:induction false} QueueDrains(hist: seq<Sessions>, cutoffs: seq<int>, nows: seq<int>, k: nat)
    requires SweepRun(hist, cutoffs, nows) && k < |hist|
    ensures var n := |EligibleAges(hist[0], cutoffs[0]).Keys|;
            var left := |EligibleAges(hist[k], cutoffs[k]).Keys|;
            && left == (if n <= ARCHIVE_SWEEP_BATCH * k then 0 else n - ARCHIVE_SWEEP_BATCH * k)
            && (left == 0 <==> k >= (n + ARCHIVE_SWEEP_BATCH - 1) / ARCHIVE_SWEEP_BATCH)
  {
    if k == 0 {
    } else {
      QueueDrains(hist, cutoffs, nows, k - 1);
      assert CleanSweep(hist[k - 1], hist[k], cutoffs[k - 1], nows[k - 1]);
      SweepTakes(hist[k - 1], hist[k], cutoffs[k - 1], nows[k - 1]);
      SameQueue(hist, cutoffs, nows, k);
    }
  }

  /** The oldest n of a query stay the oldest n when the cutoff moves on, if they are all older than
      the rest and fill the batch. */
  lemma BatchStaysOldest(s: Sessions, cutoff: int, cutoff': int, batch: seq<Uuid>, next: seq<Uuid>, x: Uuid)
    requires cutoff <= cutoff' && |batch| == ARCHIVE_SWEEP_BATCH
    requires IsOldest(EligibleAges(s, cutoff), ARCHIVE_SWEEP_BATCH, batch)
    requires IsOldest(EligibleAges(s, cutoff'), ARCHIVE_SWEEP_BATCH, next)
    requires forall taken, left :: taken in batch && left in EligibleAges(s, cutoff) && left !in batch
               ==> s[taken].lastActivity < s[left].lastActivity
    requires x in next && x !in batch
    ensures SetOf(batch) <= SetOf(next)
  {
  }

  /** A sweep whose archives all fail changes no session. If its batch was full and had been idle
      strictly longer than the rest, the next sweep, at whatever later cutoff, picks the same batch:
      while those archives keep failing, no other session is ever tried. */
  lemma FailingHeadStarves(s: Sessions, cutoff: int, cutoff': int, batch: seq<Uuid>, next: seq<Uuid>)
    requires cutoff <= cutoff' && |batch| == ARCHIVE_SWEEP_BATCH
    requires IsOldest(EligibleAges(s, cutoff), ARCHIVE_SWEEP_BATCH, batch)
    requires IsOldest(EligibleAges(s, cutoff'), ARCHIVE_SWEEP_BATCH, next)
    requires forall taken, left :: taken in batch && left in EligibleAges(s, cutoff) && left !in batch
               ==> s[taken].lastActivity < s[left].lastActivity
    ensures SetOf(next) == SetOf(batch)
  {
    DistinctSize<Uuid>(batch);
    DistinctSize<Uuid>(next);
    var a, b := SetOf<Uuid>(batch), SetOf<Uuid>(next);
    FullAgain(s, cutoff, cutoff', batch, next);
    if b <= a {
      SameSize(b, a);
    } else {
      var x :| x in b && x !in a;
      BatchStaysOldest(s, cutoff, cutoff', batch, next, x);
      SameSize(a, b);
    }
  }

  lemma FullAgain(s: Sessions, cutoff: int, cutoff': int, batch: seq<Uuid>, next: seq<Uuid>)
    requires cutoff <= cutoff' && |batch| == ARCHIVE_SWEEP_BATCH
    requires IsOldest(EligibleAges(s, cutoff), ARCHIVE_SWEEP_BATCH, batch)
    requires IsOldest(EligibleAges(s, cutoff'), ARCHIVE_SWEEP_BATCH, next)
    ensures |next| == |batch|
  {
    var a, b := EligibleAges(s, cutoff).Keys, EligibleAges(s, cutoff').Keys;
    assert a <= b;
    assert |b| == |a| + |b - a|;
  }

  lemma SameSize<T>(a: set<T>, b: set<T>)
    requires a <= b && |a| == |b|
    ensures a == b
  {
    assert |b - a| == |b| - |a|;
  }
}
