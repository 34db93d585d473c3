/** Any number of archivers at work on one archive, their reads and writes interleaved: when the archive
    stays consistent and no transcript shrinks, and what overlapping archivers can break. */
module ArchiveWriters {
  import opened Wrappers
  import opened ObjectKeys
  import opened Transcripts
  import opened ArchiveStore

  /** What an archiver is about to write: the transcript it merged and the manifest to go with it. */
  datatype Draft = Draft(u: Uuid, s: Uuid, merged: seq<Line>, manifest: ManifestBody)

  /** The objects, the archivers' drafts, and who holds the manifest lock. The lock covers the two
      writes of a pass and the history's rewrite of a manifest, not the reading and merging. */
  datatype State = State(store: Store, drafts: map<nat, Draft>, holder: Option<nat>)

  datatype Event =
    | ReadOld(r: nat, u: Uuid, s: Uuid, rows: seq<Line>, transcripts: bool, userMessages: nat, now: int)
    | PutTranscript(r: nat)
    | PutManifest(r: nat)
    | Fail(r: nat)
    | FillCount(u: Uuid, s: Uuid, count: nat)
    | StoreMedia(u: Uuid, s: Uuid, media: Uuid, kind: string, data: string, budget: nat)

  const NO_OBJECTS := State(map[], map[], None)

  predicate Enabled(st: State, e: Event) {
    match e
    case ReadOld(r, _, _, _, _, _, _) => r !in st.drafts
    case PutTranscript(r) => r in st.drafts && st.drafts[r].manifest.transcript.Some? && st.holder.None?
    case PutManifest(r) =>
      r in st.drafts && st.holder == (if st.drafts[r].manifest.transcript.Some? then Some(r) else None)
    case Fail(r) => r in st.drafts
    case FillCount(_, _, _) => st.holder.None?
    case StoreMedia(_, _, _, _, _, _) => true
  }

  ghost function Next(st: State, e: Event): State
    requires Enabled(st, e)
  {
    match e
    case ReadOld(r, u, s, rows, transcripts, users, now) =>
      (match ReadTranscriptLines(st.store, u, s)
       case Err => st
       case Ok(existing) =>
         var merged := Merge(if existing.Some? then existing.value else [], rows);
         st.(drafts := st.drafts[r := Draft(u, s, merged, ManifestOf(u, s, merged, transcripts, users, now))]))
    case PutTranscript(r) =>
      var d := st.drafts[r];
      st.(store := st.store[Transcript(d.u, d.s) := Compressed(ZSTD, d.merged)], holder := Some(r))
    case PutManifest(r) =>
      var d := st.drafts[r];
      State(st.store[Manifest(d.u, d.s) := ManifestJson(d.manifest)], st.drafts - {r}, None)
    case Fail(r) => st.(drafts := st.drafts - {r}, holder := if st.holder == Some(r) then None else st.holder)
    case FillCount(u, s, count) => st.(store := Backfill(st.store, u, s, count))
    case StoreMedia(u, s, media, kind, data, budget) =>
      st.(store := Put(st.store, MediaPuts(u, s, media, kind, data), Least(budget, 2)))
  }

  /** A history of single reads and writes by any number of archivers, any of which may fail anywhere. */
  ghost predicate IsRun(trace: seq<State>, events: seq<Event>) {
    && |trace| == |events| + 1 && trace[0] == NO_OBJECTS
    && (forall i :: 0 <= i < |events| ==> Enabled(trace[i], events[i]) && trace[i + 1] == Next(trace[i], events[i]))
  }

  ghost predicate DraftOk(d: Draft) {
    && IsTranscript(d.merged)
    && var t := d.manifest.transcript;
       t.Some? ==>
         && t.value.objectKey == Transcript(d.u, d.s) && t.value.compression == ZSTD
         && t.value.messageCount == |d.merged| == Sum(d.manifest.messageCounts)
  }

  /** Between the two writes of a pass its own transcript is the one stored. */
  ghost predicate HolderOk(st: State) {
    st.holder.Some? ==>
      && st.holder.value in st.drafts
      && var d := st.drafts[st.holder.value];
         && d.manifest.transcript.Some? && Transcript(d.u, d.s) in st.store
         && st.store[Transcript(d.u, d.s)] == Compressed(ZSTD, d.merged)
  }

  ghost predicate Inv(st: State) {
    Consistent(st.store) && HolderOk(st) && forall r :: r in st.drafts ==> DraftOk(st.drafts[r])
  }

  /** The archived transcript of every session only gains ids. */
  ghost predicate Grows(store: Store, store': Store) {
    forall u: Uuid, s: Uuid :: ById(Lines(store, u, s)).Keys <= ById(Lines(store', u, s)).Keys
  }

  /** The transcript about to be written has every id that is archived at that moment. */
  ghost predicate Covers(st: State, r: nat)
    requires r in st.drafts
  {
    ById(Lines(st.store, st.drafts[r].u, st.drafts[r].s)).Keys <= ById(st.drafts[r].merged).Keys
  }

  ghost predicate Covering(st: State, e: Event) {
    e.PutTranscript? && e.r in st.drafts ==> Covers(st, e.r)
  }

  lemma ReadSafe(st: State, e: Event)
    requires Inv(st) && e.ReadOld? && Enabled(st, e)
    ensures Inv(Next(st, e)) && Next(st, e).store == st.store
    ensures
      e.r in Next(st, e).drafts && Covers(Next(st, e), e.r)
      && Next(st, e).drafts[e.r].u == e.u && Next(st, e).drafts[e.r].s == e.s
  {
    assert SessionOk(st.store, e.u, e.s);
    ReadsBack(st.store, e.u, e.s);
    var merged := Merge(Lines(st.store, e.u, e.s), e.rows);
    MergedIsLonger(Lines(st.store, e.u, e.s), e.rows);
    RoleCountsExact(merged, |merged|);
  }

  lemma TranscriptPut(store: Store, u: Uuid, s: Uuid, merged: seq<Line>)
    requires Consistent(store)
    ensures
      var store' := store[Transcript(u, s) := Compressed(ZSTD, merged)];
      && OnlyTouches(store, store', u, s) && Lines(store', u, s) == merged
      && (forall m: Uuid :: MediaOk(store', u, s, m))
  {
    var store' := store[Transcript(u, s) := Compressed(ZSTD, merged)];
    assert SessionOk(store, u, s);
    forall m: Uuid ensures MediaOk(store', u, s, m) {
      assert MediaOk(store, u, s, m);
    }
  }

  /** How many lines the stored manifest counts, if it names a transcript. */
  function Counted(store: Store, u: Uuid, s: Uuid): nat {
    if Manifest(u, s) in store && store[Manifest(u, s)].ManifestJson? && store[Manifest(u, s)].manifest.transcript.Some?
    then store[Manifest(u, s)].manifest.transcript.value.messageCount
    else 0
  }

  /** Writing a transcript keeps the archive consistent exactly if it is as long as the manifest beside
      it counts. */
  lemma PutConsistentExactly(st: State, r: nat)
    requires Inv(st) && Enabled(st, PutTranscript(r))
    ensures
      var d := st.drafts[r];
      Consistent(Next(st, PutTranscript(r)).store) <==> Counted(st.store, d.u, d.s) <= |d.merged|
  {
    var d, store' := st.drafts[r], Next(st, PutTranscript(r)).store;
    TranscriptPut(st.store, d.u, d.s, d.merged);
    assert SessionOk(st.store, d.u, d.s);
    if Counted(st.store, d.u, d.s) <= |d.merged| {
      assert SessionOk(store', d.u, d.s);
      OneSessionSafe(st.store, store', d.u, d.s);
    } else {
      assert !SessionOk(store', d.u, d.s);
    }
  }

  /** It loses no archived id exactly if it has every id that is archived at that moment. */
  lemma PutGrowsExactly(st: State, r: nat)
    requires Inv(st) && Enabled(st, PutTranscript(r))
    ensures Grows(st.store, Next(st, PutTranscript(r)).store) <==> Covers(st, r)
  {
    var d, store' := st.drafts[r], Next(st, PutTranscript(r)).store;
    TranscriptPut(st.store, d.u, d.s, d.merged);
    forall u: Uuid, s: Uuid | (u, s) != (d.u, d.s) ensures Lines(store', u, s) == Lines(st.store, u, s) {
      OthersKept(st.store, store', d.u, d.s, u, s);
    }
  }

  lemma CoversCounts(st: State, r: nat)
    requires Inv(st) && r in st.drafts && Covers(st, r)
    ensures Counted(st.store, st.drafts[r].u, st.drafts[r].s) <= |st.drafts[r].merged|
  {
    var d := st.drafts[r];
    assert SessionOk(st.store, d.u, d.s);
    ReadsBack(st.store, d.u, d.s);
    var lines := Lines(st.store, d.u, d.s);
    IndexSize(lines, |lines|);
    IndexSize(d.merged, |d.merged|);
    SubsetSize(ById(lines).Keys, ById(d.merged).Keys);
  }

  lemma PutTranscriptSafe(st: State, e: Event)
    requires Inv(st) && e.PutTranscript? && Enabled(st, e) && Covers(st, e.r)
    ensures Inv(Next(st, e)) && Grows(st.store, Next(st, e).store)
  {
    hide Consistent, Grows, Covers, DraftOk;
    CoversCounts(st, e.r);
    PutConsistentExactly(st, e.r);
    PutGrowsExactly(st, e.r);
  }

  lemma PutManifestSafe(st: State, e: Event)
    requires Inv(st) && e.PutManifest? && Enabled(st, e)
    ensures Inv(Next(st, e)) && Grows(st.store, Next(st, e).store)
  {
    var d, store' := st.drafts[e.r], Next(st, e).store;
    assert SessionOk(st.store, d.u, d.s) && DraftOk(d);
    ReadsBack(st.store, d.u, d.s);
    assert SessionOk(store', d.u, d.s);
    ReadsBack(store', d.u, d.s);
    forall m: Uuid ensures MediaOk(store', d.u, d.s, m) {
      assert MediaOk(st.store, d.u, d.s, m);
    }
    OneSessionSafe(st.store, store', d.u, d.s);
  }

  lemma FillSafe(st: State, e: Event)
    requires Inv(st) && e.FillCount? && Enabled(st, e)
    ensures Inv(Next(st, e)) && Grows(st.store, Next(st, e).store)
  {
    var store' := Next(st, e).store;
    assert SessionOk(st.store, e.u, e.s);
    BackfillSafe(st.store, e.u, e.s, e.count);
    forall m: Uuid ensures MediaOk(store', e.u, e.s, m) {
      assert MediaOk(st.store, e.u, e.s, m);
    }
    hide Backfill, SessionOk, MediaOk, OnlyTouches;
    OneSessionSafe(st.store, store', e.u, e.s);
  }

  lemma MediaSafe(st: State, e: Event)
    requires Inv(st) && e.StoreMedia? && Enabled(st, e)
    ensures Inv(Next(st, e)) && Grows(st.store, Next(st, e).store)
  {
    var store' := Next(st, e).store;
    assert SessionOk(st.store, e.u, e.s);
    StoreMediaSafe(st.store, e.u, e.s, e.media, e.kind, e.data, Least(e.budget, 2));
    forall m: Uuid ensures MediaOk(store', e.u, e.s, m) {
      assert MediaOk(st.store, e.u, e.s, m);
    }
    OneSessionSafe(st.store, store', e.u, e.s);
    if st.holder.Some? {
      var d := st.drafts[st.holder.value];
      MediaOnly(st.store, e, Transcript(d.u, d.s));
    }
  }

  /** Every step, if the transcript it writes covers what is archived, keeps the archive consistent and
      loses no archived id. */
  lemma StepSafe(st: State, e: Event)
    requires Inv(st) && Enabled(st, e) && Covering(st, e)
    ensures Inv(Next(st, e)) && Grows(st.store, Next(st, e).store)
  {
    hide Consistent, HolderOk, DraftOk, Covers, Put, Backfill, Merge;
    match e
    case ReadOld(_, _, _, _, _, _, _) => ReadSafe(st, e);
    case PutTranscript(_) => PutTranscriptSafe(st, e);
    case PutManifest(_) => PutManifestSafe(st, e);
    case Fail(_) => FailSafe(st, e);
    case FillCount(_, _, _) => FillSafe(st, e);
    case StoreMedia(_, _, _, _, _, _) => MediaSafe(st, e);
  }

  lemma FailSafe(st: State, e: Event)
    requires Inv(st) && e.Fail? && Enabled(st, e)
    ensures Inv(Next(st, e)) && Next(st, e).store == st.store
  {
  }

  /** Crash consistency over whole histories, at every single write: whatever archivers overlap, over
      whatever sessions and rows, with transcripts on or off, each failing anywhere, interleaved with
      media uploads and count backfills, if every transcript written covers what is archived by then,
      every object is readable, a manifest never counts more lines than the transcript beside it
      holds, and a sidecar never lacks its blob. */
  lemma {:induction false} AlwaysConsistent(trace: seq<State>, events: seq<Event>, n: nat)
    requires IsRun(trace, events) && n <= |events|
    requires forall i :: 0 <= i < n ==> Covering(trace[i], events[i])
    ensures Inv(trace[n]) && Consistent(trace[n].store)
  {
    hide Next, Enabled, Covering, DraftOk, HolderOk;
    if n == 0 {
      NothingStored();
    } else {
      AlwaysConsistent(trace, events, n - 1);
      StepSafe(trace[n - 1], events[n - 1]);
    }
  }

  lemma NothingStored()
    ensures Inv(NO_OBJECTS)
  {
  }

  /** And no continuation of such a history loses an archived message id. */
  lemma {:induction false} NeverShrinks(trace: seq<State>, events: seq<Event>, i: nat, j: nat)
    requires IsRun(trace, events) && i <= j <= |events|
    requires forall k :: 0 <= k < j ==> Covering(trace[k], events[k])
    ensures Grows(trace[i].store, trace[j].store)
    decreases j - i
  {
    hide Next, Enabled, Covering, Inv, Lines;
    if i == j {
    } else {
      NeverShrinks(trace, events, i, j - 1);
      AlwaysConsistent(trace, events, j - 1);
      StepSafe(trace[j - 1], events[j - 1]);
    }
  }

  // ---------------------------------------------------------------- when transcripts cover

  /** This step writes a transcript of the session. */
  predicate Writes(st: State, e: Event, u: Uuid, s: Uuid) {
    e.PutTranscript? && e.r in st.drafts && st.drafts[e.r].u == u && st.drafts[e.r].s == s
  }

  /** Since the archiver that writes at j read the old transcript, nobody wrote another. */
  ghost predicate Undisturbed(trace: seq<State>, events: seq<Event>, j: nat)
    requires IsRun(trace, events) && j < |events| && events[j].PutTranscript?
  {
    exists i :: 0 <= i < j && ReadAt(trace, events, i, j)
  }

  ghost predicate ReadAt(trace: seq<State>, events: seq<Event>, i: nat, j: nat)
    requires IsRun(trace, events) && i < j < |events| && events[j].PutTranscript?
  {
    && events[i].ReadOld? && events[i].r == events[j].r && events[j].r in trace[i + 1].drafts
    && (forall k :: i < k <= j ==>
          && events[j].r in trace[k].drafts && trace[k].drafts[events[j].r] == trace[i + 1].drafts[events[j].r])
    && (forall k :: i < k < j ==> !Writes(trace[k], events[k], events[i].u, events[i].s))
  }

  /** Only a transcript write changes what is archived for a session. */
  lemma OthersKeepLines(st: State, e: Event, u: Uuid, s: Uuid)
    requires Inv(st) && Enabled(st, e) && Covering(st, e) && !Writes(st, e, u, s)
    ensures Lines(Next(st, e).store, u, s) == Lines(st.store, u, s)
  {
    StepSafe(st, e);
    var store' := Next(st, e).store;
    assert SessionOk(st.store, u, s) && SessionOk(store', u, s);
    ReadsBack(st.store, u, s);
    ReadsBack(store', u, s);
    assert Transcript(u, s) in st.store <==> Transcript(u, s) in store' by {
      SameTranscript(st, e, u, s);
    }
    SameTranscript(st, e, u, s);
  }

  lemma SameTranscript(st: State, e: Event, u: Uuid, s: Uuid)
    requires Enabled(st, e) && !Writes(st, e, u, s)
    ensures
      var k, store' := Transcript(u, s), Next(st, e).store;
      (k in st.store <==> k in store') && (k in st.store ==> store'[k] == st.store[k])
  {
    if e.StoreMedia? {
      MediaOnly(st.store, e, Transcript(u, s));
    }
  }

  lemma MediaOnly(store: Store, e: Event, k: Key)
    requires e.StoreMedia? && k.Transcript?
    ensures
      var store' := Put(store, MediaPuts(e.u, e.s, e.media, e.kind, e.data), Least(e.budget, 2));
      (k in store <==> k in store') && (k in store ==> store'[k] == store[k])
  {
    var puts := MediaPuts(e.u, e.s, e.media, e.kind, e.data);
    assert Put(store, puts, 1) == store[puts[0].0 := puts[0].1];
  }

  lemma {:induction false} LinesStay(trace: seq<State>, events: seq<Event>, i: nat, j: nat, u: Uuid, s: Uuid)
    requires IsRun(trace, events) && i <= j <= |events|
    requires forall k :: 0 <= k < j ==> Covering(trace[k], events[k])
    requires forall k :: i <= k < j ==> !Writes(trace[k], events[k], u, s)
    ensures Lines(trace[j].store, u, s) == Lines(trace[i].store, u, s)
    decreases j - i
  {
    hide Next, Enabled, Covering, Inv, Lines, Writes;
    if i == j {
    } else {
      LinesStay(trace, events, i, j - 1, u, s);
      AlwaysConsistent(trace, events, j - 1);
      OthersKeepLines(trace[j - 1], events[j - 1], u, s);
    }
  }

  lemma UndisturbedCovers(trace: seq<State>, events: seq<Event>, i: nat, j: nat)
    requires IsRun(trace, events) && i < j < |events| && events[j].PutTranscript? && ReadAt(trace, events, i, j)
    requires forall k :: 0 <= k < j ==> Covering(trace[k], events[k])
    ensures Covering(trace[j], events[j])
  {
    hide Inv, Lines, Covering, Next, Enabled;
    var e := events[i];
    AlwaysConsistent(trace, events, i);
    ReadSafe(trace[i], e);
    LinesStay(trace, events, i + 1, j, e.u, e.s);
    assert trace[i + 1] == Next(trace[i], e);
    SameDraftCovers(trace[i + 1], trace[j], events[j]);
  }

  lemma SameDraftCovers(st: State, st': State, e: Event)
    requires e.PutTranscript? && e.r in st.drafts && e.r in st'.drafts && st'.drafts[e.r] == st.drafts[e.r]
    requires Covers(st, e.r)
    requires Lines(st'.store, st.drafts[e.r].u, st.drafts[e.r].s) == Lines(st.store, st.drafts[e.r].u, st.drafts[e.r].s)
    ensures Covering(st', e)
  {
  }

  /** Passes that do not overlap on a session are always safe: if nobody writes a session's transcript
      between an archiver's read and its write, every transcript written covers what is archived. */
  lemma {:induction false} SerialPassesCover(trace: seq<State>, events: seq<Event>, n: nat)
    requires IsRun(trace, events) && n <= |events|
    requires forall j :: 0 <= j < n && events[j].PutTranscript? ==> Undisturbed(trace, events, j)
    ensures forall j :: 0 <= j < n ==> Covering(trace[j], events[j])
  {
    hide Next, Enabled, Covers;
    if n == 0 {
    } else {
      SerialPassesCover(trace, events, n - 1);
      if events[n - 1].PutTranscript? {
        var i :| 0 <= i < n - 1 && ReadAt(trace, events, i, n - 1);
        UndisturbedCovers(trace, events, i, n - 1);
      }
    }
  }

  // ---------------------------------------------------------------- what does occur

  lemma ReadEmpty(st: State, e: Event)
    requires st.store == map[] && e.ReadOld? && Enabled(st, e)
    ensures
      var merged := Merge([], e.rows);
      var d := Draft(e.u, e.s, merged, ManifestOf(e.u, e.s, merged, e.transcripts, e.userMessages, e.now));
      Next(st, e) == st.(drafts := st.drafts[e.r := d])
  {
  }

  /** What one whole pass leaves. */
  function Written(u: Uuid, s: Uuid, merged: seq<Line>, now: int): Store {
    map[Transcript(u, s) := Compressed(ZSTD, merged),
        Manifest(u, s) := ManifestJson(ManifestOf(u, s, merged, true, 0, now))]
  }

  lemma ReadWritten(st: State, e: Event, merged: seq<Line>, now: int)
    requires e.ReadOld? && Enabled(st, e) && st.store == Written(e.u, e.s, merged, now) && merged != []
    ensures Lines(st.store, e.u, e.s) == merged && Counted(st.store, e.u, e.s) == |merged|
    ensures
      var more := Merge(merged, e.rows);
      var d := Draft(e.u, e.s, more, ManifestOf(e.u, e.s, more, e.transcripts, e.userMessages, e.now));
      Next(st, e) == st.(drafts := st.drafts[e.r := d])
  {
  }

  lemma FirstPass(u: Uuid, s: Uuid, a: Line) returns (trace: seq<State>, events: seq<Event>)
    ensures IsRun(trace, events) && |events| == 3 && forall i :: 0 <= i < 3 ==> Covering(trace[i], events[i])
    ensures trace[3] == State(Written(u, s, Merge([], [a]), 1), map[], None)
  {
    hide Merge, RoleCounts, Backfill;
    var first := ReadOld(0, u, s, [a], true, 0, 1);
    ReadEmpty(NO_OBJECTS, first);
    ManifestNames(u, s, [a], 1);
    var s1 := Next(NO_OBJECTS, first);
    var s2 := Next(s1, PutTranscript(0));
    var s3 := Next(s2, PutManifest(0));
    trace, events := [NO_OBJECTS, s1, s2, s3], [first, PutTranscript(0), PutManifest(0)];
  }

  /** An old manifest beside a newer, longer transcript does occur: a pass that stops between its writes. */
  lemma StaleManifestOccurs(u: Uuid, s: Uuid, a: Line, b: Line) returns (trace: seq<State>, events: seq<Event>)
    requires a.id != b.id
    ensures IsRun(trace, events) && |events| == 6 && forall i :: 0 <= i < 6 ==> Covering(trace[i], events[i])
    ensures Counted(trace[6].store, u, s) == 1 && |Lines(trace[6].store, u, s)| == 2 && trace[6].holder.None?
  {
    hide Merge, RoleCounts, Backfill;
    trace, events := FirstPass(u, s, a);
    OneThenTwo(a, b);
    var s3, second, one := trace[3], ReadOld(0, u, s, [b], true, 0, 2), Merge([], [a]);
    ReadWritten(s3, second, one, 1);
    MergedIsLonger(one, [b]);
    var s4 := Next(s3, second);
    var s5 := Next(s4, PutTranscript(0));
    var s6 := Next(s5, Fail(0));
    trace, events := trace + [s4, s5, s6], events + [second, PutTranscript(0), Fail(0)];
  }

  /** Two archivers have merged. */
  lemma BothRead(u: Uuid, s: Uuid, a: Line, b: Line) returns (trace: seq<State>, events: seq<Event>)
    ensures IsRun(trace, events) && |events| == 2 && events[0].ReadOld? && events[1].ReadOld?
    ensures
      var one, both := Merge([], [a]), Merge([], [a, b]);
      trace[2] == State(map[], map[0 := Draft(u, s, one, ManifestOf(u, s, one, true, 0, 1)),
                                   1 := Draft(u, s, both, ManifestOf(u, s, both, true, 0, 2))], None)
  {
    hide Merge, RoleCounts;
    var first, second := ReadOld(0, u, s, [a], true, 0, 1), ReadOld(1, u, s, [a, b], true, 0, 2);
    ReadEmpty(NO_OBJECTS, first);
    var s1 := Next(NO_OBJECTS, first);
    ReadEmpty(s1, second);
    trace, events := [NO_OBJECTS, s1, Next(s1, second)], [first, second];
  }

  /** And the second has written all of its pass. */
  lemma Overlap(u: Uuid, s: Uuid, a: Line, b: Line) returns (trace: seq<State>, events: seq<Event>)
    ensures IsRun(trace, events) && |events| == 4 && Inv(trace[4])
    ensures
      var one, both, st := Merge([], [a]), Merge([], [a, b]), trace[4];
      && st.drafts == map[0 := Draft(u, s, one, ManifestOf(u, s, one, true, 0, 1))] && st.holder.None?
      && st.store == Written(u, s, both, 2)
  {
    hide Merge, Inv, ManifestOf, Next, Enabled;
    trace, events := BothRead(u, s, a, b);
    ManifestNames(u, s, [a, b], 2);
    BothWrites(trace[2], 1);
    var s3 := Next(trace[2], PutTranscript(1));
    var s4 := Next(s3, PutManifest(1));
    trace, events := trace + [s3, s4], events + [PutTranscript(1), PutManifest(1)];
    FirstFourCover(trace, events);
  }

  lemma BothWrites(st: State, r: nat)
    requires r in st.drafts && st.drafts[r].manifest.transcript.Some? && st.holder.None?
    ensures
      var d := st.drafts[r];
      Enabled(st, PutTranscript(r)) &&
      var halfway := Next(st, PutTranscript(r));
      && Enabled(halfway, PutManifest(r))
      && Next(halfway, PutManifest(r)) ==
           State(st.store[Transcript(d.u, d.s) := Compressed(ZSTD, d.merged)]
                   [Manifest(d.u, d.s) := ManifestJson(d.manifest)], st.drafts - {r}, None)
  {
  }

  lemma ManifestNames(u: Uuid, s: Uuid, rows: seq<Line>, now: int)
    requires rows != []
    ensures ManifestOf(u, s, Merge([], rows), true, 0, now).transcript.Some?
  {
    hide RoleCounts, Merge;
    MergeNeverShrinks([], rows);
    IndexSound(rows, |rows|);
    assert rows[0].id in ById([]).Keys + ById(rows).Keys;
  }

  lemma FirstFourCover(trace: seq<State>, events: seq<Event>)
    requires IsRun(trace, events) && |events| == 4
    requires trace[2].store == map[] && events[0].ReadOld? && events[1].ReadOld? && events[3].PutManifest?
    ensures Inv(trace[4])
  {
    AlwaysConsistent(trace, events, 4);
  }

  /** So does the reverse, and a transcript that shrinks, when archivers overlap: one merges a message,
      another archives two, and the first then writes its transcript and fails. */
  lemma OverlapBreaks(u: Uuid, s: Uuid, a: Line, b: Line) returns (trace: seq<State>, events: seq<Event>)
    requires a.id != b.id
    ensures IsRun(trace, events) && |events| == 6 && Inv(trace[4])
    ensures Counted(trace[6].store, u, s) == 2 && |Lines(trace[6].store, u, s)| == 1
    ensures !Consistent(trace[6].store) && !Grows(trace[4].store, trace[6].store) && trace[6].drafts == map[]
  {
    hide Merge, Inv, RoleCounts, Backfill, Consistent, Grows, Written;
    trace, events := Overlap(u, s, a, b);
    ManifestNames(u, s, [a], 1);
    var s4 := trace[4];
    var s5 := Next(s4, PutTranscript(0));
    var s6 := Next(s5, Fail(0));
    trace, events := trace + [s5, s6], events + [PutTranscript(0), Fail(0)];
    Shrunk(s4.store, s6.store, u, s, a, b);
  }

  lemma Shrunk(store: Store, store': Store, u: Uuid, s: Uuid, a: Line, b: Line)
    requires a.id != b.id && store == Written(u, s, Merge([], [a, b]), 2)
    requires store' == store[Transcript(u, s) := Compressed(ZSTD, Merge([], [a]))]
    ensures Counted(store', u, s) == 2 && |Lines(store', u, s)| == 1 && !Consistent(store') && !Grows(store, store')
  {
    hide Merge, RoleCounts;
    OneAndTwo(a, b);
    assert !SessionOk(store', u, s);
    assert b.id in ById(Lines(store, u, s)) && b.id !in ById(Lines(store', u, s));
  }

  lemma OneAndTwo(a: Line, b: Line)
    requires a.id != b.id
    ensures |Merge([], [a])| == 1 && |Merge([], [a, b])| == 2
    ensures b.id !in ById(Merge([], [a])) && b.id in ById(Merge([], [a, b]))
  {
    IndexOfOne(a);
    assert Index([a, b], 1) == map[a.id := a];
    assert ById([a, b]) == map[a.id := a, b.id := b];
    MergeNeverShrinks([], [a]);
    MergeNeverShrinks([], [a, b]);
    assert ById([]).Keys + ById([a]).Keys == {a.id};
    assert ById([]).Keys + ById([a, b]).Keys == {a.id, b.id};
  }

  lemma OneThenTwo(a: Line, b: Line)
    requires a.id != b.id
    ensures |Merge([], [a])| == 1 && |Merge(Merge([], [a]), [b])| == 2
  {
    var one := Merge([], [a]);
    IndexOfOne(a);
    IndexOfOne(b);
    MergeNeverShrinks([], [a]);
    MergeNeverShrinks(one, [b]);
    assert ById([]).Keys + ById([a]).Keys == {a.id};
    assert ById(one).Keys + ById([b]).Keys == {a.id, b.id};
  }

  lemma IndexOfOne(l: Line)
    ensures ById([l]) == map[l.id := l]
  {
    assert Index([l], 0) == map[];
  }
}
