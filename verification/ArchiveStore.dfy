/** The archive's objects, the order in which a re-archive writes them, and what every
    interruption leaves behind. */
module ArchiveStore {
  import opened Wrappers
  import opened ObjectKeys
  import opened Transcripts

  const ZSTD := "zstd"

  datatype TranscriptInfo = TranscriptInfo(objectKey: Key, compression: string, messageCount: nat)

  datatype ManifestBody = ManifestBody(
    archivedAt: int,
    messageCounts: map<string, nat>,
    userMessageCount: Option<nat>,
    transcript: Option<TranscriptInfo>)

  datatype Object =
    | Partial
    | ManifestJson(manifest: ManifestBody)
    | Compressed(codec: string, lines: seq<Line>)
    | Blob(data: string)
    | SidecarJson(kind: string)

  type Store = map<Key, Object>

  type Puts = seq<(Key, Object)>

  /** The store after the first n writes. */
  function Put(store: Store, puts: Puts, n: nat): Store
    requires n <= |puts|
  {
    if n == 0 then store else Put(store, puts, n - 1)[puts[n - 1].0 := puts[n - 1].1]
  }

  // ---------------------------------------------------------------- reading back

  function ReadManifest(store: Store, u: Uuid, s: Uuid): Result<Option<ManifestBody>> {
    if Manifest(u, s) !in store then Ok(None)
    else
      match store[Manifest(u, s)]
      case ManifestJson(m) => Ok(Some(m))
      case _ => Err
  }

  /** The archived lines, decoded with the codec that the manifest declares. */
  function ReadTranscriptLines(store: Store, u: Uuid, s: Uuid): Result<Option<seq<Line>>> {
    if Transcript(u, s) !in store then Ok(None)
    else
      match ReadManifest(store, u, s)
      case Err => Err
      case Ok(m) =>
        var compression := if m.Some? && m.value.transcript.Some? then m.value.transcript.value.compression else ZSTD;
        match store[Transcript(u, s)]
        case Compressed(codec, lines) => if compression == ZSTD && codec == ZSTD then Ok(Some(lines)) else Err
        case _ => Err
  }

  /** What a reader finds archived for a session. */
  function Lines(store: Store, u: Uuid, s: Uuid): seq<Line> {
    match ReadTranscriptLines(store, u, s)
    case Ok(Some(lines)) => lines
    case _ => []
  }

  // ---------------------------------------------------------------- writing

  /** The manifest of one archive pass over `merged`, at time `now`. */
  function ManifestOf(u: Uuid, s: Uuid, merged: seq<Line>, transcripts: bool, userMessages: nat,
                      now: int): ManifestBody
  {
    ManifestBody(now, RoleCounts(merged), Some(userMessages),
                 if transcripts && merged != [] then Some(TranscriptInfo(Transcript(u, s), ZSTD, |merged|)) else None)
  }

  /** Transcript first, manifest last. */
  function ArchivePuts(u: Uuid, s: Uuid, merged: seq<Line>, m: ManifestBody): Puts {
    (if m.transcript.Some? then [(Transcript(u, s), Compressed(ZSTD, merged))] else [])
    + [(Manifest(u, s), ManifestJson(m))]
  }

  /** One archive pass that merges `rows` into what is archived already and stops after at most
      `budget` writes: the new store, and whether the pass reported success. */
  ghost function Rearchive(store: Store, u: Uuid, s: Uuid, rows: seq<Line>, transcripts: bool,
                           userMessages: nat, now: int, budget: nat): (Store, bool)
  {
    match ReadTranscriptLines(store, u, s)
    case Err => (store, false)
    case Ok(existing) =>
      var merged := Merge(if existing.Some? then existing.value else [], rows);
      var puts := ArchivePuts(u, s, merged, ManifestOf(u, s, merged, transcripts, userMessages, now));
      (Put(store, puts, Least(budget, |puts|)), budget >= |puts|)
  }

  /** The history view's lazy rewrite of an old manifest, under the manifest lock. */
  function Backfill(store: Store, u: Uuid, s: Uuid, count: nat): Store {
    match ReadManifest(store, u, s)
    case Ok(Some(m)) =>
      if m.userMessageCount.Some? then store
      else store[Manifest(u, s) := ManifestJson(m.(userMessageCount := Some(count)))]
    case _ => store
  }

  /** Blob first, sidecar last. */
  function MediaPuts(u: Uuid, s: Uuid, media: Uuid, kind: string, data: string): Puts {
    [(Media(u, s, media), Blob(data)), (Sidecar(u, s, media), SidecarJson(kind))]
  }

  // ---------------------------------------------------------------- crash consistency

  /** A transcript object is complete and ordered, and a manifest that names a transcript has
      one beside it with at least as many lines as it counts. */
  ghost predicate SessionOk(store: Store, u: Uuid, s: Uuid) {
    && (Transcript(u, s) in store ==>
          store[Transcript(u, s)].Compressed? && store[Transcript(u, s)].codec == ZSTD
          && IsTranscript(store[Transcript(u, s)].lines))
    && (Manifest(u, s) in store ==>
          && store[Manifest(u, s)].ManifestJson?
          && var t := store[Manifest(u, s)].manifest.transcript;
             t.Some? ==>
               && t.value.objectKey == Transcript(u, s) && t.value.compression == ZSTD
               && Transcript(u, s) in store
               && t.value.messageCount == Sum(store[Manifest(u, s)].manifest.messageCounts)
               && t.value.messageCount <= |store[Transcript(u, s)].lines|)
  }

  ghost predicate MediaOk(store: Store, u: Uuid, s: Uuid, media: Uuid) {
    && (Sidecar(u, s, media) in store ==> store[Sidecar(u, s, media)].SidecarJson? && Media(u, s, media) in store)
    && (Media(u, s, media) in store ==> store[Media(u, s, media)].Blob?)
  }

  ghost predicate Consistent(store: Store) {
    && (forall u: Uuid, s: Uuid :: SessionOk(store, u, s))
    && (forall u: Uuid, s: Uuid, m: Uuid :: MediaOk(store, u, s, m))
  }

  /** A consistent transcript reads back whole. */
  lemma ReadsBack(store: Store, u: Uuid, s: Uuid)
    requires SessionOk(store, u, s)
    ensures ReadTranscriptLines(store, u, s) ==
            Ok(if Transcript(u, s) in store then Some(store[Transcript(u, s)].lines) else None)
    ensures IsTranscript(Lines(store, u, s))
  {
  }

  /** The objects of session s of user u. */
  predicate Owns(u: Uuid, s: Uuid, k: Key) {
    k.user == u && k.session == s
  }

  ghost predicate OnlyTouches(store: Store, store': Store, u: Uuid, s: Uuid) {
    forall k: Key :: !Owns(u, s, k) ==> (k in store <==> k in store') && (k in store ==> store[k] == store'[k])
  }

  lemma OthersKept(store: Store, store': Store, u: Uuid, s: Uuid, u': Uuid, s': Uuid)
    requires OnlyTouches(store, store', u, s) && (u', s') != (u, s)
    ensures SessionOk(store, u', s') ==> SessionOk(store', u', s')
    ensures forall m :: MediaOk(store, u', s', m) ==> MediaOk(store', u', s', m)
    ensures ReadTranscriptLines(store', u', s') == ReadTranscriptLines(store, u', s')
  {
  }

  /** A full or interrupted archive pass: both objects, the transcript alone, or nothing. */
  lemma PassOutcomes(store: Store, u: Uuid, s: Uuid, merged: seq<Line>, m: ManifestBody, n: nat)
    requires n <= |ArchivePuts(u, s, merged, m)|
    ensures var puts := ArchivePuts(u, s, merged, m);
            var withBody := store[Transcript(u, s) := Compressed(ZSTD, merged)];
            Put(store, puts, n) ==
              if n == 0 then store
              else if m.transcript.None? then store[Manifest(u, s) := ManifestJson(m)]
              else if n == 1 then withBody
              else withBody[Manifest(u, s) := ManifestJson(m)]
  {
  }

  /** A pass over one session, wherever it stops: the session stays consistent, nothing else is
      written, and a reported success means every row passed in is archived. */
  lemma RearchiveSafe(store: Store, u: Uuid, s: Uuid, rows: seq<Line>, transcripts: bool,
                      userMessages: nat, now: int, budget: nat)
    requires SessionOk(store, u, s)
    ensures var (store', ok) := Rearchive(store, u, s, rows, transcripts, userMessages, now, budget);
            && SessionOk(store', u, s)
            && OnlyTouches(store, store', u, s)
            && (Lines(store', u, s) == Lines(store, u, s) || Lines(store', u, s) == Merge(Lines(store, u, s), rows))
            && (ok && transcripts ==> Lines(store', u, s) == Merge(Lines(store, u, s), rows))
            && (ok <==> budget >= if transcripts && Merge(Lines(store, u, s), rows) != [] then 2 else 1)
    ensures forall m: Uuid :: MediaOk(store, u, s, m) ==>
              MediaOk(Rearchive(store, u, s, rows, transcripts, userMessages, now, budget).0, u, s, m)
  {
    ReadsBack(store, u, s);
    var existing := Lines(store, u, s);
    var merged := Merge(existing, rows);
    var m := ManifestOf(u, s, merged, transcripts, userMessages, now);
    var puts := ArchivePuts(u, s, merged, m);
    var n := Least(budget, |puts|);
    PassOutcomes(store, u, s, merged, m, n);
    MergedIsLonger(existing, rows);
    RoleCountsExact(merged, |merged|);
    var store' := Put(store, puts, n);
    assert Rearchive(store, u, s, rows, transcripts, userMessages, now, budget).0 == store';
    assert SessionOk(store', u, s);
    ReadsBack(store', u, s);
    PassTouches(store, u, s, merged, m, n);
  }

  lemma PassTouches(store: Store, u: Uuid, s: Uuid, merged: seq<Line>, m: ManifestBody, n: nat)
    requires n <= |ArchivePuts(u, s, merged, m)|
    ensures OnlyTouches(store, Put(store, ArchivePuts(u, s, merged, m), n), u, s)
    ensures forall x: Uuid :: MediaOk(store, u, s, x) ==> MediaOk(Put(store, ArchivePuts(u, s, merged, m), n), u, s, x)
  {
  }

  lemma MergedIsLonger(existing: seq<Line>, rows: seq<Line>)
    requires IsTranscript(existing)
    ensures |Merge(existing, rows)| >= |existing|
    ensures Merge(existing, rows) == [] ==> existing == []
    ensures ById(existing).Keys <= ById(Merge(existing, rows)).Keys
  {
    MergeNeverShrinks(existing, rows);
    IndexSize(existing, |existing|);
  }

  /** The rewrite fills in the missing count and leaves the rest of the manifest, and a manifest that has
      one, as they are. */
  lemma BackfillExact(store: Store, u: Uuid, s: Uuid, count: nat)
    requires Manifest(u, s) in store && store[Manifest(u, s)].ManifestJson?
    ensures
      var before, after := store[Manifest(u, s)].manifest, Backfill(store, u, s, count);
      && after.Keys == store.Keys && after[Manifest(u, s)].ManifestJson?
      && var m := after[Manifest(u, s)].manifest;
         && m.userMessageCount == (if before.userMessageCount.Some? then before.userMessageCount else Some(count))
         && (m.archivedAt, m.messageCounts, m.transcript) ==
              (before.archivedAt, before.messageCounts, before.transcript)
  {
  }

  lemma BackfillSafe(store: Store, u: Uuid, s: Uuid, count: nat)
    requires SessionOk(store, u, s)
    ensures SessionOk(Backfill(store, u, s, count), u, s)
    ensures OnlyTouches(store, Backfill(store, u, s, count), u, s)
    ensures Lines(Backfill(store, u, s, count), u, s) == Lines(store, u, s)
    ensures forall m: Uuid :: MediaOk(store, u, s, m) ==> MediaOk(Backfill(store, u, s, count), u, s, m)
  {
  }

  /** An upload that goes through stores the data under the blob's key and its kind beside it. */
  lemma MediaReadsBack(store: Store, u: Uuid, s: Uuid, media: Uuid, kind: string, data: string)
    ensures
      var store' := Put(store, MediaPuts(u, s, media, kind, data), 2);
      && Media(u, s, media) in store' && store'[Media(u, s, media)] == Blob(data)
      && Sidecar(u, s, media) in store' && store'[Sidecar(u, s, media)] == SidecarJson(kind)
  {
    var puts := MediaPuts(u, s, media, kind, data);
    assert Put(store, puts, 2) == Put(store, puts, 1)[puts[1].0 := puts[1].1];
    assert Put(store, puts, 1) == store[puts[0].0 := puts[0].1];
  }

  lemma StoreMediaSafe(store: Store, u: Uuid, s: Uuid, media: Uuid, kind: string, data: string, n: nat)
    requires SessionOk(store, u, s) && n <= 2
    ensures var store' := Put(store, MediaPuts(u, s, media, kind, data), n);
            && SessionOk(store', u, s)
            && OnlyTouches(store, store', u, s)
            && Lines(store', u, s) == Lines(store, u, s)
    ensures forall m: Uuid :: MediaOk(store, u, s, m) ==>
              MediaOk(Put(store, MediaPuts(u, s, media, kind, data), n), u, s, m)
  {
  }

  /** A change to one session's objects that keeps that session consistent keeps the whole archive so. */
  lemma OneSessionSafe(store: Store, store': Store, u: Uuid, s: Uuid)
    requires Consistent(store) && OnlyTouches(store, store', u, s) && SessionOk(store', u, s)
    requires forall m: Uuid :: MediaOk(store', u, s, m)
    ensures Consistent(store')
    ensures forall u': Uuid, s': Uuid :: (u', s') != (u, s) ==> Lines(store', u', s') == Lines(store, u', s')
  {
    forall u': Uuid, s': Uuid | (u', s') != (u, s)
      ensures SessionOk(store', u', s') && Lines(store', u', s') == Lines(store, u', s')
      ensures forall m: Uuid :: MediaOk(store', u', s', m)
    {
      OthersKept(store, store', u, s, u', s');
    }
    forall u': Uuid, s': Uuid, m: Uuid ensures MediaOk(store', u', s', m) {
      assert MediaOk(store, u', s', m);
    }
  }

  /** A whole pass, wherever it stops, keeps the archive consistent and changes one transcript only. */
  lemma PassSafe(store: Store, u: Uuid, s: Uuid, rows: seq<Line>, transcripts: bool, userMessages: nat, now: int,
                 budget: nat)
    requires Consistent(store)
    ensures
      var store' := Rearchive(store, u, s, rows, transcripts, userMessages, now, budget).0;
      && Consistent(store')
      && (forall u': Uuid, s': Uuid :: (u', s') != (u, s) ==> Lines(store', u', s') == Lines(store, u', s'))
  {
    var store' := Rearchive(store, u, s, rows, transcripts, userMessages, now, budget).0;
    RearchiveSafe(store, u, s, rows, transcripts, userMessages, now, budget);
    forall m: Uuid ensures MediaOk(store', u, s, m) {
      assert MediaOk(store, u, s, m);
    }
    hide Rearchive, SessionOk, MediaOk, OnlyTouches;
    OneSessionSafe(store, store', u, s);
  }

  /** With transcripts on, the first write of a pass already archives every row. */
  lemma FirstWriteArchives(store: Store, u: Uuid, s: Uuid, rows: seq<Line>, userMessages: nat, now: int, budget: nat)
    requires SessionOk(store, u, s)
    ensures
      var lines := Lines(Rearchive(store, u, s, rows, true, userMessages, now, budget).0, u, s);
      lines == if budget >= 1 then Merge(Lines(store, u, s), rows) else Lines(store, u, s)
  {
    ReadsBack(store, u, s);
    var merged := Merge(Lines(store, u, s), rows);
    var m := ManifestOf(u, s, merged, true, userMessages, now);
    var n := Least(budget, |ArchivePuts(u, s, merged, m)|);
    var store' := Put(store, ArchivePuts(u, s, merged, m), n);
    assert Rearchive(store, u, s, rows, true, userMessages, now, budget).0 == store';
    RearchiveSafe(store, u, s, rows, true, userMessages, now, budget);
    TranscriptFirst(store, u, s, merged, m, n);
    hide Merge, RoleCounts, ReadTranscriptLines, Rearchive, Lines, Put, SessionOk, OnlyTouches, MediaOk;
    MergedIsLonger(Lines(store, u, s), rows);
  }

  /** The manifest of a pass over these lines, and the transcript it names. */
  ghost predicate Manifested(store: Store, u: Uuid, s: Uuid, merged: seq<Line>, transcripts: bool, userMessages: nat,
                             now: int)
  {
    && Manifest(u, s) in store && store[Manifest(u, s)].ManifestJson?
    && var m := store[Manifest(u, s)].manifest;
       && m.archivedAt == now && m.userMessageCount == Some(userMessages)
       && (forall role :: (if role in m.messageCounts then m.messageCounts[role] else 0) ==
             |set i | 0 <= i < |merged| && merged[i].role == role|)
       && (if transcripts && merged != [] then
             && m.transcript == Some(TranscriptInfo(Transcript(u, s), "zstd", |merged|))
             && Transcript(u, s) in store && store[Transcript(u, s)] == Compressed("zstd", merged)
           else m.transcript == None)
  }

  /** What a pass that reports success has stored. */
  lemma PassManifests(store: Store, u: Uuid, s: Uuid, rows: seq<Line>, transcripts: bool, userMessages: nat, now: int,
                      budget: nat)
    requires SessionOk(store, u, s)
    requires Rearchive(store, u, s, rows, transcripts, userMessages, now, budget).1
    ensures Manifested(Rearchive(store, u, s, rows, transcripts, userMessages, now, budget).0, u, s,
                       Merge(Lines(store, u, s), rows), transcripts, userMessages, now)
  {
    hide Merge, RoleCounts, Count;
    ReadsBack(store, u, s);
    var merged := Merge(Lines(store, u, s), rows);
    var m := ManifestOf(u, s, merged, transcripts, userMessages, now);
    PassOutcomes(store, u, s, merged, m, |ArchivePuts(u, s, merged, m)|);
    CountsOf(merged);
  }

  lemma CountsOf(merged: seq<Line>)
    ensures forall role :: (if role in RoleCounts(merged) then RoleCounts(merged)[role] else 0) ==
              |set i | 0 <= i < |merged| && merged[i].role == role|
  {
    RoleCountsExact(merged, |merged|);
    hide Count, Histogram;
    forall role ensures Count(merged, |merged|, role) == |set i | 0 <= i < |merged| && merged[i].role == role| {
      CountsPlaces(merged, |merged|, role);
    }
  }

  lemma TranscriptFirst(store: Store, u: Uuid, s: Uuid, merged: seq<Line>, m: ManifestBody, n: nat)
    requires n <= |ArchivePuts(u, s, merged, m)|
    ensures
      var store' := Put(store, ArchivePuts(u, s, merged, m), n);
      && (n == 0 ==> store' == store)
      && (n > 0 && m.transcript.Some? && SessionOk(store', u, s) ==> Lines(store', u, s) == merged)
  {
  }
}
