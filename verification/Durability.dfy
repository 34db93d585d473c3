/** Archive-first durability: the hot tables, the archive and the routines' dealings with both as
    one state machine, with the exact condition on its history under which a message is lost. */
module Durability {
  import opened Wrappers
  import opened ObjectKeys
  import opened Transcripts
  import opened ArchiveStore

  datatype Session = Session(user: Uuid, active: bool, lastActivity: int, archivedAt: Option<int>)

  datatype Row = Row(session: Uuid, line: Line)

  /** A message as it was first stored: what must stay recoverable for ever. */
  datatype Entry = Entry(session: Uuid, user: Uuid, line: Line)

  /** How far a routine has come with a session: it has loaded the session's row, fresh or not, or
      it has been told that the session is archived, which it takes as a licence to delete. `known`
      are the messages the session had at that moment: when the row was loaded, or, after an
      archive pass, when the pass queried the messages. */
  datatype Ticket = Looked(isFresh: bool, known: set<nat>) | Licence(known: set<nat>)

  /** A routine and the session it deals with. */
  type Dealing = (nat, Uuid)

  /** The sessions table, the messages table by id, the archive, and what happened: every message ever
      inserted, the routines' dealings, the messages that a transcript was written with (`caught`), and
      those whose row was stored while their session was fresh (`undated`). */
  datatype World = World(
    sessions: map<Uuid, Session>,
    hot: map<nat, Row>,
    store: Store,
    ever: map<nat, Entry>,
    tickets: map<Dealing, Ticket>,
    caught: set<nat>,
    undated: set<nat>)

  const EMPTY := World(map[], map[], map[], map[], map[], {}, {})

  predicate IsArchiveFresh(archivedAt: Option<int>, lastActivity: int) {
    archivedAt.Some? && archivedAt.value >= lastActivity
  }

  predicate Fresh(w: World, sid: Uuid)
    requires sid in w.sessions
  {
    IsArchiveFresh(w.sessions[sid].archivedAt, w.sessions[sid].lastActivity)
  }

  /** The rows that a query for one session's messages finds. */
  function HotOf(hot: map<nat, Row>, sid: Uuid): map<nat, Line> {
    map id | id in hot && hot[id].session == sid :: hot[id].line
  }

  ghost predicate Archived(store: Store, e: Entry) {
    e.line in Lines(store, e.user, e.session)
  }

  function EntryOf(w: World, id: nat): Entry
    requires id in w.hot && w.hot[id].session in w.sessions
  {
    Entry(w.hot[id].session, w.sessions[w.hot[id].session].user, w.hot[id].line)
  }

  // ---------------------------------------------------------------- what is lost

  /** The messages that are in neither copy. */
  ghost function Lost(w: World): set<nat> {
    set id | id in w.ever && id !in w.hot && !Archived(w.store, w.ever[id])
  }

  ghost predicate NothingLost(w: World) {
    Lost(w) == {}
  }

  // ---------------------------------------------------------------- invariants

  /** Hot rows are messages of existing sessions, just as they were first stored. */
  ghost predicate RowsOk(w: World) {
    forall id :: id in w.hot ==>
      w.hot[id].session in w.sessions && id in w.ever && w.ever[id] == EntryOf(w, id)
  }

  /** The archive invents nothing and files nothing under the wrong session. */
  ghost predicate Authentic(w: World) {
    forall u: Uuid, s: Uuid, l :: l in Lines(w.store, u, s) ==> l.id in w.ever && w.ever[l.id] == Entry(s, u, l)
  }

  /** Archived are exactly the messages that some pass caught in the hot table. */
  ghost predicate CaughtAreArchived(w: World) {
    forall id :: id in w.ever ==> (Archived(w.store, w.ever[id]) <==> id in w.caught)
  }

  ghost predicate HistoryOk(w: World) {
    && (forall id :: id in w.ever ==> w.ever[id].line.id == id)
    && (forall k, id :: k in w.tickets && id in w.tickets[k].known ==> id in w.ever)
    && w.caught <= w.ever.Keys && w.undated <= w.ever.Keys
  }

  /** What ties the tables, the archive and the history together. */
  ghost predicate Basic(w: World) {
    Consistent(w.store) && RowsOk(w) && Authentic(w) && CaughtAreArchived(w) && HistoryOk(w)
  }

  /** What a fresh session's rows really are: archived, or stored while the session was fresh. */
  ghost predicate FreshKnown(w: World) {
    forall id :: id in w.hot && w.hot[id].session in w.sessions && Fresh(w, w.hot[id].session) ==>
      id in w.caught || id in w.undated
  }

  /** This ticket is, or can become without another look, a licence to delete. */
  predicate Cleared(t: Ticket) {
    t.Licence? || t.isFresh
  }

  /** What a cleared routine knew of is archived, or was stored while the session was fresh. What came
      later need not be either. */
  ghost predicate TicketsTrue(w: World) {
    forall k, id :: k in w.tickets && Cleared(w.tickets[k]) && id in w.tickets[k].known ==>
      id in w.caught || id in w.undated
  }

  ghost predicate Sound(w: World) {
    Basic(w) && FreshKnown(w) && TicketsTrue(w)
  }

  /** Archived lines stay archived, word for word. */
  ghost predicate LinesKept(store: Store, store': Store) {
    forall u: Uuid, s: Uuid, l :: l in Lines(store, u, s) ==> l in Lines(store', u, s)
  }

  // ---------------------------------------------------------------- steps

  /** Storing a message takes two statements: Insert adds the row, and a later Touch, if it comes at
      all, moves the session's activity. `Trim` and `Delete` are deletions on licence, `Purge` is one
      that asks nobody. */
  datatype Action =
    | Create(sid: Uuid, user: Uuid, now: int)
    | Insert(sid: Uuid, line: Line)
    | Touch(sid: Uuid, now: int)
    | SetActive(sid: Uuid, active: bool)
    | Rename(sid: Uuid)
    | Look(r: nat, sid: Uuid)
    | Approve(r: nat, sid: Uuid)
    | Archive(r: nat, sid: Uuid, rows: seq<Line>, userMessages: nat, now: int, budget: nat, stamped: bool)
    | Drop(r: nat, sid: Uuid)
    | Trim(ids: set<nat>)
    | Delete(sid: Uuid)
    | Purge(ids: set<nat>)

  /** Some routine holds a licence for the session. */
  ghost predicate Licensed(w: World, sid: Uuid) {
    exists k :: k in w.tickets && k.1 == sid && w.tickets[k].Licence?
  }

  /** Nothing is checked again when rows are deleted: neither the freshness of the session nor the
      rows themselves. A licence once given is enough. */
  ghost predicate Enabled(w: World, a: Action) {
    match a
    case Create(sid, _, _) => sid !in w.sessions
    case Insert(sid, line) => sid in w.sessions && line.id !in w.ever
    case Touch(sid, now) => sid in w.sessions && now >= w.sessions[sid].lastActivity
    case SetActive(sid, _) => sid in w.sessions
    case Rename(sid) => sid in w.sessions
    case Look(r, sid) => sid in w.sessions && (r, sid) !in w.tickets
    case Approve(r, sid) => (r, sid) in w.tickets && w.tickets[(r, sid)].Looked? && w.tickets[(r, sid)].isFresh
    case Archive(r, sid, rows, _, _, _, _) =>
      && (r, sid) in w.tickets && w.tickets[(r, sid)].Looked? && !w.tickets[(r, sid)].isFresh
      && sid in w.sessions && ById(rows) == HotOf(w.hot, sid)
    case Drop(r, sid) => (r, sid) in w.tickets
    case Trim(ids) => forall id :: id in ids && id in w.hot ==> Licensed(w, w.hot[id].session)
    case Delete(sid) => sid in w.sessions && Licensed(w, sid)
    case Purge(ids) => true
  }

  /** One archive attempt: the pass over the store, then the stamp if the pass succeeded. The
      stamp's own failure is ignored, as in the code. */
  ghost function ArchiveAttempt(w: World, a: Action): World
    requires a.Archive? && a.sid in w.sessions
  {
    var (store', ok) :=
      Rearchive(w.store, w.sessions[a.sid].user, a.sid, a.rows, true, a.userMessages, a.now, a.budget);
    var k := (a.r, a.sid);
    w.(store := store',
       sessions := if ok && a.stamped then w.sessions[a.sid := w.sessions[a.sid].(archivedAt := Some(a.now))]
                   else w.sessions,
       tickets := if ok then w.tickets[k := Licence(HotOf(w.hot, a.sid).Keys)] else w.tickets - {k},
       caught := if a.budget >= 1 then w.caught + HotOf(w.hot, a.sid).Keys else w.caught)
  }

  function Without(hot: map<nat, Row>, sid: Uuid): map<nat, Row> {
    map id | id in hot && hot[id].session != sid :: hot[id]
  }

  ghost function Next(w: World, a: Action): World
    requires Enabled(w, a)
  {
    match a
    case Create(sid, user, now) => w.(sessions := w.sessions[sid := Session(user, true, now, None)])
    case Insert(sid, line) =>
      w.(hot := w.hot[line.id := Row(sid, line)],
         ever := w.ever[line.id := Entry(sid, w.sessions[sid].user, line)],
         undated := if Fresh(w, sid) then w.undated + {line.id} else w.undated)
    case Touch(sid, now) => w.(sessions := w.sessions[sid := w.sessions[sid].(lastActivity := now)])
    case SetActive(sid, active) => w.(sessions := w.sessions[sid := w.sessions[sid].(active := active)])
    case Rename(sid) => w.(sessions := w.sessions[sid := w.sessions[sid].(archivedAt := None)])
    case Look(r, sid) => w.(tickets := w.tickets[(r, sid) := Looked(Fresh(w, sid), HotOf(w.hot, sid).Keys)])
    case Approve(r, sid) => w.(tickets := w.tickets[(r, sid) := Licence(w.tickets[(r, sid)].known)])
    case Archive(_, _, _, _, _, _, _) => ArchiveAttempt(w, a)
    case Drop(r, sid) => w.(tickets := w.tickets - {(r, sid)})
    case Trim(ids) => w.(hot := w.hot - ids)
    case Delete(sid) => w.(hot := Without(w.hot, sid), sessions := w.sessions - {sid})
    case Purge(ids) => w.(hot := w.hot - ids)
  }

  /** The rows a step deletes. */
  function Deleted(w: World, a: Action): set<nat> {
    match a
    case Trim(ids) => ids * w.hot.Keys
    case Purge(ids) => ids * w.hot.Keys
    case Delete(sid) => set id | id in w.hot && w.hot[id].session == sid
    case _ => {}
  }

  /** What a step destroys: the rows it deletes that no archive pass caught before. */
  function Losses(w: World, a: Action): set<nat> {
    Deleted(w, a) - w.caught
  }

  // ---------------------------------------------------------------- the archive step

  lemma AgreeingMerge(existing: seq<Line>, rows: seq<Line>)
    requires IsTranscript(existing)
    requires forall l :: l in existing && l.id in ById(rows) ==> ById(rows)[l.id] == l
    ensures forall l ::
      l in Merge(existing, rows) <==> l in existing || (l.id in ById(rows) && ById(rows)[l.id] == l)
  {
    Members(existing);
    MergeNeverShrinks(existing, rows);
  }

  /** Merging a session's rows keeps every archived line as it is and adds exactly the rows. */
  lemma MergedLines(w: World, sid: Uuid, rows: seq<Line>)
    requires Basic(w) && sid in w.sessions && ById(rows) == HotOf(w.hot, sid)
    ensures
      var archived := Lines(w.store, w.sessions[sid].user, sid);
      forall l :: l in Merge(archived, rows) <==>
        l in archived || (l.id in w.hot && w.hot[l.id] == Row(sid, l))
  {
    var u := w.sessions[sid].user;
    var archived := Lines(w.store, u, sid);
    ReadsBack(w.store, u, sid);
    assert SessionOk(w.store, u, sid);
    forall l | l in archived && l.id in ById(rows) ensures ById(rows)[l.id] == l {
      assert w.ever[l.id] == Entry(sid, u, l) && w.ever[l.id] == EntryOf(w, l.id);
    }
    AgreeingMerge(archived, rows);
  }

  lemma RowsKeyed(w: World)
    requires Basic(w)
    ensures forall id :: id in w.hot ==> w.hot[id].line.id == id
  {
  }

  /** What an attempt adds to the archive: nothing if it wrote nothing, otherwise exactly the session's
      rows; and a licence means that it wrote. */
  lemma ArchiveAdds(w: World, a: Action)
    requires Basic(w) && a.Archive? && Enabled(w, a)
    ensures
      var u, w' := w.sessions[a.sid].user, Next(w, a);
      && Consistent(w'.store)
      && (forall u': Uuid, s': Uuid :: (u', s') != (u, a.sid) ==> Lines(w'.store, u', s') == Lines(w.store, u', s'))
      && (forall l :: l in Lines(w'.store, u, a.sid) <==>
            l in Lines(w.store, u, a.sid) || (a.budget >= 1 && l.id in w.hot && w.hot[l.id] == Row(a.sid, l)))
      && ((a.r, a.sid) in w'.tickets ==> a.budget >= 1)
  {
    hide Rearchive, RowsOk, Merge, Authentic, CaughtAreArchived, HistoryOk;
    var u := w.sessions[a.sid].user;
    assert SessionOk(w.store, u, a.sid);
    hide Consistent;
    RearchiveSafe(w.store, u, a.sid, a.rows, true, a.userMessages, a.now, a.budget);
    PassSafe(w.store, u, a.sid, a.rows, true, a.userMessages, a.now, a.budget);
    FirstWriteArchives(w.store, u, a.sid, a.rows, a.userMessages, a.now, a.budget);
    MergedLines(w, a.sid, a.rows);
  }

  /** Archived afterwards is what was archived before and, if the attempt wrote at all, what it found hot. */
  lemma ArchiveCatches(w: World, a: Action, id: nat)
    requires Basic(w) && a.Archive? && Enabled(w, a) && id in w.ever
    ensures
      Archived(Next(w, a).store, w.ever[id]) <==>
        Archived(w.store, w.ever[id]) || (a.budget >= 1 && id in HotOf(w.hot, a.sid))
  {
    hide Rearchive, Consistent, Lines, Authentic, CaughtAreArchived;
    ArchiveAdds(w, a);
    assert id in w.hot ==> w.ever[id] == EntryOf(w, id);
  }

  // ---------------------------------------------------------------- every step keeps the basics

  predicate TablesOnly(a: Action) {
    a.Create? || a.Touch? || a.SetActive? || a.Rename?
  }

  predicate TicketsOnly(a: Action) {
    a.Look? || a.Approve? || a.Drop?
  }

  predicate Deletes(a: Action) {
    a.Trim? || a.Delete? || a.Purge?
  }

  lemma InsertKeepsBasic(w: World, a: Action)
    requires Basic(w) && a.Insert? && Enabled(w, a)
    ensures Basic(Next(w, a))
  {
    hide Consistent, Lines;
    var w' := Next(w, a);
    forall id | id in w'.hot
      ensures w'.hot[id].session in w'.sessions && id in w'.ever && w'.ever[id] == EntryOf(w', id)
    {
      assert id != a.line.id ==> w.ever[id] == EntryOf(w, id);
    }
    NewIsUnarchived(w, a.sid, a.line);
  }

  /** A message that is new is not archived. */
  lemma NewIsUnarchived(w: World, sid: Uuid, line: Line)
    requires Basic(w) && sid in w.sessions && line.id !in w.ever
    ensures !Archived(w.store, Entry(sid, w.sessions[sid].user, line))
  {
  }

  lemma ArchiveKeepsBasic(w: World, a: Action)
    requires Basic(w) && a.Archive? && Enabled(w, a)
    ensures Basic(Next(w, a)) && LinesKept(w.store, Next(w, a).store)
  {
    hide Rearchive, Consistent, Lines, CaughtAreArchived;
    ArchiveAdds(w, a);
    var w' := Next(w, a);
    forall u: Uuid, s: Uuid, l | l in Lines(w'.store, u, s) ensures l.id in w'.ever && w'.ever[l.id] == Entry(s, u, l) {
      if l !in Lines(w.store, u, s) {
        assert w.ever[l.id] == EntryOf(w, l.id);
      }
    }
    forall id | id in w'.hot ensures w'.hot[id].session in w'.sessions && w'.ever[id] == EntryOf(w', id) {
      assert w.ever[id] == EntryOf(w, id);
    }
    ArchiveKeepsCaught(w, a);
  }

  lemma ArchiveKeepsCaught(w: World, a: Action)
    requires Basic(w) && a.Archive? && Enabled(w, a)
    ensures CaughtAreArchived(Next(w, a))
  {
    hide Rearchive, Consistent, Lines, Archived, Authentic;
    forall id | id in w.ever
      ensures Archived(Next(w, a).store, w.ever[id]) <==> id in Next(w, a).caught
    {
      ArchiveCatches(w, a, id);
    }
  }

  lemma DeletionKeepsBasic(w: World, a: Action)
    requires Basic(w) && Deletes(a) && Enabled(w, a)
    ensures Basic(Next(w, a))
  {
    hide Consistent, Lines;
    var w' := Next(w, a);
    forall id | id in w'.hot ensures w'.hot[id].session in w'.sessions && w'.ever[id] == EntryOf(w', id) {
      assert w'.hot[id] == w.hot[id] && w.ever[id] == EntryOf(w, id);
    }
  }

  lemma TablesKeepBasic(w: World, a: Action)
    requires Basic(w) && TablesOnly(a) && Enabled(w, a)
    ensures Basic(Next(w, a))
  {
    hide Consistent, Lines;
    var w' := Next(w, a);
    forall id | id in w'.hot ensures w'.hot[id].session in w'.sessions && w'.ever[id] == EntryOf(w', id) {
      assert w.ever[id] == EntryOf(w, id);
    }
  }

  lemma TicketsKeepBasic(w: World, a: Action)
    requires Basic(w) && TicketsOnly(a) && Enabled(w, a)
    ensures Basic(Next(w, a))
  {
  }

  lemma StepKeepsBasic(w: World, a: Action)
    requires Basic(w) && Enabled(w, a)
    ensures Basic(Next(w, a)) && LinesKept(w.store, Next(w, a).store)
  {
    hide Basic;
    if a.Archive? {
      ArchiveKeepsBasic(w, a);
    } else if a.Insert? {
      InsertKeepsBasic(w, a);
    } else if Deletes(a) {
      DeletionKeepsBasic(w, a);
    } else if TablesOnly(a) {
      TablesKeepBasic(w, a);
    } else {
      TicketsKeepBasic(w, a);
    }
  }

  // ---------------------------------------------------------------- every step keeps soundness

  lemma StepKeepsTickets(w: World, a: Action)
    requires Sound(w) && Enabled(w, a)
    ensures TicketsTrue(Next(w, a))
  {
    hide Consistent, Authentic, CaughtAreArchived, Lines;
    if a.Archive? {
      ArchiveAdds(w, a);
      ArchiveKeepsTickets(w, a);
    }
  }

  lemma ArchiveKeepsTickets(w: World, a: Action)
    requires TicketsTrue(w) && a.Archive? && Enabled(w, a)
    requires (a.r, a.sid) in Next(w, a).tickets ==> a.budget >= 1
    ensures TicketsTrue(Next(w, a))
  {
  }

  lemma StepKeepsFreshness(w: World, a: Action)
    requires Sound(w) && Enabled(w, a)
    ensures FreshKnown(Next(w, a))
  {
    hide Consistent, Authentic, CaughtAreArchived, Lines, TicketsTrue;
    if a.Archive? {
      ArchiveAdds(w, a);
      ArchiveKeepsFreshness(w, a);
    }
  }

  lemma ArchiveKeepsFreshness(w: World, a: Action)
    requires FreshKnown(w) && a.Archive? && Enabled(w, a)
    requires (a.r, a.sid) in Next(w, a).tickets ==> a.budget >= 1
    ensures FreshKnown(Next(w, a))
  {
  }

  /** Whatever is inserted, archived or deleted, and whenever: a fresh session's rows, and all that a
      licence knew of, are archived, but for messages stored while their session was fresh. */
  lemma StepKeepsSound(w: World, a: Action)
    requires Sound(w) && Enabled(w, a)
    ensures Sound(Next(w, a))
  {
    hide Basic, FreshKnown, TicketsTrue, Next;
    StepKeepsBasic(w, a);
    StepKeepsTickets(w, a);
    StepKeepsFreshness(w, a);
  }

  // ---------------------------------------------------------------- what freshness is worth

  /** Every row of the session is in its archived transcript. */
  ghost predicate Covered(w: World, sid: Uuid)
    requires sid in w.sessions
  {
    forall id :: id in w.hot && w.hot[id].session == sid ==>
      w.hot[id].line in Lines(w.store, w.sessions[sid].user, sid)
  }

  /** A row that the freshness test of its session does not see: it was stored while the session was
      fresh, no pass has caught it since, and its session still is fresh, as its activity has not been
      moved. */
  predicate Overlooked(w: World, id: nat) {
    && id in w.hot && id in w.undated && id !in w.caught
    && w.hot[id].session in w.sessions && Fresh(w, w.hot[id].session)
  }

  predicate Timely(w: World, sid: Uuid) {
    forall id :: id in w.hot && w.hot[id].session == sid ==> !Overlooked(w, id)
  }

  /** A fresh session's rows are archived exactly if the test overlooks none of them. */
  lemma FreshSpeaksTrueExactly(w: World, sid: Uuid)
    requires Sound(w) && sid in w.sessions && Fresh(w, sid)
    ensures Covered(w, sid) <==> Timely(w, sid)
  {
  }

  /** What a licence knew is archived, unless it was stored while its session was fresh. */
  lemma KnownIsArchived(w: World, k: Dealing, id: nat)
    requires Sound(w) && k in w.tickets && Cleared(w.tickets[k]) && id in w.tickets[k].known && id !in w.undated
    ensures id in w.ever && Archived(w.store, w.ever[id])
  {
  }

  /** Fresh implies covered: what the freshness test is taken to mean. */
  ghost predicate FreshMeansCovered(w: World) {
    forall sid :: sid in w.sessions && Fresh(w, sid) ==> Covered(w, sid)
  }

  /** The row of a message breaks this exactly if its session is fresh, and moving the activity to
      `now` afterwards mends it exactly if the session was stamped strictly before that time. */
  lemma InsertKeepsFreshnessExactly(w: World, a: Action, now: int)
    requires Basic(w) && FreshMeansCovered(w) && a.Insert? && Enabled(w, a)
    ensures FreshMeansCovered(Next(w, a)) <==> !Fresh(w, a.sid)
    ensures
      var stored, touch := Next(w, a), Touch(a.sid, now);
      Enabled(stored, touch) ==>
        (FreshMeansCovered(Next(stored, touch)) <==>
         (w.sessions[a.sid].archivedAt.Some? ==> now > w.sessions[a.sid].archivedAt.value))
  {
    NewIsUnarchived(w, a.sid, a.line);
    hide Basic, Lines;
    var w' := Next(w, a);
    NewRowUncovers(w, a, w');
    if now >= w.sessions[a.sid].lastActivity {
      NewRowUncovers(w, a, Next(w', Touch(a.sid, now)));
    }
  }

  lemma NewRowUncovers(w: World, a: Action, w': World)
    requires FreshMeansCovered(w) && a.Insert? && Enabled(w, a) && w'.store == w.store && w'.hot == Next(w, a).hot
    requires w'.sessions.Keys == w.sessions.Keys
    requires forall sid :: sid in w.sessions ==> w'.sessions[sid].user == w.sessions[sid].user
    requires forall sid :: sid in w.sessions && sid != a.sid ==> w'.sessions[sid] == w.sessions[sid]
    requires !Archived(w.store, Entry(a.sid, w.sessions[a.sid].user, a.line))
    ensures FreshMeansCovered(w') <==> !Fresh(w', a.sid)
  {
    hide Lines;
    assert w'.hot[a.line.id] == Row(a.sid, a.line) && !Covered(w', a.sid);
    if !Fresh(w', a.sid) {
      forall sid | sid in w'.sessions && Fresh(w', sid) ensures Covered(w', sid) {
        assert Fresh(w, sid) && Covered(w, sid);
      }
    }
  }

  // ---------------------------------------------------------------- the account

  /** Lost is exactly what was inserted, is deleted, and was never caught by an archive pass. */
  lemma LostAreUncaught(w: World)
    requires Basic(w)
    ensures Lost(w) == w.ever.Keys - w.hot.Keys - w.caught
  {
  }

  /** The account of every step: it destroys exactly the rows it deletes that no pass caught before,
      and nothing ever comes back. */
  lemma StepLoses(w: World, a: Action)
    requires Basic(w) && Enabled(w, a)
    ensures Lost(Next(w, a)) == Lost(w) + Losses(w, a)
  {
    hide Lost, Basic, Losses, Next;
    StepKeepsBasic(w, a);
    LostAreUncaught(w);
    LostAreUncaught(Next(w, a));
    StepUncovers(w, a);
  }

  lemma StepUncovers(w: World, a: Action)
    requires Basic(w) && Enabled(w, a)
    ensures
      var w' := Next(w, a);
      forall id :: id in w'.ever && id !in w'.hot && id !in w'.caught <==>
        (id in w.ever && id !in w.hot && id !in w.caught) || id in Losses(w, a)
  {
    hide Consistent, Authentic, CaughtAreArchived, Rearchive, Licensed;
  }

  // ---------------------------------------------------------------- whole runs

  /** `trace` is the history of worlds under `actions`. */
  ghost predicate IsRun(trace: seq<World>, actions: seq<Action>) {
    && |trace| == |actions| + 1
    && (forall i :: 0 <= i < |actions| ==> Enabled(trace[i], actions[i]) && trace[i + 1] == Next(trace[i], actions[i]))
  }

  lemma StartSound()
    ensures Sound(EMPTY) && NoLate(EMPTY) && Clean(EMPTY) && NothingLost(EMPTY)
  {
  }

  /** In any run whatsoever the tables and the archive agree with what was ever inserted, and archived
      lines stay archived, word for word. */
  lemma {:induction false} RunKeepsBasic(trace: seq<World>, actions: seq<Action>, i: nat, j: nat)
    requires IsRun(trace, actions) && Basic(trace[0]) && i <= j <= |actions|
    ensures Basic(trace[j]) && LinesKept(trace[i].store, trace[j].store)
    decreases j
  {
    hide Basic, Next, Enabled;
    if i < j {
      RunKeepsBasic(trace, actions, i, j - 1);
      StepKeepsBasic(trace[j - 1], actions[j - 1]);
    } else if j > 0 {
      RunKeepsBasic(trace, actions, j - 1, j - 1);
      StepKeepsBasic(trace[j - 1], actions[j - 1]);
    }
  }

  /** In any run whatsoever a fresh session's rows, and all that a licence knew of, are archived, but
      for messages stored while their session was fresh. */
  lemma {:induction false} RunKeepsSound(trace: seq<World>, actions: seq<Action>, n: nat)
    requires IsRun(trace, actions) && Sound(trace[0]) && n <= |actions|
    ensures Sound(trace[n])
  {
    hide Sound, Next, Enabled;
    if n == 0 {
    } else {
      RunKeepsSound(trace, actions, n - 1);
      StepKeepsSound(trace[n - 1], actions[n - 1]);
    }
  }

  /** This step, from w to w', is a pass that succeeds and stores its stamp. */
  predicate Stamps(w': World, a: Action, sid: Uuid) {
    a.Archive? && a.sid == sid && a.stamped && (a.r, sid) in w'.tickets
  }

  predicate Unstamps(a: Action, sid: Uuid) {
    (a.Create? || a.Rename? || a.Delete?) && a.sid == sid
  }

  predicate Moves(a: Action, sid: Uuid) {
    (a.Create? || a.Touch?) && a.sid == sid
  }

  /** The last stamp of the session before n, not taken back since, is of this time. */
  ghost predicate StampedAt(trace: seq<World>, actions: seq<Action>, n: nat, sid: Uuid, t: int)
    requires n <= |actions| < |trace|
  {
    exists j :: 0 <= j < n && LastStamp(trace, actions, j, n, sid) && actions[j].now == t
  }

  ghost predicate LastStamp(trace: seq<World>, actions: seq<Action>, j: nat, n: nat, sid: Uuid)
    requires j < n <= |actions| < |trace|
  {
    && Stamps(trace[j + 1], actions[j], sid)
    && forall k :: j < k < n ==> !Stamps(trace[k + 1], actions[k], sid) && !Unstamps(actions[k], sid)
  }

  /** The last move of the session's activity before n was to this time. */
  ghost predicate MovedTo(actions: seq<Action>, n: nat, sid: Uuid, t: int)
    requires n <= |actions|
  {
    exists j :: 0 <= j < n && LastMove(actions, j, n, sid) && actions[j].now == t
  }

  ghost predicate LastMove(actions: seq<Action>, j: nat, n: nat, sid: Uuid)
    requires j < n <= |actions|
  {
    Moves(actions[j], sid) && forall k :: j < k < n ==> !Moves(actions[k], sid)
  }

  lemma StampedMore(trace: seq<World>, actions: seq<Action>, n: nat, sid: Uuid, t: int)
    requires n < |actions| < |trace|
    ensures StampedAt(trace, actions, n + 1, sid, t) <==>
            if Stamps(trace[n + 1], actions[n], sid) then actions[n].now == t
            else !Unstamps(actions[n], sid) && StampedAt(trace, actions, n, sid, t)
  {
    if StampedAt(trace, actions, n + 1, sid, t) {
      var j :| 0 <= j < n + 1 && LastStamp(trace, actions, j, n + 1, sid) && actions[j].now == t;
      assert j < n ==> LastStamp(trace, actions, j, n, sid);
    }
    if Stamps(trace[n + 1], actions[n], sid) {
      assert LastStamp(trace, actions, n, n + 1, sid);
    } else if !Unstamps(actions[n], sid) && StampedAt(trace, actions, n, sid, t) {
      var j :| 0 <= j < n && LastStamp(trace, actions, j, n, sid) && actions[j].now == t;
      assert LastStamp(trace, actions, j, n + 1, sid);
    }
  }

  lemma MovedMore(actions: seq<Action>, n: nat, sid: Uuid, t: int)
    requires n < |actions|
    ensures MovedTo(actions, n + 1, sid, t) <==>
            if Moves(actions[n], sid) then actions[n].now == t else MovedTo(actions, n, sid, t)
  {
    if MovedTo(actions, n + 1, sid, t) {
      var j :| 0 <= j < n + 1 && LastMove(actions, j, n + 1, sid) && actions[j].now == t;
      assert j < n ==> LastMove(actions, j, n, sid);
    }
    if Moves(actions[n], sid) {
      assert LastMove(actions, n, n + 1, sid);
    } else if MovedTo(actions, n, sid, t) {
      var j :| 0 <= j < n && LastMove(actions, j, n, sid) && actions[j].now == t;
      assert LastMove(actions, j, n + 1, sid);
    }
  }

  /** What a step does to the two times of a session that exists before and after. */
  lemma StepDates(w: World, a: Action, sid: Uuid)
    requires Enabled(w, a) && sid in Next(w, a).sessions
    ensures sid !in w.sessions ==> a.Create? && a.sid == sid
    ensures
      var session := Next(w, a).sessions[sid];
      && session.lastActivity == (if Moves(a, sid) then a.now else w.sessions[sid].lastActivity)
      && session.archivedAt ==
           if Stamps(Next(w, a), a, sid) then Some(a.now)
           else if Unstamps(a, sid) then None
           else w.sessions[sid].archivedAt
  {
    hide Rearchive, Licensed;
  }

  /** In every run from nothing, the two times that the freshness test compares are those of the last
      archive pass that stored its stamp, if no rename or deletion came since, and of the last move of
      the session's activity. */
  lemma {:induction false} TimesByHistory(trace: seq<World>, actions: seq<Action>, n: nat, sid: Uuid, t: int)
    requires IsRun(trace, actions) && trace[0] == EMPTY && n <= |actions| && sid in trace[n].sessions
    ensures trace[n].sessions[sid].archivedAt == Some(t) <==> StampedAt(trace, actions, n, sid, t)
    ensures trace[n].sessions[sid].lastActivity == t <==> MovedTo(actions, n, sid, t)
  {
    hide Next, Enabled, StampedAt, MovedTo;
    if n == 0 {
    } else {
      StepDates(trace[n - 1], actions[n - 1], sid);
      StampedMore(trace, actions, n - 1, sid, t);
      MovedMore(actions, n - 1, sid, t);
      if sid in trace[n - 1].sessions {
        TimesByHistory(trace, actions, n - 1, sid, t);
      }
    }
  }

  /** So a session is fresh exactly if the last stamp is not before the last move. */
  lemma FreshByHistory(trace: seq<World>, actions: seq<Action>, n: nat, sid: Uuid)
    requires IsRun(trace, actions) && trace[0] == EMPTY && n <= |actions| && sid in trace[n].sessions
    ensures Fresh(trace[n], sid) <==>
            exists stamp, move :: StampedAt(trace, actions, n, sid, stamp) && MovedTo(actions, n, sid, move)
              && stamp >= move
  {
    hide Next, Enabled, StampedAt, MovedTo;
    var session := trace[n].sessions[sid];
    forall t
      ensures session.archivedAt == Some(t) <==> StampedAt(trace, actions, n, sid, t)
      ensures session.lastActivity == t <==> MovedTo(actions, n, sid, t)
    {
      TimesByHistory(trace, actions, n, sid, t);
    }
    assert MovedTo(actions, n, sid, session.lastActivity);
    if Fresh(trace[n], sid) {
      assert StampedAt(trace, actions, n, sid, session.archivedAt.value);
    }
  }

  /** This step is a pass that writes its transcript while the message is a row of its session. */
  predicate Catches(w: World, a: Action, id: nat) {
    a.Archive? && a.budget >= 1 && id in w.hot && w.hot[id].session == a.sid
  }

  /** Some step before n does. */
  ghost predicate Caught(trace: seq<World>, actions: seq<Action>, n: nat, id: nat)
    requires n <= |actions| <= |trace|
  {
    exists j :: 0 <= j < n && Catches(trace[j], actions[j], id)
  }

  lemma StepCatches(w: World, a: Action, id: nat)
    requires Enabled(w, a)
    ensures id in Next(w, a).caught <==> id in w.caught || Catches(w, a, id)
  {
  }

  lemma {:induction false} CaughtExactly(trace: seq<World>, actions: seq<Action>, n: nat, id: nat)
    requires IsRun(trace, actions) && trace[0] == EMPTY && n <= |actions|
    ensures id in trace[n].caught <==> Caught(trace, actions, n, id)
  {
    if n == 0 {
    } else {
      hide Next, Enabled;
      CaughtExactly(trace, actions, n - 1, id);
      StepCatches(trace[n - 1], actions[n - 1], id);
    }
  }

  /** In every run from nothing, a message is archived exactly if some earlier pass over its session
      wrote its transcript while the message was in the hot table, ... */
  lemma ArchivedExactly(trace: seq<World>, actions: seq<Action>, n: nat, id: nat)
    requires IsRun(trace, actions) && trace[0] == EMPTY && n <= |actions| && id in trace[n].ever
    ensures Archived(trace[n].store, trace[n].ever[id]) <==> Caught(trace, actions, n, id)
  {
    hide Next, Enabled, Caught, Lines;
    StartSound();
    RunKeepsBasic(trace, actions, n, n);
    CaughtExactly(trace, actions, n, id);
  }

  /** ... and lost exactly if it has left the hot table and no pass did. */
  lemma LostExactly(trace: seq<World>, actions: seq<Action>, n: nat, id: nat)
    requires IsRun(trace, actions) && trace[0] == EMPTY && n <= |actions|
    ensures id in Lost(trace[n]) <==> id in trace[n].ever && id !in trace[n].hot && !Caught(trace, actions, n, id)
  {
    hide Next, Enabled, Caught, Lost;
    StartSound();
    RunKeepsBasic(trace, actions, n, n);
    LostAreUncaught(trace[n]);
    CaughtExactly(trace, actions, n, id);
  }

  /** So a run from nothing never loses a message exactly if every row is caught by a pass before the
      step that deletes it. */
  lemma NothingLostExactly(trace: seq<World>, actions: seq<Action>)
    requires IsRun(trace, actions) && trace[0] == EMPTY
    ensures
      (forall i :: 0 <= i <= |actions| ==> NothingLost(trace[i])) <==>
      (forall i, id :: 0 <= i < |actions| && id in Deleted(trace[i], actions[i]) ==> Caught(trace, actions, i, id))
  {
    hide Basic, Next, Enabled, Caught, Lost, Deleted;
    StartSound();
    forall i | 0 <= i < |actions|
      ensures Lost(trace[i + 1]) == Lost(trace[i]) + Losses(trace[i], actions[i])
    {
      RunKeepsBasic(trace, actions, i, i);
      StepLoses(trace[i], actions[i]);
    }
    forall i, id | 0 <= i < |actions| && id in Deleted(trace[i], actions[i])
      ensures id in Losses(trace[i], actions[i]) <==> !Caught(trace, actions, i, id)
    {
      CaughtExactly(trace, actions, i, id);
    }
    if forall i, id :: 0 <= i < |actions| && id in Deleted(trace[i], actions[i]) ==> Caught(trace, actions, i, id) {
      forall i | 0 <= i <= |actions| ensures NothingLost(trace[i]) {
        StillNothing(trace, actions, i);
      }
    }
    if forall i :: 0 <= i <= |actions| ==> NothingLost(trace[i]) {
      forall i, id | 0 <= i < |actions| && id in Deleted(trace[i], actions[i]) ensures Caught(trace, actions, i, id) {
        assert NothingLost(trace[i + 1]);
      }
    }
  }

  lemma {:induction false} StillNothing(trace: seq<World>, actions: seq<Action>, n: nat)
    requires IsRun(trace, actions) && trace[0] == EMPTY && n <= |actions|
    requires forall i :: 0 <= i < |actions| ==> Lost(trace[i + 1]) == Lost(trace[i]) + Losses(trace[i], actions[i])
    requires forall i, id :: 0 <= i < |actions| && id in Deleted(trace[i], actions[i]) ==>
      (id in Losses(trace[i], actions[i]) <==> !Caught(trace, actions, i, id)) && Caught(trace, actions, i, id)
    ensures NothingLost(trace[n])
  {
    hide Lost, Next, Enabled, Deleted, Caught;
    if n == 0 {
      StartSound();
    } else {
      StillNothing(trace, actions, n - 1);
      assert Losses(trace[n - 1], actions[n - 1]) == {};
    }
  }

  // ---------------------------------------------------------------- careful runs

  /** Some routine has been or is about to be told that the session may be deleted. */
  ghost predicate Open(w: World, sid: Uuid) {
    exists k :: k in w.tickets && k.1 == sid && Cleared(w.tickets[k])
  }

  /** No message of the session has come since any such routine last knew its rows. */
  ghost predicate NoLate(w: World) {
    forall k, id :: k in w.tickets && Cleared(w.tickets[k]) && id in w.hot && w.hot[id].session == k.1 ==>
      id in w.tickets[k].known
  }

  /** No such routine knows of a message that was stored while its session was fresh and has not been
      caught since. */
  ghost predicate Clean(w: World) {
    forall k, id :: k in w.tickets && Cleared(w.tickets[k]) && id in w.tickets[k].known && id in w.undated ==>
      id in w.caught
  }

  /** A message does not come between a routine's look, or its archive pass, and its deletion; no
      routine looks at a fresh session between the storing of a row and the move of its activity; and
      nothing is deleted without a licence. */
  ghost predicate Careful(w: World, a: Action) {
    && (a.Insert? ==> !Open(w, a.sid))
    && (a.Look? ==> Timely(w, a.sid))
    && !a.Purge?
  }

  ghost predicate Safe(w: World) {
    Sound(w) && NoLate(w) && Clean(w) && NothingLost(w)
  }

  lemma CarefulKeepsNoLate(w: World, a: Action)
    requires HistoryOk(w) && NoLate(w) && Enabled(w, a) && Careful(w, a)
    ensures NoLate(Next(w, a))
  {
    hide Rearchive;
  }

  lemma CarefulKeepsClean(w: World, a: Action)
    requires HistoryOk(w) && Clean(w) && Enabled(w, a) && Careful(w, a)
    requires a.Archive? && (a.r, a.sid) in Next(w, a).tickets ==> a.budget >= 1
    ensures Clean(Next(w, a))
  {
    hide Rearchive;
  }

  lemma CarefulLosesNothing(w: World, a: Action)
    requires TicketsTrue(w) && NoLate(w) && Clean(w) && Enabled(w, a) && Careful(w, a)
    ensures Losses(w, a) == {}
  {
  }

  lemma CarefulKeepsSafe(w: World, a: Action)
    requires Safe(w) && Enabled(w, a) && Careful(w, a)
    ensures Safe(Next(w, a))
  {
    hide FreshKnown, TicketsTrue, NoLate, Clean, Next, Enabled, Lost, Losses, Consistent, Authentic, CaughtAreArchived;
    StepKeepsSound(w, a);
    CarefulKeepsNoLate(w, a);
    if a.Archive? {
      ArchiveAdds(w, a);
    }
    CarefulKeepsClean(w, a);
    CarefulLosesNothing(w, a);
    StepLoses(w, a);
  }

  /** Conservation over every careful run: whatever the order of inserts, renames, archive attempts
      that succeed, fail or stop half-way, and deletions on licence by any number of routines, every
      message ever inserted is in the hot table or, word for word, in its own session's archive, and
      nothing else is. */
  lemma {:induction false} NoRunLosesAMessage(trace: seq<World>, actions: seq<Action>, n: nat)
    requires IsRun(trace, actions) && trace[0] == EMPTY && n <= |actions|
    requires forall i :: 0 <= i < n ==> Careful(trace[i], actions[i])
    ensures Safe(trace[n])
    ensures NothingLost(trace[n]) && Authentic(trace[n]) && Consistent(trace[n].store)
  {
    if n == 0 {
      StartSound();
    } else {
      hide Next, Enabled, Careful, Lost, NoLate, Clean, FreshKnown, TicketsTrue, RowsOk, Consistent, Authentic;
      NoRunLosesAMessage(trace, actions, n - 1);
      CarefulKeepsSafe(trace[n - 1], actions[n - 1]);
    }
  }

  /** Carefulness is the least that will do: an insert keeps the world safe exactly if no routine is
      about to delete its session, ... */
  lemma InsertIsSafeExactly(w: World, a: Action)
    requires Safe(w) && a.Insert? && Enabled(w, a)
    ensures Safe(Next(w, a)) <==> !Open(w, a.sid)
  {
    if !Open(w, a.sid) {
      CarefulKeepsSafe(w, a);
    } else {
      hide Consistent, Authentic, RowsOk, Lost, CaughtAreArchived;
      var k :| k in w.tickets && k.1 == a.sid && Cleared(w.tickets[k]);
      assert a.line.id !in w.tickets[k].known;
      assert Next(w, a).hot[a.line.id].session == k.1;
    }
  }

  /** ... and a look exactly if the freshness test overlooks no row. */
  lemma LookIsSafeExactly(w: World, a: Action)
    requires Safe(w) && a.Look? && Enabled(w, a)
    ensures Safe(Next(w, a)) <==> Timely(w, a.sid)
  {
    if Timely(w, a.sid) {
      CarefulKeepsSafe(w, a);
    } else {
      hide Consistent, Authentic, RowsOk, Lost, CaughtAreArchived;
      var id :| id in w.hot && w.hot[id].session == a.sid && Overlooked(w, id);
      var k, w' := (a.r, a.sid), Next(w, a);
      assert k in w'.tickets && Cleared(w'.tickets[k]) && id in w'.tickets[k].known;
    }
  }

  // ---------------------------------------------------------------- what careless runs lose

  /** A message that comes after the licence and before the deletion is lost, wherever a licence is
      held, with no archive pass under way. */
  lemma ArrivalBeforeDeleteIsLost(w: World, r: nat, sid: Uuid, line: Line)
    requires Basic(w) && sid in w.sessions && line.id !in w.ever
    requires (r, sid) in w.tickets && w.tickets[(r, sid)].Licence?
    ensures
      var arrived := Next(w, Insert(sid, line));
      Enabled(arrived, Delete(sid)) && line.id in Lost(Next(arrived, Delete(sid)))
  {
    hide Lines;
    NewIsUnarchived(w, sid, line);
    var arrived := Next(w, Insert(sid, line));
    assert (r, sid) in arrived.tickets && (r, sid).1 == sid;
    assert Licensed(arrived, sid);
  }

  /** The steps after which a routine holds a licence for a fresh session. */
  lemma FreshIsApproved(w: World, r: nat, sid: Uuid)
    requires sid in w.sessions && Fresh(w, sid) && (r, sid) !in w.tickets
    ensures
      Enabled(w, Look(r, sid)) &&
      var looked := Next(w, Look(r, sid));
      Enabled(looked, Approve(r, sid)) &&
      var approved := Next(looked, Approve(r, sid));
      && approved.hot == w.hot && approved.ever == w.ever && approved.store == w.store
      && approved.sessions == w.sessions && Licensed(approved, sid)
  {
  }

  /** A message stored in a fresh session is lost without any race if a routine looks before the
      activity is moved: the session is still taken for archived. Moving the activity afterwards does
      not help, as the licence is not questioned again. */
  lemma UndatedMessageIsLost(w: World, r: nat, sid: Uuid, line: Line, now: int)
    requires Basic(w) && sid in w.sessions && Fresh(w, sid) && line.id !in w.ever && (r, sid) !in w.tickets
    requires now >= w.sessions[sid].lastActivity
    ensures
      var stored := Next(w, Insert(sid, line));
      Enabled(stored, Look(r, sid)) &&
      var looked := Next(stored, Look(r, sid));
      Enabled(looked, Approve(r, sid)) &&
      var approved := Next(looked, Approve(r, sid));
      && Enabled(approved, Delete(sid)) && line.id in Lost(Next(approved, Delete(sid)))
      && Enabled(approved, Touch(sid, now)) &&
      var moved := Next(approved, Touch(sid, now));
      Enabled(moved, Delete(sid)) && line.id in Lost(Next(moved, Delete(sid)))
  {
    hide Lines, Basic;
    NewIsUnarchived(w, sid, line);
    var stored := Next(w, Insert(sid, line));
    FreshIsApproved(stored, r, sid);
    var approved := Next(Next(stored, Look(r, sid)), Approve(r, sid));
    assert Licensed(Next(approved, Touch(sid, now)), sid);
  }

  /** A routine that has found the session fresh, or holds a licence, can destroy any row of the session
      that no pass has caught. */
  lemma ClearedCanLose(w: World, k: Dealing, id: nat) returns (trace: seq<World>, actions: seq<Action>)
    requires Basic(w) && k in w.tickets && Cleared(w.tickets[k]) && k.1 in w.sessions
    requires id in w.hot && w.hot[id].session == k.1 && id !in w.caught
    ensures IsRun(trace, actions) && trace[0] == w && id in Lost(trace[|actions|])
  {
    hide Lost, Consistent, Authentic, CaughtAreArchived, HistoryOk, RowsOk;
    var a := Delete(k.1);
    if w.tickets[k].Licence? {
      assert Licensed(w, k.1);
      StepLoses(w, a);
      trace, actions := [w, Next(w, a)], [a];
    } else {
      var b := Approve(k.0, k.1);
      assert k == (k.0, k.1);
      var w' := Next(w, b);
      StepKeepsBasic(w, b);
      hide Basic, Lost;
      assert k in w'.tickets && w'.tickets[k].Licence?;
      StepLoses(w', a);
      trace, actions := [w, w', Next(w', a)], [b, a];
    }
  }

  /** So a message or a look that is not careful, in any safe world, can cost a message. */
  lemma CarelessCanLose(w: World, a: Action) returns (trace: seq<World>, actions: seq<Action>)
    requires Safe(w) && Enabled(w, a) && !Careful(w, a) && !a.Purge?
    ensures IsRun(trace, actions) && trace[0] == Next(w, a) && !NothingLost(trace[|actions|])
  {
    StepKeepsBasic(w, a);
    hide Consistent, Authentic, CaughtAreArchived, Lost, IsRun;
    var w' := Next(w, a);
    if a.Insert? {
      var k :| k in w.tickets && k.1 == a.sid && Cleared(w.tickets[k]);
      assert w'.hot[a.line.id].session == k.1;
      trace, actions := ClearedCanLose(w', k, a.line.id);
    } else {
      var id :| id in w.hot && w.hot[id].session == a.sid && Overlooked(w, id);
      trace, actions := ClearedCanLose(w', (a.r, a.sid), id);
    }
  }

  /** Both happen: a session archived once, with routine 0 holding the licence. */
  lemma ArchivedOnce(sid: Uuid, user: Uuid) returns (trace: seq<World>, actions: seq<Action>)
    ensures IsRun(trace, actions) && trace[0] == EMPTY && |actions| == 3
    ensures forall i :: 0 <= i < 3 ==> Careful(trace[i], actions[i])
    ensures sid in trace[3].sessions && Fresh(trace[3], sid) && trace[3].ever == map[]
    ensures (0, sid) in trace[3].tickets && trace[3].tickets[(0, sid)].Licence?
  {
    hide Rearchive, Overlooked;
    var a, b := Create(sid, user, 0), Look(0, sid);
    var w1 := Next(EMPTY, a);
    var w2 := Next(w1, b);
    var c := Action.Archive(0, sid, [], 0, 1, 2, true);
    EmptyPass(w2, c);
    trace, actions := [EMPTY, w1, w2, Next(w2, c)], [a, b, c];
  }

  lemma EmptyPass(w: World, a: Action)
    requires a.Archive? && a.sid in w.sessions && w.store == map[] && a.rows == [] && a.budget == 2
    ensures Rearchive(w.store, w.sessions[a.sid].user, a.sid, a.rows, true, a.userMessages, a.now, a.budget).1
  {
  }

  // ---------------------------------------------------------------- reachability

  ghost predicate Reachable(w: World, w': World) {
    exists trace, actions :: IsRun(trace, actions) && trace[0] == w && trace[|actions|] == w'
  }

  lemma ReachSelf(w: World)
    ensures Reachable(w, w)
  {
    assert IsRun([w], []) && [w][0] == w;
  }

  lemma ReachStep(w: World, w': World, a: Action)
    requires Reachable(w, w') && Enabled(w', a)
    ensures Reachable(w, Next(w', a))
  {
    hide Enabled, Next;
    var trace, actions :| IsRun(trace, actions) && trace[0] == w && trace[|actions|] == w';
    var trace', actions' := trace + [Next(w', a)], actions + [a];
    assert IsRun(trace', actions') && trace'[0] == w && trace'[|actions'|] == Next(w', a);
  }

  lemma ReachTrans(w: World, w': World, w'': World)
    requires Reachable(w, w') && Reachable(w', w'')
    ensures Reachable(w, w'')
  {
    hide Enabled, Next;
    var t, a :| IsRun(t, a) && t[0] == w && t[|a|] == w';
    var u, b :| IsRun(u, b) && u[0] == w' && u[|b|] == w'';
    var trace, actions := t + u[1..], a + b;
    forall i | 0 <= i < |actions|
      ensures Enabled(trace[i], actions[i]) && trace[i + 1] == Next(trace[i], actions[i])
    {
      if i >= |a| {
        assert trace[i] == u[i - |a|] && trace[i + 1] == u[i - |a| + 1];
      }
    }
    assert IsRun(trace, actions) && trace[0] == w && trace[|actions|] == w'';
  }
}
