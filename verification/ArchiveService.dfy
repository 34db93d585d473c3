/** The background routines over the hot tables and the archive, with messages arriving at every
    point where a routine waits: each is a run of the Durability machine, with an exact account of
    what it loses. */
module ArchiveService {
  import opened Wrappers
  import opened ObjectKeys
  import opened Transcripts
  import opened ArchiveStore
  import opened StoreBackends
  import opened Durability
  import opened OldestFirst
  import opened Retention

  const ARCHIVE_SWEEP_BATCH: nat := 25

  /** What arrives of a message: first its row, and later, if at all, its session's activity is moved. */
  datatype Arrival = Stored(session: Uuid, line: Line) | Moved(session: Uuid, now: int)

  /** The number of substantive user records among the first `n` lines. */
  function UserMessages(lines: seq<Line>, substantive: string -> bool, n: nat): nat
    requires n <= |lines|
  {
    if n == 0 then 0
    else
      UserMessages(lines, substantive, n - 1)
      + if lines[n - 1].role == "user" && substantive(lines[n - 1].content) then 1 else 0
  }

  predicate Counts(line: Line, substantive: string -> bool) {
    line.role == "user" && substantive(line.content)
  }

  /** That is the number of places where a substantive user record stands. */
  lemma UserMessagesExact(lines: seq<Line>, substantive: string -> bool, n: nat)
    requires n <= |lines|
    ensures UserMessages(lines, substantive, n) ==
            |set i | 0 <= i < n && lines[i].role == "user" && substantive(lines[i].content)|
  {
    CountsAdd(lines, substantive, n);
    assert (set i | 0 <= i < n && Counts(lines[i], substantive)) ==
           set i | 0 <= i < n && lines[i].role == "user" && substantive(lines[i].content);
  }

  lemma {:induction false} CountsAdd(lines: seq<Line>, substantive: string -> bool, n: nat)
    requires n <= |lines|
    ensures UserMessages(lines, substantive, n) == |set i | 0 <= i < n && Counts(lines[i], substantive)|
  {
    var places := set i | 0 <= i < n && Counts(lines[i], substantive);
    if n == 0 {
    } else {
      CountsAdd(lines, substantive, n - 1);
      var before := set i | 0 <= i < n - 1 && Counts(lines[i], substantive);
      assert UserMessages(lines, substantive, n) ==
             UserMessages(lines, substantive, n - 1) + if Counts(lines[n - 1], substantive) then 1 else 0;
      hide Counts, UserMessages;
      if Counts(lines[n - 1], substantive) {
        assert places == before + {n - 1};
      } else {
        assert places == before;
      }
    }
  }

  function Stamped(sessions: map<Uuid, Session>, ids: set<Uuid>, now: int): map<Uuid, Session> {
    map sid | sid in sessions :: if sid in ids then sessions[sid].(archivedAt := Some(now)) else sessions[sid]
  }

  /** The rows of the archive-eligible query, by last activity. */
  function EligibleAges(sessions: map<Uuid, Session>, cutoff: int): map<Uuid, int> {
    map sid | sid in sessions && !sessions[sid].active && sessions[sid].lastActivity < cutoff
              && (sessions[sid].archivedAt.None? || sessions[sid].archivedAt.value < sessions[sid].lastActivity)
      :: sessions[sid].lastActivity
  }

  /** The SQL filter selects an idle session exactly when the freshness test rejects it. */
  lemma EligibleMeansNotFresh(sessions: map<Uuid, Session>, cutoff: int, sid: Uuid)
    requires sid in sessions
    ensures sid in EligibleAges(sessions, cutoff) <==>
            !sessions[sid].active && sessions[sid].lastActivity < cutoff
            && !IsArchiveFresh(sessions[sid].archivedAt, sessions[sid].lastActivity)
  {
  }

  /** One sweep in which every archive and stamp succeeds: the sessions before and after. */
  ghost predicate CleanBatch(s: map<Uuid, Session>, s': map<Uuid, Session>, cutoff: int, now: int, batch: seq<Uuid>) {
    IsOldest(EligibleAges(s, cutoff), ARCHIVE_SWEEP_BATCH, batch) && s' == Stamped(s, SetOf(batch), now)
  }

  // ---------------------------------------------------------------- what waiting and archiving change

  /** From w to w' messages and archive passes may have come, but no row has gone: a run of the
      machine that loses nothing. */
  ghost predicate Onward(w: World, w': World) {
    && Reachable(w, w')
    && Lost(w') == Lost(w)
    && (forall id :: id in w.hot ==> id in w'.hot && w'.hot[id] == w.hot[id])
    && (forall id :: id in w'.hot && id !in w.hot ==> id !in w.ever)
    && HistoryGrows(w, w')
    && w'.sessions.Keys == w.sessions.Keys
    && (forall sid :: sid in w.sessions ==> w'.sessions[sid].user == w.sessions[sid].user)
  }

  ghost predicate HistoryGrows(w: World, w': World) {
    && (forall id :: id in w.ever ==> id in w'.ever && w'.ever[id] == w.ever[id])
    && w.caught <= w'.caught
    && (forall id :: id in w'.undated && id in w.ever ==> id in w.undated)
  }

  lemma OnwardSelf(w: World)
    ensures Onward(w, w)
  {
    ReachSelf(w);
  }

  lemma OnwardTrans(w: World, w': World, w'': World)
    requires Onward(w, w') && Onward(w', w'')
    ensures Onward(w, w'')
  {
    hide Lost;
    ReachTrans(w, w', w'');
  }

  /** Messages came, and nothing else happened. */
  ghost predicate Arrived(w: World, w': World) {
    && Onward(w, w') && w'.store == w.store && w'.tickets == w.tickets && w'.caught == w.caught
    && (forall sid :: sid in w.sessions ==> w'.sessions[sid].archivedAt == w.sessions[sid].archivedAt)
  }

  lemma OneStep(w: World, a: Action)
    requires Enabled(w, a)
    ensures Reachable(w, Next(w, a))
  {
    ReachSelf(w);
    ReachStep(w, w, a);
  }

  lemma StepArrives(w: World, a: Action)
    requires Basic(w) && (a.Insert? || a.Touch?) && Enabled(w, a)
    ensures Arrived(w, Next(w, a))
  {
    hide Lost, Basic, Reachable, Fresh;
    StepLoses(w, a);
    BasicRows(w);
    OneStep(w, a);
  }

  lemma ArrivedTrans(w: World, w': World, w'': World)
    requires Arrived(w, w') && Arrived(w', w'')
    ensures Arrived(w, w'')
  {
    hide Lost, Reachable;
    OnwardTrans(w, w', w'');
  }

  /** What the licence knows if the archive says yes. */
  function Knows(w: World, k: Dealing): set<nat>
    requires k in w.tickets
  {
    if w.tickets[k].Looked? && !w.tickets[k].isFresh then HotOf(w.hot, k.1).Keys else w.tickets[k].known
  }

  /** The archive was asked about a session, and answered: yes is a licence, no ends the dealing. */
  ghost predicate Asked(w: World, w': World, k: Dealing, ok: bool)
    requires k in w.tickets
  {
    && Onward(w, w') && w'.hot == w.hot && w'.ever == w.ever
    && w'.tickets == (if ok then w.tickets[k := Licence(Knows(w, k))] else w.tickets - {k})
    && (ok && w.tickets[k].Looked? && !w.tickets[k].isFresh ==> HotOf(w.hot, k.1).Keys <= w'.caught)
  }

  lemma ApproveAsked(w: World, r: nat, sid: Uuid)
    requires Basic(w) && Enabled(w, Approve(r, sid))
    ensures Asked(w, Next(w, Approve(r, sid)), (r, sid), true)
  {
    hide Lost, Basic, Reachable;
    OneStep(w, Approve(r, sid));
    StepLoses(w, Approve(r, sid));
  }

  lemma ArchiveAsked(w: World, a: Action)
    requires Basic(w) && a.Archive? && Enabled(w, a)
    ensures Asked(w, Next(w, a), (a.r, a.sid), (a.r, a.sid) in Next(w, a).tickets)
  {
    hide Lost, Basic, Rearchive, Reachable, Lines, Consistent;
    ArchiveAdds(w, a);
    OneStep(w, a);
    StepLoses(w, a);
  }

  // ---------------------------------------------------------------- a routine's dealings

  function Mine(r: nat, sids: set<Uuid>): set<Dealing> {
    set sid | sid in sids :: (r, sid)
  }

  /** The routine has no dealings. */
  predicate Idle(tickets: map<Dealing, Ticket>, r: nat) {
    forall k :: k in tickets ==> k.0 != r
  }

  /** Loading the rows of some sessions at one moment. */
  function Looks(w: World, r: nat, sids: set<Uuid>): map<Dealing, Ticket>
    requires sids <= w.sessions.Keys
  {
    map k | k in Mine(r, sids) :: Looked(Fresh(w, k.1), HotOf(w.hot, k.1).Keys)
  }

  lemma LooksGrow(w: World, r: nat, sids: set<Uuid>, sid: Uuid)
    requires sids <= w.sessions.Keys && sid in w.sessions && sid !in sids
    ensures (r, sid) !in Looks(w, r, sids)
    ensures Looks(w, r, sids + {sid}) == Looks(w, r, sids)[(r, sid) := Looked(Fresh(w, sid), HotOf(w.hot, sid).Keys)]
  {
  }

  lemma LookOneMore(w: World, r: nat, sids: set<Uuid>, sid: Uuid)
    requires sids <= w.sessions.Keys && sid in w.sessions && sid !in sids
    requires Idle(w.tickets, r)
    ensures
      var w' := w.(tickets := w.tickets + Looks(w, r, sids));
      && Enabled(w', Look(r, sid))
      && Next(w', Look(r, sid)) == w.(tickets := w.tickets + Looks(w, r, sids + {sid}))
  {
    hide Looks, HotOf;
    LooksGrow(w, r, sids, sid);
    assert (r, sid) !in w.tickets;
    var looks, t := Looks(w, r, sids), Looked(Fresh(w, sid), HotOf(w.hot, sid).Keys);
    assert (w.tickets + looks)[(r, sid) := t] == w.tickets + looks[(r, sid) := t];
  }

  /** Everybody else's dealings. */
  function Others(tickets: map<Dealing, Ticket>, r: nat): map<Dealing, Ticket> {
    map k | k in tickets && k.0 != r :: tickets[k]
  }

  lemma DropOne(w: World, k: Dealing)
    requires Sound(w) && k in w.tickets
    ensures
      var w' := w.(tickets := w.tickets - {k});
      Onward(w, w') && Sound(w')
  {
    hide Basic, Lost, Reachable, FreshKnown, TicketsTrue;
    var a := Drop(k.0, k.1);
    assert k == (k.0, k.1) && Next(w, a) == w.(tickets := w.tickets - {k});
    OneStep(w, a);
    StepLoses(w, a);
    StepKeepsSound(w, a);
  }

  lemma {:induction false} DropAll(w: World, r: nat, mine: set<Dealing>)
    requires Sound(w) && mine == (set k | k in w.tickets && k.0 == r)
    ensures
      var w' := w.(tickets := Others(w.tickets, r));
      Onward(w, w') && Sound(w')
    decreases |mine|
  {
    hide Sound, Onward;
    if mine == {} {
      assert forall k :: k in w.tickets ==> k !in mine && k.0 != r;
      assert Others(w.tickets, r) == w.tickets;
      OnwardSelf(w);
    } else {
      var k :| k in mine;
      var w' := w.(tickets := w.tickets - {k});
      DropOne(w, k);
      assert mine - {k} == set j | j in w'.tickets && j.0 == r;
      DropAll(w', r, mine - {k});
      assert Others(w'.tickets, r) == Others(w.tickets, r);
      OnwardTrans(w, w', w.(tickets := Others(w.tickets, r)));
    }
  }

  ghost predicate WorkingTickets(w0: World, tickets: map<Dealing, Ticket>, r: nat, rest: set<Uuid>, done: set<Uuid>)
    requires rest <= w0.sessions.Keys
  {
    && (forall k :: k in tickets && k.0 == r ==> k.1 in rest + done)
    && (forall sid :: sid in rest ==>
          (r, sid) in tickets && tickets[(r, sid)] == Looked(Fresh(w0, sid), HotOf(w0.hot, sid).Keys))
    && (forall sid :: sid in done ==>
          (r, sid) in tickets && tickets[(r, sid)].Licence? && HotOf(w0.hot, sid).Keys <= tickets[(r, sid)].known)
    && Others(tickets, r) == Others(w0.tickets, r)
  }

  lemma TicketsAsk(w0: World, tickets: map<Dealing, Ticket>, r: nat, rest: set<Uuid>, done: set<Uuid>, sid: Uuid,
                   ok: bool, known: set<nat>)
    requires rest <= w0.sessions.Keys && rest !! done && sid in rest && WorkingTickets(w0, tickets, r, rest, done)
    requires HotOf(w0.hot, sid).Keys <= known
    ensures
      var k := (r, sid);
      var more := if ok then tickets[k := Licence(known)] else tickets - {k};
      WorkingTickets(w0, more, r, rest - {sid}, if ok then done + {sid} else done)
  {
  }

  /** Of the sessions in `done`, all rows of w0 have been caught by w, but for those the freshness test
      overlooked. */
  predicate Backed(w0: World, w: World, done: set<Uuid>) {
    forall id :: id in w0.hot && w0.hot[id].session in done ==> id in w.caught || Overlooked(w0, id)
  }

  /** A routine working through the sessions it loaded at w0: `rest` are still to be asked about,
      `done` are licensed. */
  ghost predicate Working(w0: World, w: World, r: nat, rest: set<Uuid>, done: set<Uuid>) {
    && FreshKnown(w0) && RowsOk(w0) && Onward(w0, w)
    && rest <= w0.sessions.Keys && done <= w0.sessions.Keys && rest !! done
    && WorkingTickets(w0, w.tickets, r, rest, done)
    && Backed(w0, w, done)
  }

  lemma WorkingStarts(w0: World, r: nat, sids: set<Uuid>)
    requires FreshKnown(w0) && RowsOk(w0) && sids <= w0.sessions.Keys && Idle(w0.tickets, r)
    requires Onward(w0, w0.(tickets := w0.tickets + Looks(w0, r, sids)))
    ensures Working(w0, w0.(tickets := w0.tickets + Looks(w0, r, sids)), r, sids, {})
  {
    hide Lost, Reachable, FreshKnown, RowsOk, Onward, Overlooked, Fresh, HotOf;
    forall sid | sid in sids ensures (r, sid) in Mine(r, sids) {
    }
  }

  lemma WorkingWaits(w0: World, w: World, w': World, r: nat, rest: set<Uuid>, done: set<Uuid>)
    requires Working(w0, w, r, rest, done) && Arrived(w, w')
    ensures Working(w0, w', r, rest, done)
  {
    hide Lost, Reachable, FreshKnown, RowsOk;
    OnwardTrans(w0, w, w');
  }

  lemma WorkingAsks(w0: World, w: World, w': World, r: nat, rest: set<Uuid>, done: set<Uuid>, sid: Uuid, ok: bool)
    requires Working(w0, w, r, rest, done) && sid in rest
    requires (r, sid) in w.tickets && Asked(w, w', (r, sid), ok)
    ensures Working(w0, w', r, rest - {sid}, if ok then done + {sid} else done)
  {
    hide Onward, WorkingTickets, HotOf, Knows, FreshKnown, RowsOk, Backed;
    OnwardTrans(w0, w, w');
    WorkingGives(w0, w, r, rest, done, sid);
    KnowsOldRows(w0, w, r, sid);
    TicketsAsk(w0, w.tickets, r, rest, done, sid, ok, Knows(w, (r, sid)));
    BackedMore(w0, w, w', r, done, sid, ok);
  }

  lemma BackedMore(w0: World, w: World, w': World, r: nat, done: set<Uuid>, sid: Uuid, ok: bool)
    requires FreshKnown(w0) && RowsOk(w0) && Onward(w0, w) && Backed(w0, w, done) && sid in w0.sessions
    requires (r, sid) in w.tickets && w.tickets[(r, sid)] == Looked(Fresh(w0, sid), HotOf(w0.hot, sid).Keys)
    requires Asked(w, w', (r, sid), ok)
    ensures Backed(w0, w', if ok then done + {sid} else done)
  {
    hide Lost, Reachable;
  }

  lemma KnowsOldRows(w0: World, w: World, r: nat, sid: Uuid)
    requires Onward(w0, w) && sid in w0.sessions
    requires (r, sid) in w.tickets && w.tickets[(r, sid)] == Looked(Fresh(w0, sid), HotOf(w0.hot, sid).Keys)
    ensures HotOf(w0.hot, sid).Keys <= Knows(w, (r, sid))
  {
  }

  /** Whoever is licensed had all its rows of w0 archived, but for those the freshness test overlooked. */
  lemma WorkingVouches(w0: World, w: World, r: nat, rest: set<Uuid>, done: set<Uuid>)
    requires Working(w0, w, r, rest, done) && Basic(w)
    ensures forall id :: id in w0.hot && w0.hot[id].session in done ==>
              Overlooked(w0, id) || (id in w.ever && Archived(w.store, w.ever[id]))
  {
  }

  // ---------------------------------------------------------------- deleting a session

  /** What deleting the session's rows destroys: those that no archive pass has caught. */
  function RowsLost(w: World, sid: Uuid): set<nat> {
    HotOf(w.hot, sid).Keys - w.caught
  }

  lemma DeletedRows(w: World, sid: Uuid)
    requires Licensed(w, sid)
    ensures
      var ids := HotOf(w.hot, sid).Keys;
      Enabled(w, Trim(ids)) && Next(w, Trim(ids)) == w.(hot := Without(w.hot, sid))
  {
  }

  lemma DeletedRowsLose(w: World, sid: Uuid)
    requires Basic(w) && sid in w.sessions && Licensed(w, sid)
    ensures Enabled(w, Trim(HotOf(w.hot, sid).Keys))
    ensures Lost(Next(w, Trim(HotOf(w.hot, sid).Keys))) == Lost(w) + RowsLost(w, sid)
    ensures Lost(Next(w, Delete(sid))) == Lost(w) + RowsLost(w, sid)
  {
    hide Licensed, Lost, Basic;
    var ids := HotOf(w.hot, sid).Keys;
    StepLoses(w, Trim(ids));
    StepLoses(w, Delete(sid));
    assert Losses(w, Trim(ids)) == RowsLost(w, sid);
    assert Losses(w, Delete(sid)) == RowsLost(w, sid);
  }

  /** Closing a session deletes no row but its own, and those only on yes; whatever is new came in
      between. */
  ghost predicate ClosedTables(w: World, w': World, sid: Uuid, archived: bool, deleted: bool) {
    && (forall id :: id in w'.hot ==> (id in w.hot && w'.hot[id] == w.hot[id]) || id !in w.ever)
    && (forall id :: id in w.hot && (w.hot[id].session != sid || !archived) ==> id in w'.hot)
    && HistoryGrows(w, w')
    && w'.sessions.Keys == (if deleted then w.sessions.Keys - {sid} else w.sessions.Keys)
    && (forall s :: s in w'.sessions ==> w'.sessions[s].user == w.sessions[s].user)
  }

  lemma OnwardTables(w: World, w3: World, w': World, sid: Uuid, archived: bool, deleted: bool)
    requires Onward(w, w3) && w'.ever == w3.ever && w'.caught == w3.caught && w'.undated == w3.undated
    requires w'.sessions == if deleted then w3.sessions - {sid} else w3.sessions
    requires w'.hot == w3.hot || (archived && w'.hot == Without(w3.hot, sid))
    ensures ClosedTables(w, w', sid, archived, deleted)
  {
  }

  lemma OnwardLost(w: World, w': World)
    requires Onward(w, w')
    ensures Lost(w') == Lost(w) && Reachable(w, w')
  {
  }

  /** This row, which closing the session of ticket k destroyed, came after the look; or the look knew
      it, found its session fresh, and overlooked it. */
  predicate LateFor(w: World, k: Dealing, id: nat)
    requires k in w.tickets
  {
    id in w.ever ==>
      && id in w.hot && w.hot[id].session == k.1
      && (id in w.tickets[k].known ==>
            w.tickets[k].Looked? && w.tickets[k].isFresh && id in w.undated && id !in w.caught)
  }

  /** A session was closed: asked about, and on yes deleted, rows first, perhaps only in part. `late`
      are the rows that this destroyed. */
  ghost predicate Closed(w: World, w': World, k: Dealing, archived: bool, deleted: bool, late: set<nat>)
    requires k in w.tickets
  {
    && Reachable(w, w')
    && (deleted ==> archived) && (!archived ==> late == {})
    && ClosedTables(w, w', k.1, archived, deleted)
    && w'.tickets == w.tickets - {k}
    && Lost(w') == Lost(w) + late
    && (forall id :: id in late ==> id in w'.ever && w'.ever[id].session == k.1 && LateFor(w, k, id))
  }

  /** A no ends the dealing and deletes nothing. */
  lemma KeptOpen(w: World, w1: World, w': World, k: Dealing)
    requires k in w.tickets && Arrived(w, w1) && Asked(w1, w', k, false)
    ensures Closed(w, w', k, false, false, {})
  {
    hide Reachable, Lost, ClosedTables;
    OnwardTrans(w, w1, w');
    OnwardTables(w, w', w', k.1, false, false);
  }

  /** What the deletion destroys came after the look, or after the archive pass if there was one, or was
      overlooked by the look. */
  lemma LateIsNew(w: World, w1: World, w2: World, w3: World, k: Dealing, id: nat)
    requires RowsOk(w) && k in w.tickets && w.tickets[k].Looked?
    requires Arrived(w, w1) && Asked(w1, w2, k, true) && Arrived(w2, w3)
    requires RowsOk(w3) && TicketsTrue(w3) && id in RowsLost(w3, k.1)
    ensures LateFor(w, k, id) && id in w3.ever && w3.ever[id].session == k.1
    ensures !w.tickets[k].isFresh ==> id !in HotOf(w1.hot, k.1)
  {
    hide Reachable, Lost, Fresh;
    assert w3.ever[id] == EntryOf(w3, id);
    assert k in w3.tickets && w3.tickets[k] == Licence(Knows(w1, k));
    if w.tickets[k].isFresh {
      hide HotOf;
      assert id in w.tickets[k].known ==> id in w3.undated;
    } else {
      CaughtByPass(w1, w2, w3, k, id);
    }
  }

  lemma CaughtByPass(w1: World, w2: World, w3: World, k: Dealing, id: nat)
    requires k in w1.tickets && w1.tickets[k].Looked? && !w1.tickets[k].isFresh
    requires Asked(w1, w2, k, true) && Arrived(w2, w3) && id in RowsLost(w3, k.1)
    ensures id !in HotOf(w1.hot, k.1)
  {
  }

  lemma DeletedOnYes(w: World, w1: World, w2: World, w3: World, w4: World, k: Dealing,
                     deleted: bool, late: set<nat>)
    requires Sound(w) && Sound(w3) && Sound(w4) && k in w.tickets && w.tickets[k].Looked?
    requires Arrived(w, w1) && Asked(w1, w2, k, true) && Arrived(w2, w3) && Reachable(w3, w4)
    requires w4 == w3.(sessions := w4.sessions, hot := w4.hot)
    requires w4.sessions == (if deleted then w3.sessions - {k.1} else w3.sessions)
    requires w4.hot == w3.hot || w4.hot == Without(w3.hot, k.1)
    requires late <= RowsLost(w3, k.1) && Lost(w4) == Lost(w3) + late
    ensures Closed(w, w4.(tickets := w4.tickets - {k}), k, true, deleted, late)
  {
    hide Reachable, Lost, Sound, RowsLost, Onward, ClosedTables, LateFor;
    OnwardTrans(w, w1, w2);
    OnwardTrans(w, w2, w3);
    OnwardLost(w, w3);
    DropOne(w4, k);
    var w' := w4.(tickets := w4.tickets - {k});
    OnwardLost(w4, w');
    ReachTrans(w, w3, w4);
    ReachTrans(w, w4, w');
    OnwardTables(w, w3, w', k.1, true, deleted);
    SoundMeans(w);
    SoundMeans(w3);
    forall id | id in late ensures id in w'.ever && w'.ever[id].session == k.1 && LateFor(w, k, id) {
      LateIsNew(w, w1, w2, w3, k, id);
    }
  }

  lemma SoundMeans(w: World)
    requires Sound(w)
    ensures Basic(w) && RowsOk(w) && FreshKnown(w) && TicketsTrue(w)
  {
  }

  lemma BasicRows(w: World)
    requires Basic(w)
    ensures RowsOk(w)
  {
  }

  /** Rows go only from the sessions answered yes, sessions only if deleted, and whatever is new
      came in between. */
  ghost predicate ClosingTables(w0: World, w: World, done: set<Uuid>, gone: set<Uuid>) {
    && (forall id :: id in w.hot ==> (id in w0.hot && w.hot[id] == w0.hot[id]) || id !in w0.ever)
    && (forall id :: id in w0.hot && w0.hot[id].session !in done ==> id in w.hot)
    && HistoryGrows(w0, w)
    && w.sessions.Keys == w0.sessions.Keys - gone
    && (forall sid :: sid in w.sessions ==> w.sessions[sid].user == w0.sessions[sid].user)
  }

  ghost predicate ClosingTickets(w0: World, w: World, r: nat, rest: set<Uuid>)
    requires rest <= w0.sessions.Keys
  {
    && (forall k :: k in w.tickets && k.0 == r ==> k.1 in rest)
    && (forall sid :: sid in rest ==>
          (r, sid) in w.tickets && w.tickets[(r, sid)] == Looked(Fresh(w0, sid), HotOf(w0.hot, sid).Keys))
    && Others(w.tickets, r) == Others(w0.tickets, r)
  }

  /** A routine closing the sessions it loaded at w0: `rest` are still to be asked about, `done`
      were answered yes, `gone` are deleted, and `late` is what that destroyed: messages that came
      since, and rows that the freshness test overlooked at w0. */
  ghost predicate Closing(w0: World, w: World, r: nat, rest: set<Uuid>, done: set<Uuid>, gone: set<Uuid>,
                          late: set<nat>)
  {
    && Reachable(w0, w)
    && rest <= w0.sessions.Keys && gone <= done <= w0.sessions.Keys && rest !! done
    && ClosingTables(w0, w, done, gone)
    && ClosingTickets(w0, w, r, rest)
    && Lost(w) == Lost(w0) + late
    && (forall id :: id in late ==>
          && id in w.ever && w.ever[id].session in done
          && (id !in w0.ever || Overlooked(w0, id)))
  }

  lemma ClosingStarts(w0: World, w: World, r: nat, sids: set<Uuid>)
    requires Working(w0, w, r, sids, {}) && w.hot == w0.hot && w.ever == w0.ever
    ensures Closing(w0, w, r, sids, {}, {}, {})
  {
    hide Reachable, Lost, FreshKnown;
  }

  lemma TablesOn(w0: World, w: World, w': World, done: set<Uuid>, gone: set<Uuid>, k: Dealing, archived: bool,
                 deleted: bool, more: set<nat>)
    requires RowsOk(w0) && ClosingTables(w0, w, done, gone)
    requires k in w.tickets && Closed(w, w', k, archived, deleted, more)
    ensures ClosingTables(w0, w', if archived then done + {k.1} else done, if deleted then gone + {k.1} else gone)
  {
    hide Reachable, Lost, LateFor;
    HistoryTrans(w0, w, w');
    assert forall id :: id in w0.ever ==> id in w.ever;
    hide HistoryGrows;
  }

  lemma HistoryTrans(w: World, w': World, w'': World)
    requires HistoryGrows(w, w') && HistoryGrows(w', w'')
    ensures HistoryGrows(w, w'')
  {
  }

  lemma TicketsOn(w0: World, w: World, w': World, r: nat, rest: set<Uuid>, sid: Uuid)
    requires rest <= w0.sessions.Keys && ClosingTickets(w0, w, r, rest) && sid in rest
    requires w'.tickets == w.tickets - {(r, sid)}
    ensures ClosingTickets(w0, w', r, rest - {sid})
  {
  }

  lemma MoreIsNew(w0: World, w: World, r: nat, rest: set<Uuid>, done: set<Uuid>, gone: set<Uuid>, sid: Uuid, id: nat)
    requires rest <= w0.sessions.Keys && sid in rest
    requires ClosingTables(w0, w, done, gone) && ClosingTickets(w0, w, r, rest)
    requires LateFor(w, (r, sid), id)
    ensures id !in w0.ever || Overlooked(w0, id)
  {
  }

  lemma ClosingOn(w0: World, w: World, w': World, r: nat, rest: set<Uuid>, done: set<Uuid>, gone: set<Uuid>,
                  late: set<nat>, sid: Uuid, archived: bool, deleted: bool, more: set<nat>)
    requires RowsOk(w0) && Closing(w0, w, r, rest, done, gone, late) && sid in rest
    requires (r, sid) in w.tickets && Closed(w, w', (r, sid), archived, deleted, more)
    ensures Closing(w0, w', r, rest - {sid}, if archived then done + {sid} else done,
                    if deleted then gone + {sid} else gone, late + more)
  {
    hide Reachable, Lost, ClosingTables, ClosingTickets, LateFor, Overlooked;
    ReachTrans(w0, w, w');
    TablesOn(w0, w, w', done, gone, (r, sid), archived, deleted, more);
    TicketsOn(w0, w, w', r, rest, sid);
    forall id | id in more ensures id !in w0.ever || Overlooked(w0, id) {
      MoreIsNew(w0, w, r, rest, done, gone, sid, id);
    }
    LateKept(w0, w, done, gone, late, w');
  }

  lemma LateKept(w0: World, w: World, done: set<Uuid>, gone: set<Uuid>, late: set<nat>, w': World)
    requires forall id :: id in late ==> id in w.ever && w.ever[id].session in done
    requires forall id :: id in w.ever ==> id in w'.ever && w'.ever[id] == w.ever[id]
    ensures forall id :: id in late ==> id in w'.ever && w'.ever[id].session in done
  {
  }

  // ---------------------------------------------------------------- the service

  class ArchiveService {
    var sessions: map<Uuid, Session>
    var hot: map<nat, Row>
    const archive: ObjectArchiveStore
    const substantive: string -> bool
    /** What arrives at each point where a routine waits. */
    const traffic: nat -> seq<Arrival>
    var turn: nat
    /** The history: every message, every dealing, what archive passes caught, and what was stored in a
        fresh session. */
    var ever: map<nat, Entry>
    ghost var tickets: map<Dealing, Ticket>
    ghost var caught: set<nat>
    ghost var undated: set<nat>

    ghost function State(): World
      reads this, archive
    {
      World(sessions, hot, archive.objects, ever, tickets, caught, undated)
    }

    ghost predicate Valid()
      reads this, archive
    {
      Sound(State())
    }

    /** Nothing arrives from now on. */
    ghost predicate Silent()
      reads this
    {
      forall k :: k >= turn ==> traffic(k) == []
    }

    constructor (archive: ObjectArchiveStore, substantive: string -> bool, traffic: nat -> seq<Arrival>)
      requires archive.objects == map[]
      ensures State() == EMPTY && Valid()
      ensures this.archive == archive && this.traffic == traffic
    {
      this.archive, this.substantive, this.traffic, turn := archive, substantive, traffic, 0;
      sessions, hot, ever, tickets, caught, undated := map[], map[], map[], map[], {}, {};
      new;
      StartSound();
    }

    /** Stores one message's row. Its session's activity is not moved here. */
    method StoreMessage(sid: Uuid, line: Line)
      requires Valid() && sid in sessions && line.id !in ever
      modifies this`hot, this`ever, this`undated
      ensures Valid() && State() == Next(old(State()), Insert(sid, line))
      ensures hot == old(hot)[line.id := Row(sid, line)] && sessions == old(sessions)
    {
      hide Sound;
      StepKeepsSound(State(), Insert(sid, line));
      ever := ever[line.id := Entry(sid, sessions[sid].user, line)];
      hot := hot[line.id := Row(sid, line)];
      if IsArchiveFresh(sessions[sid].archivedAt, sessions[sid].lastActivity) {
        undated := undated + {line.id};
      }
    }

    /** Moves the session's last activity, the second statement of storing a message. */
    method MoveActivity(sid: Uuid, now: int)
      requires Valid() && sid in sessions && now >= sessions[sid].lastActivity
      modifies this`sessions
      ensures Valid() && State() == Next(old(State()), Touch(sid, now))
      ensures sessions == old(sessions)[sid := old(sessions)[sid].(lastActivity := now)]
    {
      hide Sound;
      StepKeepsSound(State(), Touch(sid, now));
      sessions := sessions[sid := sessions[sid].(lastActivity := now)];
    }

    /** One statement of somebody else's. A message of no session is refused, ids are new, and the
        clock does not run back. */
    method Arrive(arrival: Arrival)
      requires Valid()
      modifies this`sessions, this`hot, this`ever, this`undated
      ensures Valid() && Arrived(old(State()), State())
    {
      hide Arrived, Next;
      ghost var w := State();
      SoundMeans(w);
      hide Sound;
      ArrivedSelf(w);
      match arrival
      case Stored(sid, line) =>
        if sid in sessions && line.id !in ever {
          StepArrives(w, Insert(sid, line));
          StoreMessage(sid, line);
        }
      case Moved(sid, now) =>
        if sid in sessions && now >= sessions[sid].lastActivity {
          StepArrives(w, Touch(sid, now));
          MoveActivity(sid, now);
        }
    }

    /** Lets arrive what arrives here. */
    method Await()
      requires Valid()
      modifies this`sessions, this`hot, this`ever, this`undated, this`turn
      ensures Valid() && turn == old(turn) + 1
      ensures Arrived(old(State()), State())
      ensures old(Silent()) ==> State() == old(State()) && Silent()
    {
      hide Sound, Arrived;
      var arrivals := traffic(turn);
      turn := turn + 1;
      ArrivedSelf(State());
      for i := 0 to |arrivals|
        invariant Valid() && turn == old(turn) + 1
        invariant Arrived(old(State()), State())
        invariant i == 0 ==> State() == old(State())
      {
        ghost var w := State();
        Arrive(arrivals[i]);
        ArrivedTrans(old(State()), w, State());
      }
    }

    // -------------------------------------------------------------- archiving one session

    /** Loads the session's rows, merges them into its archived transcript and writes both objects. */
    method ArchiveOneSession(sid: Uuid, user: Uuid, now: int)
      returns (ok: bool, ghost rows: seq<Line>, ghost users: nat, ghost budget: nat)
      requires Basic(State()) && sid in sessions && user == sessions[sid].user
      modifies archive
      ensures ById(rows) == HotOf(hot, sid)
      ensures (archive.objects, ok) == Rearchive(old(archive.objects), user, sid, rows, true, users, now, budget)
      ensures var merged := Merge(Lines(old(archive.objects), user, sid), rows);
              ok ==>
                && Manifested(archive.objects, user, sid, merged, true, users, now)
                && users == |set i | 0 <= i < |merged| && merged[i].role == "user" && substantive(merged[i].content)|
      ensures old(archive.Up()) ==> ok && archive.Up()
    {
      ReadsBack(archive.objects, user, sid);
      RowsKeyed(State());
      var current := ListValues(HotOf(hot, sid));
      rows, users, budget := current, 0, 0;
      var existing := ReadTranscriptLines(archive.objects, user, sid);
      if existing.Err? {
        return false, rows, users, budget;
      }
      var merged := MergeTranscriptLines(if existing.value.Some? then existing.value.value else [], current);
      var counts := CountByRole(merged);
      var userCount := 0;
      for i := 0 to |merged|
        invariant userCount == UserMessages(merged, substantive, i)
      {
        if merged[i].role == "user" && substantive(merged[i].content) {
          userCount := userCount + 1;
        }
      }
      users := userCount;
      var info := if merged != [] then Some(TranscriptInfo(Transcript(user, sid), ZSTD, |merged|)) else None;
      ghost var before := archive.objects;
      ok, budget := archive.PutSessionArchive(user, sid, merged, ManifestBody(now, counts, Some(userCount), info));
      if ok {
        PassManifests(before, user, sid, rows, true, users, now, budget);
        UserMessagesExact(merged, substantive, |merged|);
      }
    }

    /** Loads the session's row. */
    method LoadSession(ghost r: nat, sid: Uuid) returns (row: Session)
      requires Valid() && sid in sessions && (r, sid) !in tickets
      modifies this`tickets
      ensures Valid() && row == sessions[sid] && State() == Next(old(State()), Look(r, sid))
    {
      StepKeepsSound(State(), Look(r, sid));
      row := sessions[sid];
      tickets := tickets[(r, sid) := Looked(IsArchiveFresh(row.archivedAt, row.lastActivity), HotOf(hot, sid).Keys)];
    }

    /** Archives the session unless the row loaded earlier is fresh. Yes is a licence to delete, whether
        or not the stamp could be stored: after an archive pass all rows of the session are archived. */
    method EnsureSessionArchived(ghost r: nat, sid: Uuid, row: Session, now: int, stampOk: bool) returns (ok: bool)
      requires Valid() && sid in sessions && row.user == sessions[sid].user
      requires (r, sid) in tickets && tickets[(r, sid)].Looked?
      requires tickets[(r, sid)].isFresh == IsArchiveFresh(row.archivedAt, row.lastActivity)
      modifies this`sessions, this`tickets, this`caught, archive
      ensures Valid() && Asked(old(State()), State(), (r, sid), ok)
      ensures var isFresh := IsArchiveFresh(row.archivedAt, row.lastActivity);
              && sessions == (if ok && !isFresh && stampOk then Stamped(old(sessions), {sid}, now) else old(sessions))
              && (isFresh ==> ok && archive.objects == old(archive.objects))
      ensures old(archive.Up()) ==> ok && archive.Up()
    {
      hide Basic, Sound, Rearchive, Asked, Next, Enabled, Stamped, HotOf, UserMessages;
      ghost var w := State();
      SoundMeans(w);
      if IsArchiveFresh(row.archivedAt, row.lastActivity) {
        ghost var a := Approve(r, sid);
        ApprovesTo(w, r, sid);
        ApproveAsked(w, r, sid);
        StepKeepsSound(w, a);
        tickets := tickets[(r, sid) := Licence(tickets[(r, sid)].known)];
        return true;
      }
      ghost var rows, users, budget;
      ok, rows, users, budget := ArchiveOneSession(sid, row.user, now);
      ghost var a := Action.Archive(r, sid, rows, users, now, budget, stampOk);
      ArchivesTo(w, a, archive.objects, ok);
      ArchiveAsked(w, a);
      StepKeepsSound(w, a);
      StampOneOnly(sessions, sid, now);
      if ok && stampOk {
        sessions := sessions[sid := sessions[sid].(archivedAt := Some(now))];
      }
      tickets := if ok then tickets[(r, sid) := Licence(HotOf(hot, sid).Keys)] else tickets - {(r, sid)};
      caught := if budget >= 1 then caught + HotOf(hot, sid).Keys else caught;
      assert State() == Next(w, a);
    }

    /** The looks of a query for several sessions' rows. */
    ghost method LookAtAll(r: nat, sids: set<Uuid>)
      requires Valid() && sids <= sessions.Keys && Idle(tickets, r)
      modifies this`tickets
      ensures Valid() && Onward(old(State()), State())
      ensures tickets == old(tickets) + Looks(old(State()), r, sids)
      decreases sids
    {
      hide Basic, Sound, Looks, Onward, Next, Idle;
      ghost var w := State();
      OnwardSelf(w);
      LooksNone(w, r);
      if sids != {} {
        var sid :| sid in sids;
        LookAtAll(r, sids - {sid});
        ghost var w' := State();
        LookOneMore(w, r, sids - {sid}, sid);
        assert sids - {sid} + {sid} == sids;
        SoundMeans(w');
        LookOnward(w', r, sid);
        StepKeepsSound(w', Look(r, sid));
        tickets := w.tickets + Looks(w, r, sids);
        OnwardTrans(w, w', State());
      }
    }

    /** Loads several sessions' rows at one moment. */
    method LoadAll(ghost r: nat, sids: set<Uuid>) returns (rows: map<Uuid, Session>)
      requires Valid() && sids <= sessions.Keys && Idle(tickets, r)
      modifies this`tickets
      ensures Valid() && rows == map sid | sid in sids :: sessions[sid]
      ensures Working(old(State()), State(), r, sids, {})
      ensures State() == old(State()).(tickets := old(tickets) + Looks(old(State()), r, sids))
    {
      hide Basic, Sound, Looks, Onward, Working, Idle;
      rows := map sid | sid in sids :: sessions[sid];
      ghost var w := State();
      SoundMeans(w);
      LookAtAll(r, sids);
      WorkingStarts(w, r, sids);
    }

    /** The routine ends. */
    ghost method EndDealings(r: nat)
      requires Valid()
      modifies this`tickets
      ensures Valid() && Onward(old(State()), State()) && tickets == Others(old(tickets), r)
    {
      DropAll(State(), r, set k | k in tickets && k.0 == r);
      tickets := Others(tickets, r);
    }

    /** Waits, then asks about the next of the sessions that were loaded at w0. */
    method AskNext(ghost r: nat, ghost w0: World, ghost rest: set<Uuid>, ghost done: set<Uuid>, sid: Uuid, row: Session,
                   now: int, stampOk: bool) returns (ok: bool)
      requires Valid() && Working(w0, State(), r, rest, done) && sid in rest
      requires sid in w0.sessions && row == w0.sessions[sid]
      modifies this, archive
      ensures Valid()
      ensures Working(w0, State(), r, rest - {sid}, if ok then done + {sid} else done)
      ensures
        var stamped := ok && stampOk && !IsArchiveFresh(row.archivedAt, row.lastActivity);
        old(Silent()) ==>
          Silent() && sessions == (if stamped then Stamped(old(sessions), {sid}, now) else old(sessions))
      ensures old(archive.Up()) ==> ok && archive.Up()
    {
      hide Basic, Sound, Working, Stamped, Arrived, Onward, Asked;
      ghost var w := State();
      Await();
      WorkingWaits(w0, w, State(), r, rest, done);
      w := State();
      WorkingGives(w0, w, r, rest, done, sid);
      ok := EnsureSessionArchived(r, sid, row, now, stampOk);
      WorkingAsks(w0, w, State(), r, rest, done, sid, ok);
    }

    // -------------------------------------------------------------- the idle sweep

    method LoadArchiveEligible(cutoff: int, limit: nat) returns (eligible: seq<Uuid>)
      ensures IsOldest(EligibleAges(sessions, cutoff), limit, eligible)
    {
      eligible := TakeOldest(EligibleAges(sessions, cutoff), limit);
    }

    /** Asks about each session of the batch in turn; `done` are those archived. */
    method SweepEach(ghost r: nat, ghost w0: World, eligible: seq<Uuid>, rows: map<Uuid, Session>,
                     now: int, stamps: set<Uuid>)
      returns (archived: nat, failed: nat, ghost done: set<Uuid>)
      requires Valid() && Working(w0, State(), r, SetOf(eligible), {}) && Batched(eligible, 0, SetOf(eligible), {})
      requires forall sid :: sid in eligible ==>
                 sid in w0.sessions && sid in rows && rows[sid] == w0.sessions[sid] && !Fresh(w0, sid)
      requires sessions == w0.sessions
      modifies this, archive
      ensures Valid() && Working(w0, State(), r, {}, done)
      ensures archived == |done| && archived + failed == |eligible| && done <= SetOf(eligible)
      ensures old(Silent()) ==> sessions == Stamped(w0.sessions, done * stamps, now)
      ensures old(archive.Up()) ==> done == SetOf(eligible)
    {
      hide Basic, Sound, Working, Stamped, Batched;
      archived, failed, done := 0, 0, {};
      ghost var rest := SetOf(eligible);
      NoStamps(sessions, stamps, now);
      for i := 0 to |eligible|
        invariant Valid()
        invariant Working(w0, State(), r, rest, done)
        invariant Batched(eligible, i, rest, done) && archived == |done| && archived + failed == i
        invariant old(Silent()) ==> Silent() && sessions == Stamped(w0.sessions, done * stamps, now)
        invariant old(archive.Up()) ==> archive.Up() && failed == 0
      {
        var sid := eligible[i];
        BatchedNext(eligible, i, rest, done);
        StampOne(w0.sessions, done * stamps, sid, now);
        OneMoreDone(done, stamps, sid);
        var ok := AskNext(r, w0, rest, done, sid, rows[sid], now, sid in stamps);
        rest := rest - {sid};
        if ok {
          archived, done := archived + 1, done + {sid};
        } else {
          failed := failed + 1;
        }
      }
      BatchedEnd(eligible, rest, done);
    }

    /** One sweep. `stamps` are the sessions whose stamp can be stored; `done` are those archived. */
    method ArchivePendingSessions(ghost r: nat, cutoff: int, now: int, stamps: set<Uuid>)
      returns (archived: nat, failed: nat, ghost batch: seq<Uuid>, ghost done: set<Uuid>)
      requires Valid() && Idle(tickets, r)
      modifies this, archive
      ensures Valid() && Onward(old(State()), State()) && tickets == old(tickets)
      ensures IsOldest(EligibleAges(old(sessions), cutoff), ARCHIVE_SWEEP_BATCH, batch)
      ensures archived == |done| && archived + failed == |batch| && done <= SetOf(batch)
      ensures Backed(old(State()), State(), done)
      ensures old(Silent()) ==> sessions == Stamped(old(sessions), done * stamps, now)
      ensures old(Silent()) && old(archive.Up()) && SetOf(batch) <= stamps ==>
                CleanBatch(old(sessions), sessions, cutoff, now, batch)
    {
      hide Basic, Sound, Working, Stamped, IsOldest, EligibleAges, Batched, Onward, Others, Backed, Looks, CleanBatch;
      ghost var w0, silent, up := State(), Silent(), archive.Up();
      var eligible := LoadArchiveEligible(cutoff, ARCHIVE_SWEEP_BATCH);
      batch := eligible;
      BatchMembers(sessions, cutoff, ARCHIVE_SWEEP_BATCH, eligible);
      var rows := LoadAll(r, SetOf(eligible));
      archived, failed, done := SweepEach(r, w0, eligible, rows, now, stamps);
      ghost var w := State();
      EndDealings(r);
      SweepEnds(w0, w, State(), r, done);
      if silent && up && SetOf(batch) <= stamps {
        CleanEnds(w0.sessions, sessions, cutoff, now, batch, done, stamps);
      }
    }

    // -------------------------------------------------------------- retention

    method ArchiveEach(ghost r: nat, candidates: set<Uuid>, now: int, stamps: set<Uuid>) returns (failed: set<Uuid>)
      requires Valid() && candidates <= sessions.Keys && Idle(tickets, r)
      modifies this, archive
      ensures Valid() && failed <= candidates
      ensures Working(old(State()), State(), r, {}, candidates - failed)
    {
      hide Basic, Sound, Working, Idle;
      ghost var w0 := State();
      var rows := LoadAll(r, candidates);
      ghost var done: set<Uuid> := {};
      var rest := candidates;
      failed := {};
      while rest != {}
        invariant Valid()
        invariant rest <= candidates && failed <= candidates - rest && done == candidates - rest - failed
        invariant Working(w0, State(), r, rest, done)
        decreases rest
      {
        var sid :| sid in rest;
        var ok := AskNext(r, w0, rest, done, sid, rows[sid], now, sid in stamps);
        rest := rest - {sid};
        if ok {
          done := done + {sid};
        } else {
          failed := failed + {sid};
        }
      }
      assert done == candidates - failed;
    }

    /** Archives every session that the trim is about to touch; returns those that failed, whose
        trim is held. */
    method ArchiveRetentionCandidates(ghost r: nat, config: RetentionConfig, now: int, queries: Queries,
                                      stamps: set<Uuid>)
      returns (held: set<Uuid>)
      requires Valid() && Idle(tickets, r)
      modifies this, archive
      ensures Valid() && held <= Affected(old(hot), config, now, queries)
      ensures Working(old(State()), State(), r, {}, Affected(old(hot), config, now, queries) - held)
    {
      hide Basic, Sound, Working, HotOf, TooOld, Crowded, Onward;
      SoundMeans(State());
      CandidatesExist(State(), config, now, queries);
      WorkingNone(State(), r);
      var affected: set<Uuid> := {};
      if config.retentionDays > 0 && queries.age {
        affected := AgedSessions(hot, config, now);
      }
      if queries.count {
        affected := affected + CrowdedSessions(hot, config);
      }
      assert affected == Affected(hot, config, now, queries);
      assert affected - affected == {};
      if affected == {} {
        return {};
      }
      if !queries.load {
        return affected;
      }
      held := ArchiveEach(r, affected, now, stamps);
    }

    /** Deletes the oldest rows past the cutoff, up to the budget, sparing held sessions. */
    method DeleteOldMessages(config: RetentionConfig, now: int, budget: nat, held: set<Uuid>) returns (ids: set<nat>)
      modifies this`hot
      ensures hot == old(hot) - ids && Takes(AgedRows(old(hot), config, now, held), budget, ids)
      ensures var past := PastCutoff(old(hot), config, now, held);
              && ids <= past && |ids| == (if |past| <= budget then |past| else budget)
              && NewestLeft(old(hot), past - ids, ids)
    {
      if config.retentionDays == 0 || budget == 0 {
        assert config.retentionDays == 0 ==> AgedRows(hot, config, now, held) == map[];
        AgeTrimExact(hot, config, now, held, budget, {});
        return {};
      }
      var ages := AgedRows(hot, config, now, held);
      var taken: seq<nat> := TakeOldest<nat>(ages, budget);
      OldestTakes(ages, budget, taken);
      ids := SetOf<nat>(taken);
      AgeTrimExact(hot, config, now, held, budget, ids);
      hot := hot - ids;
    }

    /** Cuts one session down towards its cap, oldest rows first: a session within its cap keeps all its
        rows, one over it comes down to the cap, or as far towards it as the budget goes. */
    method TruncateSessionMessages(sid: Uuid, config: RetentionConfig, budget: nat) returns (ids: set<nat>)
      modifies this`hot
      ensures hot == old(hot) - ids
      ensures Takes(SessionRows(old(hot), sid), Least(Excess(old(hot), config, sid), budget), ids)
      ensures var mine, left := RowsOf(old(hot), sid), RowsOf(hot, sid);
              && ids <= mine && left == mine - ids
              && |left| == (if |mine| <= config.maxMessages then |mine|
                            else if |mine| - budget >= config.maxMessages then |mine| - budget
                            else config.maxMessages)
              && NewestLeft(old(hot), left, ids)
    {
      var total := |HotOf(hot, sid)|;
      if budget == 0 || total <= config.maxMessages {
        assert hot - {} == hot;
        CutKeepsNewest(hot, config, sid, {}, budget, {});
        return {};
      }
      var ages := SessionRows(hot, sid);
      var capped := Least(total - config.maxMessages, budget);
      var taken: seq<nat> := TakeOldest<nat>(ages, capped);
      OldestTakes(ages, capped, taken);
      ids := SetOf<nat>(taken);
      CutKeepsNewest(hot, config, sid, {}, budget, ids);
      hot := hot - ids;
    }

    /** The turn of one queued session, unless it is held or the budget is spent. */
    method CutNext(sid: Uuid, config: RetentionConfig, held: set<Uuid>, budget: nat) returns (cut: set<nat>)
      modifies this`hot
      ensures hot == old(hot) - cut && Cut(old(hot), config, sid, held, budget, cut)
    {
      hide HotOf, Takes, Excess, SessionRows, NewestLeft, RowsOf;
      if budget > 0 && sid !in held {
        cut := TruncateSessionMessages(sid, config, budget);
      } else {
        cut := {};
        NoCut(hot, config, sid, held, budget);
      }
    }

    /** The trim itself; once the budget is spent nothing more is deleted. */
    method TrimMessages(pending: seq<Uuid>, config: RetentionConfig, now: int, held: set<Uuid>)
      returns (ageDeleted: nat, countDeleted: nat, ghost aged: set<nat>, ghost cuts: seq<set<nat>>)
      modifies this`hot
      ensures IsTrim(old(hot), pending, config, now, held, aged, cuts)
      ensures hot == old(hot) - Gone(aged, cuts, |cuts|)
      ensures ageDeleted == |aged| && ageDeleted + countDeleted == |Gone(aged, cuts, |cuts|)| <= MAX_DELETES_PER_CYCLE
      ensures forall sid :: TrimKept(old(hot), hot, pending, config, held, aged, sid)
    {
      hide Trimming, PastCutoff, NewestLeft, Takes, AgedRows, Gone, Cut;
      var first := DeleteOldMessages(config, now, MAX_DELETES_PER_CYCLE, held);
      aged, cuts := first, [];
      ageDeleted, countDeleted := |first|, 0;
      var budget: nat := MAX_DELETES_PER_CYCLE - |first|;
      TrimStarts(old(hot), pending, config, held, aged);
      for i := 0 to |pending|
        invariant ageDeleted == |aged| && ageDeleted + countDeleted + budget == MAX_DELETES_PER_CYCLE
        invariant |cuts| == i && Trimming(old(hot), hot, pending, config, held, aged, cuts, budget)
      {
        TrimGoesOn(old(hot), hot, pending, config, held, aged, cuts, budget);
        var cut := CutNext(pending[i], config, held, budget);
        cuts, countDeleted, budget := cuts + [cut], countDeleted + |cut|, budget - |cut|;
      }
      TrimEnds(old(hot), hot, pending, config, now, held, aged, cuts, budget);
    }

    /** One retention cycle: the candidates are archived, then the trim goes by its own, later look at
        the rows. Messages arrive all the while. The cycle is a run of the machine, and what it
        destroys are exactly the rows it deletes that slipped through, or that the freshness test
        overlooked, and that no archive pass has caught. */
    method RunRetentionCleanup(ghost r: nat, pending: seq<Uuid>, config: RetentionConfig, queriedAt: int,
                               trimmedAt: int, queries: Queries, stamps: set<Uuid>)
      returns (ageDeleted: nat, countDeleted: nat, held: set<Uuid>, ghost mid: World, ghost ids: set<nat>,
               ghost aged: set<nat>)
      requires Valid() && Idle(tickets, r)
      modifies this, archive
      ensures Valid() && Reachable(old(State()), State())
      ensures Onward(old(State()), mid) && Basic(mid) && hot == mid.hot - ids && ageDeleted + countDeleted == |ids|
      ensures forall id :: id in ids ==>
                id in mid.hot && mid.hot[id].session !in held && TrimTarget(mid.hot, config, trimmedAt, id)
      ensures forall sid :: TrimKept(mid.hot, hot, pending, config, held, aged, sid)
      ensures Lost(State()) ==
              Lost(old(State())) + SlippedLosses(old(State()), mid, config, queriedAt, trimmedAt, queries, ids)
    {
      hide Basic, Sound, Working, Affected, TrimTarget, IsTrim, Lost, Onward, Reachable, Vetted, Arrived, SlippedLosses,
        TrimKept;
      ghost var w0 := State();
      held := ArchiveRetentionCandidates(r, config, queriedAt, queries, stamps);
      ghost var candidates := Affected(w0.hot, config, queriedAt, queries);
      ghost var w := State();
      Await();
      mid := State();
      SoundMeans(mid);
      WorkingWaits(w0, w, mid, r, {}, candidates - held);
      WorkingIsOnward(w0, mid, r, {}, candidates - held);
      ghost var cuts;
      ageDeleted, countDeleted, aged, cuts := TrimMessages(pending, config, trimmedAt, held);
      ids := Gone(aged, cuts, |cuts|);
      TrimHitsTargets(mid.hot, pending, config, trimmedAt, held, aged, cuts, |cuts|);
      WorkingVets(w0, mid, r, candidates - held, candidates, held);
      TrimLosesExactly(w0, mid, config, queriedAt, trimmedAt, queries, held, pending, aged, cuts);
      OnwardLost(w0, mid);
      ghost var w' := State();
      PurgeRuns(mid, ids);
      ReachTrans(w0, mid, w');
      EndDealings(r);
      OnwardLost(w', State());
      ReachTrans(w0, w', State());
    }

    // -------------------------------------------------------------- whole sessions

    /** Deletes the rows, then the session, on a licence and without another look. Either statement
        may fail and stop it there. `late` is what that destroys. */
    method DeleteSessionWithData(sid: Uuid) returns (ok: bool, ghost late: set<nat>)
      requires Valid() && sid in sessions && Licensed(State(), sid)
      modifies this`sessions, this`hot
      ensures Valid() && Reachable(old(State()), State())
      ensures sessions == if ok then old(sessions) - {sid} else old(sessions)
      ensures hot == old(hot) || hot == Without(old(hot), sid)
      ensures ok ==> hot == Without(old(hot), sid)
      ensures late == if hot == Without(old(hot), sid) then RowsLost(old(State()), sid) else {}
      ensures Lost(State()) == Lost(old(State())) + late
    {
      hide Basic, Sound, Lost, Licensed, RowsLost, Reachable;
      ghost var w := State();
      SoundMeans(w);
      late := {};
      if * {
        ReachSelf(w);
        NoRowsLost(w, sid);
        return false, late;
      }
      ghost var rows := Trim(HotOf(hot, sid).Keys);
      DeletedRows(w, sid);
      DeletedRowsLose(w, sid);
      hot := Without(hot, sid);
      late := RowsLost(w, sid);
      if * {
        OneStep(w, rows);
        StepKeepsSound(w, rows);
        return false, late;
      }
      OneStep(w, Delete(sid));
      StepKeepsSound(w, Delete(sid));
      sessions := sessions - {sid};
      ok := true;
    }

    /** Closes a session whose row was loaded earlier: archive, then delete. */
    method CloseLoaded(ghost r: nat, sid: Uuid, row: Session, now: int, stampOk: bool)
      returns (archived: bool, deleted: bool, ghost late: set<nat>)
      requires Valid() && sid in sessions && row.user == sessions[sid].user
      requires (r, sid) in tickets && tickets[(r, sid)].Looked?
      requires tickets[(r, sid)].isFresh == IsArchiveFresh(row.archivedAt, row.lastActivity)
      modifies this, archive
      ensures Valid() && Closed(old(State()), State(), (r, sid), archived, deleted, late)
    {
      hide Basic, Sound, Lost, Reachable, Arrived, Asked, Closed, RowsLost, Licensed;
      ghost var w, k := State(), (r, sid);
      Await();
      ghost var w1 := State();
      ArrivedKeeps(w, w1);
      archived := EnsureSessionArchived(r, sid, row, now, stampOk);
      ghost var w2 := State();
      deleted, late := false, {};
      if !archived {
        KeptOpen(w, w1, w2, k);
        return;
      }
      deleted, late := DeleteOnYes(r, sid, w, w1);
    }

    /** Waits once more, then deletes on the licence just given. */
    method DeleteOnYes(ghost r: nat, sid: Uuid, ghost w: World, ghost w1: World)
      returns (deleted: bool, ghost late: set<nat>)
      requires Valid() && sid in sessions && Sound(w)
      requires (r, sid) in w.tickets && w.tickets[(r, sid)].Looked?
      requires Arrived(w, w1) && (r, sid) in w1.tickets && Asked(w1, State(), (r, sid), true)
      modifies this
      ensures Valid() && Closed(w, State(), (r, sid), true, deleted, late)
    {
      hide Basic, Sound, Lost, Reachable, Arrived, Asked, Closed, RowsLost, Licensed;
      ghost var w2, k := State(), (r, sid);
      AskedKeeps(w1, w2, k);
      Await();
      ghost var w3 := State();
      ArrivedKeeps(w2, w3);
      LicensedByYes(w1, w2, w3, k);
      deleted, late := DeleteSessionWithData(sid);
      ghost var w4 := State();
      DeletedOnYes(w, w1, w2, w3, w4, k, deleted, late);
      DropOne(w4, k);
      tickets := tickets - {k};
    }

    /** Closes one session at a user's request. Only messages that arrive during the call, and rows that
        the freshness test overlooks at its start, can be lost; an archive failure deletes nothing. */
    method CloseSession(ghost r: nat, sid: Uuid, now: int, stampOk: bool)
      returns (archived: bool, deleted: bool, ghost late: set<nat>)
      requires Valid() && sid in sessions && Idle(tickets, r)
      modifies this, archive
      ensures Valid() && Reachable(old(State()), State()) && tickets == old(tickets)
      ensures deleted ==> archived && sid !in sessions
      ensures !archived ==> late == {}
      ensures forall id :: id in old(hot) && (old(hot)[id].session != sid || !archived) ==> id in hot
      ensures Lost(State()) == Lost(old(State())) + late
      ensures forall id :: id in late ==>
                id in ever && ever[id].session == sid && (id !in old(ever) || Overlooked(old(State()), id))
    {
      hide Sound, Lost, Reachable, HotOf, Overlooked;
      ghost var w0 := State();
      SoundMeans(w0);
      hide Basic;
      var row := LoadSession(r, sid);
      ghost var w := State();
      LookOnward(w0, r, sid);
      archived, deleted, late := CloseLoaded(r, sid, row, now, stampOk);
      LookThenClose(w0, w, State(), r, sid, archived, deleted, late);
    }

    /** Closes the next of the sessions that were loaded at w0. */
    method CloseNext(ghost r: nat, ghost w0: World, ghost rest: set<Uuid>, ghost done: set<Uuid>, ghost gone: set<Uuid>,
                     ghost late: set<nat>, sid: Uuid, row: Session, now: int, stampOk: bool)
      returns (archived: bool, deleted: bool, ghost more: set<nat>)
      requires Valid() && RowsOk(w0) && Closing(w0, State(), r, rest, done, gone, late) && sid in rest
      requires sid in w0.sessions && row == w0.sessions[sid]
      modifies this, archive
      ensures Valid() && (deleted ==> archived)
      ensures Closing(w0, State(), r, rest - {sid}, if archived then done + {sid} else done,
                      if deleted then gone + {sid} else gone, late + more)
    {
      hide Basic, Sound, Closing, Closed, RowsOk;
      ghost var w := State();
      ClosingGives(w0, w, r, rest, done, gone, late, sid);
      archived, deleted, more := CloseLoaded(r, sid, row, now, stampOk);
      ClosedMeans(w, State(), (r, sid), archived, deleted, more);
      ClosingOn(w0, w, State(), r, rest, done, gone, late, sid, archived, deleted, more);
    }

    /** Closes every session in `due`; `kept` are those held back because their archive failed. */
    method CloseEach(ghost r: nat, ghost w0: World, due: set<Uuid>, rows: map<Uuid, Session>,
                     now: int, stamps: set<Uuid>)
      returns (deleted: nat, held: nat, ghost gone: set<Uuid>, ghost kept: set<Uuid>, ghost late: set<nat>)
      requires Valid() && RowsOk(w0) && Closing(w0, State(), r, due, {}, {}, {})
      requires forall sid :: sid in due ==> sid in w0.sessions && sid in rows && rows[sid] == w0.sessions[sid]
      modifies this, archive
      ensures Valid()
      ensures kept <= due && gone <= due - kept && deleted == |gone| && held == |kept|
      ensures Closing(w0, State(), r, {}, due - kept, gone, late)
    {
      hide Basic, Sound, Closing, DividedInto, RowsOk;
      deleted, held, gone, kept, late := 0, 0, {}, {}, {};
      NoneDivided(due);
      ghost var done: set<Uuid> := {};
      var rest := due;
      while rest != {}
        invariant Valid()
        invariant DividedInto(due, rest, kept, done, gone) && deleted == |gone| && held == |kept|
        invariant Closing(w0, State(), r, rest, done, gone, late)
        decreases rest
      {
        var sid :| sid in rest;
        MoveOne(due, rest, kept, done, gone, sid);
        var archived, removed;
        ghost var more;
        archived, removed, more := CloseNext(r, w0, rest, done, gone, late, sid, rows[sid], now, sid in stamps);
        if archived {
          done := done + {sid};
        } else {
          held, kept := held + 1, kept + {sid};
        }
        if removed {
          deleted, gone := deleted + 1, gone + {sid};
        }
        rest, late := rest - {sid}, late + more;
      }
      AllDivided(due, kept, done, gone);
    }

    /** Deletes sessions idle for more than maxDays, each only once it is archived. A session whose
        archive failed is held, rows and all; no other session or row is touched. Only messages that
        arrive meanwhile, and rows that the freshness test overlooks at the query, can be lost, and
        exactly `late` are. */
    method RunSessionAgeCleanup(ghost r: nat, maxDays: nat, now: int, stamps: set<Uuid>)
      returns (deleted: nat, held: nat, ghost due: set<Uuid>, ghost gone: set<Uuid>, ghost kept: set<Uuid>,
               ghost late: set<nat>)
      requires Valid() && Idle(tickets, r)
      modifies this, archive
      ensures Valid()
      ensures forall sid :: sid in due <==>
                sid in old(sessions) && maxDays > 0 && old(sessions)[sid].lastActivity < now - maxDays * DAY
      ensures kept <= due && gone <= due - kept && deleted == |gone| && held == |kept|
      ensures Closing(old(State()), State(), r, {}, due - kept, gone, late)
    {
      hide Basic, Sound, Closing, Working, DividedInto, RowsOk;
      ghost var w0 := State();
      SoundMeans(w0);
      deleted, held, due, gone, kept, late := 0, 0, {}, {}, {}, {};
      if maxDays == 0 {
        WorkingNone(w0, r);
        ClosingStarts(w0, w0, r, {});
        assert due - kept == {};
        return;
      }
      var idle := set sid | sid in sessions && sessions[sid].lastActivity < now - maxDays * DAY;
      due := idle;
      var rows := LoadAll(r, idle);
      ClosingStarts(w0, State(), r, due);
      deleted, held, gone, kept, late := CloseEach(r, w0, idle, rows, now, stamps);
    }
  }

  // ---------------------------------------------------------------- glue

  lemma ApprovesTo(w: World, r: nat, sid: Uuid)
    requires (r, sid) in w.tickets && w.tickets[(r, sid)].Looked? && w.tickets[(r, sid)].isFresh
    ensures Enabled(w, Approve(r, sid))
    ensures Next(w, Approve(r, sid)) == w.(tickets := w.tickets[(r, sid) := Licence(w.tickets[(r, sid)].known)])
  {
  }

  lemma ArchivesTo(w: World, a: Action, store': Store, ok: bool)
    requires a.Archive? && a.sid in w.sessions && ById(a.rows) == HotOf(w.hot, a.sid)
    requires (a.r, a.sid) in w.tickets && w.tickets[(a.r, a.sid)].Looked? && !w.tickets[(a.r, a.sid)].isFresh
    requires (store', ok) ==
             Rearchive(w.store, w.sessions[a.sid].user, a.sid, a.rows, true, a.userMessages, a.now, a.budget)
    ensures Enabled(w, a)
    ensures
      var k, rows := (a.r, a.sid), HotOf(w.hot, a.sid).Keys;
      Next(w, a) == w.(
        store := store',
        sessions := if ok && a.stamped then w.sessions[a.sid := w.sessions[a.sid].(archivedAt := Some(a.now))]
                    else w.sessions,
        tickets := if ok then w.tickets[k := Licence(rows)] else w.tickets - {k},
        caught := if a.budget >= 1 then w.caught + rows else w.caught)
  {
  }

  lemma BatchMembers(sessions: map<Uuid, Session>, cutoff: int, n: nat, batch: seq<Uuid>)
    requires IsOldest(EligibleAges(sessions, cutoff), n, batch)
    ensures SetOf(batch) <= sessions.Keys && Batched(batch, 0, SetOf(batch), {})
    ensures forall sid :: sid in batch ==> !IsArchiveFresh(sessions[sid].archivedAt, sessions[sid].lastActivity)
  {
  }

  /** The first i of the batch are asked about, `done` are those that were answered yes. */
  ghost predicate Batched(batch: seq<Uuid>, i: nat, rest: set<Uuid>, done: set<Uuid>) {
    && i <= |batch| && (forall j, k :: 0 <= j < k < |batch| ==> batch[j] != batch[k])
    && (forall sid :: sid in rest <==> sid in batch[i..])
    && (forall sid :: sid in done ==> sid in batch[..i])
  }

  lemma BatchedNext(batch: seq<Uuid>, i: nat, rest: set<Uuid>, done: set<Uuid>)
    requires Batched(batch, i, rest, done) && i < |batch|
    ensures batch[i] in rest && batch[i] !in done
    ensures Batched(batch, i + 1, rest - {batch[i]}, done)
    ensures Batched(batch, i + 1, rest - {batch[i]}, done + {batch[i]})
  {
  }

  lemma BatchedEnd(batch: seq<Uuid>, rest: set<Uuid>, done: set<Uuid>)
    requires Batched(batch, |batch|, rest, done)
    ensures rest == {} && done <= SetOf(batch) && (|done| == |batch| ==> done == SetOf(batch))
  {
    assert batch[..|batch|] == batch;
    DistinctSize(batch);
    if |done| == |batch| {
      assert |SetOf(batch) - done| == |SetOf(batch)| - |done|;
    }
  }

  lemma NoStamps(sessions: map<Uuid, Session>, stamps: set<Uuid>, now: int)
    ensures Stamped(sessions, {} * stamps, now) == sessions
  {
  }

  lemma StampOneOnly(sessions: map<Uuid, Session>, sid: Uuid, now: int)
    requires sid in sessions
    ensures Stamped(sessions, {sid}, now) == sessions[sid := sessions[sid].(archivedAt := Some(now))]
  {
  }

  lemma StampOne(sessions: map<Uuid, Session>, ids: set<Uuid>, sid: Uuid, now: int)
    ensures Stamped(Stamped(sessions, ids, now), {sid}, now) == Stamped(sessions, ids + {sid}, now)
  {
  }

  lemma OneMoreDone(done: set<Uuid>, stamps: set<Uuid>, sid: Uuid)
    ensures (done + {sid}) * stamps == if sid in stamps then done * stamps + {sid} else done * stamps
  {
  }

  /** What a session still to be asked about is known to be. */
  lemma WorkingGives(w0: World, w: World, r: nat, rest: set<Uuid>, done: set<Uuid>, sid: Uuid)
    requires Working(w0, w, r, rest, done) && sid in rest
    ensures sid in w0.sessions && sid in w.sessions && w.sessions[sid].user == w0.sessions[sid].user
    ensures (r, sid) in w.tickets && w.tickets[(r, sid)] == Looked(Fresh(w0, sid), HotOf(w0.hot, sid).Keys)
  {
  }

  lemma WorkingIsOnward(w0: World, w: World, r: nat, rest: set<Uuid>, done: set<Uuid>)
    requires Working(w0, w, r, rest, done)
    ensures Onward(w0, w)
  {
  }

  lemma CleanEnds(s: map<Uuid, Session>, s': map<Uuid, Session>, cutoff: int, now: int, batch: seq<Uuid>,
                  done: set<Uuid>, stamps: set<Uuid>)
    requires IsOldest(EligibleAges(s, cutoff), ARCHIVE_SWEEP_BATCH, batch) && s' == Stamped(s, done * stamps, now)
    requires done == SetOf(batch) && SetOf(batch) <= stamps
    ensures CleanBatch(s, s', cutoff, now, batch)
  {
  }

  lemma SweepEnds(w0: World, w: World, w': World, r: nat, done: set<Uuid>)
    requires Idle(w0.tickets, r) && Working(w0, w, r, {}, done)
    requires Onward(w, w') && w' == w.(tickets := Others(w.tickets, r))
    ensures Onward(w0, w') && w'.tickets == w0.tickets && Backed(w0, w', done)
  {
    hide Lost, Reachable, FreshKnown, RowsOk, Overlooked;
    OnwardTrans(w0, w, w');
  }

  lemma WorkingNone(w: World, r: nat)
    requires FreshKnown(w) && RowsOk(w) && Idle(w.tickets, r)
    ensures Working(w, w, r, {}, {})
  {
    OnwardSelf(w);
  }

  lemma CandidatesExist(w: World, config: RetentionConfig, now: int, queries: Queries)
    requires Basic(w)
    ensures Affected(w.hot, config, now, queries) <= w.sessions.Keys
  {
  }

  lemma OldestTakes(ages: map<nat, int>, n: nat, taken: seq<nat>)
    requires IsOldest(ages, n, taken)
    ensures Takes(ages, n, SetOf(taken))
  {
    DistinctSize<nat>(taken);
  }

  /** The age trim is done, and the first sessions in the queue have been cut. */
  ghost predicate Trimming(before: Rows, hot: Rows, pending: seq<Uuid>, config: RetentionConfig, held: set<Uuid>,
                           aged: set<nat>, cuts: seq<set<nat>>, budget: nat)
  {
    && AreCuts(before, pending, config, held, aged, cuts)
    && hot == before - Gone(aged, cuts, |cuts|)
    && budget + |Gone(aged, cuts, |cuts|)| == MAX_DELETES_PER_CYCLE
  }

  lemma TrimStarts(hot: Rows, pending: seq<Uuid>, config: RetentionConfig, held: set<Uuid>, aged: set<nat>)
    requires |aged| <= MAX_DELETES_PER_CYCLE
    ensures Trimming(hot, hot - aged, pending, config, held, aged, [], MAX_DELETES_PER_CYCLE - |aged|)
  {
  }

  lemma TrimGoesOn(before: Rows, hot: Rows, pending: seq<Uuid>, config: RetentionConfig, held: set<Uuid>,
                   aged: set<nat>, cuts: seq<set<nat>>, budget: nat)
    requires Trimming(before, hot, pending, config, held, aged, cuts, budget) && |cuts| < |pending|
    ensures forall cut :: Cut(hot, config, pending[|cuts|], held, budget, cut) ==>
              && |cut| <= budget
              && Trimming(before, hot - cut, pending, config, held, aged, cuts + [cut], budget - |cut|)
  {
    hide Cut, AreCuts, Gone;
    forall cut | Cut(hot, config, pending[|cuts|], held, budget, cut)
      ensures |cut| <= budget
      ensures Trimming(before, hot - cut, pending, config, held, aged, cuts + [cut], budget - |cut|)
    {
      CutCounts(before, Gone(aged, cuts, |cuts|), config, pending[|cuts|], held, budget, cut);
      CutOneMore(before, pending, config, held, aged, cuts, cut);
    }
  }

  lemma TrimEnds(before: Rows, hot: Rows, pending: seq<Uuid>, config: RetentionConfig, now: int, held: set<Uuid>,
                 aged: set<nat>, cuts: seq<set<nat>>, budget: nat)
    requires Trimming(before, hot, pending, config, held, aged, cuts, budget) && |cuts| == |pending|
    requires Takes(AgedRows(before, config, now, held), MAX_DELETES_PER_CYCLE, aged)
    ensures IsTrim(before, pending, config, now, held, aged, cuts) && hot == before - Gone(aged, cuts, |cuts|)
    ensures budget + |Gone(aged, cuts, |cuts|)| == MAX_DELETES_PER_CYCLE
    ensures forall sid :: TrimKept(before, hot, pending, config, held, aged, sid)
  {
    hide AreCuts, Takes, AgedRows, TrimKept, Gone;
    EachKept(before, pending, config, now, held, aged, cuts);
  }

  lemma EachKept(hot: Rows, pending: seq<Uuid>, config: RetentionConfig, now: int, held: set<Uuid>, aged: set<nat>,
                 cuts: seq<set<nat>>)
    requires IsTrim(hot, pending, config, now, held, aged, cuts)
    ensures forall sid :: TrimKept(hot, hot - Gone(aged, cuts, |cuts|), pending, config, held, aged, sid)
  {
    hide IsTrim, TrimKept;
    forall sid ensures TrimKept(hot, hot - Gone(aged, cuts, |cuts|), pending, config, held, aged, sid) {
      TrimKeepsNewest(hot, pending, config, now, held, aged, cuts, sid);
    }
  }

  lemma NoCut(hot: Rows, config: RetentionConfig, sid: Uuid, held: set<Uuid>, budget: nat)
    requires budget == 0 || sid in held
    ensures Cut(hot, config, sid, held, budget, {})
  {
  }

  lemma CutCounts(hot: Rows, gone: set<nat>, config: RetentionConfig, sid: Uuid, held: set<Uuid>, budget: nat,
                  cut: set<nat>)
    requires Cut(hot - gone, config, sid, held, budget, cut)
    ensures gone !! cut && |gone + cut| == |gone| + |cut| && |cut| <= budget
    ensures hot - gone - cut == hot - (gone + cut)
  {
  }

  lemma WorkingVets(w0: World, w: World, r: nat, done: set<Uuid>, candidates: set<Uuid>, held: set<Uuid>)
    requires Working(w0, w, r, {}, done) && done == candidates - held
    ensures Vetted(w0, w, candidates, held)
  {
  }

  /** A trim without a look at licences is the machine's unlicensed deletion. */
  lemma PurgeRuns(w: World, ids: set<nat>)
    requires Sound(w)
    ensures
      var w' := w.(hot := w.hot - ids);
      Reachable(w, w') && Sound(w')
  {
    hide Sound, Reachable;
    OneStep(w, Purge(ids));
    StepKeepsSound(w, Purge(ids));
  }

  /** Where there are no rows to delete there are none to lose. */
  lemma NoRowsLost(w: World, sid: Uuid)
    ensures w.hot == Without(w.hot, sid) ==> RowsLost(w, sid) == {}
  {
  }

  lemma ArrivedKeeps(w: World, w': World)
    requires Arrived(w, w')
    ensures w'.sessions.Keys == w.sessions.Keys && w'.tickets == w.tickets
    ensures forall sid :: sid in w.sessions ==> w'.sessions[sid].user == w.sessions[sid].user
  {
  }

  lemma AskedKeeps(w: World, w': World, k: Dealing)
    requires k in w.tickets && Asked(w, w', k, true)
    ensures w'.sessions.Keys == w.sessions.Keys && k in w'.tickets && w'.tickets[k].Licence?
  {
  }

  lemma LicensedByYes(w: World, w': World, w'': World, k: Dealing)
    requires k in w.tickets && Asked(w, w', k, true) && Arrived(w', w'')
    ensures Licensed(w'', k.1)
  {
  }

  lemma LookThenClose(w0: World, w: World, w': World, r: nat, sid: Uuid, archived: bool, deleted: bool,
                      late: set<nat>)
    requires sid in w0.sessions && Idle(w0.tickets, r) && Onward(w0, w)
    requires w == w0.(tickets := w0.tickets[(r, sid) := Looked(Fresh(w0, sid), HotOf(w0.hot, sid).Keys)])
    requires Closed(w, w', (r, sid), archived, deleted, late)
    ensures Reachable(w0, w') && w'.tickets == w0.tickets && Lost(w') == Lost(w0) + late
    ensures forall id :: id in late ==>
              id in w'.ever && w'.ever[id].session == sid && (id !in w0.ever || Overlooked(w0, id))
  {
    hide Reachable, Lost;
    ReachTrans(w0, w, w');
    assert (r, sid) !in w0.tickets;
  }

  lemma ClosingGives(w0: World, w: World, r: nat, rest: set<Uuid>, done: set<Uuid>, gone: set<Uuid>, late: set<nat>,
                     sid: Uuid)
    requires Closing(w0, w, r, rest, done, gone, late) && sid in rest
    ensures sid in w0.sessions && sid in w.sessions && w.sessions[sid].user == w0.sessions[sid].user
    ensures (r, sid) in w.tickets && w.tickets[(r, sid)] == Looked(Fresh(w0, sid), HotOf(w0.hot, sid).Keys)
  {
  }

  lemma ClosedMeans(w: World, w': World, k: Dealing, archived: bool, deleted: bool, late: set<nat>)
    requires k in w.tickets && Closed(w, w', k, archived, deleted, late)
    ensures deleted ==> archived
  {
  }

  /** Of `due`, `rest` are still to do, `kept` were held back, `done` were not, and of those
      `gone` were deleted. */
  ghost predicate DividedInto(due: set<Uuid>, rest: set<Uuid>, kept: set<Uuid>, done: set<Uuid>, gone: set<Uuid>) {
    rest <= due && kept <= due - rest && done == due - rest - kept && gone <= done
  }

  lemma MoveOne(due: set<Uuid>, rest: set<Uuid>, kept: set<Uuid>, done: set<Uuid>, gone: set<Uuid>, sid: Uuid)
    requires DividedInto(due, rest, kept, done, gone) && sid in rest
    ensures DividedInto(due, rest - {sid}, kept + {sid}, done, gone)
    ensures DividedInto(due, rest - {sid}, kept, done + {sid}, gone)
    ensures DividedInto(due, rest - {sid}, kept, done + {sid}, gone + {sid})
    ensures sid in due && sid !in kept && sid !in gone
  {
  }

  lemma NoneDivided(due: set<Uuid>)
    ensures DividedInto(due, due, {}, {}, {})
  {
  }

  lemma AllDivided(due: set<Uuid>, kept: set<Uuid>, done: set<Uuid>, gone: set<Uuid>)
    requires DividedInto(due, {}, kept, done, gone)
    ensures done == due - kept && kept <= due && gone <= due - kept
  {
  }

  lemma ArrivedSelf(w: World)
    ensures Arrived(w, w)
  {
    OnwardSelf(w);
  }

  lemma LooksNone(w: World, r: nat)
    ensures w.(tickets := w.tickets + Looks(w, r, {})) == w
  {
  }

  lemma LookOnward(w: World, r: nat, sid: Uuid)
    requires Basic(w) && Enabled(w, Look(r, sid))
    ensures Onward(w, Next(w, Look(r, sid)))
  {
    hide Basic, Lost, Reachable, HotOf;
    OneStep(w, Look(r, sid));
    StepLoses(w, Look(r, sid));
  }
}
