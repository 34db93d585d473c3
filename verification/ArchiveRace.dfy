/** One session, with every routine's dealings taken apart: load the session's row, query its
    messages, read the old transcript, write, stamp, delete; any number of routines at once, with
    messages arriving in between. */
module ArchiveRace {
  import opened Wrappers
  import opened Transcripts
  import Durability

  type Rows = map<nat, Line>

  /** How far a routine has come. A look at a fresh row, or a stamp, leads to a licence to delete. */
  datatype Flight =
    | Looked(isFresh: bool)
    | Loaded(rows: Rows)
    | Read(merged: Rows)
    | Written
    | Licensed

  /** `overlooked`: a row was stored while the session was fresh, and no transcript written since. */
  datatype State = State(
    hot: Rows,
    archived: Rows,
    archivedAt: Option<int>,
    lastActivity: int,
    clock: int,
    flights: map<nat, Flight>,
    ever: Rows,
    overlooked: bool)

  /** A message arrives in two statements, its row and the move of the session's activity; a stamp can be
      stored or not. */
  datatype Event =
    | Tick(now: int)
    | Arrive(line: Line)
    | Move
    | Look(routine: nat)
    | Pass(routine: nat)
    | Load(routine: nat)
    | ReadOld(routine: nat)
    | Write(routine: nat)
    | Stamp(routine: nat, stored: bool)
    | Delete(routine: nat, ids: set<nat>)
    | End(routine: nat)
    | Rename

  predicate Fresh(s: State) {
    Durability.IsArchiveFresh(s.archivedAt, s.lastActivity)
  }

  /** A deletion asks for a licence and nothing else: neither for freshness nor for the rows. */
  predicate Enabled(s: State, e: Event) {
    match e
    case Tick(now) => now > s.clock
    case Arrive(line) => line.id !in s.ever
    case Move => true
    case Look(r) => r !in s.flights
    case Pass(r) => r in s.flights && s.flights[r] == Looked(true)
    case Load(r) => r in s.flights && s.flights[r] == Looked(false)
    case ReadOld(r) => r in s.flights && s.flights[r].Loaded?
    case Write(r) => r in s.flights && s.flights[r].Read?
    case Stamp(r, _) => r in s.flights && s.flights[r].Written?
    case Delete(r, _) => r in s.flights && s.flights[r].Licensed?
    case End(r) => r in s.flights
    case Rename => true
  }

  function Next(s: State, e: Event): State
    requires Enabled(s, e)
  {
    match e
    case Tick(now) => s.(clock := now)
    case Arrive(line) =>
      s.(hot := s.hot[line.id := line], ever := s.ever[line.id := line], overlooked := s.overlooked || Fresh(s))
    case Move => s.(lastActivity := s.clock)
    case Look(r) => s.(flights := s.flights[r := Looked(Fresh(s))])
    case Pass(r) => s.(flights := s.flights[r := Licensed])
    case Load(r) => s.(flights := s.flights[r := Loaded(s.hot)])
    case ReadOld(r) => s.(flights := s.flights[r := Read(s.archived + s.flights[r].rows)])
    case Write(r) => s.(archived := s.flights[r].merged, flights := s.flights[r := Written], overlooked := false)
    case Stamp(r, stored) =>
      s.(archivedAt := if stored then Some(s.clock) else s.archivedAt, flights := s.flights[r := Licensed])
    case Delete(r, ids) => s.(hot := s.hot - ids)
    case End(r) => s.(flights := s.flights - {r})
    case Rename => s.(archivedAt := None)
  }

  const START := State(map[], map[], None, 0, 0, map[], map[], false)

  /** `trace` is the history of states under `events`. */
  ghost predicate IsRun(trace: seq<State>, events: seq<Event>) {
    Follows(trace, events) && trace[0] == START
  }

  ghost predicate Follows(trace: seq<State>, events: seq<Event>) {
    && |trace| == |events| + 1
    && (forall i :: 0 <= i < |events| ==> Enabled(trace[i], events[i]) && trace[i + 1] == Next(trace[i], events[i]))
  }

  /** A row arrives only while every routine that deals with the session has merely found it not fresh,
      and nobody looks at a session that is fresh with an overlooked row. */
  ghost predicate Careful(s: State, e: Event) {
    && (e.Arrive? ==> forall r :: r in s.flights ==> s.flights[r] == Looked(false))
    && (e.Look? ==> !(Fresh(s) && s.overlooked))
  }

  ghost predicate NothingLost(s: State) {
    forall id :: id in s.ever ==>
      (id in s.hot && s.hot[id] == s.ever[id]) || (id in s.archived && s.archived[id] == s.ever[id])
  }

  // ---------------------------------------------------------------- careful runs are safe

  ghost predicate Part(a: Rows, whole: Rows) {
    forall id :: id in a ==> id in whole && a[id] == whole[id]
  }

  /** What each phase knows: with the rows a routine loaded the archive is complete, what it merged is
      complete, and once it has written, or holds a licence, so is the archive. */
  ghost predicate FlightOk(s: State, f: Flight) {
    match f
    case Looked(isFresh) => isFresh ==> s.archived == s.ever
    case Loaded(rows) => Part(rows, s.ever) && forall id :: id in s.ever ==> id in rows || id in s.archived
    case Read(merged) => merged == s.ever
    case Written => s.archived == s.ever
    case Licensed => s.archived == s.ever
  }

  ghost predicate Inv(s: State) {
    && Part(s.hot, s.ever) && Part(s.archived, s.ever) && s.lastActivity <= s.clock
    && (forall id :: id in s.ever ==> id in s.hot || id in s.archived)
    && (s.overlooked ==> s.archived != s.ever)
    && (Fresh(s) && !s.overlooked ==> s.archived == s.ever)
    && (forall r :: r in s.flights ==> FlightOk(s, s.flights[r]))
  }

  lemma FlightKeepsInv(s: State, e: Event)
    requires Inv(s) && Enabled(s, e) && (e.ReadOld? || e.Write? || e.Stamp?)
    ensures Inv(Next(s, e))
  {
    var s' := Next(s, e);
    assert FlightOk(s, s.flights[e.routine]);
    if e.ReadOld? {
      assert s.archived + s.flights[e.routine].rows == s.ever;
    }
    forall r | r in s'.flights ensures FlightOk(s', s'.flights[r]) {
      if r in s.flights {
        assert FlightOk(s, s.flights[r]);
      }
    }
  }

  lemma OtherKeepsInv(s: State, e: Event)
    requires Inv(s) && Enabled(s, e) && !e.Arrive? && !e.Look? && !e.ReadOld? && !e.Write? && !e.Stamp?
    ensures Inv(Next(s, e))
  {
    var s' := Next(s, e);
    forall r | r in s'.flights ensures FlightOk(s', s'.flights[r]) {
      if r in s.flights {
        assert FlightOk(s, s.flights[r]);
      }
    }
    if e.Delete? {
      assert FlightOk(s, s.flights[e.routine]);
    }
  }

  /** An arrival is harmless exactly if no routine has got further with the session than finding it not
      fresh: it is too late once one has queried the rows, has found the session fresh, or holds a
      licence. */
  lemma ArrivalIsSafeExactly(s: State, e: Event)
    requires Inv(s) && e.Arrive? && Enabled(s, e)
    ensures Inv(Next(s, e)) <==> forall r :: r in s.flights ==> s.flights[r] == Looked(false)
  {
    var s' := Next(s, e);
    assert e.line.id in s'.ever && e.line.id !in s.archived;
    if Inv(s') {
      forall r | r in s.flights ensures s.flights[r] == Looked(false) {
        assert FlightOk(s, s.flights[r]) && FlightOk(s', s.flights[r]);
      }
    }
  }

  /** And a look is harmless exactly if it does not take an overlooked row's session for fresh. */
  lemma LookIsSafeExactly(s: State, e: Event)
    requires Inv(s) && e.Look? && Enabled(s, e)
    ensures Inv(Next(s, e)) <==> !(Fresh(s) && s.overlooked)
  {
    var s' := Next(s, e);
    if Inv(s') {
      assert FlightOk(s', s'.flights[e.routine]);
    } else {
      assert forall r :: r in s.flights ==> FlightOk(s', s.flights[r]);
    }
  }

  /** Any number of routines may overlap, fail, overwrite each other's transcripts and delete on their
      licences: as long as arrivals and looks are careful, no message is ever lost, and a fresh archive
      without an overlooked row is complete. Routines need no lock against each other. */
  lemma {:induction false} CarefulRunsLoseNothing(trace: seq<State>, events: seq<Event>, n: nat)
    requires IsRun(trace, events) && n <= |events|
    requires forall i :: 0 <= i < n ==> Careful(trace[i], events[i])
    ensures Inv(trace[n]) && NothingLost(trace[n])
    ensures Fresh(trace[n]) && !trace[n].overlooked ==> trace[n].archived == trace[n].ever
  {
    hide Next, Enabled, FlightOk;
    if n == 0 {
    } else {
      CarefulRunsLoseNothing(trace, events, n - 1);
      var s, e := trace[n - 1], events[n - 1];
      if e.Arrive? {
        ArrivalIsSafeExactly(s, e);
      } else if e.Look? {
        LookIsSafeExactly(s, e);
      } else if e.ReadOld? || e.Write? || e.Stamp? {
        FlightKeepsInv(s, e);
      } else {
        OtherKeepsInv(s, e);
      }
    }
  }

  // ---------------------------------------------------------------- every other window loses

  /** The routine goes on to delete without having this message in what it archives. */
  predicate Unaware(f: Flight, id: nat) {
    match f
    case Looked(isFresh) => isFresh
    case Loaded(rows) => id !in rows
    case Read(merged) => id !in merged
    case _ => true
  }

  function StepsLeft(f: Flight): nat {
    match f
    case Looked(_) => 4
    case Loaded(_) => 4
    case Read(_) => 3
    case Written => 2
    case Licensed => 1
  }

  /** Left to itself, such a routine destroys the message. */
  lemma {:induction false} UnawareLoses(s: State, r: nat, id: nat) returns (trace: seq<State>, events: seq<Event>)
    requires id in s.ever && id !in s.archived && r in s.flights && Unaware(s.flights[r], id)
    ensures Follows(trace, events) && trace[0] == s && !NothingLost(trace[|events|])
    decreases StepsLeft(s.flights[r])
  {
    var e :=
      match s.flights[r]
      case Looked(_) => Pass(r)
      case Loaded(_) => ReadOld(r)
      case Read(_) => Write(r)
      case Written => Stamp(r, true)
      case Licensed => Delete(r, {id});
    var s' := Next(s, e);
    if s.flights[r].Licensed? {
      InNeither(s', id);
      trace, events := [s, s'], [e];
    } else {
      hide NothingLost;
      var t, es := UnawareLoses(s', r, id);
      trace, events := [s] + t, [e] + es;
    }
  }

  /** So a step that is not careful, from any state of a careful run, can lose a message: an arrival
      that comes too late, and a look that takes an overlooked row's session for fresh. */
  lemma CarelessCanLose(s: State, e: Event) returns (trace: seq<State>, events: seq<Event>)
    requires Inv(s) && Enabled(s, e) && !Careful(s, e)
    ensures Follows(trace, events) && trace[0] == Next(s, e) && !NothingLost(trace[|events|])
  {
    hide NothingLost;
    if e.Arrive? {
      var r :| r in s.flights && s.flights[r] != Looked(false);
      assert FlightOk(s, s.flights[r]);
      trace, events := UnawareLoses(Next(s, e), r, e.line.id);
    } else {
      var id :| id in s.ever && id !in s.archived;
      trace, events := UnawareLoses(Next(s, e), e.routine, id);
    }
  }

  lemma AllHot(s: State)
    requires s.hot == s.ever
    ensures NothingLost(s)
  {
  }

  lemma InNeither(s: State, id: nat)
    requires id in s.ever && id !in s.hot && id !in s.archived
    ensures !NothingLost(s)
  {
  }

  /** A message has arrived, and a routine has queried the rows. */
  lemma Queried(a: Line) returns (trace: seq<State>, events: seq<Event>)
    ensures IsRun(trace, events) && |events| == 3
    ensures
      var rows := map[a.id := a];
      trace[3] == State(rows, map[], None, 0, 0, map[0 := Loaded(rows)], rows, false)
    ensures forall i :: 0 <= i <= 3 ==> NothingLost(trace[i])
  {
    hide NothingLost;
    var s1 := Next(START, Arrive(a));
    var s2 := Next(s1, Look(0));
    var s3 := Next(s2, Load(0));
    AllHot(START);
    AllHot(s1);
    AllHot(s2);
    AllHot(s3);
    trace, events := [START, s1, s2, s3], [Arrive(a), Look(0), Load(0)];
  }

  /** And then a message arrives, row and move. */
  lemma RowsQueried(a: Line, b: Line) returns (trace: seq<State>, events: seq<Event>)
    requires a.id != b.id
    ensures IsRun(trace, events) && |events| == 5 && events[3] == Arrive(b) && events[4] == Move
    ensures
      var both := map[a.id := a, b.id := b];
      trace[5] == State(both, map[], None, 0, 0, map[0 := Loaded(map[a.id := a])], both, false)
    ensures forall i :: 0 <= i <= 5 ==> NothingLost(trace[i])
  {
    hide NothingLost;
    trace, events := Queried(a);
    var s4 := Next(trace[3], Arrive(b));
    var s5 := Next(s4, Move);
    AllHot(s4);
    AllHot(s5);
    trace, events := trace + [s4, s5], events + [Arrive(b), Move];
  }

  /** A message that arrives after a routine's row query is lost: the stamp passes for fresh and the
      licence covers both rows, but only one was archived. */
  lemma ArrivalInFlightIsLost(a: Line, b: Line) returns (trace: seq<State>, events: seq<Event>)
    requires a.id != b.id
    ensures IsRun(trace, events) && |events| == 9 && events[3] == Arrive(b) && events[4] == Move
    ensures !NothingLost(trace[9]) && Fresh(trace[9]) && forall i :: 0 <= i < 9 ==> NothingLost(trace[i])
  {
    hide NothingLost;
    trace, events := RowsQueried(a, b);
    var s6 := Next(trace[5], ReadOld(0));
    assert map[] + map[a.id := a] == map[a.id := a];
    var s7 := Next(s6, Write(0));
    var s8 := Next(s7, Stamp(0, true));
    var s9 := Next(s8, Delete(0, {a.id, b.id}));
    AllHot(s6);
    AllHot(s7);
    AllHot(s8);
    InNeither(s9, b.id);
    trace := trace + [s6, s7, s8, s9];
    events := events + [ReadOld(0), Write(0), Stamp(0, true), Delete(0, {a.id, b.id})];
  }

  /** One routine archives one message and holds its licence. */
  lemma OneLicence(a: Line) returns (trace: seq<State>, events: seq<Event>)
    ensures IsRun(trace, events) && |events| == 6 && events[5] == Stamp(0, true)
    ensures
      trace[6] == State(map[a.id := a], map[a.id := a], Some(0), 0, 0, map[0 := Licensed], map[a.id := a], false)
    ensures forall i :: 0 <= i <= 6 ==> NothingLost(trace[i])
  {
    hide NothingLost;
    trace, events := Queried(a);
    var s4 := Next(trace[3], ReadOld(0));
    assert map[] + map[a.id := a] == map[a.id := a];
    var s5 := Next(s4, Write(0));
    var s6 := Next(s5, Stamp(0, true));
    AllHot(s4);
    AllHot(s5);
    AllHot(s6);
    trace, events := trace + [s4, s5, s6], events + [ReadOld(0), Write(0), Stamp(0, true)];
  }

  /** A message that arrives after the licence and before the deletion is lost, with no archive pass
      under way and the session by then not fresh. */
  lemma ArrivalBeforeDeleteIsLost(a: Line, b: Line) returns (trace: seq<State>, events: seq<Event>)
    requires a.id != b.id
    ensures IsRun(trace, events) && |events| == 10
    ensures events[7] == Arrive(b) && events[8] == Move && events[9] == Delete(0, {a.id, b.id})
    ensures !Fresh(trace[9]) && trace[9].flights == map[0 := Licensed]
    ensures !NothingLost(trace[10]) && forall i :: 0 <= i < 10 ==> NothingLost(trace[i])
  {
    trace, events := OneLicence(a);
    var s7 := Next(trace[6], Tick(1));
    var s8 := Next(s7, Arrive(b));
    var s9 := Next(s8, Move);
    var s10 := Next(s9, Delete(0, {a.id, b.id}));
    assert b.id in s10.ever && b.id !in s10.hot && b.id !in s10.archived;
    trace, events := trace + [s7, s8, s9, s10], events + [Tick(1), Arrive(b), Move, Delete(0, {a.id, b.id})];
  }

  /** The session is archived and left alone, and then a message's row arrives. */
  lemma RowWithoutMove(a: Line, b: Line) returns (trace: seq<State>, events: seq<Event>)
    requires a.id != b.id
    ensures IsRun(trace, events) && |events| == 9 && events[8] == Arrive(b)
    ensures
      var both := map[a.id := a, b.id := b];
      && trace[8].flights == map[] && trace[9] == State(both, map[a.id := a], Some(0), 0, 1, map[], both, true)
    ensures forall i :: 0 <= i <= 9 ==> NothingLost(trace[i])
  {
    trace, events := OneLicence(a);
    var s7 := Next(trace[6], End(0));
    var s8 := Next(s7, Tick(1));
    var s9 := Next(s8, Arrive(b));
    trace, events := trace + [s7, s8, s9], events + [End(0), Tick(1), Arrive(b)];
  }

  /** A message is lost with nobody dealing with the session when it arrives, if a look comes between
      its row and the move of the activity: the session still passes for fresh, and the move, which
      makes it not fresh before the deletion, comes too late. */
  lemma EarlyLookIsLost(a: Line, b: Line) returns (trace: seq<State>, events: seq<Event>)
    requires a.id != b.id
    ensures IsRun(trace, events) && |events| == 13
    ensures events[8] == Arrive(b) && events[9] == Look(1) && events[10] == Move
    ensures trace[8].flights == map[] && !Fresh(trace[12])
    ensures !NothingLost(trace[13]) && forall i :: 0 <= i < 13 ==> NothingLost(trace[i])
  {
    hide NothingLost;
    trace, events := RowWithoutMove(a, b);
    var s10 := Next(trace[9], Look(1));
    var s11 := Next(s10, Move);
    var s12 := Next(s11, Pass(1));
    var s13 := Next(s12, Delete(1, {a.id, b.id}));
    AllHot(s10);
    AllHot(s11);
    AllHot(s12);
    InNeither(s13, b.id);
    trace, events := trace + [s10, s11, s12, s13], events + [Look(1), Move, Pass(1), Delete(1, {a.id, b.id})];
  }

  /** A routine has merged the rows, and then a message's row arrives. */
  lemma Merged(a: Line, b: Line) returns (trace: seq<State>, events: seq<Event>)
    requires a.id != b.id
    ensures IsRun(trace, events) && |events| == 5
    ensures
      var both := map[a.id := a, b.id := b];
      trace[5] == State(both, map[], None, 0, 0, map[0 := Read(map[a.id := a])], both, false)
  {
    trace, events := Queried(a);
    var s4 := Next(trace[3], ReadOld(0));
    assert map[] + map[a.id := a] == map[a.id := a];
    var s5 := Next(s4, Arrive(b));
    trace, events := trace + [s4, s5], events + [ReadOld(0), Arrive(b)];
  }

  /** Two routines about to write what they merged, one before a message and one after it. */
  lemma TwoArchivers(a: Line, b: Line) returns (trace: seq<State>, events: seq<Event>)
    requires a.id != b.id
    ensures IsRun(trace, events) && |events| == 8
    ensures
      var both := map[a.id := a, b.id := b];
      trace[8] == State(both, map[], None, 0, 0, map[0 := Read(map[a.id := a]), 1 := Read(both)], both, false)
  {
    trace, events := Merged(a, b);
    var both := map[a.id := a, b.id := b];
    var s6 := Next(trace[5], Look(1));
    var s7 := Next(s6, Load(1));
    var s8 := Next(s7, ReadOld(1));
    assert map[] + both == both;
    trace, events := trace + [s6, s7, s8], events + [Look(1), Load(1), ReadOld(1)];
  }

  /** Two archivers and one arrival: the second pass archives, stamps and deletes correctly, and then
      the first overwrites the transcript with what it had merged before the arrival. */
  lemma StaleOverwriteIsLost(a: Line, b: Line) returns (trace: seq<State>, events: seq<Event>)
    requires a.id != b.id
    ensures IsRun(trace, events) && |events| == 12 && events[10].Delete? && events[11] == Write(0)
    ensures NothingLost(trace[11]) && !NothingLost(trace[12])
  {
    trace, events := TwoArchivers(a, b);
    var s9 := Next(trace[8], Write(1));
    var s10 := Next(s9, Stamp(1, true));
    var s11 := Next(s10, Delete(1, {a.id, b.id}));
    var s12 := Next(s11, Write(0));
    assert b.id in s12.ever && b.id !in s12.hot && b.id !in s12.archived;
    trace := trace + [s9, s10, s11, s12];
    events := events + [Write(1), Stamp(1, true), Delete(1, {a.id, b.id}), Write(0)];
  }
}
