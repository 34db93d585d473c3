/** The device-local registry of linked connections: every enrolment gets an id of its own, so
    nothing that belonged to an old connection can be taken over by its replacement. */
module Federation {
  import opened Wrappers

  const IDS: nat := 0x1_0000_0000
  const HOME: nat := 0

  /** One connection. `client` is the id under which its client holds authority, if it has one. */
  datatype Row = Row(id: nat, origin: string, user: nat, client: Option<nat>, status: string, live: Option<string>)

  /** The registry, and how many ids it has given out. */
  datatype State = State(rows: seq<Row>, nextId: nat, issued: nat)

  datatype Action =
    | Initialized(rows: seq<Row>)
    | Add(origin: string, user: nat, built: bool, error: string)
    | Remove(id: nat)
    | Deactivate(id: nat, status: string)
    | Status(id: nat, status: string)
    | LiveStatus(id: nat, live: Option<string>)

  const START := State([], 1, 0)

  /** The id after `n`, in 32 bits. */
  function After(n: nat): (m: nat)
    ensures m < IDS
  {
    (n + 1) % IDS
  }

  /** Gives every row the next id in turn. */
  function Numbered(s: State, rows: seq<Row>, n: nat): State
    requires n <= |rows|
  {
    if n == 0 then s.(rows := [])
    else
      var t := Numbered(s, rows, n - 1);
      State(t.rows + [rows[n - 1].(id := t.nextId)], After(t.nextId), t.issued + 1)
  }

  /** The first row from `i` on of this account, or the end. */
  function Position(rows: seq<Row>, origin: string, user: nat, i: nat): (k: nat)
    requires i <= |rows|
    ensures i <= k <= |rows|
    ensures k < |rows| ==> rows[k].origin == origin && rows[k].user == user
    ensures forall j :: i <= j < k ==> rows[j].origin != origin || rows[j].user != user
    decreases |rows| - i
  {
    if i == |rows| || (rows[i].origin == origin && rows[i].user == user) then i
    else Position(rows, origin, user, i + 1)
  }

  /** The first row from `i` on with this id, or the end. */
  function Find(rows: seq<Row>, id: nat, i: nat): (k: nat)
    requires i <= |rows|
    ensures i <= k <= |rows|
    ensures k < |rows| ==> rows[k].id == id
    ensures forall j :: i <= j < k ==> rows[j].id != id
    decreases |rows| - i
  {
    if i == |rows| || rows[i].id == id then i else Find(rows, id, i + 1)
  }

  function Without(rows: seq<Row>, id: nat, n: nat): seq<Row>
    requires n <= |rows|
  {
    if n == 0 then []
    else Without(rows, id, n - 1) + (if rows[n - 1].id != id then [rows[n - 1]] else [])
  }

  function Put(rows: seq<Row>, k: nat, row: Row): seq<Row>
    requires k <= |rows|
  {
    if k < |rows| then rows[k := row] else rows + [row]
  }

  const HOME_REFUSED := "A linked connection cannot use the home identity"

  /** A newly enrolled row: its client, if its credentials and origin will do, carries its own id. The
      home id is refused a client. */
  function Enrolled(id: nat, origin: string, user: nat, built: bool, error: string): Row {
    if !built then Row(id, origin, user, None, error, None)
    else if id == HOME then Row(id, origin, user, None, HOME_REFUSED, None)
    else Row(id, origin, user, Some(id), "Connected", None)
  }

  function Edited(row: Row, a: Action): Row {
    match a
    case Deactivate(_, status) => row.(client := None, status := status, live := None)
    case Status(_, status) => row.(status := status)
    case LiveStatus(_, live) => row.(live := live)
    case _ => row
  }

  function Next(s: State, a: Action): State {
    match a
    case Initialized(rows) => Numbered(s, rows, |rows|)
    case Add(origin, user, built, error) =>
      var row := Enrolled(s.nextId, origin, user, built, error);
      State(Put(s.rows, Position(s.rows, origin, user, 0), row), After(s.nextId), s.issued + 1)
    case Remove(id) => s.(rows := Without(s.rows, id, |s.rows|))
    case _ =>
      var k := Find(s.rows, a.id, 0);
      if k < |s.rows| then s.(rows := s.rows[k := Edited(s.rows[k], a)]) else s
  }

  ghost predicate IsRun(trace: seq<State>, actions: seq<Action>) {
    && |trace| == |actions| + 1 && trace[0] == START
    && forall i :: 0 <= i < |actions| ==> trace[i + 1] == Next(trace[i], actions[i])
  }

  // ---------------------------------------------------------------- ids

  ghost predicate IdsOk(s: State) {
    && s.nextId == (1 + s.issued) % IDS
    && (s.issued < IDS ==> forall i :: 0 <= i < |s.rows| ==> 1 <= s.rows[i].id <= s.issued)
    && (s.issued < IDS ==> forall i, j :: 0 <= i < j < |s.rows| ==> s.rows[i].id != s.rows[j].id)
  }

  /** Ids given out after `s`: whatever is in `rows` was there before or is new since. */
  ghost predicate OldOrNew(s: State, rows: seq<Row>) {
    forall r :: r in rows ==> r.id > s.issued || exists q :: q in s.rows && q.id == r.id
  }

  lemma NextNumber(n: nat, k: nat)
    requires n == (1 + k) % IDS
    ensures After(n) == (1 + (k + 1)) % IDS
    ensures k < IDS - 1 ==> n == k + 1
  {
  }

  lemma {:induction false} NumberedOk(s: State, rows: seq<Row>, n: nat)
    requires s.nextId == (1 + s.issued) % IDS && n <= |rows|
    ensures
      var t := Numbered(s, rows, n);
      && t.nextId == (1 + t.issued) % IDS && t.issued == s.issued + n && |t.rows| == n
      && (t.issued < IDS ==> forall i :: 0 <= i < n ==> t.rows[i] == rows[i].(id := s.issued + 1 + i))
      && (forall i :: 0 <= i < n ==> t.rows[i].origin == rows[i].origin && t.rows[i].user == rows[i].user)
  {
    if n == 0 {
    } else {
      NumberedOk(s, rows, n - 1);
      var t := Numbered(s, rows, n - 1);
      NextNumber(t.nextId, t.issued);
    }
  }

  /** Where each remaining row stood. */
  lemma {:induction false} WithoutKeeps(rows: seq<Row>, id: nat, n: nat) returns (at: seq<nat>)
    requires n <= |rows|
    ensures |at| == |Without(rows, id, n)|
    ensures forall i :: 0 <= i < |at| ==> at[i] < n && Without(rows, id, n)[i] == rows[at[i]] && rows[at[i]].id != id
    ensures forall i, j :: 0 <= i < j < |at| ==> at[i] < at[j]
    ensures forall k :: k in at <==> 0 <= k < n && rows[k].id != id
  {
    if n == 0 {
      at := [];
    } else {
      at := WithoutKeeps(rows, id, n - 1);
      if rows[n - 1].id != id {
        at := at + [n - 1];
      }
    }
  }

  /** Removing an id removes its rows and no other. */
  lemma {:induction false} WithoutExact(rows: seq<Row>, id: nat, n: nat, r: Row)
    requires n <= |rows|
    ensures r in Without(rows, id, n) <==> r in rows[..n] && r.id != id
  {
    if n == 0 {
    } else {
      WithoutExact(rows, id, n - 1, r);
      assert rows[..n] == rows[..n - 1] + [rows[n - 1]];
    }
  }

  lemma AddKeepsIds(s: State, a: Action)
    requires IdsOk(s) && a.Add?
    ensures IdsOk(Next(s, a)) && (Next(s, a).issued < IDS ==> OldOrNew(s, Next(s, a).rows))
  {
    NextNumber(s.nextId, s.issued);
    var k := Position(s.rows, a.origin, a.user, 0);
    var t := Next(s, a);
    forall r | r in t.rows ensures r.id > s.issued || r.id == s.nextId || r in s.rows {
      var i :| 0 <= i < |t.rows| && t.rows[i] == r;
      assert i != k ==> t.rows[i] == s.rows[i];
    }
  }

  lemma RemoveKeepsIds(s: State, a: Action)
    requires IdsOk(s) && a.Remove?
    ensures IdsOk(Next(s, a)) && (Next(s, a).issued < IDS ==> OldOrNew(s, Next(s, a).rows))
  {
    var at := WithoutKeeps(s.rows, a.id, |s.rows|);
  }

  lemma InitializedKeepsIds(s: State, a: Action)
    requires IdsOk(s) && a.Initialized?
    ensures IdsOk(Next(s, a)) && (Next(s, a).issued < IDS ==> OldOrNew(s, Next(s, a).rows))
  {
    NumberedOk(s, a.rows, |a.rows|);
  }

  lemma EditKeepsIds(s: State, a: Action)
    requires IdsOk(s) && !a.Add? && !a.Remove? && !a.Initialized?
    ensures IdsOk(Next(s, a)) && (Next(s, a).issued < IDS ==> OldOrNew(s, Next(s, a).rows))
  {
  }

  lemma StepKeepsIds(s: State, a: Action)
    requires IdsOk(s)
    ensures IdsOk(Next(s, a)) && s.issued <= Next(s, a).issued
    ensures Next(s, a).issued < IDS ==> OldOrNew(s, Next(s, a).rows)
  {
    match a
    case Add(_, _, _, _) => AddKeepsIds(s, a);
    case Remove(_) => RemoveKeepsIds(s, a);
    case Initialized(rows) => InitializedKeepsIds(s, a); NumberedOk(s, rows, |rows|);
    case _ => EditKeepsIds(s, a);
  }

  lemma {:induction false} RunKeepsIds(trace: seq<State>, actions: seq<Action>, i: nat)
    requires IsRun(trace, actions) && i <= |actions|
    ensures IdsOk(trace[i])
  {
    hide Next;
    if i == 0 {
    } else {
      RunKeepsIds(trace, actions, i - 1);
      StepKeepsIds(trace[i - 1], actions[i - 1]);
    }
  }

  ghost predicate Holds(s: State, id: nat) {
    exists r :: r in s.rows && r.id == id
  }

  /** An id that was given out and is no longer held, because its row was removed, replaced or
      reloaded, is never held again, as long as fewer than 2^32 ids have been given out. */
  lemma {:induction false} GoneForGood(trace: seq<State>, actions: seq<Action>, i: nat, j: nat, id: nat)
    requires IsRun(trace, actions) && i <= j <= |actions| && trace[j].issued < IDS
    requires id <= trace[i].issued && !Holds(trace[i], id)
    ensures !Holds(trace[j], id) && trace[i].issued <= trace[j].issued
    decreases j - i
  {
    hide Next;
    if i == j {
    } else {
      RunKeepsIds(trace, actions, j - 1);
      StepKeepsIds(trace[j - 1], actions[j - 1]);
      GoneForGood(trace, actions, i, j - 1, id);
      assert OldOrNew(trace[j - 1], trace[j].rows);
    }
  }

  // ---------------------------------------------------------------- one row an account

  ghost predicate OneRowEach(rows: seq<Row>) {
    forall i, j :: 0 <= i < j < |rows| ==> rows[i].origin != rows[j].origin || rows[i].user != rows[j].user
  }

  /** A client holds the id of its own row and no other, and never the home id. */
  ghost predicate OwnClients(rows: seq<Row>) {
    forall i :: 0 <= i < |rows| ==>
      rows[i].client == None || (rows[i].client == Some(rows[i].id) && rows[i].id != HOME)
  }

  /** Reloaded rows name each account once and come without clients. */
  ghost predicate CleanLoad(a: Action) {
    a.Initialized? ==> OneRowEach(a.rows) && forall i :: 0 <= i < |a.rows| ==> a.rows[i].client == None
  }

  lemma {:induction false} NumberedClients(s: State, rows: seq<Row>, n: nat)
    requires n <= |rows| && forall i :: 0 <= i < |rows| ==> rows[i].client == None
    ensures OwnClients(Numbered(s, rows, n).rows)
  {
    if n == 0 {
    } else {
      NumberedClients(s, rows, n - 1);
    }
  }

  lemma StepKeepsRows(s: State, a: Action)
    requires IdsOk(s) && OneRowEach(s.rows) && OwnClients(s.rows) && CleanLoad(a)
    ensures OneRowEach(Next(s, a).rows) && OwnClients(Next(s, a).rows)
  {
    match a
    case Initialized(rows) =>
      NumberedOk(s, rows, |rows|);
      NumberedClients(s, rows, |rows|);
    case Remove(id) =>
      var at := WithoutKeeps(s.rows, id, |s.rows|);
    case _ =>
  }

  /** Re-enrolling replaces the account's row, and a reload replaces them all: no account ever
      has two rows, and no client ever holds another row's id or the home id, however many ids
      were given out. */
  lemma {:induction false} OneRowPerAccount(trace: seq<State>, actions: seq<Action>, i: nat)
    requires IsRun(trace, actions) && i <= |actions|
    requires forall k :: 0 <= k < i ==> CleanLoad(actions[k])
    ensures OneRowEach(trace[i].rows) && OwnClients(trace[i].rows)
  {
    hide Next, OneRowEach, OwnClients, CleanLoad;
    if i == 0 {
      NoRows();
    } else {
      OneRowPerAccount(trace, actions, i - 1);
      RunKeepsIds(trace, actions, i - 1);
      StepKeepsRows(trace[i - 1], actions[i - 1]);
    }
  }

  lemma NoRows()
    ensures OneRowEach([]) && OwnClients([])
  {
  }

  /** A deactivation takes the one row's client away, a status change only its text; neither
      touches any other row, nor whose connection the row is. */
  lemma EditExact(s: State, a: Action, i: nat)
    requires s.issued < IDS && IdsOk(s) && (a.Deactivate? || a.Status? || a.LiveStatus?) && i < |s.rows|
    ensures
      var row, edited := s.rows[i], Next(s, a).rows[i];
      && |Next(s, a).rows| == |s.rows|
      && (row.id != a.id ==> edited == row)
      && (edited.id, edited.origin, edited.user) == (row.id, row.origin, row.user)
      && (row.id == a.id && a.Deactivate? ==> edited.client == None && edited.live == None && edited.status == a.status)
      && (row.id == a.id && a.Status? ==>
            (edited.client, edited.live, edited.status) == (row.client, row.live, a.status))
      && (row.id == a.id && a.LiveStatus? ==>
            (edited.client, edited.live, edited.status) == (row.client, a.live, row.status))
  {
  }

  /** An enrolment puts one row in the place of the account's old one, or at the end: under the next id,
      connected with a client of its own if its credentials and origin will do, and otherwise with the
      error and none. No other row changes. */
  lemma EnrolExact(s: State, a: Action) returns (k: nat)
    requires a.Add? && IdsOk(s) && s.issued + 1 < 0x1_0000_0000
    ensures
      var t, id := Next(s, a), s.issued + 1;
      && k < |t.rows| && t.issued == id
      && t.rows[k] == (if a.built then Row(id, a.origin, a.user, Some(id), "Connected", None)
                       else Row(id, a.origin, a.user, None, a.error, None))
      && (if exists i :: 0 <= i < |s.rows| && s.rows[i].origin == a.origin && s.rows[i].user == a.user then
            |t.rows| == |s.rows| && s.rows[k].origin == a.origin && s.rows[k].user == a.user
          else |t.rows| == |s.rows| + 1 && k == |s.rows|)
      && (forall i :: 0 <= i < |s.rows| && i != k ==> t.rows[i] == s.rows[i])
  {
    k := Position(s.rows, a.origin, a.user, 0);
  }

  /** When the counter has come round, the home id is refused a client. */
  lemma HomeIsRefused(s: State, a: Action)
    requires a.Add? && a.built && s.nextId == HOME
    ensures exists row :: row in Next(s, a).rows
              && row == Row(0, a.origin, a.user, None, "A linked connection cannot use the home identity", None)
  {
    var k := Position(s.rows, a.origin, a.user, 0);
    assert Next(s, a).rows[k] in Next(s, a).rows;
  }

  // ---------------------------------------------------------------- when the counter comes round

  /** Enrolling one account again and again. */
  lemma {:induction false} EnrolAgain(n: nat) returns (trace: seq<State>, actions: seq<Action>)
    ensures IsRun(trace, actions) && |actions| == n && trace[n].issued == n
    ensures n > 0 ==> trace[n].rows == [Enrolled(n % IDS, "", 0, true, "")]
  {
    if n == 0 {
      trace, actions := [START], [];
    } else {
      trace, actions := EnrolAgain(n - 1);
      RunKeepsIds(trace, actions, n - 1);
      var a := Add("", 0, true, "");
      var last := Next(trace[n - 1], a);
      AddOnly(trace[n - 1], a);
      trace, actions := trace + [last], actions + [a];
    }
  }

  lemma AddOnly(s: State, a: Action)
    requires a.Add? && (s.rows == [] || (|s.rows| == 1 && s.rows[0].origin == a.origin && s.rows[0].user == a.user))
    ensures Next(s, a).rows == [Enrolled(s.nextId, a.origin, a.user, a.built, a.error)]
    ensures Next(s, a).issued == s.issued + 1
  {
  }

  /** No registry that has given out at most `n` ids gives any connection the home id. */
  ghost predicate NeverHome(n: nat) {
    forall trace: seq<State>, actions: seq<Action> ::
      IsRun(trace, actions) && trace[|actions|].issued <= n ==> !Holds(trace[|actions|], HOME)
  }

  /** That is so exactly while the 32-bit counter has not come round. */
  lemma NeverHomeBelowTheWrap(n: nat)
    ensures NeverHome(n) <==> n < IDS
  {
    if n < IDS {
      forall trace: seq<State>, actions: seq<Action> | IsRun(trace, actions) && trace[|actions|].issued <= n
        ensures !Holds(trace[|actions|], HOME)
      {
        RunKeepsIds(trace, actions, |actions|);
      }
    } else {
      var trace, actions := EnrolAgain(IDS);
      assert trace[|actions|].rows[0].id == HOME;
      assert trace[|actions|].rows[0] in trace[|actions|].rows;
    }
  }

  // ---------------------------------------------------------------- the registry

  class FederationState {
    var rows: seq<Row>
    var nextId: nat
    ghost var issued: nat

    ghost function Now(): State
      reads this
    {
      State(rows, nextId, issued)
    }

    constructor ()
      ensures Now() == START
    {
      rows, nextId, issued := [], 1, 0;
    }

    method Allocate() returns (id: nat)
      modifies this`nextId, this`issued
      ensures id == old(nextId) && nextId == After(id) && issued == old(issued) + 1
    {
      id := nextId;
      nextId := After(nextId);
      issued := issued + 1;
    }

    method Initialize(loaded: seq<Row>)
      modifies this
      ensures Now() == Next(old(Now()), Initialized(loaded))
    {
      var renamed: seq<Row> := [];
      for i := 0 to |loaded|
        invariant Numbered(old(Now()), loaded, i) == State(renamed, nextId, issued)
      {
        var id := Allocate();
        renamed := renamed + [loaded[i].(id := id)];
      }
      rows := renamed;
    }

    method Enrol(origin: string, user: nat, built: bool, error: string)
      modifies this
      ensures Now() == Next(old(Now()), Add(origin, user, built, error))
    {
      var existing := 0;
      while existing < |rows| && (rows[existing].origin != origin || rows[existing].user != user)
        invariant existing <= |rows|
        invariant Position(rows, origin, user, 0) == Position(rows, origin, user, existing)
      {
        existing := existing + 1;
      }
      var id := Allocate();
      var row := Enrolled(id, origin, user, built, error);
      if existing < |rows| {
        rows := rows[existing := row];
      } else {
        rows := rows + [row];
      }
    }

    method Drop(id: nat)
      modifies this`rows
      ensures Now() == Next(old(Now()), Remove(id))
    {
      var kept: seq<Row> := [];
      for i := 0 to |rows|
        invariant rows == old(rows)
        invariant kept == Without(rows, id, i)
      {
        if rows[i].id != id {
          kept := kept + [rows[i]];
        }
      }
      rows := kept;
    }

    /** Deactivations and status changes touch the first row with the id, if there is one. */
    method Edit(a: Action)
      requires a.Deactivate? || a.Status? || a.LiveStatus?
      modifies this`rows
      ensures Now() == Next(old(Now()), a)
    {
      var at := 0;
      while at < |rows| && rows[at].id != a.id
        invariant at <= |rows|
        invariant Find(rows, a.id, 0) == Find(rows, a.id, at)
      {
        at := at + 1;
      }
      if at < |rows| {
        rows := rows[at := Edited(rows[at], a)];
      }
    }

    method Reduce(a: Action)
      modifies this
      ensures Now() == Next(old(Now()), a)
    {
      match a {
        case Initialized(loaded) => Initialize(loaded);
        case Add(origin, user, built, error) => Enrol(origin, user, built, error);
        case Remove(id) => Drop(id);
        case _ => Edit(a);
      }
    }
  }
}
