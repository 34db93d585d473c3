/** One walk of the archive for the history page, and the filtered, most-recent-first listing. */
module ArchiveScan {
  import opened Wrappers

  datatype Manifest = Manifest(session: nat, lastActivity: int, details: nat)

  datatype FlatRow = FlatRow(user: nat, manifest: Manifest)

  /** What reading one session's manifest yields. */
  datatype ManifestRead = Absent | Corrupt | Readable(manifest: Manifest)

  /** What the store answers during one walk: the users, unless they cannot be listed; each
      user's sessions, unless those cannot; and each manifest. */
  datatype View = View(users: Option<seq<nat>>, sessions: map<nat, seq<nat>>, manifests: map<(nat, nat), ManifestRead>)

  function Read(v: View, user: nat, session: nat): ManifestRead {
    if (user, session) in v.manifests then v.manifests[(user, session)] else Absent
  }

  /** The rows of the first `n` sessions of a listing. */
  function SessionRows(v: View, user: nat, listing: seq<nat>, n: nat): seq<FlatRow>
    requires n <= |listing|
  {
    if n == 0 then []
    else
      SessionRows(v, user, listing, n - 1) +
      match Read(v, user, listing[n - 1])
      case Readable(m) => [FlatRow(user, m)]
      case _ => []
  }

  /** The rows of the first `n` users. */
  function UserRows(v: View, users: seq<nat>, n: nat): seq<FlatRow>
    requires n <= |users|
  {
    if n == 0 then []
    else
      UserRows(v, users, n - 1) +
      if users[n - 1] in v.sessions then
        SessionRows(v, users[n - 1], v.sessions[users[n - 1]], |v.sessions[users[n - 1]]|)
      else []
  }

  /** Only a failure to list the users is fatal; everything else unreadable is passed over. */
  method CollectRows(v: View) returns (result: Option<seq<FlatRow>>)
    ensures result.None? <==> v.users.None?
    ensures v.users.Some? ==> result == Some(UserRows(v, v.users.value, |v.users.value|))
  {
    if v.users.None? {
      return None;
    }
    var users := v.users.value;
    var rows: seq<FlatRow> := [];
    for i := 0 to |users|
      invariant rows == UserRows(v, users, i)
    {
      var user := users[i];
      if user !in v.sessions {
        continue;
      }
      var listing := v.sessions[user];
      ghost var sofar := rows;
      for j := 0 to |listing|
        invariant rows == sofar + SessionRows(v, user, listing, j)
      {
        match Read(v, user, listing[j]) {
          case Readable(manifest) => rows := rows + [FlatRow(user, manifest)];
          case _ =>
        }
      }
    }
    return Some(rows);
  }

  // ---------------------------------------------------------------- nothing missed, nothing invented

  /** The walk should show this row: its user and session are listed and its manifest reads. */
  ghost predicate Shown(v: View, users: seq<nat>, row: FlatRow) {
    row.user in users && row.user in v.sessions &&
    exists s :: s in v.sessions[row.user] && Read(v, row.user, s) == Readable(row.manifest)
  }

  lemma {:induction false} SessionRowsExact(v: View, user: nat, listing: seq<nat>, n: nat, row: FlatRow)
    requires n <= |listing|
    ensures row in SessionRows(v, user, listing, n) <==>
      row.user == user && exists s :: s in listing[..n] && Read(v, user, s) == Readable(row.manifest)
  {
    if n == 0 {
    } else {
      SessionRowsExact(v, user, listing, n - 1, row);
      assert listing[..n] == listing[..n - 1] + [listing[n - 1]];
    }
  }

  lemma {:induction false} UserRowsExact(v: View, users: seq<nat>, n: nat, row: FlatRow)
    requires n <= |users|
    ensures row in UserRows(v, users, n) <==> Shown(v, users[..n], row)
  {
    if n == 0 {
    } else {
      UserRowsExact(v, users, n - 1, row);
      assert users[..n] == users[..n - 1] + [users[n - 1]];
      var user := users[n - 1];
      if user in v.sessions {
        var listing := v.sessions[user];
        SessionRowsExact(v, user, listing, |listing|, row);
        assert listing[..|listing|] == listing;
      }
    }
  }

  /** One scan shows exactly the readable manifests of the users whose sessions can be listed. */
  lemma ScanIsExact(v: View, row: FlatRow)
    requires v.users.Some?
    ensures row in UserRows(v, v.users.value, |v.users.value|) <==> Shown(v, v.users.value, row)
  {
    var users := v.users.value;
    UserRowsExact(v, users, |users|, row);
    assert users[..|users|] == users;
  }

  ghost predicate Ascending(s: seq<nat>) {
    forall i, j :: 0 <= i < j < |s| ==> s[i] < s[j]
  }

  predicate RowBefore(a: FlatRow, b: FlatRow) {
    a.user < b.user || (a.user == b.user && a.manifest.session < b.manifest.session)
  }

  ghost predicate RowsAscend(rows: seq<FlatRow>) {
    forall i, j :: 0 <= i < j < |rows| ==> RowBefore(rows[i], rows[j])
  }

  /** Listings come sorted, and every manifest is filed under its own session. */
  ghost predicate WellFiled(v: View) {
    && (v.users.Some? ==> Ascending(v.users.value))
    && (forall u :: u in v.sessions ==> Ascending(v.sessions[u]))
    && (forall k :: k in v.manifests && v.manifests[k].Readable? ==> v.manifests[k].manifest.session == k.1)
  }

  lemma {:induction false} SessionRowsAscend(v: View, user: nat, listing: seq<nat>, n: nat)
    requires WellFiled(v) && Ascending(listing) && n <= |listing|
    ensures RowsAscend(SessionRows(v, user, listing, n))
    ensures forall row :: row in SessionRows(v, user, listing, n) ==>
      row.user == user && exists i :: 0 <= i < n && row.manifest.session == listing[i]
  {
    if n == 0 {
    } else {
      SessionRowsAscend(v, user, listing, n - 1);
    }
  }

  lemma AscendOn(a: seq<FlatRow>, b: seq<FlatRow>)
    requires RowsAscend(a) && RowsAscend(b)
    requires forall x, y :: x in a && y in b ==> RowBefore(x, y)
    ensures RowsAscend(a + b)
  {
  }

  /** All these rows are of earlier users. */
  ghost predicate OfUsers(rows: seq<FlatRow>, users: seq<nat>, n: nat)
    requires n <= |users|
  {
    forall row :: row in rows ==> exists i :: 0 <= i < n && row.user == users[i]
  }

  lemma {:induction false} UserRowsAscend(v: View, users: seq<nat>, n: nat)
    requires WellFiled(v) && Ascending(users) && n <= |users|
    ensures RowsAscend(UserRows(v, users, n)) && OfUsers(UserRows(v, users, n), users, n)
  {
    if n == 0 {
    } else {
      hide RowsAscend;
      UserRowsAscend(v, users, n - 1);
      var user := users[n - 1];
      if user in v.sessions {
        var more := SessionRows(v, user, v.sessions[user], |v.sessions[user]|);
        SessionRowsAscend(v, user, v.sessions[user], |v.sessions[user]|);
        AscendOn(UserRows(v, users, n - 1), more);
      } else {
        assert UserRows(v, users, n - 1) + [] == UserRows(v, users, n - 1);
      }
    }
  }

  /** A scan of sorted listings is itself sorted by user and session, so it repeats no session. */
  lemma ScanIsSorted(v: View)
    requires WellFiled(v) && v.users.Some?
    ensures RowsAscend(UserRows(v, v.users.value, |v.users.value|))
  {
    UserRowsAscend(v, v.users.value, |v.users.value|);
  }

  // ---------------------------------------------------------------- the listing

  function Matching(rows: seq<FlatRow>, keep: FlatRow -> bool, n: nat): seq<FlatRow>
    requires n <= |rows|
  {
    if n == 0 then []
    else Matching(rows, keep, n - 1) + (if keep(rows[n - 1]) then [rows[n - 1]] else [])
  }

  /** The rows last active at `t`, in order. */
  function At(rows: seq<FlatRow>, t: int): seq<FlatRow> {
    if rows == [] then []
    else At(rows[..|rows| - 1], t) + (if rows[|rows| - 1].manifest.lastActivity == t then [rows[|rows| - 1]] else [])
  }

  ghost predicate MostRecentFirst(rows: seq<FlatRow>) {
    forall i, j :: 0 <= i < j < |rows| ==> rows[i].manifest.lastActivity >= rows[j].manifest.lastActivity
  }

  /** Where a stable sort puts one more row: behind everything at least as recent. */
  function Place(rows: seq<FlatRow>, row: FlatRow): (k: nat)
    ensures k <= |rows|
    ensures k > 0 ==> rows[k - 1].manifest.lastActivity >= row.manifest.lastActivity
    ensures forall i :: k <= i < |rows| ==> rows[i].manifest.lastActivity < row.manifest.lastActivity
  {
    if rows == [] || rows[|rows| - 1].manifest.lastActivity >= row.manifest.lastActivity then |rows|
    else Place(rows[..|rows| - 1], row)
  }

  lemma {:induction false} AtConcat(a: seq<FlatRow>, b: seq<FlatRow>, t: int)
    ensures At(a + b, t) == At(a, t) + At(b, t)
  {
    if b == [] {
      assert a + b == a;
    } else {
      AtConcat(a, b[..|b| - 1], t);
      assert (a + b)[..|a + b| - 1] == a + b[..|b| - 1];
    }
  }

  lemma {:induction false} AtNone(rows: seq<FlatRow>, t: int)
    requires forall i :: 0 <= i < |rows| ==> rows[i].manifest.lastActivity != t
    ensures At(rows, t) == []
  {
    if rows == [] {
    } else {
      AtNone(rows[..|rows| - 1], t);
    }
  }

  function Placed(rows: seq<FlatRow>, row: FlatRow): seq<FlatRow> {
    rows[..Place(rows, row)] + [row] + rows[Place(rows, row)..]
  }

  lemma PlacedKeeps(rows: seq<FlatRow>, row: FlatRow)
    requires MostRecentFirst(rows)
    ensures MostRecentFirst(Placed(rows, row))
  {
  }

  lemma AtOne(row: FlatRow, t: int)
    ensures At([row], t) == if row.manifest.lastActivity == t then [row] else []
  {
  }

  lemma AtThree(a: seq<FlatRow>, row: FlatRow, b: seq<FlatRow>, t: int)
    ensures At(a + [row] + b, t) == At(a, t) + (if row.manifest.lastActivity == t then [row] else []) + At(b, t)
  {
    hide At;
    AtOne(row, t);
    AtConcat(a + [row], b, t);
    AtConcat(a, [row], t);
  }

  lemma NoneAfterPlace(rows: seq<FlatRow>, row: FlatRow)
    ensures At(rows[Place(rows, row)..], row.manifest.lastActivity) == []
  {
    var rest := rows[Place(rows, row)..];
    AtNone(rest, row.manifest.lastActivity);
  }

  lemma AtSplit(rows: seq<FlatRow>, k: nat, t: int)
    requires k <= |rows|
    ensures At(rows, t) == At(rows[..k], t) + At(rows[k..], t)
  {
    assert rows == rows[..k] + rows[k..];
    AtConcat(rows[..k], rows[k..], t);
  }

  lemma PlacedAt(rows: seq<FlatRow>, row: FlatRow, t: int)
    ensures At(Placed(rows, row), t) == At(rows, t) + (if row.manifest.lastActivity == t then [row] else [])
  {
    hide At, Place;
    var k := Place(rows, row);
    AtThree(rows[..k], row, rows[k..], t);
    AtSplit(rows, k, t);
    NoneAfterPlace(rows, row);
  }

  /** The listing: exactly the matching rows, most recent first, rows of the same moment in scan
      order. */
  ghost predicate IsListing(result: seq<FlatRow>, kept: seq<FlatRow>) {
    MostRecentFirst(result) && forall t :: At(result, t) == At(kept, t)
  }

  lemma ListingStep(result: seq<FlatRow>, kept: seq<FlatRow>, row: FlatRow)
    requires IsListing(result, kept)
    ensures IsListing(Placed(result, row), kept + [row])
  {
    hide At, Placed;
    PlacedKeeps(result, row);
    forall t ensures At(Placed(result, row), t) == At(kept + [row], t) {
      PlacedAt(result, row, t);
      AtConcat(kept, [row], t);
      AtOne(row, t);
    }
  }

  /** The matching rows are those to keep, each time they stand in the scan and in its order. */
  lemma {:induction false} MatchingExact(rows: seq<FlatRow>, keep: FlatRow -> bool, n: nat) returns (at: seq<nat>)
    requires n <= |rows|
    ensures |at| == |Matching(rows, keep, n)|
    ensures forall i :: 0 <= i < |at| ==> at[i] < n && Matching(rows, keep, n)[i] == rows[at[i]]
    ensures forall i, j :: 0 <= i < j < |at| ==> at[i] < at[j]
    ensures forall k :: k in at <==> 0 <= k < n && keep(rows[k])
  {
    if n == 0 {
      at := [];
    } else {
      at := MatchingExact(rows, keep, n - 1);
      if keep(rows[n - 1]) {
        at := at + [n - 1];
      }
    }
  }

  lemma MatchingMembers(rows: seq<FlatRow>, keep: FlatRow -> bool)
    ensures forall row :: row in Matching(rows, keep, |rows|) <==> row in rows && keep(row)
  {
    var at := MatchingExact(rows, keep, |rows|);
    forall row | row in rows && keep(row) ensures row in Matching(rows, keep, |rows|) {
      var k :| 0 <= k < |rows| && rows[k] == row;
      assert k in at;
    }
    forall row | row in Matching(rows, keep, |rows|) ensures row in rows && keep(row) {
      var i :| 0 <= i < |at| && Matching(rows, keep, |rows|)[i] == row;
      assert at[i] in at;
    }
  }

  method FilterAndSort(rows: seq<FlatRow>, keep: FlatRow -> bool) returns (result: seq<FlatRow>)
    ensures IsListing(result, Matching(rows, keep, |rows|))
    ensures forall row :: row in result <==> row in rows && keep(row)
    ensures forall i, j :: 0 <= i < j < |result| ==>
              result[i].manifest.lastActivity >= result[j].manifest.lastActivity
  {
    result := [];
    for i := 0 to |rows|
      invariant IsListing(result, Matching(rows, keep, i))
    {
      if keep(rows[i]) {
        ListingStep(result, Matching(rows, keep, i), rows[i]);
        result := Placed(result, rows[i]);
      } else {
        assert Matching(rows, keep, i) + [] == Matching(rows, keep, i);
      }
    }
    MatchingMembers(rows, keep);
    SameRows(result, Matching(rows, keep, |rows|));
  }

  lemma {:induction false} AtMembers(rows: seq<FlatRow>, row: FlatRow)
    ensures row in At(rows, row.manifest.lastActivity) <==> row in rows
  {
    if rows == [] {
    } else {
      AtMembers(rows[..|rows| - 1], row);
      assert rows == rows[..|rows| - 1] + [rows[|rows| - 1]];
    }
  }

  lemma LastAt(rows: seq<FlatRow>, u: int)
    requires rows != []
    ensures At(rows, u) ==
      At(rows[..|rows| - 1], u) + (if rows[|rows| - 1].manifest.lastActivity == u then [rows[|rows| - 1]] else [])
  {
  }

  lemma SameButLast(a: seq<FlatRow>, b: seq<FlatRow>, u: int)
    requires a != [] && b != [] && a[|a| - 1] == b[|b| - 1] && At(a, u) == At(b, u)
    ensures At(a[..|a| - 1], u) == At(b[..|b| - 1], u)
  {
    hide At;
    LastAt(a, u);
    LastAt(b, u);
    var p, q := At(a[..|a| - 1], u), At(b[..|b| - 1], u);
    assert p == At(a, u)[..|p|] && q == At(b, u)[..|q|];
  }

  /** There is only one listing of given rows. */
  lemma {:induction false} ListingUnique(a: seq<FlatRow>, b: seq<FlatRow>, kept: seq<FlatRow>)
    requires IsListing(a, kept) && IsListing(b, kept)
    ensures a == b
    decreases |a|
  {
    if a == [] || b == [] {
      SameRows(a, b);
    } else {
      SameLast(a, b);
      var a', b' := a[..|a| - 1], b[..|b| - 1];
      forall u ensures At(a', u) == At(b', u) {
        SameButLast(a, b, u);
      }
      ListingUnique(a', b', b');
      assert a == a' + [a[|a| - 1]] && b == b' + [b[|b| - 1]];
    }
  }

  lemma SameRows(a: seq<FlatRow>, b: seq<FlatRow>)
    requires forall t :: At(a, t) == At(b, t)
    ensures forall row :: row in a <==> row in b
    ensures a == [] <==> b == []
  {
    forall row ensures row in a <==> row in b {
      AtMembers(a, row);
      AtMembers(b, row);
    }
    assert a != [] ==> a[0] in a;
    assert b != [] ==> b[0] in b;
  }

  lemma LastIsLeast(rows: seq<FlatRow>, row: FlatRow)
    requires MostRecentFirst(rows) && row in rows
    ensures row.manifest.lastActivity >= rows[|rows| - 1].manifest.lastActivity
  {
  }

  lemma SameLastAt(a: seq<FlatRow>, b: seq<FlatRow>, t: int)
    requires a != [] && b != [] && At(a, t) == At(b, t)
    requires a[|a| - 1].manifest.lastActivity == t == b[|b| - 1].manifest.lastActivity
    ensures a[|a| - 1] == b[|b| - 1]
  {
  }

  lemma SameLast(a: seq<FlatRow>, b: seq<FlatRow>)
    requires a != [] && b != [] && MostRecentFirst(a) && MostRecentFirst(b)
    requires forall t :: At(a, t) == At(b, t)
    ensures a[|a| - 1] == b[|b| - 1]
  {
    hide At, MostRecentFirst;
    SameRows(a, b);
    var x, y := a[|a| - 1], b[|b| - 1];
    LastIsLeast(b, x);
    LastIsLeast(a, y);
    SameLastAt(a, b, x.manifest.lastActivity);
  }
}
