/** The transcript merge of the session archive: a right-biased union by message id,
    listed in (created_at, id) order. */
module Transcripts {

  /** One message row, in the hot table or in an archived transcript. The id is the
      128-bit value of the row's UUID, because the listing compares ids. */
  datatype Line = Line(id: nat, role: string, createdAt: int, agentType: string, content: string)

  predicate Before(a: Line, b: Line) {
    a.createdAt < b.createdAt || (a.createdAt == b.createdAt && a.id < b.id)
  }

  ghost predicate Ordered(s: seq<Line>) {
    forall i, j :: 0 <= i < j < |s| ==> Before(s[i], s[j])
  }

  ghost predicate DistinctIds(s: seq<Line>) {
    forall i, j :: 0 <= i < j < |s| ==> s[i].id != s[j].id
  }

  /** What every archived transcript looks like. */
  ghost predicate IsTranscript(s: seq<Line>) {
    Ordered(s) && DistinctIds(s)
  }

  /** The last of the first n lines carrying each id. */
  function Index(s: seq<Line>, n: nat): map<nat, Line>
    requires n <= |s|
  {
    if n == 0 then map[] else Index(s, n - 1)[s[n - 1].id := s[n - 1]]
  }

  function ById(s: seq<Line>): map<nat, Line> {
    Index(s, |s|)
  }

  ghost predicate Keyed(m: map<nat, Line>) {
    forall k :: k in m ==> m[k].id == k
  }

  // ---------------------------------------------------------------- the index

  lemma {:induction false} IndexSound(s: seq<Line>, n: nat)
    requires n <= |s|
    ensures Keyed(Index(s, n))
    ensures forall k :: k in Index(s, n) ==> Index(s, n)[k] in s[..n]
    ensures forall i :: 0 <= i < n ==> s[i].id in Index(s, n)
  {
    if n == 0 {
    } else {
      IndexSound(s, n - 1);
      assert s[..n] == s[..n - 1] + [s[n - 1]];
    }
  }

  lemma {:induction false} IndexDistinct(s: seq<Line>, n: nat)
    requires n <= |s| && DistinctIds(s)
    ensures forall i :: 0 <= i < n ==> s[i].id in Index(s, n) && Index(s, n)[s[i].id] == s[i]
  {
    if n == 0 {
    } else {
      IndexDistinct(s, n - 1);
      assert forall i :: 0 <= i < n - 1 ==> s[i].id != s[n - 1].id;
    }
  }

  /** Of several lines with one id it is the last that counts. */
  lemma {:induction false} LastOfEachId(s: seq<Line>, n: nat, k: nat) returns (j: nat)
    requires n <= |s| && k in Index(s, n)
    ensures j < n && s[j].id == k && Index(s, n)[k] == s[j]
    ensures forall m :: j < m < n ==> s[m].id != k
  {
    if s[n - 1].id == k {
      j := n - 1;
    } else {
      j := LastOfEachId(s, n - 1, k);
    }
  }

  lemma NotIndexedYet(s: seq<Line>, n: nat)
    requires n < |s| && DistinctIds(s)
    ensures s[n].id !in Index(s, n)
  {
    IndexSound(s, n);
  }

  lemma {:induction false} IndexSize(s: seq<Line>, n: nat)
    requires n <= |s| && DistinctIds(s)
    ensures |Index(s, n).Keys| == n
  {
    if n == 0 {
    } else {
      IndexSize(s, n - 1);
      NotIndexedYet(s, n - 1);
      assert Index(s, n).Keys == Index(s, n - 1).Keys + {s[n - 1].id};
    }
  }

  /** A transcript and its index hold the same lines. */
  lemma Members(s: seq<Line>)
    requires DistinctIds(s)
    ensures Keyed(ById(s))
    ensures forall l :: l in s <==> l.id in ById(s) && ById(s)[l.id] == l
  {
    IndexSound(s, |s|);
    IndexDistinct(s, |s|);
    assert s[..|s|] == s;
  }

  lemma SameIndex(s: seq<Line>, m: map<nat, Line>)
    requires DistinctIds(s) && Keyed(m)
    requires forall l :: l in s <==> l.id in m && m[l.id] == l
    ensures ById(s) == m
  {
    Members(s);
    forall k ensures k in m <==> k in ById(s) {
      if k in m { assert m[k] in s; }
      if k in ById(s) { assert ById(s)[k] in s; }
    }
    forall k | k in m ensures m[k] == ById(s)[k] {
      assert m[k] in s;
    }
  }

  // ---------------------------------------------------------------- sorted insertion

  /** Number of leading lines that come before x. */
  function Slot(s: seq<Line>, x: Line): (k: nat)
    ensures k <= |s|
    ensures forall i :: 0 <= i < k ==> Before(s[i], x)
    ensures k < |s| ==> !Before(s[k], x)
  {
    if s == [] || !Before(s[0], x) then 0 else 1 + Slot(s[1..], x)
  }

  /** Where a sort puts x among the lines already sorted. */
  function Insert(s: seq<Line>, x: Line): seq<Line> {
    s[..Slot(s, x)] + [x] + s[Slot(s, x)..]
  }

  lemma Inserted(s: seq<Line>, k: nat, x: Line)
    requires IsTranscript(s) && k <= |s|
    requires forall i :: 0 <= i < |s| ==> s[i].id != x.id
    requires forall i :: 0 <= i < k ==> Before(s[i], x)
    requires forall i :: k <= i < |s| ==> Before(x, s[i])
    ensures IsTranscript(s[..k] + [x] + s[k..])
  {
  }

  lemma InsertKeepsTranscript(s: seq<Line>, x: Line)
    requires IsTranscript(s) && x.id !in ById(s)
    ensures IsTranscript(Insert(s, x))
    ensures ById(Insert(s, x)) == ById(s)[x.id := x]
  {
    Members(s);
    var k := Slot(s, x);
    forall i | 0 <= i < |s| ensures s[i].id != x.id && (k <= i ==> Before(x, s[i])) {
      assert s[i] in s;
      if k < i { assert Before(s[k], s[i]) && s[k] in s; }
    }
    Inserted(s, k, x);
    InsertedMembers(s, k, x);
    SameIndex(Insert(s, x), ById(s)[x.id := x]);
  }

  lemma InsertedMembers(s: seq<Line>, k: nat, x: Line)
    requires k <= |s|
    ensures forall l :: l in s[..k] + [x] + s[k..] <==> l in s || l == x
  {
  }

  // ---------------------------------------------------------------- uniqueness

  lemma {:induction false} OrderedUnique(s: seq<Line>, t: seq<Line>)
    requires Ordered(s) && Ordered(t)
    requires forall l :: l in s <==> l in t
    ensures s == t
    decreases |s|
  {
    assert t == [] || t[0] in t;
    assert s == [] || s[0] in s;
    if s != [] && t != [] {
      var a, b := s[|s| - 1], t[|t| - 1];
      assert a in t && b in s;
      assert a == b;
      ButLast(s);
      ButLast(t);
      var p, q := s[..|s| - 1], t[..|t| - 1];
      forall l ensures l in p <==> l in q {
        assert l in s <==> l in t;
      }
      OrderedUnique(p, q);
      assert s == p + [a] && t == q + [b];
    }
  }

  lemma ButLast(s: seq<Line>)
    requires Ordered(s) && s != []
    ensures Ordered(s[..|s| - 1])
    ensures forall l :: l in s[..|s| - 1] <==> l in s && l != s[|s| - 1]
  {
  }

  lemma TranscriptsUnique(s: seq<Line>, t: seq<Line>)
    requires IsTranscript(s) && IsTranscript(t) && ById(s) == ById(t)
    ensures s == t
  {
    Members(s);
    Members(t);
    OrderedUnique(s, t);
  }

  // ---------------------------------------------------------------- merge

  lemma {:induction false} TranscriptExists(m: map<nat, Line>) returns (s: seq<Line>)
    requires Keyed(m)
    ensures IsTranscript(s) && ById(s) == m
    decreases |m.Keys|
  {
    if m == map[] {
      s := [];
    } else {
      var k :| k in m;
      var rest := m - {k};
      assert rest.Keys == m.Keys - {k};
      s := TranscriptExists(rest);
      InsertKeepsTranscript(s, m[k]);
      assert rest[k := m[k]] == m;
      s := Insert(s, m[k]);
    }
  }

  /** The transcript of the right-biased union by id. */
  ghost function Merge(existing: seq<Line>, current: seq<Line>): (r: seq<Line>)
    ensures IsTranscript(r) && ById(r) == ById(existing) + ById(current)
  {
    IndexSound(existing, |existing|);
    IndexSound(current, |current|);
    var m := ById(existing) + ById(current);
    assert exists s :: IsTranscript(s) && ById(s) == m by {
      var s := TranscriptExists(m);
    }
    var s :| IsTranscript(s) && ById(s) == m;
    s
  }

  /** Two insertion loops into a map, then the map's values put in order. The values
      leave the map in an arbitrary order, so no map iteration order is relied on. */
  method MergeTranscriptLines(existing: seq<Line>, current: seq<Line>) returns (merged: seq<Line>)
    ensures merged == Merge(existing, current)
  {
    var byId: map<nat, Line> := map[];
    for i := 0 to |existing|
      invariant byId == Index(existing, i)
    {
      byId := byId[existing[i].id := existing[i]];
    }
    for i := 0 to |current|
      invariant byId == ById(existing) + Index(current, i)
    {
      byId := byId[current[i].id := current[i]];
    }
    IndexSound(existing, |existing|);
    IndexSound(current, |current|);
    merged := ListValues(byId);
    TranscriptsUnique(merged, Merge(existing, current));
  }

  method ListValues(union: map<nat, Line>) returns (merged: seq<Line>)
    requires Keyed(union)
    ensures IsTranscript(merged) && ById(merged) == union
  {
    var byId := union;
    merged := [];
    while byId != map[]
      invariant Draining(merged, byId, union)
      decreases |byId.Keys|
    {
      var id :| id in byId;
      DrainOne(merged, byId, union, id);
      merged, byId := Insert(merged, byId[id]), byId - {id};
    }
  }

  ghost predicate Draining(merged: seq<Line>, byId: map<nat, Line>, union: map<nat, Line>) {
    Keyed(byId) && IsTranscript(merged) && ById(merged).Keys !! byId.Keys && ById(merged) + byId == union
  }

  lemma DrainOne(merged: seq<Line>, byId: map<nat, Line>, union: map<nat, Line>, id: nat)
    requires Draining(merged, byId, union) && id in byId
    ensures Draining(Insert(merged, byId[id]), byId - {id}, union)
    ensures |(byId - {id}).Keys| < |byId.Keys|
  {
    InsertKeepsTranscript(merged, byId[id]);
    assert (byId - {id}).Keys == byId.Keys - {id};
    assert ById(merged)[id := byId[id]] + (byId - {id}) == ById(merged) + byId;
  }

  lemma MergeAssociative(a: seq<Line>, b: seq<Line>, c: seq<Line>)
    ensures Merge(Merge(a, b), c) == Merge(a, Merge(b, c))
  {
    var l, r := Merge(Merge(a, b), c), Merge(a, Merge(b, c));
    UnionAssociative(ById(a), ById(b), ById(c));
    TranscriptsUnique(l, r);
  }

  lemma UnionAssociative(a: map<nat, Line>, b: map<nat, Line>, c: map<nat, Line>)
    ensures (a + b) + c == a + (b + c)
  {
  }

  lemma MergeAbsorbs(e: seq<Line>, c: seq<Line>)
    ensures Merge(Merge(e, c), c) == Merge(e, c)
  {
    assert (ById(e) + ById(c)) + ById(c) == ById(e) + ById(c);
    TranscriptsUnique(Merge(Merge(e, c), c), Merge(e, c));
  }

  /** Merging is idempotent, and keeps a lone argument as it is, exactly on transcripts. */
  lemma MergeIdempotentOnTranscripts(t: seq<Line>)
    ensures Merge(t, t) == t <==> IsTranscript(t)
    ensures Merge(t, []) == t <==> IsTranscript(t)
    ensures Merge([], t) == t <==> IsTranscript(t)
  {
    if IsTranscript(t) {
      TranscriptsUnique(Merge(t, t), t);
      TranscriptsUnique(Merge(t, []), t);
      TranscriptsUnique(Merge([], t), t);
    }
  }

  /** Only the lines by id matter: repeats and the order of either input do not. */
  lemma MergeIgnoresOrder(e: seq<Line>, e': seq<Line>, c: seq<Line>, c': seq<Line>)
    requires ById(e) == ById(e') && ById(c) == ById(c')
    ensures Merge(e, c) == Merge(e', c')
  {
  }

  /** A re-archive never shrinks: one line for each id of either input, the current row on a
      collision and the archived line, unchanged, everywhere else. */
  lemma MergeNeverShrinks(e: seq<Line>, c: seq<Line>)
    ensures |Merge(e, c)| == |ById(e).Keys + ById(c).Keys| >= |ById(e).Keys|
    ensures forall l :: l in Merge(e, c) <==>
                        (l.id in ById(c) && ById(c)[l.id] == l)
                        || (l.id !in ById(c) && l.id in ById(e) && ById(e)[l.id] == l)
  {
    var r := Merge(e, c);
    Members(r);
    IndexSize(r, |r|);
    assert ById(r).Keys == ById(e).Keys + ById(c).Keys;
    SubsetSize(ById(e).Keys, ById(r).Keys);
  }

  /** Oldest first, and by id within one moment. */
  lemma MergeIsChronological(e: seq<Line>, c: seq<Line>, i: nat, j: nat)
    requires i < j < |Merge(e, c)|
    ensures
      var a, b := Merge(e, c)[i], Merge(e, c)[j];
      a.createdAt < b.createdAt || (a.createdAt == b.createdAt && a.id < b.id)
  {
  }

  lemma SubsetSize<T>(a: set<T>, b: set<T>)
    requires a <= b
    ensures |a| <= |b|
  {
    assert b == a + (b - a);
  }

  // ---------------------------------------------------------------- message counts

  function Count(lines: seq<Line>, n: nat, role: string): nat
    requires n <= |lines|
  {
    if n == 0 then 0 else Count(lines, n - 1, role) + if lines[n - 1].role == role then 1 else 0
  }

  ghost function Pick(h: map<string, nat>): string
    requires h != map[]
    ensures Pick(h) in h
  {
    var k :| k in h; k
  }

  /** Sum of a histogram's values: the message count shown for an archived session. */
  ghost function Sum(h: map<string, nat>): nat
    decreases |h.Keys|
  {
    if h == map[] then 0
    else
      assert (h - {Pick(h)}).Keys == h.Keys - {Pick(h)};
      h[Pick(h)] + Sum(h - {Pick(h)})
  }

  lemma {:induction false} SumAnyOrder(h: map<string, nat>, k: string)
    requires k in h
    ensures Sum(h) == h[k] + Sum(h - {k})
    decreases |h.Keys|
  {
    var p := Pick(h);
    assert (h - {p}).Keys == h.Keys - {p} && (h - {k}).Keys == h.Keys - {k};
    if p != k {
      SumAnyOrder(h - {p}, k);
      SumAnyOrder(h - {k}, p);
      assert h - {p} - {k} == h - {k} - {p};
    }
  }

  lemma SumBump(h: map<string, nat>, k: string, v: nat)
    ensures Sum(h[k := v]) == Sum(h - {k}) + v
  {
    SumAnyOrder(h[k := v], k);
    assert h[k := v] - {k} == h - {k};
  }

  function Histogram(lines: seq<Line>, n: nat): map<string, nat>
    requires n <= |lines|
  {
    if n == 0 then map[]
    else
      var h := Histogram(lines, n - 1);
      var role := lines[n - 1].role;
      h[role := 1 + if role in h then h[role] else 0]
  }

  function RoleCounts(lines: seq<Line>): map<string, nat> {
    Histogram(lines, |lines|)
  }

  method CountByRole(lines: seq<Line>) returns (counts: map<string, nat>)
    ensures counts == RoleCounts(lines)
  {
    counts := map[];
    for i := 0 to |lines|
      invariant counts == Histogram(lines, i)
    {
      var role := lines[i].role;
      var n := if role in counts then counts[role] else 0;
      counts := counts[role := n + 1];
    }
  }

  lemma {:induction false} HistogramSum(lines: seq<Line>, n: nat)
    requires n <= |lines|
    ensures Sum(Histogram(lines, n)) == n
  {
    if n == 0 {
    } else {
      HistogramSum(lines, n - 1);
      var h, role := Histogram(lines, n - 1), lines[n - 1].role;
      SumBump(h, role, 1 + if role in h then h[role] else 0);
      if role in h {
        SumAnyOrder(h, role);
      } else {
        assert h - {role} == h;
      }
    }
  }

  /** The count is the number of places where the role stands. */
  lemma {:induction false} CountsPlaces(lines: seq<Line>, n: nat, role: string)
    requires n <= |lines|
    ensures Count(lines, n, role) == |set i | 0 <= i < n && lines[i].role == role|
  {
    var places := set i | 0 <= i < n && lines[i].role == role;
    if n == 0 {
    } else {
      CountsPlaces(lines, n - 1, role);
      var before := set i | 0 <= i < n - 1 && lines[i].role == role;
      if lines[n - 1].role == role {
        assert places == before + {n - 1};
      } else {
        assert places == before;
      }
    }
  }

  /** The manifest's per-role message counts: exact for every role, and together one for
      each line, so the count shown for an archived session is its transcript's length. */
  lemma {:induction false} RoleCountsExact(lines: seq<Line>, n: nat)
    requires n <= |lines|
    ensures forall r :: (if r in Histogram(lines, n) then Histogram(lines, n)[r] else 0) == Count(lines, n, r)
    ensures Sum(Histogram(lines, n)) == n
  {
    hide Sum;
    HistogramSum(lines, n);
    if n == 0 {
    } else {
      RoleCountsExact(lines, n - 1);
    }
  }
}
