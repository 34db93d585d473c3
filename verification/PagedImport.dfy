/** Importing a Codex conversation: turns appended page by page under two caps, from a server
    that is not trusted to ever end the paging. */
module PagedImport {
  import opened Wrappers

  const MAX_BYTES: nat := 8 * 1024 * 1024
  const MAX_MESSAGES: nat := 50_000
  const MAX_CURSORS: nat := 2500

  datatype Role = User | Assistant

  /** A message and the length of its serialized content. */
  datatype Message = Message(role: Role, content: nat, size: nat)

  /** One turn: its items as messages, and the message that records its end. */
  datatype Turn = Turn(inProgress: bool, items: seq<Message>, completed: Message)

  datatype Failure = NotRoot | Active | InProgress | TooLarge | NoAnswer | EndlessCursor | Changed

  datatype History = History(messages: seq<Message>, bytes: nat)

  datatype Imported = Done(history: History) | Failed(error: Failure)

  const EMPTY := History([], 0)

  // ---------------------------------------------------------------- appending

  function Push(h: Imported, m: Message): Imported {
    match h
    case Failed(_) => h
    case Done(History(messages, bytes)) =>
      if bytes + m.size > MAX_BYTES || |messages| >= MAX_MESSAGES then Failed(TooLarge)
      else Done(History(messages + [m], bytes + m.size))
  }

  function PushAll(h: Imported, ms: seq<Message>, n: nat): Imported
    requires n <= |ms|
  {
    if n == 0 then h else Push(PushAll(h, ms, n - 1), ms[n - 1])
  }

  function AppendTurn(h: Imported, turn: Turn): Imported {
    if h.Failed? then h
    else if turn.inProgress then Failed(InProgress)
    else Push(PushAll(h, turn.items, |turn.items|), turn.completed)
  }

  function Append(h: Imported, turns: seq<Turn>, n: nat): Imported
    requires n <= |turns|
  {
    if n == 0 then h else AppendTurn(Append(h, turns, n - 1), turns[n - 1])
  }

  // ---------------------------------------------------------------- what appending amounts to

  function Flat(turns: seq<Turn>, n: nat): seq<Message>
    requires n <= |turns|
  {
    if n == 0 then [] else Flat(turns, n - 1) + turns[n - 1].items + [turns[n - 1].completed]
  }

  function Size(ms: seq<Message>): nat {
    if ms == [] then 0 else Size(ms[..|ms| - 1]) + ms[|ms| - 1].size
  }

  predicate WithinCaps(bytes: nat, count: nat) {
    bytes <= MAX_BYTES && count <= MAX_MESSAGES
  }

  ghost predicate Settled(turns: seq<Turn>, n: nat)
    requires n <= |turns|
  {
    forall i :: 0 <= i < n ==> !turns[i].inProgress
  }

  lemma {:induction false} SizeConcat(a: seq<Message>, b: seq<Message>)
    ensures Size(a + b) == Size(a) + Size(b)
  {
    if b == [] {
      assert a + b == a;
    } else {
      SizeConcat(a, b[..|b| - 1]);
      assert (a + b)[..|a + b| - 1] == a + b[..|b| - 1];
    }
  }

  /** What a history becomes when messages are added whole. */
  function Plus(h: History, ms: seq<Message>): History {
    History(h.messages + ms, h.bytes + Size(ms))
  }

  lemma PushOne(h: History, ms: seq<Message>, m: Message)
    requires WithinCaps(h.bytes, |h.messages|)
    ensures Plus(h, ms + [m]) == History(Plus(h, ms).messages + [m], Plus(h, ms).bytes + m.size)
  {
  }

  lemma {:induction false} PushAllExact(h: History, ms: seq<Message>, n: nat)
    requires WithinCaps(h.bytes, |h.messages|) && n <= |ms|
    ensures
      var p := Plus(h, ms[..n]);
      PushAll(Done(h), ms, n) == if WithinCaps(p.bytes, |p.messages|) then Done(p) else Failed(TooLarge)
  {
    if n == 0 {
      assert h.messages + [] == h.messages;
    } else {
      PushAllExact(h, ms, n - 1);
      PushOne(h, ms[..n - 1], ms[n - 1]);
      assert ms[..n] == ms[..n - 1] + [ms[n - 1]];
    }
  }

  lemma TurnExact(h: History, turn: Turn)
    requires WithinCaps(h.bytes, |h.messages|) && !turn.inProgress
    ensures
      var p := Plus(h, turn.items + [turn.completed]);
      AppendTurn(Done(h), turn) == if WithinCaps(p.bytes, |p.messages|) then Done(p) else Failed(TooLarge)
  {
    PushAllExact(h, turn.items, |turn.items|);
    assert turn.items[..|turn.items|] == turn.items;
    PushOne(h, turn.items, turn.completed);
  }

  lemma PlusPlus(h: History, a: seq<Message>, b: seq<Message>)
    ensures Plus(Plus(h, a), b) == Plus(h, a + b)
  {
    hide Size;
    SizeConcat(a, b);
    assert h.messages + a + b == h.messages + (a + b);
  }

  lemma FlatMore(h: History, turns: seq<Turn>, n: nat)
    requires n < |turns|
    ensures Plus(h, Flat(turns, n + 1)) == Plus(Plus(h, Flat(turns, n)), turns[n].items + [turns[n].completed])
  {
    PlusPlus(h, Flat(turns, n), turns[n].items + [turns[n].completed]);
    assert Flat(turns, n + 1) == Flat(turns, n) + (turns[n].items + [turns[n].completed]);
  }

  /** The result of appending: all of it, if no turn is still running and both caps hold. */
  ghost predicate Exact(r: Imported, settled: bool, p: History) {
    && (r.Done? <==> settled && WithinCaps(p.bytes, |p.messages|))
    && (r.Done? ==> r == Done(p))
  }

  lemma TurnKeepsExact(r: Imported, settled: bool, p: History, turn: Turn)
    requires Exact(r, settled, p)
    ensures Exact(AppendTurn(r, turn), settled && !turn.inProgress, Plus(p, turn.items + [turn.completed]))
  {
    if r.Done? && !turn.inProgress {
      TurnExact(p, turn);
    }
  }

  /** Appending succeeds exactly when no turn is still running and both caps hold of the total,
      and then nothing is dropped, altered or reordered. */
  lemma {:induction false} AppendExact(h: History, turns: seq<Turn>, n: nat)
    requires WithinCaps(h.bytes, |h.messages|) && n <= |turns|
    ensures Exact(Append(Done(h), turns, n), Settled(turns, n), Plus(h, Flat(turns, n)))
  {
    hide Exact, Flat, AppendTurn, Plus, Size, WithinCaps;
    if n == 0 {
      AppendNone(h, turns);
    } else {
      AppendExact(h, turns, n - 1);
      TurnKeepsExact(Append(Done(h), turns, n - 1), Settled(turns, n - 1), Plus(h, Flat(turns, n - 1)), turns[n - 1]);
      FlatMore(h, turns, n - 1);
    }
  }

  lemma AppendNone(h: History, turns: seq<Turn>)
    requires WithinCaps(h.bytes, |h.messages|)
    ensures Exact(Append(Done(h), turns, 0), Settled(turns, 0), Plus(h, Flat(turns, 0)))
  {
  }

  lemma {:induction false} AppendErr(turns: seq<Turn>, n: nat, e: Failure)
    requires n <= |turns|
    ensures Append(Failed(e), turns, n) == Failed(e)
  {
    if n == 0 {
    } else {
      AppendErr(turns, n - 1, e);
    }
  }

  /** Appending in two goes is appending all at once, failures included. */
  lemma {:induction false} AppendTwice(h: Imported, a: seq<Turn>, b: seq<Turn>, n: nat)
    requires n <= |b|
    ensures Append(h, a + b, |a| + n) == Append(Append(h, a, |a|), b, n)
  {
    if n == 0 {
      AppendPrefix(h, a, a + b, |a|);
    } else {
      AppendTwice(h, a, b, n - 1);
    }
  }

  lemma {:induction false} AppendPrefix(h: Imported, a: seq<Turn>, b: seq<Turn>, n: nat)
    requires n <= |a| && a <= b
    ensures Append(h, b, n) == Append(h, a, n)
  {
    if n == 0 {
    } else {
      AppendPrefix(h, a, b, n - 1);
    }
  }

  // ---------------------------------------------------------------- pages

  datatype Page = Page(turns: seq<Turn>, next: Option<nat>)

  /** The answer to each page request in turn, if there is one; a server may answer anything. */
  type Server = nat -> Option<Page>

  /** All turns of the first `n` pages. */
  function Whole(server: Server, n: nat): seq<Turn> {
    if n == 0 then []
    else Whole(server, n - 1) + (if server(n - 1).Some? then server(n - 1).value.turns else [])
  }

  /** The first `n` pages all lead on, each with a new cursor. */
  ghost predicate LeadsOn(server: Server, n: nat) {
    && (forall k :: 0 <= k < n ==> server(k).Some? && server(k).value.next.Some?)
    && (forall j, k :: 0 <= j < k < n ==> server(j).value.next != server(k).value.next)
  }

  /** The conversation is over after page `n`. */
  ghost predicate EndsAt(server: Server, n: nat) {
    n > 0 && LeadsOn(server, n - 1) && server(n - 1).Some? && server(n - 1).value.next.None?
  }

  function Import(turns: seq<Turn>): Imported {
    Append(Done(EMPTY), turns, |turns|)
  }

  lemma ImportMore(a: seq<Turn>, b: seq<Turn>)
    ensures Import(a + b) == Append(Import(a), b, |b|)
  {
    hide Append;
    AppendTwice(Done(EMPTY), a, b, |b|);
    assert |a + b| == |a| + |b|;
  }

  /** A failure met on the way is the failure of the whole. */
  lemma {:induction false} FailureSticks(server: Server, k: nat, n: nat)
    requires k <= n && Import(Whole(server, k)).Failed?
    ensures Import(Whole(server, n)) == Import(Whole(server, k))
    decreases n
  {
    if k == n {
    } else {
      FailureSticks(server, k, n - 1);
      var more := if server(n - 1).Some? then server(n - 1).value.turns else [];
      ImportMore(Whole(server, n - 1), more);
      AppendErr(more, |more|, Import(Whole(server, k)).error);
    }
  }

  lemma EndsLater(server: Server, k: nat, n: nat)
    requires LeadsOn(server, k) && EndsAt(server, n)
    ensures k < n
  {
  }

  /** What the loop has when it asks for page `k`: every page so far led on, `seen` holds their
      cursors, and the history is that of all their turns. */
  ghost predicate Paging(server: Server, k: nat, seen: set<nat>, history: History) {
    && LeadsOn(server, k) && |seen| == k && Seen(server, k, seen)
    && Import(Whole(server, k)) == Done(history)
  }

  lemma {:induction false} PushFailureSticks(h: Imported, ms: seq<Message>, i: nat, n: nat)
    requires i <= n <= |ms| && PushAll(h, ms, i).Failed?
    ensures PushAll(h, ms, n) == PushAll(h, ms, i)
    decreases n
  {
    if i == n {
    } else {
      PushFailureSticks(h, ms, i, n - 1);
    }
  }

  lemma {:induction false} AppendFailureSticks(h: Imported, turns: seq<Turn>, i: nat, n: nat)
    requires i <= n <= |turns| && Append(h, turns, i).Failed?
    ensures Append(h, turns, n) == Append(h, turns, i)
    decreases n
  {
    if i == n {
    } else {
      AppendFailureSticks(h, turns, i, n - 1);
    }
  }

  lemma StartPaging(server: Server)
    ensures Paging(server, 0, {}, EMPTY)
  {
  }

  lemma NextPage(server: Server, k: nat)
    requires server(k).Some?
    ensures
      var turns := server(k).value.turns;
      Import(Whole(server, k + 1)) == Append(Import(Whole(server, k)), turns, |turns|)
  {
    ImportMore(Whole(server, k), server(k).value.turns);
  }

  lemma NoAnswerNoEnd(server: Server, k: nat, n: nat)
    requires LeadsOn(server, k) && server(k).None?
    ensures !EndsAt(server, n)
  {
  }

  lemma FailsForAll(server: Server, k: nat, n: nat)
    requires LeadsOn(server, k) && Import(Whole(server, k + 1)).Failed? && EndsAt(server, n)
    ensures Import(Whole(server, n)) == Import(Whole(server, k + 1))
  {
    EndsLater(server, k, n);
    FailureSticks(server, k + 1, n);
  }

  lemma EndsOnce(server: Server, k: nat, n: nat)
    requires EndsAt(server, k) && EndsAt(server, n)
    ensures n == k
  {
  }

  /** `seen` holds the cursors of the first `k` pages. */
  ghost predicate Seen(server: Server, k: nat, seen: set<nat>)
    requires LeadsOn(server, k)
  {
    forall c :: c in seen <==> exists j :: 0 <= j < k && server(j).value.next == Some(c)
  }

  /** A page that leads on with a cursor not seen before. */
  lemma LeadOn(server: Server, k: nat, seen: set<nat>, history: History, c: nat, more: History)
    requires Paging(server, k, seen, history)
    requires server(k).Some? && server(k).value.next == Some(c) && c !in seen
    requires Import(Whole(server, k + 1)) == Done(more)
    ensures Paging(server, k + 1, seen + {c}, more)
  {
  }

  /** A cursor seen before: the conversation has no end. */
  lemma RepeatNeverEnds(server: Server, k: nat, seen: set<nat>, history: History, n: nat)
    requires Paging(server, k, seen, history) && EndsAt(server, n)
    requires server(k).Some? && server(k).value.next.Some?
    ensures server(k).value.next.value !in seen && k + 1 < n
  {
  }

  // ---------------------------------------------------------------- the importer

  datatype Thread = Thread(ephemeral: bool, hasParent: bool, active: bool, paginated: bool, updatedAt: int)

  /** What the Codex server has to offer: the thread, its history page by page or whole, and its
      time of change when read again afterwards. */
  datatype Client = Client(thread: Option<Thread>, pages: Server, full: Option<seq<Turn>>, after: Option<int>)

  predicate Admissible(thread: Option<Thread>) {
    thread.Some? && !thread.value.ephemeral && !thread.value.hasParent && !thread.value.active
  }

  /** These are the turns of the conversation, as far as the server gives them out. */
  ghost predicate Offered(client: Client, turns: seq<Turn>) {
    client.thread.Some? &&
    if client.thread.value.paginated then
      exists n :: 0 <= n <= MAX_CURSORS + 1 && EndsAt(client.pages, n) && turns == Whole(client.pages, n)
    else client.full == Some(turns)
  }

  class Importer {
    var messages: seq<Message>
    var bytes: nat

    ghost function Now(): History
      reads this
    {
      History(messages, bytes)
    }

    constructor ()
      ensures Now() == EMPTY
    {
      messages, bytes := [], 0;
    }

    method PushMessage(m: Message) returns (ok: bool)
      modifies this
      ensures ok <==> old(bytes) + m.size <= 8 * 1024 * 1024 && |old(messages)| < 50_000
      ensures ok ==> messages == old(messages) + [m] && bytes == old(bytes) + m.size
      ensures ok <==> Push(Done(old(Now())), m).Done?
      ensures ok ==> Push(Done(old(Now())), m) == Done(Now())
    {
      bytes := bytes + m.size;
      if bytes > MAX_BYTES || |messages| >= MAX_MESSAGES {
        return false;
      }
      messages := messages + [m];
      return true;
    }

    /** The turn's items, then the message of its end. */
    method PushTurn(turn: Turn) returns (ok: bool)
      requires !turn.inProgress
      modifies this
      ensures AppendTurn(Done(old(Now())), turn) == if ok then Done(Now()) else Failed(TooLarge)
    {
      for i := 0 to |turn.items|
        invariant PushAll(Done(old(Now())), turn.items, i) == Done(Now())
      {
        var pushed := PushMessage(turn.items[i]);
        if !pushed {
          PushFailureSticks(Done(old(Now())), turn.items, i + 1, |turn.items|);
          return false;
        }
      }
      ok := PushMessage(turn.completed);
    }

    method AppendTurns(turns: seq<Turn>) returns (failure: Option<Failure>)
      modifies this
      ensures Append(Done(old(Now())), turns, |turns|) ==
        if failure.None? then Done(Now()) else Failed(failure.value)
    {
      for i := 0 to |turns|
        invariant Append(Done(old(Now())), turns, i) == Done(Now())
      {
        if turns[i].inProgress {
          AppendFailureSticks(Done(old(Now())), turns, i + 1, |turns|);
          return Some(InProgress);
        }
        var ok := PushTurn(turns[i]);
        if !ok {
          AppendFailureSticks(Done(old(Now())), turns, i + 1, |turns|);
          return Some(TooLarge);
        }
      }
      return None;
    }

    /** The paging loop. Whatever the server answers, it asks for at most 2501 pages; and if the
        conversation ends by then, what comes out, success or failure, is what importing all its
        turns at once gives. */
    method ImportPages(server: Server) returns (failure: Option<Failure>, asked: nat)
      requires Now() == EMPTY
      modifies this
      ensures asked <= MAX_CURSORS + 1
      ensures failure.None? ==> EndsAt(server, asked)
      ensures forall n: nat :: n <= MAX_CURSORS + 1 && EndsAt(server, n) ==>
        Import(Whole(server, n)) == if failure.None? then Done(Now()) else Failed(failure.value)
    {
      hide Append, Whole;
      var seen: set<nat> := {};
      asked := 0;
      StartPaging(server);
      while true
        invariant asked <= MAX_CURSORS && Paging(server, asked, seen, Now())
        decreases MAX_CURSORS - asked
      {
        var page := server(asked);
        ghost var k, before := asked, Now();
        asked := asked + 1;
        if page.None? {
          forall n: nat ensures !EndsAt(server, n) {
            NoAnswerNoEnd(server, k, n);
          }
          return Some(NoAnswer), asked;
        }
        failure := AppendTurns(page.value.turns);
        NextPage(server, k);
        if failure.Some? {
          forall n: nat | EndsAt(server, n) ensures Import(Whole(server, n)) == Failed(failure.value) {
            FailsForAll(server, k, n);
          }
          return;
        }
        if page.value.next.None? {
          forall n: nat | EndsAt(server, n) ensures n == asked {
            EndsOnce(server, asked, n);
          }
          return None, asked;
        }
        forall n: nat | EndsAt(server, n) ensures page.value.next.value !in seen && asked < n {
          RepeatNeverEnds(server, k, seen, before, n);
        }
        var c := page.value.next.value;
        var repeated := c in seen;
        ghost var had := seen;
        seen := seen + {c};
        if repeated || |seen| > MAX_CURSORS {
          return Some(EndlessCursor), asked;
        }
        LeadOn(server, k, had, before, c, Now());
      }
    }

    /** The whole preparation. */
    method Prepare(client: Client, includeHistory: bool) returns (r: Imported)
      requires Now() == EMPTY
      modifies this
      ensures r.Done? ==> Admissible(client.thread)
      ensures client.thread.None? ==> r == Failed(NoAnswer)
      ensures client.thread.Some? ==>
        var thread := client.thread.value;
        && (thread.ephemeral || thread.hasParent ==> r == Failed(NotRoot))
        && (!thread.ephemeral && !thread.hasParent && thread.active ==> r == Failed(Active))
      ensures includeHistory && Admissible(client.thread) ==>
        forall turns :: Offered(client, turns) ==>
          && (Import(turns).Failed? ==> r == Import(turns))
          && (Import(turns).Done? && client.after.Some? && client.after != Some(client.thread.value.updatedAt) ==>
                r == Failed(Changed))
      ensures !includeHistory && Admissible(client.thread) ==> r == Done(EMPTY)
      ensures includeHistory && r.Done? ==>
        client.after == Some(client.thread.value.updatedAt) &&
        exists turns :: Offered(client, turns) && r == Import(turns)
      ensures includeHistory && Admissible(client.thread) ==>
        forall turns :: Offered(client, turns) ==>
          (r.Done? <==> Import(turns).Done? && client.after == Some(client.thread.value.updatedAt))
    {
      hide Append, Whole;
      if client.thread.None? {
        return Failed(NoAnswer);
      }
      var thread := client.thread.value;
      if thread.ephemeral || thread.hasParent {
        return Failed(NotRoot);
      }
      if thread.active {
        return Failed(Active);
      }
      if !includeHistory {
        return Done(EMPTY);
      }
      var failure: Option<Failure>;
      if thread.paginated {
        var asked;
        failure, asked := ImportPages(client.pages);
        assert failure.None? ==> Offered(client, Whole(client.pages, asked));
      } else if client.full.None? {
        return Failed(NoAnswer);
      } else {
        failure := AppendTurns(client.full.value);
        assert Offered(client, client.full.value);
      }
      if failure.Some? {
        return Failed(failure.value);
      }
      if client.after != Some(thread.updatedAt) {
        return Failed(if client.after.None? then NoAnswer else Changed);
      }
      return Done(History(messages, bytes));
    }
  }

  // ---------------------------------------------------------------- told of turns and pages themselves

  lemma FlatOfOne(turn: Turn)
    ensures Flat([turn], 1) == turn.items + [turn.completed]
  {
    assert Flat([turn], 0) == [];
  }

  /** The messages of turns, one after the other: each turn's items, and then the message of its end. */
  lemma {:induction false} FlatJoins(a: seq<Turn>, b: seq<Turn>, n: nat)
    requires n <= |b|
    ensures Flat(a + b, |a| + n) == Flat(a, |a|) + Flat(b, n)
  {
    if n == 0 {
      FlatPrefix(a, b, |a|);
    } else {
      FlatJoins(a, b, n - 1);
    }
  }

  lemma {:induction false} FlatPrefix(a: seq<Turn>, b: seq<Turn>, n: nat)
    requires n <= |a|
    ensures Flat(a + b, n) == Flat(a, n)
  {
    if n == 0 {
    } else {
      FlatPrefix(a, b, n - 1);
    }
  }

  lemma SizeOfOne(m: Message)
    ensures Size([m]) == m.size
  {
    assert [m][..0] == [];
  }

  /** A failure is that of the first turn that could not be taken: still running, or too large. */
  lemma {:induction false} FailsAtFirst(turns: seq<Turn>, n: nat) returns (k: nat)
    requires n <= |turns| && Append(Done(EMPTY), turns, n).Failed?
    ensures k < n && Append(Done(EMPTY), turns, k).Done?
    ensures Append(Done(EMPTY), turns, n) == Failed(if turns[k].inProgress then InProgress else TooLarge)
  {
    if Append(Done(EMPTY), turns, n - 1).Failed? {
      k := FailsAtFirst(turns, n - 1);
    } else {
      k := n - 1;
      var before := Append(Done(EMPTY), turns, k);
      AppendExact(EMPTY, turns, k);
      if !turns[k].inProgress {
        TurnExact(before.history, turns[k]);
      }
    }
  }

  /** Every page's turns stand behind those of the pages before it, whole and in order. */
  lemma {:induction false} PageStands(server: Server, k: nat, n: nat)
    requires k < n && server(k).Some?
    ensures Whole(server, k) + server(k).value.turns <= Whole(server, n)
    ensures k + 1 == n ==> Whole(server, k) + server(k).value.turns == Whole(server, n)
    ensures Whole(server, 0) == []
    decreases n
  {
    if k + 1 < n {
      PageStands(server, k, n - 1);
    }
  }

  /** What an import is: all of the offered turns' messages, in order, or nothing. */
  lemma ImportExact(turns: seq<Turn>)
    ensures Import(turns).Done? <==>
      && (forall i :: 0 <= i < |turns| ==> !turns[i].inProgress)
      && Size(Flat(turns, |turns|)) <= 8 * 1024 * 1024 && |Flat(turns, |turns|)| <= 50_000
    ensures Import(turns).Done? ==>
      Import(turns).history == History(Flat(turns, |turns|), Size(Flat(turns, |turns|)))
  {
    hide Append, Flat, Size;
    AppendExact(EMPTY, turns, |turns|);
    assert EMPTY.messages + Flat(turns, |turns|) == Flat(turns, |turns|);
  }
}
