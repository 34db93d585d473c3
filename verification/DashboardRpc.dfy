/** The dashboard's request broker: correlated one-shot replies over a socket that comes, goes
    and changes accounts, with every await of every caller an opening for anything else. */
module DashboardRpc {
  import opened Wrappers
  import opened OldestFirst

  const MAX_PENDING: nat := 32
  const GENERATIONS: nat := 0x1_0000_0000_0000_0000

  /** How a call ended; `Dropped` is a caller that stopped waiting. */
  datatype Reply = Answer(payload: nat) | Error(status: nat) | Dropped

  /** One call of `request`, by where it is suspended. `under` is the account it was made under. */
  datatype Phase =
    | Waiting(under: Option<nat>)
    | Signalled(under: Option<nat>)
    | InFlight(under: Option<nat>, id: nat)
    | Done(reply: Reply)

  /** A frame put on a connection's channel. */
  datatype Frame = Frame(conn: nat, id: nat, call: nat, madeUnder: Option<nat>, sentUnder: Option<nat>)

  /** The broker, the calls in progress by number, and everything ever sent. */
  datatype State = State(
    account: Option<nat>,
    generation: nat,
    sender: Option<nat>,
    pending: map<nat, nat>,
    ready: seq<nat>,
    calls: map<nat, Phase>,
    sent: seq<Frame>)

  /** `open` says whether the connection still accepts frames. Ids are fresh UUIDs. */
  datatype Event =
    | BindAccount(to: Option<nat>)
    | Connect(conn: nat)
    | Disconnect(generation: nat)
    | Resolve(id: nat, payload: nat)
    | Request(call: nat, id: nat, open: bool)
    | Resume(call: nat, id: nat, open: bool)
    | ReadyTimeout(call: nat)
    | ReplyTimeout(call: nat)
    | Abandon(call: nat)

  // ---------------------------------------------------------------- calls

  function Finish(calls: map<nat, Phase>, which: set<nat>, reply: Reply): map<nat, Phase> {
    map c | c in calls :: if c in which then Done(reply) else calls[c]
  }

  function Waiters(calls: map<nat, Phase>, ready: seq<nat>): set<nat> {
    set c | c in ready && c in calls && calls[c].Waiting?
  }

  function Signal(calls: map<nat, Phase>, which: set<nat>): map<nat, Phase> {
    map c | c in calls :: if c in which && calls[c].Waiting? then Signalled(calls[c].under) else calls[c]
  }

  /** Drops the waiters whose call has gone away. */
  function Live(calls: map<nat, Phase>, ready: seq<nat>): seq<nat> {
    if ready == [] then []
    else if ready[0] in calls && calls[ready[0]].Waiting? then [ready[0]] + Live(calls, ready[1..])
    else Live(calls, ready[1..])
  }

  /** The second half of a call: register and send, or fail. */
  function Send(s: State, call: nat, under: Option<nat>, id: nat, open: bool): State {
    if |s.pending| >= MAX_PENDING then s.(calls := s.calls[call := Done(Error(429))])
    else if s.sender.None? || !open then s.(calls := s.calls[call := Done(Error(503))])
    else
      s.(pending := s.pending[id := call],
         calls := s.calls[call := InFlight(under, id)],
         sent := s.sent + [Frame(s.sender.value, id, call, under, s.account)])
  }

  predicate FreshId(s: State, id: nat) {
    forall i :: 0 <= i < |s.sent| ==> s.sent[i].id != id
  }

  predicate Enabled(s: State, e: Event) {
    match e
    case Request(c, id, _) => c !in s.calls && FreshId(s, id)
    case Resume(c, id, _) => c in s.calls && s.calls[c].Signalled? && FreshId(s, id)
    case ReadyTimeout(c) => c in s.calls && s.calls[c].Waiting?
    case ReplyTimeout(c) => c in s.calls && s.calls[c].InFlight?
    case Abandon(c) => c in s.calls && !s.calls[c].Done?
    case _ => true
  }

  function Next(s: State, e: Event): State
    requires Enabled(s, e)
  {
    match e
    case BindAccount(to) =>
      if s.account == to then s
      else
        s.(account := to, generation := (s.generation + 1) % GENERATIONS, sender := None, ready := [], pending := map[],
           calls := Finish(Finish(s.calls, Waiters(s.calls, s.ready), Error(503)), s.pending.Values, Error(401)))
    case Connect(conn) =>
      s.(generation := (s.generation + 1) % GENERATIONS, sender := Some(conn), ready := [],
         calls := Signal(s.calls, set c | c in s.ready))
    case Disconnect(g) =>
      if s.generation != g then s
      else s.(sender := None, pending := map[], calls := Finish(s.calls, s.pending.Values, Error(503)))
    case Resolve(id, payload) =>
      if id !in s.pending then s
      else s.(pending := s.pending - {id}, calls := Finish(s.calls, {s.pending[id]}, Answer(payload)))
    case Request(c, id, open) =>
      if s.sender.Some? then Send(s, c, s.account, id, open)
      else
        var live := Live(s.calls, s.ready);
        if |live| < MAX_PENDING then s.(ready := live + [c], calls := s.calls[c := Waiting(s.account)])
        else s.(ready := live, calls := s.calls[c := Done(Error(503))])
    case Resume(c, id, open) => Send(s, c, s.calls[c].under, id, open)
    case ReadyTimeout(c) => s.(calls := s.calls[c := Done(Error(503))])
    case ReplyTimeout(c) => s.(pending := s.pending - {s.calls[c].id}, calls := s.calls[c := Done(Error(504))])
    case Abandon(c) =>
      s.(pending := if s.calls[c].InFlight? then s.pending - {s.calls[c].id} else s.pending,
         calls := s.calls[c := Done(Dropped)])
  }

  const START := State(None, 0, None, map[], [], map[], [])

  ghost predicate IsRun(trace: seq<State>, events: seq<Event>) {
    && |trace| == |events| + 1 && trace[0] == START
    && (forall i :: 0 <= i < |events| ==> Enabled(trace[i], events[i]) && trace[i + 1] == Next(trace[i], events[i]))
  }

  // ---------------------------------------------------------------- invariant

  /** Pending entries and in-flight calls are the same thing, one to one, all sent under the
      present account; nothing is pending without a connection. */
  ghost predicate PendingOk(s: State) {
    && |s.pending| <= MAX_PENDING
    && (s.sender.None? ==> s.pending == map[])
    && (forall id :: id in s.pending ==>
          s.pending[id] in s.calls && s.calls[s.pending[id]].InFlight? && s.calls[s.pending[id]].id == id)
    && (forall c :: c in s.calls && s.calls[c].InFlight? ==>
          s.calls[c].id in s.pending && s.pending[s.calls[c].id] == c)
  }

  /** Whoever waits is in the bounded ready list, once. */
  ghost predicate ReadyOk(s: State) {
    && |s.ready| <= MAX_PENDING
    && (forall i, j :: 0 <= i < j < |s.ready| ==> s.ready[i] != s.ready[j])
    && (forall c :: c in s.ready ==> c in s.calls)
    && (forall c :: c in s.calls && s.calls[c].Waiting? ==> c in s.ready && s.sender.None?)
  }

  /** An entry for `id` was put on the channel for that call, under the given account. */
  ghost predicate WasSent(sent: seq<Frame>, id: nat, call: nat, under: Option<nat>) {
    exists i :: 0 <= i < |sent| && sent[i].id == id && sent[i].call == call && sent[i].sentUnder == under
  }

  predicate Unsent(p: Phase) {
    p.Waiting? || p.Signalled?
  }

  /** No id and no call is ever sent twice, and a call not yet sent has sent nothing. */
  ghost predicate SentOk(s: State) {
    && (forall i, j :: 0 <= i < j < |s.sent| ==> s.sent[i].id != s.sent[j].id && s.sent[i].call != s.sent[j].call)
    && (forall i :: 0 <= i < |s.sent| ==> s.sent[i].call in s.calls && !Unsent(s.calls[s.sent[i].call]))
    && (forall id :: id in s.pending ==> WasSent(s.sent, id, s.pending[id], s.account))
  }

  ghost predicate Inv(s: State) {
    PendingOk(s) && ReadyOk(s) && SentOk(s)
  }

  /** A call only ever moves forward, and a finished call keeps its one reply. */
  predicate Forward(p: Phase, q: Phase) {
    match p
    case Waiting(u) => q == p || q == Signalled(u) || q.Done?
    case Signalled(u) => q == p || (q.InFlight? && q.under == u) || q.Done?
    case InFlight(_, _) => q == p || q.Done?
    case Done(_) => q == p
  }

  lemma LiveKeeps(calls: map<nat, Phase>, ready: seq<nat>)
    ensures |Live(calls, ready)| <= |ready|
    ensures forall c :: c in Live(calls, ready) <==> c in ready && c in calls && calls[c].Waiting?
  {
  }

  lemma {:induction false} LiveDistinct(calls: map<nat, Phase>, ready: seq<nat>)
    requires forall i, j :: 0 <= i < j < |ready| ==> ready[i] != ready[j]
    ensures forall i, j :: 0 <= i < j < |Live(calls, ready)| ==> Live(calls, ready)[i] != Live(calls, ready)[j]
  {
    if ready == [] {
    } else {
      LiveDistinct(calls, ready[1..]);
      LiveKeeps(calls, ready[1..]);
      assert ready[0] !in ready[1..];
    }
  }

  lemma StepGoesForward(s: State, e: Event, c: nat)
    requires Inv(s) && Enabled(s, e) && c in s.calls
    ensures c in Next(s, e).calls && Forward(s.calls[c], Next(s, e).calls[c])
  {
  }

  // ---------------------------------------------------------------- every step keeps the invariant

  /** The call has not been sent: it is new, or it is still waiting or signalled. */
  predicate NotYetSent(s: State, call: nat) {
    call !in s.calls || Unsent(s.calls[call])
  }

  lemma SendKeepsPending(s: State, call: nat, under: Option<nat>, id: nat, open: bool)
    requires Inv(s) && FreshId(s, id) && NotYetSent(s, call)
    ensures PendingOk(Send(s, call, under, id, open))
  {
  }

  lemma SendKeepsSent(s: State, call: nat, under: Option<nat>, id: nat, open: bool)
    requires Inv(s) && FreshId(s, id) && NotYetSent(s, call)
    ensures SentOk(Send(s, call, under, id, open))
  {
    var t := Send(s, call, under, id, open);
    SendKeepsDistinct(s, call, under, id, open);
    hide FreshId, PendingOk, ReadyOk;
    forall other | other in t.pending ensures WasSent(t.sent, other, t.pending[other], t.account) {
      if other in s.pending && t.pending[other] == s.pending[other] {
        StaysSent(s.sent, t.sent, other, s.pending[other], s.account);
      } else {
        assert t.sent[|s.sent|].id == other;
      }
    }
  }

  lemma SendKeepsDistinct(s: State, call: nat, under: Option<nat>, id: nat, open: bool)
    requires SentOk(s) && FreshId(s, id) && NotYetSent(s, call)
    ensures
      var t := Send(s, call, under, id, open);
      && (forall i, j :: 0 <= i < j < |t.sent| ==> t.sent[i].id != t.sent[j].id && t.sent[i].call != t.sent[j].call)
      && (forall i :: 0 <= i < |t.sent| ==> t.sent[i].call in t.calls && !Unsent(t.calls[t.sent[i].call]))
  {
  }

  lemma StaysSent(sent: seq<Frame>, more: seq<Frame>, id: nat, call: nat, under: Option<nat>)
    requires sent <= more && WasSent(sent, id, call, under)
    ensures WasSent(more, id, call, under)
  {
  }

  predicate Sends(s: State, e: Event) {
    e.Resume? || (e.Request? && s.sender.Some?)
  }

  lemma WaitKeeps(s: State, e: Event)
    requires Inv(s) && Enabled(s, e) && e.Request? && s.sender.None?
    ensures PendingOk(Next(s, e)) && SentOk(Next(s, e))
  {
  }

  lemma RequestKeeps(s: State, e: Event)
    requires Inv(s) && Enabled(s, e) && (e.Request? || e.Resume?)
    ensures PendingOk(Next(s, e)) && SentOk(Next(s, e))
  {
    hide PendingOk, SentOk, Send, FreshId, Live;
    if Sends(s, e) {
      var under := if e.Request? then s.account else s.calls[e.call].under;
      SendKeepsPending(s, e.call, under, e.id, e.open);
      SendKeepsSent(s, e.call, under, e.id, e.open);
    } else {
      WaitKeeps(s, e);
    }
  }

  predicate EndsOneCall(e: Event) {
    e.Resolve? || e.ReplyTimeout? || e.Abandon?
  }

  lemma EndOneKeepsPending(s: State, c: nat, reply: Reply)
    requires PendingOk(s) && c in s.calls && s.calls[c].InFlight?
    ensures PendingOk(s.(pending := s.pending - {s.calls[c].id}, calls := s.calls[c := Done(reply)]))
  {
  }

  lemma EndKeepsPending(s: State, e: Event)
    requires Inv(s) && Enabled(s, e) && EndsOneCall(e)
    ensures PendingOk(Next(s, e))
  {
    match e
    case Resolve(id, payload) =>
      if id in s.pending {
        var c := s.pending[id];
        EndOneKeepsPending(s, c, Answer(payload));
        assert Finish(s.calls, {c}, Answer(payload)) == s.calls[c := Done(Answer(payload))];
      }
    case ReplyTimeout(c) => EndOneKeepsPending(s, c, Error(504));
    case Abandon(c) =>
      if s.calls[c].InFlight? {
        EndOneKeepsPending(s, c, Dropped);
      } else {
        UnsentEndKeepsPending(s, c);
      }
  }

  lemma UnsentEndKeepsPending(s: State, c: nat)
    requires PendingOk(s) && c in s.calls && !s.calls[c].InFlight?
    ensures PendingOk(s.(calls := s.calls[c := Done(Dropped)]))
  {
  }

  lemma SwitchKeepsPending(s: State, e: Event)
    requires Inv(s) && Enabled(s, e) && !EndsOneCall(e) && !e.Request? && !e.Resume?
    ensures PendingOk(Next(s, e))
  {
  }

  lemma ReadyKept(s: State, e: Event)
    requires Inv(s) && Enabled(s, e)
    ensures ReadyOk(Next(s, e))
  {
    hide PendingOk, SentOk, FreshId;
    if e.Request? {
      RequestKeepsReady(s, e);
    }
  }

  lemma RequestKeepsReady(s: State, e: Event)
    requires ReadyOk(s) && e.Request? && Enabled(s, e)
    ensures ReadyOk(Next(s, e))
  {
    hide FreshId, Live;
    LiveKeeps(s.calls, s.ready);
    LiveDistinct(s.calls, s.ready);
  }

  /** Pending entries go and sent calls stay sent: nothing else matters to what was sent. */
  ghost predicate Drops(s: State, t: State) {
    && t.sent == s.sent && t.pending.Keys <= s.pending.Keys
    && (forall id :: id in t.pending ==> t.pending[id] == s.pending[id] && t.account == s.account)
    && (forall c :: c in s.calls && !Unsent(s.calls[c]) ==> c in t.calls && !Unsent(t.calls[c]))
  }

  lemma DroppingKeepsSent(s: State, t: State)
    requires SentOk(s) && Drops(s, t)
    ensures SentOk(t)
  {
  }

  lemma StepDrops(s: State, e: Event)
    requires Enabled(s, e) && !e.Request? && !e.Resume?
    ensures Drops(s, Next(s, e))
  {
  }

  lemma DropKeepsSent(s: State, e: Event)
    requires Inv(s) && Enabled(s, e) && !e.Request? && !e.Resume?
    ensures SentOk(Next(s, e)) && Next(s, e).sent == s.sent
  {
    hide SentOk, PendingOk, ReadyOk, Next;
    StepDrops(s, e);
    DroppingKeepsSent(s, Next(s, e));
  }

  lemma StepKeepsInv(s: State, e: Event)
    requires Inv(s) && Enabled(s, e)
    ensures Inv(Next(s, e))
  {
    hide PendingOk, ReadyOk, SentOk, Next;
    ReadyKept(s, e);
    if e.Request? || e.Resume? {
      RequestKeeps(s, e);
    } else if EndsOneCall(e) {
      EndKeepsPending(s, e);
      DropKeepsSent(s, e);
    } else {
      SwitchKeepsPending(s, e);
      DropKeepsSent(s, e);
    }
  }

  lemma {:induction false} RunInv(trace: seq<State>, events: seq<Event>, i: nat)
    requires IsRun(trace, events) && i <= |events|
    ensures Inv(trace[i])
  {
    if i == 0 {
    } else {
      RunInv(trace, events, i - 1);
      StepKeepsInv(trace[i - 1], events[i - 1]);
    }
  }

  // ---------------------------------------------------------------- what a whole run promises

  /** Each request is sent at most once, whatever connections come and go: the requests sent
      so far are a prefix of those sent later, and no id and no call occurs in them twice. */
  lemma {:induction false} NeverReplayed(trace: seq<State>, events: seq<Event>, i: nat, j: nat)
    requires IsRun(trace, events) && i <= j <= |events|
    ensures trace[i].sent <= trace[j].sent
    ensures forall x, y :: 0 <= x < y < |trace[j].sent| ==>
      trace[j].sent[x].id != trace[j].sent[y].id && trace[j].sent[x].call != trace[j].sent[y].call
    ensures |trace[j].pending| <= MAX_PENDING && |trace[j].ready| <= MAX_PENDING
    decreases j - i
  {
    RunInv(trace, events, j);
    if i == j {
    } else {
      NeverReplayed(trace, events, i, j - 1);
    }
  }

  /** A call is answered at most once: its first reply is its only one. */
  lemma {:induction false} OneReplyEach(trace: seq<State>, events: seq<Event>, i: nat, j: nat, c: nat)
    requires IsRun(trace, events) && i <= j <= |events|
    requires c in trace[i].calls && trace[i].calls[c].Done?
    ensures c in trace[j].calls && trace[j].calls[c] == trace[i].calls[c]
    decreases j - i
  {
    if i == j {
    } else {
      OneReplyEach(trace, events, i, j - 1, c);
      RunInv(trace, events, j - 1);
      StepGoesForward(trace[j - 1], events[j - 1], c);
    }
  }

  // ---------------------------------------------------------------- the broker as one caller sees it

  /** The calls that wait for a reply, and those that wait for a connection. */
  function InFlightCalls(s: State): set<nat> {
    set c | c in s.calls && s.calls[c].InFlight?
  }

  function WaitingCalls(s: State): set<nat> {
    set c | c in s.calls && s.calls[c].Waiting?
  }

  /** What becomes of a call that goes on to send its request. */
  function Sending(s: State, under: Option<nat>, id: nat, open: bool): Phase {
    if |InFlightCalls(s)| >= 32 then Done(Error(429))
    else if s.sender.None? || !open then Done(Error(503))
    else InFlight(under, id)
  }

  /** What an event makes of one call, told without the broker's tables: who waits for a reply gets the
      reply to its own id, loses it to an account switch (401), to the end of the connection (503) or to
      its timeout (504); who waits for a connection gets the next one, or loses it to an account switch
      or its timeout (503). */
  function CallAfter(s: State, e: Event, c: nat): Option<Phase> {
    if c !in s.calls then
      if e.Request? && e.call == c then
        Some(if s.sender.Some? then Sending(s, s.account, e.id, e.open)
             else if |WaitingCalls(s)| < 32 then Waiting(s.account)
             else Done(Error(503)))
      else None
    else if e == Abandon(c) && !s.calls[c].Done? then Some(Done(Dropped))
    else
      var switched := e.BindAccount? && e.to != s.account;
      Some(match s.calls[c]
           case Waiting(under) =>
             if e.Connect? then Signalled(under)
             else if switched || e == ReadyTimeout(c) then Done(Error(503))
             else s.calls[c]
           case Signalled(under) =>
             if e.Resume? && e.call == c then Sending(s, under, e.id, e.open) else s.calls[c]
           case InFlight(_, id) =>
             if e.Resolve? && e.id == id then Done(Answer(e.payload))
             else if switched then Done(Error(401))
             else if e == Disconnect(s.generation) then Done(Error(503))
             else if e == ReplyTimeout(c) then Done(Error(504))
             else s.calls[c]
           case Done(_) => s.calls[c])
  }

  lemma {:induction false} InjectiveSize(m: map<nat, nat>)
    requires forall i, j :: i in m && j in m && i != j ==> m[i] != m[j]
    ensures |m.Values| == |m.Keys|
    decreases |m.Keys|
  {
    if m == map[] {
    } else {
      var k :| k in m;
      var rest := m - {k};
      assert rest.Keys == m.Keys - {k} && m[k] !in rest.Values;
      assert m.Values == rest.Values + {m[k]} by {
        forall v | v in m.Values ensures v in rest.Values + {m[k]} {
          var i :| i in m && m[i] == v;
          assert i != k ==> rest[i] == v;
        }
      }
      InjectiveSize(rest);
    }
  }

  /** The two tables are as large as the sets of calls they stand for. */
  lemma TableSizes(s: State)
    requires Inv(s)
    ensures |s.pending| == |InFlightCalls(s)| && |Live(s.calls, s.ready)| == |WaitingCalls(s)|
  {
    hide SentOk;
    InjectiveSize(s.pending);
    assert s.pending.Values == InFlightCalls(s);
    assert |s.pending| == |s.pending.Keys|;
    LiveKeeps(s.calls, s.ready);
    LiveDistinct(s.calls, s.ready);
    DistinctSize(Live(s.calls, s.ready));
    assert SetOf(Live(s.calls, s.ready)) == WaitingCalls(s);
  }

  /** So it is, for every call and at every step. */
  lemma EachCall(s: State, e: Event, c: nat)
    requires Inv(s) && Enabled(s, e)
    ensures (if c in Next(s, e).calls then Some(Next(s, e).calls[c]) else None) == CallAfter(s, e, c)
  {
    if e.Request? || e.Resume? {
      CallSends(s, e, c);
    } else {
      CallChanges(s, e, c);
    }
  }

  lemma CallSends(s: State, e: Event, c: nat)
    requires Inv(s) && Enabled(s, e) && (e.Request? || e.Resume?)
    ensures (if c in Next(s, e).calls then Some(Next(s, e).calls[c]) else None) == CallAfter(s, e, c)
  {
    TableSizes(s);
    hide Inv, FreshId, InFlightCalls, WaitingCalls, Live;
  }

  lemma CallChanges(s: State, e: Event, c: nat)
    requires Inv(s) && Enabled(s, e) && !e.Request? && !e.Resume?
    ensures (if c in Next(s, e).calls then Some(Next(s, e).calls[c]) else None) == CallAfter(s, e, c)
  {
    hide SentOk, Sending;
  }

  /** This step gives the call this reply. */
  ghost predicate Ends(s: State, e: Event, c: nat, reply: Reply) {
    var sends := (e.Request? && c !in s.calls && e.call == c && s.sender.Some?)
                 || (e.Resume? && c in s.calls && s.calls[c].Signalled? && e.call == c);
    var inFlight := c in s.calls && s.calls[c].InFlight?;
    var waits := c in s.calls && s.calls[c].Waiting?;
    var switched := e.BindAccount? && e.to != s.account;
    match reply
    case Answer(payload) => inFlight && e == Resolve(s.calls[c].id, payload)
    case Dropped => e == Abandon(c)
    case Error(status) =>
      || (status == 429 && sends && |InFlightCalls(s)| >= 32)
      || (status == 401 && inFlight && switched)
      || (status == 504 && inFlight && e == ReplyTimeout(c))
      || (status == 503 &&
          (|| (sends && |InFlightCalls(s)| < 32 && (s.sender.None? || !e.open))
           || (e.Request? && c !in s.calls && e.call == c && s.sender.None? && |WaitingCalls(s)| >= 32)
           || (waits && (switched || e == ReadyTimeout(c)))
           || (inFlight && e == Disconnect(s.generation))))
  }

  lemma StepEnds(s: State, e: Event, c: nat, reply: Reply)
    requires Inv(s) && Enabled(s, e) && !(c in s.calls && s.calls[c].Done?)
    ensures c in Next(s, e).calls && Next(s, e).calls[c] == Done(reply) <==> Ends(s, e, c, reply)
  {
    hide Inv, Next, Ends, CallAfter, Enabled;
    EachCall(s, e, c);
    EndsAfter(s, e, c, reply);
  }

  lemma EndsAfter(s: State, e: Event, c: nat, reply: Reply)
    requires Enabled(s, e) && !(c in s.calls && s.calls[c].Done?)
    ensures CallAfter(s, e, c) == Some(Done(reply)) <==> Ends(s, e, c, reply)
  {
    hide FreshId, InFlightCalls, WaitingCalls;
  }

  /** In every run, a call has a reply exactly if some earlier step, while it had none, gave it that one:
      an answer is the payload of a reply to the id it was sent under, and each error and each drop has
      its own event and condition. */
  lemma {:induction false} EndsExactly(trace: seq<State>, events: seq<Event>, n: nat, c: nat, reply: Reply)
    requires IsRun(trace, events) && n <= |events|
    ensures
      c in trace[n].calls && trace[n].calls[c] == Done(reply) <==>
      exists k :: 0 <= k < n && !(c in trace[k].calls && trace[k].calls[c].Done?)
        && Ends(trace[k], events[k], c, reply)
  {
    hide Next, Enabled, Inv, Ends;
    if n == 0 {
    } else {
      EndsExactly(trace, events, n - 1, c, reply);
      RunInv(trace, events, n - 1);
      if c in trace[n - 1].calls && trace[n - 1].calls[c].Done? {
        StepGoesForward(trace[n - 1], events[n - 1], c);
      } else {
        StepEnds(trace[n - 1], events[n - 1], c, reply);
        NotDoneBefore(trace, events, n - 1, c, reply);
      }
    }
  }

  /** A call without a reply has had none. */
  lemma NotDoneBefore(trace: seq<State>, events: seq<Event>, n: nat, c: nat, reply: Reply)
    requires IsRun(trace, events) && n <= |events| && !(c in trace[n].calls && trace[n].calls[c].Done?)
    ensures forall k :: 0 <= k < n && !(c in trace[k].calls && trace[k].calls[c].Done?) ==>
              !Ends(trace[k], events[k], c, reply)
  {
    hide Next, Enabled, Inv, Ends;
    forall k | 0 <= k < n && !(c in trace[k].calls && trace[k].calls[c].Done?)
      ensures !Ends(trace[k], events[k], c, reply)
    {
      RunInv(trace, events, k);
      StepEnds(trace[k], events[k], c, reply);
      if c in trace[k + 1].calls && trace[k + 1].calls[c].Done? {
        OneReplyEach(trace, events, k + 1, n, c);
      }
    }
  }

  /** The id in an answer's reply is the one that this very call was sent under. */
  lemma AnsweredUnderItsId(trace: seq<State>, events: seq<Event>, n: nat, c: nat, payload: nat)
    returns (k: nat, id: nat)
    requires IsRun(trace, events) && n <= |events|
    requires c in trace[n].calls && trace[n].calls[c] == Done(Answer(payload))
    ensures k < n && events[k] == Resolve(id, payload)
    ensures exists i :: 0 <= i < |trace[k].sent| && trace[k].sent[i].id == id && trace[k].sent[i].call == c
  {
    hide Next, Enabled;
    EndsExactly(trace, events, n, c, Answer(payload));
    k :| 0 <= k < n && !(c in trace[k].calls && trace[k].calls[c].Done?)
         && Ends(trace[k], events[k], c, Answer(payload));
    RunInv(trace, events, k);
    id := trace[k].calls[c].id;
    assert id in trace[k].pending && WasSent(trace[k].sent, id, c, trace[k].account);
  }

  predicate MovesGeneration(s: State, e: Event) {
    e.Connect? || (e.BindAccount? && e.to != s.account)
  }

  /** How often the generation moved between two points of a run. */
  ghost function Bumps(trace: seq<State>, events: seq<Event>, i: nat, j: nat): nat
    requires i <= j <= |events| < |trace|
    decreases j - i
  {
    if i == j then 0
    else Bumps(trace, events, i, j - 1) + (if MovesGeneration(trace[j - 1], events[j - 1]) then 1 else 0)
  }

  function Plus(g: nat, n: nat): (r: nat)
    ensures r < GENERATIONS
  {
    (g + n) % GENERATIONS
  }

  lemma PlusOne(g: nat, n: nat)
    ensures Plus(Plus(g, n), 1) == Plus(g, n + 1)
  {
  }

  lemma PlusTurns(g: nat, n: nat)
    requires g < GENERATIONS
    ensures Plus(g, 0) == g
    ensures Plus(g, n) == g <==> n % GENERATIONS == 0
  {
  }

  lemma GenerationStep(s: State, e: Event)
    requires Enabled(s, e)
    ensures Next(s, e).generation == if MovesGeneration(s, e) then Plus(s.generation, 1) else s.generation
  {
  }

  lemma {:induction false} GenerationBounded(trace: seq<State>, events: seq<Event>, i: nat)
    requires IsRun(trace, events) && i <= |events|
    ensures trace[i].generation < GENERATIONS
  {
    hide Next, Enabled, Plus;
    if i == 0 {
    } else {
      GenerationBounded(trace, events, i - 1);
      GenerationStep(trace[i - 1], events[i - 1]);
    }
  }

  lemma {:induction false} GenerationCounts(trace: seq<State>, events: seq<Event>, i: nat, j: nat)
    requires IsRun(trace, events) && i <= j <= |events|
    ensures trace[j].generation == Plus(trace[i].generation, Bumps(trace, events, i, j))
    decreases j - i
  {
    hide Next, Enabled, Plus;
    if i == j {
      GenerationBounded(trace, events, i);
      PlusTurns(trace[i].generation, 0);
    } else {
      GenerationCounts(trace, events, i, j - 1);
      GenerationStep(trace[j - 1], events[j - 1]);
      PlusOne(trace[i].generation, Bumps(trace, events, i, j - 1));
    }
  }

  /** The connection is down and every pending request was answered 503; nothing else moved. */
  ghost predicate TookDown(s: State, t: State) {
    && t == s.(sender := None, pending := map[], calls := t.calls)
    && t.calls.Keys == s.calls.Keys
    && forall c :: c in s.calls ==>
         t.calls[c] == (if s.calls[c].InFlight? then Done(Error(503)) else s.calls[c])
  }

  lemma CurrentDisconnectTakesDown(s: State)
    requires Inv(s)
    ensures TookDown(s, Next(s, Disconnect(s.generation)))
  {
  }

  /** A disconnect carrying the generation of an earlier moment changes nothing exactly when the
      generation has moved since, by anything but full turns of the 64-bit counter; otherwise
      it takes down the connection of the moment. */
  lemma StaleDisconnectIsIgnored(trace: seq<State>, events: seq<Event>, i: nat, j: nat)
    requires IsRun(trace, events) && i <= j <= |events|
    ensures
      var t := Next(trace[j], Disconnect(trace[i].generation));
      && (Bumps(trace, events, i, j) % GENERATIONS != 0 ==> t == trace[j])
      && (Bumps(trace, events, i, j) % GENERATIONS == 0 ==> TookDown(trace[j], t))
  {
    hide Plus, TookDown, Inv;
    GenerationBounded(trace, events, i);
    GenerationCounts(trace, events, i, j);
    RunInv(trace, events, j);
    PlusTurns(trace[i].generation, Bumps(trace, events, i, j));
    CurrentDisconnectTakesDown(trace[j]);
  }

  // ---------------------------------------------------------------- changing accounts

  /** After a switch nothing of the old account is connected, pending or waiting: every
      unfinished call is one whose `ready` signal had already fired. */
  lemma SwitchClears(s: State, to: Option<nat>)
    requires Inv(s) && to != s.account
    ensures
      var t := Next(s, BindAccount(to));
      && t.sender.None? && t.pending == map[] && t.ready == [] && t.account == to && t.sent == s.sent
      && forall c :: c in s.calls ==>
           t.calls[c] == match s.calls[c]
             case Waiting(_) => Done(Error(503))
             case InFlight(_, _) => Done(Error(401))
             case _ => s.calls[c]
  {
  }

  /** While the account is `under`, every unfinished call belongs to it. */
  ghost predicate OwnCalls(s: State) {
    && (forall c :: c in s.calls && !s.calls[c].Done? ==> s.calls[c].under == s.account)
    && (forall i :: 0 <= i < |s.sent| ==> s.sent[i].madeUnder == s.sent[i].sentUnder)
  }

  predicate SwitchesWhileSignalled(s: State, e: Event) {
    e.BindAccount? && e.to != s.account && exists c :: c in s.calls && s.calls[c].Signalled?
  }

  lemma CalmStepKeepsOwn(s: State, e: Event)
    requires Inv(s) && OwnCalls(s) && Enabled(s, e) && !SwitchesWhileSignalled(s, e)
    ensures OwnCalls(Next(s, e))
  {
  }

  /** Unless an account switch lands while a call sits between its `ready` signal and its
      resumption, every request is sent under the account it was made under. */
  lemma {:induction false} SentUnderOwnAccount(trace: seq<State>, events: seq<Event>, i: nat)
    requires IsRun(trace, events) && i <= |events|
    requires forall k :: 0 <= k < i ==> !SwitchesWhileSignalled(trace[k], events[k])
    ensures OwnCalls(trace[i])
  {
    if i == 0 {
    } else {
      SentUnderOwnAccount(trace, events, i - 1);
      RunInv(trace, events, i - 1);
      CalmStepKeepsOwn(trace[i - 1], events[i - 1]);
    }
  }

  /** And one that does can be sent under the new account: any such switch, followed by the new
      account's connection and the call's resumption, puts the old account's request on it. */
  lemma SignalledCallCrosses(s: State, to: Option<nat>, c: nat, conn: nat, id: nat)
    requires Inv(s) && OwnCalls(s) && FreshId(s, id)
    requires to != s.account && c in s.calls && s.calls[c].Signalled?
    ensures
      var bound := Next(s, BindAccount(to));
      var connected := Next(bound, Connect(conn));
      && Enabled(connected, Resume(c, id, true))
      && Next(connected, Resume(c, id, true)).sent == s.sent + [Frame(conn, id, c, s.account, to)]
  {
  }

  /** A call has waited for a connection and got its signal. */
  lemma OneSignalled() returns (trace: seq<State>, events: seq<Event>)
    ensures IsRun(trace, events) && |events| == 3
    ensures trace[3] == State(Some(1), 2, Some(10), map[], [], map[7 := Signalled(Some(1))], [])
    ensures Inv(trace[3]) && OwnCalls(trace[3])
  {
    var s1 := Next(START, BindAccount(Some(1)));
    assert s1 == State(Some(1), 1, None, map[], [], map[], []);
    var s2 := Next(s1, Request(7, 0, true));
    assert Live(s1.calls, s1.ready) == [];
    var s3 := Next(s2, Connect(10));
    assert s3.calls == map[7 := Signalled(Some(1))];
    trace, events := [START, s1, s2, s3], [BindAccount(Some(1)), Request(7, 0, true), Connect(10)];
  }

  /** That happens: the account is switched before the signalled call goes on. */
  lemma CrossingOccurs() returns (trace: seq<State>, events: seq<Event>)
    ensures IsRun(trace, events) && |events| == 6 && SwitchesWhileSignalled(trace[3], events[3])
    ensures trace[6].sent == [Frame(20, 0, 7, Some(1), Some(2))]
  {
    trace, events := OneSignalled();
    var s3 := trace[3];
    assert 7 in s3.calls && s3.calls[7].Signalled?;
    hide Next, Enabled, Inv, OwnCalls, IsRun;
    SignalledCallCrosses(s3, Some(2), 7, 20, 0);
    AnyTime(s3, Some(2), 20);
    trace, events := OneMore(trace, events, BindAccount(Some(2)));
    trace, events := OneMore(trace, events, Connect(20));
    trace, events := OneMore(trace, events, Resume(7, 0, true));
  }

  lemma OneMore(trace: seq<State>, events: seq<Event>, e: Event) returns (trace': seq<State>, events': seq<Event>)
    requires IsRun(trace, events) && Enabled(trace[|events|], e)
    ensures IsRun(trace', events') && trace' == trace + [Next(trace[|events|], e)] && events' == events + [e]
  {
    hide Next, Enabled;
    trace', events' := trace + [Next(trace[|events|], e)], events + [e];
  }

  lemma AnyTime(s: State, to: Option<nat>, conn: nat)
    ensures Enabled(s, BindAccount(to)) && Enabled(Next(s, BindAccount(to)), Connect(conn))
  {
  }

  // ---------------------------------------------------------------- the shared broker

  lemma FinishMore(calls: map<nat, Phase>, done: set<nat>, c: nat, reply: Reply)
    ensures Finish(Finish(calls, done, reply), {c}, reply) == Finish(calls, done + {c}, reply)
  {
  }

  lemma FinishNone(calls: map<nat, Phase>, reply: Reply)
    ensures Finish(calls, {}, reply) == calls
  {
  }

  lemma LiveAppend(calls: map<nat, Phase>, ready: seq<nat>, n: nat)
    requires n < |ready|
    ensures Live(calls, ready[..n + 1]) == Live(calls, ready[..n])
      + (if ready[n] in calls && calls[ready[n]].Waiting? then [ready[n]] else [])
    decreases n
  {
    if n == 0 {
      assert ready[..1] == [ready[0]] && ready[..0] == [];
      assert ready[..1][1..] == [];
    } else {
      LiveAppend(calls, ready[1..], n - 1);
      assert ready[..n + 1][1..] == ready[1..][..n] && ready[..n][1..] == ready[1..][..n - 1];
    }
  }

  lemma Touch(calls: map<nat, Phase>, done: set<nat>, c: nat)
    ensures Signal(Signal(calls, done), {c}) == Signal(calls, done + {c})
  {
  }

  /** The thread's broker. `calls` and `sent` are its surroundings: the other end of every
      one-shot channel, and what the connections were handed. */
  class Broker {
    var account: Option<nat>
    var generation: nat
    var sender: Option<nat>
    var pending: map<nat, nat>
    var ready: seq<nat>
    var calls: map<nat, Phase>
    var sent: seq<Frame>

    ghost function Now(): State
      reads this
    {
      State(account, generation, sender, pending, ready, calls, sent)
    }

    constructor ()
      ensures Now() == START
    {
      account, generation, sender := None, 0, None;
      pending, ready, calls, sent := map[], [], map[], [];
    }

    /** Answers everything pending, in whatever order the table yields it. */
    method DrainPending(reply: Reply)
      modifies this`pending, this`calls
      ensures pending == map[] && calls == Finish(old(calls), old(pending.Values), reply)
    {
      ghost var done: set<nat> := {};
      FinishNone(calls, reply);
      while pending != map[]
        invariant pending.Keys <= old(pending.Keys)
        invariant forall id :: id in pending ==> pending[id] == old(pending)[id]
        invariant done <= old(pending.Values)
        invariant forall id :: id in old(pending) && id !in pending ==> old(pending)[id] in done
        invariant calls == Finish(old(calls), done, reply)
        decreases |pending|
      {
        var id :| id in pending;
        var waiter := pending[id];
        FinishMore(old(calls), done, waiter, reply);
        if waiter in calls {
          calls := calls[waiter := Done(reply)];
        }
        assert calls == Finish(old(calls), done + {waiter}, reply);
        done := done + {waiter};
        assert (pending - {id}).Keys == pending.Keys - {id};
        pending := pending - {id};
      }
      assert done == old(pending.Values);
    }

    method BindAccount(to: Option<nat>)
      modifies this
      ensures Now() == Next(old(Now()), Event.BindAccount(to))
    {
      if account == to {
        return;
      }
      account := to;
      generation := (generation + 1) % GENERATIONS;
      sender := None;
      calls := Finish(calls, Waiters(calls, ready), Error(503));
      ready := [];
      DrainPending(Error(401));
    }

    /** Wakes every waiter of the ready list, in order. */
    method SignalReady()
      modifies this`ready, this`calls
      ensures ready == [] && calls == Signal(old(calls), set c | c in old(ready))
    {
      ghost var done: set<nat> := {};
      assert calls == Signal(calls, {});
      while ready != []
        invariant (set c | c in old(ready)) == done + set c | c in ready
        invariant calls == Signal(old(calls), done)
        decreases |ready|
      {
        var waiter := ready[0];
        Touch(old(calls), done, waiter);
        if waiter in calls && calls[waiter].Waiting? {
          calls := calls[waiter := Signalled(calls[waiter].under)];
        }
        assert calls == Signal(old(calls), done + {waiter});
        assert ready == [waiter] + ready[1..];
        done := done + {waiter};
        ready := ready[1..];
      }
      assert done == set c | c in old(ready);
    }

    method Connect(conn: nat) returns (g: nat)
      modifies this
      ensures Now() == Next(old(Now()), Event.Connect(conn))
      ensures g == generation
    {
      generation := (generation + 1) % GENERATIONS;
      sender := Some(conn);
      SignalReady();
      g := generation;
    }

    method Disconnect(g: nat)
      modifies this
      ensures Now() == Next(old(Now()), Event.Disconnect(g))
    {
      if generation != g {
        return;
      }
      sender := None;
      DrainPending(Error(503));
    }

    method Resolve(id: nat, payload: nat)
      requires Inv(Now())
      modifies this
      ensures Now() == Next(old(Now()), Event.Resolve(id, payload))
      ensures id in old(pending) ==>
                pending == old(pending) - {id} && calls == old(calls)[old(pending)[id] := Done(Answer(payload))]
      ensures id !in old(pending) ==> Now() == old(Now())
    {
      if id in pending {
        var waiter := pending[id];
        pending := pending - {id};
        calls := calls[waiter := Done(Answer(payload))];
        assert calls == Finish(old(calls), {waiter}, Answer(payload));
      }
    }

    /** `retain`: forgets the waiters whose call is gone. */
    method RetainLive()
      modifies this`ready
      ensures ready == Live(calls, old(ready))
    {
      var kept: seq<nat> := [];
      for i := 0 to |ready|
        invariant ready == old(ready)
        invariant kept == Live(calls, ready[..i])
      {
        LiveAppend(calls, ready, i);
        if ready[i] in calls && calls[ready[i]].Waiting? {
          kept := kept + [ready[i]];
        }
      }
      assert ready[..|ready|] == ready;
      ready := kept;
    }

    /** The second half of `request`. */
    method SendRequest(call: nat, under: Option<nat>, id: nat, open: bool)
      modifies this
      ensures Now() == Send(old(Now()), call, under, id, open)
    {
      if |pending| >= MAX_PENDING {
        calls := calls[call := Done(Error(429))];
      } else if sender.None? {
        calls := calls[call := Done(Error(503))];
      } else if !open {
        calls := calls[call := Done(Error(503))];
      } else {
        sent := sent + [Frame(sender.value, id, call, under, account)];
        pending := pending[id := call];
        calls := calls[call := InFlight(under, id)];
      }
    }

    /** The first half of `request`, up to its first suspension. */
    method Request(call: nat, id: nat, open: bool)
      requires Enabled(Now(), Event.Request(call, id, open))
      modifies this
      ensures Now() == Next(old(Now()), Event.Request(call, id, open))
    {
      if sender.Some? {
        SendRequest(call, account, id, open);
        return;
      }
      RetainLive();
      if |ready| < MAX_PENDING {
        ready := ready + [call];
        calls := calls[call := Waiting(account)];
      } else {
        calls := calls[call := Done(Error(503))];
      }
    }

    method Resume(call: nat, id: nat, open: bool)
      requires Enabled(Now(), Event.Resume(call, id, open))
      modifies this
      ensures Now() == Next(old(Now()), Event.Resume(call, id, open))
    {
      SendRequest(call, calls[call].under, id, open);
    }

    /** The guard that removes the entry of a call that ends without a reply. */
    method DropPending(id: nat)
      modifies this`pending
      ensures pending == old(pending) - {id}
    {
      pending := pending - {id};
    }

    method ReplyTimeout(call: nat)
      requires Enabled(Now(), Event.ReplyTimeout(call))
      modifies this
      ensures Now() == Next(old(Now()), Event.ReplyTimeout(call))
    {
      DropPending(calls[call].id);
      calls := calls[call := Done(Error(504))];
    }
  }
}
