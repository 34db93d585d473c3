/** The driver state of a Claude session and the loop that feeds it: one pass of the loop is one
    step of the echo filter and one step of the retry machine. */
module ClaudeIo {
  import opened Wrappers
  import opened ClaudeFrames
  import Echoes = ClaudeEchoes
  import Retries = ClaudeRetries

  const RATE_LIMIT_TEXT_PREFIX := "API Error: Server is temporarily limiting requests"

  /** What the select loop picks up next: a command, a frame, or the end of a backoff. `sent`
      says whether the write to the CLI succeeds, `echo` whether the CLI meant the frame as an
      echo of a prompt. */
  datatype Input =
    | UserInput(text: string, sent: bool)
    | Permission
    | Interrupt
    | Frame(out: Output, echo: bool)
    | Elapsed(sent: bool)

  datatype Task = Task(markers: seq<string>, retry: Retries.State, sawUserInput: bool)

  predicate ShowsOrActs(block: Block) {
    block.ToolUse? || (block.Text? && IsNonBlank(block.text))
  }

  predicate ShouldDropFreshStart(out: Output) {
    match out
    case Assistant(m) =>
      exists i :: 0 <= i < |m.content| && ShowsOrActs(m.content[i])
    case ControlRequest => true
    case ToolProgress => true
    case User(_, _) => true
    case _ => false
  }

  /** The text blocks up to the first usage-limit banner: whether one starts with the rate-limit
      text, and the banner's reset time. */
  function ScanTexts(content: seq<Block>, parse: string -> Option<string>): (bool, Option<string>) {
    if content == [] then (false, None)
    else if !content[0].Text? then ScanTexts(content[1..], parse)
    else
      var limited := RATE_LIMIT_TEXT_PREFIX <= content[0].text;
      if parse(content[0].text).Some? then (limited, parse(content[0].text))
      else
        var rest := ScanTexts(content[1..], parse);
        (limited || rest.0, rest.1)
  }

  /** Does the loop look at this frame at all? Before the first input it discards what shows or acts. */
  predicate Looks(sawUserInput: bool, out: Output) {
    sawUserInput || !ShouldDropFreshStart(out)
  }

  function EchoEvent(t: Task, e: Input): Echoes.Event {
    match e
    case UserInput(text, true) => Echoes.Sent(text)
    case Elapsed(true) =>
      if t.retry.waiting.Some? then Echoes.Sent(t.retry.waiting.value) else Echoes.Frame(Status, false)
    case Frame(out, echo) =>
      if !Looks(t.sawUserInput, out) then Echoes.Frame(Status, false)
      else if out.Result? then Echoes.TurnEnd
      else Echoes.Frame(out, echo)
    case _ => Echoes.Frame(Status, false)
  }

  function RetryEvent(t: Task, e: Input, parse: string -> Option<string>): Retries.Event {
    match e
    case UserInput(text, sent) => Retries.UserInput(text, sent)
    case Permission => Retries.OtherCommand
    case Interrupt => Retries.Interrupt
    case Elapsed(sent) => Retries.Elapsed(sent)
    case Frame(out, _) =>
      if out.Result? then Retries.Result(out.isError)
      else if out.Assistant? && Looks(t.sawUserInput, out) then
        Retries.Texts(ScanTexts(out.message.content, parse).0, ScanTexts(out.message.content, parse).1)
      else Retries.Texts(false, None)
  }

  function Next(t: Task, e: Input, parse: string -> Option<string>): Task {
    Task(Echoes.Next(t.markers, EchoEvent(t, e)),
         Retries.Next(t.retry, RetryEvent(t, e, parse)).0,
         t.sawUserInput || e.UserInput?)
  }

  /** A history of the loop: frames are not read during a backoff. */
  ghost predicate IsRun(trace: seq<Task>, script: seq<Input>, resume: bool, parse: string -> Option<string>) {
    && |trace| == |script| + 1 && trace[0] == Task([], Retries.START, resume)
    && (forall i :: 0 <= i < |script| ==>
          && Retries.Enabled(trace[i].retry, RetryEvent(trace[i], script[i], parse))
          && trace[i + 1] == Next(trace[i], script[i], parse))
  }

  predicate PassedOn(t: Task, e: Input) {
    e.Frame? && Looks(t.sawUserInput, e.out) && Echoes.Judge(t.markers, e.out).1 == Echoes.Pass
  }

  /** An error result announces the limit noted in its turn. */
  function Announced(t: Task, e: Input): Option<string> {
    if e.Frame? && e.out == Result(true) then t.retry.sessionLimit else None
  }

  ghost function MarkerTrace(trace: seq<Task>): seq<Echoes.Markers> {
    seq(|trace|, i requires 0 <= i < |trace| => trace[i].markers)
  }

  ghost function EchoEvents(trace: seq<Task>, script: seq<Input>): seq<Echoes.Event>
    requires |script| <= |trace|
  {
    seq(|script|, i requires 0 <= i < |script| => EchoEvent(trace[i], script[i]))
  }

  ghost function RetryTrace(trace: seq<Task>): seq<Retries.State> {
    seq(|trace|, i requires 0 <= i < |trace| => trace[i].retry)
  }

  ghost function RetryEvents(trace: seq<Task>, script: seq<Input>, parse: string -> Option<string>): seq<Retries.Event>
    requires |script| <= |trace|
  {
    seq(|script|, i requires 0 <= i < |script| => RetryEvent(trace[i], script[i], parse))
  }

  /** Every history of the loop is at once a run of the echo filter and of the retry machine, so
      their theorems hold of the loop. */
  lemma LoopRunsBothMachines(trace: seq<Task>, script: seq<Input>, resume: bool, parse: string -> Option<string>)
    requires IsRun(trace, script, resume, parse)
    ensures Echoes.IsRun(MarkerTrace(trace), EchoEvents(trace, script))
    ensures Retries.IsRun(RetryTrace(trace), RetryEvents(trace, script, parse))
  {
  }

  /** The loop as a whole, of a fresh or a resumed session: with in-order echoes and no genuine user
      text while an echo is outstanding or after a hidden prompt, a user frame with text to show is
      passed on exactly when input has been seen and it is not an echo. */
  lemma LoopShowsExactlyGenuineFrames(trace: seq<Task>, script: seq<Input>, resume: bool,
                                     parse: string -> Option<string>, i: nat)
    requires IsRun(trace, script, resume, parse) && i < |script|
    requires var events := EchoEvents(trace, script);
             && Echoes.EchoesInOrder(events)
             && (forall j :: 0 <= j < |events| && Echoes.ShowsText(events[j]) && !events[j].echo ==>
                   Echoes.Outstanding(events, j) == [] && Echoes.HiddenSends(events, j) == 0)
    requires script[i].Frame? && Echoes.ShowsText(Echoes.Frame(script[i].out, script[i].echo))
    ensures PassedOn(trace[i], script[i]) <==> trace[i].sawUserInput && !script[i].echo
  {
    LoopRunsBothMachines(trace, script, resume, parse);
    var ms, events := MarkerTrace(trace), EchoEvents(trace, script);
    Echoes.SuppressionIsExact(ms, events);
    assert Echoes.Right(ms, events, i);
  }

  /** Frames are not read during a backoff, and only a backoff elapses. */
  lemma NotDuringBackoff(t: Task, e: Input, parse: string -> Option<string>)
    requires Retries.Enabled(t.retry, RetryEvent(t, e, parse))
    ensures e.Frame? ==> t.retry.waiting.None?
    ensures e.Elapsed? ==> t.retry.waiting.Some?
  {
  }

  class ClaudeIoState {
    var lastInput: Option<string>
    var rateLimitAttempts: nat
    var currentTurnWasRateLimited: bool
    var pendingSessionLimit: Option<string>
    var pendingEchoDrops: seq<string>

    /** The retry fields, together with the loop's running backoff. */
    ghost function Retry(waiting: Option<string>): Retries.State
      reads this
    {
      Retries.State(lastInput, rateLimitAttempts, currentTurnWasRateLimited, pendingSessionLimit, waiting)
    }

    constructor ()
      ensures Retry(None) == Retries.START && pendingEchoDrops == []
    {
      lastInput, rateLimitAttempts, currentTurnWasRateLimited, pendingSessionLimit := None, 0, false, None;
      pendingEchoDrops := [];
    }

    method ResetTurnRetryState()
      modifies this`rateLimitAttempts, this`currentTurnWasRateLimited, this`pendingSessionLimit
      ensures Retry(None) == Retries.Reset(old(Retry(None)))
    {
      rateLimitAttempts, currentTurnWasRateLimited, pendingSessionLimit := 0, false, None;
    }

    method OnRateLimitTerminator() returns (decision: Retries.Effect)
      modifies this`rateLimitAttempts, this`currentTurnWasRateLimited
      ensures var (t, effect) := Retries.OnLimited(old(Retry(None)));
              decision == effect && Retry(t.waiting) == t
    {
      currentTurnWasRateLimited := false;
      if lastInput.None? {
        return Retries.Nothing;
      }
      if rateLimitAttempts >= Retries.MAX_RATE_LIMIT_RETRIES {
        decision := Retries.GiveUp(rateLimitAttempts);
        rateLimitAttempts := 0;
        return;
      }
      rateLimitAttempts := rateLimitAttempts + 1;
      return Retries.Backoff(lastInput.value, Retries.Window(rateLimitAttempts), rateLimitAttempts);
    }

    method PushEchoDrop(text: string)
      modifies this`pendingEchoDrops
      ensures pendingEchoDrops == old(pendingEchoDrops) + [text]
    {
      pendingEchoDrops := pendingEchoDrops + [text];
    }

    method ShouldDropUserEcho(out: Output) returns (drop: bool)
      modifies this`pendingEchoDrops
      ensures
        var (markers, verdict) := Echoes.Judge(old(pendingEchoDrops), out);
        pendingEchoDrops == markers && drop == (verdict != Echoes.Pass)
    {
      var echoed := None;
      if out.User? && !out.hasToolResult {
        echoed := JoinBlocks(out.content);
      }
      if echoed.None? { return false; }
      if IsSystemReminder(echoed.value) { return true; }
      if !IsNonBlank(echoed.value) { return true; }
      if pendingEchoDrops != [] {
        pendingEchoDrops := pendingEchoDrops[1..];
        return true;
      }
      return false;
    }

    method ClearStaleEchoMarkers()
      modifies this`pendingEchoDrops
      ensures pendingEchoDrops == []
    {
      pendingEchoDrops := [];
    }

    /** The text blocks of an assistant frame: latches the rate-limit text and the first banner. */
    method NoteTexts(content: seq<Block>, parse: string -> Option<string>)
      modifies this`currentTurnWasRateLimited, this`pendingSessionLimit
      ensures var (limited, banner) := ScanTexts(content, parse);
              Retry(None) == Retries.Next(old(Retry(None)), Retries.Texts(limited, banner)).0
    {
      for i := 0 to |content|
        invariant var (limited, banner) := ScanTexts(content, parse);
                  var (limited', banner') := ScanTexts(content[i..], parse);
                  && (old(currentTurnWasRateLimited) || limited) == (currentTurnWasRateLimited || limited')
                  && pendingSessionLimit == old(pendingSessionLimit) && banner == banner'
      {
        assert content[i..][0] == content[i] && content[i..][1..] == content[i + 1..];
        if content[i].Text? {
          if RATE_LIMIT_TEXT_PREFIX <= content[i].text {
            currentTurnWasRateLimited := true;
          }
          if parse(content[i].text).Some? {
            pendingSessionLimit := parse(content[i].text);
            return;
          }
        }
      }
      assert content[|content|..] == [];
    }

    /** The end of a turn: no marker outlives it, a usage limit noted in it is announced if it failed,
        and a rate-limited one is scheduled again. */
    method NoteResult(isError: bool) returns (waiting: Option<string>, limit: Option<string>)
      modifies this
      ensures limit == if isError then old(pendingSessionLimit) else None
      ensures Retry(waiting) == Retries.Next(old(Retry(None)), Retries.Result(isError)).0
      ensures pendingEchoDrops == []
    {
      waiting, limit := None, None;
      if !isError { ResetTurnRetryState(); }
      ClearStaleEchoMarkers();
      var limited := isError && currentTurnWasRateLimited;
      if isError {
        limit := pendingSessionLimit;
        pendingSessionLimit := None;
      }
      if limited {
        var decision := OnRateLimitTerminator();
        if decision.Backoff? { waiting := Some(decision.input); }
      }
    }

    /** One frame: whether it is passed on, the prompt it schedules again and the limit it announces. */
    method ReadFrame(out: Output, ghost echo: bool, sawUserInput: bool, parse: string -> Option<string>)
      returns (pass: bool, waiting: Option<string>, limit: Option<string>)
      modifies this
      ensures
        var t, e := Task(old(pendingEchoDrops), old(Retry(None)), sawUserInput), Frame(out, echo);
        && Task(pendingEchoDrops, Retry(waiting), sawUserInput) == Next(t, e, parse)
        && (pass <==> PassedOn(t, e)) && limit == Announced(t, e)
    {
      pass, waiting, limit := false, None, None;
      if !sawUserInput && ShouldDropFreshStart(out) {
        return;
      }
      var drop := ShouldDropUserEcho(out);
      if drop {
        return;
      }
      pass := true;
      if out.Assistant? {
        NoteTexts(out.message.content, parse);
      }
      if out.Result? {
        waiting, limit := NoteResult(out.isError);
      }
    }

    /** A command, or the end of a backoff. */
    method TakeCommand(e: Input, sawUserInput: bool, waiting: Option<string>, ghost parse: string -> Option<string>)
      returns (saw: bool, stillWaiting: Option<string>)
      requires !e.Frame? && (e.Elapsed? ==> waiting.Some?)
      modifies this
      ensures Task(pendingEchoDrops, Retry(stillWaiting), saw) ==
              Next(Task(old(pendingEchoDrops), old(Retry(waiting)), sawUserInput), e, parse)
    {
      saw, stillWaiting := sawUserInput, None;
      match e {
        case UserInput(text, sent) =>
          saw := true;
          ResetTurnRetryState();
          if sent {
            PushEchoDrop(text);
            lastInput := Some(text);
          }
        case Permission =>
        case Interrupt =>
          if waiting.Some? {
            ResetTurnRetryState();
          }
        case Elapsed(sent) =>
          if sent {
            PushEchoDrop(waiting.value);
          }
      }
    }

    /** The loop over commands, frames and backoffs. `shown` lists the frames passed on, by position
        in the script, `limits` the reset times announced; `trace` is the history of this run. */
    method ClaudeIoTask(script: seq<Input>, resume: bool, parse: string -> Option<string>, ghost trace: seq<Task>)
      returns (shown: seq<nat>, limits: map<nat, string>, waiting: Option<string>, sawUserInput: bool)
      requires Retry(None) == Retries.START && pendingEchoDrops == []
      requires IsRun(trace, script, resume, parse)
      modifies this
      ensures Task(pendingEchoDrops, Retry(waiting), sawUserInput) == trace[|script|]
      ensures forall i :: i in shown <==> 0 <= i < |script| && PassedOn(trace[i], script[i])
      ensures forall i :: i in limits <==> 0 <= i < |script| && Announced(trace[i], script[i]).Some?
      ensures forall i :: i in limits ==> Some(limits[i]) == Announced(trace[i], script[i])
    {
      hide Next, Looks, RetryEvent, Echoes.Judge, Retries.Enabled;
      shown, limits, waiting, sawUserInput := [], map[], None, resume;
      for i := 0 to |script|
        invariant Task(pendingEchoDrops, Retry(waiting), sawUserInput) == trace[i]
        invariant forall j :: j in shown <==> 0 <= j < i && PassedOn(trace[j], script[j])
        invariant forall j :: j in limits <==> 0 <= j < i && Announced(trace[j], script[j]).Some?
        invariant forall j :: j in limits ==> Some(limits[j]) == Announced(trace[j], script[j])
      {
        assert trace[i + 1] == Next(trace[i], script[i], parse);
        NotDuringBackoff(trace[i], script[i], parse);
        if script[i].Frame? {
          var pass, limit;
          pass, waiting, limit := ReadFrame(script[i].out, script[i].echo, sawUserInput, parse);
          if pass {
            shown := shown + [i];
          }
          if limit.Some? {
            limits := limits[i := limit.value];
          }
        } else {
          sawUserInput, waiting := TakeCommand(script[i], sawUserInput, waiting, parse);
        }
      }
    }
  }
}
