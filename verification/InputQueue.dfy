/** The Antigravity task's input queue: one turn at a time, inputs that arrive during a turn
    waiting behind those already queued. */
module InputQueue {
  import opened Wrappers

  /** A prompt and the handle, if any, on which its sender waits for delivery. */
  datatype Input = Input(text: string, handle: Option<nat>)

  /** What one attempt to start a turn runs into, in the order it is tried. */
  datatype Setup = BadOptions | LaunchFailed | WrongConversation | SendFailed | Started

  datatype Outcome = Skipped | Refused(why: Setup) | Delivered

  datatype Answer = Answer(handle: nat, ok: bool)

  datatype Phase = Idle | Starting(input: Input) | Running(input: Input) | Stopped

  /** `received` is everything taken off the command channel, in order, and `outcomes[i]` what
      became of `received[i]`; the rest is the task's own state and its outputs. */
  datatype State = State(
    received: seq<Input>,
    outcomes: seq<Outcome>,
    phase: Phase,
    queued: seq<Input>,
    inTurn: seq<Input>,
    answers: seq<Answer>,
    sent: seq<string>)

  datatype Step =
    | Pop
    | Receive(input: Input)
    | Ignore
    | Begin(setup: Setup)
    | Harness(ends: bool)
    | Shutdown
    | Close

  const START := State([], [], Idle, [], [], [], [])

  function Reply(input: Input, ok: bool): seq<Answer> {
    if input.handle.Some? then [Answer(input.handle.value, ok)] else []
  }

  /** Takes up one input; an empty prompt is answered at once and starts no turn. */
  function Take(s: State, input: Input): State {
    if input.text == "" then s.(outcomes := s.outcomes + [Skipped], answers := s.answers + Reply(input, true))
    else s.(phase := Starting(input))
  }

  /** The command channel is read only when nothing is queued, or while a turn runs. */
  predicate Listening(s: State) {
    (s.phase.Idle? && s.queued == []) || s.phase.Running?
  }

  predicate Enabled(s: State, e: Step) {
    match e
    case Pop => s.phase.Idle? && s.queued != []
    case Begin(_) => s.phase.Starting?
    case Harness(_) => s.phase.Running?
    case _ => Listening(s)
  }

  function Next(s: State, e: Step): State
    requires Enabled(s, e)
  {
    match e
    case Pop => Take(s.(queued := s.queued[1..]), s.queued[0])
    case Receive(input) =>
      var t := s.(received := s.received + [input]);
      if s.phase.Running? then t.(inTurn := s.inTurn + [input]) else Take(t, input)
    case Ignore => s
    case Begin(setup) =>
      var input := s.phase.input;
      if setup.Started? then
        s.(phase := Running(input), outcomes := s.outcomes + [Delivered],
           answers := s.answers + Reply(input, true), sent := s.sent + [input.text])
      else
        s.(phase := Idle, outcomes := s.outcomes + [Refused(setup)], answers := s.answers + Reply(input, false))
    case Harness(ends) =>
      if ends then s.(phase := Idle, queued := s.queued + s.inTurn, inTurn := []) else s
    case Shutdown => s.(phase := Stopped)
    case Close => s.(phase := Stopped)
  }

  ghost predicate IsRun(trace: seq<State>, steps: seq<Step>) {
    && |trace| == |steps| + 1 && trace[0] == START
    && (forall i :: 0 <= i < |steps| ==> Enabled(trace[i], steps[i]) && trace[i + 1] == Next(trace[i], steps[i]))
  }

  // ---------------------------------------------------------------- what was answered and sent

  /** The answers owed for the first `n` inputs: one per handle, in arrival order. */
  function AnswersOf(received: seq<Input>, outcomes: seq<Outcome>, n: nat): seq<Answer>
    requires n <= |received| && n <= |outcomes|
  {
    if n == 0 then []
    else AnswersOf(received, outcomes, n - 1) + Reply(received[n - 1], !outcomes[n - 1].Refused?)
  }

  /** The prompts of the first `n` inputs that reached the harness, in arrival order. */
  function PromptsOf(received: seq<Input>, outcomes: seq<Outcome>, n: nat): seq<string>
    requires n <= |received| && n <= |outcomes|
  {
    if n == 0 then []
    else PromptsOf(received, outcomes, n - 1) + (if outcomes[n - 1].Delivered? then [received[n - 1].text] else [])
  }

  lemma {:induction false} PrefixUnchanged(received: seq<Input>, outcomes: seq<Outcome>,
                                           more: seq<Input>, later: seq<Outcome>, n: nat)
    requires n <= |received| && n <= |outcomes| && received <= more && outcomes <= later
    ensures AnswersOf(more, later, n) == AnswersOf(received, outcomes, n)
    ensures PromptsOf(more, later, n) == PromptsOf(received, outcomes, n)
  {
    if n == 0 {
    } else {
      PrefixUnchanged(received, outcomes, more, later, n - 1);
    }
  }

  // ---------------------------------------------------------------- invariant

  /** The input taken up but with no outcome yet. */
  function Current(s: State): seq<Input> {
    if s.phase.Starting? then [s.phase.input] else []
  }

  /** Nothing received is lost, doubled or overtaken: the inputs with an outcome, the one being
      started, the queue and the turn's queue are, in that order, exactly what arrived. */
  ghost predicate Conserved(s: State) {
    && |s.outcomes| <= |s.received|
    && s.received[|s.outcomes|..] == Current(s) + s.queued + s.inTurn
    && (s.inTurn != [] ==> s.phase.Running? || s.phase.Stopped?)
  }

  /** The outputs are exactly what the outcomes call for. */
  ghost predicate Accounted(s: State) {
    && |s.outcomes| <= |s.received|
    && s.answers == AnswersOf(s.received, s.outcomes, |s.outcomes|)
    && s.sent == PromptsOf(s.received, s.outcomes, |s.outcomes|)
    && (forall i :: 0 <= i < |s.outcomes| ==> (s.outcomes[i].Skipped? <==> s.received[i].text == ""))
    && (s.phase.Starting? ==> s.phase.input.text != "")
  }

  ghost predicate Inv(s: State) {
    Conserved(s) && Accounted(s)
  }

  lemma TakeConserves(s: State, input: Input)
    requires |s.outcomes| <= |s.received| && s.phase.Idle? && s.inTurn == []
    requires s.received[|s.outcomes|..] == [input] + s.queued
    ensures Conserved(Take(s, input))
  {
  }

  lemma ReceiveConserves(s: State, input: Input)
    requires Conserved(s) && Listening(s)
    ensures Conserved(Next(s, Receive(input)))
  {
  }

  lemma BeginConserves(s: State, setup: Setup)
    requires Conserved(s) && s.phase.Starting?
    ensures Conserved(Next(s, Begin(setup)))
  {
  }

  lemma StepConserves(s: State, e: Step)
    requires Conserved(s) && Enabled(s, e)
    ensures Conserved(Next(s, e))
  {
    match e
    case Receive(input) => ReceiveConserves(s, input);
    case Pop => TakeConserves(s.(queued := s.queued[1..]), s.queued[0]);
    case Begin(setup) => BeginConserves(s, setup);
    case _ =>
  }

  /** Recording one more outcome, with its answer and its prompt, keeps the account. */
  lemma OutcomeAccounts(s: State, t: State, o: Outcome)
    requires Accounted(s) && s.received <= t.received && |s.outcomes| < |t.received|
    requires t.outcomes == s.outcomes + [o]
    requires
      var input := t.received[|s.outcomes|];
      && t.answers == s.answers + Reply(input, !o.Refused?)
      && t.sent == s.sent + (if o.Delivered? then [input.text] else [])
      && (o.Skipped? <==> input.text == "")
    requires !t.phase.Starting?
    ensures Accounted(t)
  {
    PrefixUnchanged(s.received, s.outcomes, t.received, t.outcomes, |s.outcomes|);
  }

  lemma QuietAccounts(s: State, t: State)
    requires Accounted(s) && s.received <= t.received && t.outcomes == s.outcomes
    requires t.answers == s.answers && t.sent == s.sent
    requires t.phase.Starting? ==> t.phase.input.text != ""
    ensures Accounted(t)
  {
    PrefixUnchanged(s.received, s.outcomes, t.received, t.outcomes, |s.outcomes|);
  }

  lemma StepAccounts(s: State, e: Step)
    requires Inv(s) && Enabled(s, e)
    ensures Accounted(Next(s, e))
  {
    var t := Next(s, e);
    if |t.outcomes| == |s.outcomes| + 1 {
      NextInput(s, e);
      hide AnswersOf, PromptsOf, Conserved;
      OutcomeAccounts(s, t, t.outcomes[|s.outcomes|]);
    } else {
      QuietAccounts(s, t);
    }
  }

  /** A step that gives an outcome gives it to the oldest input without one. */
  lemma NextInput(s: State, e: Step)
    requires Inv(s) && Enabled(s, e) && |Next(s, e).outcomes| == |s.outcomes| + 1
    ensures |s.outcomes| < |Next(s, e).received|
    ensures Next(s, e).received[|s.outcomes|] ==
      match e
      case Receive(input) => input
      case Pop => s.queued[0]
      case _ => if s.phase.Starting? then s.phase.input else Input("", None)
  {
  }

  lemma {:induction false} RunInv(trace: seq<State>, steps: seq<Step>, i: nat)
    requires IsRun(trace, steps) && i <= |steps|
    ensures Inv(trace[i])
  {
    hide Next, Conserved, Accounted;
    if i == 0 {
      StartInv();
    } else {
      RunInv(trace, steps, i - 1);
      StepConserves(trace[i - 1], steps[i - 1]);
      StepAccounts(trace[i - 1], steps[i - 1]);
    }
  }

  lemma StartInv()
    ensures Inv(START)
  {
  }

  // ---------------------------------------------------------------- what a whole run promises

  lemma {:induction false} AnswersComeFromInputs(received: seq<Input>, outcomes: seq<Outcome>, n: nat, a: nat)
    returns (i: nat)
    requires n <= |received| && n <= |outcomes| && a < |AnswersOf(received, outcomes, n)|
    ensures i < n && received[i].handle == Some(AnswersOf(received, outcomes, n)[a].handle)
  {
    if a < |AnswersOf(received, outcomes, n - 1)| {
      i := AnswersComeFromInputs(received, outcomes, n - 1, a);
    } else {
      i := n - 1;
    }
  }

  lemma {:induction false} HandlesOnce(received: seq<Input>, outcomes: seq<Outcome>, n: nat)
    requires n <= |received| && n <= |outcomes|
    requires forall i, j :: 0 <= i < j < |received| && received[i].handle.Some? ==>
               received[i].handle != received[j].handle
    ensures forall a, b :: 0 <= a < b < |AnswersOf(received, outcomes, n)| ==>
      AnswersOf(received, outcomes, n)[a].handle != AnswersOf(received, outcomes, n)[b].handle
  {
    if n == 0 {
    } else {
      HandlesOnce(received, outcomes, n - 1);
      var earlier := AnswersOf(received, outcomes, n - 1);
      forall a | 0 <= a < |earlier| ensures Some(earlier[a].handle) != received[n - 1].handle
      {
        var i := AnswersComeFromInputs(received, outcomes, n - 1, a);
      }
    }
  }

  lemma {:induction false} PromptStands(received: seq<Input>, outcomes: seq<Outcome>, i: nat, n: nat)
    requires i < n <= |received| && n <= |outcomes| && outcomes[i].Delivered?
    ensures |PromptsOf(received, outcomes, i)| < |PromptsOf(received, outcomes, n)|
    ensures PromptsOf(received, outcomes, n)[|PromptsOf(received, outcomes, i)|] == received[i].text
    ensures PromptsOf(received, outcomes, i) <= PromptsOf(received, outcomes, n)
    decreases n
  {
    if i < n - 1 {
      PromptStands(received, outcomes, i, n - 1);
    }
  }

  /** The handle is that of an input with an outcome. */
  ghost predicate IsOurs(s: State, handle: nat) {
    exists i :: 0 <= i < |s.outcomes| && i < |s.received| && s.received[i].handle == Some(handle)
  }

  /** `first` stands among the prompts sent, with `second` somewhere behind it. */
  ghost predicate StandsBefore(sent: seq<string>, first: string, second: string) {
    exists p, q :: 0 <= p < q < |sent| && sent[p] == first && sent[q] == second
  }

  /** The inputs on the command channel, in order. */
  function InputsOf(steps: seq<Step>, n: nat): seq<Input>
    requires n <= |steps|
  {
    if n == 0 then []
    else InputsOf(steps, n - 1) + if steps[n - 1].Receive? then [steps[n - 1].input] else []
  }

  /** The task takes them all up, just as they come. */
  lemma {:induction false} ReceivedExactly(trace: seq<State>, steps: seq<Step>, n: nat)
    requires IsRun(trace, steps) && n <= |steps|
    ensures trace[n].received == InputsOf(steps, n)
  {
    if n == 0 {
    } else {
      ReceivedExactly(trace, steps, n - 1);
      assert trace[n] == Next(trace[n - 1], steps[n - 1]);
    }
  }

  /** Every delivery handle is answered at most once, and for the input that carries it, in every state
      of every run: handles are one-shot, so no two inputs share one. */
  lemma AnsweredAtMostOnce(trace: seq<State>, steps: seq<Step>, n: nat)
    requires IsRun(trace, steps) && n <= |steps|
    requires
      var received := trace[n].received;
      forall i, j :: 0 <= i < j < |received| && received[i].handle.Some? ==> received[i].handle != received[j].handle
    ensures
      var answers := trace[n].answers;
      && (forall a, b :: 0 <= a < b < |answers| ==> answers[a].handle != answers[b].handle)
      && (forall a :: 0 <= a < |answers| ==> IsOurs(trace[n], answers[a].handle))
  {
    RunInv(trace, steps, n);
    var s := trace[n];
    HandlesOnce(s.received, s.outcomes, |s.outcomes|);
    forall a | 0 <= a < |s.answers| ensures IsOurs(s, s.answers[a].handle) {
      var i := AnswersComeFromInputs(s.received, s.outcomes, |s.outcomes|, a);
    }
  }

  /** A step that settles an input settles the oldest unsettled one: an empty one with a yes and no turn;
      any other by the attempt to start its turn, which sends the prompt and answers yes exactly if it
      started, and otherwise sends nothing and answers no. */
  ghost predicate Settles(s: State, e: Step, t: State, input: Input) {
    && (input.text == "" || (e.Begin? && s.phase == Starting(input)))
    && (input.text == "" ==> !e.Begin?)
    && t.sent == s.sent + (if e == Begin(Started) then [input.text] else [])
    && t.answers == s.answers + match input.handle
                                case None => []
                                case Some(h) => [Answer(h, input.text == "" || e == Begin(Started))]
  }

  lemma StepSettles(s: State, e: Step)
    requires Inv(s) && Enabled(s, e)
    ensures
      var t := Next(s, e);
      && |s.outcomes| <= |t.outcomes| <= |s.outcomes| + 1
      && (e.Begin? ==> |t.outcomes| > |s.outcomes|)
      && (|t.outcomes| > |s.outcomes| ==>
            |s.outcomes| < |t.received| && Settles(s, e, t, t.received[|s.outcomes|]))
      && (|t.outcomes| == |s.outcomes| ==> t.sent == s.sent && t.answers == s.answers)
  {
    if |Next(s, e).outcomes| == |s.outcomes| + 1 {
      NextInput(s, e);
    }
  }

  /** In every run, every input with an outcome was settled by one step of it. */
  lemma {:induction false} SettledByStep(trace: seq<State>, steps: seq<Step>, n: nat, i: nat) returns (k: nat)
    requires IsRun(trace, steps) && n <= |steps| && i < |trace[n].outcomes|
    ensures k < n && |trace[k].outcomes| == i && i < |trace[n].received| && trace[k + 1].received <= trace[n].received
    ensures Settles(trace[k], steps[k], trace[k + 1], trace[n].received[i])
    ensures trace[k + 1].answers <= trace[n].answers && trace[k + 1].sent <= trace[n].sent
  {
    hide Next, Enabled, Inv, Settles;
    RunInv(trace, steps, n - 1);
    StepSettles(trace[n - 1], steps[n - 1]);
    StepOnlyAdds(trace[n - 1], steps[n - 1]);
    if i < |trace[n - 1].outcomes| {
      k := SettledByStep(trace, steps, n - 1, i);
    } else {
      k := n - 1;
    }
  }

  /** So in every state of every run, the sender of every input with an outcome, if one is waiting, has
      exactly one answer: yes exactly if the input is empty or its turn was started and its prompt sent. */
  lemma AnsweredExactly(trace: seq<State>, steps: seq<Step>, n: nat, i: nat) returns (k: nat, a: nat)
    requires IsRun(trace, steps) && n <= |steps| && i < |trace[n].outcomes|
    requires
      var received := trace[n].received;
      forall i, j :: 0 <= i < j < |received| && received[i].handle.Some? ==> received[i].handle != received[j].handle
    ensures k < n && i < |trace[n].received| && Settles(trace[k], steps[k], trace[k + 1], trace[n].received[i])
    ensures
      var input, answers := trace[n].received[i], trace[n].answers;
      input.handle.Some? ==>
        && a < |answers| && answers[a].handle == input.handle.value
        && (answers[a].ok <==> input.text == "" || steps[k] == Begin(Started))
        && (forall b :: 0 <= b < |answers| && answers[b].handle == input.handle.value ==> b == a)
    ensures
      var input, sent := trace[n].received[i], trace[n].sent;
      steps[k] == Begin(Started) ==> |trace[k].sent| < |sent| && sent[|trace[k].sent|] == input.text
  {
    hide Next, Enabled;
    k := SettledByStep(trace, steps, n, i);
    a := |trace[k].answers|;
    AnsweredAtMostOnce(trace, steps, n);
    assert trace[n].received[i].handle.Some? ==> trace[k + 1].answers[a] == trace[n].answers[a];
    assert steps[k] == Begin(Started) ==> trace[k + 1].sent[|trace[k].sent|] == trace[n].sent[|trace[k].sent|];
  }

  /** Prompts reach the harness in the order they arrived, in every state of every run: of two inputs
      that were sent, the earlier one's prompt stands earlier among those sent. */
  lemma SentInArrivalOrder(trace: seq<State>, steps: seq<Step>, n: nat, i: nat, j: nat)
    requires IsRun(trace, steps) && n <= |steps| && i < j < |trace[n].outcomes|
    requires trace[n].outcomes[i].Delivered? && trace[n].outcomes[j].Delivered?
    ensures |trace[n].outcomes| <= |trace[n].received|
    ensures StandsBefore(trace[n].sent, trace[n].received[i].text, trace[n].received[j].text)
  {
    RunInv(trace, steps, n);
    var s := trace[n];
    var m := |s.outcomes|;
    PromptStands(s.received, s.outcomes, i, m);
    PromptStands(s.received, s.outcomes, j, m);
    PromptStands(s.received, s.outcomes, i, j);
    var p, q := |PromptsOf(s.received, s.outcomes, i)|, |PromptsOf(s.received, s.outcomes, j)|;
    assert 0 <= p < q < |s.sent| && s.sent[p] == s.received[i].text && s.sent[q] == s.received[j].text;
  }

  /** Whenever the task stops, whoever is left without an answer was still queued, and whoever
      was queued is left: the inputs without an outcome are the queue and then the turn's. */
  lemma OnlyQueuedInputsAreLeft(trace: seq<State>, steps: seq<Step>)
    requires IsRun(trace, steps) && trace[|steps|].phase.Stopped?
    ensures
      var t := trace[|steps|];
      && |t.outcomes| <= |t.received|
      && t.received[|t.outcomes|..] == t.queued + t.inTurn
      && t.answers == AnswersOf(t.received, t.outcomes, |t.outcomes|)
  {
    RunInv(trace, steps, |steps|);
  }

  /** What arrived, was answered and was sent is never taken back. */
  lemma {:induction false} OutputsOnlyGrow(trace: seq<State>, steps: seq<Step>, i: nat, j: nat)
    requires IsRun(trace, steps) && i <= j <= |steps|
    ensures trace[i].received <= trace[j].received && trace[i].outcomes <= trace[j].outcomes
    ensures trace[i].answers <= trace[j].answers && trace[i].sent <= trace[j].sent
    decreases j - i
  {
    if i == j {
    } else {
      hide Next, Enabled;
      OutputsOnlyGrow(trace, steps, i, j - 1);
      StepOnlyAdds(trace[j - 1], steps[j - 1]);
    }
  }

  lemma StepOnlyAdds(s: State, step: Step)
    requires Enabled(s, step)
    ensures s.received <= Next(s, step).received && s.outcomes <= Next(s, step).outcomes
    ensures s.answers <= Next(s, step).answers && s.sent <= Next(s, step).sent
  {
  }

  // ---------------------------------------------------------------- the task

  datatype TurnResult = Complete | Shut | Closed | Suspended

  /** The task, driven by the order in which the things it waits for happen. */
  class AntigravityTask {
    const steps: seq<Step>
    ghost const trace: seq<State>
    var at: nat
    var queued: seq<Input>
    var turnQueue: seq<Input>
    var answers: seq<Answer>
    var sent: seq<string>
    ghost var received: seq<Input>
    ghost var outcomes: seq<Outcome>
    ghost var phase: Phase

    ghost function Now(): State
      reads this
    {
      State(received, outcomes, phase, queued, turnQueue, answers, sent)
    }

    ghost predicate OnTrack()
      reads this
    {
      IsRun(trace, steps) && at <= |steps| && Now() == trace[at]
    }

    constructor (steps: seq<Step>, ghost trace: seq<State>)
      requires IsRun(trace, steps)
      ensures OnTrack() && at == 0 && this.steps == steps && this.trace == trace
    {
      this.steps, this.trace, at := steps, trace, 0;
      queued, turnQueue, answers, sent := [], [], [], [];
      received, outcomes, phase := [], [], Idle;
    }

    /** Tells the sender, if one is waiting. */
    method Deliver(input: Input, ok: bool)
      modifies this`answers
      ensures answers == old(answers) + Reply(input, ok)
      ensures input.handle.Some? ==> answers == old(answers) + [Answer(input.handle.value, ok)]
      ensures input.handle.None? ==> answers == old(answers)
    {
      if input.handle.Some? {
        answers := answers + [Answer(input.handle.value, ok)];
      }
    }

    /** Starts the harness for `pending`; anything that fails refuses the input. */
    method BeginTurn(pending: Input) returns (running: bool)
      requires OnTrack() && at < |steps| && phase == Starting(pending)
      modifies this`at, this`answers, this`sent, this`outcomes, this`phase
      ensures OnTrack() && at == old(at) + 1
      ensures running <==> steps[old(at)] == Begin(Started)
      ensures phase == if running then Running(pending) else Idle
      ensures sent == old(sent) + if running then [pending.text] else []
      ensures pending.handle.Some? ==> answers == old(answers) + [Answer(pending.handle.value, running)]
      ensures pending.handle.None? ==> answers == old(answers)
    {
      assert Enabled(trace[at], steps[at]);
      match steps[at] {
        case Begin(setup) =>
          at := at + 1;
          if setup.BadOptions? || setup.LaunchFailed? || setup.WrongConversation? || setup.SendFailed? {
            Deliver(pending, false);
            outcomes, phase := outcomes + [Refused(setup)], Idle;
            return false;
          }
          sent := sent + [pending.text];
          Deliver(pending, true);
          outcomes, phase := outcomes + [Delivered], Running(pending);
          return true;
        case _ =>
          assert false;
      }
    }

    method RunTurn(pending: Input) returns (result: TurnResult)
      requires OnTrack() && phase == Starting(pending)
      requires turnQueue == []
      modifies this
      ensures OnTrack() && at >= old(at)
      ensures result.Complete? ==> phase.Idle? && at > old(at)
      ensures result.Shut? || result.Closed? ==> phase.Stopped?
      ensures result.Suspended? ==> at == |steps|
    {
      if at == |steps| {
        return Suspended;
      }
      var running := BeginTurn(pending);
      if !running {
        return Complete;
      }
      while at < |steps|
        invariant OnTrack() && at > old(at) && phase == Running(pending)
      {
        assert Enabled(trace[at], steps[at]);
        assert trace[at + 1] == Next(trace[at], steps[at]);
        var step := steps[at];
        at := at + 1;
        match step {
          case Receive(input) =>
            turnQueue := turnQueue + [input];
            received := received + [input];
          case Ignore =>
          case Shutdown =>
            phase := Stopped;
            return Shut;
          case Close =>
            phase := Stopped;
            return Closed;
          case Harness(ends) =>
            if ends {
              AppendAfterExisting();
              phase := Idle;
              return Complete;
            }
          case _ =>
            assert false;
        }
      }
      return Suspended;
    }

    /** What arrived during the turn goes behind what was waiting before it. */
    method AppendAfterExisting()
      modifies this`queued, this`turnQueue
      ensures queued == old(queued) + old(turnQueue) && turnQueue == []
    {
      queued := queued + turnQueue;
      turnQueue := [];
    }

    /** The oldest queued input, or else the next command; none if that is not an input. */
    method TakeNext() returns (pending: Option<Input>, stop: bool)
      requires OnTrack() && phase.Idle? && at < |steps|
      modifies this`at, this`queued, this`received, this`phase
      ensures at == old(at) + 1 && IsRun(trace, steps)
      ensures pending.Some? ==> phase.Idle? && trace[at] == Take(Now(), pending.value)
      ensures pending.Some? ==> !stop
      ensures pending.None? ==> OnTrack() && (if stop then phase.Stopped? else phase.Idle?)
    {
      assert Enabled(trace[at], steps[at]) && trace[at + 1] == Next(trace[at], steps[at]);
      var step := steps[at];
      at := at + 1;
      stop := false;
      if queued != [] {
        pending := Some(queued[0]);
        queued := queued[1..];
        return;
      }
      match step {
        case Receive(input) =>
          received := received + [input];
          pending := Some(input);
        case Ignore =>
          pending := None;
        case Shutdown =>
          phase := Stopped;
          pending, stop := None, true;
        case Close =>
          phase := Stopped;
          pending, stop := None, true;
        case _ =>
          assert false;
      }
    }

    /** The task's loop, to the end of what happens. */
    method IoTask()
      requires OnTrack() && at == 0
      modifies this
      ensures OnTrack() && at == |steps|
    {
      while at < |steps|
        invariant OnTrack() && phase.Idle?
      {
        RunInv(trace, steps, at);
        NoTurnNoTurnQueue(Now());
        var next, stop := TakeNext();
        if stop {
          break;
        }
        if next.None? {
          continue;
        }
        var pending := next.value;
        if pending.text == "" {
          Deliver(pending, true);
          outcomes := outcomes + [Skipped];
          continue;
        }
        phase := Starting(pending);
        var result := RunTurn(pending);
        if result.Suspended? {
          return;
        }
        if !result.Complete? {
          break;
        }
      }
      if at < |steps| {
        StoppedIsLast(trace, steps, at);
      }
    }
  }

  /** A stopped task takes no further step. */
  lemma StoppedIsLast(trace: seq<State>, steps: seq<Step>, i: nat)
    requires IsRun(trace, steps) && i <= |steps| && trace[i].phase.Stopped?
    ensures i == |steps|
  {
  }

  lemma NoTurnNoTurnQueue(s: State)
    requires Inv(s) && s.phase.Idle?
    ensures s.inTurn == []
  {
  }
}
