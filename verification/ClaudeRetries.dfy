/** Retrying a turn that the upstream API rate-limited: a budget of attempts, a growing backoff
    window, and latches that belong to one turn. */
module ClaudeRetries {
  import opened Wrappers

  const MAX_RATE_LIMIT_RETRIES: nat := 30
  const RATE_LIMIT_BACKOFF_CAP_SECS: nat := 60
  const U64_MAX: nat := 0xFFFF_FFFF_FFFF_FFFF

  /** The retry fields of the driver state, and the input that a running backoff will send again. */
  datatype State = State(
    lastInput: Option<string>,
    attempts: nat,
    limited: bool,
    sessionLimit: Option<string>,
    waiting: Option<string>)

  /** What the driver loop can see next. Texts is any frame short of a result: whether it showed
      the rate-limit text, and the reset time of a usage-limit banner in it. Frames are not read
      during a backoff. */
  datatype Event =
    | UserInput(text: string, sent: bool)
    | OtherCommand
    | Interrupt
    | Texts(limited: bool, banner: Option<string>)
    | Result(isError: bool)
    | Elapsed(sent: bool)

  datatype Effect =
    | Nothing
    | Backoff(input: string, window: nat, attempt: nat)
    | GiveUp(attempts: nat)
    | Resend(input: string)

  /** `2u64.saturating_pow(n)`. */
  function SaturatingPow2(n: nat): nat {
    if n == 0 then 1
    else
      var half := SaturatingPow2(n - 1);
      if 2 * half > U64_MAX then U64_MAX else 2 * half
  }

  function Window(attempt: nat): nat {
    var p := SaturatingPow2(attempt);
    if p < RATE_LIMIT_BACKOFF_CAP_SECS then p else RATE_LIMIT_BACKOFF_CAP_SECS
  }

  function Reset(s: State): State {
    s.(attempts := 0, limited := false, sessionLimit := None)
  }

  /** The decision at a rate-limited turn's error result. */
  function OnLimited(s: State): (State, Effect) {
    var t := s.(limited := false);
    if s.lastInput.None? then (t, Nothing)
    else if s.attempts >= MAX_RATE_LIMIT_RETRIES then (t.(attempts := 0), GiveUp(s.attempts))
    else
      (t.(attempts := s.attempts + 1, waiting := s.lastInput),
       Backoff(s.lastInput.value, Window(s.attempts + 1), s.attempts + 1))
  }

  predicate Enabled(s: State, e: Event) {
    match e
    case Elapsed(_) => s.waiting.Some?
    case UserInput(_, _) => true
    case OtherCommand => true
    case Interrupt => true
    case _ => s.waiting.None?
  }

  function Next(s: State, e: Event): (State, Effect) {
    match e
    case UserInput(text, sent) =>
      (Reset(s).(waiting := None, lastInput := if sent then Some(text) else s.lastInput), Nothing)
    case OtherCommand => (s.(waiting := None), Nothing)
    case Interrupt => (if s.waiting.Some? then Reset(s).(waiting := None) else s, Nothing)
    case Texts(limited, banner) =>
      (s.(limited := s.limited || limited, sessionLimit := if banner.Some? then banner else s.sessionLimit), Nothing)
    case Result(isError) =>
      if !isError then (Reset(s), Nothing)
      else
        var t := s.(sessionLimit := None);
        if s.limited then OnLimited(t) else (t, Nothing)
    case Elapsed(_) =>
      (s.(waiting := None), if s.waiting.Some? then Resend(s.waiting.value) else Nothing)
  }

  const START := State(None, 0, false, None, None)

  ghost predicate IsRun(trace: seq<State>, events: seq<Event>) {
    && |trace| == |events| + 1 && trace[0] == START
    && (forall i :: 0 <= i < |events| ==> Enabled(trace[i], events[i]) && trace[i + 1] == Next(trace[i], events[i]).0)
  }

  // ---------------------------------------------------------------- what a run has seen

  /** The last user input that was sent successfully. */
  function LastSent(events: seq<Event>, n: nat): Option<string>
    requires n <= |events|
  {
    if n == 0 then None
    else if events[n - 1].UserInput? && events[n - 1].sent then Some(events[n - 1].text)
    else LastSent(events, n - 1)
  }

  /** Fresh input, a successful turn, an interrupt during a backoff and a give-up restart the budget. */
  predicate Restarts(s: State, e: Event) {
    || e.UserInput? || e == Result(false) || (e.Interrupt? && s.waiting.Some?) || Next(s, e).1.GiveUp?
  }

  function BackoffsSince(trace: seq<State>, events: seq<Event>, n: nat): nat
    requires n <= |events| <= |trace|
  {
    if n == 0 || Restarts(trace[n - 1], events[n - 1]) then 0
    else BackoffsSince(trace, events, n - 1) + if Next(trace[n - 1], events[n - 1]).1.Backoff? then 1 else 0
  }

  function ResendsSince(trace: seq<State>, events: seq<Event>, n: nat): nat
    requires n <= |events| <= |trace|
  {
    if n == 0 || Restarts(trace[n - 1], events[n - 1]) then 0
    else ResendsSince(trace, events, n - 1) + if Next(trace[n - 1], events[n - 1]).1.Resend? then 1 else 0
  }

  /** A rate-limit text came in the current turn. */
  predicate LimitedThisTurn(trace: seq<State>, events: seq<Event>, n: nat)
    requires n <= |events| <= |trace|
  {
    n > 0 && !events[n - 1].UserInput? && !events[n - 1].Result?
    && !(events[n - 1].Interrupt? && trace[n - 1].waiting.Some?)
    && ((events[n - 1].Texts? && events[n - 1].limited) || LimitedThisTurn(trace, events, n - 1))
  }

  // ---------------------------------------------------------------- results

  /** The attempt counter is the number of backoffs since the last restart and never passes 30;
      re-sends since then never outnumber backoffs; whatever waits is the last input sent; the
      rate-limit latch is exactly "this turn showed the text", so it never leaks into a later turn. */
  lemma {:induction false} RetryState(trace: seq<State>, events: seq<Event>, n: nat)
    requires IsRun(trace, events) && n <= |events|
    ensures trace[n].attempts == BackoffsSince(trace, events, n) <= MAX_RATE_LIMIT_RETRIES
    ensures
      var due := if trace[n].waiting.Some? then 1 else 0;
      ResendsSince(trace, events, n) + due <= BackoffsSince(trace, events, n)
    ensures trace[n].lastInput == LastSent(events, n)
    ensures trace[n].waiting.Some? ==> trace[n].waiting == LastSent(events, n)
    ensures trace[n].limited == LimitedThisTurn(trace, events, n)
  {
    if n == 0 {
    } else {
      RetryState(trace, events, n - 1);
      assert Enabled(trace[n - 1], events[n - 1]) && trace[n] == Next(trace[n - 1], events[n - 1]).0;
    }
  }

  /** What happens at the error result of a turn, read off the history alone: a turn without the
      rate-limit text changes nothing; with it, the last input sent is scheduled again after each
      of thirty such turns, and the next one gives up, once, and restarts the budget. */
  lemma ErrorResult(trace: seq<State>, events: seq<Event>, n: nat)
    requires IsRun(trace, events) && n < |events| && events[n] == Result(true)
    ensures var effect, used := Next(trace[n], events[n]).1, BackoffsSince(trace, events, n);
            effect ==
              if !LimitedThisTurn(trace, events, n) || LastSent(events, n).None? then Nothing
              else if used < MAX_RATE_LIMIT_RETRIES then Backoff(LastSent(events, n).value, Window(used + 1), used + 1)
              else GiveUp(MAX_RATE_LIMIT_RETRIES)
    ensures Next(trace[n], events[n]).1.GiveUp? ==> BackoffsSince(trace, events, n + 1) == 0
  {
    RetryState(trace, events, n);
  }

  /** Every re-send repeats the last input that was sent successfully, and at most thirty happen
      between two restarts of the budget. */
  lemma ResendsRepeatLastInput(trace: seq<State>, events: seq<Event>, n: nat)
    requires IsRun(trace, events) && n < |events| && Next(trace[n], events[n]).1.Resend?
    ensures Some(Next(trace[n], events[n]).1.input) == LastSent(events, n)
    ensures ResendsSince(trace, events, n + 1) <= MAX_RATE_LIMIT_RETRIES
  {
    RetryState(trace, events, n);
    RetryState(trace, events, n + 1);
  }

  function Pow2(n: nat): nat {
    if n == 0 then 1 else 2 * Pow2(n - 1)
  }

  lemma {:induction false} Pow2Grows(m: nat, n: nat)
    requires m <= n
    ensures Pow2(m) <= Pow2(n) && Pow2(n) > 0
    decreases n
  {
    if m < n { Pow2Grows(m, n - 1); } else if n > 0 { Pow2Grows(m - 1, n - 1); }
  }

  lemma {:induction false} NoSaturation(n: nat)
    requires n <= MAX_RATE_LIMIT_RETRIES
    ensures SaturatingPow2(n) == Pow2(n) <= U64_MAX
  {
    assert Pow2(6) == 64;
    assert Pow2(12) == 0x1000;
    assert Pow2(18) == 0x4_0000;
    assert Pow2(24) == 0x100_0000;
    assert Pow2(30) == 0x4000_0000;
    Pow2Grows(n, 30);
    if n > 0 { NoSaturation(n - 1); }
  }

  /** Over the whole budget the window is exactly min(60, 2^attempt): the power never overflows,
      the window never narrows, and it reaches the cap at attempt 6. */
  lemma WindowShape(a: nat, b: nat)
    requires a <= b <= MAX_RATE_LIMIT_RETRIES
    ensures Window(a) == if Pow2(a) < RATE_LIMIT_BACKOFF_CAP_SECS then Pow2(a) else RATE_LIMIT_BACKOFF_CAP_SECS
    ensures Window(a) <= Window(b)
    ensures Window(a) == RATE_LIMIT_BACKOFF_CAP_SECS <==> a >= 6
  {
    NoSaturation(a);
    NoSaturation(b);
    Pow2Grows(a, b);
    assert Pow2(5) == 32 && Pow2(6) == 64;
    if a >= 6 { Pow2Grows(6, a); } else { Pow2Grows(a, 5); }
  }
}
