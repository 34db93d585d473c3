/** What the loop of ClaudeIo does, told from the script of its inputs alone: which prompts it schedules
    again, which limits it announces and which frames it passes on. */
module ClaudeTurns {
  import opened Wrappers
  import opened ClaudeFrames
  import opened ClaudeIo
  import Echoes = ClaudeEchoes
  import Retries = ClaudeRetries

  type Parse = string -> Option<string>

  // ---------------------------------------------------------------- reading the script

  /** Input has been seen: the session was resumed or a prompt has come. */
  ghost predicate Seen(script: seq<Input>, n: nat, resume: bool)
    requires n <= |script|
  {
    resume || exists j :: 0 <= j < n && script[j].UserInput?
  }

  /** What a fresh session may show before its first prompt: nothing that acts and no text. */
  predicate QuietAtStart(out: Output) {
    match out
    case Assistant(m) =>
      forall k :: 0 <= k < |m.content| ==>
        !m.content[k].ToolUse? && (m.content[k].Text? ==> Blank(m.content[k].text))
    case Result(_) => true
    case Status => true
    case _ => false
  }

  ghost predicate LookedAt(script: seq<Input>, i: nat, resume: bool)
    requires i < |script|
  {
    script[i].Frame? && (Seen(script, i, resume) || QuietAtStart(script[i].out))
  }

  predicate IsBanner(block: Block, parse: Parse) {
    block.Text? && parse(block.text).Some?
  }

  /** A text block starts with the rate-limit text, and no banner stands before it. */
  ghost predicate ShowsLimit(content: seq<Block>, parse: Parse) {
    exists k :: 0 <= k < |content| && content[k].Text?
      && "API Error: Server is temporarily limiting requests" <= content[k].text
      && forall j :: 0 <= j < k ==> !IsBanner(content[j], parse)
  }

  /** The reset time of the first banner. */
  ghost predicate ShowsBanner(content: seq<Block>, parse: Parse, reset: string) {
    exists k :: 0 <= k < |content| && IsBanner(content[k], parse) && parse(content[k].text) == Some(reset)
      && forall j :: 0 <= j < k ==> !IsBanner(content[j], parse)
  }

  ghost predicate LimitAt(script: seq<Input>, i: nat, resume: bool, parse: Parse)
    requires i < |script|
  {
    LookedAt(script, i, resume) && script[i].out.Assistant? && ShowsLimit(script[i].out.message.content, parse)
  }

  ghost predicate BannerAt(script: seq<Input>, i: nat, resume: bool, parse: Parse, reset: string)
    requires i < |script|
  {
    LookedAt(script, i, resume) && script[i].out.Assistant? && ShowsBanner(script[i].out.message.content, parse, reset)
  }

  /** A prompt begins a turn and a result ends it. */
  predicate Bounds(e: Input) {
    e.UserInput? || (e.Frame? && e.out.Result?)
  }

  ghost predicate SameTurn(script: seq<Input>, j: nat, n: nat)
    requires n <= |script|
  {
    forall k :: j <= k < n ==> !Bounds(script[k])
  }

  /** The rate-limit text has been shown in the present turn. */
  ghost predicate LimitedTurn(script: seq<Input>, n: nat, resume: bool, parse: Parse)
    requires n <= |script|
  {
    exists j :: 0 <= j < n && LimitAt(script, j, resume, parse) && SameTurn(script, j, n)
  }

  /** The last prompt that was written successfully. */
  function LastPrompt(script: seq<Input>, n: nat): Option<string>
    requires n <= |script|
  {
    if n == 0 then None
    else if script[n - 1].UserInput? && script[n - 1].sent then Some(script[n - 1].text)
    else LastPrompt(script, n - 1)
  }

  /** An error result ends a turn that showed the rate-limit text, with a prompt to send again. */
  ghost predicate LimitedEnd(script: seq<Input>, i: nat, resume: bool, parse: Parse)
    requires i < |script|
  {
    && script[i].Frame? && script[i].out == Result(true)
    && LimitedTurn(script, i, resume, parse) && LastPrompt(script, i).Some?
  }

  /** ... and is scheduled again, as long as fewer than thirty retries were used. */
  ghost predicate Schedules(script: seq<Input>, i: nat, resume: bool, parse: Parse)
    requires i < |script|
    decreases i, 1
  {
    LimitedEnd(script, i, resume, parse) && Used(script, i, resume, parse) < 30
  }

  /** The retries used: since the last prompt, successful result, abandoned backoff or thirty-first
      rate-limited end. */
  ghost function Used(script: seq<Input>, n: nat, resume: bool, parse: Parse): nat
    requires n <= |script|
    decreases n, 0
  {
    if n == 0 then 0
    else
      var before := Used(script, n - 1, resume, parse);
      match script[n - 1]
      case UserInput(_, _) => 0
      case Interrupt => if n > 1 && Schedules(script, n - 2, resume, parse) then 0 else before
      case Frame(out, _) =>
        if out == Result(false) then 0
        else if !LimitedEnd(script, n - 1, resume, parse) then before
        else if before < 30 then before + 1
        else 0
      case _ => before
  }

  // ---------------------------------------------------------------- the loop looks at what it should

  lemma QuietExactly(out: Output)
    ensures ShouldDropFreshStart(out) <==> !QuietAtStart(out)
  {
    if out.Assistant? {
      var content := out.message.content;
      forall k | 0 <= k < |content| && content[k].Text?
        ensures IsNonBlank(content[k].text) <==> !Blank(content[k].text)
      {
        NonBlankExactly(content[k].text);
      }
      if !QuietAtStart(out) {
        var k :| 0 <= k < |content| && !(!content[k].ToolUse? && (content[k].Text? ==> Blank(content[k].text)));
        assert ShowsOrActs(content[k]);
      }
    }
  }

  lemma {:induction false} ScanExactly(content: seq<Block>, parse: Parse)
    ensures ScanTexts(content, parse).0 <==> ShowsLimit(content, parse)
    ensures forall reset :: ScanTexts(content, parse).1 == Some(reset) <==> ShowsBanner(content, parse, reset)
  {
    if content == [] {
    } else {
      ScanExactly(content[1..], parse);
      ScanLimit(content, parse);
      forall reset ensures ScanTexts(content, parse).1 == Some(reset) <==> ShowsBanner(content, parse, reset) {
        ScanBanner(content, parse, reset);
      }
    }
  }

  lemma ScanLimit(content: seq<Block>, parse: Parse)
    requires content != [] && (ScanTexts(content[1..], parse).0 <==> ShowsLimit(content[1..], parse))
    ensures ScanTexts(content, parse).0 <==> ShowsLimit(content, parse)
  {
    var rest := content[1..];
    assert forall k :: 0 <= k < |rest| ==> rest[k] == content[k + 1];
    if ShowsLimit(content, parse) {
      var k :| 0 <= k < |content| && content[k].Text? && RATE_LIMIT_TEXT_PREFIX <= content[k].text
               && forall j :: 0 <= j < k ==> !IsBanner(content[j], parse);
      if k > 0 {
        assert rest[k - 1] == content[k];
        assert ShowsLimit(rest, parse);
      }
    }
    if ShowsLimit(rest, parse) && !IsBanner(content[0], parse) {
      var k :| 0 <= k < |rest| && rest[k].Text? && RATE_LIMIT_TEXT_PREFIX <= rest[k].text
               && forall j :: 0 <= j < k ==> !IsBanner(rest[j], parse);
      assert forall j :: 0 < j < k + 1 ==> content[j] == rest[j - 1];
      assert content[k + 1] == rest[k];
    }
  }

  lemma ScanBanner(content: seq<Block>, parse: Parse, reset: string)
    requires content != []
    requires ScanTexts(content[1..], parse).1 == Some(reset) <==> ShowsBanner(content[1..], parse, reset)
    ensures ScanTexts(content, parse).1 == Some(reset) <==> ShowsBanner(content, parse, reset)
  {
    var rest := content[1..];
    assert forall k :: 0 <= k < |rest| ==> rest[k] == content[k + 1];
    if ShowsBanner(content, parse, reset) && !IsBanner(content[0], parse) {
      var k :| 0 <= k < |content| && IsBanner(content[k], parse) && parse(content[k].text) == Some(reset)
               && forall j :: 0 <= j < k ==> !IsBanner(content[j], parse);
      assert rest[k - 1] == content[k];
      assert ShowsBanner(rest, parse, reset);
    }
    if ShowsBanner(rest, parse, reset) && !IsBanner(content[0], parse) {
      var k :| 0 <= k < |rest| && IsBanner(rest[k], parse) && parse(rest[k].text) == Some(reset)
               && forall j :: 0 <= j < k ==> !IsBanner(rest[j], parse);
      assert forall j :: 0 < j < k + 1 ==> content[j] == rest[j - 1];
      assert content[k + 1] == rest[k];
    }
  }

  // ---------------------------------------------------------------- retries

  lemma SeenMore(script: seq<Input>, n: nat, resume: bool)
    requires n < |script|
    ensures Seen(script, n + 1, resume) <==> Seen(script, n, resume) || script[n].UserInput?
  {
  }

  lemma LimitedMore(script: seq<Input>, n: nat, resume: bool, parse: Parse)
    requires n < |script|
    ensures LimitedTurn(script, n + 1, resume, parse) <==>
            !Bounds(script[n]) && (LimitAt(script, n, resume, parse) || LimitedTurn(script, n, resume, parse))
  {
    hide LimitAt;
    if LimitedTurn(script, n + 1, resume, parse) {
      var j :| 0 <= j < n + 1 && LimitAt(script, j, resume, parse) && SameTurn(script, j, n + 1);
      assert j < n ==> SameTurn(script, j, n);
    }
    if !Bounds(script[n]) && LimitAt(script, n, resume, parse) {
      assert SameTurn(script, n, n + 1);
    }
    if !Bounds(script[n]) && LimitedTurn(script, n, resume, parse) {
      var j :| 0 <= j < n && LimitAt(script, j, resume, parse) && SameTurn(script, j, n);
      assert SameTurn(script, j, n + 1);
    }
  }

  /** The retry machine's state is what the script says. */
  ghost predicate RetryIs(t: Task, script: seq<Input>, n: nat, resume: bool, parse: Parse)
    requires n <= |script|
  {
    && (t.sawUserInput <==> Seen(script, n, resume))
    && t.retry.lastInput == LastPrompt(script, n)
    && t.retry.attempts == Used(script, n, resume, parse) <= 30
    && (t.retry.limited <==> LimitedTurn(script, n, resume, parse))
    && t.retry.waiting ==
         if n > 0 && Schedules(script, n - 1, resume, parse) then LastPrompt(script, n) else None
  }

  /** What the machine is told of a frame. */
  lemma FrameTells(t: Task, script: seq<Input>, n: nat, resume: bool, parse: Parse)
    requires n < |script| && script[n].Frame? && (t.sawUserInput <==> Seen(script, n, resume))
    ensures Looks(t.sawUserInput, script[n].out) <==> LookedAt(script, n, resume)
    ensures
      var e := RetryEvent(t, script[n], parse);
      if script[n].out.Result? then e == Retries.Result(script[n].out.isError)
      else
        && e.Texts? && (e.limited <==> LimitAt(script, n, resume, parse))
        && (forall reset :: e.banner == Some(reset) <==> BannerAt(script, n, resume, parse, reset))
  {
    hide ScanTexts, ShowsLimit, ShowsBanner, Seen;
    QuietExactly(script[n].out);
    if script[n].out.Assistant? {
      ScanExactly(script[n].out.message.content, parse);
    }
  }

  lemma CommandStep(t: Task, script: seq<Input>, n: nat, resume: bool, parse: Parse)
    requires n < |script| && !script[n].Frame? && RetryIs(t, script, n, resume, parse)
    ensures RetryIs(Next(t, script[n], parse), script, n + 1, resume, parse)
  {
    hide LimitedTurn, Seen;
    SeenMore(script, n, resume);
    LimitedMore(script, n, resume, parse);
    if n > 0 && Schedules(script, n - 1, resume, parse) {
      LimitedMore(script, n - 1, resume, parse);
    }
    assert !LimitAt(script, n, resume, parse);
  }

  lemma FrameStep(t: Task, script: seq<Input>, n: nat, resume: bool, parse: Parse)
    requires n < |script| && script[n].Frame? && RetryIs(t, script, n, resume, parse) && t.retry.waiting.None?
    ensures RetryIs(Next(t, script[n], parse), script, n + 1, resume, parse)
  {
    hide LimitedTurn, Seen, LimitAt, BannerAt, LookedAt;
    SeenMore(script, n, resume);
    LimitedMore(script, n, resume, parse);
    FrameTells(t, script, n, resume, parse);
    hide RetryEvent;
  }

  lemma {:induction false} LoopFollowsScript(trace: seq<Task>, script: seq<Input>, resume: bool, parse: Parse, n: nat)
    requires IsRun(trace, script, resume, parse) && n <= |script|
    ensures RetryIs(trace[n], script, n, resume, parse)
  {
    if n == 0 {
    } else {
      hide Next, RetryIs;
      LoopFollowsScript(trace, script, resume, parse, n - 1);
      if script[n - 1].Frame? {
        FrameStep(trace[n - 1], script, n - 1, resume, parse);
      } else {
        CommandStep(trace[n - 1], script, n - 1, resume, parse);
      }
    }
  }

  /** What the loop does at the end of a turn, by the script alone: an error result schedules the last
      prompt again exactly if the rate-limit text was shown in the turn and fewer than thirty retries
      were used, and the thirty-first such end gives up and restarts the budget; a successful result
      schedules nothing and restarts it. Nothing else schedules anything. */
  lemma ResultSchedulesExactly(trace: seq<Task>, script: seq<Input>, resume: bool, parse: Parse, i: nat)
    requires IsRun(trace, script, resume, parse) && i < |script|
    ensures
      var used, limited := Used(script, i, resume, parse), LimitedTurn(script, i, resume, parse);
      var prompt, after := LastPrompt(script, i), trace[i + 1].retry;
      && (script[i].Frame? && script[i].out == Result(true) ==>
            && after.waiting == (if limited && used < 30 then prompt else None)
            && after.attempts == (if !limited || prompt.None? then used else if used < 30 then used + 1 else 0))
      && (script[i].Frame? && script[i].out == Result(false) ==> after.waiting == None && after.attempts == 0)
      && (!(script[i].Frame? && script[i].out.Result?) ==> after.waiting == None)
  {
    LoopFollowsScript(trace, script, resume, parse, i + 1);
    hide LimitedTurn, Seen, IsRun;
  }

  // ---------------------------------------------------------------- announced limits

  /** The last banner shown in the present turn has this reset time. */
  ghost predicate BannerTurn(script: seq<Input>, n: nat, resume: bool, parse: Parse, reset: string)
    requires n <= |script|
  {
    exists j :: 0 <= j < n && LastBanner(script, j, n, resume, parse, reset)
  }

  ghost predicate LastBanner(script: seq<Input>, j: nat, n: nat, resume: bool, parse: Parse, reset: string)
    requires j < n <= |script|
  {
    && BannerAt(script, j, resume, parse, reset) && SameTurn(script, j, n)
    && forall k :: j < k < n ==> NoBannerAt(script, k, resume, parse)
  }

  ghost predicate NoBannerAt(script: seq<Input>, k: nat, resume: bool, parse: Parse)
    requires k < |script|
  {
    forall reset :: !BannerAt(script, k, resume, parse, reset)
  }

  lemma BannerMore(script: seq<Input>, n: nat, resume: bool, parse: Parse, reset: string)
    requires n < |script|
    ensures BannerTurn(script, n + 1, resume, parse, reset) <==>
            && !Bounds(script[n])
            && (BannerAt(script, n, resume, parse, reset)
                || (NoBannerAt(script, n, resume, parse) && BannerTurn(script, n, resume, parse, reset)))
  {
    hide BannerAt, NoBannerAt;
    if BannerTurn(script, n + 1, resume, parse, reset) {
      var j :| 0 <= j < n + 1 && LastBanner(script, j, n + 1, resume, parse, reset);
      assert j < n ==> LastBanner(script, j, n, resume, parse, reset);
    }
    if !Bounds(script[n]) && BannerAt(script, n, resume, parse, reset) {
      assert LastBanner(script, n, n + 1, resume, parse, reset);
    }
    if !Bounds(script[n]) && NoBannerAt(script, n, resume, parse) && BannerTurn(script, n, resume, parse, reset) {
      var j :| 0 <= j < n && LastBanner(script, j, n, resume, parse, reset);
      assert LastBanner(script, j, n + 1, resume, parse, reset);
    }
  }

  lemma OneBannerAt(script: seq<Input>, i: nat, resume: bool, parse: Parse, a: string, b: string)
    requires i < |script| && BannerAt(script, i, resume, parse, a) && BannerAt(script, i, resume, parse, b)
    ensures a == b
  {
  }

  lemma BannerStep(t: Task, script: seq<Input>, n: nat, resume: bool, parse: Parse, reset: string)
    requires n < |script| && Retries.Enabled(t.retry, RetryEvent(t, script[n], parse))
    requires RetryIs(t, script, n, resume, parse)
    requires t.retry.sessionLimit == Some(reset) <==> BannerTurn(script, n, resume, parse, reset)
    ensures Next(t, script[n], parse).retry.sessionLimit == Some(reset) <==>
            BannerTurn(script, n + 1, resume, parse, reset)
  {
    BannerMore(script, n, resume, parse, reset);
    if script[n].Frame? {
      FrameTells(t, script, n, resume, parse);
      hide RetryEvent, BannerAt, BannerTurn, LimitAt, LookedAt, Retries.OnLimited, RetryIs;
    } else {
      CommandShowsNothing(script, n, resume, parse);
      if t.retry.waiting.Some? {
        BannerMore(script, n - 1, resume, parse, reset);
      }
      hide BannerTurn, LimitedTurn, Seen;
    }
  }

  lemma CommandShowsNothing(script: seq<Input>, n: nat, resume: bool, parse: Parse)
    requires n < |script| && !script[n].Frame?
    ensures NoBannerAt(script, n, resume, parse)
  {
  }

  /** The limit noted is always the last banner of the present turn. An error result announces it; the
      result of a turn, good or bad, clears it. */
  lemma {:induction false} LimitNotedExactly(trace: seq<Task>, script: seq<Input>, resume: bool, parse: Parse, n: nat,
                                             reset: string)
    requires IsRun(trace, script, resume, parse) && n <= |script|
    ensures trace[n].retry.sessionLimit == Some(reset) <==> BannerTurn(script, n, resume, parse, reset)
  {
    hide Next, RetryIs, BannerTurn, RetryEvent;
    if n == 0 {
      NoBannerYet(script, resume, parse, reset);
    } else {
      LimitNotedExactly(trace, script, resume, parse, n - 1, reset);
      LoopFollowsScript(trace, script, resume, parse, n - 1);
      BannerStep(trace[n - 1], script, n - 1, resume, parse, reset);
    }
  }

  lemma NoBannerYet(script: seq<Input>, resume: bool, parse: Parse, reset: string)
    ensures !BannerTurn(script, 0, resume, parse, reset)
  {
  }

  // ---------------------------------------------------------------- frames passed on

  /** A user frame that could be an echo: text blocks only, at least one, and no tool result. */
  predicate IsPlain(out: Output) {
    out.User? && !out.hasToolResult && out.content != []
    && forall k :: 0 <= k < |out.content| ==> out.content[k].Text?
  }

  predicate StartsWithReminder(s: string) {
    exists k :: 0 <= k <= |s| && Blank(s[..k]) && "<system-reminder>" <= s[k..]
  }

  lemma PlainExactly(out: Output)
    ensures PlainUserEchoText(out).Some? <==> IsPlain(out)
  {
    if out.User? {
      AllTextIffPlain(out.content);
    }
  }

  /** A frame that cannot be an echo is passed on exactly if the loop looks at it: once input has been
      seen, or if it shows and does nothing. A blank frame and a reminder are never passed on. */
  lemma OtherFramesExactly(trace: seq<Task>, script: seq<Input>, resume: bool, parse: Parse, i: nat)
    requires IsRun(trace, script, resume, parse) && i < |script| && script[i].Frame?
    ensures !IsPlain(script[i].out) ==>
      (PassedOn(trace[i], script[i]) <==> Seen(script, i, resume) || QuietAtStart(script[i].out))
    ensures IsPlain(script[i].out) ==>
      var text := AllText(script[i].out.content);
      text.Some? && (Blank(text.value) || StartsWithReminder(text.value) ==> !PassedOn(trace[i], script[i]))
  {
    LoopFollowsScript(trace, script, resume, parse, i);
    FrameTells(trace[i], script, i, resume, parse);
    PlainExactly(script[i].out);
    if IsPlain(script[i].out) {
      var text := AllText(script[i].out.content).value;
      NonBlankExactly(text);
      SystemReminderExactly(text);
    }
    hide IsRun, Seen, QuietAtStart, RetryEvent, IsPlain, IsSystemReminder, IsNonBlank;
  }

  /** What the echo filter is told, by the script alone: of every prompt as it is written, whether for
      the first time or again, of every frame that the loop looks at, and of the ends of turns. */
  lemma FilterIsTold(trace: seq<Task>, script: seq<Input>, resume: bool, parse: Parse, i: nat)
    requires IsRun(trace, script, resume, parse) && i < |script|
    ensures
      var e := EchoEvents(trace, script)[i];
      match script[i]
      case UserInput(text, true) => e == Echoes.Sent(text)
      case Elapsed(true) => LastPrompt(script, i).Some? && e == Echoes.Sent(LastPrompt(script, i).value)
      case Frame(out, echo) =>
        if !LookedAt(script, i, resume) then e == Echoes.Frame(Status, false)
        else if out.Result? then e == Echoes.TurnEnd
        else e == Echoes.Frame(out, echo)
      case _ => e == Echoes.Frame(Status, false)
  {
    LoopFollowsScript(trace, script, resume, parse, i);
    assert Retries.Enabled(trace[i].retry, RetryEvent(trace[i], script[i], parse));
    if script[i].Frame? {
      FrameTells(trace[i], script, i, resume, parse);
    }
    hide IsRun, Seen, LookedAt, Used, LimitedEnd;
  }
}
