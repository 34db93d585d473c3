/** Suppressing the CLI's echoes of what was written to its stdin, with one queue of markers. */
module ClaudeEchoes {
  import opened Wrappers
  import opened ClaudeFrames

  /** `echo` says whether the frame is in fact the CLI's echo of a prompt: known to the CLI, not
      to the code. */
  datatype Event = Sent(text: string) | Frame(out: Output, echo: bool) | TurnEnd

  datatype Verdict = Pass | DropHidden | DropMarked

  type Markers = seq<string>

  /** What the filter does to a frame: hidden echoes go without a marker, any other plain user
      frame takes the oldest marker if there is one. */
  function Judge(markers: Markers, out: Output): (Markers, Verdict) {
    match PlainUserEchoText(out)
    case None => (markers, Pass)
    case Some(text) =>
      if IsHidden(text) then (markers, DropHidden)
      else if markers != [] then (markers[1..], DropMarked)
      else (markers, Pass)
  }

  function Next(markers: Markers, e: Event): Markers {
    match e
    case Sent(text) => markers + [text]
    case Frame(out, _) => Judge(markers, out).0
    case TurnEnd => []
  }

  ghost predicate IsRun(trace: seq<Markers>, events: seq<Event>) {
    && |trace| == |events| + 1 && trace[0] == []
    && (forall i :: 0 <= i < |events| ==> trace[i + 1] == Next(trace[i], events[i]))
  }

  /** A plain user frame with something to show. */
  predicate ShowsText(e: Event) {
    e.Frame? && PlainUserEchoText(e.out).Some? && !IsHidden(PlainUserEchoText(e.out).value)
  }

  // ---------------------------------------------------------------- the ideal bookkeeping

  /** Visible prompts of this turn whose echo is still to come, oldest first. */
  function Outstanding(events: seq<Event>, n: nat): seq<string>
    requires n <= |events|
  {
    if n == 0 then []
    else
      var before := Outstanding(events, n - 1);
      match events[n - 1]
      case Sent(text) => if IsHidden(text) then before else before + [text]
      case TurnEnd => []
      case Frame(_, echo) => if echo && ShowsText(events[n - 1]) && before != [] then before[1..] else before
  }

  /** Hidden prompts sent in this turn. */
  function HiddenSends(events: seq<Event>, n: nat): nat
    requires n <= |events|
  {
    if n == 0 then 0
    else
      match events[n - 1]
      case Sent(text) => HiddenSends(events, n - 1) + if IsHidden(text) then 1 else 0
      case TurnEnd => 0
      case Frame(_, _) => HiddenSends(events, n - 1)
  }

  /** The CLI echoes prompts in order, each at most once and only within its turn. */
  ghost predicate EchoesInOrder(events: seq<Event>) {
    forall i :: 0 <= i < |events| && ShowsText(events[i]) && events[i].echo ==>
      Outstanding(events, i) != [] && PlainUserEchoText(events[i].out) == Some(Outstanding(events, i)[0])
  }

  /** The filter got frame i right: an echo is dropped and anything else shown. */
  ghost predicate Right(trace: seq<Markers>, events: seq<Event>, i: nat)
    requires IsRun(trace, events) && i < |events|
  {
    ShowsText(events[i]) ==> (events[i].echo <==> Judge(trace[i], events[i].out).1 == DropMarked)
  }

  lemma {:induction false} QueueLength(trace: seq<Markers>, events: seq<Event>, n: nat)
    requires IsRun(trace, events) && EchoesInOrder(events) && n <= |events|
    requires forall i :: 0 <= i < n ==> Right(trace, events, i)
    ensures |trace[n]| == |Outstanding(events, n)| + HiddenSends(events, n)
  {
    if n == 0 {
    } else {
      QueueLength(trace, events, n - 1);
      assert Right(trace, events, n - 1);
    }
  }

  /** Echo suppression is exact, over a whole run, exactly when every genuine plain user frame
      arrives with no echo outstanding and no hidden prompt sent in its turn. A hidden prompt's
      marker is never taken by its own echo, so it swallows the next genuine frame. */
  lemma SuppressionIsExact(trace: seq<Markers>, events: seq<Event>)
    requires IsRun(trace, events) && EchoesInOrder(events)
    ensures (forall i :: 0 <= i < |events| ==> Right(trace, events, i)) <==>
            (forall i :: 0 <= i < |events| && ShowsText(events[i]) && !events[i].echo ==>
               Outstanding(events, i) == [] && HiddenSends(events, i) == 0)
  {
    if forall i :: 0 <= i < |events| ==> Right(trace, events, i) {
      forall i | 0 <= i < |events| && ShowsText(events[i]) && !events[i].echo
        ensures Outstanding(events, i) == [] && HiddenSends(events, i) == 0
      {
        QueueLength(trace, events, i);
        assert Right(trace, events, i);
      }
    }
    if forall i :: 0 <= i < |events| && ShowsText(events[i]) && !events[i].echo ==>
         Outstanding(events, i) == [] && HiddenSends(events, i) == 0 {
      AllRight(trace, events, |events|);
    }
  }

  lemma {:induction false} AllRight(trace: seq<Markers>, events: seq<Event>, n: nat)
    requires IsRun(trace, events) && EchoesInOrder(events) && n <= |events|
    requires forall i :: 0 <= i < n && ShowsText(events[i]) && !events[i].echo ==>
               Outstanding(events, i) == [] && HiddenSends(events, i) == 0
    ensures forall i :: 0 <= i < n ==> Right(trace, events, i)
  {
    if n == 0 {
    } else {
      AllRight(trace, events, n - 1);
      QueueLength(trace, events, n - 1);
    }
  }

  /** With visible prompts only, the queue is the outstanding prompts themselves: each echo meets
      its own text, so no mismatch is ever logged, and a turn whose echoes all came leaves
      nothing stale to clear. */
  lemma {:induction false} MarkersAreOutstanding(trace: seq<Markers>, events: seq<Event>, n: nat)
    requires IsRun(trace, events) && EchoesInOrder(events) && n <= |events|
    requires forall i :: 0 <= i < n ==> Right(trace, events, i) && (events[i].Sent? ==> !IsHidden(events[i].text))
    ensures trace[n] == Outstanding(events, n)
  {
    if n == 0 {
    } else {
      MarkersAreOutstanding(trace, events, n - 1);
      assert Right(trace, events, n - 1);
    }
  }

  // ---------------------------------------------------------------- any run at all

  function Sends(events: seq<Event>, n: nat): nat
    requires n <= |events|
  {
    if n == 0 then 0 else Sends(events, n - 1) + if events[n - 1].Sent? then 1 else 0
  }

  function MarkedDrops(trace: seq<Markers>, events: seq<Event>, n: nat): nat
    requires n <= |events| <= |trace|
  {
    if n == 0 then 0
    else MarkedDrops(trace, events, n - 1)
         + if events[n - 1].Frame? && Judge(trace[n - 1], events[n - 1].out).1 == DropMarked then 1 else 0
  }

  /** Whatever the CLI does, frames dropped by a marker never outnumber the prompts sent. */
  lemma {:induction false} DropsAreBounded(trace: seq<Markers>, events: seq<Event>, n: nat)
    requires IsRun(trace, events) && n <= |events|
    ensures MarkedDrops(trace, events, n) + |trace[n]| <= Sends(events, n)
  {
    if n == 0 {
    } else {
      DropsAreBounded(trace, events, n - 1);
    }
  }

  /** A blank prompt, echoed blank, and then a genuine user frame: the frame is swallowed. */
  lemma BlankPromptSwallowsAFrame(trace: seq<Markers>, text: string)
    requires !IsHidden(text)
    requires IsRun(trace, [Sent(""), Frame(User(false, [Text("")]), true), Frame(User(false, [Text(text)]), false)])
    ensures Judge(trace[2], User(false, [Text(text)])).1 == DropMarked
  {
    var events := [Sent(""), Frame(User(false, [Text("")]), true), Frame(User(false, [Text(text)]), false)];
    assert trace[1] == Next(trace[0], events[0]);
    assert trace[2] == Next(trace[1], events[1]);
    assert IsHidden("");
  }
}
