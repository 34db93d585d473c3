/** Context occupancy: which assistant frame's usage snapshot stands for the conversation. */
module ContextAnchor {
  import opened Wrappers
  import opened ClaudeFrames

  const SYNTHETIC_MODEL := "<synthetic>"

  const SYNTHETIC_ASSISTANT_TEXTS := [
    "[Request interrupted by user]",
    "[Request interrupted by user for tool use]",
    "No response requested.",
    "The user doesn't want to take this action right now.",
    "The user doesn't want to proceed with this tool use."]

  function ContextSnapshotTokens(u: Usage): nat {
    u.input + u.cacheCreation + u.cacheRead
  }

  /** Not the synthetic model, and not opening with a text the CLI injects. */
  predicate CanAnchorContext(m: Message) {
    m.model != SYNTHETIC_MODEL
    && !(m.content != [] && m.content[0].Text?
         && exists i :: 0 <= i < |SYNTHETIC_ASSISTANT_TEXTS| && SYNTHETIC_ASSISTANT_TEXTS[i] <= m.content[0].text)
  }

  /** The frames that may anchor, in order. */
  function Candidates(frames: seq<Message>, n: nat): seq<Message>
    requires n <= |frames|
  {
    if n == 0 then []
    else
      Candidates(frames, n - 1)
      + if frames[n - 1].usage.Some? && CanAnchorContext(frames[n - 1]) then [frames[n - 1]] else []
  }

  /** k starts the last run of equal message ids. */
  ghost predicate StartsLastGroup(c: seq<Message>, k: nat) {
    && k < |c| && (k == 0 || c[k - 1].id != c[k].id)
    && (forall j :: k <= j < |c| ==> c[j].id == c[k].id)
  }

  function LastGroupStart(c: seq<Message>): (k: nat)
    requires c != []
    ensures StartsLastGroup(c, k)
  {
    var n := |c| - 1;
    if n == 0 || c[n - 1].id != c[n].id then n
    else
      assert forall j :: 0 <= j < n ==> c[..n][j] == c[j];
      LastGroupStart(c[..n])
  }

  /** What the gauge should show: the snapshot of the first frame of the last group of equal ids,
      counting only frames that may anchor. */
  function Anchor(c: seq<Message>): Option<nat>
    requires forall i :: 0 <= i < |c| ==> c[i].usage.Some?
  {
    if c == [] then None else Some(ContextSnapshotTokens(c[LastGroupStart(c)].usage.value))
  }

  lemma {:induction false} CandidatesHaveUsage(frames: seq<Message>, n: nat)
    requires n <= |frames|
    ensures forall i :: 0 <= i < |Candidates(frames, n)| ==> Candidates(frames, n)[i].usage.Some?
  {
    if n > 0 { CandidatesHaveUsage(frames, n - 1); }
  }

  lemma AnchorOnOneMore(c: seq<Message>, m: Message)
    requires forall i :: 0 <= i < |c| ==> c[i].usage.Some?
    requires m.usage.Some?
    ensures Anchor(c + [m]) ==
            if c != [] && c[|c| - 1].id == m.id then Anchor(c) else Some(ContextSnapshotTokens(m.usage.value))
  {
  }

  // ---------------------------------------------------------------- told of the frames themselves

  /** A frame with usage, not of the synthetic model and not opening with a text the CLI injects. */
  predicate MayAnchor(m: Message) {
    && m.usage.Some? && m.model != "<synthetic>"
    && (m.content != [] && m.content[0].Text? ==>
          var text := m.content[0].text;
          && !("[Request interrupted by user]" <= text)
          && !("[Request interrupted by user for tool use]" <= text)
          && !("No response requested." <= text)
          && !("The user doesn't want to take this action right now." <= text)
          && !("The user doesn't want to proceed with this tool use." <= text))
  }

  lemma MayAnchorExactly(m: Message)
    ensures MayAnchor(m) <==> m.usage.Some? && CanAnchorContext(m)
  {
    if m.content != [] && m.content[0].Text? {
      var text, s := m.content[0].text, SYNTHETIC_ASSISTANT_TEXTS;
      assert (exists i :: 0 <= i < |s| && s[i] <= text) <==>
             s[0] <= text || s[1] <= text || s[2] <= text || s[3] <= text || s[4] <= text;
    }
  }

  /** Frame k is the first of the last group of equal ids, of those that may anchor. */
  ghost predicate AnchorsAt(frames: seq<Message>, n: nat, k: nat)
    requires n <= |frames|
  {
    && k < n && MayAnchor(frames[k])
    && (forall j :: k < j < n && MayAnchor(frames[j]) ==> frames[j].id == frames[k].id)
    && (forall j :: 0 <= j < k && MayAnchor(frames[j]) && (forall m :: j < m < k ==> !MayAnchor(frames[m])) ==>
          frames[j].id != frames[k].id)
  }

  lemma AnchorMore(frames: seq<Message>, n: nat, k: nat)
    requires n < |frames| && AnchorsAt(frames, n, k)
    ensures
      if MayAnchor(frames[n]) && frames[n].id != frames[k].id then AnchorsAt(frames, n + 1, n)
      else AnchorsAt(frames, n + 1, k)
  {
    hide MayAnchor;
    assert MayAnchor(frames[k]);
  }

  /** What the fold has found among the first n frames. */
  ghost predicate Found(frames: seq<Message>, n: nat, k: nat, anchorId: Option<string>, tokens: Option<nat>)
    requires n <= |frames|
  {
    && AnchorsAt(frames, n, k) && anchorId == Some(frames[k].id)
    && frames[k].usage.Some?
    && var usage := frames[k].usage.value;
       tokens == Some(usage.input + usage.cacheCreation + usage.cacheRead)
  }

  lemma FirstFound(frames: seq<Message>, n: nat)
    requires n < |frames| && (forall j :: 0 <= j < n ==> !MayAnchor(frames[j])) && MayAnchor(frames[n])
    ensures Found(frames, n + 1, n, Some(frames[n].id), Some(ContextSnapshotTokens(frames[n].usage.value)))
  {
    hide MayAnchor;
    MayAnchorExactly(frames[n]);
  }

  lemma FoundIt(frames: seq<Message>, n: nat, k: nat, anchorId: Option<string>, tokens: Option<nat>)
    requires n <= |frames| && Found(frames, n, k, anchorId, tokens)
    ensures k < n && AnchorsAt(frames, n, k) && MayAnchor(frames[k])
  {
    hide MayAnchor;
  }

  lemma FoundMore(frames: seq<Message>, n: nat, k: nat, anchorId: Option<string>, tokens: Option<nat>)
    requires n < |frames| && Found(frames, n, k, anchorId, tokens)
    ensures
      if MayAnchor(frames[n]) && Some(frames[n].id) != anchorId then
        Found(frames, n + 1, n, Some(frames[n].id), Some(ContextSnapshotTokens(frames[n].usage.value)))
      else Found(frames, n + 1, k, anchorId, tokens)
  {
    hide MayAnchor, AnchorsAt;
    MayAnchorExactly(frames[n]);
    AnchorMore(frames, n, k);
  }

  /** There is only one such frame. */
  lemma AnchorUnique(frames: seq<Message>, n: nat, a: nat, b: nat)
    requires n <= |frames| && AnchorsAt(frames, n, a) && AnchorsAt(frames, n, b)
    ensures a == b
  {
    hide AnchorsAt;
    if a != b {
      NotEarlier(frames, n, a, b);
      NotEarlier(frames, n, b, a);
    }
  }

  lemma NotEarlier(frames: seq<Message>, n: nat, a: nat, b: nat)
    requires n <= |frames| && AnchorsAt(frames, n, a) && AnchorsAt(frames, n, b)
    ensures a >= b
  {
    hide MayAnchor;
    if a < b {
      var j := NearestBefore(frames, a, b);
    }
  }

  lemma {:induction false} NearestBefore(frames: seq<Message>, a: nat, b: nat) returns (j: nat)
    requires a < b < |frames| && MayAnchor(frames[a])
    ensures a <= j < b && MayAnchor(frames[j]) && forall m :: j < m < b ==> !MayAnchor(frames[m])
    decreases b
  {
    hide MayAnchor;
    if a == b - 1 || MayAnchor(frames[b - 1]) {
      j := b - 1;
    } else {
      j := NearestBefore(frames, a, b - 1);
    }
  }

  /** The fold over assistant frames: streamed continuations of a message do not re-anchor, and a
      later message always does, even with an id seen before. */
  method AnchorContext(frames: seq<Message>) returns (tokens: Option<nat>)
    ensures forall i :: 0 <= i < |Candidates(frames, |frames|)| ==> Candidates(frames, |frames|)[i].usage.Some?
    ensures tokens == Anchor(Candidates(frames, |frames|))
    ensures tokens.None? <==> forall k :: 0 <= k < |frames| ==> !MayAnchor(frames[k])
    ensures tokens.Some? ==>
      exists k :: 0 <= k < |frames| && AnchorsAt(frames, |frames|, k)
        && var usage := frames[k].usage.value;
           tokens.value == usage.input + usage.cacheCreation + usage.cacheRead
  {
    hide CanAnchorContext, MayAnchor, AnchorsAt, StartsLastGroup;
    ghost var at: nat := 0;
    var anchorId: Option<string> := None;
    tokens := None;
    CandidatesHaveUsage(frames, 0);
    for i := 0 to |frames|
      invariant var c := Candidates(frames, i);
                && (forall j :: 0 <= j < |c| ==> c[j].usage.Some?)
                && tokens == Anchor(c)
                && anchorId == (if c == [] then None else Some(c[|c| - 1].id))
      invariant tokens.None? <==> anchorId.None?
      invariant tokens.None? ==> forall k :: 0 <= k < i ==> !MayAnchor(frames[k])
      invariant tokens.Some? ==> Found(frames, i, at, anchorId, tokens)
    {
      MayAnchorExactly(frames[i]);
      if tokens.Some? {
        FoundMore(frames, i, at, anchorId, tokens);
      } else if MayAnchor(frames[i]) {
        FirstFound(frames, i);
      }
      CandidatesHaveUsage(frames, i + 1);
      assert Candidates(frames, i) + [] == Candidates(frames, i);
      if frames[i].usage.Some? {
        AnchorOnOneMore(Candidates(frames, i), frames[i]);
        var sameGroup := anchorId == Some(frames[i].id);
        if !sameGroup && CanAnchorContext(frames[i]) {
          at := i;
          anchorId := Some(frames[i].id);
          tokens := Some(ContextSnapshotTokens(frames[i].usage.value));
        }
      }
    }
    if tokens.Some? {
      FoundIt(frames, |frames|, at, anchorId, tokens);
    }
  }
}
