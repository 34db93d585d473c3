/** The frames that the Claude CLI emits, as far as the I/O task looks into them. */
module ClaudeFrames {
  import opened Wrappers

  datatype Block = Text(text: string) | ToolUse | Structured

  datatype Usage = Usage(input: nat, cacheCreation: nat, cacheRead: nat, output: nat)

  datatype Message = Message(id: string, model: string, usage: Option<Usage>, content: seq<Block>)

  datatype Output =
    | User(hasToolResult: bool, content: seq<Block>)
    | Assistant(message: Message)
    | Result(isError: bool)
    | ControlRequest
    | ToolProgress
    | Status

  /** Unicode White_Space. */
  predicate IsSpace(c: char) {
    var n := c as int;
    9 <= n <= 13 || n == 0x20 || n == 0x85 || n == 0xA0 || n == 0x1680 || 0x2000 <= n <= 0x200A
    || n == 0x2028 || n == 0x2029 || n == 0x202F || n == 0x205F || n == 0x3000
  }

  function TrimStart(s: string): string {
    if s != [] && IsSpace(s[0]) then TrimStart(s[1..]) else s
  }

  /** `!s.trim().is_empty()`. */
  predicate IsNonBlank(s: string) {
    TrimStart(s) != []
  }

  predicate Blank(s: string) {
    forall k :: 0 <= k < |s| ==> IsSpace(s[k])
  }

  /** Trimming takes the leading white space and nothing else. */
  lemma {:induction false} TrimStartExact(s: string) returns (k: nat)
    ensures k <= |s| && TrimStart(s) == s[k..] && Blank(s[..k]) && (k < |s| ==> !IsSpace(s[k]))
  {
    if s == [] || !IsSpace(s[0]) {
      k := 0;
    } else {
      var rest := TrimStartExact(s[1..]);
      k := rest + 1;
      assert s[..k] == [s[0]] + s[1..][..rest] && s[1..][rest..] == s[k..];
    }
  }

  lemma NonBlankExactly(s: string)
    ensures IsNonBlank(s) <==> !Blank(s)
  {
    var k := TrimStartExact(s);
    if k == |s| {
      assert s[..k] == s;
    }
  }

  const SYSTEM_REMINDER := "<system-reminder>"

  predicate IsSystemReminder(s: string) {
    SYSTEM_REMINDER <= TrimStart(s)
  }

  /** The reminder tag opens the text, behind white space at most. */
  lemma SystemReminderExactly(s: string)
    ensures IsSystemReminder(s) <==> exists k :: 0 <= k <= |s| && Blank(s[..k]) && "<system-reminder>" <= s[k..]
  {
    var k := TrimStartExact(s);
    if j :| 0 <= j <= |s| && Blank(s[..j]) && "<system-reminder>" <= s[j..] {
      assert s[j] == s[j..][0] == '<';
      assert j < k ==> s[..k][j] == s[j];
      assert k < j ==> s[..j][k] == s[k];
    }
  }

  /** A prompt or echo that the transcript must never show. */
  predicate IsHidden(s: string) {
    IsSystemReminder(s) || !IsNonBlank(s)
  }

  /** The blocks joined, if there is a block and all are text. */
  function AllText(blocks: seq<Block>): Option<string> {
    if blocks == [] || !blocks[|blocks| - 1].Text? then None
    else if |blocks| == 1 then Some(blocks[0].text)
    else
      match AllText(blocks[..|blocks| - 1])
      case None => None
      case Some(t) => Some(t + blocks[|blocks| - 1].text)
  }

  /** The text joined is that of the blocks, in order and with nothing between. */
  lemma {:induction false} AllTextJoins(a: seq<Block>, b: seq<Block>)
    requires AllText(a).Some? && AllText(b).Some?
    ensures AllText(a + b) == Some(AllText(a).value + AllText(b).value)
    decreases |b|
  {
    var last := b[|b| - 1];
    assert (a + b)[..|a + b| - 1] == a + b[..|b| - 1];
    if |b| == 1 {
      assert a + b[..0] == a;
    } else {
      var front := b[..|b| - 1];
      AllTextJoins(a, front);
      var x, y := AllText(a).value, AllText(front).value;
      assert x + (y + last.text) == (x + y) + last.text;
    }
  }

  lemma AllTextOfOne(block: Block)
    ensures AllText([block]) == if block.Text? then Some(block.text) else None
  {
  }

  function PlainUserEchoText(out: Output): Option<string> {
    if out.User? && !out.hasToolResult then AllText(out.content) else None
  }

  /** The block loop of the echo test: structured frames are real output, not echoes. */
  method JoinBlocks(blocks: seq<Block>) returns (text: Option<string>)
    ensures text == AllText(blocks)
  {
    var joined, sawText := "", false;
    for i := 0 to |blocks|
      invariant sawText <==> i > 0
      invariant i > 0 ==> AllText(blocks[..i]) == Some(joined)
      invariant i == 0 ==> joined == ""
    {
      assert blocks[..i + 1][..i] == blocks[..i];
      if !blocks[i].Text? {
        NotAllText(blocks, i);
        return None;
      }
      assert "" + blocks[i].text == blocks[i].text;
      joined, sawText := joined + blocks[i].text, true;
    }
    assert blocks[..|blocks|] == blocks;
    return if sawText then Some(joined) else None;
  }

  lemma {:induction false} NotAllText(blocks: seq<Block>, i: nat)
    requires i < |blocks| && !blocks[i].Text?
    ensures AllText(blocks) == None
    decreases |blocks|
  {
    if i < |blocks| - 1 {
      NotAllText(blocks[..|blocks| - 1], i);
    }
  }

  /** Joining fails exactly on an empty or partly structured frame. */
  lemma {:induction false} AllTextIffPlain(blocks: seq<Block>)
    ensures AllText(blocks).Some? <==> blocks != [] && forall i :: 0 <= i < |blocks| ==> blocks[i].Text?
    decreases |blocks|
  {
    if |blocks| > 1 {
      AllTextIffPlain(blocks[..|blocks| - 1]);
    }
  }
}
