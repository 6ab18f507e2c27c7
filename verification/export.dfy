/** Plain-text export of a transcript (utils.py, `export_chat_as_text`). */
module Export {
  import opened Transcript
  import PyStr

  /** What an empty transcript exports as. */
  const NO_HISTORY: string := "No chat history to export."

  /** First line of every non-empty export. */
  const TITLE: string := "Professional Life Assistant Chat Export\n"

  /** The rule that closes every message block. */
  const RULE: string := PyStr.Repeat('-', 30) + "\n\n"

  /** The label shown before a message: "You" for the user's messages and
      "Assistant" for every other role. */
  function RoleLabel(role: string): (shown: string)
    ensures shown == "You" <==> role == USER
    ensures shown == "Assistant" <==> role != USER
  {
    if role == USER then "You" else "Assistant"
  }

  /** The export header; `generatedOn` is the clock reading it shows. */
  function Header(generatedOn: string): (head: string)
    ensures |head| == |TITLE| + 14 + |generatedOn| + 53 && head[|head| - 2..] == "\n\n"
    ensures head[..|TITLE|] == TITLE
    ensures head[|TITLE|..|TITLE| + 14] == "Generated on: "
    ensures head[|TITLE| + 14..|TITLE| + 14 + |generatedOn|] == generatedOn
    ensures head[|TITLE| + 14 + |generatedOn|..] == "\n" + PyStr.Repeat('=', 50) + "\n\n"
  {
    TITLE + "Generated on: " + generatedOn + "\n" + PyStr.Repeat('=', 50) + "\n\n"
  }

  /** The numbered, labelled entry for the message numbered `n`: `[n] `,
      the role label and a colon on its own line, then the content and a
      blank line. */
  function Entry(n: nat, m: Message): (entry: string)
    ensures var number := "[" + PyStr.NatToString(n) + "] ";
      |entry| >= |number| && entry[..|number|] == number
    ensures var tail := m.content + "\n\n";
      |entry| >= |tail| && entry[|entry| - |tail|..] == tail
    ensures var number := "[" + PyStr.NatToString(n) + "] ";
      |entry| == |number| + |RoleLabel(m.role)| + 2 + |m.content| + 2 &&
      entry[|number|..|number| + |RoleLabel(m.role)| + 2] == RoleLabel(m.role) + ":\n"
  {
    "[" + PyStr.NatToString(n) + "] " + RoleLabel(m.role) + ":\n" + m.content + "\n\n"
  }

  /** The block for the message numbered `n`: its entry, then the rule. */
  function Block(n: nat, m: Message): (block: string)
    ensures |block| >= |Entry(n, m)| && block[..|Entry(n, m)|] == Entry(n, m)
    ensures |block| >= |RULE| && block[|block| - |RULE|..] == RULE
    ensures |block| == |Entry(n, m)| + |RULE|
  {
    Entry(n, m) + RULE
  }

  /** The blocks of the first `n` messages, numbered from 1, in order. */
  function Blocks(h: Transcript, n: nat): (blocks: string)
    requires n <= |h|
    ensures n == 0 <==> blocks == ""
    ensures n > 0 ==> |blocks| >= |RULE| && blocks[|blocks| - |RULE|..] == RULE
  {
    if n == 0 then "" else Blocks(h, n - 1) + Block(n, h[n - 1])
  }

  /** The whole export of `h`. */
  function ExportText(h: Transcript, generatedOn: string): (text: string)
    ensures h == [] ==> text == NO_HISTORY
    ensures h != [] ==> Header(generatedOn) <= text && |text| > |Header(generatedOn)|
  {
    if h == [] then NO_HISTORY else Header(generatedOn) + Blocks(h, |h|)
  }

  /** `export_chat_as_text`: builds the export by appending to a string, one
      message at a time. The clock reading is passed in. */
  method ExportChatAsText(h: Transcript, generatedOn: string) returns (text: string)
    ensures text == ExportText(h, generatedOn)
  {
    if h == [] {
      return NO_HISTORY;
    }
    text := TITLE;
    text := text + "Generated on: " + generatedOn + "\n";
    text := text + PyStr.Repeat('=', 50) + "\n\n";
    var i := 0;
    while i < |h|
      invariant 0 <= i <= |h|
      invariant text == Header(generatedOn) + Blocks(h, i)
    {
      var role := RoleLabel(h[i].role);
      var entry := "[" + PyStr.NatToString(i + 1) + "] " + role + ":\n" + h[i].content + "\n\n";
      var rule := RULE;
      AppendBlock(Header(generatedOn), h, i);
      AppendTwice(text, entry, rule);
      text := text + entry;
      text := text + rule;
      i := i + 1;
    }
  }

  /** Appending two pieces one after the other appends their concatenation. */
  lemma AppendTwice(text: string, x: string, y: string)
    ensures text + x + y == text + (x + y)
  {
  }

  /** One loop step of the export: appending the entry and the rule of
      message `i + 1` extends the blocks by one. */
  lemma AppendBlock(head: string, h: Transcript, i: nat)
    requires i < |h|
    ensures head + Blocks(h, i + 1) == head + Blocks(h, i) + Block(i + 1, h[i])
  {
    AppendTwice(head, Blocks(h, i), Block(i + 1, h[i]));
  }

  /** The sentinel is produced exactly for the empty transcript. */
  lemma ExportIsSentinelIff(h: Transcript, generatedOn: string)
    ensures ExportText(h, generatedOn) == NO_HISTORY <==> h == []
  {
    if h != [] {
      var head := Header(generatedOn);
      assert head[0] == TITLE[0] == 'P';
      assert ExportText(h, generatedOn)[0] == head[0];
      assert NO_HISTORY[0] == 'N';
    }
  }

  /** Earlier blocks are a prefix of later ones: messages never move. */
  lemma {:induction false} BlocksPrefix(h: Transcript, k: nat, n: nat)
    requires k <= n <= |h|
    ensures Blocks(h, k) <= Blocks(h, n)
    decreases n
  {
    if k < n {
      BlocksPrefix(h, k, n - 1);
      PrefixExtend(Blocks(h, k), Blocks(h, n - 1), Block(n, h[n - 1]));
    }
  }

  /** Message `k` (counting from 1) of a transcript appears in its export as
      the block numbered `k`, right after the blocks of the messages before it. */
  lemma ExportShowsMessage(h: Transcript, generatedOn: string, k: nat)
    requires 1 <= k <= |h|
    ensures Header(generatedOn) + (Blocks(h, k - 1) + Block(k, h[k - 1])) <= ExportText(h, generatedOn)
  {
    BlocksPrefix(h, k, |h|);
    PrefixAfter(Header(generatedOn), Blocks(h, k), Blocks(h, |h|));
  }

  /** A prefix of a text stays a prefix when more is appended to the text. */
  lemma PrefixExtend(a: string, b: string, x: string)
    requires a <= b
    ensures a <= b + x
  {
    assert (b + x)[..|a|] == b[..|a|];
  }

  /** Putting the same text in front keeps a prefix a prefix. */
  lemma PrefixAfter(a: string, x: string, y: string)
    requires x <= y
    ensures a + x <= a + y
  {
    assert a + y == (a + x) + y[|x|..];
  }

  /** The blocks depend only on the messages they show. */
  lemma {:induction false} BlocksOfPrefix(h: Transcript, more: Transcript, n: nat)
    requires n <= |h|
    ensures Blocks(h + more, n) == Blocks(h, n)
  {
    if n > 0 {
      BlocksOfPrefix(h, more, n - 1);
      assert (h + more)[n - 1] == h[n - 1];
    }
  }

  /** Continuing a conversation only appends to its export. */
  lemma ExportExtends(h: Transcript, more: Transcript, generatedOn: string)
    requires h != []
    ensures ExportText(h, generatedOn) <= ExportText(h + more, generatedOn)
  {
    BlocksOfPrefix(h, more, |h|);
    BlocksPrefix(h + more, |h|, |h + more|);
    PrefixAfter(Header(generatedOn), Blocks(h, |h|), Blocks(h + more, |h + more|));
  }

  /** Every block states its number and ends with the rule. */
  lemma BlockShape(n: nat, m: Message)
    ensures var b := Block(n, m);
      b[..|PyStr.NatToString(n)| + 1] == "[" + PyStr.NatToString(n) &&
      |b| >= |RULE| && b[|b| - |RULE|..] == RULE
  {
  }
}
