/**
 * The conversation log and reply filter of the `AvaChat` cog
 * (AvaChat/avachat.py): every message not starting with '.' is appended to
 * its author's log, the log is turned into a role-tagged prompt, and the
 * language model's reply is logged and sent unless it says "skip".
 *
 * The JSON file holding the logs is the `chatlogs` field of `ChatRelay`;
 * the reply of the language model is a parameter.
 */
module AvaChat {
  import opened Wrappers

  /** One logged message: the `{name, content, timestamp}` dictionary. */
  datatype LogEntry = LogEntry(name: string, content: string, timestamp: string)

  datatype Role = System | Assistant | User

  /** One element of the prompt: the `{role, content}` dictionary. */
  datatype ChatMessage = ChatMessage(role: Role, content: string)

  /** The author of a message; `id` is the author's id as the decimal string the log is keyed by. */
  datatype Author = Author(id: string, name: string)

  /** An incoming message; `createdAt` is its timestamp in ISO format. */
  datatype Message = Message(author: Author, content: string, createdAt: string)

  /** The logs of all authors, keyed by author id. */
  type ChatLogs = map<string, seq<LogEntry>>

  /** The fixed system message that opens every prompt. */
  const SystemPrompt: string :=
    "Your name is no longer ChatGPT but Ava, you are only to refer to yourself as Ava an Advanced Virtual Assistant. "
    + "Your personality is that of someone who is very reserved and quiet. Pretend you are in a Discord chatroom. "
    + "There are many people in here talking at once. You do not need to respond to everyone. "
    + "If you are called upon like if someone were to ask you a question then you may go ahead and answer them. "
    + "If not then simply respond with skip. DO NOT RESPOND UNLESS YOU ARE REFERRED TO BY NAME. OTHERWISE RESPOND WITH SKIP."

  /** A logged entry in the prompt: the bot's own entries (by name) speak as the assistant. */
  function MessageOf(e: LogEntry, botName: string): (r: ChatMessage)
    ensures r.content == e.content
    ensures r.role == Assistant <==> e.name == botName
    ensures r.role != System
  {
    ChatMessage(if e.name == botName then Assistant else User, e.content)
  }

  /** The append loop over one author's log. */
  function History(log: seq<LogEntry>, botName: string): (r: seq<ChatMessage>)
    ensures |r| == |log|
    ensures forall i :: 0 <= i < |log| ==> r[i] == MessageOf(log[i], botName)
  {
    if |log| == 0 then [] else History(log[..|log| - 1], botName) + [MessageOf(log[|log| - 1], botName)]
  }

  /**
   * `format_conversation`: the system message, then the author's log in
   * order, then the current message as the user's. Looking up an author
   * without a log raises; that is `None` here.
   */
  function FormatConversation(logs: ChatLogs, userId: string, botName: string, current: string): (r: Option<seq<ChatMessage>>)
    ensures r.Some? <==> userId in logs
    ensures r.Some? ==>
              var log := logs[userId];
              && |r.value| == |log| + 2
              && r.value[0] == ChatMessage(System, SystemPrompt)
              && (forall i :: 0 <= i < |log| ==> r.value[i + 1] == MessageOf(log[i], botName))
              && r.value[|log| + 1] == ChatMessage(User, current)
  {
    if userId !in logs then None
    else Some([ChatMessage(System, SystemPrompt)] + History(logs[userId], botName) + [ChatMessage(User, current)])
  }

  /** The log with `e` appended to the list of `userId`, which is created when absent. */
  function Logged(logs: ChatLogs, userId: string, e: LogEntry): (r: ChatLogs)
    ensures r.Keys == logs.Keys + {userId}
    ensures r[userId] == (if userId in logs then logs[userId] else []) + [e]
    ensures forall u :: u in logs && u != userId ==> r[u] == logs[u]
  {
    var log := if userId in logs then logs[userId] else [];
    logs[userId := log + [e]]
  }

  /**
   * The prompt built right after a message is logged ends with that message
   * twice: once as the newest log entry and once as the current message.
   */
  lemma PromptEndsWithMessage(logs: ChatLogs, msg: Message, botName: string)
    ensures var logged := Logged(logs, msg.author.id, LogEntry(msg.author.name, msg.content, msg.createdAt));
            var r := FormatConversation(logged, msg.author.id, botName, msg.content);
            && r.Some?
            && |r.value| >= 3
            && r.value[|r.value| - 2] == ChatMessage(if msg.author.name == botName then Assistant else User, msg.content)
            && r.value[|r.value| - 1] == ChatMessage(User, msg.content)
  {
    var e := LogEntry(msg.author.name, msg.content, msg.createdAt);
    var logged := Logged(logs, msg.author.id, e);
    var log := logged[msg.author.id];
    assert log[|log| - 1] == e;
  }

  // The skip-word test: punctuation removed, lower-cased, split on whitespace.

  /** Python's `string.punctuation`, as written. */
  const Punctuation: string := "!\"#$%&'()*+,-./:;<=>?@[\\]^_`{|}~"

  /** The ASCII punctuation characters, as the four ranges of codes they fill. */
  predicate IsPunctuation(c: char) {
    ('!' <= c <= '/') || (':' <= c <= '@') || ('[' <= c <= '`') || ('{' <= c <= '~')
  }

  /** The four ranges hold exactly the characters of `string.punctuation`. */
  lemma PunctuationRanges()
    ensures |Punctuation| == 32
    ensures forall c :: IsPunctuation(c) <==> c in Punctuation
  {
  }

  /** The ASCII characters Python's `str.split` treats as whitespace. */
  predicate IsSpace(c: char) {
    c == ' ' || ('\t' <= c <= '\r') || ('\U{1C}' <= c <= '\U{1F}')
  }

  /** `translate` with a table deleting every punctuation character. */
  function StripPunctuation(s: string): (r: string)
    ensures |r| <= |s|
    ensures forall i :: 0 <= i < |r| ==> !IsPunctuation(r[i]) && r[i] in s
  {
    if |s| == 0 then []
    else if IsPunctuation(s[0]) then StripPunctuation(s[1..])
    else [s[0]] + StripPunctuation(s[1..])
  }

  /** Removing punctuation works piecewise: the result for a concatenation is the concatenation of the results. */
  lemma {:induction false} StripPunctuationAppend(a: string, b: string)
    ensures StripPunctuation(a + b) == StripPunctuation(a) + StripPunctuation(b)
    decreases |a|
  {
    if |a| > 0 {
      assert (a + b)[1..] == a[1..] + b;
      StripPunctuationAppend(a[1..], b);
    } else {
      assert a + b == b;
    }
  }

  /** A text without punctuation is left as it is. */
  lemma {:induction false} StripPunctuationKeeps(s: string)
    requires forall i :: 0 <= i < |s| ==> !IsPunctuation(s[i])
    ensures StripPunctuation(s) == s
    decreases |s|
  {
    if |s| > 0 {
      StripPunctuationKeeps(s[1..]);
    }
  }

  /** `lower` on ASCII letters; every other character is kept. */
  function LowerChar(c: char): (r: char)
    ensures 'A' <= c <= 'Z' ==> r as int == c as int + 32
    ensures !('A' <= c <= 'Z') ==> r == c
  {
    if 'A' <= c <= 'Z' then (c as int + 32) as char else c
  }

  function Lower(s: string): (r: string)
    ensures |r| == |s|
    ensures forall i :: 0 <= i < |s| ==> r[i] == LowerChar(s[i])
  {
    if |s| == 0 then [] else [LowerChar(s[0])] + Lower(s[1..])
  }

  /** A word of `split`: non-empty and without whitespace. */
  predicate IsWord(w: string) {
    |w| > 0 && forall i :: 0 <= i < |w| ==> !IsSpace(w[i])
  }

  /** The characters of `s` that are not whitespace, in order. */
  function NonSpace(s: string): string {
    if |s| == 0 then [] else (if IsSpace(s[0]) then [] else [s[0]]) + NonSpace(s[1..])
  }

  function Concat(ws: seq<string>): string {
    if |ws| == 0 then [] else ws[0] + Concat(ws[1..])
  }

  /** The end of the word of `s` that starts at 0 and has no whitespace before `j`. */
  function WordEnd(s: string, j: nat): (n: nat)
    requires 0 < j <= |s|
    requires forall k :: 0 <= k < j ==> !IsSpace(s[k])
    ensures j <= n <= |s|
    ensures forall k :: 0 <= k < n ==> !IsSpace(s[k])
    ensures n == |s| || IsSpace(s[n])
    decreases |s| - j
  {
    if j == |s| || IsSpace(s[j]) then j else WordEnd(s, j + 1)
  }

  /** Dropping whitespace works piecewise over concatenation. */
  lemma {:induction false} NonSpaceAppend(a: string, b: string)
    ensures NonSpace(a + b) == NonSpace(a) + NonSpace(b)
    decreases |a|
  {
    if |a| == 0 {
      assert a + b == b;
    } else {
      assert (a + b)[0] == a[0];
      assert (a + b)[1..] == a[1..] + b;
      NonSpaceAppend(a[1..], b);
    }
  }

  /** Text without whitespace is its own non-whitespace part. */
  lemma {:induction false} NonSpaceKeeps(a: string)
    requires forall k :: 0 <= k < |a| ==> !IsSpace(a[k])
    ensures NonSpace(a) == a
    decreases |a|
  {
    if |a| > 0 {
      NonSpaceKeeps(a[1..]);
      assert [a[0]] + a[1..] == a;
    }
  }

  lemma NonSpacePrefix(s: string, n: nat)
    requires n <= |s|
    requires forall k :: 0 <= k < n ==> !IsSpace(s[k])
    ensures NonSpace(s) == s[..n] + NonSpace(s[n..])
  {
    assert s == s[..n] + s[n..];
    NonSpaceAppend(s[..n], s[n..]);
    NonSpaceKeeps(s[..n]);
  }

  /**
   * `split()` without arguments: the maximal runs of non-whitespace
   * characters, in order; together they are exactly the text's
   * non-whitespace characters.
   */
  function Words(s: string): (r: seq<string>)
    ensures forall i :: 0 <= i < |r| ==> IsWord(r[i])
    ensures Concat(r) == NonSpace(s)
    decreases |s|
  {
    if |s| == 0 then []
    else if IsSpace(s[0]) then Words(s[1..])
    else
      var n := WordEnd(s, 1);
      NonSpacePrefix(s, n);
      var rest := Words(s[n..]);
      assert ([s[..n]] + rest)[1..] == rest;
      [s[..n]] + rest
  }

  /** A word followed by whitespace or by nothing is the first word of the text. */
  lemma WordsLead(w: string, rest: string)
    requires IsWord(w)
    requires |rest| == 0 || IsSpace(rest[0])
    ensures Words(w + rest) == [w] + Words(rest)
  {
    var s := w + rest;
    var n := WordEnd(s, 1);
    assert forall k :: 0 <= k < |w| ==> s[k] == w[k];
    assert |rest| > 0 ==> s[|w|] == rest[0];
    assert n == |w|;
    assert s[..n] == w && s[n..] == rest;
  }

  /** `" ".join(ws)`. */
  function JoinWords(ws: seq<string>): string {
    if |ws| == 0 then []
    else if |ws| == 1 then ws[0]
    else ws[0] + " " + JoinWords(ws[1..])
  }

  /** Splitting words joined by single spaces gives back the words. */
  lemma {:induction false} WordsOfJoin(ws: seq<string>)
    requires forall i :: 0 <= i < |ws| ==> IsWord(ws[i])
    ensures Words(JoinWords(ws)) == ws
    decreases |ws|
  {
    if |ws| == 1 {
      WordsLead(ws[0], []);
      assert ws[0] + [] == ws[0];
    } else if |ws| > 1 {
      var tail := JoinWords(ws[1..]);
      WordsOfJoin(ws[1..]);
      WordsLead(ws[0], " " + tail);
      assert ws[0] + " " + tail == ws[0] + (" " + tail);
      assert (" " + tail)[1..] == tail;
      assert [ws[0]] + ws[1..] == ws;
    }
  }

  /** The test of `on_message`: "skip" is one of the reply's words once punctuation is gone and case folded. */
  predicate HasSkip(reply: string)
    ensures HasSkip(reply) ==> 4 <= |reply|
  {
    WordsFit(Lower(StripPunctuation(reply)));
    "skip" in Words(Lower(StripPunctuation(reply)))
  }

  /** No word of a text is longer than the text. */
  lemma WordsFit(s: string)
    ensures forall i :: 0 <= i < |Words(s)| ==> |Words(s)[i]| <= |s|
  {
    NonSpaceShorter(s);
    forall i | 0 <= i < |Words(s)|
      ensures |Words(s)[i]| <= |s|
    {
      ConcatHoldsWords(Words(s), i);
    }
  }

  /** Dropping whitespace never lengthens a text. */
  lemma {:induction false} NonSpaceShorter(s: string)
    ensures |NonSpace(s)| <= |s|
    decreases |s|
  {
    if |s| > 0 {
      NonSpaceShorter(s[1..]);
    }
  }

  /** Each word is a piece of the words' concatenation. */
  lemma {:induction false} ConcatHoldsWords(ws: seq<string>, i: nat)
    requires i < |ws|
    ensures |ws[i]| <= |Concat(ws)|
    decreases |ws|
  {
    if i > 0 {
      ConcatHoldsWords(ws[1..], i - 1);
    }
  }

  /** A reply that is one lower-case word without punctuation says "skip" exactly when it is that word. */
  lemma SkipIsWholeWord(w: string)
    requires IsWord(w)
    requires forall i :: 0 <= i < |w| ==> !IsPunctuation(w[i]) && !('A' <= w[i] <= 'Z')
    ensures HasSkip(w) <==> w == "skip"
  {
    StripPunctuationKeeps(w);
    assert Lower(w) == w;
    WordsOfJoin([w]);
  }

  /** "skip" on its own is one word. */
  lemma SkipAlone()
    ensures Words("skip") == ["skip"]
  {
    forall i | 0 <= i < |"skip"|
      ensures !IsSpace("skip"[i])
    {
      assert "skip"[i] in {'s', 'k', 'i', 'p'};
    }
    WordsOfJoin(["skip"]);
  }

  /** The trailing full stop goes. */
  lemma StripExample()
    ensures StripPunctuation("Skip.") == "Skip"
  {
    StripPunctuationAppend("Skip", ".");
    StripPunctuationKeeps("Skip");
    assert StripPunctuation(".") == "";
    assert "Skip" + "" == "Skip";
  }

  lemma LowerExample()
    ensures Lower("Skip") == "skip"
  {
    assert Lower("Skip")[0] == 's';
  }

  /** Neither case nor trailing punctuation hides the word. */
  lemma SkipExample()
    ensures HasSkip("Skip.")
  {
    StripExample();
    LowerExample();
    SkipAlone();
  }

  /**
   * The listener, with the chat-log file as the `chatlogs` field. The bot
   * is known by its author id and its user name.
   */
  class ChatRelay {
    const botId: string
    const botName: string
    var chatlogs: ChatLogs

    /** `logs` is what the chat-log file holds; a missing file is the empty map. */
    constructor(botId: string, botName: string, logs: ChatLogs)
      ensures this.botId == botId && this.botName == botName && chatlogs == logs
    {
      this.botId := botId;
      this.botName := botName;
      chatlogs := logs;
    }

    /**
     * `on_message`. `reply` is the content of the language model's first
     * choice, `None` when the response has none; the model is asked only
     * for messages not written by the bot. `prompt` is what it is asked
     * with, and `sent` what goes back to the channel.
     */
    method OnMessage(msg: Message, reply: Option<string>) returns (prompt: Option<seq<ChatMessage>>, sent: Option<string>)
      modifies this
      ensures |msg.content| > 0 && msg.content[0] == '.' ==>
                chatlogs == old(chatlogs) && prompt.None? && sent.None?
      ensures !(|msg.content| > 0 && msg.content[0] == '.') ==>
                var key := msg.author.id;
                var logged := Logged(old(chatlogs), key, LogEntry(msg.author.name, msg.content, msg.createdAt));
                && prompt == FormatConversation(logged, key, botName, msg.content)
                && prompt.Some?
                && (if msg.author.id == botId || reply.None? || HasSkip(reply.value) then
                      chatlogs == logged && sent.None?
                    else
                      chatlogs == Logged(logged, key, LogEntry(botName, reply.value, msg.createdAt))
                      && sent == reply)
    {
      if |msg.content| > 0 && msg.content[0] == '.' {
        return None, None;
      }
      var key := msg.author.id;
      var entry := LogEntry(msg.author.name, msg.content, msg.createdAt);
      ghost var logged := Logged(chatlogs, key, entry);
      if key !in chatlogs {
        chatlogs := chatlogs[key := []];
      }
      chatlogs := chatlogs[key := chatlogs[key] + [entry]];
      assert chatlogs == logged;
      prompt := FormatConversation(chatlogs, key, botName, msg.content);
      if msg.author.id == botId {
        return prompt, None;
      }
      sent := None;
      if reply.Some? {
        if !HasSkip(reply.value) {
          chatlogs := chatlogs[key := chatlogs[key] + [LogEntry(botName, reply.value, msg.createdAt)]];
          assert chatlogs == Logged(logged, key, LogEntry(botName, reply.value, msg.createdAt));
          sent := reply;
        }
      }
    }
  }
}
