/**
 * The coding assistant of mini_projects/single-file-agent/agent.py: a
 * conversation that only grows, a loop that asks the model for a reply and
 * runs every tool call the reply makes, and the tool dispatcher over the
 * file system of module Files. The model's replies are a finite script; the
 * decoding of tool arguments (`json.loads`) and the encoding of tool results
 * (`json.dumps`) are functions the agent is constructed with.
 */
module Agent {
  import opened Strings
  import opened Files

  /** One tool call of a reply: its id, the tool's name and the JSON text of its arguments */
  datatype ToolCall = ToolCall(id: string, name: string, arguments: string)

  /** An assistant reply: its text and the tool calls it makes */
  datatype Reply = Reply(content: string, toolCalls: seq<ToolCall>)

  datatype Message =
    | SystemMessage(content: string)
    | UserMessage(content: string)
    | AssistantMessage(reply: Reply)
    | ToolMessage(toolCallId: string, content: string)

  /** One model call: the reply, or the text of the exception the call raised */
  datatype Completion = Completed(reply: Reply) | CompletionFailed(error: string)

  /** `json.loads` of tool arguments: an object of strings, or the text of the decode error */
  datatype Arguments = Decoded(args: map<string, string>) | DecodeFailed(error: string)

  /** What `chat` returns; `ScriptExhausted` is the end of the finite script of replies */
  datatype ChatResult = Answer(text: string) | ScriptExhausted

  const SystemPrompt := "You are a helpful coding assistant operating in a terminal environment. "
    + "Output only plain text without markdown formatting, as your responses appear directly in the terminal. "
    + "Be concise but thorough, providing clear and practical advice with a friendly tone. "
    + "Don't use any asterisk characters in your responses."

  const ErrorPrefix := "[Error]: "

  // ----- _execute_tool -----

  /** `d.get(key, default)` */
  function GetOr(args: map<string, string>, key: string, default: string): string {
    if key in args then args[key] else default
  }

  /** The answer when `tool_input[key]` raises `KeyError` */
  function MissingArgument(key: string): string {
    "Error executing tool: '" + key + "'"
  }

  /** `_execute_tool(name, args)`: the answer, and the file system after the tool ran */
  function ToolEffect(fs: FileSystem, name: string, args: map<string, string>): Effect {
    if name == "read_file" then
      if "path" !in args then Effect(MissingArgument("path"), fs)
      else Effect(ReadFileResult(fs, args["path"]), fs)
    else if name == "list_files" then
      Effect(ListFilesResult(fs, GetOr(args, "path", ".")), fs)
    else if name == "edit_file" then
      if "path" !in args then Effect(MissingArgument("path"), fs)
      else if "new_text" !in args then Effect(MissingArgument("new_text"), fs)
      else EditFileEffect(fs, args["path"], GetOr(args, "old_text", ""), args["new_text"])
    else Effect("Unknown tool: " + name, fs)
  }

  /**
   * The dispatcher answers every call: an unknown name and a missing
   * required argument give messages of their own, `list_files` lists "."
   * by default, `edit_file` treats a missing `old_text` as empty, and only
   * `edit_file` changes the file system.
   */
  lemma ToolDispatch(fs: FileSystem, name: string, args: map<string, string>)
    ensures var e := ToolEffect(fs, name, args);
      && (name !in {"read_file", "list_files", "edit_file"} ==> e == Effect("Unknown tool: " + name, fs))
      && (name != "edit_file" ==> e.fs == fs)
      && (name == "read_file" && "path" !in args ==> e.result == MissingArgument("path"))
      && (name == "edit_file" && "path" !in args ==> e.result == MissingArgument("path"))
      && (name == "edit_file" && "path" in args && "new_text" !in args ==> e.result == MissingArgument("new_text"))
      && (name == "list_files" && "path" !in args ==> e.result == ListFilesResult(fs, "."))
      && (name == "edit_file" && "path" in args && "new_text" in args && "old_text" !in args ==>
            e == EditFileEffect(fs, args["path"], "", args["new_text"]))
  {
  }

  /** No tool call makes a valid file system invalid. */
  lemma ToolKeepsValid(fs: FileSystem, name: string, args: map<string, string>)
    requires Valid(fs)
    ensures Valid(ToolEffect(fs, name, args).fs)
  {
    if name == "edit_file" && "path" in args && "new_text" in args {
      EditKeepsValid(fs, args["path"], GetOr(args, "old_text", ""), args["new_text"]);
    }
  }

  // ----- chat -----

  /** The conversation after the tool calls of one reply, and the decode error that cut it short */
  datatype Round = Round(messages: seq<Message>, fs: FileSystem, failure: Option<string>)

  /** The `for tool_call` loop: one tool message per call, in order, until an argument fails to decode */
  function AnswerCalls(calls: seq<ToolCall>, messages: seq<Message>, fs: FileSystem,
                       decode: string -> Arguments, encode: string -> string): Round
    decreases |calls|
  {
    if calls == [] then Round(messages, fs, None)
    else match decode(calls[0].arguments)
      case DecodeFailed(error) => Round(messages, fs, Some(error))
      case Decoded(args) =>
        var e := ToolEffect(fs, calls[0].name, args);
        AnswerCalls(calls[1..], messages + [ToolMessage(calls[0].id, encode(e.result))], e.fs, decode, encode)
  }

  /** The conversation, the file system and the answer at the end of a chat */
  datatype Run = Run(messages: seq<Message>, fs: FileSystem, answer: ChatResult)

  /** The `while True` loop, for the replies the model gives in turn */
  function Converse(messages: seq<Message>, fs: FileSystem, replies: seq<Completion>,
                    decode: string -> Arguments, encode: string -> string): Run
    decreases |replies|
  {
    if replies == [] then Run(messages, fs, ScriptExhausted)
    else match replies[0]
      case CompletionFailed(error) => Run(messages, fs, Answer(ErrorPrefix + error))
      case Completed(reply) =>
        var withReply := messages + [AssistantMessage(reply)];
        if reply.toolCalls == [] then Run(withReply, fs, Answer(reply.content))
        else
          var round := AnswerCalls(reply.toolCalls, withReply, fs, decode, encode);
          if round.failure.Some? then Run(round.messages, round.fs, Answer(ErrorPrefix + round.failure.value))
          else Converse(round.messages, round.fs, replies[1..], decode, encode)
  }

  /**
   * The tool calls of one reply extend the conversation, never rewrite it,
   * by at most one tool message per call, in the order of the calls and
   * with the call's id.
   */
  lemma {:induction false} AnswerCallsAppends(calls: seq<ToolCall>, messages: seq<Message>, fs: FileSystem,
                                              decode: string -> Arguments, encode: string -> string)
    ensures var r := AnswerCalls(calls, messages, fs, decode, encode);
      && messages <= r.messages
      && |r.messages| <= |messages| + |calls|
      && (forall k :: |messages| <= k < |r.messages| ==>
            r.messages[k].ToolMessage? && r.messages[k].toolCallId == calls[k - |messages|].id)
    decreases |calls|
  {
    if calls != [] && decode(calls[0].arguments).Decoded? {
      var e := ToolEffect(fs, calls[0].name, decode(calls[0].arguments).args);
      var next := messages + [ToolMessage(calls[0].id, encode(e.result))];
      AnswerCallsAppends(calls[1..], next, e.fs, decode, encode);
      var r := AnswerCalls(calls, messages, fs, decode, encode);
      assert r == AnswerCalls(calls[1..], next, e.fs, decode, encode);
      assert messages <= next;
      forall k | |messages| <= k < |r.messages|
        ensures r.messages[k].ToolMessage? && r.messages[k].toolCallId == calls[k - |messages|].id
      {
        if k == |messages| {
          assert r.messages[k] == next[k];
        } else {
          assert calls[1..][k - |next|] == calls[k - |messages|];
        }
      }
    }
  }

  /**
   * The loop stops short of the last call exactly when some call's
   * arguments do not decode: the first such call is the one after the last
   * answer, and its decode error is the failure.
   */
  lemma {:induction false} AnswerCallsStops(calls: seq<ToolCall>, messages: seq<Message>, fs: FileSystem,
                                            decode: string -> Arguments, encode: string -> string)
    ensures var r := AnswerCalls(calls, messages, fs, decode, encode);
      var n := |r.messages| - |messages|;
      && (r.failure == None <==> n == |calls|)
      && (r.failure != None ==> 0 <= n < |calls| && decode(calls[n].arguments) == DecodeFailed(r.failure.value))
    decreases |calls|
  {
    if calls != [] && decode(calls[0].arguments).Decoded? {
      var e := ToolEffect(fs, calls[0].name, decode(calls[0].arguments).args);
      var next := messages + [ToolMessage(calls[0].id, encode(e.result))];
      AnswerCallsStops(calls[1..], next, e.fs, decode, encode);
      AnswerCallsAppends(calls[1..], next, e.fs, decode, encode);
      var r := AnswerCalls(calls, messages, fs, decode, encode);
      if r.failure != None {
        var n := |r.messages| - |messages|;
        assert calls[n] == calls[1..][n - 1];
      }
    }
  }

  /** When every call's arguments decode, every call is answered. */
  lemma {:induction false} AnswerCallsComplete(calls: seq<ToolCall>, messages: seq<Message>, fs: FileSystem,
                                               decode: string -> Arguments, encode: string -> string)
    requires CallsDecode(calls, decode)
    ensures AnswerCalls(calls, messages, fs, decode, encode).failure == None
    decreases |calls|
  {
    if calls != [] {
      var e := ToolEffect(fs, calls[0].name, decode(calls[0].arguments).args);
      assert CallsDecode(calls[1..], decode) by {
        forall j | 0 <= j < |calls[1..]| ensures decode(calls[1..][j].arguments).Decoded? {
          assert calls[1..][j] == calls[j + 1];
        }
      }
      AnswerCallsComplete(calls[1..], messages + [ToolMessage(calls[0].id, encode(e.result))], e.fs, decode, encode);
    }
  }

  lemma {:induction false} AnswerCallsKeepsValid(calls: seq<ToolCall>, messages: seq<Message>, fs: FileSystem,
                                                 decode: string -> Arguments, encode: string -> string)
    requires Valid(fs)
    ensures Valid(AnswerCalls(calls, messages, fs, decode, encode).fs)
    decreases |calls|
  {
    if calls != [] && decode(calls[0].arguments).Decoded? {
      var e := ToolEffect(fs, calls[0].name, decode(calls[0].arguments).args);
      ToolKeepsValid(fs, calls[0].name, decode(calls[0].arguments).args);
      AnswerCallsKeepsValid(calls[1..], messages + [ToolMessage(calls[0].id, encode(e.result))], e.fs,
                            decode, encode);
    }
  }

  /** A chat never removes or rewrites a message: the conversation it started from is a prefix of the final one. */
  lemma {:induction false} ConverseExtends(messages: seq<Message>, fs: FileSystem, replies: seq<Completion>,
                                           decode: string -> Arguments, encode: string -> string)
    ensures messages <= Converse(messages, fs, replies, decode, encode).messages
    decreases |replies|
  {
    if replies != [] && replies[0].Completed? && replies[0].reply.toolCalls != [] {
      var withReply := messages + [AssistantMessage(replies[0].reply)];
      var round := AnswerCalls(replies[0].reply.toolCalls, withReply, fs, decode, encode);
      AnswerCallsAppends(replies[0].reply.toolCalls, withReply, fs, decode, encode);
      if round.failure == None {
        ConverseExtends(round.messages, round.fs, replies[1..], decode, encode);
      }
    }
  }

  /** A chat keeps a valid file system valid. */
  lemma {:induction false} ConverseKeepsValid(messages: seq<Message>, fs: FileSystem, replies: seq<Completion>,
                                              decode: string -> Arguments, encode: string -> string)
    requires Valid(fs)
    ensures Valid(Converse(messages, fs, replies, decode, encode).fs)
    decreases |replies|
  {
    if replies != [] && replies[0].Completed? && replies[0].reply.toolCalls != [] {
      var withReply := messages + [AssistantMessage(replies[0].reply)];
      var round := AnswerCalls(replies[0].reply.toolCalls, withReply, fs, decode, encode);
      AnswerCallsKeepsValid(replies[0].reply.toolCalls, withReply, fs, decode, encode);
      if round.failure == None {
        ConverseKeepsValid(round.messages, round.fs, replies[1..], decode, encode);
      }
    }
  }

  /**
   * A reply without tool calls ends the chat: it is appended, its text is
   * the answer, and no tool runs, so the file system is unchanged.
   */
  lemma FinalReply(messages: seq<Message>, fs: FileSystem, replies: seq<Completion>,
                   decode: string -> Arguments, encode: string -> string)
    requires replies != [] && replies[0].Completed? && replies[0].reply.toolCalls == []
    ensures Converse(messages, fs, replies, decode, encode)
      == Run(messages + [AssistantMessage(replies[0].reply)], fs, Answer(replies[0].reply.content))
  {
  }

  /** A failed model call ends the chat with "[Error]: " and its text, keeping every message. */
  lemma FailedCompletion(messages: seq<Message>, fs: FileSystem, replies: seq<Completion>,
                         decode: string -> Arguments, encode: string -> string)
    requires replies != [] && replies[0].CompletionFailed?
    ensures Converse(messages, fs, replies, decode, encode)
      == Run(messages, fs, Answer(ErrorPrefix + replies[0].error))
  {
  }

  // ----- every tool call answered -----

  /** The tool messages after the assistant message at `i` answer its calls, one each, in order */
  predicate AnsweredAt(ms: seq<Message>, i: nat)
    requires i < |ms| && ms[i].AssistantMessage?
  {
    var calls := ms[i].reply.toolCalls;
    && i + |calls| < |ms|
    && (forall k :: i < k <= i + |calls| ==> ms[k].ToolMessage? && ms[k].toolCallId == calls[k - i - 1].id)
    && (i + |calls| + 1 < |ms| ==> !ms[i + |calls| + 1].ToolMessage?)
  }

  /**
   * No unanswered tool call and no stray tool message: every assistant
   * message is followed by exactly one tool message per call, and a tool
   * message only ever follows an assistant message or another tool message.
   */
  predicate Settled(ms: seq<Message>) {
    && (forall i :: 0 <= i < |ms| && ms[i].AssistantMessage? ==> AnsweredAt(ms, i))
    && (forall t :: 0 <= t < |ms| && ms[t].ToolMessage? ==>
          t > 0 && (ms[t - 1].AssistantMessage? || ms[t - 1].ToolMessage?))
  }

  /** Every tool call in the script has arguments that decode */
  predicate ArgumentsDecode(replies: seq<Completion>, decode: string -> Arguments) {
    forall k :: 0 <= k < |replies| && replies[k].Completed? ==> CallsDecode(replies[k].reply.toolCalls, decode)
  }

  predicate CallsDecode(calls: seq<ToolCall>, decode: string -> Arguments) {
    forall j :: 0 <= j < |calls| ==> decode(calls[j].arguments).Decoded?
  }

  lemma AppendUserKeepsSettled(ms: seq<Message>, text: string)
    requires Settled(ms)
    ensures Settled(ms + [UserMessage(text)])
  {
    var ms' := ms + [UserMessage(text)];
    forall i | 0 <= i < |ms'| && ms'[i].AssistantMessage? ensures AnsweredAt(ms', i) {
      assert i < |ms| && ms'[i] == ms[i];
      assert AnsweredAt(ms, i);
      var calls := ms[i].reply.toolCalls;
      forall k | i < k <= i + |calls|
        ensures ms'[k].ToolMessage? && ms'[k].toolCallId == calls[k - i - 1].id
      {
        assert ms'[k] == ms[k];
      }
      if i + |calls| + 1 < |ms| {
        assert ms'[i + |calls| + 1] == ms[i + |calls| + 1];
      } else {
        assert ms'[|ms|] == UserMessage(text);
      }
    }
    forall t | 0 <= t < |ms'| && ms'[t].ToolMessage?
      ensures t > 0 && (ms'[t - 1].AssistantMessage? || ms'[t - 1].ToolMessage?)
    {
      assert t < |ms| && ms'[t] == ms[t];
    }
  }

  /** An assistant message followed by the answers to its calls keeps a settled conversation settled. */
  lemma AppendRoundKeepsSettled(ms: seq<Message>, reply: Reply, answers: seq<Message>)
    requires Settled(ms)
    requires |answers| == |reply.toolCalls|
    requires forall j :: 0 <= j < |answers| ==> answers[j].ToolMessage? && answers[j].toolCallId == reply.toolCalls[j].id
    ensures Settled(ms + [AssistantMessage(reply)] + answers)
  {
    var ms' := ms + [AssistantMessage(reply)] + answers;
    forall i | 0 <= i < |ms'| && ms'[i].AssistantMessage? ensures AnsweredAt(ms', i) {
      if i < |ms| {
        assert ms'[i] == ms[i];
        assert AnsweredAt(ms, i);
        var calls := ms[i].reply.toolCalls;
        forall k | i < k <= i + |calls|
          ensures ms'[k].ToolMessage? && ms'[k].toolCallId == calls[k - i - 1].id
        {
          assert ms'[k] == ms[k];
        }
        if i + |calls| + 1 < |ms| {
          assert ms'[i + |calls| + 1] == ms[i + |calls| + 1];
        } else {
          assert ms'[|ms|] == AssistantMessage(reply);
        }
      } else if i == |ms| {
        forall k | i < k <= i + |reply.toolCalls|
          ensures ms'[k].ToolMessage? && ms'[k].toolCallId == reply.toolCalls[k - i - 1].id
        {
          assert ms'[k] == answers[k - i - 1];
        }
      }
    }
    forall t | 0 <= t < |ms'| && ms'[t].ToolMessage?
      ensures t > 0 && (ms'[t - 1].AssistantMessage? || ms'[t - 1].ToolMessage?)
    {
      if t < |ms| {
        assert ms'[t] == ms[t] && ms'[t - 1] == ms[t - 1];
      } else if t > |ms| + 1 {
        assert ms'[t - 1] == answers[t - 2 - |ms|];
      }
    }
  }

  /** The answers of a fully decoded round are exactly the tool messages of its calls. */
  lemma RoundAnswers(calls: seq<ToolCall>, messages: seq<Message>, fs: FileSystem,
                     decode: string -> Arguments, encode: string -> string)
    requires CallsDecode(calls, decode)
    ensures var r := AnswerCalls(calls, messages, fs, decode, encode);
      && r.failure == None
      && messages <= r.messages
      && r.messages == messages + r.messages[|messages|..]
      && |r.messages[|messages|..]| == |calls|
      && forall j :: 0 <= j < |calls| ==>
           r.messages[|messages|..][j].ToolMessage? && r.messages[|messages|..][j].toolCallId == calls[j].id
  {
    AnswerCallsAppends(calls, messages, fs, decode, encode);
    AnswerCallsStops(calls, messages, fs, decode, encode);
    AnswerCallsComplete(calls, messages, fs, decode, encode);
  }

  /**
   * When every tool call's arguments decode, a chat that starts from a
   * settled conversation leaves it settled: each call is answered before
   * the model is asked again.
   */
  lemma {:induction false} ConverseSettles(messages: seq<Message>, fs: FileSystem, replies: seq<Completion>,
                                           decode: string -> Arguments, encode: string -> string)
    requires Settled(messages) && ArgumentsDecode(replies, decode)
    ensures Settled(Converse(messages, fs, replies, decode, encode).messages)
    decreases |replies|
  {
    if replies != [] && replies[0].Completed? {
      var reply := replies[0].reply;
      var withReply := messages + [AssistantMessage(reply)];
      if reply.toolCalls == [] {
        AppendRoundKeepsSettled(messages, reply, []);
        assert withReply + [] == withReply;
      } else {
        assert CallsDecode(reply.toolCalls, decode);
        RoundAnswers(reply.toolCalls, withReply, fs, decode, encode);
        var round := AnswerCalls(reply.toolCalls, withReply, fs, decode, encode);
        AppendRoundKeepsSettled(messages, reply, round.messages[|withReply|..]);
        assert ArgumentsDecode(replies[1..], decode) by {
          forall k | 0 <= k < |replies[1..]| && replies[1..][k].Completed?
            ensures CallsDecode(replies[1..][k].reply.toolCalls, decode)
          {
            assert replies[1..][k] == replies[k + 1];
          }
        }
        ConverseSettles(round.messages, round.fs, replies[1..], decode, encode);
      }
    }
  }

  /** The conversation ends inside the round of the assistant message at `i`: fewer tool messages follow it than it has calls */
  predicate Unfinished(ms: seq<Message>, i: nat) {
    i < |ms| && ms[i].AssistantMessage? && |ms| <= i + |ms[i].reply.toolCalls|
  }

  /** A message that is not a tool message follows the assistant message at `i` before all its calls are answered */
  predicate Interrupted(ms: seq<Message>, i: nat) {
    && i < |ms| && ms[i].AssistantMessage?
    && exists k :: i < k < |ms| && k <= i + |ms[i].reply.toolCalls| && !ms[k].ToolMessage?
  }

  /**
   * Arguments that fail to decode end the chat with "[Error]: " and the
   * decode error, keep the assistant message and the answers given so far,
   * and leave the conversation inside that message's round: some call has
   * no answer.
   */
  lemma DecodeFailureLeavesCallUnanswered(messages: seq<Message>, fs: FileSystem, reply: Reply, rest: seq<Completion>,
                                          decode: string -> Arguments, encode: string -> string)
    requires AnswerCalls(reply.toolCalls, messages + [AssistantMessage(reply)], fs, decode, encode).failure.Some?
    ensures var round := AnswerCalls(reply.toolCalls, messages + [AssistantMessage(reply)], fs, decode, encode);
      var run := Converse(messages, fs, [Completed(reply)] + rest, decode, encode);
      && run.answer == Answer(ErrorPrefix + round.failure.value)
      && run.messages == round.messages && run.fs == round.fs
      && Unfinished(run.messages, |messages|)
      && !Settled(run.messages)
  {
    var withReply := messages + [AssistantMessage(reply)];
    AnswerCallsAppends(reply.toolCalls, withReply, fs, decode, encode);
    AnswerCallsStops(reply.toolCalls, withReply, fs, decode, encode);
    var round := AnswerCalls(reply.toolCalls, withReply, fs, decode, encode);
    assert ([Completed(reply)] + rest)[0] == Completed(reply);
    assert round.messages[|messages|] == AssistantMessage(reply);
    assert !AnsweredAt(round.messages, |messages|);
  }

  /**
   * A call left unanswered stays unanswered: `chat` appends the user
   * message first, so whatever the later replies, the round of the
   * assistant message at `i` is interrupted and the conversation is never
   * settled again.
   */
  lemma OrphanSurvivesChat(ms: seq<Message>, i: nat, text: string, fs: FileSystem, replies: seq<Completion>,
                           decode: string -> Arguments, encode: string -> string)
    requires Unfinished(ms, i) || Interrupted(ms, i)
    ensures var run := Converse(ms + [UserMessage(text)], fs, replies, decode, encode);
      Interrupted(run.messages, i) && !Settled(run.messages)
  {
    var start := ms + [UserMessage(text)];
    ConverseExtends(start, fs, replies, decode, encode);
    var final := Converse(start, fs, replies, decode, encode).messages;
    var k: nat;
    if Unfinished(ms, i) {
      k := |ms|;
      assert final[k] == start[k] == UserMessage(text);
    } else {
      k :| i < k < |ms| && k <= i + |ms[i].reply.toolCalls| && !ms[k].ToolMessage?;
      assert final[k] == start[k] == ms[k];
    }
    assert final[i] == start[i] == ms[i];
    assert Interrupted(final, i);
    assert !AnsweredAt(final, i);
  }

  // ----- the agent -----

  class AIAgent {
    var messages: seq<Message>
    var fs: FileSystem
    const decode: string -> Arguments
    const encode: string -> string

    /** `__init__`: the conversation starts as the system message alone */
    constructor (files: FileSystem, decode: string -> Arguments, encode: string -> string)
      ensures messages == [SystemMessage(SystemPrompt)] && fs == files
      ensures this.decode == decode && this.encode == encode
    {
      messages := [SystemMessage(SystemPrompt)];
      fs := files;
      this.decode := decode;
      this.encode := encode;
    }

    /** `_list_files(path)`: lists the entries of a directory in sorted order */
    method ListFiles(path: string) returns (result: string)
      ensures result == ListFilesResult(fs, path)
    {
      if !NodeAt(fs, path).DirNode? {
        return NotADirectoryPrefix + path;
      }
      var p := Resolve(path);
      var names := SortedElements(Children(fs, p));
      var items: seq<string> := [];
      for i := 0 to |names|
        invariant |items| == i
        invariant forall j :: 0 <= j < i ==> items[j] == EntryLine(fs, p, names[j])
      {
        var itemPath := p + [names[i]];
        if itemPath in fs.dirs {
          items := items + ["[DIR] " + names[i] + "/"];
        } else {
          items := items + ["[FILE] " + names[i]];
        }
      }
      assert items == EntryLines(fs, p, names);
      if |items| == 0 {
        return "Empty directory: " + path;
      }
      return "Content of " + path + ":\n" + Join(items, "\n");
    }

    /** `_edit_file(path, old_text, new_text)` */
    method EditFile(path: string, oldText: string, newText: string) returns (result: string)
      modifies this
      ensures Effect(result, fs) == EditFileEffect(old(fs), path, oldText, newText)
      ensures messages == old(messages)
    {
      var p := Resolve(path);
      var node := NodeAt(fs, path);
      if Exists(fs, path) && oldText != "" {
        if node.DirNode? {
          return EditError(IsADirectory, path);
        }
        var content := node.content;
        if !Contains(content, oldText) {
          return "Text not found in " + path + ": \n'" + oldText + "'";
        }
        content := ReplaceAll(content, oldText, newText);
        fs := fs.(files := fs.files[p := content]);
        return "Text updated successfully: " + path;
      }
      if node.BelowFile? {
        return EditError(NotADirectory, path);
      }
      if path == "" {
        return EditError(NoSuchFile, path);
      }
      if node.DirNode? {
        return EditError(IsADirectory, path);
      }
      if DirectoryForm(path) {
        fs := MakeDirs(fs, p);
        return EditError(IsADirectory, path);
      }
      fs := Write(fs, p, newText);
      return "Successfully created: " + path;
    }

    /** `_execute_tool(name, args)` */
    method ExecuteTool(name: string, args: map<string, string>) returns (result: string)
      modifies this
      ensures Effect(result, fs) == ToolEffect(old(fs), name, args)
      ensures messages == old(messages)
    {
      if name == "read_file" {
        if "path" !in args {
          return MissingArgument("path");
        }
        result := ReadFileResult(fs, args["path"]);
      } else if name == "list_files" {
        result := ListFiles(GetOr(args, "path", "."));
      } else if name == "edit_file" {
        if "path" !in args {
          return MissingArgument("path");
        }
        if "new_text" !in args {
          return MissingArgument("new_text");
        }
        result := EditFile(args["path"], GetOr(args, "old_text", ""), args["new_text"]);
      } else {
        result := "Unknown tool: " + name;
      }
    }

    /**
     * `chat(user_input)`: appends the user message, then takes the replies
     * in turn until one has no tool calls or a step fails.
     */
    method Chat(userInput: string, replies: seq<Completion>) returns (answer: ChatResult)
      modifies this
      ensures var run := Converse(old(messages) + [UserMessage(userInput)], old(fs), replies, decode, encode);
        messages == run.messages && fs == run.fs && answer == run.answer
    {
      messages := messages + [UserMessage(userInput)];
      ghost var goal := Converse(messages, fs, replies, decode, encode);
      var k := 0;
      while k < |replies|
        invariant 0 <= k <= |replies|
        invariant Converse(messages, fs, replies[k..], decode, encode) == goal
      {
        assert replies[k..][0] == replies[k] && replies[k..][1..] == replies[k + 1..];
        match replies[k] {
          case CompletionFailed(error) =>
            return Answer(ErrorPrefix + error);
          case Completed(reply) =>
            messages := messages + [AssistantMessage(reply)];
            if reply.toolCalls == [] {
              return Answer(reply.content);
            }
            var calls := reply.toolCalls;
            ghost var round := AnswerCalls(calls, messages, fs, decode, encode);
            for i := 0 to |calls|
              invariant AnswerCalls(calls[i..], messages, fs, decode, encode) == round
            {
              assert calls[i..][0] == calls[i] && calls[i..][1..] == calls[i + 1..];
              var call := calls[i];
              match decode(call.arguments) {
                case DecodeFailed(error) =>
                  return Answer(ErrorPrefix + error);
                case Decoded(args) =>
                  var result := ExecuteTool(call.name, args);
                  messages := messages + [ToolMessage(call.id, encode(result))];
              }
            }
        }
        k := k + 1;
      }
      return ScriptExhausted;
    }
  }
}
