/**
 * The chat session: the transcript and the configuration the loop threads
 * from one input line to the next, the configuration file's content, and
 * the loop itself.
 *
 * Standard input is replaced by the `Input` values given to the loop, and
 * the backend by a function from the endpoint URL and the request to the
 * outcome of the exchange.
 */
module Session {
  import opened Optional
  import opened GoStrings
  import opened Transcript
  import opened Settings
  import opened Inference
  import opened Commands
  import opened Warnings

  /** One line typed at the chat prompt, with the line typed at the follow-up
      prompt when it is a `/config <option>` command (otherwise unused). */
  datatype Input = Input(line: string, answer: string)

  /** The backend: how a POST of a request to a URL ends. */
  type Backend = (string, ChatRequest) -> Exchange

  /** The session's state: the transcript, the configuration in memory, and
      the configuration as last written to the configuration file. */
  datatype Snapshot = Snapshot(history: seq<Message>, config: Config, saved: Config)

  /** The state a fresh session starts from once the greeting is shown. */
  function Seeded(loaded: Config): Snapshot
  {
    Snapshot([Message(Assistant, loaded.greeting)], loaded, loaded)
  }

  /** The effect of a `/config` line: an edit of the named field, also written
      to the configuration file, or nothing (the configuration is only shown). */
  function ConfigEffect(s: Snapshot, line: string, answer: string): Snapshot
  {
    match ConfigOption(line)
    case None => s
    case Some(option) =>
      match EditedConfig(s.config, option, answer)
      case None => s
      case Some(c) => s.(config := c, saved := c)
  }

  /** The request a chat turn with `text` sends: built after `text` is appended. */
  function TurnRequest(s: Snapshot, text: string): ChatRequest
  {
    BuildRequest(s.config, s.history + [Message(User, text)])
  }

  /** The reply a chat turn with `text` records, whatever the exchange ended in. */
  function TurnReply(s: Snapshot, text: string, backend: Backend): string
  {
    ReplyText(backend(s.config.url, TurnRequest(s, text)))
  }

  /** The command an input line stands for, once the line is trimmed. */
  function CommandOf(inp: Input): Command
  {
    Classify(TrimSpace(inp.line))
  }

  /** The state after one input line. */
  function Turn(s: Snapshot, inp: Input, backend: Backend): Snapshot
  {
    match CommandOf(inp)
    case ConfigCommand(line) => ConfigEffect(s, line, inp.answer)
    case ChatTurn(text) =>
      s.(history := s.history + [Message(User, text), Message(Assistant, TurnReply(s, text, backend))])
    case _ => s
  }

  /** The state after a sequence of input lines, none of them `exit` or `quit`. */
  function Replay(s: Snapshot, inputs: seq<Input>, backend: Backend): Snapshot
    decreases |inputs|
  {
    if inputs == [] then s
    else Turn(Replay(s, inputs[..|inputs| - 1], backend), inputs[|inputs| - 1], backend)
  }

  /** Handling one more line of the same input. */
  lemma ReplayStep(s: Snapshot, inputs: seq<Input>, k: nat, backend: Backend)
    requires k < |inputs|
    ensures Replay(s, inputs[..k + 1], backend) == Turn(Replay(s, inputs[..k], backend), inputs[k], backend)
  {
    var done := inputs[..k + 1];
    assert done[..|done| - 1] == inputs[..k];
  }

  /** The line is `exit` or `quit` once trimmed: the loop stops there. */
  predicate IsQuit(inp: Input)
  {
    var line := TrimSpace(inp.line);
    line == "exit" || line == "quit"
  }

  /** None of `inputs` stops the loop. */
  predicate NoQuit(inputs: seq<Input>)
  {
    forall j :: 0 <= j < |inputs| ==> !IsQuit(inputs[j])
  }

  lemma NoQuitStep(inputs: seq<Input>, k: nat)
    requires k < |inputs| && NoQuit(inputs[..k]) && !IsQuit(inputs[k])
    ensures NoQuit(inputs[..k + 1])
  {
    var longer, shorter := inputs[..k + 1], inputs[..k];
    forall j | 0 <= j < |longer|
      ensures !IsQuit(longer[j])
    {
      if j < k {
        assert longer[j] == shorter[j];
      }
    }
  }

  /** The user messages the chat turns among `inputs` record, in order. */
  function ChatMessages(inputs: seq<Input>): seq<Message>
    decreases |inputs|
  {
    if inputs == [] then []
    else ChatMessages(inputs[..|inputs| - 1]) + ChatMessage(inputs[|inputs| - 1])
  }

  /** The user message one input line records: one for a chat turn, none otherwise. */
  function ChatMessage(inp: Input): seq<Message>
  {
    match CommandOf(inp)
    case ChatTurn(text) => [Message(User, text)]
    case _ => []
  }

  /** One turn adds to the user view exactly the user message of its line. */
  lemma TurnUserMessages(s: Snapshot, inp: Input, backend: Backend)
    ensures OfRole(Turn(s, inp, backend).history, User) == OfRole(s.history, User) + ChatMessage(inp)
  {
    OnlyChatTurnsTouchTranscript(s, inp, backend);
    if CommandOf(inp).ChatTurn? {
      var text := CommandOf(inp).text;
      var u := Message(User, text);
      var a := Message(Assistant, TurnReply(s, text, backend));
      OfRoleAppend(s.history, [u, a], User);
      OfRolePair(u, a);
    }
  }

  /** Only a chat turn touches the transcript; every other line leaves it as it was. */
  lemma OnlyChatTurnsTouchTranscript(s: Snapshot, inp: Input, backend: Backend)
    ensures !CommandOf(inp).ChatTurn? ==> Turn(s, inp, backend).history == s.history
    ensures CommandOf(inp).ChatTurn? ==>
              var text := CommandOf(inp).text;
              Turn(s, inp, backend).history
                == s.history + [Message(User, text), Message(Assistant, TurnReply(s, text, backend))]
  {
  }

  /** A failed exchange still ends the turn with an assistant message: the
      error text, prefixed by the step that failed. */
  lemma FailedExchangeIsRecorded(s: Snapshot, inp: Input, backend: Backend, detail: string)
    requires CommandOf(inp).ChatTurn?
    requires backend(s.config.url, TurnRequest(s, CommandOf(inp).text)) == SendFailed(detail)
    ensures var h := Turn(s, inp, backend).history;
      h[|h| - 1] == Message(Assistant, "Response error: " + detail)
      && h[|h| - 2] == Message(User, TrimSpace(inp.line))
  {
  }

  /** The loop only ever appends: the old transcript is a prefix of the new one. */
  lemma {:induction false} ReplayAppendOnly(s: Snapshot, inputs: seq<Input>, backend: Backend)
    ensures s.history <= Replay(s, inputs, backend).history
    decreases |inputs|
  {
    if inputs != [] {
      ReplayAppendOnly(s, inputs[..|inputs| - 1], backend);
    }
  }

  /** Every chat turn adds exactly two messages, and nothing else adds any. */
  lemma {:induction false} ReplayLength(s: Snapshot, inputs: seq<Input>, backend: Backend)
    ensures |Replay(s, inputs, backend).history| == |s.history| + 2 * |ChatMessages(inputs)|
    decreases |inputs|
  {
    if inputs != [] {
      ReplayLength(s, inputs[..|inputs| - 1], backend);
    }
  }

  /** Starting from the greeting, user and assistant messages keep taking turns. */
  lemma {:induction false} ReplayAlternating(s: Snapshot, inputs: seq<Input>, backend: Backend)
    requires Alternating(s.history)
    ensures Alternating(Replay(s, inputs, backend).history)
    decreases |inputs|
  {
    if inputs != [] {
      var prev := Replay(s, inputs[..|inputs| - 1], backend);
      ReplayAlternating(s, inputs[..|inputs| - 1], backend);
      var inp := inputs[|inputs| - 1];
      if CommandOf(inp).ChatTurn? {
        var text := CommandOf(inp).text;
        AlternatingExtend(prev.history, Message(User, text), Message(Assistant, TurnReply(prev, text, backend)));
      }
    }
  }

  /** The user messages of the transcript are the chat lines, trimmed, in the
      order they were typed. */
  lemma {:induction false} ReplayUserMessages(s: Snapshot, inputs: seq<Input>, backend: Backend)
    ensures OfRole(Replay(s, inputs, backend).history, User) == OfRole(s.history, User) + ChatMessages(inputs)
    decreases |inputs|
  {
    if inputs != [] {
      var prev := Replay(s, inputs[..|inputs| - 1], backend);
      ReplayUserMessages(s, inputs[..|inputs| - 1], backend);
      TurnUserMessages(prev, inputs[|inputs| - 1], backend);
    }
  }

  /** The preamble is never stored: no system message enters the transcript. */
  lemma {:induction false} ReplayNoSystemMessage(s: Snapshot, inputs: seq<Input>, backend: Backend)
    requires OfRole(s.history, System) == []
    ensures OfRole(Replay(s, inputs, backend).history, System) == []
    decreases |inputs|
  {
    if inputs != [] {
      var prev := Replay(s, inputs[..|inputs| - 1], backend);
      ReplayNoSystemMessage(s, inputs[..|inputs| - 1], backend);
      var inp := inputs[|inputs| - 1];
      OnlyChatTurnsTouchTranscript(prev, inp, backend);
      if CommandOf(inp).ChatTurn? {
        var text := CommandOf(inp).text;
        var u := Message(User, text);
        var a := Message(Assistant, TurnReply(prev, text, backend));
        OfRoleAppend(prev.history, [u, a], System);
        OfRolePair(u, a);
      }
    }
  }

  /** A `/config` line keeps the configuration file in step with the
      configuration in memory, and never changes the system prompt. */
  lemma ConfigEffectTracksConfig(s: Snapshot, line: string, answer: string)
    requires s.saved == s.config
    ensures ConfigEffect(s, line, answer).saved == ConfigEffect(s, line, answer).config
    ensures ConfigEffect(s, line, answer).config.system == s.config.system
    ensures ConfigEffect(s, line, answer).history == s.history
  {
    match ConfigOption(line)
    case None =>
    case Some(option) =>
      if EditedConfig(s.config, option, answer).Some? {
        EditLeavesOtherFields(s.config, option, answer, "system");
      }
  }

  /** So does every input line. */
  lemma TurnSavedTracksConfig(s: Snapshot, inp: Input, backend: Backend)
    requires s.saved == s.config
    ensures Turn(s, inp, backend).saved == Turn(s, inp, backend).config
    ensures Turn(s, inp, backend).config.system == s.config.system
  {
    match CommandOf(inp)
    case ConfigCommand(line) => ConfigEffectTracksConfig(s, line, inp.answer);
    case _ =>
  }

  /** The configuration file always holds the configuration in memory, and the
      system prompt is never changed by the loop. */
  lemma {:induction false} ReplaySavedTracksConfig(s: Snapshot, inputs: seq<Input>, backend: Backend)
    requires s.saved == s.config
    ensures Replay(s, inputs, backend).saved == Replay(s, inputs, backend).config
    ensures Replay(s, inputs, backend).config.system == s.config.system
    decreases |inputs|
  {
    if inputs != [] {
      ReplaySavedTracksConfig(s, inputs[..|inputs| - 1], backend);
      TurnSavedTracksConfig(Replay(s, inputs[..|inputs| - 1], backend), inputs[|inputs| - 1], backend);
    }
  }

  /** A line `/config <option>` (after trimming) edits that option with the
      prompt's answer, exactly as `EditedConfig` says. */
  lemma ConfigLineTurn(s: Snapshot, inp: Input, backend: Backend, option: string)
    requires TrimSpace(inp.line) == "/config " + option
    requires Editable(option)
    ensures Turn(s, inp, backend).config == EditedConfig(s.config, option, inp.answer).value
    ensures Turn(s, inp, backend).saved == Turn(s, inp, backend).config
  {
    var line := "/config " + option;
    assert "/config" <= line;
    assert CommandOf(inp) == ConfigCommand(line);
    ConfigLineOption(option);
    assert Turn(s, inp, backend) == ConfigEffect(s, line, inp.answer);
  }

  /** The option of `/config <option>` is `option`. */
  lemma ConfigLineOption(option: string)
    requires Editable(option)
    ensures ConfigOption("/config " + option) == Some(option)
  {
    assert ' ' !in option;
    ConfigOptionNamed("/config", option, "");
    assert "/config" + " " + option + "" == "/config " + option;
  }

  /** `/config model` followed by a non-blank answer: the file records the new
      model and the very next chat turn asks the backend for it. */
  lemma ModelEditReachesNextRequest(s: Snapshot, answer: string, backend: Backend, text: string)
    requires !Blank(answer)
    ensures var s' := Turn(s, Input("/config model", answer), backend);
      s'.saved.model == TrimSpace(answer) && TurnRequest(s', text).model == TrimSpace(answer)
  {
    assert !IsSpace('/') && !IsSpace('l');
    assert TrimSpace("/config model") == "/config " + "model";
    ConfigLineTurn(s, Input("/config model", answer), backend, "model");
  }

  /** `/config definition` followed by a non-blank answer: the next request's
      preamble carries the new definition, rebuilt rather than cached. */
  lemma DefinitionEditReachesNextPreamble(s: Snapshot, answer: string, backend: Backend, text: string)
    requires !Blank(answer)
    ensures var s' := Turn(s, Input("/config definition", answer), backend);
      TurnRequest(s', text).messages[0]
        == Message(System, Preamble(s.config.system, TrimSpace(answer)))
  {
    assert !IsSpace('/') && !IsSpace('n');
    assert TrimSpace("/config definition") == "/config " + "definition";
    ConfigLineTurn(s, Input("/config definition", answer), backend, "definition");
  }

  /** When the backend answers the request for `hello` with `{"message": {"content": "hi there"}}`, the line
      `hello` ends the transcript with the user's line and that reply. */
  lemma HelloScenario(s: Snapshot, backend: Backend)
    requires backend(s.config.url, TurnRequest(s, "hello")) == HiThereAnswer
    ensures Turn(s, Input("hello", ""), backend).history
         == s.history + [Message(User, "hello"), Message(Assistant, "hi there")]
  {
    HelloIsChatTurn();
    OnlyChatTurnsTouchTranscript(s, Input("hello", ""), backend);
    HelloReply(s, backend);
  }

  /** That backend's reply to the line `hello` is `hi there`. */
  lemma HelloReply(s: Snapshot, backend: Backend)
    requires backend(s.config.url, TurnRequest(s, "hello")) == HiThereAnswer
    ensures TurnReply(s, "hello", backend) == "hi there"
  {
    HiThereReply();
  }

  /** The answer `{"message": {"content": "hi there"}}`. */
  const HiThereAnswer: Exchange := Decoded(map["message" := JObject(map["content" := JString("hi there")])])

  /** Its reply text is the content string. */
  lemma HiThereReply()
    ensures ReplyText(HiThereAnswer) == "hi there"
  {
  }

  /** The line `hello` is a chat turn with that text. */
  lemma HelloIsChatTurn()
    ensures CommandOf(Input("hello", "")) == ChatTurn("hello")
  {
    var line := "hello";
    assert !IsSpace(line[0]) && !IsSpace(line[4]);
    assert TrimSpace(line) == line;
    assert !("/config" <= line) && !("/hist" <= line) by { assert line[0] == 'h'; }
    assert line != "exit" && line != "quit" && line != "/ver" by { assert |line| == 5; }
  }

  class ChatSession {
    var history: seq<Message>
    var config: Config
    var saved: Config

    /** The session's state as a value. */
    function Snap(): Snapshot
      reads this
    {
      Snapshot(history, config, saved)
    }

    /** A session over the configuration just loaded from the file, with an
        empty transcript. */
    constructor (loaded: Config)
      ensures history == [] && config == loaded && saved == loaded
    {
      history := [];
      config := loaded;
      saved := loaded;
    }

    /** Shows the greeting and records it as the assistant's first message. */
    method DisplayGreeting(greeting: string)
      modifies this
      ensures history == old(history) + [Message(Assistant, greeting)]
      ensures config == old(config) && saved == old(saved)
    {
      history := history + [Message(Assistant, greeting)];
    }

    method AppendUserMessage(text: string)
      modifies this
      ensures history == old(history) + [Message(User, text)]
      ensures config == old(config) && saved == old(saved)
    {
      history := history + [Message(User, text)];
    }

    method AppendAssistantMessage(text: string)
      modifies this
      ensures history == old(history) + [Message(Assistant, text)]
      ensures config == old(config) && saved == old(saved)
    {
      history := history + [Message(Assistant, text)];
    }

    /** Builds the request from the current configuration and transcript,
        sends it, and turns the outcome into the reply text. */
    method SendChatRequest(backend: Backend) returns (reply: string)
      ensures reply == ReplyText(backend(config.url, BuildRequest(config, history)))
    {
      var request := BuildRequest(config, history);
      var outcome := backend(config.url, request);
      reply := ReplyText(outcome);
    }

    /** Sets the named field to the prompt's answer (or keeps it on a blank
        answer) and writes the file; an unknown option changes nothing. */
    method EditConfigOption(option: string, answer: string) returns (updated: bool)
      modifies this
      ensures updated <==> Editable(option)
      ensures history == old(history)
      ensures match EditedConfig(old(config), option, answer)
              case Some(c) => config == c && saved == c
              case None => config == old(config) && saved == old(saved)
    {
      if option == "url" {
        config := config.(url := PromptDefault(answer, config.url));
      } else if option == "model" {
        config := config.(model := PromptDefault(answer, config.model));
      } else if option == "definition" {
        config := config.(definition := PromptDefault(answer, config.definition));
      } else if option == "greeting" {
        config := config.(greeting := PromptDefault(answer, config.greeting));
      } else {
        return false;
      }
      saved := config;
      updated := true;
    }

    /** `/config`: edits the field named by the line's second piece, or only
        shows the configuration when there is none. */
    method HandleConfigCommand(line: string, answer: string)
      modifies this
      ensures Snap() == ConfigEffect(old(Snap()), line, answer)
    {
      var args := Split(line, ' ');
      if |args| > 1 && args[1] != "" {
        var _ := EditConfigOption(args[1], answer);
      }
    }

    /** The messages of the transcript with role `role`, collected in one pass. */
    method CollectRole(role: Role) returns (shown: seq<Message>)
      ensures shown == OfRole(history, role)
    {
      shown := [];
      var i := 0;
      while i < |history|
        invariant 0 <= i <= |history|
        invariant shown == OfRole(history[..i], role)
      {
        assert history[..i + 1] == history[..i] + [history[i]];
        OfRoleAppend(history[..i], [history[i]], role);
        if history[i].role == role {
          shown := shown + [history[i]];
        }
        i := i + 1;
      }
      assert history[..i] == history;
    }

    /** `/hist <option>`: what it lists. */
    method ShowHistory(option: string) returns (shown: seq<Message>)
      ensures shown == HistoryView(history, option)
    {
      if option == "user" {
        shown := CollectRole(User);
      } else if option == "assistant" {
        shown := CollectRole(Assistant);
      } else {
        shown := history;
      }
    }

    /** One pass of the loop for one input line. `quit` says the loop ends;
        `warned` says the reply of a chat turn triggered the warning. */
    method Step(inp: Input, backend: Backend) returns (quit: bool, warned: bool)
      modifies this
      ensures Snap() == Turn(old(Snap()), inp, backend)
      ensures quit <==> CommandOf(inp) == Quit
      ensures warned <==> CommandOf(inp).ChatTurn?
                          && Alarming(TurnReply(old(Snap()), CommandOf(inp).text, backend))
    {
      ghost var s0 := Snap();
      quit, warned := false, false;
      match CommandOf(inp)
      case Quit =>
        quit := true;
      case ConfigCommand(line) =>
        HandleConfigCommand(line, inp.answer);
      case ShowVersion =>
      case ShowHistory(option) =>
        var _ := ShowHistory(option);
      case ChatTurn(text) =>
        AppendUserMessage(text);
        var response := SendChatRequest(backend);
        assert response == TurnReply(s0, text, backend);
        warned := CheckForWarnings(response);
        AppendAssistantMessage(response);
        assert Snap() == s0.(history := s0.history + [Message(User, text), Message(Assistant, response)]);
    }

    /** The loop, over a finite stretch `inputs` of standard input: handles
        the lines until `exit` or `quit`; `consumed` lines were handled before
        it stopped, all of them when none of them quits. */
    method Run(inputs: seq<Input>, backend: Backend) returns (consumed: nat)
      modifies this
      ensures consumed <= |inputs|
      ensures NoQuit(inputs[..consumed])
      ensures consumed < |inputs| ==> IsQuit(inputs[consumed])
      ensures Snap() == Replay(old(Snap()), inputs[..consumed], backend)
    {
      ghost var start := Snap();
      assert inputs[..0] == [];
      consumed := 0;
      while consumed < |inputs|
        invariant consumed <= |inputs|
        invariant NoQuit(inputs[..consumed])
        invariant Snap() == Replay(start, inputs[..consumed], backend)
      {
        ghost var before := Snap();
        var quit, _ := Step(inputs[consumed], backend);
        if quit {
          assert Snap() == before;
          return;
        }
        ReplayStep(start, inputs, consumed, backend);
        NoQuitStep(inputs, consumed);
        consumed := consumed + 1;
      }
    }
  }

  /** The program: a session over the loaded configuration, greeted, then
      driven by the input lines. After it, the transcript is the greeting
      followed by one user and one assistant message per chat line. */
  method RunProgram(loaded: Config, inputs: seq<Input>, backend: Backend)
    returns (session: ChatSession, consumed: nat)
    ensures fresh(session)
    ensures consumed <= |inputs|
    ensures session.Snap() == Replay(Seeded(loaded), inputs[..consumed], backend)
    ensures Alternating(session.history)
    ensures |session.history| == 1 + 2 * |ChatMessages(inputs[..consumed])|
    ensures OfRole(session.history, User) == ChatMessages(inputs[..consumed])
    ensures session.saved == session.config
  {
    session := new ChatSession(loaded);
    session.DisplayGreeting(loaded.greeting);
    assert session.Snap() == Seeded(loaded);
    consumed := session.Run(inputs, backend);
    var start := Seeded(loaded);
    var done := inputs[..consumed];
    ReplayAlternating(start, done, backend);
    ReplayLength(start, done, backend);
    ReplayUserMessages(start, done, backend);
    ReplaySavedTracksConfig(start, done, backend);
    assert OfRole(start.history, User) == [] by {
      assert start.history[1..] == [];
    }
  }
}
