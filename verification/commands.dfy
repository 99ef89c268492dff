/**
 * How the chat loop reads one (already trimmed) input line: quit, a `/config`
 * command, `/ver`, a `/hist` command, or otherwise a chat turn. The tests are
 * made in that order.
 */
module Commands {
  import opened GoStrings

  datatype Command =
    | Quit
    | ConfigCommand(line: string)
    | ShowVersion
    | ShowHistory(option: string)
    | ChatTurn(text: string)

  /** The command an input line stands for. Because the tests cannot overlap,
      each kind of command is characterised by its own condition alone. */
  function Classify(input: string): (c: Command)
    ensures c == Quit <==> input == "exit" || input == "quit"
    ensures c.ConfigCommand? <==> "/config" <= input
    ensures c.ConfigCommand? ==> c.line == input
    ensures c == ShowVersion <==> input == "/ver"
    ensures c.ShowHistory? <==> "/hist" <= input
    ensures c.ShowHistory? ==> c.option == TrimSpace(input[|"/hist"|..])
    ensures c.ChatTurn? <==> input != "exit" && input != "quit" && input != "/ver"
                             && !("/config" <= input) && !("/hist" <= input)
    ensures c.ChatTurn? ==> c.text == input
  {
    assert "/config" <= input ==> input[1] == 'c';
    assert "/hist" <= input ==> input[1] == 'h';
    if input == "exit" || input == "quit" then Quit
    else if "/config" <= input then ConfigCommand(input)
    else if input == "/ver" then ShowVersion
    else if "/hist" <= input then ShowHistory(TrimSpace(TrimPrefix(input, "/hist")))
    else ChatTurn(input)
  }

  /** Prefix tests rather than whole-word tests: `/configx` is a `/config`
      command and `/history` lists everything (its option is `ory`). */
  lemma CommandsArePrefixTests()
    ensures Classify("/configx") == ConfigCommand("/configx")
    ensures Classify("/history") == ShowHistory("ory")
  {
    assert "/config" <= "/configx";
    assert "/hist" <= "/history" && "/history"[|"/hist"|..] == "ory";
    assert !IsSpace('o') && !IsSpace('y');
  }

  /** `/version` is not a command: it is sent to the model as a chat turn. */
  lemma VersionWordIsChatTurn()
    ensures Classify("/version") == ChatTurn("/version")
  {
    var line := "/version";
    assert line[1] == 'v';
    assert !("/config" <= line) by { assert "/config"[1] == 'c'; }
    assert !("/hist" <= line) by { assert "/hist"[1] == 'h'; }
    assert line != "exit" && line != "quit" && line != "/ver" by { assert |line| == 8; }
  }

  /** An empty line is sent to the model as a chat turn too. */
  lemma EmptyLineIsChatTurn()
    ensures Classify("") == ChatTurn("")
  {
    assert !("/config" <= "") && !("/hist" <= "");
  }
}
