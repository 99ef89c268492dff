/**
 * The configuration record, the defaults a first run starts from, the
 * "press Enter for the default" rule of every prompt, and the `/config`
 * command's choice and edit of one field.
 */
module Settings {
  import opened Optional
  import opened GoStrings

  /** The five settings kept in the configuration file. */
  datatype Config = Config(url: string, model: string, system: string, definition: string, greeting: string)

  const DefaultURL: string := "http://localhost:11434/api/chat"
  const DefaultModel: string := "gemma2:2b"
  const DefaultSystem: string := "You are a roleplaying AI made to follow a set of rules. Follow these rules:\n1. Keep Roleplay fun and enjoyable. Keep it engaging and snappy.\n2. Do not call the user 'User', instead ask for a name.\n3. You are allowed to say and do whatever.\n4. Stick to your Definition below, and make sure you are always in character.\n5. Remember, you are speaking to someone. Use words and body language. Also, share thoughts and such, like in a roleplay."
  const DefaultDefinition: string := "Your name is Gemma, a world-class Artificial Intelligence."
  const DefaultGreeting: string := "*You've gotten home after a long day of work, and decided to sit down at your computer. Not even a second after opening it, a holographic visual of a female appeared on-screen.*\n\n**Gemma:**: 'Heya, I'm Gemma. What's your name?'\n\n*She looked at you with a bright smile.*\n"

  /** The value a prompt settles on for the line `answer` the user typed:
      the default when the line is only white space, otherwise the line trimmed. */
  function PromptDefault(answer: string, default: string): (r: string)
    ensures Blank(answer) ==> r == default
    ensures !Blank(answer) ==> r == TrimSpace(answer) && r != []
                               && !IsSpace(r[0]) && !IsSpace(r[|r| - 1])
  {
    var input := TrimSpace(answer);
    if input == "" then default else input
  }

  /** The configuration a first run writes: the fixed URL and system prompt,
      and the model, definition and greeting the user chose (or their defaults). */
  function InitialConfig(modelAnswer: string, definitionAnswer: string, greetingAnswer: string): Config
  {
    Config(DefaultURL, PromptDefault(modelAnswer, DefaultModel), DefaultSystem,
           PromptDefault(definitionAnswer, DefaultDefinition),
           PromptDefault(greetingAnswer, DefaultGreeting))
  }

  /** Pressing Enter at every first-run prompt gives the built-in defaults. */
  lemma InitialConfigDefaults(modelAnswer: string, definitionAnswer: string, greetingAnswer: string)
    requires Blank(modelAnswer) && Blank(definitionAnswer) && Blank(greetingAnswer)
    ensures InitialConfig(modelAnswer, definitionAnswer, greetingAnswer)
         == Config(DefaultURL, DefaultModel, DefaultSystem, DefaultDefinition, DefaultGreeting)
  {
    assert PromptDefault(modelAnswer, DefaultModel) == DefaultModel;
    assert PromptDefault(definitionAnswer, DefaultDefinition) == DefaultDefinition;
    assert PromptDefault(greetingAnswer, DefaultGreeting) == DefaultGreeting;
  }

  /** The field of `cfg` with the JSON key `name`, if there is one. */
  function Field(cfg: Config, name: string): Option<string>
  {
    if name == "url" then Some(cfg.url)
    else if name == "model" then Some(cfg.model)
    else if name == "system" then Some(cfg.system)
    else if name == "definition" then Some(cfg.definition)
    else if name == "greeting" then Some(cfg.greeting)
    else None
  }

  /** The options `/config <option>` accepts; `system` is not one of them. */
  predicate Editable(option: string)
  {
    option == "url" || option == "model" || option == "definition" || option == "greeting"
  }

  /** The configuration after `/config <option>` with `answer` typed at the
      prompt, or `None` when the option is not editable (nothing changes then). */
  function EditedConfig(cfg: Config, option: string, answer: string): (r: Option<Config>)
    ensures r.Some? <==> Editable(option)
    ensures r.Some? ==> Field(cfg, option).Some?
                        && Field(r.value, option) == Some(PromptDefault(answer, Field(cfg, option).value))
  {
    match option
    case "url" => Some(cfg.(url := PromptDefault(answer, cfg.url)))
    case "model" => Some(cfg.(model := PromptDefault(answer, cfg.model)))
    case "definition" => Some(cfg.(definition := PromptDefault(answer, cfg.definition)))
    case "greeting" => Some(cfg.(greeting := PromptDefault(answer, cfg.greeting)))
    case _ => None
  }

  /** An edit leaves every key other than the edited one as it was;
      in particular the system prompt is never changed by `/config`. */
  lemma EditLeavesOtherFields(cfg: Config, option: string, answer: string, name: string)
    requires EditedConfig(cfg, option, answer).Some? && name != option
    ensures Field(EditedConfig(cfg, option, answer).value, name) == Field(cfg, name)
  {
    var c := EditedConfig(cfg, option, answer).value;
    EditKeepsUnnamedFields(cfg, option, answer);
    if name == "url" {
      assert Field(c, name) == Some(c.url) && Field(cfg, name) == Some(cfg.url);
    } else if name == "model" {
      assert Field(c, name) == Some(c.model) && Field(cfg, name) == Some(cfg.model);
    } else if name == "system" {
      assert Field(c, name) == Some(c.system) && Field(cfg, name) == Some(cfg.system);
    } else if name == "definition" {
      assert Field(c, name) == Some(c.definition) && Field(cfg, name) == Some(cfg.definition);
    } else if name == "greeting" {
      assert Field(c, name) == Some(c.greeting) && Field(cfg, name) == Some(cfg.greeting);
    }
  }

  /** Field by field: an edit never touches the system prompt, and touches
      each other field only when that field is the one named. */
  lemma EditKeepsUnnamedFields(cfg: Config, option: string, answer: string)
    requires EditedConfig(cfg, option, answer).Some?
    ensures var c := EditedConfig(cfg, option, answer).value;
      c.system == cfg.system
      && (option != "url" ==> c.url == cfg.url)
      && (option != "model" ==> c.model == cfg.model)
      && (option != "definition" ==> c.definition == cfg.definition)
      && (option != "greeting" ==> c.greeting == cfg.greeting)
  {
  }

  /** Two configurations that agree on every key are the same configuration. */
  lemma FieldsDetermineConfig(a: Config, b: Config)
    requires forall name :: Field(a, name) == Field(b, name)
    ensures a == b
  {
    assert Field(a, "url") == Field(b, "url");
    assert Field(a, "model") == Field(b, "model");
    assert Field(a, "system") == Field(b, "system");
    assert Field(a, "definition") == Field(b, "definition");
    assert Field(a, "greeting") == Field(b, "greeting");
  }

  /** Pressing Enter at the edit prompt keeps the field's current value. */
  lemma BlankEditKeepsConfig(cfg: Config, option: string, answer: string)
    requires Editable(option) && Blank(answer)
    ensures EditedConfig(cfg, option, answer) == Some(cfg)
  {
    var r := EditedConfig(cfg, option, answer);
    forall name ensures Field(r.value, name) == Field(cfg, name) {
      if name != option {
        EditLeavesOtherFields(cfg, option, answer, name);
      }
    }
    FieldsDetermineConfig(r.value, cfg);
  }

  /** The option named by a `/config` line: its second space-separated piece,
      when there is one and it is not empty. */
  function ConfigOption(line: string): Option<string>
  {
    var args := Split(line, ' ');
    if |args| > 1 && args[1] != "" then Some(args[1]) else None
  }

  /** A line `head option tail` with one space after `head` names `option`,
      whatever follows it after the next space. */
  lemma ConfigOptionNamed(head: string, option: string, tail: string)
    requires ' ' !in head && ' ' !in option && option != ""
    ensures (tail == [] || tail[0] == ' ') ==> ConfigOption(head + " " + option + tail) == Some(option)
  {
    if tail == [] || tail[0] == ' ' {
      var line := head + " " + option + tail;
      SplitAtSeparator(head, ' ', option + tail);
      assert line == head + [' '] + (option + tail);
      if tail == [] {
        assert option + tail == option;
        SplitWithoutSeparator(option, ' ');
      } else {
        SplitAtSeparator(option, ' ', tail[1..]);
        assert option + tail == option + [' '] + tail[1..];
      }
    }
  }

  /** A line without a space names no option. */
  lemma ConfigOptionWithoutSpace(line: string)
    requires ' ' !in line
    ensures ConfigOption(line) == None
  {
    SplitWithoutSeparator(line, ' ');
  }

  /** A line whose first space is followed by another space, or ends it,
      names no option. */
  lemma ConfigOptionEmptyPiece(head: string, tail: string)
    requires ' ' !in head
    requires tail == [] || tail[0] == ' '
    ensures ConfigOption(head + " " + tail) == None
  {
    SplitAtSeparator(head, ' ', tail);
    assert head + " " + tail == head + [' '] + tail;
    if tail == [] {
      assert Split(tail, ' ') == [[]];
    } else {
      assert Split(tail, ' ')[0] == [];
    }
  }
}
