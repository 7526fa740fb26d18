/**
 * AI coding assistants: their definitions, the per-assistant settings that can
 * override the launch command and the YOLO (auto-approve) flag, and the registry
 * of built-in and custom assistants.
 */
module AIAssistantDefinition {
  import opened Nullables
  import opened Text

  datatype AssistantDefinition = AssistantDefinition(
    id: string,
    displayName: string,
    command: string,
    yoloFlag: string,
    yoloLabel: string,
    installCommand: string,
    npmInstallCommand: Option<string>,
    websiteUrl: string,
    description: string,
    isBuiltIn: bool)

  datatype AssistantConfig = AssistantConfig(
    assistantId: string,
    enabled: bool,
    yoloEnabled: bool,
    customCommand: Option<string>,
    customYoloFlag: Option<string>)

  /** `AIAssistantConfig(assistantId = id)`: every other field at its default. */
  function DefaultConfig(assistantId: string): (c: AssistantConfig)
    ensures c.assistantId == assistantId && c.enabled && c.yoloEnabled
    ensures c.customCommand == None && c.customYoloFlag == None
  {
    AssistantConfig(assistantId, true, true, None, None)
  }

  /** `custom?.takeIf { it.isNotBlank() } ?: fallback` */
  function NonBlankOr(custom: Option<string>, fallback: string): string {
    if custom.Some? && !IsBlank(custom.value) then custom.value else fallback
  }

  /** The command to launch: the custom command when it is set and not blank. */
  function GetCommand(config: AssistantConfig, assistant: AssistantDefinition): string {
    NonBlankOr(config.customCommand, assistant.command)
  }

  /** The YOLO flag: the custom flag when it is set and not blank. */
  function GetYoloFlag(config: AssistantConfig, assistant: AssistantDefinition): string {
    NonBlankOr(config.customYoloFlag, assistant.yoloFlag)
  }

  function BuildFullCommand(config: AssistantConfig, assistant: AssistantDefinition): string {
    var baseCommand := GetCommand(config, assistant);
    var flag := GetYoloFlag(config, assistant);
    if config.yoloEnabled && !IsBlank(flag) then baseCommand + " " + flag else baseCommand
  }

  /**
   * A custom command or flag wins exactly when it is present and not blank;
   * so a blank override never replaces a non-blank default.
   */
  lemma OverridePrecedence(config: AssistantConfig, assistant: AssistantDefinition)
    ensures GetCommand(config, assistant) == assistant.command
        <== config.customCommand.None? || IsBlank(config.customCommand.value)
    ensures config.customCommand.Some? && !IsBlank(config.customCommand.value)
        ==> GetCommand(config, assistant) == config.customCommand.value
    ensures GetYoloFlag(config, assistant) == assistant.yoloFlag
        <== config.customYoloFlag.None? || IsBlank(config.customYoloFlag.value)
    ensures config.customYoloFlag.Some? && !IsBlank(config.customYoloFlag.value)
        ==> GetYoloFlag(config, assistant) == config.customYoloFlag.value
    ensures !IsBlank(assistant.command) ==> !IsBlank(GetCommand(config, assistant))
  {
  }

  /**
   * The full command is the effective command, extended exactly when YOLO mode is
   * on and the flag is not blank, and then by one space and the flag.
   */
  lemma FullCommandShape(config: AssistantConfig, assistant: AssistantDefinition)
    ensures var full, base := BuildFullCommand(config, assistant), GetCommand(config, assistant);
      && StartsWith(full, base)
      && (|full| > |base| <==> config.yoloEnabled && !IsBlank(GetYoloFlag(config, assistant)))
      && (|full| > |base| ==> full[|base|..] == " " + GetYoloFlag(config, assistant))
  {
    var full, base := BuildFullCommand(config, assistant), GetCommand(config, assistant);
    var flag := GetYoloFlag(config, assistant);
    if config.yoloEnabled && !IsBlank(flag) {
      assert full[|base|..] == " " + flag;
    }
  }

  // === The registry ===

  const CLAUDE_CODE := AssistantDefinition(
    "claude-code", "Claude Code", "claude", "--dangerously-skip-permissions", "Auto Mode",
    "curl -fsSL https://claude.ai/install.sh | bash",
    Some("npm install -g @anthropic-ai/claude-code"),
    "https://docs.anthropic.com/en/docs/claude-code", "Anthropic's AI coding assistant", true)

  const CODEX := AssistantDefinition(
    "codex", "Codex (OpenAI)", "codex", "--full-auto", "Full Auto",
    "npm install -g @openai/codex", None,
    "https://github.com/openai/codex", "OpenAI's coding assistant", true)

  const GEMINI_CLI := AssistantDefinition(
    "gemini-cli", "Gemini CLI", "gemini", "-y", "Auto",
    "npm install -g @google/gemini-cli", None,
    "https://github.com/google-gemini/gemini-cli", "Google's AI coding assistant", true)

  const OPENCODE := AssistantDefinition(
    "opencode", "OpenCode", "opencode", "--auto-approve", "Auto",
    "curl -fsSL https://opencode.ai/install | bash", Some("npm install -g opencode-ai"),
    "https://github.com/anomalyco/opencode", "Open-source AI coding assistant", true)

  const BUILTIN: seq<AssistantDefinition> := [CLAUDE_CODE, CODEX, GEMINI_CLI, OPENCODE]

  /** Four built-in assistants, each marked built-in, with pairwise distinct ids and commands. */
  lemma BuiltinRegistry()
    ensures |BUILTIN| == 4
    ensures forall i :: 0 <= i < |BUILTIN| ==> BUILTIN[i].isBuiltIn
    ensures forall i, j :: 0 <= i < j < |BUILTIN| ==> BUILTIN[i].id != BUILTIN[j].id
    ensures forall i, j :: 0 <= i < j < |BUILTIN| ==> BUILTIN[i].command != BUILTIN[j].command
  {
  }

  /** `map { it.copy(isBuiltIn = false) }` */
  function MarkCustom(assistants: seq<AssistantDefinition>): (r: seq<AssistantDefinition>)
    ensures |r| == |assistants|
    ensures forall i :: 0 <= i < |r| ==> !r[i].isBuiltIn
    ensures forall i :: 0 <= i < |r| ==> r[i].(isBuiltIn := assistants[i].isBuiltIn) == assistants[i]
  {
    seq(|assistants|, i requires 0 <= i < |assistants| => assistants[i].(isBuiltIn := false))
  }

  /** The position of the first element `matches` accepts, or -1. */
  function FirstIndexWhere(list: seq<AssistantDefinition>, matches: AssistantDefinition -> bool): (k: int)
    ensures -1 <= k < |list|
    ensures k == -1 <==> forall j :: 0 <= j < |list| ==> !matches(list[j])
    ensures k >= 0 ==> matches(list[k]) && forall j :: 0 <= j < k ==> !matches(list[j])
  {
    if list == [] then -1
    else if matches(list[0]) then 0
    else
      var k := FirstIndexWhere(list[1..], matches);
      if k == -1 then -1 else k + 1
  }

  /** `find`: the first element `matches` accepts. */
  function FindFirst(list: seq<AssistantDefinition>, matches: AssistantDefinition -> bool)
    : (r: Option<AssistantDefinition>)
    ensures r.None? <==> forall j :: 0 <= j < |list| ==> !matches(list[j])
    ensures r.Some? ==> matches(r.value) && r.value == list[FirstIndexWhere(list, matches)]
  {
    var k := FirstIndexWhere(list, matches);
    if k == -1 then None else Some(list[k])
  }

  /** Searching a concatenation finds a match in the first part before any in the second. */
  lemma {:induction false} FindFirstAppend(
    front: seq<AssistantDefinition>, back: seq<AssistantDefinition>, matches: AssistantDefinition -> bool)
    ensures FindFirst(front + back, matches)
         == if FindFirst(front, matches).Some? then FindFirst(front, matches) else FindFirst(back, matches)
  {
    if front != [] {
      assert (front + back)[0] == front[0] && (front + back)[1..] == front[1..] + back;
      FindFirstAppend(front[1..], back, matches);
    } else {
      assert front + back == back;
    }
  }

  /** The ids of a list of assistants. */
  function Ids(list: seq<AssistantDefinition>): set<string> {
    set i | 0 <= i < |list| :: list[i].id
  }

  /** The registry of assistants: the built-ins followed by the custom ones from settings. */
  class AIAssistants {
    var customAssistants: seq<AssistantDefinition>

    constructor ()
      ensures customAssistants == []
    {
      customAssistants := [];
    }

    function All(): (r: seq<AssistantDefinition>)
      reads this
    {
      BUILTIN + customAssistants
    }

    /** Replaces the custom list; every stored entry is marked not built-in. */
    method SetCustomAssistants(assistants: seq<AssistantDefinition>)
      modifies this
      ensures customAssistants == MarkCustom(assistants)
      ensures All()[..|BUILTIN|] == BUILTIN
      ensures forall i :: |BUILTIN| <= i < |All()| ==> !All()[i].isBuiltIn
    {
      customAssistants := MarkCustom(assistants);
    }

    function FindById(id: string): Option<AssistantDefinition>
      reads this
    {
      FindFirst(All(), (a: AssistantDefinition) => a.id == id)
    }

    function FindByCommand(command: string): Option<AssistantDefinition>
      reads this
    {
      FindFirst(All(), (a: AssistantDefinition) => a.command == command)
    }

    /** `associate`: one default config per id of `All()`, keyed by that id. */
    function DefaultConfigs(): (configs: map<string, AssistantConfig>)
      reads this
      ensures configs.Keys == Ids(All())
      ensures forall id :: id in configs ==> configs[id] == DefaultConfig(id)
    {
      map id | id in Ids(All()) :: DefaultConfig(id)
    }
  }

  /**
   * A built-in assistant shadows every custom one with the same id or command:
   * lookups return the built-in entry whatever the custom list holds.
   */
  lemma BuiltinShadowsCustom(registry: AIAssistants, i: int)
    requires 0 <= i < |BUILTIN|
    ensures registry.FindById(BUILTIN[i].id) == Some(BUILTIN[i])
    ensures registry.FindByCommand(BUILTIN[i].command) == Some(BUILTIN[i])
  {
    BuiltinRegistry();
    var byId := (a: AssistantDefinition) => a.id == BUILTIN[i].id;
    var byCommand := (a: AssistantDefinition) => a.command == BUILTIN[i].command;
    FindFirstAppend(BUILTIN, registry.customAssistants, byId);
    FindFirstAppend(BUILTIN, registry.customAssistants, byCommand);
    assert FirstIndexWhere(BUILTIN, byId) == i;
    assert FirstIndexWhere(BUILTIN, byCommand) == i;
  }

  /** An id that no built-in uses is looked up among the custom assistants, which are never built-in. */
  lemma CustomLookup(registry: AIAssistants, id: string)
    requires forall i :: 0 <= i < |BUILTIN| ==> BUILTIN[i].id != id
    requires forall i :: 0 <= i < |registry.customAssistants| ==> !registry.customAssistants[i].isBuiltIn
    ensures registry.FindById(id) == FindFirst(registry.customAssistants, (a: AssistantDefinition) => a.id == id)
    ensures registry.FindById(id).Some? ==> !registry.FindById(id).value.isBuiltIn
  {
    var byId := (a: AssistantDefinition) => a.id == id;
    FindFirstAppend(BUILTIN, registry.customAssistants, byId);
  }
}
