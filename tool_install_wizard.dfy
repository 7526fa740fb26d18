/**
 * The tool-install wizard: its step list, the rules each step applies to the
 * wizard state, the choice between the install script and the npm fallback, and
 * the commands written back to the calling terminal once installation succeeds.
 */
module ToolInstallWizard {
  import opened Nullables
  import opened WizardStep
  import opened WizardState
  import opened AIAssistantDefinition
  import opened Text

  datatype InstallMethod = Script | Npm

  datatype ToolInstallState = ToolInstallState(
    tool: AssistantDefinition,
    adminPassword: string,
    installMethod: InstallMethod,
    installSuccess: Option<bool>,
    terminalKey: int)

  /** The state the wizard starts from, with every other field at its default. */
  function InitialState(tool: AssistantDefinition): ToolInstallState {
    ToolInstallState(tool, "", Script, None, 0)
  }

  const PASSWORD := "password"
  const INSTALLING := "installing"
  const GH_AUTH := "gh_auth"
  const COMPLETE := "complete"

  const PASSWORD_STEP: Step<ToolInstallState> :=
    Step(PASSWORD, "Password", true, false, Linux, (st: ToolInstallState) => st.adminPassword != "")
  const INSTALLING_STEP: Step<ToolInstallState> :=
    Step(INSTALLING, "Installing", false, false, All, (st: ToolInstallState) => st.installSuccess == Some(true))
  const GH_AUTH_STEP: Step<ToolInstallState> :=
    Step(GH_AUTH, "GitHub Auth", false, true, All, (st: ToolInstallState) => true)
  const COMPLETE_STEP: Step<ToolInstallState> :=
    Step(COMPLETE, "Complete", false, false, All, (st: ToolInstallState) => true)

  /** The steps of the wizard for a tool; `isGhTool` is whether the tool is the GitHub CLI. */
  function ToolSteps(isGhTool: bool): seq<Step<ToolInstallState>> {
    [PASSWORD_STEP, INSTALLING_STEP] + (if isGhTool then [GH_AUTH_STEP] else []) + [COMPLETE_STEP]
  }

  function StepIds(steps: seq<Step<ToolInstallState>>): (ids: seq<string>)
    ensures |ids| == |steps| && forall i :: 0 <= i < |steps| ==> ids[i] == steps[i].id
  {
    seq(|steps|, i requires 0 <= i < |steps| => steps[i].id)
  }

  /** The step list, built by appending in order as the wizard does. */
  method BuildSteps(isGhTool: bool) returns (steps: seq<Step<ToolInstallState>>)
    ensures steps == ToolSteps(isGhTool)
  {
    steps := [];
    steps := steps + [PASSWORD_STEP];
    steps := steps + [INSTALLING_STEP];
    if isGhTool {
      steps := steps + [GH_AUTH_STEP];
    }
    steps := steps + [COMPLETE_STEP];
  }

  /**
   * The step list is PASSWORD, INSTALLING, GH_AUTH (GitHub CLI only), COMPLETE;
   * only PASSWORD is visible and restricted to Linux, only GH_AUTH may be skipped;
   * PASSWORD can proceed iff a password was typed, INSTALLING iff the install
   * succeeded, and the other steps always.
   */
  lemma ToolStepsLayout(isGhTool: bool)
    ensures var steps := ToolSteps(isGhTool);
      && StepIds(steps) == (if isGhTool then [PASSWORD, INSTALLING, GH_AUTH, COMPLETE]
                                       else [PASSWORD, INSTALLING, COMPLETE])
      && (forall i :: 0 <= i < |steps| ==>
            && (steps[i].isVisible <==> steps[i].id == PASSWORD)
            && (steps[i].platformFilter.Linux? <==> steps[i].id == PASSWORD)
            && (steps[i].platformFilter.Linux? || steps[i].platformFilter.All?)
            && (steps[i].canSkip <==> steps[i].id == GH_AUTH))
      && (forall i, st :: 0 <= i < |steps| ==>
            (steps[i].canProceed(st) <==>
              (steps[i].id == PASSWORD ==> st.adminPassword != "")
              && (steps[i].id == INSTALLING ==> st.installSuccess == Some(true))))
  {
    var steps := ToolSteps(isGhTool);
    var ids := StepIds(steps);
    if isGhTool {
      assert steps == [PASSWORD_STEP, INSTALLING_STEP, GH_AUTH_STEP, COMPLETE_STEP];
      assert ids == [PASSWORD, INSTALLING, GH_AUTH, COMPLETE];
    } else {
      assert steps == [PASSWORD_STEP, INSTALLING_STEP, COMPLETE_STEP];
      assert ids == [PASSWORD, INSTALLING, COMPLETE];
    }
  }

  lemma ToolStepIdsDistinct(isGhTool: bool)
    ensures DistinctIds(ToolSteps(isGhTool))
  {
    ToolStepsLayout(isGhTool);
  }

  /** Every step of the list except the password step is hidden and available everywhere. */
  lemma ToolStepsTail(isGhTool: bool)
    ensures ToolSteps(isGhTool)[0] == PASSWORD_STEP
    ensures var rest := ToolSteps(isGhTool)[1..];
      forall i :: 0 <= i < |rest| ==> rest[i].platformFilter.All? && !rest[i].isVisible
  {
    var rest := ToolSteps(isGhTool)[1..];
    if isGhTool {
      assert rest == [INSTALLING_STEP, GH_AUTH_STEP, COMPLETE_STEP];
    } else {
      assert rest == [INSTALLING_STEP, COMPLETE_STEP];
    }
  }

  /** On Linux every step is active. */
  lemma ActiveOnLinux(w: WizardState<ToolInstallState>, isGhTool: bool)
    requires w.steps == ToolSteps(isGhTool) && w.platform.isLinux
    ensures w.ActiveSteps() == ToolSteps(isGhTool)
  {
    var steps := ToolSteps(isGhTool);
    ToolStepsTail(isGhTool);
    assert forall i :: 0 <= i < |steps| ==> Matches(steps[i].platformFilter, w.platform) by {
      forall i | 0 <= i < |steps| ensures Matches(steps[i].platformFilter, w.platform) {
        if i > 0 {
          assert steps[i] == steps[1..][i - 1];
        }
      }
    }
    forall keep: Step<ToolInstallState> -> bool | forall i :: 0 <= i < |steps| ==> keep(steps[i])
      ensures Filter(steps, keep) == steps
    {
      FilterKeepsAll(steps, keep);
    }
  }

  /** Elsewhere every step but the password step is active. */
  lemma ActiveElsewhere(w: WizardState<ToolInstallState>, isGhTool: bool)
    requires w.steps == ToolSteps(isGhTool) && !w.platform.isLinux
    ensures w.ActiveSteps() == ToolSteps(isGhTool)[1..]
  {
    var steps := ToolSteps(isGhTool);
    var rest := steps[1..];
    ToolStepsTail(isGhTool);
    assert forall i :: 0 <= i < |rest| ==> Matches(rest[i].platformFilter, w.platform);
    forall keep: Step<ToolInstallState> -> bool | forall i :: 0 <= i < |rest| ==> keep(rest[i])
      ensures Filter(steps, keep) == (if keep(steps[0]) then [steps[0]] else []) + rest
    {
      FilterKeepsAll(rest, keep);
    }
    assert !Matches(steps[0].platformFilter, w.platform);
  }

  /**
   * In a wizard over these steps the password step is active exactly on Linux, and
   * it is the only visible step, so at most one step is ever visible.
   */
  lemma ToolWizardSteps(w: WizardState<ToolInstallState>, isGhTool: bool)
    requires w.steps == ToolSteps(isGhTool)
    ensures w.platform.isLinux ==> w.ActiveSteps() == ToolSteps(isGhTool)
    ensures !w.platform.isLinux ==> w.ActiveSteps() == ToolSteps(isGhTool)[1..]
    ensures w.VisibleSteps() == if w.platform.isLinux then [PASSWORD_STEP] else []
  {
    var rest := ToolSteps(isGhTool)[1..];
    ToolStepsTail(isGhTool);
    forall keep: Step<ToolInstallState> -> bool | forall i :: 0 <= i < |rest| ==> !keep(rest[i])
      ensures Filter(rest, keep) == []
    {
      FilterDropsAll(rest, keep);
    }
    if w.platform.isLinux {
      ActiveOnLinux(w, isGhTool);
      var steps := ToolSteps(isGhTool);
      assert Filter(steps, (s: Step<ToolInstallState>) => s.isVisible) == [PASSWORD_STEP] + Filter(rest, (s: Step<ToolInstallState>) => s.isVisible);
    } else {
      ActiveElsewhere(w, isGhTool);
    }
  }

  /** The step indicator is shown for a visible step when more than one step is visible. */
  predicate ShowStepIndicator(step: Step<ToolInstallState>, visibleCount: int) {
    step.isVisible && visibleCount > 1
  }

  /** With a single visible step at most, the step indicator is never shown. */
  lemma StepIndicatorNeverShown(w: WizardState<ToolInstallState>, isGhTool: bool, step: Step<ToolInstallState>)
    requires w.steps == ToolSteps(isGhTool)
    ensures !ShowStepIndicator(step, |w.VisibleSteps()|)
  {
    ToolWizardSteps(w, isGhTool);
  }

  function PrimaryButtonText(stepId: string): string {
    if stepId == PASSWORD then "Install"
    else if stepId == COMPLETE then "Close"
    else "Next"
  }

  predicate ShowPrimaryButton(stepId: string) {
    stepId != GH_AUTH
  }

  predicate ShowBackButton(stepId: string, canGoBack: bool) {
    stepId == PASSWORD && canGoBack
  }

  /**
   * The password step, when present, is the first active step, so `canGoBack` is
   * false there and the back button is never shown.
   */
  lemma BackButtonNeverShown(w: WizardState<ToolInstallState>, isGhTool: bool)
    requires w.steps == ToolSteps(isGhTool) && w.Valid()
    ensures !ShowBackButton(w.currentStepId, w.CanGoBack())
  {
    ToolWizardSteps(w, isGhTool);
    if w.currentStepId == PASSWORD {
      if w.platform.isLinux {
        assert w.ActiveSteps()[0].id == PASSWORD;
      } else {
        var active := w.ActiveSteps();
        ToolStepsLayout(isGhTool);
        forall j | 0 <= j < |active| ensures active[j].id != PASSWORD {
          assert active[j] == ToolSteps(isGhTool)[j + 1];
        }
      }
    }
  }

  /** The button rules on the steps: the primary button is hidden only on GH_AUTH. */
  lemma ButtonRules(isGhTool: bool)
    ensures forall i :: 0 <= i < |ToolSteps(isGhTool)| ==>
      var id := ToolSteps(isGhTool)[i].id;
      && (ShowPrimaryButton(id) <==> !ToolSteps(isGhTool)[i].canSkip)
      && PrimaryButtonText(id) == (if i == 0 then "Install" else if i == |ToolSteps(isGhTool)| - 1 then "Close" else "Next")
  {
    ToolStepsLayout(isGhTool);
  }

  // === Install command and state updates ===

  /** The command the installing step runs. */
  function CurrentInstallCommand(installMethod: InstallMethod, installCommand: string, npmCommand: Option<string>)
    : (command: string)
    ensures installMethod == Npm && npmCommand.Some? ==> command == npmCommand.value
    ensures installMethod == Script || npmCommand.None? ==> command == installCommand
  {
    if installMethod == Npm && npmCommand.Some? then npmCommand.value else installCommand
  }

  /** What can happen to the state while the wizard is open. */
  datatype Event =
    | PasswordChanged(password: string)
    | InstallFinished(success: bool)
    | TryNpm

  /** The state after `event`; "try npm" has no effect without an npm command. */
  function Apply(st: ToolInstallState, event: Event, npmCommand: Option<string>): ToolInstallState {
    match event
    case PasswordChanged(pwd) => st.(adminPassword := pwd)
    case InstallFinished(success) => st.(installSuccess := Some(success))
    case TryNpm =>
      if npmCommand.None? then st
      else st.(installMethod := Npm, installSuccess := None, terminalKey := st.terminalKey + 1)
  }

  function ApplyAll(st: ToolInstallState, events: seq<Event>, npmCommand: Option<string>): ToolInstallState
    decreases |events|
  {
    if events == [] then st else ApplyAll(Apply(st, events[0], npmCommand), events[1..], npmCommand)
  }

  /** Whether the installing step offers the npm fallback. */
  predicate ShowNpmFallback(st: ToolInstallState, npmCommand: Option<string>) {
    st.installSuccess == Some(false) && npmCommand.Some? && st.installMethod == Script
  }

  /**
   * "Try npm" switches to npm, clears the result and bumps the terminal key by one,
   * keeping tool and password; the fallback is then no longer offered and the
   * installing step runs the npm command.
   */
  lemma TryNpmEffect(st: ToolInstallState, installCommand: string, npmCommand: Option<string>)
    requires npmCommand.Some?
    ensures var st' := Apply(st, TryNpm, npmCommand);
      && st'.tool == st.tool && st'.adminPassword == st.adminPassword
      && st'.installMethod == Npm && st'.installSuccess == None && st'.terminalKey == st.terminalKey + 1
      && !ShowNpmFallback(st', npmCommand)
      && CurrentInstallCommand(st'.installMethod, installCommand, npmCommand) == npmCommand.value
  {
  }

  /** Once on npm the wizard stays on npm, so the fallback is never offered again. */
  lemma {:induction false} NpmIsFinal(st: ToolInstallState, events: seq<Event>, npmCommand: Option<string>)
    requires st.installMethod == Npm
    ensures ApplyAll(st, events, npmCommand).installMethod == Npm
    ensures !ShowNpmFallback(ApplyAll(st, events, npmCommand), npmCommand)
    decreases |events|
  {
    if events != [] {
      NpmIsFinal(Apply(st, events[0], npmCommand), events[1..], npmCommand);
    }
  }

  function CountRetries(events: seq<Event>): nat {
    if events == [] then 0 else (if events[0].TryNpm? then 1 else 0) + CountRetries(events[1..])
  }

  /**
   * The terminal key counts the npm retries, and the tool never changes; without
   * an npm command the key never moves.
   */
  lemma {:induction false} TerminalKeyCountsRetries(
    st: ToolInstallState, events: seq<Event>, npmCommand: Option<string>)
    ensures var final := ApplyAll(st, events, npmCommand);
      && final.terminalKey == st.terminalKey + (if npmCommand.Some? then CountRetries(events) else 0)
      && final.tool == st.tool
    decreases |events|
  {
    if events != [] {
      TerminalKeyCountsRetries(Apply(st, events[0], npmCommand), events[1..], npmCommand);
    }
  }

  /** The initial state neither lets the password step proceed nor offers the fallback. */
  lemma InitialStateBlocks(tool: AssistantDefinition, npmCommand: Option<string>)
    ensures !PASSWORD_STEP.canProceed(InitialState(tool))
    ensures !INSTALLING_STEP.canProceed(InitialState(tool))
    ensures !ShowNpmFallback(InitialState(tool), npmCommand)
  {
  }

  /** The environment of the install terminal: the sudo password only when one was typed. */
  function InstallEnvironment(st: ToolInstallState): (env: map<string, string>)
    ensures "BOSSTERM_SUDO_PWD" in env <==> st.adminPassword != ""
    ensures "BOSSTERM_SUDO_PWD" in env ==> env["BOSSTERM_SUDO_PWD"] == st.adminPassword
    ensures env.Keys <= {"BOSSTERM_SUDO_PWD"}
  {
    if st.adminPassword != "" then map["BOSSTERM_SUDO_PWD" := st.adminPassword] else map[]
  }

  /** The installing step's reaction to the end of the install: record the result, advance on success. */
  method OnInstallFinished(wizard: WizardState<ToolInstallState>, success: bool)
    requires wizard.Valid()
    modifies wizard`state, wizard`currentStepId
    ensures wizard.Valid()
    ensures wizard.state == Apply(old(wizard.state), InstallFinished(success), None)
    ensures success ==>
      wizard.currentStepId == NextStepId(wizard.ActiveSteps(), old(wizard.currentStepId), wizard.state, wizard.isProcessing)
    ensures !success ==> wizard.currentStepId == old(wizard.currentStepId)
  {
    wizard.UpdateState((st: ToolInstallState) => st.(installSuccess := Some(success)));
    if success {
      wizard.Next();
    }
  }

  /**
   * A successful install moves the wizard from INSTALLING to GH_AUTH for the GitHub
   * CLI and to COMPLETE otherwise, on every platform; a failed one stays put.
   */
  lemma InstallResultMoves(w: WizardState<ToolInstallState>, isGhTool: bool, st: ToolInstallState)
    requires w.steps == ToolSteps(isGhTool)
    ensures st.installSuccess == Some(true) ==>
      NextStepId(w.ActiveSteps(), INSTALLING, st, false) == (if isGhTool then GH_AUTH else COMPLETE)
    ensures st.installSuccess != Some(true) ==>
      NextStepId(w.ActiveSteps(), INSTALLING, st, false) == INSTALLING
  {
    ToolWizardSteps(w, isGhTool);
    var steps := ToolSteps(isGhTool);
    var target := if isGhTool then GH_AUTH else COMPLETE;
    assert steps[1] == INSTALLING_STEP && steps[2].id == target;
    if w.platform.isLinux {
      NextFromInstalling(steps, 1, st);
    } else {
      NextFromInstalling(steps[1..], 0, st);
    }
  }

  /** `next()` from the installing step at position `k`: on success to position k + 1, else nowhere. */
  lemma NextFromInstalling(active: seq<Step<ToolInstallState>>, k: int, st: ToolInstallState)
    requires 0 <= k < |active| - 1 && active[k] == INSTALLING_STEP
    requires forall j :: 0 <= j < k ==> active[j].id != INSTALLING
    ensures st.installSuccess == Some(true) ==> NextStepId(active, INSTALLING, st, false) == active[k + 1].id
    ensures st.installSuccess != Some(true) ==> NextStepId(active, INSTALLING, st, false) == INSTALLING
  {
    assert IndexOfId(active, INSTALLING) == k;
  }

  // === The command re-run after a successful install ===

  /** Each `'` becomes `'\''`: close the quotes, an escaped quote, reopen the quotes. */
  function EscapeSingleQuotes(command: string): string {
    ReplaceChar(command, '\'', "'\\''")
  }

  /** The line written to the terminal to run `command` in a fresh login shell. */
  function RerunLine(command: string): string {
    "$SHELL -l -c '" + EscapeSingleQuotes(command) + "'\n"
  }

  /** Characters that end or alter a word when they appear unquoted. */
  predicate IsUnquotedSpecial(c: char) {
    c in " \t\n|&;<>()$`\"*?[#~=%"
  }

  function Prepend(c: char, rest: Option<string>): Option<string> {
    if rest.None? then None else Some([c] + rest.value)
  }

  /**
   * The value of one shell word under the quoting rules of section 2.2 of the POSIX
   * Shell Command Language: inside single quotes every character up to the next `'`
   * is literal; outside, `\` keeps the next character literal (and drops a following
   * newline); None when the quotes are unbalanced or an unquoted character would end
   * or expand the word.
   */
  function Unquote(s: string, inQuotes: bool): (r: Option<string>)
    ensures r.Some? ==> |r.value| <= |s|
    decreases |s|
  {
    if s == [] then
      if inQuotes then None else Some([])
    else if inQuotes then
      if s[0] == '\'' then Unquote(s[1..], false) else Prepend(s[0], Unquote(s[1..], true))
    else if s[0] == '\'' then Unquote(s[1..], true)
    else if s[0] == '\\' then
      if |s| == 1 then None
      else if s[1] == '\n' then Unquote(s[2..], false)
      else Prepend(s[1], Unquote(s[2..], false))
    else if IsUnquotedSpecial(s[0]) then None
    else Prepend(s[0], Unquote(s[1..], false))
  }

  /** Inside an open quote, the escaped command followed by the closing quote reads back as the command. */
  lemma {:induction false} EscapedTailRoundTrip(command: string)
    ensures Unquote(EscapeSingleQuotes(command) + "'", true) == Some(command)
    decreases |command|
  {
    if command == [] {
      assert EscapeSingleQuotes(command) + "'" == "'";
      assert Unquote("'", true) == Unquote([], false);
    } else {
      var rest := command[1..];
      assert command == [command[0]] + rest;
      EscapedTailRoundTrip(rest);
      var tail := EscapeSingleQuotes(rest) + "'";
      if command[0] == '\'' {
        var s := EscapeSingleQuotes(command) + "'";
        assert s == "'\\''" + tail;
        assert s[1..] == "\\''" + tail;
        assert Unquote(s, true) == Unquote(s[1..], false);
        assert s[1..][2..] == "'" + tail;
        assert Unquote("'" + tail, false) == Unquote(tail, true) by {
          assert ("'" + tail)[1..] == tail;
        }
      } else {
        var s := EscapeSingleQuotes(command) + "'";
        assert s == [command[0]] + tail;
        assert s[1..] == tail;
      }
    }
  }

  /**
   * The quoted word written after `-c` reads back, under POSIX quoting, as exactly
   * the command to re-run, whatever quotes it contains.
   */
  lemma QuotedCommandRoundTrip(command: string)
    ensures Unquote("'" + EscapeSingleQuotes(command) + "'", false) == Some(command)
    ensures RerunLine(command) == "$SHELL -l -c " + ("'" + EscapeSingleQuotes(command) + "'") + "\n"
  {
    var word := "'" + EscapeSingleQuotes(command) + "'";
    assert word[1..] == EscapeSingleQuotes(command) + "'";
    EscapedTailRoundTrip(command);
  }

  /** Without the escaping, a command holding a single quote is not read back. */
  lemma UnescapedQuoteBreaksWord()
    ensures Unquote("'" + "'" + "'", false) == None
  {
    assert ("'" + "'" + "'")[1..] == "''";
    assert "''"[1..] == "'";
    assert "'"[1..] == [];
  }

  /** What the completion callback does, in order. */
  datatype Effect = ClearLine | Write(text: string) | Completed(success: bool)

  /** The success message echoed into the calling terminal. */
  function SuccessMessage(displayName: string): string {
    "echo '\U{2713} " + displayName + " installed successfully!'\n"
  }

  /**
   * The wizard's completion: on success with a terminal writer, clear the line (when
   * a clear callback exists), echo the success message and re-run the command (when
   * one was given); in every case report the success flag.
   */
  function CompletionEffects(st: ToolInstallState, hasWriter: bool, hasClearLine: bool,
                             commandToRunAfter: Option<string>): seq<Effect>
  {
    var success := st.installSuccess == Some(true);
    var writes :=
      if success && hasWriter then
        (if hasClearLine then [ClearLine] else [])
        + [Write(SuccessMessage(st.tool.displayName))]
        + (if commandToRunAfter.Some? then [Write(RerunLine(commandToRunAfter.value))] else [])
      else [];
    writes + [Completed(success)]
  }

  /**
   * Completion always ends by reporting `installSuccess == true`; it writes to the
   * terminal only after a successful install with a writer, and then its last write
   * re-runs the requested command.
   */
  lemma CompletionRules(st: ToolInstallState, hasWriter: bool, hasClearLine: bool,
                        commandToRunAfter: Option<string>)
    ensures var effects := CompletionEffects(st, hasWriter, hasClearLine, commandToRunAfter);
      && effects[|effects| - 1] == Completed(st.installSuccess == Some(true))
      && (forall i :: 0 <= i < |effects| - 1 ==> !effects[i].Completed?)
      && ((exists i :: 0 <= i < |effects| && effects[i].Write?) <==> st.installSuccess == Some(true) && hasWriter)
      && (st.installSuccess == Some(true) && hasWriter && commandToRunAfter.Some? ==>
            effects[|effects| - 2] == Write(RerunLine(commandToRunAfter.value)))
  {
    var effects := CompletionEffects(st, hasWriter, hasClearLine, commandToRunAfter);
    if st.installSuccess == Some(true) && hasWriter {
      var k := if hasClearLine then 1 else 0;
      assert effects[k] == Write(SuccessMessage(st.tool.displayName));
    }
  }
}
