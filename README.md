# BossTerm core logic in Dafny

This project models the decision logic of BossTerm, a Kotlin terminal emulator, and proves properties of it.
It covers these parts of the program:

- **Emoji classification** (`UnicodeConstants`): variation selectors, skin-tone modifiers, gender signs and regional indicators.
  Regional indicators are also recognised from their UTF-16 surrogate pair (section 2.1 of RFC 2781).
- **The generic wizard** (`WizardStep`, `WizardState`): platform filters, active and visible steps, and the navigation moves next, back and go-to.
  It also keeps the processing flag and the error message.
- **The tool-install wizard** (`ToolInstallWizard`): its step list and the `canProceed` rules.
  It also covers the script-or-npm choice, the "try npm" retry, the install environment and the button rules.
  Finally it covers the command re-run after a successful install, whose single-quote escaping is proved correct against the quoting rules of section 2.2 of the POSIX Shell Command Language.
- **The AI-assistant registry** (`AIAssistantDefinition`): command and YOLO-flag precedence, the built-in list, custom assistants and lookups.
- **Context menus** (`AIAssistantMenuProvider`, `ShellCustomizationMenuProvider`): the shape and ids of the menu trees.
  It also covers the precedence of the Starship and Oh My Zsh install status.
- **Shell-integration injection** (`ShellIntegrationInjector`): which shell is configured and which environment variables each shell gets.
- **Hyperlink file paths** (`FilePathResolver`): classification and resolution of path forms, the quick `looksLike*` tests, and the existence cache with its time-to-live and eviction.

Supporting modules: `Nullables` (Kotlin's nullable values as `Option`) and `Text` (the Kotlin string operations the code uses: `isBlank`, `startsWith`, `endsWith`, `contains`, `replace`, `File.name`).
`ContextMenu` holds the menu-element tree.

Kotlin objects whose fields change become classes: `WizardState`, `AIAssistants`, `ShellCustomizationMenuProvider`, the injector's `Environment` and the resolver's `PathCache`.
Their methods are proved against specification functions (`NextStepId`, `WithZsh`, `ExistsSpec`, ...), and the lemmas state the properties of those functions.
Some facts follow from the proofs without being written in the source:

- In the tool-install wizard at most one step is ever visible, so the step indicator is never shown (`StepIndicatorNeverShown`).
- The password step, when present, is the first step, so the back button is never shown (`BackButtonNeverShown`).
- Injecting zsh twice saves the integration directory itself as the original `ZDOTDIR` (`ZshInjectedTwice`).
- Injecting fish twice prepends the fish directory twice (`FishInjectedTwice`).

## Model

| member | source | states |
|---|---|---|
| UnicodeConstants.IsVariationSelector | bossterm-core-mpp/src/jvmMain/kotlin/ai/rever/bossterm/terminal/util/UnicodeConstants.kt:45-46 | a code point is a variation selector iff it is U+FE0E or U+FE0F (its set: `VariationSelectorSet`) |
| UnicodeConstants.IsVariationSelectorChar | bossterm-core-mpp/src/jvmMain/kotlin/ai/rever/bossterm/terminal/util/UnicodeConstants.kt:49 | the `Char` overload tests the unit's code with the code-point version (agreement: `VariationSelectorFitsOneUnit`) |
| UnicodeConstants.IsSkinToneModifier | bossterm-core-mpp/src/jvmMain/kotlin/ai/rever/bossterm/terminal/util/UnicodeConstants.kt:52 | membership of U+1F3FB..U+1F3FF (its set: `SkinToneModifierCount`) |
| UnicodeConstants.IsGenderSymbol | bossterm-core-mpp/src/jvmMain/kotlin/ai/rever/bossterm/terminal/util/UnicodeConstants.kt:55-56 | equality with U+2640 or U+2642 (its set: `GenderSymbolSet`) |
| UnicodeConstants.IsRegionalIndicator | bossterm-core-mpp/src/jvmMain/kotlin/ai/rever/bossterm/terminal/util/UnicodeConstants.kt:59 | membership of U+1F1E6..U+1F1FF (its set: `RegionalIndicatorCount`) |
| UnicodeConstants.IsRegionalIndicatorHighSurrogate | bossterm-core-mpp/src/jvmMain/kotlin/ai/rever/bossterm/terminal/util/UnicodeConstants.kt:62-63 | a code unit equals U+D83C (meaning: `RegionalIndicatorBySurrogates`) |
| UnicodeConstants.IsRegionalIndicatorLowSurrogate | bossterm-core-mpp/src/jvmMain/kotlin/ai/rever/bossterm/terminal/util/UnicodeConstants.kt:66-67 | a unit code lies in U+DDE6..U+DDFF (meaning: `RegionalIndicatorBySurrogates`) |
| UnicodeConstants.VariationSelectorSet | bossterm-core-mpp/src/jvmMain/kotlin/ai/rever/bossterm/terminal/util/UnicodeConstants.kt:45-46 | the code points accepted by `isVariationSelector` are exactly U+FE0E and U+FE0F; the neighbours U+FE0D and U+FE10 are rejected |
| UnicodeConstants.VariationSelectorFitsOneUnit | bossterm-core-mpp/src/jvmMain/kotlin/ai/rever/bossterm/terminal/util/UnicodeConstants.kt:45-49 | the `Char` overload accepts exactly the same selectors as the code-point version |
| UnicodeConstants.SkinToneModifierCount | bossterm-core-mpp/src/jvmMain/kotlin/ai/rever/bossterm/terminal/util/UnicodeConstants.kt:52 | the skin-tone modifiers are the interval U+1F3FB..U+1F3FF, five code points |
| UnicodeConstants.GenderSymbolSet | bossterm-core-mpp/src/jvmMain/kotlin/ai/rever/bossterm/terminal/util/UnicodeConstants.kt:55-56 | the gender symbols are exactly U+2640 and U+2642 (U+2641 is not one) |
| UnicodeConstants.RegionalIndicatorCount | bossterm-core-mpp/src/jvmMain/kotlin/ai/rever/bossterm/terminal/util/UnicodeConstants.kt:59 | the regional indicators are the interval U+1F1E6..U+1F1FF, 26 code points |
| UnicodeConstants.IntervalSize | bossterm-core-mpp/src/jvmMain/kotlin/ai/rever/bossterm/terminal/util/UnicodeConstants.kt:26 | an interval of code points lo..hi has hi - lo + 1 members |
| UnicodeConstants.KindsDisjoint | bossterm-core-mpp/src/jvmMain/kotlin/ai/rever/bossterm/terminal/util/UnicodeConstants.kt:16-36 | no code point is of two kinds among variation selector, ZWJ, skin tone, gender sign and regional indicator |
| UnicodeConstants.HighSurrogate | bossterm-core-mpp/src/jvmMain/kotlin/ai/rever/bossterm/terminal/util/UnicodeConstants.kt:38 | the UTF-16 high surrogate of a supplementary code point lies in U+D800..U+DBFF |
| UnicodeConstants.LowSurrogate | bossterm-core-mpp/src/jvmMain/kotlin/ai/rever/bossterm/terminal/util/UnicodeConstants.kt:40 | the UTF-16 low surrogate of a supplementary code point lies in U+DC00..U+DFFF |
| UnicodeConstants.DecodeSurrogatePair | bossterm-core-mpp/src/jvmMain/kotlin/ai/rever/bossterm/terminal/util/UnicodeConstants.kt:38-40 | decoding a surrogate pair gives a supplementary code point |
| UnicodeConstants.DecodeEncode | bossterm-core-mpp/src/jvmMain/kotlin/ai/rever/bossterm/terminal/util/UnicodeConstants.kt:38-40 | decoding the surrogate pair of a code point gives back the code point |
| UnicodeConstants.EncodeDecode | bossterm-core-mpp/src/jvmMain/kotlin/ai/rever/bossterm/terminal/util/UnicodeConstants.kt:38-40 | encoding the code point of a surrogate pair gives back both units |
| UnicodeConstants.RegionalIndicatorBySurrogates | bossterm-core-mpp/src/jvmMain/kotlin/ai/rever/bossterm/terminal/util/UnicodeConstants.kt:59-67 | a supplementary code point is a regional indicator iff its high surrogate is U+D83C and its low surrogate lies in U+DDE6..U+DDFF |
| UnicodeConstants.RegionalIndicatorFromPair | bossterm-core-mpp/src/jvmMain/kotlin/ai/rever/bossterm/terminal/util/UnicodeConstants.kt:62-67 | the two surrogate tests on a pair hold iff the decoded code point is a regional indicator |
| WizardStep.Matches | compose-ui/src/desktopMain/kotlin/ai/rever/bossterm/compose/wizard/WizardStep.kt:54-62 | whether a filter admits the running platform, one case per filter kind (per kind: `SingleSystemFilters`, `UnixIsNonWindows`, `CustomFilter`) |
| WizardStep.DefaultStep | compose-ui/src/desktopMain/kotlin/ai/rever/bossterm/compose/wizard/WizardStep.kt:16-23 | a step built with defaults is visible, not skippable, available on every platform and can always proceed |
| WizardStep.AllMatchesEverywhere | compose-ui/src/desktopMain/kotlin/ai/rever/bossterm/compose/wizard/WizardStep.kt:55 | the `All` filter matches on every platform |
| WizardStep.UnixIsNonWindows | compose-ui/src/desktopMain/kotlin/ai/rever/bossterm/compose/wizard/WizardStep.kt:59-60 | `Unix` and `NonWindows` both match exactly when the system is not Windows |
| WizardStep.WindowsComplementsNonWindows | compose-ui/src/desktopMain/kotlin/ai/rever/bossterm/compose/wizard/WizardStep.kt:56-60 | `Windows` and `NonWindows` never agree |
| WizardStep.SingleSystemFilters | compose-ui/src/desktopMain/kotlin/ai/rever/bossterm/compose/wizard/WizardStep.kt:56-58 | `Windows`, `MacOS` and `Linux` each match exactly when the corresponding probe is true |
| WizardStep.CustomFilter | compose-ui/src/desktopMain/kotlin/ai/rever/bossterm/compose/wizard/WizardStep.kt:61 | `Custom(p)` matches exactly when `p()` holds |
| WizardState.NextStepId | compose-ui/src/desktopMain/kotlin/ai/rever/bossterm/compose/wizard/WizardState.kt:76-82 | the id after `next()`: the following active id when the step may proceed and is not last, else the same id (`NextAdvancesOneStep`, `NextBlocked`) |
| WizardState.PreviousStepId | compose-ui/src/desktopMain/kotlin/ai/rever/bossterm/compose/wizard/WizardState.kt:88-94 | the id after `back()`: the preceding active id when not first and not processing, else the same id (`BackRetreatsOneStep`, `BackBlocked`) |
| WizardState.GoToStepId | compose-ui/src/desktopMain/kotlin/ai/rever/bossterm/compose/wizard/WizardState.kt:100-104 | the id after `goToStep`: the target when an active step has it, else the same id (`GoToMovesOnlyToActiveIds`) |
| WizardState.WizardState.ActiveSteps | compose-ui/src/desktopMain/kotlin/ai/rever/bossterm/compose/wizard/WizardState.kt:35-36 | the steps whose platform filter matches, in list order (contents: `Filter`, `FilterAppend`) |
| WizardState.WizardState.VisibleSteps | compose-ui/src/desktopMain/kotlin/ai/rever/bossterm/compose/wizard/WizardState.kt:39-40 | the visible active steps, in order (`VisibleIndexOfHiddenStep`) |
| WizardState.WizardState.CurrentStep | compose-ui/src/desktopMain/kotlin/ai/rever/bossterm/compose/wizard/WizardState.kt:43-44 | the first active step with the current id, or none (`FindById`) |
| WizardState.WizardState.CurrentVisibleIndex | compose-ui/src/desktopMain/kotlin/ai/rever/bossterm/compose/wizard/WizardState.kt:47-48 | the first position of the current id among visible steps, or -1 (`IndexOfId`, `VisibleIndexOfHiddenStep`) |
| WizardState.WizardState.CurrentActiveIndex | compose-ui/src/desktopMain/kotlin/ai/rever/bossterm/compose/wizard/WizardState.kt:51-52 | the first position of the current id among active steps, or -1 (`IndexOfId`) |
| WizardState.WizardState.CanGoBack | compose-ui/src/desktopMain/kotlin/ai/rever/bossterm/compose/wizard/WizardState.kt:55-56 | the active index is positive and nothing is processing (`BackBlocked`, `MarkProcessing`) |
| WizardState.WizardState.CanGoNext | compose-ui/src/desktopMain/kotlin/ai/rever/bossterm/compose/wizard/WizardState.kt:59-60 | the current step exists, its `canProceed` holds and nothing is processing (`NextBlocked`, `MarkProcessing`) |
| WizardState.WizardState.IsFirstStep | compose-ui/src/desktopMain/kotlin/ai/rever/bossterm/compose/wizard/WizardState.kt:63-64 | the active index is 0 (`NoActiveStepsIsLast`) |
| WizardState.WizardState.IsLastStep | compose-ui/src/desktopMain/kotlin/ai/rever/bossterm/compose/wizard/WizardState.kt:67-68 | the active index equals the last index, so also on an empty list (`NoActiveStepsIsLast`) |
| WizardState.Filter | compose-ui/src/desktopMain/kotlin/ai/rever/bossterm/compose/wizard/WizardState.kt:35-40 | the filtered steps are steps of the list that pass, and every step that passes is kept |
| WizardState.FilterAppend | compose-ui/src/desktopMain/kotlin/ai/rever/bossterm/compose/wizard/WizardState.kt:35-40 | filtering a concatenation is the concatenation of the filtered parts, so order is kept |
| WizardState.FilterKeepsAll | compose-ui/src/desktopMain/kotlin/ai/rever/bossterm/compose/wizard/WizardState.kt:35-36 | a list whose steps all pass is kept whole |
| WizardState.IndexOfId | compose-ui/src/desktopMain/kotlin/ai/rever/bossterm/compose/wizard/WizardState.kt:47-52 | the result is the first position holding the id, or -1 exactly when no step holds it |
| WizardState.FindById | compose-ui/src/desktopMain/kotlin/ai/rever/bossterm/compose/wizard/WizardState.kt:43-44 | the current step is absent iff no active step has the id, else it is the first one with the id |
| WizardState.NextKeepsActive | compose-ui/src/desktopMain/kotlin/ai/rever/bossterm/compose/wizard/WizardState.kt:76-82 | `next()` keeps the current id on an active step |
| WizardState.PreviousKeepsActive | compose-ui/src/desktopMain/kotlin/ai/rever/bossterm/compose/wizard/WizardState.kt:88-94 | `back()` keeps the current id on an active step |
| WizardState.GoToKeepsActive | compose-ui/src/desktopMain/kotlin/ai/rever/bossterm/compose/wizard/WizardState.kt:100-104 | `goToStep` keeps the current id on an active step |
| WizardState.NextAdvancesOneStep | compose-ui/src/desktopMain/kotlin/ai/rever/bossterm/compose/wizard/WizardState.kt:76-82 | with unique ids, a permitted `next()` moves exactly one active step forward |
| WizardState.NextBlocked | compose-ui/src/desktopMain/kotlin/ai/rever/bossterm/compose/wizard/WizardState.kt:76-82 | `next()` does nothing while processing, on an unknown id, on the last step, or when the step cannot proceed |
| WizardState.BackRetreatsOneStep | compose-ui/src/desktopMain/kotlin/ai/rever/bossterm/compose/wizard/WizardState.kt:88-94 | with unique ids, a permitted `back()` moves exactly one active step back |
| WizardState.BackBlocked | compose-ui/src/desktopMain/kotlin/ai/rever/bossterm/compose/wizard/WizardState.kt:88-94 | `back()` does nothing on the first step and while processing |
| WizardState.GoToMovesOnlyToActiveIds | compose-ui/src/desktopMain/kotlin/ai/rever/bossterm/compose/wizard/WizardState.kt:100-104 | `goToStep` moves to the target iff an active step has that id, and otherwise stays |
| WizardState.VisibleIndexOfHiddenStep | compose-ui/src/desktopMain/kotlin/ai/rever/bossterm/compose/wizard/WizardState.kt:47-48 | the visible index is -1 iff every active step with the id is hidden |
| WizardState.NoActiveStepsIsLast | compose-ui/src/desktopMain/kotlin/ai/rever/bossterm/compose/wizard/WizardState.kt:63-68 | with no active steps, `isLastStep` is true and `isFirstStep` is false |
| WizardState.WizardState.constructor | compose-ui/src/desktopMain/kotlin/ai/rever/bossterm/compose/wizard/WizardState.kt:12-29 | the wizard starts on the first active step (or "" when there is none), not processing, with no error |
| WizardState.WizardState.Next | compose-ui/src/desktopMain/kotlin/ai/rever/bossterm/compose/wizard/WizardState.kt:76-82 | the new current id is `NextStepId` of the old one, and the id changes only when `canGoNext` held |
| WizardState.WizardState.Back | compose-ui/src/desktopMain/kotlin/ai/rever/bossterm/compose/wizard/WizardState.kt:88-94 | the new current id is `PreviousStepId` of the old one, and the id changes only when `canGoBack` held |
| WizardState.WizardState.GoToStep | compose-ui/src/desktopMain/kotlin/ai/rever/bossterm/compose/wizard/WizardState.kt:100-104 | the new current id is `GoToStepId` of the old one and the target |
| WizardState.WizardState.UpdateState | compose-ui/src/desktopMain/kotlin/ai/rever/bossterm/compose/wizard/WizardState.kt:110-112 | the state becomes the update applied to the old state |
| WizardState.WizardState.MarkProcessing | compose-ui/src/desktopMain/kotlin/ai/rever/bossterm/compose/wizard/WizardState.kt:117-119 | after it, neither `canGoNext` nor `canGoBack` holds |
| WizardState.WizardState.MarkComplete | compose-ui/src/desktopMain/kotlin/ai/rever/bossterm/compose/wizard/WizardState.kt:124-126 | the processing flag is cleared |
| WizardState.WizardState.ShowError | compose-ui/src/desktopMain/kotlin/ai/rever/bossterm/compose/wizard/WizardState.kt:131-133 | the error message becomes the given one |
| WizardState.WizardState.ClearError | compose-ui/src/desktopMain/kotlin/ai/rever/bossterm/compose/wizard/WizardState.kt:138-140 | the error message is cleared |
| ToolInstallWizard.InitialState | compose-ui/src/desktopMain/kotlin/ai/rever/bossterm/compose/ai/ToolInstallWizard.kt:14-20 | the state the wizard starts in: no password, script method, no result, key 0 (`InitialStateBlocks`) |
| ToolInstallWizard.ToolSteps | compose-ui/src/desktopMain/kotlin/ai/rever/bossterm/compose/ai/ToolInstallWizard.kt:62-97 | the step list, with GH_AUTH only for the GitHub CLI (layout: `ToolStepsLayout`, `ToolWizardSteps`) |
| ToolInstallWizard.ShowStepIndicator | compose-ui/src/desktopMain/kotlin/ai/rever/bossterm/compose/ai/ToolInstallWizard.kt:134-137 | the indicator shows for a visible step when more than one step is visible (`StepIndicatorNeverShown`) |
| ToolInstallWizard.PrimaryButtonText | compose-ui/src/desktopMain/kotlin/ai/rever/bossterm/compose/ai/ToolInstallWizard.kt:138-144 | "Install" on PASSWORD, "Close" on COMPLETE, "Next" otherwise (by position: `ButtonRules`) |
| ToolInstallWizard.ShowPrimaryButton | compose-ui/src/desktopMain/kotlin/ai/rever/bossterm/compose/ai/ToolInstallWizard.kt:145-148 | the primary button shows on every step but GH_AUTH (`ButtonRules`) |
| ToolInstallWizard.ShowBackButton | compose-ui/src/desktopMain/kotlin/ai/rever/bossterm/compose/ai/ToolInstallWizard.kt:149-152 | back shows on PASSWORD when the wizard can go back (`BackButtonNeverShown`) |
| ToolInstallWizard.Apply | compose-ui/src/desktopMain/kotlin/ai/rever/bossterm/compose/ai/ToolInstallWizard.kt:158-200 | the state after a typed password, an install result or "try npm" (`TryNpmEffect`, `NpmIsFinal`, `TerminalKeyCountsRetries`) |
| ToolInstallWizard.ShowNpmFallback | compose-ui/src/desktopMain/kotlin/ai/rever/bossterm/compose/ai/ToolInstallWizard.kt:189 | the fallback is offered after a failed script install when an npm command exists (`TryNpmEffect`, `NpmIsFinal`) |
| ToolInstallWizard.EscapeSingleQuotes | compose-ui/src/desktopMain/kotlin/ai/rever/bossterm/compose/ai/ToolInstallWizard.kt:128 | each single quote becomes close-quote, escaped quote, reopen-quote (meaning: `QuotedCommandRoundTrip`) |
| ToolInstallWizard.RerunLine | compose-ui/src/desktopMain/kotlin/ai/rever/bossterm/compose/ai/ToolInstallWizard.kt:129 | the line that re-runs the command in a login shell, its argument single-quoted (`QuotedCommandRoundTrip`) |
| ToolInstallWizard.CompletionEffects | compose-ui/src/desktopMain/kotlin/ai/rever/bossterm/compose/ai/ToolInstallWizard.kt:118-133 | the effects of finishing the wizard, in order (`CompletionRules`) |
| ToolInstallWizard.BuildSteps | compose-ui/src/desktopMain/kotlin/ai/rever/bossterm/compose/ai/ToolInstallWizard.kt:62-97 | the list built by appending is the wizard's step list |
| ToolInstallWizard.ToolStepsLayout | compose-ui/src/desktopMain/kotlin/ai/rever/bossterm/compose/ai/ToolInstallWizard.kt:62-97 | steps are PASSWORD, INSTALLING, GH_AUTH (GitHub CLI only), COMPLETE; only PASSWORD is visible and Linux-only; only GH_AUTH is skippable; PASSWORD proceeds iff a password was typed, INSTALLING iff the install succeeded |
| ToolInstallWizard.ToolStepIdsDistinct | compose-ui/src/desktopMain/kotlin/ai/rever/bossterm/compose/ai/ToolInstallWizard.kt:62-97 | the step ids are distinct |
| ToolInstallWizard.ToolStepsTail | compose-ui/src/desktopMain/kotlin/ai/rever/bossterm/compose/ai/ToolInstallWizard.kt:65-95 | every step after PASSWORD is hidden and available on every platform |
| ToolInstallWizard.ActiveOnLinux | compose-ui/src/desktopMain/kotlin/ai/rever/bossterm/compose/ai/ToolInstallWizard.kt:68 | on Linux every step is active |
| ToolInstallWizard.ActiveElsewhere | compose-ui/src/desktopMain/kotlin/ai/rever/bossterm/compose/ai/ToolInstallWizard.kt:68 | off Linux every step except PASSWORD is active |
| ToolInstallWizard.ToolWizardSteps | compose-ui/src/desktopMain/kotlin/ai/rever/bossterm/compose/ai/ToolInstallWizard.kt:62-102 | the active steps are the whole list on Linux and the list without PASSWORD elsewhere; the visible steps are [PASSWORD] on Linux and none elsewhere |
| ToolInstallWizard.StepIndicatorNeverShown | compose-ui/src/desktopMain/kotlin/ai/rever/bossterm/compose/ai/ToolInstallWizard.kt:134-137 | the step indicator is never shown, because at most one step is visible |
| ToolInstallWizard.BackButtonNeverShown | compose-ui/src/desktopMain/kotlin/ai/rever/bossterm/compose/ai/ToolInstallWizard.kt:149-152 | the back button is never shown, because PASSWORD is always the first active step |
| ToolInstallWizard.ButtonRules | compose-ui/src/desktopMain/kotlin/ai/rever/bossterm/compose/ai/ToolInstallWizard.kt:138-148 | the primary button is hidden only on the skippable step; its text is "Install" on the first step, "Close" on the last and "Next" otherwise |
| ToolInstallWizard.CurrentInstallCommand | compose-ui/src/desktopMain/kotlin/ai/rever/bossterm/compose/ai/ToolInstallWizard.kt:105-111 | the npm command runs iff the method is npm and an npm command exists; otherwise the script runs |
| ToolInstallWizard.TryNpmEffect | compose-ui/src/desktopMain/kotlin/ai/rever/bossterm/compose/ai/ToolInstallWizard.kt:189-199 | "try npm" sets npm, clears the result and adds exactly 1 to the terminal key; tool and password stay; the fallback is then hidden and the npm command runs |
| ToolInstallWizard.NpmIsFinal | compose-ui/src/desktopMain/kotlin/ai/rever/bossterm/compose/ai/ToolInstallWizard.kt:189-199 | once on npm, no sequence of events returns to the script, so the fallback is never offered again |
| ToolInstallWizard.TerminalKeyCountsRetries | compose-ui/src/desktopMain/kotlin/ai/rever/bossterm/compose/ai/ToolInstallWizard.kt:190-199 | after any events the terminal key has grown by the number of npm retries (none without an npm command) and the tool is unchanged |
| ToolInstallWizard.InitialStateBlocks | compose-ui/src/desktopMain/kotlin/ai/rever/bossterm/compose/ai/ToolInstallWizard.kt:14-20 | in the initial state neither PASSWORD nor INSTALLING can proceed and no fallback is offered |
| ToolInstallWizard.InstallEnvironment | compose-ui/src/desktopMain/kotlin/ai/rever/bossterm/compose/ai/ToolInstallWizard.kt:177-181 | `BOSSTERM_SUDO_PWD` is present iff a password was typed, holds that password, and is the only key |
| ToolInstallWizard.OnInstallFinished | compose-ui/src/desktopMain/kotlin/ai/rever/bossterm/compose/ai/ToolInstallWizard.kt:182-188 | the result is recorded in the state; on success the wizard takes one `next()` step, and on failure the current step stays |
| ToolInstallWizard.InstallResultMoves | compose-ui/src/desktopMain/kotlin/ai/rever/bossterm/compose/ai/ToolInstallWizard.kt:182-188 | from INSTALLING, success leads to GH_AUTH for the GitHub CLI and to COMPLETE otherwise; failure stays on INSTALLING |
| ToolInstallWizard.Unquote | compose-ui/src/desktopMain/kotlin/ai/rever/bossterm/compose/ai/ToolInstallWizard.kt:129 | the POSIX value of a shell word is never longer than the word |
| ToolInstallWizard.EscapedTailRoundTrip | compose-ui/src/desktopMain/kotlin/ai/rever/bossterm/compose/ai/ToolInstallWizard.kt:128 | inside an open single quote, the escaped command and a closing quote read back as the command |
| ToolInstallWizard.QuotedCommandRoundTrip | compose-ui/src/desktopMain/kotlin/ai/rever/bossterm/compose/ai/ToolInstallWizard.kt:128-129 | the quoted word after `-c` reads back, under POSIX quoting, as exactly the original command |
| ToolInstallWizard.UnescapedQuoteBreaksWord | compose-ui/src/desktopMain/kotlin/ai/rever/bossterm/compose/ai/ToolInstallWizard.kt:128 | without the escaping, the command `'` quoted as `'''` has no POSIX value, because the middle quote closes the word and the last one opens an unbalanced quote |
| ToolInstallWizard.CompletionRules | compose-ui/src/desktopMain/kotlin/ai/rever/bossterm/compose/ai/ToolInstallWizard.kt:118-133 | completion ends by reporting `installSuccess == true`; it writes only after a successful install with a writer, and then its last write re-runs the command |
| AIAssistantDefinition.GetCommand | compose-ui/src/desktopMain/kotlin/ai/rever/bossterm/compose/ai/AIAssistantDefinition.kt:47-48 | the custom command when present and not blank, else the assistant's (`OverridePrecedence`) |
| AIAssistantDefinition.GetYoloFlag | compose-ui/src/desktopMain/kotlin/ai/rever/bossterm/compose/ai/AIAssistantDefinition.kt:53-54 | the custom YOLO flag when present and not blank, else the assistant's (`OverridePrecedence`) |
| AIAssistantDefinition.BuildFullCommand | compose-ui/src/desktopMain/kotlin/ai/rever/bossterm/compose/ai/AIAssistantDefinition.kt:59-67 | the command, with " " and the flag appended when YOLO is on and the flag is not blank (`FullCommandShape`) |
| AIAssistantDefinition.AIAssistants.All | compose-ui/src/desktopMain/kotlin/ai/rever/bossterm/compose/ai/AIAssistantDefinition.kt:132-133 | the built-ins followed by the custom assistants (`SetCustomAssistants`) |
| AIAssistantDefinition.AIAssistants.FindById | compose-ui/src/desktopMain/kotlin/ai/rever/bossterm/compose/ai/AIAssistantDefinition.kt:147 | the first assistant of `ALL` with the id (`BuiltinShadowsCustom`, `CustomLookup`) |
| AIAssistantDefinition.AIAssistants.FindByCommand | compose-ui/src/desktopMain/kotlin/ai/rever/bossterm/compose/ai/AIAssistantDefinition.kt:152 | the first assistant of `ALL` with the command (`BuiltinShadowsCustom`) |
| AIAssistantDefinition.DefaultConfig | compose-ui/src/desktopMain/kotlin/ai/rever/bossterm/compose/ai/AIAssistantDefinition.kt:37-43 | a default config has the given id, is enabled, has YOLO on and has no custom command or flag |
| AIAssistantDefinition.OverridePrecedence | compose-ui/src/desktopMain/kotlin/ai/rever/bossterm/compose/ai/AIAssistantDefinition.kt:47-54 | a custom command or flag that is present and not blank wins; otherwise the assistant's own is used |
| AIAssistantDefinition.FullCommandShape | compose-ui/src/desktopMain/kotlin/ai/rever/bossterm/compose/ai/AIAssistantDefinition.kt:59-67 | the full command is the command, followed by one space and the flag exactly when YOLO is on and the flag is not blank |
| AIAssistantDefinition.BuiltinRegistry | compose-ui/src/desktopMain/kotlin/ai/rever/bossterm/compose/ai/AIAssistantDefinition.kt:81-126 | there are four built-ins, all marked built-in, with distinct ids and distinct commands |
| AIAssistantDefinition.MarkCustom | compose-ui/src/desktopMain/kotlin/ai/rever/bossterm/compose/ai/AIAssistantDefinition.kt:140-142 | custom assistants are marked not built-in, with every other field unchanged |
| AIAssistantDefinition.FirstIndexWhere | compose-ui/src/desktopMain/kotlin/ai/rever/bossterm/compose/ai/AIAssistantDefinition.kt:147-152 | the result is the first matching position, or -1 exactly when nothing matches |
| AIAssistantDefinition.FindFirst | compose-ui/src/desktopMain/kotlin/ai/rever/bossterm/compose/ai/AIAssistantDefinition.kt:147-152 | the result is the first matching entry, or none exactly when nothing matches |
| AIAssistantDefinition.FindFirstAppend | compose-ui/src/desktopMain/kotlin/ai/rever/bossterm/compose/ai/AIAssistantDefinition.kt:147-152 | searching built-ins followed by customs finds a built-in before any custom entry |
| AIAssistantDefinition.AIAssistants.constructor | compose-ui/src/desktopMain/kotlin/ai/rever/bossterm/compose/ai/AIAssistantDefinition.kt:135 | the registry starts with no custom assistants |
| AIAssistantDefinition.AIAssistants.SetCustomAssistants | compose-ui/src/desktopMain/kotlin/ai/rever/bossterm/compose/ai/AIAssistantDefinition.kt:132-142 | the custom list is replaced by the marked list; `ALL` starts with the built-ins and holds no other built-in |
| AIAssistantDefinition.AIAssistants.DefaultConfigs | compose-ui/src/desktopMain/kotlin/ai/rever/bossterm/compose/ai/AIAssistantDefinition.kt:157-158 | the keys are exactly the ids in `ALL`, and each maps to the default config for that id |
| AIAssistantDefinition.BuiltinShadowsCustom | compose-ui/src/desktopMain/kotlin/ai/rever/bossterm/compose/ai/AIAssistantDefinition.kt:147-152 | lookup by a built-in's id or command finds that built-in, whatever the custom list holds |
| AIAssistantDefinition.CustomLookup | compose-ui/src/desktopMain/kotlin/ai/rever/bossterm/compose/ai/AIAssistantDefinition.kt:147 | an id no built-in has is looked up in the custom list, and what is found is not built-in |
| AIAssistantMenuProvider.ConfigFor | compose-ui/src/desktopMain/kotlin/ai/rever/bossterm/compose/ai/AIAssistantMenuProvider.kt:48 | the assistant's config, or the default config when it has none |
| AIAssistantMenuProvider.IsInstalled | compose-ui/src/desktopMain/kotlin/ai/rever/bossterm/compose/ai/AIAssistantMenuProvider.kt:53 | a missing status entry counts as not installed (`EntryShape`) |
| AIAssistantMenuProvider.BuildMenuLabel | compose-ui/src/desktopMain/kotlin/ai/rever/bossterm/compose/ai/AIAssistantMenuProvider.kt:141-150 | the display name, with the YOLO label in parentheses when YOLO is on and the label is not blank (`MenuLabelShape`) |
| AIAssistantMenuProvider.InstallItems | compose-ui/src/desktopMain/kotlin/ai/rever/bossterm/compose/ai/AIAssistantMenuProvider.kt:74-115 | script and npm install items when an npm command exists, else one install item; then learn-more (`EntryShape`) |
| AIAssistantMenuProvider.EntryFor | compose-ui/src/desktopMain/kotlin/ai/rever/bossterm/compose/ai/AIAssistantMenuProvider.kt:55-125 | a launch item for an installed assistant, else an install submenu (`EntryShape`, `EntryIdsDistinct`) |
| AIAssistantMenuProvider.EnabledIsFilter | compose-ui/src/desktopMain/kotlin/ai/rever/bossterm/compose/ai/AIAssistantMenuProvider.kt:47-51 | the enabled assistants are exactly `ALL` filtered by the enabled flag, each once and in registry order |
| AIAssistantMenuProvider.Entries | compose-ui/src/desktopMain/kotlin/ai/rever/bossterm/compose/ai/AIAssistantMenuProvider.kt:47-126 | one menu element per enabled assistant, in order (`EntriesStep`, `GetMenuItems`) |
| AIAssistantMenuProvider.InstalledCount | compose-ui/src/desktopMain/kotlin/ai/rever/bossterm/compose/ai/AIAssistantMenuProvider.kt:166-168 | the number of installed entries (`HasInstalledIffPositiveCount`) |
| AIAssistantMenuProvider.HasInstalledAssistants | compose-ui/src/desktopMain/kotlin/ai/rever/bossterm/compose/ai/AIAssistantMenuProvider.kt:157-159 | some entry is installed (`HasInstalledIffPositiveCount`) |
| AIAssistantMenuProvider.MenuLabelShape | compose-ui/src/desktopMain/kotlin/ai/rever/bossterm/compose/ai/AIAssistantMenuProvider.kt:141-150 | the label is the display name, followed by " (label)" exactly when YOLO is on and the YOLO label is not blank |
| AIAssistantMenuProvider.EnabledAssistants | compose-ui/src/desktopMain/kotlin/ai/rever/bossterm/compose/ai/AIAssistantMenuProvider.kt:47-51 | the assistants kept are those of the list whose config is enabled, and every enabled one is kept; `EnabledIsFilter` pins the exact list (once each, registry order) |
| AIAssistantMenuProvider.EnabledStep | compose-ui/src/desktopMain/kotlin/ai/rever/bossterm/compose/ai/AIAssistantMenuProvider.kt:47-51 | one loop step extends the enabled assistants by the next assistant exactly when it is enabled |
| AIAssistantMenuProvider.EntriesStep | compose-ui/src/desktopMain/kotlin/ai/rever/bossterm/compose/ai/AIAssistantMenuProvider.kt:47-126 | the menu entries of a longer list extend those of the shorter list by one entry |
| AIAssistantMenuProvider.GetMenuItems | compose-ui/src/desktopMain/kotlin/ai/rever/bossterm/compose/ai/AIAssistantMenuProvider.kt:38-136 | the result is always exactly one submenu `ai_assistants_menu` holding one entry per enabled assistant, in order |
| AIAssistantMenuProvider.EntryShape | compose-ui/src/desktopMain/kotlin/ai/rever/bossterm/compose/ai/AIAssistantMenuProvider.kt:53-125 | installed assistants get a launch item `ai_launch_<id>`; others get a submenu `ai_submenu_<id>` with script, npm (when one exists) and learn-more items |
| AIAssistantMenuProvider.EntryIdsDistinct | compose-ui/src/desktopMain/kotlin/ai/rever/bossterm/compose/ai/AIAssistantMenuProvider.kt:55-125 | assistants with distinct ids get menu entries with distinct ids |
| AIAssistantMenuProvider.HasInstalledIffPositiveCount | compose-ui/src/desktopMain/kotlin/ai/rever/bossterm/compose/ai/AIAssistantMenuProvider.kt:157-168 | `hasInstalledAssistants` holds iff `getInstalledCount` is positive |
| ShellCustomizationMenuProvider.ShellCustomizationMenuProvider.GetStatus | compose-ui/src/desktopMain/kotlin/ai/rever/bossterm/compose/shell/ShellCustomizationMenuProvider.kt:63 | the cached Starship status (`RefreshStatus`) |
| ShellCustomizationMenuProvider.ShellCustomizationMenuProvider.GetOhMyZshStatus | compose-ui/src/desktopMain/kotlin/ai/rever/bossterm/compose/shell/ShellCustomizationMenuProvider.kt:68 | the cached Oh My Zsh status (`RefreshStatus`) |
| ShellCustomizationMenuProvider.EffectiveStatus | compose-ui/src/desktopMain/kotlin/ai/rever/bossterm/compose/shell/ShellCustomizationMenuProvider.kt:83-86 | an override entry wins, then the cached value, then the live probe |
| ShellCustomizationMenuProvider.StarshipMenuLayout | compose-ui/src/desktopMain/kotlin/ai/rever/bossterm/compose/shell/ShellCustomizationMenuProvider.kt:170-270 | the installed Starship menu has sections Configuration, Apply Preset, Shell Setup and an unlabelled help section, in that order, and seven presets |
| ShellCustomizationMenuProvider.SubmenuIdsStable | compose-ui/src/desktopMain/kotlin/ai/rever/bossterm/compose/shell/ShellCustomizationMenuProvider.kt:91-148 | each tool keeps one submenu id whether installed or not; the not-installed menus hold exactly install and learn-more |
| ShellCustomizationMenuProvider.ShellCustomizationMenuProvider.constructor | compose-ui/src/desktopMain/kotlin/ai/rever/bossterm/compose/shell/ShellCustomizationMenuProvider.kt:26-27 | both caches start empty |
| ShellCustomizationMenuProvider.ShellCustomizationMenuProvider.RefreshStatus | compose-ui/src/desktopMain/kotlin/ai/rever/bossterm/compose/shell/ShellCustomizationMenuProvider.kt:55-68 | both caches take the probe results, and the getters return them |
| ShellCustomizationMenuProvider.ShellCustomizationMenuProvider.GetMenuItems | compose-ui/src/desktopMain/kotlin/ai/rever/bossterm/compose/shell/ShellCustomizationMenuProvider.kt:78-165 | the result is one `shell_submenu` holding the Starship then the Oh My Zsh submenu, each chosen by its effective status |
| ShellIntegrationInjector.WithZsh | compose-ui/src/desktopMain/kotlin/ai/rever/bossterm/compose/tabs/ShellIntegrationInjector.kt:81-92 | the environment after zsh injection (`ZshInjection`, `ZshInjectedTwice`, `InjectZsh`) |
| ShellIntegrationInjector.WithBash | compose-ui/src/desktopMain/kotlin/ai/rever/bossterm/compose/tabs/ShellIntegrationInjector.kt:103-111 | the environment after bash injection (`BashInjection`, `InjectBash`) |
| ShellIntegrationInjector.WithFish | compose-ui/src/desktopMain/kotlin/ai/rever/bossterm/compose/tabs/ShellIntegrationInjector.kt:121-130 | the environment after fish injection (`FishInjection`, `FishInjectedTwice`, `InjectFish`) |
| ShellIntegrationInjector.Injected | compose-ui/src/desktopMain/kotlin/ai/rever/bossterm/compose/tabs/ShellIntegrationInjector.kt:44-69 | the environment after `injectForShell`, by dispatch on the shell kind (`InjectionFrame`, `InjectForShell`) |
| ShellIntegrationInjector.EffectiveShellName | compose-ui/src/desktopMain/kotlin/ai/rever/bossterm/compose/tabs/ShellIntegrationInjector.kt:50-59 | the shell is the file name of the path; for `login` it is the file name of the env's SHELL, else the process SHELL, else "" |
| ShellIntegrationInjector.ShellKindOf | compose-ui/src/desktopMain/kotlin/ai/rever/bossterm/compose/tabs/ShellIntegrationInjector.kt:63-68 | the name selects zsh iff it ends in "zsh", else bash iff it ends in "bash", else fish iff it ends in "fish" |
| ShellIntegrationInjector.ZshInjection | compose-ui/src/desktopMain/kotlin/ai/rever/bossterm/compose/tabs/ShellIntegrationInjector.kt:81-92 | ZDOTDIR becomes the integration directory, a previous ZDOTDIR is saved, the flag is "1", and nothing else changes |
| ShellIntegrationInjector.BashInjection | compose-ui/src/desktopMain/kotlin/ai/rever/bossterm/compose/tabs/ShellIntegrationInjector.kt:103-111 | ENV names the bash loader, the flag is "1", and nothing else changes |
| ShellIntegrationInjector.FishInjection | compose-ui/src/desktopMain/kotlin/ai/rever/bossterm/compose/tabs/ShellIntegrationInjector.kt:121-130 | the fish directory is prepended to XDG_DATA_DIRS or to the default path, the flag is "1", and nothing else changes |
| ShellIntegrationInjector.FishInjectedTwice | compose-ui/src/desktopMain/kotlin/ai/rever/bossterm/compose/tabs/ShellIntegrationInjector.kt:121-130 | a second fish injection prepends the directory again |
| ShellIntegrationInjector.ZshInjectedTwice | compose-ui/src/desktopMain/kotlin/ai/rever/bossterm/compose/tabs/ShellIntegrationInjector.kt:81-92 | a second zsh injection saves the integration directory as the original ZDOTDIR |
| ShellIntegrationInjector.InjectionFrame | compose-ui/src/desktopMain/kotlin/ai/rever/bossterm/compose/tabs/ShellIntegrationInjector.kt:44-69 | injection writes only the injection keys; when disabled or for an unknown shell it changes nothing |
| ShellIntegrationInjector.InjectZsh | compose-ui/src/desktopMain/kotlin/ai/rever/bossterm/compose/tabs/ShellIntegrationInjector.kt:81-92 | the environment becomes `WithZsh` of the old one |
| ShellIntegrationInjector.InjectBash | compose-ui/src/desktopMain/kotlin/ai/rever/bossterm/compose/tabs/ShellIntegrationInjector.kt:103-111 | the environment becomes `WithBash` of the old one |
| ShellIntegrationInjector.InjectFish | compose-ui/src/desktopMain/kotlin/ai/rever/bossterm/compose/tabs/ShellIntegrationInjector.kt:121-130 | the environment becomes `WithFish` of the old one |
| ShellIntegrationInjector.InjectForShell | compose-ui/src/desktopMain/kotlin/ai/rever/bossterm/compose/tabs/ShellIntegrationInjector.kt:44-69 | the environment becomes the one chosen by the shell kind, and only injection keys change |
| FilePathResolver.IsWindowsDrivePath | compose-ui/src/desktopMain/kotlin/ai/rever/bossterm/compose/hyperlinks/FilePathResolver.kt:30 | the whole-string match of the drive pattern: a letter, ":\\", then no line terminator (`WindowsResolution`, `WindowsPatternIsOneLine`) |
| FilePathResolver.Classify | compose-ui/src/desktopMain/kotlin/ai/rever/bossterm/compose/hyperlinks/FilePathResolver.kt:42-63 | the path form in the order the resolver tests them (`QuickTestsAdmitForms`, the resolution lemmas) |
| FilePathResolver.LooksLikeHomePath | compose-ui/src/desktopMain/kotlin/ai/rever/bossterm/compose/hyperlinks/FilePathResolver.kt:139-141 | the text contains "~/" (`QuickTestsAdmitForms`) |
| FilePathResolver.LooksLikeRelativePath | compose-ui/src/desktopMain/kotlin/ai/rever/bossterm/compose/hyperlinks/FilePathResolver.kt:147-149 | the text contains "./" (`QuickTestsAdmitForms`) |
| FilePathResolver.LooksLikeWindowsPath | compose-ui/src/desktopMain/kotlin/ai/rever/bossterm/compose/hyperlinks/FilePathResolver.kt:155-157 | the text contains ":\\" (`QuickTestsAdmitForms`) |
| FilePathResolver.IsFresh | compose-ui/src/desktopMain/kotlin/ai/rever/bossterm/compose/hyperlinks/FilePathResolver.kt:80 | an entry is younger than 5000 ms (`FreshHitIgnoresFilesystem`) |
| FilePathResolver.Evict | compose-ui/src/desktopMain/kotlin/ai/rever/bossterm/compose/hyperlinks/FilePathResolver.kt:86-89 | the entries not older than now - 5000 (`EvictionOnlyWhenOverfull`) |
| FilePathResolver.ExistsSpec | compose-ui/src/desktopMain/kotlin/ai/rever/bossterm/compose/hyperlinks/FilePathResolver.kt:74-95 | the answer and new cache of `exists` (`FreshHitIgnoresFilesystem`, `MissRecordsFilesystemAnswer`, `EvictionOnlyWhenOverfull`, `RepeatedLookupAgrees`, `CacheGrowsByAtMostOne`) |
| FilePathResolver.ResolvePath | compose-ui/src/desktopMain/kotlin/ai/rever/bossterm/compose/hyperlinks/FilePathResolver.kt:39-66 | blank text and unrecognised forms give no path; any result is a canonicalised path |
| FilePathResolver.UnixAbsoluteResolution | compose-ui/src/desktopMain/kotlin/ai/rever/bossterm/compose/hyperlinks/FilePathResolver.kt:44-65 | a path starting with "/" resolves to its canonical form |
| FilePathResolver.WindowsResolution | compose-ui/src/desktopMain/kotlin/ai/rever/bossterm/compose/hyperlinks/FilePathResolver.kt:47 | a drive letter, ":\" and one line resolve to their canonical form |
| FilePathResolver.WindowsPatternIsOneLine | compose-ui/src/desktopMain/kotlin/ai/rever/bossterm/compose/hyperlinks/FilePathResolver.kt:30 | a line break after the drive prefix defeats the Windows pattern |
| FilePathResolver.HomeResolution | compose-ui/src/desktopMain/kotlin/ai/rever/bossterm/compose/hyperlinks/FilePathResolver.kt:50-65 | "~/rest" resolves to the canonical home + "/" + rest, and to nothing without a home |
| FilePathResolver.WorkingDirResolution | compose-ui/src/desktopMain/kotlin/ai/rever/bossterm/compose/hyperlinks/FilePathResolver.kt:56-65 | "./" and "../" paths resolve under the working directory, and to nothing without one |
| FilePathResolver.BareRelativeRejected | compose-ui/src/desktopMain/kotlin/ai/rever/bossterm/compose/hyperlinks/FilePathResolver.kt:62 | "foo/bar" is not resolved |
| FilePathResolver.ContainsChar | compose-ui/src/desktopMain/kotlin/ai/rever/bossterm/compose/hyperlinks/FilePathResolver.kt:132 | containing a one-character string is membership of the character |
| FilePathResolver.LooksLikeUnixPath | compose-ui/src/desktopMain/kotlin/ai/rever/bossterm/compose/hyperlinks/FilePathResolver.kt:131-133 | the text holds a "/" and no "://" |
| FilePathResolver.QuickTestsAdmitForms | compose-ui/src/desktopMain/kotlin/ai/rever/bossterm/compose/hyperlinks/FilePathResolver.kt:131-157 | home, relative and Windows paths pass their quick test; Unix paths pass theirs iff they hold no "://" |
| FilePathResolver.FreshHitIgnoresFilesystem | compose-ui/src/desktopMain/kotlin/ai/rever/bossterm/compose/hyperlinks/FilePathResolver.kt:79-83 | an entry younger than 5000 ms answers without the filesystem and leaves the cache unchanged |
| FilePathResolver.MissRecordsFilesystemAnswer | compose-ui/src/desktopMain/kotlin/ai/rever/bossterm/compose/hyperlinks/FilePathResolver.kt:92-94 | on a miss the filesystem's answer is returned and stored with the current time |
| FilePathResolver.EvictionOnlyWhenOverfull | compose-ui/src/desktopMain/kotlin/ai/rever/bossterm/compose/hyperlinks/FilePathResolver.kt:86-89 | up to 1000 entries nothing is evicted; above that exactly the entries older than now - 5000 are removed |
| FilePathResolver.RepeatedLookupAgrees | compose-ui/src/desktopMain/kotlin/ai/rever/bossterm/compose/hyperlinks/FilePathResolver.kt:74-95 | a second lookup at the same instant is a hit with the same answer |
| FilePathResolver.CacheGrowsByAtMostOne | compose-ui/src/desktopMain/kotlin/ai/rever/bossterm/compose/hyperlinks/FilePathResolver.kt:86-94 | a lookup adds at most one entry to the cache |
| FilePathResolver.PathCache.constructor | compose-ui/src/desktopMain/kotlin/ai/rever/bossterm/compose/hyperlinks/FilePathResolver.kt:23 | the cache starts empty |
| FilePathResolver.PathCache.Exists | compose-ui/src/desktopMain/kotlin/ai/rever/bossterm/compose/hyperlinks/FilePathResolver.kt:74-95 | the answer and the new cache are those of `ExistsSpec` on the old cache |
| FilePathResolver.PathCache.ResolveAndValidate | compose-ui/src/desktopMain/kotlin/ai/rever/bossterm/compose/hyperlinks/FilePathResolver.kt:104-107 | a path comes back iff it resolves and the cached existence check says it exists; an unresolved path leaves the cache alone |
| FilePathResolver.PathCache.ClearCache | compose-ui/src/desktopMain/kotlin/ai/rever/bossterm/compose/hyperlinks/FilePathResolver.kt:123-125 | the cache is empty afterwards |
| Text.ReplaceChar | compose-ui/src/desktopMain/kotlin/ai/rever/bossterm/compose/ai/ToolInstallWizard.kt:128 | a text without the character is unchanged; every character of the result comes from the replacement or is a different character of the text |
| Text.StripTrailingSlashes | compose-ui/src/desktopMain/kotlin/ai/rever/bossterm/compose/tabs/ShellIntegrationInjector.kt:50-56 | the result is a prefix of the path that does not end in "/", and only slashes were dropped |
| Text.LastComponent | compose-ui/src/desktopMain/kotlin/ai/rever/bossterm/compose/tabs/ShellIntegrationInjector.kt:50-56 | the result ends the path, holds no "/", and is the whole path or follows a "/" |
| Text.Contains | compose-ui/src/desktopMain/kotlin/ai/rever/bossterm/compose/hyperlinks/FilePathResolver.kt:131-157 | `contains` holds iff the substring occurs at some position |
| Text.FileName | compose-ui/src/desktopMain/kotlin/ai/rever/bossterm/compose/tabs/ShellIntegrationInjector.kt:50-56 | the file name holds no "/" and ends the path once trailing slashes are dropped |

## Left out

- Rendering: Compose UI, dialogs, dimensions, icons, step content and all description and help texts.
- Menu actions: the action closures of menu items (launching assistants, opening URLs, running installers) are not modelled; only ids, titles and tree shape are.
- Platform probes (`ShellCustomizationUtils`), `AIAssistantIds.GH`, `AIAssistantConfigData`, the installation detector and `System.getenv`/`user.home` are not part of this model; their answers are parameters.
- ShellIntegrationInjector: the extraction of resources into `~/.bossterm/shell-integration` and logging are left out; the integration directory is the parameter `dir`.
- ShellIntegrationInjector.InjectForShell: `File(dir, name).absolutePath` is taken to be `dir + "/" + name`, which holds when `dir` is absolute and has no trailing slash.
- Text.FileName: only `/` is treated as a separator, as on Unix.
- FilePathResolver.ResolvePath: `File.canonicalFile` is the uninterpreted parameter `canon`, and `File(parent, child)` is joined with "/" and left to `canon` to normalise.
- FilePathResolver.PathCache.Exists: the clock and `File.exists` are parameters, and the key is the path string passed in (the resolver passes a canonical, hence absolute, path).
- FilePathResolver.PathCache.Exists: `Long` overflow in `now - timestamp` is not modelled.
- FilePathResolver.PathCache: the thread safety of `ConcurrentHashMap` is not modelled; operations are sequential.
- FilePathResolver: `toFileUrl` (`File.toURI`) is left out, because URI encoding belongs to the JDK.
- ToolInstallWizard.CompletionRules: `clearLine` and `terminalWriter` are recorded as effects, not performed.
- ToolInstallWizard: the Composable `remember` caching, `key` recomposition and dialog dismissal are left out.
- `rememberAIAssistantState` (coroutines and lifecycle) is left out.
- WizardState.WizardState: the platform probes and `Custom` filter predicates are taken as fixed for the wizard's lifetime (`platform` is set at construction and `Custom` holds a pure function); in the source `activeSteps` is recomputed on every read, so a predicate whose answer changes can leave the current id on an inactive step, where `canGoBack` and `canGoNext` are both false.
- Text: strings are sequences of Unicode scalar values, while Kotlin strings are UTF-16 code units, so lone surrogates are not represented and lengths can differ; no modelled result depends on this.
- FilePathResolver.ResolvePath: `canon` is total, while `File.canonicalFile` can throw `IOException` (for example on an invalid path); that failure path is not modelled.
- WizardState.WizardState.Next: navigation requires the object invariant that the current id names an active step, which the constructor establishes and every method keeps.
- WizardState.NextAdvancesOneStep: assumes unique step ids, which `WizardStep` documents as a requirement of its callers (wizard/WizardStep.kt:9).
