/**
 * A wizard step and the platform filter that decides whether the step is
 * available on the running system.
 */
module WizardStep {

  /** What the platform probes report about the running system. */
  datatype Platform = Platform(isWindows: bool, isMacOS: bool, isLinux: bool)

  datatype PlatformFilter =
    | All
    | Windows
    | MacOS
    | Linux
    | Unix
    | NonWindows
    | Custom(test: () -> bool)

  /** Whether a step with this filter is available on `platform`. */
  predicate Matches(filter: PlatformFilter, platform: Platform) {
    match filter
    case All => true
    case Windows => platform.isWindows
    case MacOS => platform.isMacOS
    case Linux => platform.isLinux
    case Unix => !platform.isWindows
    case NonWindows => !platform.isWindows
    case Custom(p) => p()
  }

  /** A step over wizard state `S`; `canProceed` decides whether "next" may leave it. */
  datatype Step<!S> = Step(
    id: string,
    displayName: string,
    isVisible: bool,
    canSkip: bool,
    platformFilter: PlatformFilter,
    canProceed: S -> bool)

  /** A step built with every optional parameter left at its default. */
  function DefaultStep<S(!new)>(id: string, displayName: string): (step: Step<S>)
    ensures step.id == id && step.displayName == displayName
    ensures step.isVisible && !step.canSkip && step.platformFilter.All?
    ensures forall s :: step.canProceed(s)
  {
    Step(id, displayName, true, false, All, _ => true)
  }

  lemma AllMatchesEverywhere(platform: Platform)
    ensures Matches(All, platform)
  {
  }

  /** `Unix` and `NonWindows` are the same filter: "not Windows". */
  lemma UnixIsNonWindows(platform: Platform)
    ensures Matches(Unix, platform) == Matches(NonWindows, platform) == !platform.isWindows
  {
  }

  lemma WindowsComplementsNonWindows(platform: Platform)
    ensures Matches(Windows, platform) != Matches(NonWindows, platform)
  {
  }

  /** The single-OS filters report the corresponding probe. */
  lemma SingleSystemFilters(platform: Platform)
    ensures Matches(Windows, platform) == platform.isWindows
    ensures Matches(MacOS, platform) == platform.isMacOS
    ensures Matches(Linux, platform) == platform.isLinux
  {
  }

  lemma CustomFilter(p: () -> bool, platform: Platform)
    ensures Matches(Custom(p), platform) == p()
  {
  }
}
