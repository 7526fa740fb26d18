/**
 * Shell-integration injection: before a shell starts, its environment is rewritten
 * so that the shell loads the integration scripts kept in the integration directory
 * `dir` (zsh through a hijacked ZDOTDIR, bash through ENV, fish through XDG_DATA_DIRS).
 */
module ShellIntegrationInjector {
  import opened Nullables
  import opened Text

  const ZDOTDIR := "ZDOTDIR"
  const ORIG_ZDOTDIR := "BOSSTERM_ORIG_ZDOTDIR"
  const INJECT_FLAG := "BOSSTERM_INJECT_INTEGRATION"
  const ENV := "ENV"
  const XDG_DATA_DIRS := "XDG_DATA_DIRS"
  const DEFAULT_XDG_DATA_DIRS := "/usr/local/share:/usr/share"

  /** The keys injection may write. */
  const INJECTED_KEYS: set<string> := {ZDOTDIR, ORIG_ZDOTDIR, INJECT_FLAG, ENV, XDG_DATA_DIRS}

  datatype ShellKind = Zsh | Bash | Fish | Unknown

  /**
   * The name of the shell to configure: the file name of `shell`, except that for
   * `login` (the macOS wrapper) it is the file name of the SHELL variable, taken from
   * `env` first, then from the process environment, else "".
   */
  function EffectiveShellName(shell: string, env: map<string, string>, processShell: Option<string>)
    : (name: string)
    ensures FileName(shell) != "login" ==> name == FileName(shell)
    ensures FileName(shell) == "login" && "SHELL" in env ==> name == FileName(env["SHELL"])
    ensures FileName(shell) == "login" && "SHELL" !in env ==> name == FileName(processShell.OrElse(""))
  {
    var shellName := FileName(shell);
    if shellName == "login" then
      var userShell := if "SHELL" in env then env["SHELL"] else processShell.OrElse("");
      FileName(userShell)
    else
      shellName
  }

  /** Dispatch on the name, tested in the order zsh, bash, fish. */
  function ShellKindOf(name: string): (kind: ShellKind)
    ensures kind == Zsh <==> EndsWith(name, "zsh")
    ensures kind == Bash <==> !EndsWith(name, "zsh") && EndsWith(name, "bash")
    ensures kind == Fish <==> !EndsWith(name, "zsh") && !EndsWith(name, "bash") && EndsWith(name, "fish")
  {
    if name == "zsh" || EndsWith(name, "zsh") then Zsh
    else if name == "bash" || EndsWith(name, "bash") then Bash
    else if name == "fish" || EndsWith(name, "fish") then Fish
    else Unknown
  }

  /** `m` and `m'` hold the same entries outside `keys`. */
  ghost predicate AgreeExcept(m: map<string, string>, m': map<string, string>, keys: set<string>) {
    forall k :: k !in keys ==> (k in m <==> k in m') && (k in m ==> m[k] == m'[k])
  }

  /** The environment after zsh injection. */
  function WithZsh(env: map<string, string>, dir: string): map<string, string> {
    var saved := if ZDOTDIR in env then env[ORIG_ZDOTDIR := env[ZDOTDIR]] else env;
    saved[ZDOTDIR := dir][INJECT_FLAG := "1"]
  }

  /** The environment after bash injection. */
  function WithBash(env: map<string, string>, dir: string): map<string, string> {
    env[ENV := dir + "/bash-loader"][INJECT_FLAG := "1"]
  }

  /** The environment after fish injection. */
  function WithFish(env: map<string, string>, dir: string): map<string, string> {
    var existing := if XDG_DATA_DIRS in env then env[XDG_DATA_DIRS] else DEFAULT_XDG_DATA_DIRS;
    env[XDG_DATA_DIRS := dir + "/fish" + ":" + existing][INJECT_FLAG := "1"]
  }

  /** The environment after `injectForShell`. */
  function Injected(
    shell: string, env: map<string, string>, enabled: bool, processShell: Option<string>, dir: string)
    : map<string, string>
  {
    if !enabled then env
    else
      match ShellKindOf(EffectiveShellName(shell, env, processShell))
      case Zsh => WithZsh(env, dir)
      case Bash => WithBash(env, dir)
      case Fish => WithFish(env, dir)
      case Unknown => env
  }

  /**
   * zsh: ZDOTDIR points at the integration directory, the previous ZDOTDIR (if any)
   * is kept in BOSSTERM_ORIG_ZDOTDIR, the flag is "1", and nothing else changes.
   */
  lemma ZshInjection(env: map<string, string>, dir: string)
    ensures var m := WithZsh(env, dir);
      && m[ZDOTDIR] == dir && m[INJECT_FLAG] == "1"
      && (ZDOTDIR in env ==> ORIG_ZDOTDIR in m && m[ORIG_ZDOTDIR] == env[ZDOTDIR])
      && AgreeExcept(env, m, if ZDOTDIR in env then {ZDOTDIR, ORIG_ZDOTDIR, INJECT_FLAG} else {ZDOTDIR, INJECT_FLAG})
  {
  }

  /** bash: ENV names the loader script, the flag is "1", and nothing else changes. */
  lemma BashInjection(env: map<string, string>, dir: string)
    ensures var m := WithBash(env, dir);
      m[ENV] == dir + "/bash-loader" && m[INJECT_FLAG] == "1" && AgreeExcept(env, m, {ENV, INJECT_FLAG})
  {
  }

  /**
   * fish: the fish directory is prepended to XDG_DATA_DIRS, or to the default
   * search path when the variable was unset; the flag is "1"; nothing else changes.
   */
  lemma FishInjection(env: map<string, string>, dir: string)
    ensures var m := WithFish(env, dir);
      && (XDG_DATA_DIRS in env ==> m[XDG_DATA_DIRS] == dir + "/fish:" + env[XDG_DATA_DIRS])
      && (XDG_DATA_DIRS !in env ==> m[XDG_DATA_DIRS] == dir + "/fish:/usr/local/share:/usr/share")
      && m[INJECT_FLAG] == "1" && AgreeExcept(env, m, {XDG_DATA_DIRS, INJECT_FLAG})
  {
  }

  /** Fish injection is not idempotent: a second call prepends the directory again. */
  lemma FishInjectedTwice(env: map<string, string>, dir: string)
    ensures WithFish(WithFish(env, dir), dir)[XDG_DATA_DIRS]
         == dir + "/fish:" + WithFish(env, dir)[XDG_DATA_DIRS]
  {
  }

  /** A second zsh injection saves the integration directory itself as the original ZDOTDIR. */
  lemma ZshInjectedTwice(env: map<string, string>, dir: string)
    ensures WithZsh(WithZsh(env, dir), dir)[ORIG_ZDOTDIR] == dir
  {
  }

  /** Whatever the shell, injection writes only the injection keys; disabled, it writes nothing. */
  lemma InjectionFrame(
    shell: string, env: map<string, string>, enabled: bool, processShell: Option<string>, dir: string)
    ensures AgreeExcept(env, Injected(shell, env, enabled, processShell, dir), INJECTED_KEYS)
    ensures !enabled ==> Injected(shell, env, enabled, processShell, dir) == env
    ensures ShellKindOf(EffectiveShellName(shell, env, processShell)) == Unknown
        ==> Injected(shell, env, enabled, processShell, dir) == env
  {
    ZshInjection(env, dir);
    BashInjection(env, dir);
    FishInjection(env, dir);
  }

  /** The environment map the caller passes in and the injector rewrites in place. */
  class Environment {
    var vars: map<string, string>

    constructor (vars: map<string, string>)
      ensures this.vars == vars
    {
      this.vars := vars;
    }
  }

  method InjectZsh(env: Environment, dir: string)
    modifies env
    ensures env.vars == WithZsh(old(env.vars), dir)
  {
    if ZDOTDIR in env.vars {
      var original := env.vars[ZDOTDIR];
      env.vars := env.vars[ORIG_ZDOTDIR := original];
    }
    env.vars := env.vars[ZDOTDIR := dir];
    env.vars := env.vars[INJECT_FLAG := "1"];
  }

  method InjectBash(env: Environment, dir: string)
    modifies env
    ensures env.vars == WithBash(old(env.vars), dir)
  {
    var loaderPath := dir + "/bash-loader";
    env.vars := env.vars[ENV := loaderPath];
    env.vars := env.vars[INJECT_FLAG := "1"];
  }

  method InjectFish(env: Environment, dir: string)
    modifies env
    ensures env.vars == WithFish(old(env.vars), dir)
  {
    var fishDir := dir + "/fish";
    var existingDirs := if XDG_DATA_DIRS in env.vars then env.vars[XDG_DATA_DIRS] else DEFAULT_XDG_DATA_DIRS;
    env.vars := env.vars[XDG_DATA_DIRS := fishDir + ":" + existingDirs];
    env.vars := env.vars[INJECT_FLAG := "1"];
  }

  method InjectForShell(
    shell: string, env: Environment, enabled: bool, processShell: Option<string>, dir: string)
    modifies env
    ensures env.vars == Injected(shell, old(env.vars), enabled, processShell, dir)
    ensures AgreeExcept(old(env.vars), env.vars, INJECTED_KEYS)
  {
    InjectionFrame(shell, env.vars, enabled, processShell, dir);
    if !enabled {
      return;
    }
    var effectiveShellName := EffectiveShellName(shell, env.vars, processShell);
    if effectiveShellName == "zsh" || EndsWith(effectiveShellName, "zsh") {
      InjectZsh(env, dir);
    } else if effectiveShellName == "bash" || EndsWith(effectiveShellName, "bash") {
      InjectBash(env, dir);
    } else if effectiveShellName == "fish" || EndsWith(effectiveShellName, "fish") {
      InjectFish(env, dir);
    }
  }
}
