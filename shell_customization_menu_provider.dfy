/**
 * The "Shell" context menu for Starship and Oh My Zsh, with a cache of their
 * installation status. The probes (`which starship`, a `~/.oh-my-zsh` directory)
 * are inputs.
 */
module ShellCustomizationMenuProvider {
  import opened Nullables
  import opened ContextMenu

  /** `statusOverride?.get(key) ?: (cached ?: probe)` */
  function EffectiveStatus(statusOverride: Option<map<string, bool>>, key: string, cached: Option<bool>, probe: bool)
    : (installed: bool)
    ensures statusOverride.Some? && key in statusOverride.value ==> installed == statusOverride.value[key]
    ensures (statusOverride.None? || key !in statusOverride.value) && cached.Some? ==> installed == cached.value
    ensures (statusOverride.None? || key !in statusOverride.value) && cached.None? ==> installed == probe
  {
    if statusOverride.Some? && key in statusOverride.value then statusOverride.value[key]
    else cached.OrElse(probe)
  }

  const STARSHIP_NOT_INSTALLED :=
    Submenu("starship_submenu", "Starship", [
      Item("starship_install", "Install"),
      Item("starship_learnmore", "Learn More")])

  const OHMYZSH_NOT_INSTALLED :=
    Submenu("ohmyzsh_submenu", "Oh My Zsh", [
      Item("ohmyzsh_install", "Install"),
      Item("ohmyzsh_learnmore", "Learn More")])

  const STARSHIP_PRESETS :=
    Submenu("starship_presets_submenu", "Presets", [
      Item("starship_preset_nerd", "Nerd Font Symbols"),
      Item("starship_preset_plain", "Plain Text"),
      Item("starship_preset_nonerd", "No Nerd Font"),
      Item("starship_preset_pastel", "Pastel Powerline"),
      Item("starship_preset_bracketed", "Bracketed Segments"),
      Item("starship_preset_gruvbox", "Gruvbox Rainbow"),
      Item("starship_preset_tokyo", "Tokyo Night")])

  /** `buildStarshipMenu`: configuration, presets, shell setup and help. */
  const STARSHIP_INSTALLED :=
    Submenu("starship_submenu", "Starship", [
      Section("starship_config_section", Some("Configuration")),
      Item("starship_config_edit", "Edit Config"),
      Item("starship_config_init", "Create Default Config"),
      Section("starship_presets_section", Some("Apply Preset")),
      STARSHIP_PRESETS,
      Section("starship_setup_section", Some("Shell Setup")),
      Item("starship_setup_bash", "Setup for Bash"),
      Item("starship_setup_zsh", "Setup for Zsh"),
      Item("starship_setup_fish", "Setup for Fish"),
      Section("starship_help_section", None),
      Item("starship_help", "Help"),
      Item("starship_docs", "Documentation")])

  const OHMYZSH_THEMES :=
    Submenu("ohmyzsh_themes_submenu", "Change Theme", [
      Item("ohmyzsh_theme_robbyrussell", "robbyrussell (default)"),
      Item("ohmyzsh_theme_agnoster", "agnoster"),
      Item("ohmyzsh_theme_avit", "avit"),
      Item("ohmyzsh_theme_bira", "bira"),
      Item("ohmyzsh_theme_candy", "candy"),
      Item("ohmyzsh_theme_dst", "dst"),
      Item("ohmyzsh_theme_list", "List All Themes")])

  /** `buildOhMyZshMenu`: themes, plugins, maintenance and help. */
  const OHMYZSH_INSTALLED :=
    Submenu("ohmyzsh_submenu", "Oh My Zsh", [
      Section("ohmyzsh_themes_section", Some("Themes")),
      Item("ohmyzsh_current_theme", "Show Current Theme"),
      OHMYZSH_THEMES,
      Section("ohmyzsh_plugins_section", Some("Plugins")),
      Item("ohmyzsh_show_plugins", "Show Active Plugins"),
      Item("ohmyzsh_list_plugins", "List Available Plugins"),
      Item("ohmyzsh_edit_plugins", "Edit Plugins"),
      Section("ohmyzsh_maintenance_section", Some("Maintenance")),
      Item("ohmyzsh_update", "Update Oh My Zsh"),
      Item("ohmyzsh_reload", "Reload Config"),
      Item("ohmyzsh_edit_zshrc", "Edit .zshrc"),
      Section("ohmyzsh_help_section", None),
      Item("ohmyzsh_help", "Help"),
      Item("ohmyzsh_docs", "Documentation")])

  /**
   * The installed Starship menu is divided by the sections Configuration, Apply Preset,
   * Shell Setup and an unlabelled help section, in that order, and offers seven presets.
   */
  lemma StarshipMenuLayout()
    ensures var items := STARSHIP_INSTALLED.items;
      && |items| == 12
      && (forall i :: 0 <= i < |items| ==> (items[i].Section? <==> i == 0 || i == 3 || i == 5 || i == 9))
      && items[0].heading == Some("Configuration") && items[3].heading == Some("Apply Preset")
      && items[5].heading == Some("Shell Setup") && items[9].heading == None
      && items[4] == STARSHIP_PRESETS && |STARSHIP_PRESETS.items| == 7
  {
  }

  /** Installed or not, each tool keeps the same submenu id, and the install variants hold exactly install and learn-more. */
  lemma SubmenuIdsStable()
    ensures STARSHIP_INSTALLED.id == STARSHIP_NOT_INSTALLED.id == "starship_submenu"
    ensures OHMYZSH_INSTALLED.id == OHMYZSH_NOT_INSTALLED.id == "ohmyzsh_submenu"
    ensures ElementIds(STARSHIP_NOT_INSTALLED.items) == ["starship_install", "starship_learnmore"]
    ensures ElementIds(OHMYZSH_NOT_INSTALLED.items) == ["ohmyzsh_install", "ohmyzsh_learnmore"]
  {
  }

  class ShellCustomizationMenuProvider {
    /** Cached installation status; None until the first refresh. */
    var starshipInstalled: Option<bool>
    var ohmyzshInstalled: Option<bool>

    constructor ()
      ensures starshipInstalled == None && ohmyzshInstalled == None
    {
      starshipInstalled := None;
      ohmyzshInstalled := None;
    }

    /** Stores the probes' answers in both caches. */
    method RefreshStatus(starshipProbe: bool, ohmyzshProbe: bool)
      modifies this
      ensures starshipInstalled == Some(starshipProbe) && ohmyzshInstalled == Some(ohmyzshProbe)
      ensures GetStatus() == Some(starshipProbe) && GetOhMyZshStatus() == Some(ohmyzshProbe)
    {
      starshipInstalled := Some(starshipProbe);
      ohmyzshInstalled := Some(ohmyzshProbe);
    }

    function GetStatus(): Option<bool>
      reads this
    {
      starshipInstalled
    }

    function GetOhMyZshStatus(): Option<bool>
      reads this
    {
      ohmyzshInstalled
    }

    /**
     * The menu: one `shell_submenu` holding the Starship submenu and then the Oh My Zsh
     * submenu, each in its installed or not-installed form. A probe's answer matters only
     * when neither the override nor the cache answers.
     */
    method GetMenuItems(statusOverride: Option<map<string, bool>>, starshipProbe: bool, ohmyzshProbe: bool)
      returns (menu: seq<MenuElement>)
      ensures var starship := EffectiveStatus(statusOverride, "starship", starshipInstalled, starshipProbe);
        var ohmyzsh := EffectiveStatus(statusOverride, "oh-my-zsh", ohmyzshInstalled, ohmyzshProbe);
        menu == [Submenu("shell_submenu", "Shell", [
          if starship then STARSHIP_INSTALLED else STARSHIP_NOT_INSTALLED,
          if ohmyzsh then OHMYZSH_INSTALLED else OHMYZSH_NOT_INSTALLED])]
    {
      var isStarshipInstalled := EffectiveStatus(statusOverride, "starship", starshipInstalled, starshipProbe);
      var isOhMyZshInstalled := EffectiveStatus(statusOverride, "oh-my-zsh", ohmyzshInstalled, ohmyzshProbe);
      var shellItems: seq<MenuElement> := [];
      if !isStarshipInstalled {
        shellItems := shellItems + [STARSHIP_NOT_INSTALLED];
      } else {
        shellItems := shellItems + [STARSHIP_INSTALLED];
      }
      if !isOhMyZshInstalled {
        shellItems := shellItems + [OHMYZSH_NOT_INSTALLED];
      } else {
        shellItems := shellItems + [OHMYZSH_INSTALLED];
      }
      assert shellItems == [if isStarshipInstalled then STARSHIP_INSTALLED else STARSHIP_NOT_INSTALLED,
                            if isOhMyZshInstalled then OHMYZSH_INSTALLED else OHMYZSH_NOT_INSTALLED];
      // Both submenus are always added, so the source's empty-list branch is unreachable.
      assert shellItems != [];
      menu := [Submenu("shell_submenu", "Shell", shellItems)];
    }
  }
}
