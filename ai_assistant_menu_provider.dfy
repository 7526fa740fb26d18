/**
 * The "AI Assistants" context menu: a launch item for each installed assistant,
 * an install submenu for each one that is not, all under one submenu.
 */
module AIAssistantMenuProvider {
  import opened Nullables
  import opened Text
  import opened ContextMenu
  import opened AIAssistantDefinition
  import WizardState

  /** The two settings of an assistant that the menu reads. */
  datatype ConfigData = ConfigData(enabled: bool, yoloEnabled: bool)

  /** `configs[id] ?: default` */
  function ConfigFor(configs: map<string, ConfigData>, id: string, default: ConfigData): ConfigData {
    if id in configs then configs[id] else default
  }

  /** `status[id] ?: false`: a missing entry counts as not installed. */
  predicate IsInstalled(status: map<string, bool>, id: string) {
    id in status && status[id]
  }

  /** The display name, followed by the YOLO label in parentheses when YOLO mode is on. */
  function BuildMenuLabel(assistant: AssistantDefinition, config: ConfigData): string {
    if config.yoloEnabled && !IsBlank(assistant.yoloLabel) then
      assistant.displayName + " (" + assistant.yoloLabel + ")"
    else
      assistant.displayName
  }

  lemma MenuLabelShape(assistant: AssistantDefinition, config: ConfigData)
    ensures var title := BuildMenuLabel(assistant, config);
      && StartsWith(title, assistant.displayName)
      && (|title| > |assistant.displayName| <==> config.yoloEnabled && !IsBlank(assistant.yoloLabel))
      && (|title| > |assistant.displayName| ==>
            title[|assistant.displayName|..] == " (" + assistant.yoloLabel + ")")
  {
    var title := BuildMenuLabel(assistant, config);
    if config.yoloEnabled && !IsBlank(assistant.yoloLabel) {
      assert title[|assistant.displayName|..] == " (" + assistant.yoloLabel + ")";
    }
  }

  /** The children of a not-installed assistant's submenu. */
  function InstallItems(assistant: AssistantDefinition): seq<MenuElement> {
    (if assistant.npmInstallCommand.Some? then
       [Item("ai_install_script_" + assistant.id, "Install (Script)"),
        Item("ai_install_npm_" + assistant.id, "Install (npm)")]
     else
       [Item("ai_install_" + assistant.id, "Install")])
    + [Item("ai_learnmore_" + assistant.id, "Learn More")]
  }

  /** The menu element of one enabled assistant. */
  function EntryFor(assistant: AssistantDefinition, config: ConfigData, status: map<string, bool>)
    : MenuElement
  {
    if IsInstalled(status, assistant.id) then
      Item("ai_launch_" + assistant.id, BuildMenuLabel(assistant, config))
    else
      Submenu("ai_submenu_" + assistant.id, assistant.displayName, InstallItems(assistant))
  }

  /** The assistants whose config (or the default config) is enabled, in registry order. */
  function EnabledAssistants(all: seq<AssistantDefinition>, configs: map<string, ConfigData>, default: ConfigData)
    : (r: seq<AssistantDefinition>)
    ensures |r| <= |all|
    ensures forall i :: 0 <= i < |r| ==> r[i] in all && ConfigFor(configs, r[i].id, default).enabled
    ensures forall j :: 0 <= j < |all| && ConfigFor(configs, all[j].id, default).enabled ==> all[j] in r
  {
    if all == [] then []
    else
      var last := all[|all| - 1];
      EnabledAssistants(all[..|all| - 1], configs, default)
      + (if ConfigFor(configs, last.id, default).enabled then [last] else [])
  }

  /**
   * The enabled assistants are exactly `all` filtered by the enabled flag: each enabled
   * assistant appears once, in registry order.
   */
  lemma {:induction false} EnabledIsFilter(
    all: seq<AssistantDefinition>, configs: map<string, ConfigData>, default: ConfigData)
    ensures EnabledAssistants(all, configs, default)
         == WizardState.Filter(all, (a: AssistantDefinition) => ConfigFor(configs, a.id, default).enabled)
    decreases |all|
  {
    if all != [] {
      var keep := (a: AssistantDefinition) => ConfigFor(configs, a.id, default).enabled;
      var front, last := all[..|all| - 1], all[|all| - 1];
      EnabledIsFilter(front, configs, default);
      assert all == front + [last];
      WizardState.FilterAppend(front, [last], keep);
      assert WizardState.Filter([last], keep) == (if keep(last) then [last] else []) by {
        assert [last][1..] == [];
      }
    }
  }

  /** One menu element per enabled assistant, in the same order. */
  function Entries(
    enabled: seq<AssistantDefinition>, configs: map<string, ConfigData>, default: ConfigData,
    status: map<string, bool>): seq<MenuElement>
  {
    seq(|enabled|, i requires 0 <= i < |enabled| =>
      EntryFor(enabled[i], ConfigFor(configs, enabled[i].id, default), status))
  }

  lemma EnabledStep(all: seq<AssistantDefinition>, i: int, configs: map<string, ConfigData>, default: ConfigData)
    requires 0 <= i < |all|
    ensures EnabledAssistants(all[..i + 1], configs, default)
         == EnabledAssistants(all[..i], configs, default)
            + (if ConfigFor(configs, all[i].id, default).enabled then [all[i]] else [])
  {
    assert all[..i + 1][..i] == all[..i];
  }

  lemma EntriesStep(
    enabled: seq<AssistantDefinition>, next: AssistantDefinition, configs: map<string, ConfigData>,
    default: ConfigData, status: map<string, bool>)
    ensures Entries(enabled + [next], configs, default, status)
         == Entries(enabled, configs, default, status)
            + [EntryFor(next, ConfigFor(configs, next.id, default), status)]
  {
  }

  /** The whole menu: exactly one submenu `ai_assistants_menu`, even when it has no children. */
  method GetMenuItems(
    all: seq<AssistantDefinition>, status: map<string, bool>,
    configs: map<string, ConfigData>, default: ConfigData)
    returns (menu: seq<MenuElement>)
    ensures menu == [Submenu("ai_assistants_menu", "AI Assistants",
                             Entries(EnabledAssistants(all, configs, default), configs, default, status))]
  {
    var assistantItems: seq<MenuElement> := [];
    for i := 0 to |all|
      invariant assistantItems == Entries(EnabledAssistants(all[..i], configs, default), configs, default, status)
    {
      EnabledStep(all, i, configs, default);
      var assistant := all[i];
      var config := ConfigFor(configs, assistant.id, default);
      if !config.enabled {
        continue;
      }
      EntriesStep(EnabledAssistants(all[..i], configs, default), assistant, configs, default, status);
      var isInstalled := IsInstalled(status, assistant.id);
      if isInstalled {
        var title := BuildMenuLabel(assistant, config);
        assistantItems := assistantItems + [Item("ai_launch_" + assistant.id, title)];
      } else {
        var installItems: seq<MenuElement> := [];
        if assistant.npmInstallCommand.Some? {
          installItems := installItems + [Item("ai_install_script_" + assistant.id, "Install (Script)")];
          installItems := installItems + [Item("ai_install_npm_" + assistant.id, "Install (npm)")];
        } else {
          installItems := installItems + [Item("ai_install_" + assistant.id, "Install")];
        }
        installItems := installItems + [Item("ai_learnmore_" + assistant.id, "Learn More")];
        assert installItems == InstallItems(assistant);
        assistantItems := assistantItems
          + [Submenu("ai_submenu_" + assistant.id, assistant.displayName, installItems)];
      }
    }
    assert all[..|all|] == all;
    menu := [Submenu("ai_assistants_menu", "AI Assistants", assistantItems)];
  }

  /**
   * An installed assistant is a single launch item; one that is not installed is a
   * submenu of script and npm install items (or one install item when there is no
   * npm command) followed by "Learn More".
   */
  lemma EntryShape(assistant: AssistantDefinition, config: ConfigData, status: map<string, bool>)
    ensures var e := EntryFor(assistant, config, status);
      && (IsInstalled(status, assistant.id) <==> e.Item?)
      && (e.Item? ==> e.id == "ai_launch_" + assistant.id)
      && (e.Submenu? ==> e.id == "ai_submenu_" + assistant.id && e.title == assistant.displayName)
      && (e.Submenu? && assistant.npmInstallCommand.Some? ==>
            ElementIds(e.items) == ["ai_install_script_" + assistant.id, "ai_install_npm_" + assistant.id,
                             "ai_learnmore_" + assistant.id])
      && (e.Submenu? && assistant.npmInstallCommand.None? ==>
            ElementIds(e.items) == ["ai_install_" + assistant.id, "ai_learnmore_" + assistant.id])
  {
  }

  /** Prefixed ids are equal only when the prefixes' differing characters allow it. */
  lemma PrefixedIdsDiffer(p: string, q: string, x: string, y: string)
    requires |p| == |q| && p != q
    ensures p + x != q + y
  {
    var k :| 0 <= k < |p| && p[k] != q[k];
    assert (p + x)[k] == p[k] && (q + y)[k] == q[k];
  }

  lemma SamePrefixIds(p: string, x: string, y: string)
    requires p + x == p + y
    ensures x == y
  {
    assert x == (p + x)[|p|..] && y == (p + y)[|p|..];
  }

  /** Assistants with distinct ids get menu elements with distinct ids. */
  lemma EntryIdsDistinct(
    a: AssistantDefinition, b: AssistantDefinition, ca: ConfigData, cb: ConfigData, status: map<string, bool>)
    requires a.id != b.id
    ensures EntryFor(a, ca, status).id != EntryFor(b, cb, status).id
  {
    var ea, eb := EntryFor(a, ca, status), EntryFor(b, cb, status);
    if ea.Item? && eb.Submenu? {
      assert "ai_launch_" + a.id == "ai_l" + ("aunch_" + a.id);
      assert "ai_submenu_" + b.id == "ai_s" + ("ubmenu_" + b.id);
      PrefixedIdsDiffer("ai_l", "ai_s", "aunch_" + a.id, "ubmenu_" + b.id);
    } else if ea.Submenu? && eb.Item? {
      assert "ai_launch_" + b.id == "ai_l" + ("aunch_" + b.id);
      assert "ai_submenu_" + a.id == "ai_s" + ("ubmenu_" + a.id);
      PrefixedIdsDiffer("ai_s", "ai_l", "ubmenu_" + a.id, "aunch_" + b.id);
    } else if ea.Item? {
      if ea.id == eb.id { SamePrefixIds("ai_launch_", a.id, b.id); }
    } else {
      if ea.id == eb.id { SamePrefixIds("ai_submenu_", a.id, b.id); }
    }
  }

  /** `values.count { it }`: the number of assistants reported installed. */
  function InstalledCount(status: map<string, bool>): nat {
    |set id | id in status && status[id]|
  }

  /** `values.any { it }` */
  predicate HasInstalledAssistants(status: map<string, bool>) {
    exists id :: id in status && status[id]
  }

  lemma HasInstalledIffPositiveCount(status: map<string, bool>)
    ensures HasInstalledAssistants(status) <==> InstalledCount(status) > 0
  {
    var installed := set id | id in status && status[id];
    if HasInstalledAssistants(status) {
      var id :| id in status && status[id];
      assert id in installed;
    } else {
      assert installed == {};
    }
  }
}
