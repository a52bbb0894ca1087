/**
 * Turning the configuration into the dashboard: one tab per category, one
 * button per script laid out two to a row, and the shortcut registry filled
 * in as a side effect. Widgets are modelled by the records the loops produce.
 */
module Materialize {
  import opened Options
  import opened ConfigModel
  import opened Registry
  import opened Chord

  /** Number of entries in the dashboard's colour palette. */
  const PaletteSize: nat := 7

  /** Number of button columns per tab. */
  const Columns: nat := 2

  /** A button: its grid cell, its text, and the path it launches when clicked. */
  datatype Button = Button(row: nat, col: nat, text: string, target: string)

  /** A tab: its title, the palette index of its background, and its buttons. */
  datatype Tab = Tab(text: string, colorIndex: nat, buttons: seq<Button>)

  /**
   * The buttons of one category: the i-th script gets row i / 2 and column
   * i % 2, its label (or last path segment) as text, and its path as target.
   */
  ghost predicate PlacedInGrid(buttons: seq<Button>, scripts: seq<Script>) {
    |buttons| == |scripts|
    && forall i :: 0 <= i < |buttons| ==>
         buttons[i] == Button(i / Columns, i % Columns, ButtonLabel(scripts[i]), scripts[i].path)
  }

  /**
   * `create_buttons_for_category`: walks the scripts in order with a row/column
   * counter pair that wraps after two columns, and records every set shortcut
   * in the shared registry.
   */
  method CreateButtonsForCategory(scripts: seq<Script>, registry: ShortcutRegistry) returns (buttons: seq<Button>)
    modifies registry
    ensures PlacedInGrid(buttons, scripts)
    ensures registry.shortcuts == RegisterScripts(old(registry.shortcuts), scripts)
  {
    var row, col := 0, 0;
    buttons := [];
    for i := 0 to |scripts|
      invariant row == i / Columns && col == i % Columns
      invariant PlacedInGrid(buttons, scripts[..i])
      invariant registry.shortcuts == RegisterScripts(old(registry.shortcuts), scripts[..i])
    {
      var script := scripts[i];
      var buttonLabel := ButtonLabel(script);
      ghost var before := registry.shortcuts;
      var button := Button(row, col, buttonLabel, script.path);
      registry.Register(script);
      ButtonStep(scripts, i, buttons, button, old(registry.shortcuts), before, registry.shortcuts);
      buttons := buttons + [button];
      col := col + 1;
      if col == Columns {
        col := 0;
        row := row + 1;
      }
      NextCell(i, row, col);
    }
    assert scripts[..|scripts|] == scripts;
  }

  /**
   * One turn of the button loop: the next script's button and registration
   * extend the placement and the registry of the scripts before it.
   */
  lemma ButtonStep(scripts: seq<Script>, i: nat, buttons: seq<Button>, button: Button,
                   start: map<string, string>, before: map<string, string>, after: map<string, string>)
    requires i < |scripts|
    requires PlacedInGrid(buttons, scripts[..i]) && before == RegisterScripts(start, scripts[..i])
    requires button == Button(i / Columns, i % Columns, ButtonLabel(scripts[i]), scripts[i].path)
    requires after == RegisterScript(before, scripts[i])
    ensures PlacedInGrid(buttons + [button], scripts[..i + 1])
    ensures after == RegisterScripts(start, scripts[..i + 1])
  {
    RegisterScriptsSnoc(start, scripts, i);
    PlacedInGridSnoc(buttons, scripts, i);
  }

  lemma PlacedInGridSnoc(buttons: seq<Button>, scripts: seq<Script>, i: nat)
    requires i < |scripts| && PlacedInGrid(buttons, scripts[..i])
    ensures PlacedInGrid(buttons + [Button(i / Columns, i % Columns, ButtonLabel(scripts[i]), scripts[i].path)], scripts[..i + 1])
  {
    var b := Button(i / Columns, i % Columns, ButtonLabel(scripts[i]), scripts[i].path);
    var next := buttons + [b];
    var done := scripts[..i + 1];
    assert done == scripts[..i] + [scripts[i]];
    forall t | 0 <= t < |next|
      ensures next[t] == Button(t / Columns, t % Columns, ButtonLabel(done[t]), done[t].path)
    {
      if t < i {
        assert next[t] == buttons[t] && done[t] == scripts[..i][t];
      } else {
        assert t == i && next[t] == b && done[t] == scripts[i];
      }
    }
  }

  /** Moving one cell right, and to the start of the next row after two columns, follows i / 2 and i % 2. */
  lemma NextCell(i: nat, row: nat, col: nat)
    requires (row, col) == (if i % Columns + 1 == Columns then (i / Columns + 1, 0) else (i / Columns, i % Columns + 1))
    ensures row == (i + 1) / Columns && col == (i + 1) % Columns
  {
  }

  /** The registry the dashboard ends up with for `config`. */
  function ConfigShortcuts(config: Config): (r: map<string, string>)
    ensures config.categories == [] ==> r == map[]
  {
    RegisterScripts(map[], Flatten(config.categories))
  }

  /**
   * The tab built for the `i`-th category: titled with the category name and a
   * trailing space, coloured from palette index (i + 1) mod 7, holding that
   * category's buttons.
   */
  ghost predicate TabFor(tab: Tab, category: Category, i: nat) {
    && tab.text == category.name + " "
    && tab.colorIndex == (i + 1) % PaletteSize
    && PlacedInGrid(tab.buttons, category.scripts)
  }

  /** Stepping the colour index and wrapping it at the palette size keeps it at (i + 1) mod 7. */
  lemma NextColorIndex(i: nat, next: nat)
    requires next == if (i + 1) % PaletteSize + 1 >= PaletteSize then 0 else (i + 1) % PaletteSize + 1
    ensures next == (i + 2) % PaletteSize
  {
  }

  /**
   * `create_tabs_from_config`: one tab per category, in order, with a colour
   * index that starts at 1 and wraps to 0 at the palette size; returns the
   * registry built across all categories.
   */
  method CreateTabsFromConfig(config: Config) returns (tabs: seq<Tab>, registry: ShortcutRegistry)
    ensures fresh(registry)
    ensures |tabs| == |config.categories|
    ensures forall i :: 0 <= i < |tabs| ==> TabFor(tabs[i], config.categories[i], i)
    ensures forall i :: 0 <= i < |tabs| ==> tabs[i].colorIndex < PaletteSize
    ensures registry.shortcuts == ConfigShortcuts(config)
  {
    var categories := config.categories;
    var colorIndex := 1;
    registry := new ShortcutRegistry();
    tabs := [];
    for i := 0 to |categories|
      invariant 0 <= colorIndex < PaletteSize
      invariant colorIndex == (i + 1) % PaletteSize
      invariant |tabs| == i
      invariant forall t :: 0 <= t < i ==> TabFor(tabs[t], categories[t], t)
      invariant registry.shortcuts == RegisterScripts(map[], Flatten(categories[..i]))
    {
      var category := categories[i];
      var title := category.name + " ";
      ghost var before := registry.shortcuts;
      var buttons := CreateButtonsForCategory(category.scripts, registry);
      var tab := Tab(title, colorIndex, buttons);
      TabStep(categories, i, tabs, tab, before, registry.shortcuts);
      tabs := tabs + [tab];
      colorIndex := colorIndex + 1;
      if colorIndex >= PaletteSize {
        colorIndex := 0;
      }
      NextColorIndex(i, colorIndex);
    }
    assert categories[..|categories|] == categories;
  }

  /**
   * One turn of the tab loop: the next category's tab and registrations extend
   * the tabs and the registry of the categories before it.
   */
  lemma TabStep(categories: seq<Category>, i: nat, tabs: seq<Tab>, tab: Tab,
                before: map<string, string>, after: map<string, string>)
    requires i < |categories| && |tabs| == i
    requires forall t :: 0 <= t < i ==> TabFor(tabs[t], categories[t], t)
    requires TabFor(tab, categories[i], i)
    requires before == RegisterScripts(map[], Flatten(categories[..i]))
    requires after == RegisterScripts(before, categories[i].scripts)
    ensures forall t :: 0 <= t < i + 1 ==> TabFor((tabs + [tab])[t], categories[t], t)
    ensures after == RegisterScripts(map[], Flatten(categories[..i + 1]))
  {
    FlattenSnoc(categories, i);
    RegisterScriptsAppend(map[], Flatten(categories[..i]), categories[i].scripts);
  }

  /**
   * The registry built from a configuration holds exactly the shortcuts its
   * scripts set, each mapped to the path of the last script (over all
   * categories, in order) that sets it.
   */
  lemma ConfigShortcutsAt(config: Config, k: string)
    ensures k in ConfigShortcuts(config) <==> Declared(Flatten(config.categories), k)
    ensures Declared(Flatten(config.categories), k) ==>
      exists j :: LastToDeclare(Flatten(config.categories), j, k)
        && ConfigShortcuts(config)[k] == Flatten(config.categories)[j].path
  {
    var scripts := Flatten(config.categories);
    RegisterScriptsKeys(map[], scripts, k);
    if Declared(scripts, k) {
      LastDeclarerExists(scripts, k);
      var j :| LastToDeclare(scripts, j, k);
      RegisterScriptsLastWriter(map[], scripts, j, k);
    }
  }

  /**
   * Pressing a key launches the path of the last script whose shortcut is the
   * key's canonical string, and launches nothing when no script has it.
   */
  lemma DispatchAfterMaterialize(config: Config, e: KeyEvent)
    ensures Dispatch(ConfigShortcuts(config), e).Some? <==> Declared(Flatten(config.categories), Normalize(e))
    ensures forall j :: LastToDeclare(Flatten(config.categories), j, Normalize(e)) ==>
      Dispatch(ConfigShortcuts(config), e) == Some(Flatten(config.categories)[j].path)
  {
    var scripts, s := Flatten(config.categories), Normalize(e);
    RegisterScriptsKeys(map[], scripts, s);
    forall j | LastToDeclare(scripts, j, s)
      ensures Dispatch(ConfigShortcuts(config), e) == Some(scripts[j].path)
    {
      RegisterScriptsLastWriter(map[], scripts, j, s);
    }
  }

}
