# tg_dashboard in Dafny

`tg_dashboard.py` is a Tkinter launcher for Terragen helper scripts. It reads
a TOML file listing categories of scripts. It shows one tab per category and
one button per script, two buttons to a row. A script may carry a display
label and a keyboard shortcut. Every key press is turned into a canonical
shortcut string and looked up in a dictionary from shortcut to script path.
A "Shortcuts" window lists every script that has a shortcut.

This project models the logic behind that:

- `options.dfy`: the `Option` type, used for the fields a TOML entry may leave out.
- `text.dfy`: the three string operations the key normaliser uses. They are
  ASCII lower-casing, `sep.join(parts)`, and single-character `str.replace`.
- `chord.dfy`: the part of `handle_shortcut` that computes the string.
  - A key event is its key symbol and its `state` bitmask.
  - Shift comes from bit 0x0001 and Control from bit 0x0004.
  - Alt comes only from the key symbols `Alt_L` and `Alt_R`.
  - The key symbol is lower-cased and joined after the modifiers with `+`.
  - A one-character result is wrapped in `<…>`. Otherwise every `+` becomes `-`.
  - `Dispatch` looks the result up in the dictionary.
- `config_model.dfy`: the parsed configuration.
  - A `Script` is the `(path, label, shortcut)` triple that `create_tabs_from_config`
    builds for each script. Its label is named `displayLabel`.
  - Python truthiness is modelled: a missing field and an empty string both count as "not given".
  - `ButtonLabel` is the label, or the text after the last `/` of the path.
- `registry.dfy`: the shared `shortcuts_dict`.
  - It is a class whose map the button builder updates in place.
  - `RegisterScripts` is its specification: registrations are applied in order, and the last writer wins.
- `materialize.dfy`: `create_buttons_for_category` and `create_tabs_from_config`.
  - These are the methods with the source's loops: the row/column counters and the colour index that wraps at the size of the 7-colour palette.
  - The Tk widgets are represented by `Button` and `Tab` records.
- `help.dfy`: `show_shortcuts_info` as a method with the source's two nested loops.
  - It is proved equal to the pure `HelpText`.
  - Lemmas say which lines that text holds.

## Model

| member | source | states |
|---|---|---|
| Text.ToLower | tg_dashboard.py:36 | same length; no upper-case ASCII letter remains; every character is kept or is the lower-case form of an upper-case letter |
| Text.Replace | tg_dashboard.py:58 | same length; each occurrence of `x` becomes `y` and every other character stays put; when `x != y` no `x` remains |
| Text.Join | tg_dashboard.py:50 | a join of no parts is empty and a join of one part is that part; a non-empty join is at least as long as its first and its last part; with two or more parts the separator occurs in it; `Text.JoinAppend` fixes the rest |
| Text.JoinAppend | tg_dashboard.py:50 | joining two non-empty lists is joining each and putting one separator between them, which with the empty and one-part cases determines `sep.join` for every list |
| Text.ReplaceConcat | tg_dashboard.py:58 | replacing in a concatenation is replacing in each part |
| Text.ReplaceJoin | tg_dashboard.py:50-58 | joining with `+` and then replacing `+` by `-` equals joining with `-`, provided no part contains `+` |
| Chord.Modifiers | tg_dashboard.py:39-47 | the modifier list has at most three entries; `Chord.ModifiersSpec` states its contents and order |
| Chord.Combine | tg_dashboard.py:50 | with a modifier the combined string is at least as long as the first modifier, a `+` and the key together, which is why it can never be bracketed (`Chord.BracketedIff`) |
| Chord.ModifiersSpec | tg_dashboard.py:39-47 | the modifier list only holds Shift, Control, Alt, strictly in that order; Shift is present iff bit 0x0001 is set, Control iff bit 0x0004 is set, Alt iff the key symbol is `Alt_L` or `Alt_R` |
| Chord.Normalize | tg_dashboard.py:50-58 | a combined string of length 1 is wrapped in angle brackets; any other result contains no `+` and is as long as the combined string |
| Chord.BracketedIff | tg_dashboard.py:50-55 | the result is bracketed exactly when there are no modifiers and the lower-cased key symbol is one character |
| Chord.NormalizeCases | tg_dashboard.py:36-58 | the full case split: bracketed single key; a longer bare key with `+` replaced by `-`; with modifiers, the modifiers and the key joined by `-` |
| Chord.NormalizeWithModifiers | tg_dashboard.py:50-58 | with at least one modifier the result is the modifiers joined by `-`, then `-`, then the lower-cased key with `+` replaced by `-` |
| Chord.AltOnlyWithAltKeysym | tg_dashboard.py:45-50 | Alt appears only when the key is `alt_l` or `alt_r` itself, so a chord of Alt with an ordinary key is never produced |
| Chord.NormalizeControlAlt | tg_dashboard.py:40-58 | either Alt key pressed with Control and without Shift gives `Control-Alt-` followed by the lower-cased key name |
| Chord.NormalizeIgnoresOtherBits | tg_dashboard.py:40-43 | two events with the same key symbol and the same Shift and Control bits normalise alike; lock and mouse bits do not matter |
| Chord.NormalizeSingleKeyExample | tg_dashboard.py:54-55 | key `B` with no modifier gives `<b>` |
| Chord.NormalizeLockBitsExample | tg_dashboard.py:40-55 | key `b` with only the Caps Lock and Num Lock bits (0x12) gives `<b>` |
| Chord.NormalizeNamedKeyExample | tg_dashboard.py:36-58 | key `F5` with no modifier gives `f5`, unbracketed |
| Chord.NormalizeShiftExample | tg_dashboard.py:40-58 | key `B` with Shift (state 1) gives `Shift-b` |
| Chord.NormalizeShiftControlExample | tg_dashboard.py:40-58 | key `B` with Shift and Control (state 5) gives `Shift-Control-b` |
| Chord.NormalizeAltExample | tg_dashboard.py:42-58 | the left Alt key pressed with Control (state 4) gives `Control-Alt-alt_l` |
| Chord.Dispatch | tg_dashboard.py:66-70 | a path is returned exactly when the canonical string is a key of the dictionary, and it is the path stored under that key; otherwise nothing is launched |
| ConfigModel.LastSegment | tg_dashboard.py:80 | the result is a suffix of the path containing no `/`; when shorter than the path it is preceded by `/`; a path without `/` is returned whole |
| ConfigModel.ButtonLabel | tg_dashboard.py:80 | a set label is used as is; otherwise the text after the last `/` of the path, or the whole path when it has none |
| ConfigModel.Flatten | tg_dashboard.py:106-116 | the scripts of all categories in walking order; no categories give no scripts; `ConfigModel.FlattenIndex` states the order |
| ConfigModel.FlattenIndex | tg_dashboard.py:106-116 | the j-th script of category c is at position j after all scripts of the categories before c |
| Registry.ShortcutRegistry.constructor | tg_dashboard.py:104 | the registry starts empty |
| Registry.ShortcutRegistry.Register | tg_dashboard.py:87-88 | the registry after recording one script is `RegisterScript` of the registry before |
| Registry.RegisterScript | tg_dashboard.py:87-88 | the keys grow by the script's shortcut exactly when it sets one, that key then maps to the script's path, and every other entry is kept |
| Registry.RegisterScripts | tg_dashboard.py:76-88 | registering scripts in order never removes a key, and registering none changes nothing; `Registry.RegisterScriptsKeys`, `Registry.RegisterScriptsLastWriter` and `Registry.RegisterScriptsKeeps` state the contents |
| Registry.RegisterScriptsKeys | tg_dashboard.py:87-88 | after registration a shortcut is a key exactly when it was one before or some script sets it; scripts without a shortcut add nothing |
| Registry.RegisterScriptsLastWriter | tg_dashboard.py:87-88 | a shortcut maps to the path of the last script that sets it |
| Registry.RegisterScriptsKeeps | tg_dashboard.py:87-88 | a shortcut no script sets keeps its earlier path |
| Registry.LastDeclarerExists | tg_dashboard.py:87-88 | every shortcut some script sets has a last script setting it |
| Registry.RegisterScriptsAppend | tg_dashboard.py:106-126 | registering two script lists in turn is registering their concatenation, so one registry threaded through the categories equals one pass over all scripts |
| Materialize.CreateButtonsForCategory | tg_dashboard.py:72-94 | the i-th button is at row i / 2 and column i % 2, shows the script's label and launches its path; the registry becomes the old one with every set shortcut of the category registered in order |
| Materialize.ButtonStep | tg_dashboard.py:76-88 | one turn of the button loop extends the placement and the registry of the scripts before it |
| Materialize.PlacedInGridSnoc | tg_dashboard.py:76-84 | placing the next script at cell (i / 2, i % 2) extends a correct placement of the first i scripts |
| Materialize.NextCell | tg_dashboard.py:91-94 | the column step that wraps after two columns moves from cell (i / 2, i % 2) to cell ((i + 1) / 2, (i + 1) % 2) |
| Materialize.NextColorIndex | tg_dashboard.py:129-131 | incrementing the colour index and resetting it at 7 moves from (i + 1) mod 7 to (i + 2) mod 7 |
| Materialize.CreateTabsFromConfig | tg_dashboard.py:96-133 | one tab per category in order; tab i is titled with the name and a trailing space, has colour index (i + 1) mod 7 (below 7) and that category's buttons; the returned registry is fresh and holds the shortcuts of all scripts over all categories |
| Materialize.TabStep | tg_dashboard.py:106-126 | one turn of the tab loop extends the tabs and the registry of the categories before it |
| Materialize.ConfigShortcuts | tg_dashboard.py:104-133 | the registry the dashboard ends up with; it is empty for a configuration without categories; `Materialize.ConfigShortcutsAt` states its contents |
| Materialize.ConfigShortcutsAt | tg_dashboard.py:104-126 | the final registry's keys are exactly the shortcuts the configuration sets, each mapped to the path of the last script over all categories that sets it |
| Materialize.DispatchAfterMaterialize | tg_dashboard.py:66-68 | a key press launches something exactly when some script sets its canonical string, and then launches the last such script |
| Help.HelpLine | tg_dashboard.py:148-149 | the line of a script with a shortcut is the script's name, then `: `, then the shortcut, then a newline |
| Help.HelpLines | tg_dashboard.py:140-149 | a non-empty listing ends with a newline; `Help.HelpLineOf` and `Help.HelpLinesEmpty` state its lines |
| Help.HelpText | tg_dashboard.py:139-149 | the help text starts with the header `Shortcuts:` and a blank line |
| Help.HelpLinesAppend | tg_dashboard.py:140-149 | the help lines of two script lists in turn are the help lines of their concatenation |
| Help.HelpLineOf | tg_dashboard.py:146-149 | each script with a shortcut has its own `name: shortcut` line, after the lines of the scripts before it and before those of the scripts after it |
| Help.HelpLinesEmpty | tg_dashboard.py:146-147 | the listing after the header is empty exactly when no script sets a shortcut |
| Help.HelpCoversRegistry | tg_dashboard.py:146-149 | every shortcut in the final registry is listed in the help text on the line of a script that sets it |
| Help.ShowShortcutsInfo | tg_dashboard.py:135-152 | the accumulated text is the header `Shortcuts:` with a blank line, followed by the help lines of all scripts over all categories in order |

## Left out

- The Tk window, menu, notebook, frames, buttons, `grid` and `bind_all` calls and `mainloop` are not modelled. Buttons and tabs are the records the loops produce.
- `toml.load` and the `KeyError` raised for a missing `name`, `scripts` or `path` are not modelled. The configuration is a typed, complete value. A missing `label` or `shortcut` is `None`, exactly as `script.get(..., None)` gives.
- The loop building `scripts_with_shortcuts` (tg_dashboard.py:111-116) is not a separate operation: each `Script` value already is that triple.
- `execute_script` (changing directory and running a Python subprocess) is I/O. `Dispatch` returns the path that would be launched.
- `messagebox.showinfo`, `messagebox.showwarning` and the diagnostic `print` of an unknown shortcut are output only. The model keeps the help string, and `None` stands for the unknown case.
- The help window re-reads the configuration file on every click (tg_dashboard.py:137), while the registry is built once at startup. The model takes both from one startup `Config`, so `Help.HelpCoversRegistry` holds for the program only while the file is unchanged since startup.
- The hex values of the colour palette are not modelled. A tab records the palette index, and only the palette's size (7) matters.
- Text.ToLower: lower-cases ASCII letters only, while Python's `str.lower` also folds non-ASCII letters. Tk key symbols are ASCII names.
- A script path is a string whose segments are split at `/` only, as the source does. Windows `\` separators are not treated specially.
