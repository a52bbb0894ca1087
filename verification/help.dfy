/**
 * The "Shortcuts" help text: a header followed by one "name: shortcut" line
 * per script that sets a shortcut, in configuration order.
 */
module Help {
  import opened ConfigModel
  import opened Registry
  import opened Materialize

  const Header: string := "Shortcuts:\n\n"

  /** The help line of one script that sets a shortcut. */
  function HelpLine(s: Script): (r: string)
    requires IsSet(s.shortcut)
    ensures |r| == |ButtonLabel(s)| + |s.shortcut.value| + 3
    ensures r[..|ButtonLabel(s)|] == ButtonLabel(s) && r[|r| - 1] == '\n'
    ensures r[|ButtonLabel(s)|..|ButtonLabel(s)| + 2] == ": " && r[|ButtonLabel(s)| + 2..|r| - 1] == s.shortcut.value
  {
    ButtonLabel(s) + ": " + s.shortcut.value + "\n"
  }

  /** The help lines of `scripts`, in order; a script without a shortcut adds nothing. */
  function HelpLines(scripts: seq<Script>): (r: string)
    ensures r != "" ==> r[|r| - 1] == '\n'
  {
    if scripts == [] then ""
    else
      var last := scripts[|scripts| - 1];
      HelpLines(scripts[..|scripts| - 1]) + (if IsSet(last.shortcut) then HelpLine(last) else "")
  }

  /** The whole text the help window shows for `config`. */
  function HelpText(config: Config): (r: string)
    ensures |Header| <= |r| && r[..|Header|] == Header
  {
    Header + HelpLines(Flatten(config.categories))
  }

  lemma HelpLinesSnoc(scripts: seq<Script>, i: nat)
    requires i < |scripts|
    ensures HelpLines(scripts[..i + 1])
         == HelpLines(scripts[..i]) + (if IsSet(scripts[i].shortcut) then HelpLine(scripts[i]) else "")
  {
    assert scripts[..i + 1][..i] == scripts[..i];
  }

  /** The help lines of two lists in turn are the help lines of their concatenation. */
  lemma {:induction false} HelpLinesAppend(a: seq<Script>, b: seq<Script>)
    ensures HelpLines(a + b) == HelpLines(a) + HelpLines(b)
  {
    if b == [] {
      assert a + b == a;
    } else {
      var n := |b| - 1;
      var last := b[n];
      assert (a + b)[..|a + b| - 1] == a + b[..n];
      assert (a + b)[|a + b| - 1] == last;
      HelpLinesAppend(a, b[..n]);
      var tail := if IsSet(last.shortcut) then HelpLine(last) else "";
      ConcatAssoc(HelpLines(a), HelpLines(b[..n]), tail);
    }
  }

  /**
   * Every script that sets a shortcut has its own line, placed after the lines
   * of the scripts before it and before those of the scripts after it.
   */
  lemma HelpLineOf(scripts: seq<Script>, j: nat)
    requires j < |scripts| && IsSet(scripts[j].shortcut)
    ensures HelpLines(scripts) == HelpLines(scripts[..j]) + HelpLine(scripts[j]) + HelpLines(scripts[j + 1..])
  {
    assert scripts == scripts[..j + 1] + scripts[j + 1..];
    HelpLinesAppend(scripts[..j + 1], scripts[j + 1..]);
    HelpLinesSnoc(scripts, j);
  }

  /** The listing is empty exactly when no script sets a shortcut. */
  lemma {:induction false} HelpLinesEmpty(scripts: seq<Script>)
    ensures HelpLines(scripts) == "" <==> forall j :: 0 <= j < |scripts| ==> !IsSet(scripts[j].shortcut)
  {
    if scripts != [] {
      var n := |scripts| - 1;
      HelpLinesEmpty(scripts[..n]);
      if IsSet(scripts[n].shortcut) {
        assert |HelpLine(scripts[n])| > 0;
      } else {
        forall j | 0 <= j < n ensures scripts[..n][j] == scripts[j] { }
      }
    }
  }

  /**
   * Every shortcut the registry holds is listed in the help text, on the line
   * of a script that sets it.
   */
  lemma HelpCoversRegistry(config: Config, k: string)
    requires k in ConfigShortcuts(config)
    ensures exists j :: Listed(Flatten(config.categories), j, k)
  {
    var scripts := Flatten(config.categories);
    ConfigShortcutsAt(config, k);
    var j :| 0 <= j < |scripts| && Declares(scripts[j], k);
    HelpLineOf(scripts, j);
    assert Listed(scripts, j, k);
  }

  /** `scripts[j]` sets shortcut `k` and its help line sits between those of its neighbours. */
  ghost predicate Listed(scripts: seq<Script>, j: int, k: string) {
    0 <= j < |scripts| && Declares(scripts[j], k)
    && HelpLines(scripts) == HelpLines(scripts[..j]) + HelpLine(scripts[j]) + HelpLines(scripts[j + 1..])
  }

  /**
   * `show_shortcuts_info`: accumulates the help text over the categories and
   * their scripts with two nested loops.
   */
  method ShowShortcutsInfo(config: Config) returns (info: string)
    ensures info == HelpText(config)
  {
    var categories := config.categories;
    info := Header;
    for i := 0 to |categories|
      invariant info == Header + HelpLines(Flatten(categories[..i]))
    {
      var scripts := categories[i].scripts;
      ghost var before := Flatten(categories[..i]);
      assert before + scripts[..0] == before;
      for j := 0 to |scripts|
        invariant info == Header + HelpLines(before + scripts[..j])
      {
        var script := scripts[j];
        HelpLinesStep(before, scripts, j);
        if IsSet(script.shortcut) {
          var scriptName := ButtonLabel(script);
          var line := scriptName + ": " + script.shortcut.value + "\n";
          ConcatAssoc(Header, HelpLines(before + scripts[..j]), line);
          info := info + line;
        }
      }
      assert scripts[..|scripts|] == scripts;
      FlattenSnoc(categories, i);
    }
    assert categories[..|categories|] == categories;
  }

  lemma HelpLinesStep(before: seq<Script>, scripts: seq<Script>, j: nat)
    requires j < |scripts|
    ensures HelpLines(before + scripts[..j + 1])
         == HelpLines(before + scripts[..j]) + (if IsSet(scripts[j].shortcut) then HelpLine(scripts[j]) else "")
  {
    var done := before + scripts[..j];
    assert before + scripts[..j + 1] == done + [scripts[j]];
    assert (done + [scripts[j]])[..|done|] == done;
  }

  lemma ConcatAssoc(a: string, b: string, c: string)
    ensures (a + b) + c == a + (b + c)
  {
  }

}
