/**
 * The dashboard's configuration, already parsed from its TOML file: an
 * ordered list of categories, each an ordered list of scripts with a path, an
 * optional display label and an optional shortcut.
 */
module ConfigModel {
  import opened Options

  datatype Script = Script(path: string, displayLabel: Option<string>, shortcut: Option<string>)

  datatype Category = Category(name: string, scripts: seq<Script>)

  datatype Config = Config(categories: seq<Category>)

  /**
   * Python truthiness of an optional string field: an absent key and an empty
   * string both count as "not given".
   */
  predicate IsSet(field: Option<string>) {
    field.Some? && field.value != ""
  }

  /**
   * `path.split("/")[-1]`: the text after the last '/', or the whole path
   * when it has none (empty when the path ends in '/').
   */
  function LastSegment(path: string): (r: string)
    ensures |r| <= |path| && r == path[|path| - |r|..]
    ensures '/' !in r
    ensures |r| < |path| ==> path[|path| - |r| - 1] == '/'
    ensures '/' !in path ==> r == path
  {
    if path == [] then []
    else if path[|path| - 1] == '/' then []
    else LastSegment(path[..|path| - 1]) + [path[|path| - 1]]
  }

  /**
   * The text a script's button shows, and the name the help listing gives it:
   * its label when one is set, else the last segment of its path.
   */
  function ButtonLabel(s: Script): (r: string)
    ensures IsSet(s.displayLabel) ==> r == s.displayLabel.value
    ensures !IsSet(s.displayLabel) ==> '/' !in r && |r| <= |s.path| && r == s.path[|s.path| - |r|..]
    ensures !IsSet(s.displayLabel) && |r| < |s.path| ==> s.path[|s.path| - |r| - 1] == '/'
    ensures !IsSet(s.displayLabel) && '/' !in s.path ==> r == s.path
  {
    if IsSet(s.displayLabel) then s.displayLabel.value else LastSegment(s.path)
  }

  /** All scripts of all categories, in the order the dashboard walks them. */
  function Flatten(categories: seq<Category>): (r: seq<Script>)
    ensures |categories| == 0 ==> r == []
  {
    if categories == [] then []
    else Flatten(categories[..|categories| - 1]) + categories[|categories| - 1].scripts
  }

  lemma FlattenSnoc(categories: seq<Category>, i: nat)
    requires i < |categories|
    ensures Flatten(categories[..i + 1]) == Flatten(categories[..i]) + categories[i].scripts
  {
    assert categories[..i + 1][..i] == categories[..i];
  }

  /**
   * The j-th script of category c sits in the flattened list right after the
   * scripts of the categories before c.
   */
  lemma {:induction false} FlattenIndex(categories: seq<Category>, c: nat, j: nat)
    requires c < |categories| && j < |categories[c].scripts|
    ensures |Flatten(categories[..c])| + j < |Flatten(categories)|
    ensures Flatten(categories)[|Flatten(categories[..c])| + j] == categories[c].scripts[j]
  {
    var n := |categories| - 1;
    var init := categories[..n];
    if c < n {
      FlattenIndex(init, c, j);
      assert init[..c] == categories[..c] && init[c] == categories[c];
    }
  }

}
