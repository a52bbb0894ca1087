/**
 * The shortcut registry: the one dictionary from canonical shortcut string to
 * script path that building the tabs fills in and that every key press reads.
 * A later script with the same shortcut silently replaces an earlier one.
 */
module Registry {
  import opened ConfigModel

  /** The shared `shortcuts_dict`, which the button builder updates in place. */
  class ShortcutRegistry {
    var shortcuts: map<string, string>

    constructor ()
      ensures shortcuts == map[]
    {
      shortcuts := map[];
    }

    /** Records the script's shortcut, when it sets one, replacing any earlier entry for it. */
    method Register(s: Script)
      modifies this
      ensures shortcuts == RegisterScript(old(shortcuts), s)
    {
      if IsSet(s.shortcut) {
        shortcuts := shortcuts[s.shortcut.value := s.path];
      }
    }
  }

  /** Script `s` registers shortcut `k`. */
  predicate Declares(s: Script, k: string) {
    IsSet(s.shortcut) && s.shortcut.value == k
  }

  /** Some script of `scripts` registers shortcut `k`. */
  ghost predicate Declared(scripts: seq<Script>, k: string) {
    exists j :: 0 <= j < |scripts| && Declares(scripts[j], k)
  }

  /** `scripts[j]` registers `k` and no later script does. */
  ghost predicate LastToDeclare(scripts: seq<Script>, j: int, k: string) {
    0 <= j < |scripts| && Declares(scripts[j], k)
    && forall j' :: j < j' < |scripts| ==> !Declares(scripts[j'], k)
  }

  /** One registration: a script with a shortcut maps it to the script's path. */
  function RegisterScript(shortcuts: map<string, string>, s: Script): (r: map<string, string>)
    ensures r.Keys == shortcuts.Keys + (if IsSet(s.shortcut) then {s.shortcut.value} else {})
    ensures IsSet(s.shortcut) ==> r[s.shortcut.value] == s.path
    ensures forall k :: k in shortcuts && !Declares(s, k) ==> r[k] == shortcuts[k]
  {
    if IsSet(s.shortcut) then shortcuts[s.shortcut.value := s.path] else shortcuts
  }

  /** The registry after registering `scripts` in order, starting from `shortcuts`. */
  function RegisterScripts(shortcuts: map<string, string>, scripts: seq<Script>): (r: map<string, string>)
    ensures shortcuts.Keys <= r.Keys
    ensures |scripts| == 0 ==> r == shortcuts
  {
    if scripts == [] then shortcuts
    else RegisterScript(RegisterScripts(shortcuts, scripts[..|scripts| - 1]), scripts[|scripts| - 1])
  }

  lemma RegisterScriptsSnoc(shortcuts: map<string, string>, scripts: seq<Script>, i: nat)
    requires i < |scripts|
    ensures RegisterScripts(shortcuts, scripts[..i + 1])
         == RegisterScript(RegisterScripts(shortcuts, scripts[..i]), scripts[i])
  {
    assert scripts[..i + 1][..i] == scripts[..i];
  }

  /**
   * After `scripts` are registered, shortcut `k` is a key exactly when it was
   * one before or some script declares it.
   */
  lemma {:induction false} RegisterScriptsKeys(shortcuts: map<string, string>, scripts: seq<Script>, k: string)
    ensures k in RegisterScripts(shortcuts, scripts) <==> k in shortcuts || Declared(scripts, k)
  {
    if scripts != [] {
      RegisterScriptsKeys(shortcuts, scripts[..|scripts| - 1], k);
      DeclaredSnoc(scripts, k);
    }
  }

  /** Last writer wins: `k` maps to the path of the last script declaring it. */
  lemma {:induction false} RegisterScriptsLastWriter(shortcuts: map<string, string>, scripts: seq<Script>, j: int, k: string)
    requires LastToDeclare(scripts, j, k)
    ensures k in RegisterScripts(shortcuts, scripts) && RegisterScripts(shortcuts, scripts)[k] == scripts[j].path
  {
    var n := |scripts| - 1;
    if j < n {
      LastToDeclareInit(scripts, j, k);
      RegisterScriptsLastWriter(shortcuts, scripts[..n], j, k);
    }
  }

  /** A shortcut no script declares keeps the path it had before. */
  lemma {:induction false} RegisterScriptsKeeps(shortcuts: map<string, string>, scripts: seq<Script>, k: string)
    requires k in shortcuts && !Declared(scripts, k)
    ensures k in RegisterScripts(shortcuts, scripts) && RegisterScripts(shortcuts, scripts)[k] == shortcuts[k]
  {
    if scripts != [] {
      DeclaredSnoc(scripts, k);
      RegisterScriptsKeeps(shortcuts, scripts[..|scripts| - 1], k);
    }
  }

  lemma DeclaredSnoc(scripts: seq<Script>, k: string)
    requires scripts != []
    ensures Declared(scripts, k)
        <==> Declared(scripts[..|scripts| - 1], k) || Declares(scripts[|scripts| - 1], k)
  {
    var n := |scripts| - 1;
    var init := scripts[..n];
    if Declared(scripts, k) {
      var j :| 0 <= j < |scripts| && Declares(scripts[j], k);
      if j < n { assert init[j] == scripts[j]; }
    }
    if Declared(init, k) {
      var j :| 0 <= j < |init| && Declares(init[j], k);
      assert scripts[j] == init[j];
    }
  }

  lemma LastToDeclareInit(scripts: seq<Script>, j: int, k: string)
    requires LastToDeclare(scripts, j, k) && j < |scripts| - 1
    ensures !Declares(scripts[|scripts| - 1], k)
    ensures LastToDeclare(scripts[..|scripts| - 1], j, k)
  {
  }

  /** Every shortcut some script declares has a last script declaring it. */
  lemma {:induction false} LastDeclarerExists(scripts: seq<Script>, k: string)
    requires Declared(scripts, k)
    ensures exists j :: LastToDeclare(scripts, j, k)
  {
    var n := |scripts| - 1;
    if Declares(scripts[n], k) {
      assert LastToDeclare(scripts, n, k);
    } else {
      var j :| 0 <= j < |scripts| && Declares(scripts[j], k);
      assert j < n;
      var init := scripts[..n];
      assert Declares(init[j], k);
      LastDeclarerExists(init, k);
      var i :| LastToDeclare(init, i, k);
      assert LastToDeclare(scripts, i, k);
    }
  }

  /** Registering two lists in turn is registering their concatenation. */
  lemma {:induction false} RegisterScriptsAppend(shortcuts: map<string, string>, a: seq<Script>, b: seq<Script>)
    ensures RegisterScripts(shortcuts, a + b) == RegisterScripts(RegisterScripts(shortcuts, a), b)
  {
    if b == [] {
      assert a + b == a;
    } else {
      var n := |b| - 1;
      assert (a + b)[..|a + b| - 1] == a + b[..n];
      assert (a + b)[|a + b| - 1] == b[n];
      RegisterScriptsAppend(shortcuts, a, b[..n]);
    }
  }

}
