/**
 * The chord normaliser and dispatcher of `handle_shortcut`: a Tk key event,
 * reduced to its key symbol and its modifier `state` bitmask, becomes the
 * canonical shortcut string that the registry is keyed by, and that string is
 * looked up to find the script to launch.
 */
module Chord {
  import opened Options
  import opened Text

  /** The two attributes of a Tk key event that the normaliser reads. */
  datatype KeyEvent = KeyEvent(keysym: string, state: nat)

  /** Bit 0x0001 of the event state: Shift is held. */
  predicate ShiftHeld(state: nat) {
    state % 2 == 1
  }

  /** Bit 0x0004 of the event state: Control is held. */
  predicate ControlHeld(state: nat) {
    (state / 4) % 2 == 1
  }

  /** Alt is recognised from the key symbol only, never from the state bits. */
  predicate IsAltKeysym(keysym: string) {
    keysym == "Alt_L" || keysym == "Alt_R"
  }

  /** Position of a modifier name in the fixed order Shift, Control, Alt. */
  function Rank(name: string): nat {
    if name == "Shift" then 0 else if name == "Control" then 1 else 2
  }

  /** The modifier list `handle_shortcut` builds, in the fixed order Shift, Control, Alt. */
  function Modifiers(e: KeyEvent): (r: seq<string>)
    ensures |r| <= 3
  {
    (if ShiftHeld(e.state) then ["Shift"] else [])
    + (if ControlHeld(e.state) then ["Control"] else [])
    + (if IsAltKeysym(e.keysym) then ["Alt"] else [])
  }

  /**
   * The modifier list is a subsequence of Shift, Control, Alt holding exactly
   * the modifiers the event shows: Shift and Control from the state bits,
   * Alt from the key symbol.
   */
  lemma ModifiersSpec(e: KeyEvent)
    ensures forall i :: 0 <= i < |Modifiers(e)| ==> Modifiers(e)[i] in ["Shift", "Control", "Alt"]
    ensures forall i, j :: 0 <= i < j < |Modifiers(e)| ==> Rank(Modifiers(e)[i]) < Rank(Modifiers(e)[j])
    ensures "Shift" in Modifiers(e) <==> ShiftHeld(e.state)
    ensures "Control" in Modifiers(e) <==> ControlHeld(e.state)
    ensures "Alt" in Modifiers(e) <==> IsAltKeysym(e.keysym)
  {
  }

  /** The lower-cased key symbol, joined after the modifiers with '+' when there are any. */
  function Combine(e: KeyEvent): (r: string)
    ensures Modifiers(e) != [] ==> |r| >= |Modifiers(e)[0]| + 1 + |e.keysym|
  {
    var key := ToLower(e.keysym);
    if Modifiers(e) != [] then Join(Modifiers(e) + [key], '+') else key
  }

  /** True when the combined string has length 1 and so is wrapped in angle brackets. */
  predicate Bracketed(e: KeyEvent) {
    |Combine(e)| == 1
  }

  /** The canonical shortcut string for a key event. */
  function Normalize(e: KeyEvent): (r: string)
    ensures Bracketed(e) ==> r == "<" + Combine(e) + ">"
    ensures !Bracketed(e) ==> '+' !in r && |r| == |Combine(e)|
  {
    var full := Combine(e);
    if |full| == 1 then "<" + full + ">" else Replace(full, '+', '-')
  }

  /** The combined string has length 1 exactly when no modifier is present and the key is one character. */
  lemma BracketedIff(e: KeyEvent)
    ensures Bracketed(e) <==> Modifiers(e) == [] && |ToLower(e.keysym)| == 1
  {
    var m, key := Modifiers(e), ToLower(e.keysym);
    if m != [] {
      var parts := m + [key];
      assert parts[..|parts| - 1] == m;
      assert Combine(e) == Join(m, '+') + ['+'] + key;
      if |m| > 1 {
        assert |Join(m, '+')| >= 1;
      } else {
        assert |m[0]| > 1;
      }
    }
  }

  /**
   * The whole case split of the normaliser: a one-character bare key is
   * bracketed, a longer bare key only has '+' replaced by '-', and with
   * modifiers the result is modifiers and key joined by '-'.
   */
  lemma NormalizeCases(e: KeyEvent)
    ensures Modifiers(e) == [] && |ToLower(e.keysym)| == 1 ==>
      Normalize(e) == "<" + ToLower(e.keysym) + ">"
    ensures Modifiers(e) == [] && |ToLower(e.keysym)| != 1 ==>
      Normalize(e) == Replace(ToLower(e.keysym), '+', '-')
    ensures Modifiers(e) != [] ==>
      Normalize(e) == Join(Modifiers(e), '-') + "-" + Replace(ToLower(e.keysym), '+', '-')
  {
    BracketedIff(e);
    if Modifiers(e) != [] {
      NormalizeWithModifiers(e);
    }
  }

  lemma NormalizeWithModifiers(e: KeyEvent)
    requires Modifiers(e) != []
    ensures Normalize(e) == Join(Modifiers(e), '-') + "-" + Replace(ToLower(e.keysym), '+', '-')
  {
    BracketedIff(e);
    var m, key := Modifiers(e), ToLower(e.keysym);
    var parts := m + [key];
    assert parts[..|parts| - 1] == m;
    var full := Join(m, '+') + ['+'] + key;
    assert Combine(e) == full;
    forall i | 0 <= i < |m| ensures '+' !in m[i] {
      assert m[i] in ["Shift", "Control", "Alt"];
    }
    ReplaceJoin(m, '+', '-');
    ReplaceConcat(Join(m, '+') + ['+'], key, '+', '-');
    ReplaceConcat(Join(m, '+'), ['+'], '+', '-');
    assert Replace(['+'], '+', '-') == "-";
    assert Normalize(e) == Replace(full, '+', '-');
  }

  /**
   * Alt appears in a canonical string only together with the Alt key's own
   * symbol: a chord written as Alt plus an ordinary key is never produced.
   */
  lemma AltOnlyWithAltKeysym(e: KeyEvent)
    requires "Alt" in Modifiers(e)
    ensures ToLower(e.keysym) == "alt_l" || ToLower(e.keysym) == "alt_r"
    ensures Normalize(e) == Join(Modifiers(e), '-') + "-" + ToLower(e.keysym)
  {
    ModifiersSpec(e);
    NormalizeWithModifiers(e);
    if e.keysym == "Alt_L" {
      LowerAltL();
    } else {
      LowerAltR();
    }
  }

  /** State bits other than 0x0001 and 0x0004 (Caps Lock, Num Lock, mouse buttons) do not matter. */
  lemma NormalizeIgnoresOtherBits(keysym: string, s1: nat, s2: nat)
    requires ShiftHeld(s1) == ShiftHeld(s2) && ControlHeld(s1) == ControlHeld(s2)
    ensures Normalize(KeyEvent(keysym, s1)) == Normalize(KeyEvent(keysym, s2))
  {
    assert Modifiers(KeyEvent(keysym, s1)) == Modifiers(KeyEvent(keysym, s2));
  }

  /** A one-character key without modifiers is bracketed and lower-cased. */
  lemma NormalizeSingleKeyExample()
    ensures Normalize(KeyEvent("B", 0)) == "<b>"
  {
    assert ToLower("B") == "b";
  }

  /** State bits other than Shift and Control (here Caps Lock and Num Lock) add nothing. */
  lemma NormalizeLockBitsExample()
    ensures Normalize(KeyEvent("b", 0x12)) == "<b>"
  {
    assert !ShiftHeld(0x12) && !ControlHeld(0x12);
    assert Modifiers(KeyEvent("b", 0x12)) == [];
    assert ToLower("b") == "b";
  }

  /** A multi-character key name without modifiers passes through lower-cased, unbracketed. */
  lemma NormalizeNamedKeyExample()
    ensures Normalize(KeyEvent("F5", 0)) == "f5"
  {
    assert ToLower("F5") == "f5";
    assert Replace("f5", '+', '-') == "f5";
  }

  /** Shift held with the key B (reported as "B"): modifier before key, joined by '-'. */
  lemma NormalizeShiftExample(e: KeyEvent)
    requires e.keysym == "B" && e.state == 1
    ensures Normalize(e) == "Shift-b"
  {
    assert Modifiers(e) == ["Shift"] by {
      assert ShiftHeld(1) && !ControlHeld(1) && !IsAltKeysym("B");
    }
    assert Normalize(e) == "Shift" + "-" + "b" by {
      NormalizeWithModifiers(e);
      assert Join(["Shift"], '-') == "Shift";
      LowerB();
    }
    ShiftB();
  }

  /** Either Alt key pressed with Control (and not Shift) held gives Control, Alt and the key's own name. */
  lemma NormalizeControlAlt(e: KeyEvent)
    requires !ShiftHeld(e.state) && ControlHeld(e.state) && IsAltKeysym(e.keysym)
    ensures Normalize(e) == "Control-Alt-" + ToLower(e.keysym)
  {
    assert Modifiers(e) == ["Control", "Alt"];
    AltOnlyWithAltKeysym(e);
    JoinControlAlt();
    assert "Control-Alt" + "-" == "Control-Alt-";
  }

  /** Pressing the left Alt key with Control held. */
  lemma NormalizeAltExample(e: KeyEvent)
    requires e.keysym == "Alt_L" && e.state == 4
    ensures Normalize(e) == "Control-Alt-alt_l"
  {
    assert !ShiftHeld(4) && ControlHeld(4);
    NormalizeControlAlt(e);
    LowerAltL();
    ControlAltLeft();
  }

  /** Shift and Control held: Shift always comes first. */
  lemma NormalizeShiftControlExample(e: KeyEvent)
    requires e.keysym == "B" && e.state == 5
    ensures Normalize(e) == "Shift-Control-b"
  {
    assert Modifiers(e) == ["Shift", "Control"] by {
      assert ShiftHeld(5) && ControlHeld(5) && !IsAltKeysym("B");
    }
    assert Normalize(e) == "Shift-Control" + "-" + "b" by {
      NormalizeWithModifiers(e);
      JoinShiftControl();
      LowerB();
    }
    ShiftControlB();
  }

  /**
   * The shortcut lookup: the registered path for the event's canonical
   * string, or nothing (the source only logs a diagnostic) when it has none.
   */
  function Dispatch(shortcuts: map<string, string>, e: KeyEvent): (r: Option<string>)
    ensures r.Some? <==> Normalize(e) in shortcuts
    ensures r.Some? ==> r.value == shortcuts[Normalize(e)]
  {
    var s := Normalize(e);
    if s in shortcuts then Some(shortcuts[s]) else None
  }

  // Literal string facts used by the lemmas above. Each is stated on its own so
  // that the solver evaluates the literal in a small context; the example lemmas
  // stay cheap by citing them rather than computing the strings inline.

  lemma LowerAltL()
    ensures ToLower("Alt_L") == "alt_l" && Replace("alt_l", '+', '-') == "alt_l"
  {
    var r := ToLower("Alt_L");
    assert r[0] == 'a' && r[1] == 'l' && r[2] == 't' && r[3] == '_' && r[4] == 'l';
    ReplaceAbsent("alt_l", '+', '-');
  }

  lemma LowerAltR()
    ensures ToLower("Alt_R") == "alt_r" && Replace("alt_r", '+', '-') == "alt_r"
  {
    var r := ToLower("Alt_R");
    assert r[0] == 'a' && r[1] == 'l' && r[2] == 't' && r[3] == '_' && r[4] == 'r';
    ReplaceAbsent("alt_r", '+', '-');
  }

  lemma ShiftB()
    ensures "Shift" + "-" + "b" == "Shift-b"
  {
  }

  lemma JoinShiftControl()
    ensures Join(["Shift", "Control"], '-') == "Shift-Control"
  {
    assert ["Shift", "Control"][..1] == ["Shift"];
  }

  lemma ControlAltLeft()
    ensures "Control-Alt-" + "alt_l" == "Control-Alt-alt_l"
  {
  }

  lemma JoinControlAlt()
    ensures Join(["Control", "Alt"], '-') == "Control-Alt"
  {
    assert ["Control", "Alt"][..1] == ["Control"];
  }

  lemma ShiftControlB()
    ensures "Shift-Control" + "-" + "b" == "Shift-Control-b"
  {
  }

  lemma LowerB()
    ensures Replace(ToLower("B"), '+', '-') == "b"
  {
  }

}
