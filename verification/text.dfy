/**
 * The three string operations the chord normaliser is built from: lower-casing
 * a key name, joining parts with a separator, and replacing one character by
 * another throughout a string.
 */
module Text {

  predicate IsUpper(c: char) {
    'A' <= c <= 'Z'
  }

  function LowerChar(c: char): char {
    if IsUpper(c) then (c as int + 32) as char else c
  }

  /** Lower-cases the ASCII letters of `s`; every other character is kept. */
  function ToLower(s: string): (r: string)
    ensures |r| == |s|
    ensures forall i :: 0 <= i < |r| ==> !IsUpper(r[i])
    ensures forall i :: 0 <= i < |r| ==> r[i] == s[i] || (IsUpper(s[i]) && r[i] as int == s[i] as int + 32)
  {
    if s == [] then [] else [LowerChar(s[0])] + ToLower(s[1..])
  }

  /** `sep.join(parts)`: the parts in order, with one `sep` between neighbours. */
  function Join(parts: seq<string>, sep: char): (r: string)
    ensures |parts| > 0 ==> |parts[0]| <= |r| && |parts[|parts| - 1]| <= |r|
    ensures |parts| > 1 ==> sep in r
    ensures |parts| == 0 ==> r == ""
    ensures |parts| == 1 ==> r == parts[0]
  {
    if |parts| == 0 then ""
    else if |parts| == 1 then parts[0]
    else Join(parts[..|parts| - 1], sep) + [sep] + parts[|parts| - 1]
  }

  /**
   * Joining two non-empty lists is joining each and putting one separator
   * between the results; with the one-part case this fixes `sep.join`.
   */
  lemma {:induction false} JoinAppend(a: seq<string>, b: seq<string>, sep: char)
    requires a != [] && b != []
    ensures Join(a + b, sep) == Join(a, sep) + [sep] + Join(b, sep)
  {
    var n := |b| - 1;
    assert (a + b)[..|a + b| - 1] == a + b[..n];
    assert (a + b)[|a + b| - 1] == b[n];
    if n > 0 {
      JoinAppend(a, b[..n], sep);
    } else {
      assert a + b[..n] == a;
    }
  }

  /** `s.replace(x, y)` for single characters: every `x` becomes `y`, nothing else moves. */
  function Replace(s: string, x: char, y: char): (r: string)
    ensures |r| == |s|
    ensures forall i :: 0 <= i < |s| ==> r[i] == (if s[i] == x then y else s[i])
    ensures x != y ==> x !in r
  {
    if s == [] then []
    else [if s[0] == x then y else s[0]] + Replace(s[1..], x, y)
  }

  lemma ReplaceConcat(s: string, t: string, x: char, y: char)
    ensures Replace(s + t, x, y) == Replace(s, x, y) + Replace(t, x, y)
  {
    var l, r := Replace(s + t, x, y), Replace(s, x, y) + Replace(t, x, y);
    assert |l| == |r|;
    forall i | 0 <= i < |l| ensures l[i] == r[i] {
      if i < |s| { assert (s + t)[i] == s[i]; } else { assert (s + t)[i] == t[i - |s|]; }
    }
  }

  lemma ReplaceAbsent(s: string, x: char, y: char)
    requires x !in s
    ensures Replace(s, x, y) == s
  {
    var r := Replace(s, x, y);
    forall i | 0 <= i < |s| ensures r[i] == s[i] {
      assert s[i] in s;
    }
  }

  /**
   * Joining with `x` and then replacing every `x` by `y` is the same as
   * joining with `y`, as long as no part contains `x` itself.
   */
  lemma {:induction false} ReplaceJoin(parts: seq<string>, x: char, y: char)
    requires forall i :: 0 <= i < |parts| ==> x !in parts[i]
    ensures Replace(Join(parts, x), x, y) == Join(parts, y)
  {
    if |parts| == 0 {
    } else if |parts| == 1 {
      ReplaceAbsent(parts[0], x, y);
    } else {
      var init, last := parts[..|parts| - 1], parts[|parts| - 1];
      ReplaceJoin(init, x, y);
      ReplaceConcat(Join(init, x) + [x], last, x, y);
      ReplaceConcat(Join(init, x), [x], x, y);
      ReplaceAbsent(last, x, y);
      assert Replace([x], x, y) == [y];
    }
  }

}
