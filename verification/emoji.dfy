/** The emoji filters that clean text before speech synthesis and PDF rendering.

    Both variants are `re.compile(pattern).sub("", text)` over a character class `C`:
    - `Plain` (app.py `remove_emojis`): the pattern `[C]+`, where `C` is twelve code-point ranges.
    - `WithModifiers` (assets/auxiliary_functions.py `remove_emojis` and the identical
      app/services/analysis.py `_remove_emojis`): `[C*#]+(?:[M])*`, the same ranges plus `*` and
      `#`, followed by any run of modifiers `M` = U+200D, U+FE0F and U+1F3FB..U+1F3FF.

    `Substitute` is the regular-expression engine's scan: at each position where a class
    character starts, it deletes the longest class run and then the longest modifier run after it;
    everything else is copied. `Survivors` is the reference: a character is dropped exactly when it
    is in the class, or is a modifier whose predecessor was dropped.

    The last range, U+24C2..U+1F251, contains every code point from U+24C2 up to U+1F251, so all
    of CJK, Hangul, the private use area and the other BMP characters above U+24C2 are removed too
    (`HighBmpTextVanishes`). Latin, Greek and Cyrillic text lies below it and is untouched. */
module Emoji {

  datatype Variant = Plain | WithModifiers

  /** ZERO WIDTH JOINER, the one modifier outside the class. */
  const Zwj: char := '\U{200D}'

  /** The twelve ranges common to both patterns, in source order. */
  predicate InEmojiRanges(c: char) {
    var n := c as int;
    (0x1F600 <= n <= 0x1F64F) || (0x1F300 <= n <= 0x1F5FF) || (0x1F680 <= n <= 0x1F6FF)
    || (0x1F700 <= n <= 0x1F77F) || (0x1F780 <= n <= 0x1F7FF) || (0x1F800 <= n <= 0x1F8FF)
    || (0x1F900 <= n <= 0x1F9FF) || (0x1FA00 <= n <= 0x1FA6F) || (0x1FA70 <= n <= 0x1FAFF)
    || (0x2600 <= n <= 0x26FF) || (0x2700 <= n <= 0x27BF) || (0x24C2 <= n <= 0x1F251)
  }

  /** Membership in the bracketed class before the `+`. */
  predicate InClass(v: Variant, c: char) {
    InEmojiRanges(c) || (v == WithModifiers && (c == '*' || c == '#'))
  }

  /** Membership in the trailing modifier class; the plain pattern has none. */
  predicate IsModifier(v: Variant, c: char) {
    v == WithModifiers && (c == Zwj || c == '\U{FE0F}' || (0x1F3FB <= c as int <= 0x1F3FF))
  }

  // ---------------------------------------------------------------------------------------------
  // The scan performed by `re.sub`

  /** What is left after the greedy `[C]+` at the head of `s`. */
  function SkipClassRun(v: Variant, s: string): (r: string)
    ensures |r| <= |s| && r == s[|s| - |r|..]
    ensures r == [] || !InClass(v, r[0])
    ensures s != [] && InClass(v, s[0]) ==> |r| < |s|
  {
    if s != [] && InClass(v, s[0]) then SkipClassRun(v, s[1..]) else s
  }

  /** What is left after the greedy `(?:[M])*` at the head of `s`. */
  function SkipModifierRun(v: Variant, s: string): (r: string)
    ensures |r| <= |s| && r == s[|s| - |r|..]
    ensures r == [] || !IsModifier(v, r[0])
  {
    if s != [] && IsModifier(v, s[0]) then SkipModifierRun(v, s[1..]) else s
  }

  /** `pattern.sub("", s)`: delete every leftmost-longest match, scanning left to right. */
  function Substitute(v: Variant, s: string): string
    decreases |s|
  {
    if s == [] then []
    else if InClass(v, s[0]) then Substitute(v, SkipModifierRun(v, SkipClassRun(v, s)))
    else [s[0]] + Substitute(v, s[1..])
  }

  // ---------------------------------------------------------------------------------------------
  // The per-character reference

  /** Whether character `c` is dropped, given whether its predecessor was dropped. */
  predicate Drops(v: Variant, c: char, prevDropped: bool) {
    InClass(v, c) || (IsModifier(v, c) && prevDropped)
  }

  /** The characters of `s` that are not dropped, in order; `prevDropped` says whether the
      character before `s` was dropped. */
  function Survivors(v: Variant, s: string, prevDropped: bool): string {
    if s == [] then []
    else
      var d := Drops(v, s[0], prevDropped);
      (if d then [] else [s[0]]) + Survivors(v, s[1..], d)
  }

  /** Whether the last character of `s` is dropped (or `prevDropped` for empty `s`). */
  function DroppedAfter(v: Variant, s: string, prevDropped: bool): bool {
    if s == [] then prevDropped else DroppedAfter(v, s[1..], Drops(v, s[0], prevDropped))
  }

  /** The characters of `s` outside the class, in order. */
  function OutsideClass(v: Variant, s: string): (r: string)
    ensures forall i :: 0 <= i < |r| ==> !InClass(v, r[i])
  {
    if s == [] then [] else (if InClass(v, s[0]) then [] else [s[0]]) + OutsideClass(v, s[1..])
  }

  /** `s` without its zero width joiners. */
  function WithoutZwj(s: string): string {
    if s == [] then [] else (if s[0] == Zwj then [] else [s[0]]) + WithoutZwj(s[1..])
  }

  // ---------------------------------------------------------------------------------------------
  // The scan agrees with the reference

  lemma {:induction false} SkipClassRunDrops(v: Variant, s: string, prevDropped: bool)
    requires s != [] && InClass(v, s[0])
    ensures Survivors(v, s, prevDropped) == Survivors(v, SkipClassRun(v, s), true)
    decreases |s|
  {
    if s[1..] != [] && InClass(v, s[1]) {
      SkipClassRunDrops(v, s[1..], true);
    }
  }

  lemma {:induction false} SkipModifierRunDrops(v: Variant, s: string)
    ensures Survivors(v, s, true) == Survivors(v, SkipModifierRun(v, s), true)
    decreases |s|
  {
    if s != [] && IsModifier(v, s[0]) {
      assert Drops(v, s[0], true);
      assert Survivors(v, s, true) == Survivors(v, s[1..], true);
      assert SkipModifierRun(v, s) == SkipModifierRun(v, s[1..]);
      SkipModifierRunDrops(v, s[1..]);
    }
  }

  /** Unless `s` starts with a modifier outside the class, its predecessor does not matter. */
  lemma PredecessorIrrelevant(v: Variant, s: string)
    requires s == [] || InClass(v, s[0]) || !IsModifier(v, s[0])
    ensures Survivors(v, s, true) == Survivors(v, s, false)
  {
  }

  /** The regular-expression scan deletes exactly the characters the reference drops. */
  lemma {:induction false} SubstituteIsSurvivors(v: Variant, s: string)
    ensures Substitute(v, s) == Survivors(v, s, false)
    decreases |s|
  {
    if s != [] {
      if InClass(v, s[0]) {
        var afterClass := SkipClassRun(v, s);
        var afterMods := SkipModifierRun(v, afterClass);
        SkipClassRunDrops(v, s, false);
        SkipModifierRunDrops(v, afterClass);
        PredecessorIrrelevant(v, afterMods);
        SubstituteIsSurvivors(v, afterMods);
      } else {
        SubstituteIsSurvivors(v, s[1..]);
      }
    }
  }

  // ---------------------------------------------------------------------------------------------
  // Properties of the reference

  /** Filtering distributes over concatenation, carrying the dropped state across the seam. */
  lemma {:induction false} SurvivorsConcat(v: Variant, a: string, b: string, prevDropped: bool)
    ensures Survivors(v, a + b, prevDropped)
      == Survivors(v, a, prevDropped) + Survivors(v, b, DroppedAfter(v, a, prevDropped))
    decreases |a|
  {
    if a != [] {
      var d := Drops(v, a[0], prevDropped);
      var head := if d then [] else [a[0]];
      var x := Survivors(v, a[1..], d);
      var y := Survivors(v, b, DroppedAfter(v, a[1..], d));
      SurvivorsOfHead(v, a + b, prevDropped, a[0], a[1..] + b);
      SurvivorsConcat(v, a[1..], b, d);
      AppendAssoc(head, x, y);
    } else {
      assert a + b == b;
    }
  }

  /** One step of the filter, for a text split into its first character and the rest. */
  lemma SurvivorsOfHead(v: Variant, s: string, prevDropped: bool, c: char, rest: string)
    requires s != [] && s[0] == c && s[1..] == rest
    ensures Survivors(v, s, prevDropped)
      == (if Drops(v, c, prevDropped) then [] else [c]) + Survivors(v, rest, Drops(v, c, prevDropped))
  {
  }

  lemma AppendAssoc(x: string, y: string, z: string)
    ensures x + (y + z) == (x + y) + z
  {
  }

  /** A class character is always dropped; a character that is neither class nor modifier is
      always kept. */
  lemma {:induction false} DroppedAfterLast(v: Variant, a: string, prevDropped: bool)
    requires a != []
    ensures InClass(v, a[|a| - 1]) ==> DroppedAfter(v, a, prevDropped)
    ensures !InClass(v, a[|a| - 1]) && !IsModifier(v, a[|a| - 1])
      ==> !DroppedAfter(v, a, prevDropped)
    decreases |a|
  {
    if |a| > 1 {
      assert a[1..][|a[1..]| - 1] == a[|a| - 1];
      DroppedAfterLast(v, a[1..], Drops(v, a[0], prevDropped));
    }
  }

  lemma {:induction false} SurvivorsOutsideClass(v: Variant, s: string, prevDropped: bool)
    ensures forall i :: 0 <= i < |Survivors(v, s, prevDropped)| ==>
      !InClass(v, Survivors(v, s, prevDropped)[i])
    decreases |s|
  {
    if s != [] {
      SurvivorsOutsideClass(v, s[1..], Drops(v, s[0], prevDropped));
    }
  }

  lemma {:induction false} SurvivorsOfClassFree(v: Variant, s: string)
    requires forall i :: 0 <= i < |s| ==> !InClass(v, s[i])
    ensures Survivors(v, s, false) == s
    decreases |s|
  {
    if s != [] {
      SurvivorsOfClassFree(v, s[1..]);
    }
  }

  /** Without modifiers the reference is a plain filter. */
  lemma {:induction false} PlainSurvivorsFilter(s: string, prevDropped: bool)
    ensures Survivors(Plain, s, prevDropped) == OutsideClass(Plain, s)
    decreases |s|
  {
    if s != [] {
      PlainSurvivorsFilter(s[1..], Drops(Plain, s[0], prevDropped));
    }
  }

  /** The only modifier outside the class is U+200D: U+FE0F lies in U+24C2..U+1F251 and the skin
      tones lie in U+1F300..U+1F5FF. */
  lemma ModifierOutsideClassIsZwj(c: char)
    requires IsModifier(WithModifiers, c) && !InClass(WithModifiers, c)
    ensures c == Zwj
  {
  }

  lemma {:induction false} SurvivorsModuloZwj(s: string, prevDropped: bool)
    ensures WithoutZwj(Survivors(WithModifiers, s, prevDropped))
      == WithoutZwj(OutsideClass(WithModifiers, s))
    decreases |s|
  {
    if s != [] {
      var d := Drops(WithModifiers, s[0], prevDropped);
      var rest := Survivors(WithModifiers, s[1..], d);
      SurvivorsModuloZwj(s[1..], d);
      if !InClass(WithModifiers, s[0]) && IsModifier(WithModifiers, s[0]) {
        ModifierOutsideClassIsZwj(s[0]);
      }
      WithoutZwjConcat((if d then [] else [s[0]]), rest);
      WithoutZwjConcat((if InClass(WithModifiers, s[0]) then [] else [s[0]]),
        OutsideClass(WithModifiers, s[1..]));
    }
  }

  lemma WithoutZwjConcat(a: string, b: string)
    requires |a| <= 1
    ensures WithoutZwj(a + b) == WithoutZwj(a) + WithoutZwj(b)
  {
    if a != [] {
      assert (a + b)[1..] == b;
    } else {
      assert a + b == b;
    }
  }

  // ---------------------------------------------------------------------------------------------
  // The two filters

  /** app.py `remove_emojis`: exactly the characters outside the twelve ranges survive, in order. */
  function RemoveEmojisPlain(s: string): (r: string)
    ensures r == OutsideClass(Plain, s)
    ensures forall i :: 0 <= i < |r| ==> !InEmojiRanges(r[i])
  {
    SubstituteIsSurvivors(Plain, s);
    PlainSurvivorsFilter(s, false);
    Substitute(Plain, s)
  }

  /** assets/auxiliary_functions.py `remove_emojis` and analysis.py `_remove_emojis`: no class
      character survives, every character that is neither in the class nor U+200D survives in
      order, and U+200D goes exactly when its predecessor went. */
  function RemoveEmojis(s: string): (r: string)
    ensures r == Survivors(WithModifiers, s, false)
    ensures forall i :: 0 <= i < |r| ==> !InClass(WithModifiers, r[i])
    ensures WithoutZwj(r) == WithoutZwj(OutsideClass(WithModifiers, s))
  {
    SubstituteIsSurvivors(WithModifiers, s);
    SurvivorsOutsideClass(WithModifiers, s, false);
    SurvivorsModuloZwj(s, false);
    Substitute(WithModifiers, s)
  }

  /** A joiner directly after a removed emoji is removed with it. */
  lemma ZwjAfterEmojiVanishes(a: string, b: string)
    requires a != [] && InClass(WithModifiers, a[|a| - 1])
    ensures RemoveEmojis(a + [Zwj] + b) == RemoveEmojis(a + b)
  {
    var v := WithModifiers;
    DroppedAfterLast(v, a, false);
    assert a + [Zwj] + b == a + ([Zwj] + b);
    SurvivorsConcat(v, a, [Zwj] + b, false);
    SurvivorsConcat(v, a, b, false);
    assert ([Zwj] + b)[1..] == b;
  }

  /** A joiner after a kept character (or at the start) is kept, and splits the text. */
  lemma ZwjAfterTextSurvives(a: string, b: string)
    requires a == [] || (!InClass(WithModifiers, a[|a| - 1]) && a[|a| - 1] != Zwj)
    ensures RemoveEmojis(a + [Zwj] + b) == RemoveEmojis(a) + [Zwj] + RemoveEmojis(b)
  {
    KeptJoinerSplits(a, b);
  }

  lemma KeptJoinerSplits(a: string, b: string)
    requires a == [] || (!InClass(WithModifiers, a[|a| - 1]) && a[|a| - 1] != Zwj)
    ensures Survivors(WithModifiers, a + [Zwj] + b, false)
      == Survivors(WithModifiers, a, false) + [Zwj] + Survivors(WithModifiers, b, false)
  {
    var v := WithModifiers;
    assert !DroppedAfter(v, a, false) by {
      if a != [] {
        if IsModifier(v, a[|a| - 1]) {
          ModifierOutsideClassIsZwj(a[|a| - 1]);
        }
        DroppedAfterLast(v, a, false);
      }
    }
    assert a + [Zwj] + b == a + ([Zwj] + b);
    SurvivorsConcat(v, a, [Zwj] + b, false);
    JoinerKeptAtStart(b);
  }

  lemma JoinerKeptAtStart(b: string)
    ensures Survivors(WithModifiers, [Zwj] + b, false) == [Zwj] + Survivors(WithModifiers, b, false)
  {
    assert !Drops(WithModifiers, Zwj, false);
    assert ([Zwj] + b)[1..] == b;
  }

  /** Text without class characters is returned unchanged by both filters. */
  lemma ClassFreeTextUnchanged(s: string)
    requires forall i :: 0 <= i < |s| ==> !InClass(WithModifiers, s[i])
    ensures RemoveEmojis(s) == s
    ensures RemoveEmojisPlain(s) == s
  {
    SurvivorsOfClassFree(WithModifiers, s);
    SurvivorsOfClassFree(Plain, s);
    PlainSurvivorsFilter(s, false);
  }

  /** Cleaning twice is cleaning once. */
  lemma RemoveEmojisIdempotent(s: string)
    ensures RemoveEmojis(RemoveEmojis(s)) == RemoveEmojis(s)
    ensures RemoveEmojisPlain(RemoveEmojisPlain(s)) == RemoveEmojisPlain(s)
  {
    var r := RemoveEmojis(s);
    SurvivorsOfClassFree(WithModifiers, r);
    var p := RemoveEmojisPlain(s);
    SurvivorsOfClassFree(Plain, p);
    PlainSurvivorsFilter(p, false);
  }

  /** Text made only of BMP code points from U+24C2 up (CJK, Hangul, ...) is erased entirely. */
  lemma HighBmpTextVanishes(s: string)
    requires forall i :: 0 <= i < |s| ==> 0x24C2 <= s[i] as int <= 0xFFFF
    ensures RemoveEmojis(s) == []
    ensures RemoveEmojisPlain(s) == []
  {
    ClassOnlyVanishes(WithModifiers, s, false);
    ClassOnlyOutside(Plain, s);
  }

  /** A text of class characters only has no survivors. */
  lemma {:induction false} ClassOnlyVanishes(v: Variant, s: string, prevDropped: bool)
    requires forall i :: 0 <= i < |s| ==> InClass(v, s[i])
    ensures Survivors(v, s, prevDropped) == []
    decreases |s|
  {
    if s != [] {
      assert InClass(v, s[0]);
      ClassOnlyVanishes(v, s[1..], true);
    }
  }

  /** A text of class characters only has nothing outside the class. */
  lemma {:induction false} ClassOnlyOutside(v: Variant, s: string)
    requires forall i :: 0 <= i < |s| ==> InClass(v, s[i])
    ensures OutsideClass(v, s) == []
    decreases |s|
  {
    if s != [] {
      assert InClass(v, s[0]);
      ClassOnlyOutside(v, s[1..]);
    }
  }
}
