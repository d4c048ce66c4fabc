/**
  The provider's event names: how they are normalised to the raw types of driving events, and
  which spellings are therefore known.
*/
module EventNames {
  import opened Options
  import opened Text
  import opened DrivingEventDedupe

  // ---------------------------------------------------------------- event names

  function StripPrefix(s: string, prefix: string): string {
    if prefix <= s then s[|prefix|..] else s
  }

  function DropSeparators(s: string): string {
    if s == "" then ""
    else if IsSpace(s[0]) || s[0] == '_' || s[0] == '-' then DropSeparators(s[1..])
    else [s[0]] + DropSeparators(s[1..])
  }

  /** The letters a name is known by. */
  function Letters(raw: string): string {
    DropSeparators(StripPrefix(Lower(Trim(raw)), "behavior."))
  }

  function TypeOfLetters(base: string): Option<DrivingEventType> {
    if base == "harshbraking" then Some(HarshBraking)
    else if base == "extremebraking" || base == "extremeemergency" || base == "extremeemergencybraking" then
      Some(ExtremeBraking)
    else if base == "harshacceleration" || base == "extremeacceleration" then Some(HarshAcceleration)
    else if base == "harshcornering" then Some(HarshCornering)
    else None
  }

  function NormalizeEventName(raw: string): (r: Option<DrivingEventType>)
    ensures r.Some? ==> r.value in {HarshBraking, ExtremeBraking, HarshAcceleration, HarshCornering}
  {
    TypeOfLetters(Letters(raw))
  }

  // ---------------------------------------------------------------- which names are known

  predicate IsSeparator(c: char) {
    c in {' ', '\t', '\n', '\r', '\U{0B}', '\U{0C}', '_', '-'}
  }

  ghost predicate NoSeparators(s: string) {
    forall i :: 0 <= i < |s| ==> !IsSeparator(s[i])
  }

  lemma {:induction false} DropConcat(a: string, b: string)
    ensures DropSeparators(a + b) == DropSeparators(a) + DropSeparators(b)
  {
    if a == "" {
      assert a + b == b;
    } else {
      assert (a + b)[1..] == a[1..] + b;
      DropConcat(a[1..], b);
    }
  }

  lemma {:induction false} DropKeepsPlain(s: string)
    requires NoSeparators(s)
    ensures DropSeparators(s) == s
  {
    if s != "" {
      DropKeepsPlain(s[1..]);
      assert s == [s[0]] + s[1..] && !IsSeparator(s[0]);
    }
  }

  lemma {:induction false} DropIgnoresTrimmedEnd(s: string)
    ensures DropSeparators(TrimEnd(s)) == DropSeparators(s)
  {
    if s != "" && IsSpace(s[|s| - 1]) {
      var front, last := s[..|s| - 1], s[|s| - 1..];
      DropIgnoresTrimmedEnd(front);
      assert s == front + last && last[1..] == "";
      DropConcat(front, last);
    }
  }

  lemma {:induction false} LowerOfTrimmedEnd(s: string)
    ensures Lower(TrimEnd(s)) == TrimEnd(Lower(s))
  {
    if s != "" && IsSpace(s[|s| - 1]) {
      LowerOfTrimmedEnd(s[..|s| - 1]);
      assert Lower(s)[..|s| - 1] == Lower(s[..|s| - 1]);
    }
  }

  /** Behind the provider's prefix the rest is lower-cased and freed of separators. */
  lemma PrefixedLetters(x: string)
    ensures Letters("behavior." + x) == DropSeparators(Lower(x))
  {
    var raw := "behavior." + x;
    assert raw[0] == 'b';
    assert TrimStart(raw) == raw;
    TrimEndKeepsFront("behavior.", x);
    var lowered := Lower(Trim(raw));
    assert lowered == "behavior." + Lower(TrimEnd(x));
    assert StripPrefix(lowered, "behavior.") == Lower(TrimEnd(x));
    LowerOfTrimmedEnd(x);
    DropIgnoresTrimmedEnd(Lower(x));
  }

  /** Without the prefix the same letters count. */
  lemma UnprefixedLetters(x: string)
    requires x != "" && !IsSpace(x[0]) && !("behavior." <= Lower(TrimEnd(x)))
    ensures Letters(x) == DropSeparators(Lower(x))
  {
    assert TrimStart(x) == x;
    LowerOfTrimmedEnd(x);
    DropIgnoresTrimmedEnd(Lower(x));
  }

  /** Space in front makes no difference. */
  lemma LeadingSpaceIsIgnored(c: char, x: string)
    requires IsSpace(c)
    ensures NormalizeEventName([c] + x) == NormalizeEventName(x)
  {
    assert ([c] + x)[1..] == x;
    assert Letters([c] + x) == Letters(x);
  }

  lemma DropIgnoresOne(a: string, c: char, b: string)
    requires IsSeparator(c)
    ensures DropSeparators(a + ([c] + b)) == DropSeparators(a + b)
  {
    DropConcat(a, [c] + b);
    DropConcat(a, b);
    assert ([c] + b)[1..] == b;
  }

  lemma LoweredIgnoresOne(a: string, c: char, b: string)
    requires IsSeparator(c)
    ensures DropSeparators(Lower(a + ([c] + b))) == DropSeparators(Lower(a + b))
  {
    LowerConcat(a, [c] + b);
    LowerConcat([c], b);
    LowerConcat(a, b);
    assert Lower([c]) == [c];
    DropIgnoresOne(Lower(a), c, Lower(b));
  }

  lemma LettersIgnoreSeparator(a: string, c: char, b: string)
    requires IsSeparator(c)
    ensures Letters("behavior." + (a + ([c] + b))) == Letters("behavior." + (a + b))
  {
    PrefixedLetters(a + ([c] + b));
    PrefixedLetters(a + b);
    LoweredIgnoresOne(a, c, b);
  }

  /** Separators anywhere behind the prefix make no difference. */
  lemma SeparatorsAreIgnored(a: string, c: char, b: string)
    requires IsSeparator(c)
    ensures NormalizeEventName("behavior." + (a + ([c] + b))) == NormalizeEventName("behavior." + (a + b))
  {
    LettersIgnoreSeparator(a, c, b);
    var with, without := Letters("behavior." + (a + ([c] + b))), Letters("behavior." + (a + b));
    assert TypeOfLetters(with) == TypeOfLetters(without);
  }

  /** `plain` is `x` in lower case and has no separators. */
  ghost predicate Spells(x: string, plain: string) {
    && |x| == |plain| && NoSeparators(plain)
    && forall i :: 0 <= i < |x| ==> plain[i] == if 'A' <= x[i] <= 'Z' then (x[i] as int + 32) as char else x[i]
  }

  lemma SpelledLetters(x: string, plain: string)
    requires Spells(x, plain)
    ensures Letters("behavior." + x) == plain
  {
    PrefixedLetters(x);
    assert Lower(x) == plain;
    DropKeepsPlain(plain);
  }

  lemma SpelledName(x: string, plain: string)
    requires Spells(x, plain)
    ensures NormalizeEventName("behavior." + x) == TypeOfLetters(plain)
  {
    SpelledLetters(x, plain);
    var letters := Letters("behavior." + x);
    assert NormalizeEventName("behavior." + x) == TypeOfLetters(letters);
  }

  lemma SpellHarshBraking()
    ensures Spells("harshBraking", "harshbraking")
  {
  }

  lemma SpellExtremeBraking()
    ensures Spells("extremeBraking", "extremebraking")
  {
  }

  lemma SpellExtremeEmergency()
    ensures Spells("extremeEmergency", "extremeemergency")
  {
  }

  lemma SpellExtremeEmergencyBraking()
    ensures Spells("extremeEmergencyBraking", "extremeemergencybraking")
  {
  }

  lemma SpellHarshAcceleration()
    ensures Spells("harshAcceleration", "harshacceleration")
  {
  }

  lemma SpellExtremeAcceleration()
    ensures Spells("extremeAcceleration", "extremeacceleration")
  {
  }

  lemma SpellHarshCornering()
    ensures Spells("harshCornering", "harshcornering")
  {
  }

  lemma LettersDiffer()
    ensures |"harshbraking"| == 12 && |"extremebraking"| == |"harshcornering"| == 14 && |"extremeemergency"| == 16
    ensures |"harshacceleration"| == 17 && |"extremeacceleration"| == 19 && |"extremeemergencybraking"| == 23
    ensures "extremebraking"[0] != "harshcornering"[0]
  {
  }

  lemma TypesOfLetters()
    ensures TypeOfLetters("harshbraking") == Some(HarshBraking)
    ensures TypeOfLetters("extremebraking") == Some(ExtremeBraking)
    ensures TypeOfLetters("extremeemergency") == Some(ExtremeBraking)
    ensures TypeOfLetters("extremeemergencybraking") == Some(ExtremeBraking)
    ensures TypeOfLetters("harshacceleration") == Some(HarshAcceleration)
    ensures TypeOfLetters("extremeacceleration") == Some(HarshAcceleration)
    ensures TypeOfLetters("harshcornering") == Some(HarshCornering)
  {
    LettersDiffer();
  }

  /** The seven names the script asks the provider for. */
  lemma ProviderNames()
    ensures NormalizeEventName("behavior." + "harshBraking") == Some(HarshBraking)
    ensures NormalizeEventName("behavior." + "extremeBraking") == Some(ExtremeBraking)
    ensures NormalizeEventName("behavior." + "extremeEmergency") == Some(ExtremeBraking)
    ensures NormalizeEventName("behavior." + "extremeEmergencyBraking") == Some(ExtremeBraking)
    ensures NormalizeEventName("behavior." + "harshAcceleration") == Some(HarshAcceleration)
    ensures NormalizeEventName("behavior." + "extremeAcceleration") == Some(HarshAcceleration)
    ensures NormalizeEventName("behavior." + "harshCornering") == Some(HarshCornering)
  {
    TypesOfLetters();
    SpellHarshBraking();
    SpellExtremeBraking();
    SpellExtremeEmergency();
    SpellExtremeEmergencyBraking();
    SpellHarshAcceleration();
    SpellExtremeAcceleration();
    SpellHarshCornering();
    SpelledName("harshBraking", "harshbraking");
    SpelledName("extremeBraking", "extremebraking");
    SpelledName("extremeEmergency", "extremeemergency");
    SpelledName("extremeEmergencyBraking", "extremeemergencybraking");
    SpelledName("harshAcceleration", "harshacceleration");
    SpelledName("extremeAcceleration", "extremeacceleration");
    SpelledName("harshCornering", "harshcornering");
  }

  ghost const KNOWN_LETTERS: set<string> :=
    { "harshbraking", "extremebraking", "extremeemergency", "extremeemergencybraking",
      "harshacceleration", "extremeacceleration", "harshcornering" }

  /** No other letters are known behind the prefix. */
  lemma OtherNamesAreUnknown(x: string)
    ensures NormalizeEventName("behavior." + x).Some? ==> DropSeparators(Lower(x)) in KNOWN_LETTERS
  {
    PrefixedLetters(x);
  }
}
