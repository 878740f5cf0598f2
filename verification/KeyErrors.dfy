/** Which texts are no key combination, and why. */
module KeyErrors {
  import opened Wrappers
  import opened Text
  import opened Decimal
  import opened KeyNames
  import opened KeyCombos
  import opened KeyAliases
  import opened KeySequences

  /** What a text is that holds no plus sign: one key, once the blanks around it are gone. */
  lemma OneKey(text: string, validate: bool)
    requires '+' !in text
    ensures var key := Trim(text);
            Parse(text, validate) ==
            if key == "" then Err(Empty)
            else if ModifierMask(key).Some? then Err(ModifierOnly)
            else if exists c :: c in key && IsWhitespace(c) then Err(KeyHasWhitespace)
            else if |key| >= 5 && Lower(key[..5]) == "code:" then
              if key[5..] != "" && AllDigits(key[5..]) then Ok(KeyCombo(0, "CODE:" + key[5..], false))
              else Err(BadKeycode)
            else if validate && !IsKnownKey(NormalizeKeyName(key)) then Err(UnknownKey)
            else Ok(KeyCombo(0, NormalizeKeyName(key), false))
  {
    var key := Trim(text);
    TrimIsTight(text);
    TrimOfTight(key);
    assert ScanModifiers(key, 0) == Scanned(0, key);
    hide Trim, ModifierMask, NormalizeKeyName, IsKnownKey, IsWhitespace, ScanModifiers, NormalizeKey, Lower, AllDigits;
    NormalMeans(key);
    if key != "" && ModifierMask(key).None? && |key| >= 5 && Lower(key[..5]) == "code:" && AllDigits(key[5..]) {
      CodesAreKnown(key[5..]);
    }
  }

  lemma NormalMeans(key: string)
    ensures NormalizeKey(key) ==
            if exists c :: c in key && IsWhitespace(c) then Err(KeyHasWhitespace)
            else if |key| >= 5 && Lower(key[..5]) == "code:" then
              if key[5..] != "" && AllDigits(key[5..]) then Ok("CODE:" + key[5..]) else Err(BadKeycode)
            else Ok(NormalizeKeyName(key))
  {
    hide NormalizeKeyName, IsWhitespace, AllDigits;
    if |key| >= 5 {
      assert Lower(key)[..5] == Lower(key[..5]);
    }
  }

  lemma CodesAreKnown(number: string)
    ensures IsKnownKey("CODE:" + number)
  {
  }

  /** A modifier, or an alias of it, may not be given again. */
  lemma ModifierTwice(name: string, other: string, rest: string, validate: bool)
    requires ModifierMask(name).Some? && ModifierMask(other) == ModifierMask(name)
    ensures Parse(name + "+" + (other + "+" + rest), validate) == Err(RepeatedModifier)
  {
    ModifierIsPlain(name);
    ModifierIsPlain(other);
    TypedIsTrimmed([name, other], rest);
    MaskOverlapsItself(name);
    hide Trim, ModifierMask, Overlap;
    var after := TrimEnd(rest);
    ScanTyped(name, other + "+" + after, 0);
    ScanTyped(other, after, Union(0, ModifierMask(name).value));
    assert [name, other][1..] == [other] && [other][1..] == [];
    assert Typed([], after) == after && Typed([other], after) == other + "+" + after;
    assert Typed([], rest) == rest && Typed([other], rest) == other + "+" + rest;
  }

  lemma MaskOverlapsItself(name: string)
    requires ModifierMask(name).Some?
    ensures var mask := ModifierMask(name).value;
            !Overlap(0, mask) && Overlap(Union(0, mask), mask)
  {
  }

  lemma TypedIsTrimmed(names: seq<string>, rest: string)
    requires names != [] && AreModifiers(names)
    ensures Trim(Typed(names, rest)) == Typed(names, TrimEnd(rest)) != []
  {
    ModifierIsPlain(names[0]);
    forall name | name in names ensures Trim(name) == name {
      ModifierIsPlain(name);
      TrimOfTight(name);
    }
    hide Trim, ModifierMask, Typed;
    assert Trims(names) == names;
    TrimTyped(names, rest);
    assert TrimStart(names[0]) == names[0];
    assert Tightened(names) == names;
  }

  /** Behind a key, nothing may follow; a plus sign is a key if it stands last. */
  lemma KeyAndMore(key: string, rest: string, validate: bool)
    requires key != [] && '+' !in key && Tight(key) && ModifierMask(key).None?
    ensures Parse(key + "+" + rest, validate) == Err(SeveralKeys)
  {
    var text := key + ['+'] + rest;
    assert key + "+" + rest == text;
    FindAt(key, '+', TrimEnd(rest));
    TrimEndAfter(key + "+", rest);
    assert key + "+" + rest == (key + "+") + rest && key + "+" + TrimEnd(rest) == (key + "+") + TrimEnd(rest);
    assert TrimStart(text) == text;
    var trimmed := key + ['+'] + TrimEnd(rest);
    assert Trim(text) == trimmed;
    assert trimmed[..|key|] == key;
    TrimOfTight(key);
    hide ModifierMask;
    assert ScanModifiers(trimmed, 0) == Scanned(0, trimmed);
    TrimIsTight(text);
    TrimOfTight(trimmed);
    assert '+' in trimmed && |trimmed| > 1;
    PlusIsNoModifier(trimmed);
  }

  lemma PlusIsNoModifier(text: string)
    requires '+' in text
    ensures ModifierMask(text) == None
  {
    if ModifierMask(text).Some? { ModifierIsPlain(text); }
  }

  /** Modifiers alone are no combination. */
  lemma OnlyModifiers(name: string, validate: bool)
    requires ModifierMask(name).Some?
    ensures Parse(name, validate) == Err(ModifierOnly) && Parse(name + "+", validate) == Err(ModifierOnly)
    ensures Parse(name + "+" + "+", validate) == Ok(KeyCombo(ModifierMask(name).value, "+", false))
  {
    ModifierIsPlain(name);
    TrimOfTight(name);
    OneKey(name, validate);
    TypedIsTrimmed([name], "");
    PlusIsAKey();
    MaskOverlapsItself(name);
    assert TrimEnd("") == "" && Trim("") == "";
    hide ModifierMask, Trim, NormalizeKey, IsKnownKey, NoWhitespace, IsKey, Overlap;
    assert [name][1..] == [] && Typed([], "") == "";
    assert name + "+" + "" == name + "+";
    ScanTyped(name, "", 0);
    ModifierAndKey(name, "+", validate);
    UnionWithNone(ModifierMask(name).value);
  }

  lemma UnionWithNone(mask: bv8)
    ensures Union(0, mask) == mask
  {
  }

  lemma PlusIsAKey()
    ensures IsKey("+") && NormalizeKey("+") == Ok("+") && IsKnownKey("+")
  {
    assert Lower("+") == "+" && Upper("+") == "+";
    OtherKeys("+");
    hide NormalizeKeyName, ModifierOf;
    OtherNamesAreLong("+");
  }

  // ---- sequences --------------------------------------------------------------------------------------

  /** The first word that is no combination, with the reason. */
  predicate FirstBad(words: seq<string>, i: int, e: ParseError) {
    && 0 <= i < |words| && KeyCombos.Parse(words[i], true) == Err(e)
    && forall k | 0 <= k < i :: KeyCombos.Parse(words[k], true).Ok?
  }

  lemma {:induction false} StepsMean(words: seq<string>, index: nat)
    ensures match ParseSteps(words, index)
            case Steps(combos) =>
              |combos| == |words| && forall i | 0 <= i < |words| :: KeyCombos.Parse(words[i], true) == Ok(combos[i])
            case Rejected(error) => error.BadStep? && FirstBad(words, error.index - index, error.error)
    decreases |words|
  {
    hide KeyCombos.Parse;
    if words != [] && KeyCombos.Parse(words[0], true).Ok? {
      var rest := words[1..];
      StepsMean(rest, index + 1);
      assert forall i | 0 < i < |words| :: words[i] == rest[i - 1];
      match ParseSteps(rest, index + 1) {
        case Steps(combos) =>
          forall i | 0 < i < |words| ensures KeyCombos.Parse(words[i], true) == Ok(ParseSteps(words, index).combos[i]) {
            assert ParseSteps(words, index).combos[i] == combos[i - 1];
          }
        case Rejected(error) =>
          var i := error.index - index;
          assert words[i] == rest[i - 1];
      }
    }
  }

  /** A sequence is rejected if it has no word, more than 64, or at the first word that is no
      combination; else it is its words' combinations, in order. */
  lemma SequenceMeans(input: string)
    ensures var words := Words(input);
            match ParseSequence(input)
            case Steps(combos) =>
              && 1 <= |words| <= 64 && |combos| == |words|
              && forall i | 0 <= i < |words| :: KeyCombos.Parse(words[i], true) == Ok(combos[i])
            case Rejected(NoSteps) => words == []
            case Rejected(TooManySteps(n)) => |words| == n > 64
            case Rejected(BadStep(i, e)) => 1 <= |words| <= 64 && FirstBad(words, i, e)
  {
    hide KeyCombos.Parse, Words, FirstBad;
    StepsMean(Words(input), 0);
  }
}
