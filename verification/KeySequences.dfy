/** Sequences of key combinations: up to 64 steps, separated by white space. */
module KeySequences {
  import opened Wrappers
  import opened Text
  import opened KeyNames
  import opened KeyCombos

  const MAX_SEQUENCE_LENGTH: nat := 64

  datatype SequenceError = NoSteps | TooManySteps(steps: nat) | BadStep(index: nat, error: ParseError)
  datatype SequenceResult = Steps(combos: seq<KeyCombo>) | Rejected(error: SequenceError)

  function ParseSteps(tokens: seq<string>, index: nat): SequenceResult {
    if tokens == [] then Steps([])
    else
      match KeyCombos.Parse(tokens[0], true)
      case Err(e) => Rejected(BadStep(index, e))
      case Ok(combo) =>
        match ParseSteps(tokens[1..], index + 1)
        case Rejected(e) => Rejected(e)
        case Steps(combos) => Steps([combo] + combos)
  }

  /** `KeySequence::from_str`. */
  function ParseSequence(input: string): SequenceResult {
    var tokens := Words(input);
    if tokens == [] then Rejected(NoSteps)
    else if |tokens| > MAX_SEQUENCE_LENGTH then Rejected(TooManySteps(|tokens|))
    else ParseSteps(tokens, 0)
  }

  /** The words with a space between each two. */
  function Spaced(words: seq<string>): string {
    if words == [] then []
    else if |words| == 1 then words[0]
    else words[0] + (" " + Spaced(words[1..]))
  }

  function Compacts(combos: seq<KeyCombo>): (texts: seq<string>)
    ensures |texts| == |combos|
  {
    seq(|combos|, i requires 0 <= i < |combos| => Compact(combos[i]))
  }

  /** `KeySequence`'s `Display::fmt`. */
  method PrintSequence(combos: seq<KeyCombo>) returns (text: string)
    ensures text == Spaced(Compacts(combos))
  {
    hide Compact;
    text := [];
    var index := 0;
    while index < |combos|
      invariant 0 <= index <= |combos|
      invariant text == Spaced(Compacts(combos)[..index])
    {
      if index > 0 {
        text := text + " ";
      }
      var step := PrintCompact(combos[index]);
      text := text + step;
      SpacedSnoc(Compacts(combos)[..index], step);
      assert Compacts(combos)[..index + 1] == Compacts(combos)[..index] + [step];
      index := index + 1;
    }
    assert Compacts(combos)[..|combos|] == Compacts(combos);
  }

  lemma {:induction false} SpacedSnoc(words: seq<string>, word: string)
    ensures Spaced(words + [word]) == if words == [] then word else Spaced(words) + " " + word
    decreases |words|
  {
    if words != [] {
      assert (words + [word])[1..] == words[1..] + [word];
      SpacedSnoc(words[1..], word);
    }
  }

  lemma {:induction false} WordEndAt(word: string, rest: string)
    requires NoWhitespace(word) && (rest == [] || IsWhitespace(rest[0]))
    ensures WordEnd(word + rest) == |word|
    decreases |word|
  {
    hide IsWhitespace;
    if word != [] {
      var s := word + rest;
      assert word[0] in word && forall c :: c in word[1..] ==> c in word;
      WordEndAt(word[1..], rest);
      assert s[0] == word[0] && s[1..] == word[1..] + rest;
    } else {
      assert word + rest == rest;
    }
  }

  lemma FirstWord(word: string, rest: string)
    requires word != [] && NoWhitespace(word) && (rest == [] || IsWhitespace(rest[0]))
    ensures Words(word + rest) == [word] + Words(rest)
  {
    var s := word + rest;
    assert word[0] in word;
    WordEndAt(word, rest);
    assert s[..|word|] == word && s[|word|..] == rest;
  }

  lemma SpaceIsNoWord(s: string)
    ensures Words(" " + s) == Words(s)
  {
    assert (" " + s)[1..] == s;
  }

  lemma {:induction false} WordsOfSpaced(words: seq<string>)
    requires forall w :: w in words ==> w != [] && NoWhitespace(w)
    ensures Words(Spaced(words)) == words
    decreases |words|
  {
    assert words != [] ==> words[0] in words;
    if words == [] {
    } else if |words| == 1 {
      FirstWord(words[0], []);
      assert words[0] + [] == words[0];
      assert words == [words[0]];
    } else {
      var more := Spaced(words[1..]);
      hide Words, NoWhitespace, Spaced;
      assert forall w :: w in words[1..] ==> w in words;
      WordsOfSpaced(words[1..]);
      FirstWord(words[0], " " + more);
      SpaceIsNoWord(more);
      assert words == [words[0]] + words[1..];
    }
  }

  lemma {:induction false} PrefixHasNoWhitespace(modifiers: bv8, k: nat)
    requires k <= 8
    ensures NoWhitespace(Prefix(modifiers, k, "+"))
    decreases 8 - k
  {
    hide Has;
    if k < 8 {
      NameFacts(k);
      PrefixHasNoWhitespace(modifiers, k + 1);
    }
  }

  lemma {:induction false} StepsReadBack(tokens: seq<string>, index: nat)
    requires ParseSteps(tokens, index).Steps?
    ensures var combos := ParseSteps(tokens, index).combos;
            && |combos| == |tokens|
            && ParseSteps(Compacts(combos), index) == Steps(combos)
            && forall w :: w in Compacts(combos) ==> w != [] && NoWhitespace(w)
    decreases |tokens|
  {
    hide KeyCombos.Parse, Compact, NoWhitespace;
    if tokens != [] {
      var combos := ParseSteps(tokens, index).combos;
      StepsReadBack(tokens[1..], index + 1);
      StepReadsBack(tokens[0]);
      assert combos[1..] == ParseSteps(tokens[1..], index + 1).combos;
      assert Compacts(combos)[1..] == Compacts(combos[1..]);
      assert Compacts(combos) == [Compact(combos[0])] + Compacts(combos[1..]);
    }
  }

  lemma StepReadsBack(token: string)
    requires KeyCombos.Parse(token, true).Ok?
    ensures var combo := KeyCombos.Parse(token, true).value;
            && KeyCombos.Parse(Compact(combo), true) == Ok(combo)
            && Compact(combo) != [] && NoWhitespace(Compact(combo))
  {
    hide KeyCombos.Parse, NormalizeKey, IsKnownKey, Prefix;
    PrintThenParse(token, true);
    AcceptedKey(token, true);
    PrefixHasNoWhitespace(KeyCombos.Parse(token, true).value.modifiers, 0);
  }

  /** Every sequence that is accepted has 1 to 64 steps, and is read back from what it prints. */
  lemma SequencePrintThenParse(input: string)
    requires ParseSequence(input).Steps?
    ensures var combos := ParseSequence(input).combos;
            && 1 <= |combos| <= MAX_SEQUENCE_LENGTH
            && ParseSequence(Spaced(Compacts(combos))) == Steps(combos)
  {
    hide Compact, KeyCombos.Parse;
    StepsReadBack(Words(input), 0);
    WordsOfSpaced(Compacts(ParseSequence(input).combos));
  }
}
