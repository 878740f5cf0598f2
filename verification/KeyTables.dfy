/** The tables of key names: every name is a word, and none is in two tables. */
module KeyTables {
  import opened Wrappers
  import opened Text
  import opened KeyNames

  predicate IsWord(name: string) {
    forall i | 0 <= i < |name| :: 'a' <= name[i] <= 'z' || name[i] == '_'
  }

  lemma ArrowsAreWords(name: string)
    requires ArrowOf(name).Some?
    ensures IsWord(name)
  {
  }

  /** The tables, by the first letter of the name. */
  predicate IsEditingFrom(name: string, first: char, last: char) {
    EditingKeyOf(name).Some? && (name == [] || first <= name[0] <= last)
  }

  predicate IsSymbolFrom(name: string, first: char, last: char) {
    SymbolOf(name).Some? && (name == [] || first <= name[0] <= last)
  }

  lemma EditingKeysAreWordsToH(name: string)
    requires IsEditingFrom(name, 'a', 'h')
    ensures IsWord(name)
  {
  }

  lemma EditingKeysAreWordsToI(name: string)
    requires IsEditingFrom(name, 'i', 'i')
    ensures IsWord(name)
  {
  }

  lemma EditingKeysAreWordsToO(name: string)
    requires IsEditingFrom(name, 'j', 'o')
    ensures IsWord(name)
  {
  }

  lemma EditingKeysAreWordsToZ(name: string)
    requires IsEditingFrom(name, 'p', 'z')
    ensures IsWord(name)
  {
  }

  lemma SymbolsAreWordsToA(name: string)
    requires IsSymbolFrom(name, 'a', 'a')
    ensures IsWord(name)
  {
  }

  lemma SymbolsAreWordsToB(name: string)
    requires IsSymbolFrom(name, 'b', 'b')
    ensures IsWord(name)
  {
  }

  lemma SymbolsAreWordsToF(name: string)
    requires IsSymbolFrom(name, 'c', 'f')
    ensures IsWord(name)
  {
  }

  lemma SymbolsAreWordsToL(name: string)
    requires IsSymbolFrom(name, 'g', 'l')
    ensures IsWord(name)
  {
  }

  lemma SymbolsAreWordsToO(name: string)
    requires IsSymbolFrom(name, 'm', 'o')
    ensures IsWord(name)
  {
  }

  lemma SymbolsAreWordsToP(name: string)
    requires IsSymbolFrom(name, 'p', 'p')
    ensures IsWord(name)
  {
  }

  lemma SymbolsAreWordsToZ(name: string)
    requires IsSymbolFrom(name, 'q', 'z')
    ensures IsWord(name)
  {
  }

  lemma InitialOfEditingKey(name: string)
    requires EditingKeyOf(name).Some?
    ensures IsEditingFrom(name, 'a', 'h') || IsEditingFrom(name, 'i', 'i') || IsEditingFrom(name, 'j', 'o')
         || IsEditingFrom(name, 'p', 'z')
  {
  }

  lemma InitialOfSymbol(name: string)
    requires SymbolOf(name).Some?
    ensures IsSymbolFrom(name, 'a', 'a') || IsSymbolFrom(name, 'b', 'b') || IsSymbolFrom(name, 'c', 'f')
         || IsSymbolFrom(name, 'g', 'l') || IsSymbolFrom(name, 'm', 'o') ||
            IsSymbolFrom(name, 'p', 'p') || IsSymbolFrom(name, 'q', 'z')
  {
  }

  /** Every name in the tables is made of letters and underscores. */
  lemma NamesAreWords(name: string)
    ensures ArrowOf(name).Some? || EditingKeyOf(name).Some? || SymbolOf(name).Some? ==> IsWord(name)
  {
    hide ArrowOf, EditingKeyOf, SymbolOf, IsWord, IsEditingFrom, IsSymbolFrom;
    if ArrowOf(name).Some? {
      ArrowsAreWords(name);
    }
    if EditingKeyOf(name).Some? {
      InitialOfEditingKey(name);
      if IsEditingFrom(name, 'a', 'h') { EditingKeysAreWordsToH(name); }
      else if IsEditingFrom(name, 'i', 'i') { EditingKeysAreWordsToI(name); }
      else if IsEditingFrom(name, 'j', 'o') { EditingKeysAreWordsToO(name); }
      else { EditingKeysAreWordsToZ(name); }
    }
    if SymbolOf(name).Some? {
      InitialOfSymbol(name);
      if IsSymbolFrom(name, 'a', 'a') { SymbolsAreWordsToA(name); }
      else if IsSymbolFrom(name, 'b', 'b') { SymbolsAreWordsToB(name); }
      else if IsSymbolFrom(name, 'c', 'f') { SymbolsAreWordsToF(name); }
      else if IsSymbolFrom(name, 'g', 'l') { SymbolsAreWordsToL(name); }
      else if IsSymbolFrom(name, 'm', 'o') { SymbolsAreWordsToO(name); }
      else if IsSymbolFrom(name, 'p', 'p') { SymbolsAreWordsToP(name); }
      else { SymbolsAreWordsToZ(name); }
    }
  }

  /** Only the names of arrows end in w or begin with ar. */
  predicate LooksLikeArrow(name: string) {
    |name| > 1 && (name[|name| - 1] == 'w' || (name[0] == 'a' && name[1] == 'r'))
  }

  lemma ArrowsLookLikeArrows(name: string)
    requires ArrowOf(name).Some?
    ensures LooksLikeArrow(name)
  {
  }

  lemma NoEditingKeyLooksLikeArrow(name: string)
    requires EditingKeyOf(name).Some?
    ensures !LooksLikeArrow(name)
  {
  }

  lemma NoSymbolToALooksLikeArrow(name: string)
    requires IsSymbolFrom(name, 'a', 'a')
    ensures !LooksLikeArrow(name)
  {
  }

  lemma NoSymbolToBLooksLikeArrow(name: string)
    requires IsSymbolFrom(name, 'b', 'b')
    ensures !LooksLikeArrow(name)
  {
  }

  lemma NoSymbolToFLooksLikeArrow(name: string)
    requires IsSymbolFrom(name, 'c', 'f')
    ensures !LooksLikeArrow(name)
  {
  }

  lemma NoSymbolToZLooksLikeArrow(name: string)
    requires IsSymbolFrom(name, 'g', 'z')
    ensures !LooksLikeArrow(name)
  {
  }

  lemma SymbolInitials(name: string)
    ensures SymbolOf(name).Some? ==> IsSymbolFrom(name, 'a', 'a') || IsSymbolFrom(name, 'b', 'b')
                                     || IsSymbolFrom(name, 'c', 'f') || IsSymbolFrom(name, 'g', 'z')
  {
  }

  lemma NoArrowEdits(name: string)
    ensures ArrowOf(name).Some? ==> EditingKeyOf(name) == None && SymbolOf(name) == None
  {
    hide ArrowOf, EditingKeyOf, SymbolOf, LooksLikeArrow, IsSymbolFrom;
    if ArrowOf(name).Some? {
      ArrowsLookLikeArrows(name);
      if EditingKeyOf(name).Some? { NoEditingKeyLooksLikeArrow(name); }
      if IsSymbolFrom(name, 'a', 'a') { NoSymbolToALooksLikeArrow(name); }
      if IsSymbolFrom(name, 'b', 'b') { NoSymbolToBLooksLikeArrow(name); }
      if IsSymbolFrom(name, 'c', 'f') { NoSymbolToFLooksLikeArrow(name); }
      if IsSymbolFrom(name, 'g', 'z') { NoSymbolToZLooksLikeArrow(name); }
      SymbolInitials(name);
    }
  }

  lemma NoSymbolEditsToA(name: string)
    requires IsSymbolFrom(name, 'a', 'a')
    ensures EditingKeyOf(name) == None
  {
  }

  lemma NoSymbolEditsToB(name: string)
    requires IsSymbolFrom(name, 'b', 'b')
    ensures EditingKeyOf(name) == None
  {
  }

  lemma NoSymbolEditsToF(name: string)
    requires IsSymbolFrom(name, 'c', 'f')
    ensures EditingKeyOf(name) == None
  {
  }

  lemma LettersOfEditingKey(name: string)
    requires EditingKeyOf(name).Some?
    ensures name != [] && name[0] != 'g' && name[0] != 'l'
    ensures |name| > 2 && name[0] == 'p' ==> name[1] == 'g' || name[1] == 'r' || name[2] == 'g'
  {
  }

  lemma LettersOfSymbolToL(name: string)
    requires IsSymbolFrom(name, 'g', 'l')
    ensures name != [] && (name[0] == 'g' || name[0] == 'l')
  {
  }

  lemma LettersOfSymbolP(name: string)
    requires IsSymbolFrom(name, 'p', 'p')
    ensures |name| > 2 && name[0] == 'p' && name[1] <= 'l' && name[1] != 'g' && name[2] != 'g'
  {
  }

  lemma NoSymbolEditsToL(name: string)
    requires IsSymbolFrom(name, 'g', 'l')
    ensures EditingKeyOf(name) == None
  {
    hide IsSymbolFrom, EditingKeyOf;
    LettersOfSymbolToL(name);
    if EditingKeyOf(name).Some? {
      LettersOfEditingKey(name);
    }
  }

  lemma NoSymbolEditsToO(name: string)
    requires IsSymbolFrom(name, 'm', 'o')
    ensures EditingKeyOf(name) == None
  {
  }

  lemma NoSymbolEditsToP(name: string)
    requires IsSymbolFrom(name, 'p', 'p')
    ensures EditingKeyOf(name) == None
  {
    hide IsSymbolFrom, EditingKeyOf;
    LettersOfSymbolP(name);
    if EditingKeyOf(name).Some? {
      LettersOfEditingKey(name);
    }
  }

  lemma NoSymbolEditsToZ(name: string)
    requires IsSymbolFrom(name, 'q', 'z')
    ensures EditingKeyOf(name) == None
  {
  }

  lemma NoSymbolEdits(name: string)
    ensures SymbolOf(name).Some? ==> EditingKeyOf(name) == None
  {
    hide EditingKeyOf, SymbolOf, IsSymbolFrom;
    if SymbolOf(name).Some? {
      InitialOfSymbol(name);
      if IsSymbolFrom(name, 'a', 'a') { NoSymbolEditsToA(name); }
      else if IsSymbolFrom(name, 'b', 'b') { NoSymbolEditsToB(name); }
      else if IsSymbolFrom(name, 'c', 'f') { NoSymbolEditsToF(name); }
      else if IsSymbolFrom(name, 'g', 'l') { NoSymbolEditsToL(name); }
      else if IsSymbolFrom(name, 'm', 'o') { NoSymbolEditsToO(name); }
      else if IsSymbolFrom(name, 'p', 'p') { NoSymbolEditsToP(name); }
      else { NoSymbolEditsToZ(name); }
    }
  }
}
