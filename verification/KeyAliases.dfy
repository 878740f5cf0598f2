/** What the names of keys and modifiers mean: their spellings against each other, against the
    keysym names of X11, and at inputs. */
module KeyAliases {
  import opened Wrappers
  import opened Text
  import opened Decimal
  import opened KeyNames
  import opened KeyTables
  import opened KeyCombos

  // ---- arrows ---------------------------------------------------------------------------------------

  /** A direction with the word arrow before or behind it, with an underscore or without. */
  predicate IsArrow(name: string, word: string) {
    name == "arrow" + word || name == "arrow_" + word || name == word + "arrow" || name == word + "_arrow"
  }

  lemma LeftArrow(name: string)
    requires IsArrow(name, "left")
    ensures ArrowOf(name) == Some("LEFT") && name != []
  {
    assert "arrow" + "left" == "arrowleft" && "arrow_" + "left" == "arrow_left";
    assert "left" + "arrow" == "leftarrow" && "left" + "_arrow" == "left_arrow";
  }

  lemma RightArrow(name: string)
    requires IsArrow(name, "right")
    ensures ArrowOf(name) == Some("RIGHT") && name != []
  {
    assert "arrow" + "right" == "arrowright" && "arrow_" + "right" == "arrow_right";
    assert "right" + "arrow" == "rightarrow" && "right" + "_arrow" == "right_arrow";
  }

  lemma UpArrow(name: string)
    requires IsArrow(name, "up")
    ensures ArrowOf(name) == Some("UP") && name != []
  {
    assert "arrow" + "up" == "arrowup" && "arrow_" + "up" == "arrow_up";
    assert "up" + "arrow" == "uparrow" && "up" + "_arrow" == "up_arrow";
  }

  lemma DownArrow(name: string)
    requires IsArrow(name, "down")
    ensures ArrowOf(name) == Some("DOWN") && name != []
  {
    assert "arrow" + "down" == "arrowdown" && "arrow_" + "down" == "arrow_down";
    assert "down" + "arrow" == "downarrow" && "down" + "_arrow" == "down_arrow";
  }

  // ---- symbols, in the order of their codes ------------------------------------------------------------

  /** X11 names the keysyms of ASCII symbols; their codes are those of the characters. */
  predicate NamesFrom(names: seq<string>, first: char) {
    first as int + |names| < 0x80 &&
    forall i | 0 <= i < |names| :: SymbolOf(names[i]) == Some((first as int + i) as char)
  }

  lemma FirstSymbols()
    ensures NamesFrom(["exclam", "quotedbl", "numbersign", "dollar", "percent", "ampersand", "apostrophe"], '!')
  {
  }

  lemma MiddleSymbols()
    ensures NamesFrom(["parenleft", "parenright", "asterisk", "plus"], '(')
    ensures NamesFrom(["comma", "minus", "period", "slash"], ',')
  {
    CommaToSlash();
  }

  lemma CommaToSlash()
    ensures NamesFrom(["comma", "minus", "period", "slash"], ',')
  {
  }

  lemma SymbolsBehindDigits()
    ensures NamesFrom(["colon", "semicolon", "less"], ':')
    ensures NamesFrom(["equal", "greater", "question", "at"], '=')
  {
    EqualToAt();
  }

  lemma EqualToAt()
    ensures NamesFrom(["equal", "greater", "question", "at"], '=')
  {
  }

  lemma SymbolsBehindCapitals()
    ensures NamesFrom(["bracketleft", "backslash", "bracketright", "asciicircum", "underscore", "grave"], '[')
  {
  }

  lemma SymbolsBehindLetters()
    ensures NamesFrom(["braceleft", "bar", "braceright", "asciitilde"], '{')
  {
  }

  // ---- modifiers, in the order of their bits --------------------------------------------------------------

  /** The modifiers of X11, bit by bit. */
  lemma ModifierBits()
    ensures ModifierOf("shift") == Some(1) && ModifierOf("lock") == Some(1 << 1) && ModifierOf("control") == Some(1 << 2)
    ensures ModifierOf("mod1") == Some(1 << 3) && ModifierOf("mod2") == Some(1 << 4) && ModifierOf("mod3") == Some(1 << 5)
    ensures ModifierOf("mod4") == Some(1 << 6) && ModifierOf("mod5") == Some(1 << 7)
  {
  }

  /** And what they are called otherwise. */
  lemma ShiftAndControlNames()
    ensures ModifierOf("ctrl") == ModifierOf("ctl") == ModifierOf("control")
    ensures ModifierOf("caps") == ModifierOf("capslock") == ModifierOf("lock")
  {
  }

  lemma AltAndSuperNames()
    ensures ModifierOf("alt") == ModifierOf("mod1")
    ensures ModifierOf("super") == ModifierOf("meta") == ModifierOf("win") == ModifierOf("mod4")
  {
  }

  lemma LockAndLevelNames()
    ensures ModifierOf("num") == ModifierOf("numlock") == ModifierOf("mod2")
    ensures ModifierOf("altgr") == ModifierOf("iso_level3_shift") == ModifierOf("mod5")
  {
  }

  lemma HyperName()
    ensures ModifierOf("hyper") == ModifierOf("mod3")
  {
  }

  // ---- editing keys and the keypad -----------------------------------------------------------------------

  /** Abbreviations are beginnings. */
  lemma AbbreviatedKeys()
    ensures EditingKeyOf("esc") == EditingKeyOf("escape") == Some("ESCAPE")
    ensures EditingKeyOf("del") == EditingKeyOf("delete") == Some("DELETE")
    ensures EditingKeyOf("ins") == EditingKeyOf("insert") == Some("INSERT")
  {
  }

  lemma NamedTwice()
    ensures EditingKeyOf("enter") == EditingKeyOf("return") == Some("RETURN")
    ensures EditingKeyOf("iso_left_tab") == EditingKeyOf("tab") == Some("TAB")
    ensures EditingKeyOf("spacebar") == EditingKeyOf("space") == Some("SPACE")
  {
  }

  lemma NamedOnce()
    ensures EditingKeyOf("home") == Some("HOME") && EditingKeyOf("end") == Some("END")
    ensures EditingKeyOf("backspace") == Some("BACKSPACE")
    ensures EditingKeyOf("kp_enter") == EditingKeyOf("kp_return") == Some("KP_ENTER")
  {
  }

  /** Pages go up and down; X11 calls them prior and next. */
  lemma PagesUp()
    ensures EditingKeyOf("pgup") == EditingKeyOf("pageup") == EditingKeyOf("page_up") == EditingKeyOf("prior")
    ensures EditingKeyOf("prior") == Some("PAGE_UP") && EditingKeyOf("kp_prior") == EditingKeyOf("kp_page_up")
    ensures EditingKeyOf("kp_prior") == Some("KP_PAGE_UP")
  {
  }

  lemma PagesDown()
    ensures EditingKeyOf("pgdown") == EditingKeyOf("pagedown") == EditingKeyOf("page_down") == EditingKeyOf("next")
    ensures EditingKeyOf("next") == Some("PAGE_DOWN") && EditingKeyOf("kp_next") == EditingKeyOf("kp_page_down")
    ensures EditingKeyOf("kp_next") == Some("KP_PAGE_DOWN")
  {
  }

  predicate OnKeypad(name: string) {
    |name| > 3 && name[0] == 'k' && name[1] == 'p' && name[2] == '_'
  }

  predicate NamesKeypadKey(key: string) {
    |key| > 3 && key[0] == 'K' && key[1] == 'P' && key[2] == '_'
  }

  /** Keypad names stay keypad names, and no others become one. */
  lemma KeypadStaysApart(name: string)
    requires EditingKeyOf(name).Some?
    ensures OnKeypad(name) <==> NamesKeypadKey(EditingKeyOf(name).value)
  {
  }

  // ---- in any case, at the input ---------------------------------------------------------------------------

  lemma WordsAreNamed(value: string)
    requires IsWord(Lower(value))
    ensures NormalizeKey(value) == Ok(NormalizeKeyName(value)) && NoWhitespace(value) && '+' !in value
  {
    hide NormalizeKeyName;
    forall c | c in value ensures !IsWhitespace(c) && c != '+' {
      var i :| 0 <= i < |value| && value[i] == c;
      assert Lower(value)[i] == LowerChar(c);
    }
    assert |value| >= 5 ==> Lower(value)[..5][4] == Lower(value)[4];
  }

  lemma ArrowIsListed(name: string, word: string)
    requires word in {"left", "right", "up", "down"} && IsArrow(name, word)
    ensures ArrowOf(name) == Some(Upper(word)) && name != []
  {
    hide ArrowOf, IsArrow, Upper;
    if word == "left" { LeftArrow(name); }
    else if word == "right" { RightArrow(name); }
    else if word == "up" { UpArrow(name); }
    else { DownArrow(name); }
    Directions();
  }

  /** The word arrow on either side of a direction, with an underscore or without, in any case. */
  lemma ArrowKeys(value: string, word: string)
    requires word in {"left", "right", "up", "down"} && IsArrow(Lower(value), word)
    ensures NormalizeKey(value) == Ok(Upper(word))
  {
    hide ArrowOf, EditingKeyOf, SymbolOf, NormalizeKey, IsArrow, Lower, Upper;
    var name := Lower(value);
    ArrowIsListed(name, word);
    NamesAreWords(name);
    WordsAreNamed(value);
  }

  lemma Directions()
    ensures Upper("left") == "LEFT" && Upper("right") == "RIGHT" && Upper("up") == "UP" && Upper("down") == "DOWN"
  {
  }

  /** A key of the tables, in any case; the tables share no name. */
  lemma EditingKeyValues(value: string, key: string)
    requires EditingKeyOf(Lower(value)) == Some(key)
    ensures NormalizeKey(value) == Ok(key)
  {
    hide ArrowOf, EditingKeyOf, SymbolOf, NormalizeKey, Lower, Upper;
    NoArrowEdits(Lower(value));
    NamesAreWords(Lower(value));
    WordsAreNamed(value);
  }

  lemma SymbolKeys(value: string, symbol: char)
    requires SymbolOf(Lower(value)) == Some(symbol)
    ensures NormalizeKey(value) == Ok([symbol])
  {
    hide ArrowOf, EditingKeyOf, SymbolOf, NormalizeKey, Lower, Upper;
    NoArrowEdits(Lower(value));
    NoSymbolEdits(Lower(value));
    NamesAreWords(Lower(value));
    WordsAreNamed(value);
  }

  /** Whatever has a digit or a sign in it, and every single character, keeps its name. */
  lemma OtherKeys(value: string)
    requires |value| == 1 || !IsWord(Lower(value))
    ensures NormalizeKeyName(value) == Upper(value)
  {
    hide ArrowOf, EditingKeyOf, SymbolOf, Lower, Upper;
    NamesAreWords(Lower(value));
    OtherNamesAreLong(Lower(value));
    SymbolFacts(Lower(value));
  }

  // ---- known keys ----------------------------------------------------------------------------------------

  /** Whatever a name is folded into is a key that queries may ask for. */
  lemma FoldedKeysAreKnown(name: string, lower: string)
    requires IsFolded(name, lower)
    ensures IsKnownKey(name)
  {
    hide IsCursor, IsLine, IsEditing, IsPaging, IsKeypad, IsKnownKey, EditingKeys, KeypadKeys, NamedKeys;
    if IsCursor(name, lower) { CursorIsListed(name, lower); }
    else if IsLine(name, lower) { LineIsListed(name, lower); }
    else if IsEditing(name, lower) { EditingIsListed(name, lower); }
    else if IsPaging(name, lower) { PagingIsListed(name, lower); }
    else { KeypadIsListed(name, lower); }
    ListedIsKnown(name);
  }

  lemma CursorIsListed(name: string, lower: string)
    requires IsCursor(name, lower)
    ensures name in EditingKeys
  {
  }

  lemma LineIsListed(name: string, lower: string)
    requires IsLine(name, lower)
    ensures name in EditingKeys
  {
  }

  lemma EditingIsListed(name: string, lower: string)
    requires IsEditing(name, lower)
    ensures name in EditingKeys
  {
  }

  lemma PagingIsListed(name: string, lower: string)
    requires IsPaging(name, lower)
    ensures name in EditingKeys
  {
  }

  lemma KeypadIsListed(name: string, lower: string)
    requires IsKeypad(name, lower)
    ensures name in KeypadKeys
  {
  }

  lemma ListedIsKnown(name: string)
    ensures name in EditingKeys || name in KeypadKeys ==> IsKnownKey(name)
  {
    hide EditingKeys, SystemKeys, SidedKeys, KeypadKeys, WheelKeys;
  }

  /** What the named keys look like where function keys, mouse buttons and media keys differ. */
  predicate IsNumbered(key: string) {
    || (|key| > 1 && key[0] == 'F' && IsDigit(key[1]))
    || (|key| > 5 && key[5] == ':')
    || (|key| > 1 && key[0] == 'X')
  }

  lemma EditingKeysAreNotNumbered(key: string)
    ensures IsNumbered(key) ==> key !in EditingKeys && key !in WheelKeys
  {
  }

  lemma SystemKeysAreNotNumbered(key: string)
    ensures IsNumbered(key) ==> key !in SystemKeys
  {
  }

  lemma SidedKeysAreNotNumbered(key: string)
    ensures IsNumbered(key) ==> key !in SidedKeys
  {
  }

  lemma KeypadKeysAreNotNumbered(key: string)
    ensures IsNumbered(key) ==> key !in KeypadKeys
  {
  }

  lemma NamedKeysAreNotNumbered(key: string)
    ensures IsNumbered(key) ==> key !in NamedKeys
  {
    hide IsNumbered;
    EditingKeysAreNotNumbered(key);
    SystemKeysAreNotNumbered(key);
    SidedKeysAreNotNumbered(key);
    KeypadKeysAreNotNumbered(key);
  }

  lemma {:induction false} LeadingZero(n: nat)
    ensures Print(n)[0] == '0' <==> n == 0
    decreases n
  {
    if n >= 10 {
      LeadingZero(n / 10);
    }
  }

  /** A numeral without a leading zero is what is printed for its value. */
  lemma {:induction false} PrintOfValue(s: string)
    requires s != [] && AllDigits(s) && s[0] != '0'
    ensures Value(s) > 0 && Print(Value(s)) == s
    decreases |s|
  {
    var init, last := s[..|s| - 1], s[|s| - 1];
    assert s == init + [last] && last in s;
    if init == [] {
      assert Value(init) == 0;
    } else {
      assert AllDigits(init) by { assert forall c :: c in init ==> c in s; }
      PrintOfValue(init);
      assert (Value(init) * 10 + DigitValue(last)) / 10 == Value(init);
      assert (Value(init) * 10 + DigitValue(last)) % 10 == DigitValue(last);
    }
  }

  /** Function keys are numbered from 1 to 35, without leading zeros. */
  lemma FunctionKeys(number: string)
    requires number != "" && IsDigit(number[0])
    ensures IsKnownKey("F" + number) <==> exists n | 1 <= n <= 35 :: number == Print(n)
  {
    FunctionKeyIs(number);
    hide IsKnownKey, Value;
    if number[0] != '0' && AllDigits(number) && 1 <= Value(number) <= 35 {
      PrintOfValue(number);
    }
    if n: nat :| 1 <= n <= 35 && number == Print(n) {
      LeadingZero(n);
      ValueOfPrint(n);
    }
  }

  lemma FunctionKeyIs(number: string)
    requires number != "" && IsDigit(number[0])
    ensures IsKnownKey("F" + number) <==> number[0] != '0' && AllDigits(number) && 1 <= Value(number) <= 35
  {
    var key := "F" + number;
    assert key[1..] == number && key[1] == number[0];
    NamedKeysAreNotNumbered(key);
    assert "0" <= number <==> number[0] == '0';
  }

  /** Keys that there are on either side, on the keypad, and in every direction. */
  lemma SidedKeysAreKnown(name: string)
    requires name in {"SHIFT", "CONTROL", "ALT", "SUPER", "META", "HYPER"}
    ensures name + "_L" in SidedKeys && name + "_R" in SidedKeys
  {
    if name == "SHIFT" { assert name + "_L" == "SHIFT_L" && name + "_R" == "SHIFT_R"; }
    else if name == "CONTROL" { assert name + "_L" == "CONTROL_L" && name + "_R" == "CONTROL_R"; }
    else if name == "ALT" { assert name + "_L" == "ALT_L" && name + "_R" == "ALT_R"; }
    else if name == "SUPER" { assert name + "_L" == "SUPER_L" && name + "_R" == "SUPER_R"; }
    else if name == "META" { assert name + "_L" == "META_L" && name + "_R" == "META_R"; }
    else { assert name + "_L" == "HYPER_L" && name + "_R" == "HYPER_R"; }
  }

  lemma DirectionKeysAreKnown(word: string)
    requires word in {"LEFT", "RIGHT", "UP", "DOWN"}
    ensures word in EditingKeys && "KP_" + word in KeypadKeys && "MOUSE_" + word in WheelKeys
  {
    if word == "LEFT" { assert "KP_" + word == "KP_LEFT" && "MOUSE_" + word == "MOUSE_LEFT"; }
    else if word == "RIGHT" { assert "KP_" + word == "KP_RIGHT" && "MOUSE_" + word == "MOUSE_RIGHT"; }
    else if word == "UP" { assert "KP_" + word == "KP_UP" && "MOUSE_" + word == "MOUSE_UP"; }
    else { assert "KP_" + word == "KP_DOWN" && "MOUSE_" + word == "MOUSE_DOWN"; }
  }

  lemma MouseButtons(number: string)
    ensures IsKnownKey("MOUSE:" + number) <==> number != [] && AllDigits(number)
  {
    var key := "MOUSE:" + number;
    assert key[6..] == number && key[0] == 'M' && key[5] == ':';
    NamedKeysAreNotNumbered(key);
  }

  lemma MediaKeys(name: string)
    ensures IsKnownKey("XF86" + name) <==>
            name != [] && forall c | c in name :: 'a' <= c <= 'z' || 'A' <= c <= 'Z' || '0' <= c <= '9' || c == '_'
  {
    var key := "XF86" + name;
    assert key[4..] == name && key[0] == 'X';
    NamedKeysAreNotNumbered(key);
  }

  // ---- combinations -----------------------------------------------------------------------------------------

  lemma NoModifierLooksLikeArrow(name: string)
    requires ModifierOf(name).Some?
    ensures !LooksLikeArrow(name)
  {
  }

  lemma ArrowsAreNoModifiers(name: string)
    requires ArrowOf(name).Some?
    ensures ModifierOf(name) == None
  {
    hide ArrowOf, ModifierOf, LooksLikeArrow;
    ArrowsLookLikeArrows(name);
    if ModifierOf(name).Some? { NoModifierLooksLikeArrow(name); }
  }

  /** A modifier and a key. */
  lemma ModifierAndKey(name: string, key: string, validate: bool)
    requires ModifierMask(name).Some? && IsKey(key) && NormalizeKey(key).Ok?
    requires validate ==> IsKnownKey(NormalizeKey(key).value)
    ensures Parse(name + "+" + key, validate) == Ok(KeyCombo(ModifierMask(name).value, NormalizeKey(key).value, false))
  {
    hide ModifierMask, NormalizeKey, IsKnownKey, Trim;
    var mask := ModifierMask(name).value;
    var text := name + "+" + key;
    ModifierIsPlain(name);
    assert text[0] == name[0] && text[|text| - 1] == key[|key| - 1] && key[|key| - 1] in key;
    TrimOfTight(text);
    ScanTyped(name, key, 0);
    assert "" + key == key;
    ScanKey("", key, mask);
    assert key[0] in key;
    TrimOfTight(key);
  }

  lemma DirectionsAreKnown(word: string)
    requires word in {"left", "right", "up", "down"}
    ensures IsKnownKey(Upper(word))
  {
    Directions();
    assert Upper(word) in EditingKeys;
    hide EditingKeys;
  }

  lemma WordIsAKey(value: string)
    requires value != [] && IsWord(Lower(value)) && ModifierOf(Lower(value)) == None
    ensures IsKey(value)
  {
    hide ModifierOf, IsWord, NormalizeKey, NormalizeKeyName, NoWhitespace;
    WordsAreNamed(value);
  }

  lemma ArrowIsAKey(value: string, word: string)
    requires word in {"left", "right", "up", "down"} && IsArrow(Lower(value), word)
    ensures IsKey(value)
  {
    hide ArrowOf, ModifierOf, IsWord, IsKey, IsArrow, Lower;
    ArrowIsListed(Lower(value), word);
    ArrowsAreNoModifiers(Lower(value));
    NamesAreWords(Lower(value));
    WordIsAKey(value);
  }

  /** `ctrl+leftarrow` and everything like it. */
  lemma ModifierAndArrow(name: string, value: string, word: string, validate: bool)
    requires ModifierMask(name).Some?
    requires word in {"left", "right", "up", "down"} && IsArrow(Lower(value), word)
    ensures Parse(name + "+" + value, validate) == Ok(KeyCombo(ModifierMask(name).value, Upper(word), false))
  {
    hide Parse, ModifierOf, NormalizeKey, IsKnownKey, IsArrow, Upper, Lower;
    ArrowKeys(value, word);
    ArrowIsAKey(value, word);
    DirectionsAreKnown(word);
    ModifierAndKey(name, value, validate);
  }

  // ---- at inputs --------------------------------------------------------------------------------------------

  /** Abbreviations and second names, in any case. */
  lemma SecondNames(value: string)
    ensures Lower(value) in {"esc", "escape"} ==> NormalizeKey(value) == Ok("ESCAPE")
    ensures Lower(value) in {"del", "delete"} ==> NormalizeKey(value) == Ok("DELETE")
    ensures Lower(value) in {"ins", "insert"} ==> NormalizeKey(value) == Ok("INSERT")
    ensures Lower(value) in {"enter", "return"} ==> NormalizeKey(value) == Ok("RETURN")
    ensures Lower(value) in {"tab", "iso_left_tab"} ==> NormalizeKey(value) == Ok("TAB")
    ensures Lower(value) in {"space", "spacebar"} ==> NormalizeKey(value) == Ok("SPACE")
  {
    AbbreviatedKeys();
    NamedTwice();
    hide NormalizeKey, EditingKeyOf, Lower;
    if EditingKeyOf(Lower(value)).Some? {
      EditingKeyValues(value, EditingKeyOf(Lower(value)).value);
    }
  }

  lemma PageNames(value: string)
    ensures Lower(value) in {"pgup", "pageup", "page_up", "prior"} ==> NormalizeKey(value) == Ok("PAGE_UP")
    ensures Lower(value) in {"pgdown", "pagedown", "page_down", "next"} ==> NormalizeKey(value) == Ok("PAGE_DOWN")
    ensures Lower(value) in {"kp_page_up", "kp_prior"} ==> NormalizeKey(value) == Ok("KP_PAGE_UP")
    ensures Lower(value) in {"kp_page_down", "kp_next"} ==> NormalizeKey(value) == Ok("KP_PAGE_DOWN")
    ensures Lower(value) in {"kp_enter", "kp_return"} ==> NormalizeKey(value) == Ok("KP_ENTER")
  {
    PagesUp();
    PagesDown();
    NamedOnce();
    hide NormalizeKey, EditingKeyOf, Lower;
    if EditingKeyOf(Lower(value)).Some? {
      EditingKeyValues(value, EditingKeyOf(Lower(value)).value);
    }
  }

  /** A modifier's other names stand for the name that is printed. */
  lemma ModifierAliases(value: string)
    ensures Lower(value) in {"ctrl", "control", "ctl"} ==> ModifierMask(value) == ModifierMask("CTRL")
    ensures Lower(value) in {"alt", "mod1"} ==> ModifierMask(value) == ModifierMask("ALT")
    ensures Lower(value) in {"super", "meta", "win", "mod4"} ==> ModifierMask(value) == ModifierMask("SUPER")
    ensures Lower(value) in {"caps", "capslock", "lock"} ==> ModifierMask(value) == ModifierMask("CAPS")
    ensures Lower(value) in {"mod2", "num", "numlock"} ==> ModifierMask(value) == ModifierMask("MOD2")
    ensures Lower(value) in {"mod3", "hyper"} ==> ModifierMask(value) == ModifierMask("MOD3")
    ensures Lower(value) in {"mod5", "altgr", "iso_level3_shift"} ==> ModifierMask(value) == ModifierMask("MOD5")
  {
    LowerNames();
    NamedBits();
    ModifierBits();
    ShiftAndControlNames();
    AltAndSuperNames();
    LockAndLevelNames();
    HyperName();
    hide ModifierOf, Lower;
  }

  lemma NextPrinted(k: nat, plus: string)
    requires k < 8
    ensures Prefix(255, k, plus) == Name(k) + plus + Prefix(255, k + 1, plus)
  {
    assert Has(255, k);
  }

  /** All modifiers are printed in one order. */
  lemma PrintedInOrder(key: string)
    ensures Compact(KeyCombo(255, key, false)) ==
            "CTRL+" + ("ALT+" + ("SHIFT+" + ("SUPER+" + ("CAPS+" + ("MOD2+" + ("MOD3+" + ("MOD5+" + key)))))))
  {
    hide Prefix;
    NextPrinted(0, "+"); NextPrinted(1, "+"); NextPrinted(2, "+"); NextPrinted(3, "+");
    NextPrinted(4, "+"); NextPrinted(5, "+"); NextPrinted(6, "+"); NextPrinted(7, "+");
    NoMorePrefix(255, "+");
    NamesPrinted();
  }

  lemma NamesPrinted()
    ensures Name(0) + "+" == "CTRL+" && Name(1) + "+" == "ALT+" && Name(2) + "+" == "SHIFT+"
    ensures Name(3) + "+" == "SUPER+" && Name(4) + "+" == "CAPS+" && Name(5) + "+" == "MOD2+"
    ensures Name(6) + "+" == "MOD3+" && Name(7) + "+" == "MOD5+"
  {
  }

  lemma LeftArrowTyped()
    ensures Lower("leftarrow") == "left" + "arrow" && Lower("ctrl") == "ctrl" && Upper("left") == "LEFT"
    ensures "ctrl" + "+" + "leftarrow" == "ctrl+leftarrow"
  {
  }

  lemma ControlLeftArrow()
    ensures Parse("ctrl+leftarrow", true) == Ok(KeyCombo(4, "LEFT", false))
  {
    LeftArrowTyped();
    ModifierBits();
    ShiftAndControlNames();
    hide Parse, Lower, Upper, ModifierOf, ArrowOf;
    ModifierAndArrow("ctrl", "leftarrow", "left", true);
  }

  lemma PageUpTyped()
    ensures Lower("PgUp") == "pgup" && Lower("Win") == "win" && "Win" + "+" + "PgUp" == "Win+PgUp"
  {
  }

  lemma WinPageUp()
    ensures Parse("Win+PgUp", true) == Ok(KeyCombo(64, "PAGE_UP", false))
  {
    PageUpTyped();
    PageNames("PgUp");
    ModifierBits();
    AltAndSuperNames();
    PageUpIsAKey();
    hide Parse, Lower, ModifierOf, NormalizeKey, IsKey, IsKnownKey;
    ModifierAndKey("Win", "PgUp", true);
  }

  lemma PageUpIsAWord()
    ensures IsWord("pgup") && ModifierOf("pgup") == None
  {
  }

  lemma PageUpIsAKey()
    ensures IsKey("PgUp") && IsKnownKey("PAGE_UP")
  {
    PageUpTyped();
    PageUpIsAWord();
    assert IsPaging("PAGE_UP", "page_up");
    hide ModifierOf, IsKnownKey, IsWord, IsPaging, IsCursor, IsLine, IsEditing, IsKeypad, Lower, IsKey;
    WordIsAKey("PgUp");
    FoldedKeysAreKnown("PAGE_UP", "page_up");
  }
}
