/** The names of keys and modifiers, and the spelling each is folded into. */
module KeyNames {
  import opened Wrappers
  import opened Text
  import opened Decimal

  // ---- modifiers --------------------------------------------------------------------------------

  function ModifierOf(name: string): Option<bv8> {
    if name == "ctrl" || name == "control" || name == "ctl" then Some(4)
    else if name == "alt" || name == "mod1" then Some(8)
    else if name == "shift" then Some(1)
    else if name == "super" || name == "meta" || name == "win" || name == "mod4" then Some(64)
    else if name == "caps" || name == "capslock" || name == "lock" then Some(2)
    else if name == "mod2" || name == "num" || name == "numlock" then Some(16)
    else if name == "mod3" || name == "hyper" then Some(32)
    else if name == "mod5" || name == "altgr" || name == "iso_level3_shift" then Some(128)
    else None
  }

  /** `modifier_mask`. */
  function ModifierMask(value: string): Option<bv8> {
    ModifierOf(Lower(value))
  }

  // ---- keys -----------------------------------------------------------------------------------------

  function ArrowOf(name: string): Option<string> {
    if name == "arrowleft" || name == "arrow_left" || name == "leftarrow" || name == "left_arrow"
    then Some("LEFT")
    else if name == "arrowright" || name == "arrow_right" || name == "rightarrow" || name == "right_arrow"
    then Some("RIGHT")
    else if name == "arrowup" || name == "arrow_up" || name == "uparrow" || name == "up_arrow"
    then Some("UP")
    else if name == "arrowdown" || name == "arrow_down" || name == "downarrow" || name == "down_arrow"
    then Some("DOWN")
    else None
  }

  function EditingKeyOf(name: string): Option<string> {
    if name == "enter" || name == "return" then Some("RETURN")
    else if name == "kp_enter" || name == "kp_return" then Some("KP_ENTER")
    else if name == "kp_prior" || name == "kp_page_up" then Some("KP_PAGE_UP")
    else if name == "kp_next" || name == "kp_page_down" then Some("KP_PAGE_DOWN")
    else if name == "esc" || name == "escape" then Some("ESCAPE")
    else if name == "spacebar" || name == "space" then Some("SPACE")
    else if name == "pgup" || name == "pageup" || name == "page_up" || name == "prior" then Some("PAGE_UP")
    else if name == "pgdown" || name == "pagedown" || name == "page_down" || name == "next"
    then Some("PAGE_DOWN")
    else if name == "backspace" then Some("BACKSPACE")
    else if name == "delete" || name == "del" then Some("DELETE")
    else if name == "insert" || name == "ins" then Some("INSERT")
    else if name == "home" then Some("HOME")
    else if name == "end" then Some("END")
    else if name == "tab" || name == "iso_left_tab" then Some("TAB")
    else None
  }

  function SymbolOf(name: string): Option<char> {
    if name == "exclam" then Some('!')
    else if name == "at" then Some('@')
    else if name == "numbersign" then Some('#')
    else if name == "dollar" then Some('$')
    else if name == "percent" then Some('%')
    else if name == "asciicircum" then Some('^')
    else if name == "ampersand" then Some('&')
    else if name == "asterisk" then Some('*')
    else if name == "parenleft" then Some('(')
    else if name == "parenright" then Some(')')
    else if name == "minus" then Some('-')
    else if name == "underscore" then Some('_')
    else if name == "equal" then Some('=')
    else if name == "plus" then Some('+')
    else if name == "bracketleft" then Some('[')
    else if name == "bracketright" then Some(']')
    else if name == "braceleft" then Some('{')
    else if name == "braceright" then Some('}')
    else if name == "semicolon" then Some(';')
    else if name == "colon" then Some(':')
    else if name == "apostrophe" then Some('\'')
    else if name == "quotedbl" then Some('"')
    else if name == "grave" then Some('`')
    else if name == "asciitilde" then Some('~')
    else if name == "backslash" then Some('\\')
    else if name == "bar" then Some('|')
    else if name == "comma" then Some(',')
    else if name == "less" then Some('<')
    else if name == "period" then Some('.')
    else if name == "greater" then Some('>')
    else if name == "slash" then Some('/')
    else if name == "question" then Some('?')
    else None
  }

  /** `normalize_key_str`. */
  function NormalizeKeyName(value: string): string {
    var name := Lower(value);
    if ArrowOf(name).Some? then ArrowOf(name).value
    else if EditingKeyOf(name).Some? then EditingKeyOf(name).value
    else if SymbolOf(name).Some? then [SymbolOf(name).value]
    else Upper(value)
  }

  /** Why a combination is rejected. */
  datatype ParseError =
    | Empty
    | RepeatedModifier
    | ModifierOnly
    | SeveralKeys
    | KeyHasWhitespace
    | BadKeycode
    | UnknownKey

  datatype Result<+T> = Ok(value: T) | Err(error: ParseError)

  predicate IsKeycode(value: string) {
    |value| >= 5 && Lower(value)[..5] == "code:"
  }

  /** `normalize_key`. */
  function NormalizeKey(value: string): Result<string> {
    if !NoWhitespace(value) then Err(KeyHasWhitespace)
    else if IsKeycode(value) then
      if value[5..] == [] || !AllDigits(value[5..]) then Err(BadKeycode) else Ok("CODE:" + value[5..])
    else Ok(NormalizeKeyName(value))
  }

  // ---- the names that keys are folded into -----------------------------------------------------------

  predicate IsCursor(name: string, lower: string) {
    || (name == "LEFT" && lower == "left")
    || (name == "RIGHT" && lower == "right")
    || (name == "UP" && lower == "up")
    || (name == "DOWN" && lower == "down")
  }

  predicate IsLine(name: string, lower: string) {
    || (name == "HOME" && lower == "home")
    || (name == "END" && lower == "end")
    || (name == "TAB" && lower == "tab")
    || (name == "SPACE" && lower == "space")
    || (name == "RETURN" && lower == "return")
  }

  predicate IsEditing(name: string, lower: string) {
    || (name == "ESCAPE" && lower == "escape")
    || (name == "DELETE" && lower == "delete")
    || (name == "INSERT" && lower == "insert")
  }

  predicate IsPaging(name: string, lower: string) {
    || (name == "BACKSPACE" && lower == "backspace")
    || (name == "PAGE_UP" && lower == "page_up")
    || (name == "PAGE_DOWN" && lower == "page_down")
  }

  predicate IsKeypad(name: string, lower: string) {
    || (name == "KP_ENTER" && lower == "kp_enter")
    || (name == "KP_PAGE_UP" && lower == "kp_page_up")
    || (name == "KP_PAGE_DOWN" && lower == "kp_page_down")
  }

  /** A key that the table lists under its own name too; the cursor keys it does not. */
  predicate IsNamed(name: string, lower: string) {
    IsLine(name, lower) || IsEditing(name, lower) || IsPaging(name, lower) || IsKeypad(name, lower)
  }

  /** A name keys are folded into, and how it looks in lower case. */
  predicate IsFolded(name: string, lower: string) {
    IsCursor(name, lower) || IsNamed(name, lower)
  }

  lemma CursorCase(name: string, lower: string)
    requires IsCursor(name, lower)
    ensures Lower(name) == lower && Upper(name) == name && |name| >= 2
  {
  }

  lemma LineCase(name: string, lower: string)
    requires IsLine(name, lower)
    ensures Lower(name) == lower && Upper(name) == name && |name| >= 2
  {
  }

  lemma EditingCase(name: string, lower: string)
    requires IsEditing(name, lower)
    ensures Lower(name) == lower && Upper(name) == name && |name| >= 2
  {
  }

  lemma PagingCase(name: string, lower: string)
    requires IsPaging(name, lower)
    ensures Lower(name) == lower && Upper(name) == name && |name| >= 2
  {
  }

  lemma KeypadCase(name: string, lower: string)
    requires IsKeypad(name, lower)
    ensures Lower(name) == lower && Upper(name) == name && |name| >= 2
  {
  }

  lemma CaseOfFolded(name: string, lower: string)
    requires IsFolded(name, lower)
    ensures Lower(name) == lower && Upper(name) == name && |name| >= 2
  {
    hide IsCursor, IsLine, IsEditing, IsPaging, IsKeypad, Lower, Upper;
    if IsCursor(name, lower) {
      CursorCase(name, lower);
    } else if IsLine(name, lower) {
      LineCase(name, lower);
    } else if IsEditing(name, lower) {
      EditingCase(name, lower);
    } else if IsPaging(name, lower) {
      PagingCase(name, lower);
    } else {
      KeypadCase(name, lower);
    }
  }

  lemma FoldedIsNoArrow(name: string, lower: string)
    requires IsFolded(name, lower)
    ensures ArrowOf(lower) == None
  {
  }

  lemma NamedIsItself(name: string, lower: string)
    requires IsNamed(name, lower)
    ensures EditingKeyOf(lower) == Some(name)
  {
  }

  lemma CursorIsNoEditingKey(name: string, lower: string)
    requires IsCursor(name, lower)
    ensures EditingKeyOf(lower) == None
  {
  }

  lemma CursorIsNoSymbol(name: string, lower: string)
    requires IsCursor(name, lower)
    ensures SymbolOf(lower) == None
  {
  }

  lemma CursorIsNoModifier(name: string, lower: string)
    requires IsCursor(name, lower)
    ensures ModifierOf(lower) == None && lower[0] != 'c'
  {
  }

  lemma NamedIsNoModifier(name: string, lower: string)
    requires IsNamed(name, lower)
    ensures ModifierOf(lower) == None && lower[0] != 'c'
  {
  }

  lemma FoldedFacts(name: string, lower: string)
    requires IsFolded(name, lower)
    ensures Lower(name) == lower && Upper(name) == name && |name| >= 2
    ensures ModifierOf(lower) == None && lower[0] != 'c'
    ensures ArrowOf(lower) == None
    ensures EditingKeyOf(lower) == Some(name) || (EditingKeyOf(lower) == None && SymbolOf(lower) == None)
  {
    hide IsCursor, IsLine, IsEditing, IsPaging, IsKeypad, Lower, Upper, ModifierOf, ArrowOf, SymbolOf, EditingKeyOf;
    CaseOfFolded(name, lower);
    FoldedIsNoArrow(name, lower);
    if IsCursor(name, lower) {
      CursorIsNoEditingKey(name, lower);
      CursorIsNoSymbol(name, lower);
      CursorIsNoModifier(name, lower);
    } else {
      NamedIsItself(name, lower);
      NamedIsNoModifier(name, lower);
    }
  }

  lemma ArrowIsFolded(name: string)
    requires ArrowOf(name).Some?
    ensures exists lower :: IsFolded(ArrowOf(name).value, lower)
  {
    var key := ArrowOf(name).value;
    var lower := if key == "LEFT" then "left" else if key == "RIGHT" then "right"
      else if key == "UP" then "up" else "down";
    assert IsCursor(key, lower);
    assert IsFolded(key, lower);
  }

  lemma EditingKeyIsFolded(name: string)
    requires EditingKeyOf(name).Some?
    ensures exists lower :: IsFolded(EditingKeyOf(name).value, lower)
  {
    var key := EditingKeyOf(name).value;
    var lower :=
      if key == "RETURN" then "return" else if key == "KP_ENTER" then "kp_enter"
      else if key == "KP_PAGE_UP" then "kp_page_up" else if key == "KP_PAGE_DOWN" then "kp_page_down"
      else if key == "ESCAPE" then "escape" else if key == "SPACE" then "space"
      else if key == "PAGE_UP" then "page_up" else if key == "PAGE_DOWN" then "page_down"
      else if key == "BACKSPACE" then "backspace" else if key == "DELETE" then "delete"
      else if key == "INSERT" then "insert" else if key == "HOME" then "home"
      else if key == "END" then "end" else "tab";
    assert IsFolded(key, lower);
  }

  /** Symbols have names of at least two letters and no letter among them. */
  lemma SymbolFacts(name: string)
    ensures SymbolOf(name).Some? ==>
              |name| >= 2 && var c := SymbolOf(name).value; LowerChar(c) == c && UpperChar(c) == c && !IsWhitespace(c)
  {
    hide SymbolOf;
    SymbolNameIsLong(name);
    SymbolIsNoLetter(name);
  }

  lemma SymbolNameIsLong(name: string)
    ensures SymbolOf(name).Some? ==> |name| >= 2
  {
  }

  lemma SymbolIsNoLetter(name: string)
    ensures SymbolOf(name).Some? ==>
              var c := SymbolOf(name).value; '!' <= c <= '~' && LowerChar(c) == c && UpperChar(c) == c
  {
  }

  lemma OtherNamesAreLong(name: string)
    ensures ArrowOf(name).Some? || EditingKeyOf(name).Some? || ModifierOf(name).Some? ==> |name| >= 2
  {
  }

  lemma ModifierNames(name: string)
    ensures ModifierOf(name).Some? ==> forall c :: c in name ==> c != ':' && c != '+' && !IsWhitespace(c)
  {
  }

  // ---- normalising twice -----------------------------------------------------------------------------

  /** What a combination's key may be: no modifier, and a plus sign only by itself. */
  predicate IsKey(key: string) {
    && key != [] && NoWhitespace(key) && ModifierMask(key) == None
    && ('+' in key ==> key == "+")
  }

  lemma KeycodeStart(value: string)
    ensures IsKeycode(value) ==> Lower(value)[0] == 'c'
  {
    if IsKeycode(value) {
      assert Lower(value)[..5][0] == Lower(value)[0];
    }
  }

  lemma FoldedKey(name: string, lower: string)
    requires IsFolded(name, lower)
    ensures ModifierMask(name) == None && !IsKeycode(name) && NormalizeKeyName(name) == name
  {
    hide IsFolded, Lower, Upper, ModifierOf, ArrowOf, SymbolOf, EditingKeyOf;
    FoldedFacts(name, lower);
    KeycodeStart(name);
  }

  lemma SymbolKey(c: char)
    requires LowerChar(c) == c && UpperChar(c) == c
    ensures ModifierMask([c]) == None && NormalizeKeyName([c]) == [c]
  {
    hide ModifierOf, ArrowOf, SymbolOf, EditingKeyOf;
    assert Lower([c]) == [c] && Upper([c]) == [c];
    SymbolFacts([c]);
    OtherNamesAreLong([c]);
  }

  predicate IsPlain(name: string) {
    forall i | 0 <= i < |name| :: 'A' <= name[i] <= 'Z' || name[i] == '_'
  }

  lemma FoldedIsPlain(name: string, lower: string)
    requires IsFolded(name, lower)
    ensures IsPlain(name)
  {
  }

  lemma NamedKey(value: string)
    requires NoWhitespace(value) && !IsKeycode(value)
    ensures NoWhitespace(NormalizeKeyName(value)) && !IsKeycode(NormalizeKeyName(value))
    ensures NormalizeKeyName(NormalizeKeyName(value)) == NormalizeKeyName(value)
    ensures IsKey(value) ==> IsKey(NormalizeKeyName(value))
  {
    hide ModifierOf, ArrowOf, SymbolOf, EditingKeyOf, IsFolded;
    var name := Lower(value);
    if ArrowOf(name).Some? || EditingKeyOf(name).Some? {
      var key := NormalizeKeyName(value);
      if ArrowOf(name).Some? { ArrowIsFolded(name); } else { EditingKeyIsFolded(name); }
      var lower :| IsFolded(key, lower);
      FoldedKey(key, lower);
      FoldedFacts(key, lower);
      FoldedIsPlain(key, lower);
    } else if SymbolOf(name).Some? {
      SymbolFacts(name);
      SymbolKey(SymbolOf(name).value);
    } else {
      UpperOfLower(value);
      UpperKey(value);
    }
  }

  lemma UpperKey(value: string)
    requires NoWhitespace(value)
    ensures NoWhitespace(Upper(value))
    ensures IsKey(value) ==> IsKey(Upper(value))
  {
    hide ModifierOf;
    UpperOfLower(value);
    var key := Upper(value);
    forall c | c in key ensures !IsWhitespace(c) {
      var i :| 0 <= i < |key| && key[i] == c;
      assert key[i] == UpperChar(value[i]) && value[i] in value;
    }
    if '+' in key {
      var i :| 0 <= i < |key| && key[i] == '+';
      assert value[i] == '+';
    }
  }

  lemma KeycodeKey(value: string)
    requires IsKeycode(value) && value[5..] != [] && AllDigits(value[5..])
    ensures var key := "CODE:" + value[5..];
            IsKey(key) && NormalizeKey(key) == Ok(key)
  {
    hide ModifierOf, NormalizeKeyName;
    var key := "CODE:" + value[5..];
    assert key[5..] == value[5..];
    assert Lower(key)[..5] == "code:";
    assert Lower(key)[4] == ':' && ':' in Lower(key);
    ModifierNames(Lower(key));
    forall c | c in key ensures !IsWhitespace(c) && c != '+' {
      assert c in "CODE:" || c in value[5..];
    }
  }

  /** Normalising is idempotent, whatever is normalised; and it makes neither a modifier nor a
      second plus sign out of a key. */
  lemma NormalizingIsIdempotent(value: string)
    requires NormalizeKey(value).Ok?
    ensures NormalizeKey(NormalizeKey(value).value) == NormalizeKey(value)
    ensures IsKey(value) ==> IsKey(NormalizeKey(value).value)
  {
    hide NormalizeKeyName;
    if IsKeycode(value) {
      KeycodeKey(value);
    } else {
      NamedKey(value);
    }
  }
}
