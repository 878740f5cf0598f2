/** Parsing key combinations, and the two ways of printing them. */
module KeyCombos {
  import opened Wrappers
  import opened Text
  import opened Decimal
  import opened KeyNames

  datatype KeyCombo = KeyCombo(modifiers: bv8, key: string, alone: bool)

  // ---- known keys ---------------------------------------------------------------------------------

  const EditingKeys: set<string> := {
    "LEFT", "RIGHT", "UP", "DOWN", "RETURN", "ESCAPE", "SPACE", "TAB", "BACKSPACE", "DELETE",
    "INSERT", "HOME", "END", "PAGE_UP", "PAGE_DOWN"
  }

  const SystemKeys: set<string> := {
    "PRINT", "PAUSE", "BREAK", "SYS_REQ", "SCROLL_LOCK", "MENU", "CAPS_LOCK", "NUM_LOCK", "MULTI_KEY",
    "MODE_SWITCH", "HELP", "UNDO", "REDO", "FIND", "CANCEL", "SELECT", "EXECUTE", "CLEAR", "BEGIN",
    "LINEFEED"
  }

  const SidedKeys: set<string> := {
    "SHIFT_L", "SHIFT_R", "CONTROL_L", "CONTROL_R", "ALT_L", "ALT_R", "SUPER_L", "SUPER_R", "META_L",
    "META_R", "HYPER_L", "HYPER_R"
  }

  const KeypadKeys: set<string> := {
    "KP_ENTER", "KP_HOME", "KP_END", "KP_0", "KP_1", "KP_2", "KP_3", "KP_4", "KP_5", "KP_6", "KP_7",
    "KP_8", "KP_9", "KP_ADD", "KP_SUBTRACT", "KP_MULTIPLY", "KP_DIVIDE", "KP_EQUAL", "KP_DECIMAL",
    "KP_SEPARATOR", "KP_DELETE", "KP_INSERT", "KP_UP", "KP_DOWN", "KP_LEFT", "KP_RIGHT", "KP_BEGIN",
    "KP_SPACE", "KP_TAB", "KP_PAGE_UP", "KP_PAGE_DOWN", "KP_F1", "KP_F2", "KP_F3", "KP_F4"
  }

  const WheelKeys: set<string> := {"MOUSE_UP", "MOUSE_DOWN", "MOUSE_LEFT", "MOUSE_RIGHT"}

  const NamedKeys: set<string> := EditingKeys + SystemKeys + SidedKeys + KeypadKeys + WheelKeys

  predicate IsAlphanumeric(c: char) {
    'a' <= c <= 'z' || 'A' <= c <= 'Z' || IsDigit(c)
  }

  /** `is_known_key`, on a normalised key. */
  predicate IsKnownKey(key: string) {
    if |key| == 1 || key in NamedKeys || "CODE:" <= key then true
    else if "F" <= key then
      var number := ParseUnsigned(key[1..], 255);
      !("0" <= key[1..]) && number.Some? && 1 <= number.value <= 35
    else if "MOUSE:" <= key then key[6..] != [] && AllDigits(key[6..])
    else "XF86" <= key && key[4..] != [] && forall c :: c in key[4..] ==> IsAlphanumeric(c) || c == '_'
  }

  // ---- parsing --------------------------------------------------------------------------------------

  /** The modifiers read off the front, and what is left; or one of them twice. */
  datatype Scan = Repeated | Scanned(modifiers: bv8, remainder: string)

  function ScanModifiers(remainder: string, modifiers: bv8): Scan
    decreases |remainder|
  {
    match Find(remainder, '+')
    case None => Scanned(modifiers, remainder)
    case Some(i) =>
      var part := Trim(remainder[..i]);
      var mask := ModifierMask(part);
      if part == [] || mask.None? then Scanned(modifiers, remainder)
      else if modifiers & mask.value != 0 then Repeated
      else ScanModifiers(remainder[i + 1..], modifiers | mask.value)
  }

  /** What follows the modifiers: one key. */
  function ReadKey(text: string, validate: bool): Result<string> {
    var remainder := Trim(text);
    if remainder == [] || ModifierMask(remainder).Some? then Err(ModifierOnly)
    else if '+' in remainder && remainder != "+" then Err(SeveralKeys)
    else
      var key := NormalizeKey(remainder);
      if key.Ok? && validate && !IsKnownKey(key.value) then Err(UnknownKey) else key
  }

  function Finish(scan: Scan, validate: bool): Result<KeyCombo> {
    match scan
    case Repeated => Err(RepeatedModifier)
    case Scanned(modifiers, remainder) =>
      match ReadKey(remainder, validate)
      case Err(e) => Err(e)
      case Ok(key) => Ok(KeyCombo(modifiers, key, false))
  }

  function Parse(text: string, validate: bool): Result<KeyCombo> {
    if Trim(text) == [] then Err(Empty) else Finish(ScanModifiers(Trim(text), 0), validate)
  }

  /** `parse_combo`. */
  method ParseCombo(text: string, validate: bool) returns (result: Result<KeyCombo>)
    ensures result == Parse(text, validate)
  {
    hide ModifierMask, NormalizeKey, IsKnownKey, Trim, Find;
    var input := Trim(text);
    if input == [] {
      return Err(Empty);
    }
    var modifiers: bv8 := 0;
    var remainder := input;
    var scanning := true;
    while scanning
      invariant if scanning then ScanModifiers(remainder, modifiers) == ScanModifiers(input, 0)
                else ScanModifiers(input, 0) == Scanned(modifiers, remainder)
      decreases scanning, |remainder|
    {
      var plus := Find(remainder, '+');
      if plus.None? {
        scanning := false;
      } else {
        var part := Trim(remainder[..plus.value]);
        var mask := ModifierMask(part);
        if part == [] || mask.None? {
          scanning := false;
        } else if modifiers & mask.value != 0 {
          return Err(RepeatedModifier);
        } else {
          modifiers := modifiers | mask.value;
          remainder := remainder[plus.value + 1..];
        }
      }
    }
    hide ScanModifiers;
    var rest := Trim(remainder);
    if rest == [] || ModifierMask(rest).Some? {
      return Err(ModifierOnly);
    }
    if '+' in rest && rest != "+" {
      return Err(SeveralKeys);
    }
    var key := NormalizeKey(rest);
    if key.Err? {
      return Err(key.error);
    }
    if validate && !IsKnownKey(key.value) {
      return Err(UnknownKey);
    }
    return Ok(KeyCombo(modifiers, key.value, false));
  }

  // ---- printing -------------------------------------------------------------------------------------

  /** The modifiers in the order they are printed. */
  function Bit(k: nat): bv8
    requires k < 8
  {
    if k == 0 then 4 else if k == 1 then 8 else if k == 2 then 1 else if k == 3 then 64
    else if k == 4 then 2 else if k == 5 then 16 else if k == 6 then 32 else 128
  }

  function Name(k: nat): string
    requires k < 8
  {
    if k == 0 then "CTRL" else if k == 1 then "ALT" else if k == 2 then "SHIFT" else if k == 3 then "SUPER"
    else if k == 4 then "CAPS" else if k == 5 then "MOD2" else if k == 6 then "MOD3" else "MOD5"
  }

  predicate Has(modifiers: bv8, k: nat)
    requires k < 8
  {
    modifiers & Bit(k) != 0
  }

  /** The modifiers from the `k`th on, each followed by `plus`. */
  function Prefix(modifiers: bv8, k: nat, plus: string): string
    requires k <= 8
    decreases 8 - k
  {
    if k == 8 then []
    else (if Has(modifiers, k) then Name(k) + plus else []) + Prefix(modifiers, k + 1, plus)
  }

  lemma PrefixStep(modifiers: bv8, k: nat, plus: string, before: string)
    requires k < 8
    ensures before + Prefix(modifiers, k, plus) ==
            if Has(modifiers, k) then before + Name(k) + plus + Prefix(modifiers, k + 1, plus)
            else before + Prefix(modifiers, k + 1, plus)
  {
    hide Has, Name;
    var rest := Prefix(modifiers, k + 1, plus);
    if Has(modifiers, k) {
      assert before + (Name(k) + plus + rest) == before + Name(k) + plus + rest;
    }
  }

  lemma NoMorePrefix(modifiers: bv8, plus: string)
    ensures Prefix(modifiers, 8, plus) == []
  {
  }

  function Printed(combo: KeyCombo, plus: string, suffix: string): string {
    Prefix(combo.modifiers, 0, plus) + combo.key + if combo.alone then suffix else []
  }

  function Compact(combo: KeyCombo): string {
    Printed(combo, "+", "(alone)")
  }

  function Display(combo: KeyCombo): string {
    Printed(combo, " + ", " (alone)")
  }

  /** `compact_display`. */
  method PrintCompact(combo: KeyCombo) returns (display: string)
    ensures display == Compact(combo)
  {
    hide Has, Name, Prefix;
    display := [];
    var k := 0;
    while k < 8
      invariant 0 <= k <= 8
      invariant display + Prefix(combo.modifiers, k, "+") == Prefix(combo.modifiers, 0, "+")
    {
      PrefixStep(combo.modifiers, k, "+", display);
      if Has(combo.modifiers, k) {
        display := display + Name(k);
        display := display + "+";
      }
      k := k + 1;
    }
    NoMorePrefix(combo.modifiers, "+");
    display := display + combo.key;
    if combo.alone {
      display := display + "(alone)";
    }
  }

  /** `Display::fmt`: a separator goes before every modifier but the first, and before the key. */
  method PrintDisplay(combo: KeyCombo) returns (display: string)
    ensures display == Display(combo)
  {
    hide Has, Name, Prefix;
    display := [];
    var wroteModifier := false;
    var k := 0;
    while k < 8
      invariant 0 <= k <= 8
      invariant !wroteModifier ==> display == []
      invariant display + (if wroteModifier then " + " else "") + Prefix(combo.modifiers, k, " + ")
             == Prefix(combo.modifiers, 0, " + ")
    {
      PrefixStep(combo.modifiers, k, " + ", display + if wroteModifier then " + " else "");
      if Has(combo.modifiers, k) {
        if wroteModifier {
          display := display + " + ";
        }
        display := display + Name(k);
        wroteModifier := true;
      }
      k := k + 1;
    }
    NoMorePrefix(combo.modifiers, " + ");
    if wroteModifier {
      display := display + " + ";
    }
    display := display + combo.key;
    if combo.alone {
      display := display + " (alone)";
    }
  }

  // ---- what is printed is read back -------------------------------------------------------------------

  lemma NameFacts(k: nat)
    requires k < 8
    ensures ModifierMask(Name(k)) == Some(Bit(k))
    ensures Name(k) != [] && Tight(Name(k)) && NoWhitespace(Name(k)) && '+' !in Name(k)
  {
    hide Lower, ModifierOf;
    LowerNames();
    NamedBits();
    PlainNames();
    assert Name(k)[0] in Name(k) && Name(k)[|Name(k)| - 1] in Name(k);
  }

  lemma NamedBits()
    ensures ModifierOf("ctrl") == Some(4) && ModifierOf("alt") == Some(8) && ModifierOf("shift") == Some(1)
    ensures ModifierOf("super") == Some(64) && ModifierOf("caps") == Some(2) && ModifierOf("mod2") == Some(16)
    ensures ModifierOf("mod3") == Some(32) && ModifierOf("mod5") == Some(128)
  {
  }

  lemma LowerNames()
    ensures Lower("CTRL") == "ctrl" && Lower("ALT") == "alt" && Lower("SHIFT") == "shift"
    ensures Lower("SUPER") == "super" && Lower("CAPS") == "caps" && Lower("MOD2") == "mod2"
    ensures Lower("MOD3") == "mod3" && Lower("MOD5") == "mod5"
  {
  }

  lemma PlainNames()
    ensures forall k | 0 <= k < 8 :: forall c :: c in Name(k) ==> 'A' <= c <= 'Z' || IsDigit(c)
  {
  }

  /** The bits of the modifiers before the `k`th. */
  function Before(k: nat): bv8
    requires k <= 8
  {
    if k == 0 then 0 else Before(k - 1) | Bit(k - 1)
  }

  lemma BeforeBits(k: nat)
    requires k <= 8
    ensures Before(k) == if k == 0 then 0 else if k == 1 then 4 else if k == 2 then 12 else if k == 3 then 13
                    else if k == 4 then 77 else if k == 5 then 79 else if k == 6 then 95 else if k == 7 then 127 else 255
  {
    if k > 0 { BeforeBits(k - 1); }
  }

  /** The part of a mask that has been read when the first `k` names have. */
  function Seen(modifiers: bv8, k: nat): bv8
    requires k <= 8
  {
    modifiers & Before(k)
  }

  function With(seen: bv8, k: nat): bv8
    requires k < 8
  {
    seen | Bit(k)
  }

  lemma SeeNext(modifiers: bv8, k: nat)
    requires k < 8
    ensures !Has(Seen(modifiers, k), k)
    ensures Seen(modifiers, k + 1) == if Has(modifiers, k) then With(Seen(modifiers, k), k) else Seen(modifiers, k)
  {
    hide Before;
    BeforeBits(k);
    BeforeBits(k + 1);
  }

  lemma SeenEnds(modifiers: bv8)
    ensures Seen(modifiers, 0) == 0 && Seen(modifiers, 8) == modifiers
  {
    BeforeBits(8);
  }

  predicate IsGap(gap: string) {
    gap == "" || gap == " "
  }

  lemma TrimStartGap(before: string, text: string)
    requires IsGap(before) && (text == [] || !IsWhitespace(text[0]))
    ensures TrimStart(before + text) == text
  {
    assert TrimStart(text) == text;
    if before == " " {
      assert (before + text)[1..] == text;
    } else {
      assert before + text == text;
    }
  }

  lemma TrimEndGap(text: string, after: string)
    requires IsGap(after) && (text == [] || !IsWhitespace(text[|text| - 1]))
    ensures TrimEnd(text + after) == text
  {
    assert TrimEnd(text) == text;
    if after == " " {
      assert (text + after)[..|text|] == text;
    } else {
      assert text + after == text;
    }
  }

  lemma TrimGaps(before: string, text: string, after: string)
    requires IsGap(before) && IsGap(after) && Tight(text) && (text == [] ==> after == [])
    ensures Trim(before + text + after) == text
  {
    hide TrimStart, TrimEnd;
    assert before + text + after == before + (text + after);
    TrimStartGap(before, text + after);
    TrimEndGap(text, after);
  }

  lemma ScanOne(before: string, k: nat, gap: string, rest: string, seen: bv8)
    requires k < 8 && IsGap(before) && IsGap(gap) && !Has(seen, k)
    ensures ScanModifiers(before + Name(k) + gap + "+" + rest, seen) == ScanModifiers(rest, With(seen, k))
  {
    hide Trim, ModifierMask, Name, Bit;
    var part := before + Name(k) + gap;
    var s := part + ['+'] + rest;
    NameFacts(k);
    FindAt(part, '+', rest);
    TrimGaps(before, Name(k), gap);
    assert s[..|part|] == part && s[|part| + 1..] == rest;
    assert before + Name(k) + gap + "+" + rest == s;
  }

  lemma ScanKey(before: string, key: string, modifiers: bv8)
    requires IsGap(before) && IsKey(key)
    ensures ScanModifiers(before + key, modifiers) == Scanned(modifiers, before + key)
  {
    hide ModifierMask;
    var s := before + key;
    if key == "+" {
      FindAt(before, '+', "");
      assert s == before + ['+'] + "";
      assert s[..|before|] == before;
      TrimGaps(before, "", "");
      assert before + "" + "" == before;
    } else {
      assert '+' !in s;
    }
  }

  lemma {:induction false} ScanPrinted(before: string, modifiers: bv8, k: nat, gap: string, key: string)
      returns (left: string)
    requires k <= 8 && IsGap(before) && IsGap(gap) && IsKey(key)
    ensures IsGap(left)
    ensures ScanModifiers(before + Prefix(modifiers, k, gap + "+" + gap) + key, Seen(modifiers, k))
         == Scanned(modifiers, left + key)
    decreases 8 - k
  {
    hide ScanModifiers, Seen, Has, With, Name, IsKey, Prefix;
    var plus := gap + "+" + gap;
    if k == 8 {
      SeenEnds(modifiers);
      NoMorePrefix(modifiers, plus);
      ScanKey(before, key, modifiers);
      left := before;
      assert before + [] + key == before + key;
    } else {
      SeeNext(modifiers, k);
      PrefixShape(before, modifiers, k, gap, key);
      if Has(modifiers, k) {
        left := ScanPrinted(gap, modifiers, k + 1, gap, key);
        ScanOne(before, k, gap, gap + Prefix(modifiers, k + 1, plus) + key, Seen(modifiers, k));
      } else {
        left := ScanPrinted(before, modifiers, k + 1, gap, key);
      }
    }
  }

  lemma PrefixShape(before: string, modifiers: bv8, k: nat, gap: string, key: string)
    requires k < 8
    ensures var plus := gap + "+" + gap;
            var rest := Prefix(modifiers, k + 1, plus);
            before + Prefix(modifiers, k, plus) + key ==
            if Has(modifiers, k) then before + Name(k) + gap + "+" + (gap + rest + key)
            else before + rest + key
  {
    hide Has, Name;
    var plus := gap + "+" + gap;
    PrefixStep(modifiers, k, plus, before);
    hide Prefix;
    var rest := Prefix(modifiers, k + 1, plus);
    assert before + Name(k) + plus + rest + key == before + Name(k) + gap + "+" + (gap + rest + key);
  }

  lemma PrintedIsTight(combo: KeyCombo, plus: string)
    requires IsKey(combo.key) && !combo.alone
    ensures Printed(combo, plus, []) != [] && Tight(Printed(combo, plus, []))
  {
    var printed := Printed(combo, plus, []);
    FirstOfPrefix(combo.modifiers, 0, plus);
    hide Prefix;
    assert printed == Prefix(combo.modifiers, 0, plus) + combo.key;
    assert printed[|printed| - 1] == combo.key[|combo.key| - 1];
    assert combo.key[0] in combo.key && combo.key[|combo.key| - 1] in combo.key;
  }

  lemma {:induction false} FirstOfPrefix(modifiers: bv8, k: nat, plus: string)
    requires k <= 8
    ensures Prefix(modifiers, k, plus) != [] ==> !IsWhitespace(Prefix(modifiers, k, plus)[0])
    decreases 8 - k
  {
    hide Has;
    if k < 8 {
      PlainNames();
      FirstOfPrefix(modifiers, k + 1, plus);
      assert Name(k)[0] in Name(k);
    }
  }

  /** What the parser accepts has a key that stays as it is. */
  lemma AcceptedKey(text: string, validate: bool)
    requires Parse(text, validate).Ok?
    ensures var combo := Parse(text, validate).value;
            && !combo.alone && IsKey(combo.key)
            && NormalizeKey(combo.key) == Ok(combo.key)
            && (validate ==> IsKnownKey(combo.key))
  {
    hide NormalizeKey, IsKnownKey;
    var scan := ScanModifiers(Trim(text), 0);
    var remainder := Trim(scan.remainder);
    AcceptedHasNoWhitespace(remainder);
    NormalizingIsIdempotent(remainder);
  }

  lemma AcceptedHasNoWhitespace(value: string)
    requires NormalizeKey(value).Ok?
    ensures NoWhitespace(value)
  {
  }

  lemma KeyReadsBack(before: string, key: string, validate: bool)
    requires IsGap(before) && IsKey(key) && NormalizeKey(key) == Ok(key)
    requires validate ==> IsKnownKey(key)
    ensures ReadKey(before + key, validate) == Ok(key)
  {
    hide NormalizeKey, IsKnownKey, ModifierMask, Trim;
    assert key[0] in key && key[|key| - 1] in key;
    TrimGaps(before, key, "");
    assert before + key + "" == before + key;
  }

  lemma PrintedReadsBack(combo: KeyCombo, gap: string, suffix: string, validate: bool)
    requires !combo.alone && IsKey(combo.key) && IsGap(gap) && NormalizeKey(combo.key) == Ok(combo.key)
    requires validate ==> IsKnownKey(combo.key)
    ensures Parse(Printed(combo, gap + "+" + gap, suffix), validate) == Ok(combo)
  {
    hide NormalizeKey, IsKnownKey, IsKey, Trim, Prefix, ReadKey, ScanModifiers;
    var plus := gap + "+" + gap;
    var printed := Printed(combo, plus, []);
    assert Printed(combo, plus, suffix) == printed;
    PrintedIsTight(combo, plus);
    TrimOfTight(printed);
    var left := ScanPrinted("", combo.modifiers, 0, gap, combo.key);
    assert "" + Prefix(combo.modifiers, 0, plus) + combo.key == printed;
    SeenEnds(combo.modifiers);
    KeyReadsBack(left, combo.key, validate);
  }

  /** Whatever is accepted, both of its printed forms are accepted and mean the same. */
  lemma PrintThenParse(text: string, validate: bool)
    requires Parse(text, validate).Ok?
    ensures var combo := Parse(text, validate).value;
            && Parse(Compact(combo), validate) == Ok(combo) && Parse(Display(combo), validate) == Ok(combo)
            && Parse(Compact(combo), false) == Ok(combo) && Parse(Display(combo), false) == Ok(combo)
  {
    hide Parse, Printed, NormalizeKey, IsKey, IsKnownKey;
    AcceptedKey(text, validate);
    var combo := Parse(text, validate).value;
    assert "" + "+" + "" == "+" && " " + "+" + " " == " + ";
    PrintedReadsBack(combo, "", "(alone)", validate);
    PrintedReadsBack(combo, "", "(alone)", false);
    PrintedReadsBack(combo, " ", " (alone)", validate);
    PrintedReadsBack(combo, " ", " (alone)", false);
  }

  // ---- the order of modifiers -----------------------------------------------------------------------------

  /** Modifiers as they are typed, each with its plus sign, before `rest`. */
  function Typed(names: seq<string>, rest: string): string {
    if names == [] then rest else names[0] + "+" + Typed(names[1..], rest)
  }

  lemma ModifierIsPlain(name: string)
    requires ModifierMask(name).Some?
    ensures name != [] && NoWhitespace(name) && '+' !in name && Tight(name)
  {
    ModifierNames(Lower(name));
    OtherNamesAreLong(Lower(name));
    hide ModifierOf;
    forall c | c in name ensures !IsWhitespace(c) && c != '+' {
      var i :| 0 <= i < |name| && name[i] == c;
      assert Lower(name)[i] in Lower(name);
    }
    assert name[0] in name && name[|name| - 1] in name;
  }

  predicate Overlap(seen: bv8, mask: bv8) {
    seen & mask != 0
  }

  function Union(seen: bv8, mask: bv8): bv8 {
    seen | mask
  }

  lemma ScanTyped(name: string, rest: string, seen: bv8)
    requires ModifierMask(name).Some?
    ensures var mask := ModifierMask(name).value;
            ScanModifiers(name + "+" + rest, seen) ==
            if Overlap(seen, mask) then Repeated else ScanModifiers(rest, Union(seen, mask))
  {
    hide Trim, ModifierMask;
    ModifierIsPlain(name);
    var s := name + ['+'] + rest;
    FindAt(name, '+', rest);
    TrimOfTight(name);
    assert s[..|name|] == name && s[|name| + 1..] == rest;
  }

  lemma OverlapOfUnion(seen: bv8, x: bv8, y: bv8)
    ensures Overlap(Union(seen, x), y) <==> Overlap(seen, y) || Overlap(x, y)
  {
    assert (seen | x) & y == (seen & y) | (x & y);
  }

  lemma OverlapIsMutual(x: bv8, y: bv8)
    ensures Overlap(x, y) == Overlap(y, x)
  {
  }

  lemma UnionsCommute(seen: bv8, x: bv8, y: bv8)
    ensures !Overlap(seen, x) && !Overlap(Union(seen, x), y) <==> !Overlap(seen, y) && !Overlap(Union(seen, y), x)
    ensures Union(Union(seen, x), y) == Union(Union(seen, y), x)
  {
    hide Overlap;
    OverlapOfUnion(seen, x, y);
    OverlapOfUnion(seen, y, x);
    OverlapIsMutual(x, y);
  }

  lemma ScanSwapped(x: string, y: string, rest: string, seen: bv8)
    requires ModifierMask(x).Some? && ModifierMask(y).Some?
    ensures ScanModifiers(x + "+" + (y + "+" + rest), seen) == ScanModifiers(y + "+" + (x + "+" + rest), seen)
  {
    hide ScanModifiers, ModifierMask, Overlap, Union;
    var m, n := ModifierMask(x).value, ModifierMask(y).value;
    var afterX, afterY := y + "+" + rest, x + "+" + rest;
    ScanTyped(x, afterX, seen);
    ScanTyped(y, afterY, seen);
    ScanTyped(y, rest, Union(seen, m));
    ScanTyped(x, rest, Union(seen, n));
    UnionsCommute(seen, m, n);
  }

  predicate AreModifiers(names: seq<string>) {
    forall name :: name in names ==> ModifierMask(name).Some?
  }

  /** A modifier may be moved to the front. */
  lemma {:induction false} ScanMoved(names: seq<string>, i: nat, rest: string, seen: bv8)
    requires AreModifiers(names) && i < |names|
    ensures ScanModifiers(Typed(names, rest), seen)
         == ScanModifiers(names[i] + "+" + Typed(names[..i] + names[i + 1..], rest), seen)
    decreases i
  {
    hide ScanModifiers, ModifierMask;
    if i == 0 {
      assert names[..0] + names[1..] == names[1..];
    } else {
      var x, y, tail := names[0], names[i], names[1..];
      var others := tail[..i - 1] + tail[i..];
      assert names[..i] + names[i + 1..] == [x] + others;
      assert ([x] + others)[1..] == others;
      var text := Typed(others, rest);
      ScanTyped(x, Typed(tail, rest), seen);
      ScanTyped(x, y + "+" + text, seen);
      ScanMoved(tail, i - 1, rest, Union(seen, ModifierMask(x).value));
      ScanSwapped(x, y, text, seen);
    }
  }

  lemma WithoutOne(names: seq<string>, i: nat)
    requires i < |names|
    ensures multiset(names[..i] + names[i + 1..]) == multiset(names) - multiset{names[i]}
  {
    assert names == names[..i] + [names[i]] + names[i + 1..];
  }

  /** Scanning on behind a modifier. */
  function ScanOn(mask: bv8, text: string, seen: bv8): Scan {
    if Overlap(seen, mask) then Repeated else ScanModifiers(text, Union(seen, mask))
  }

  lemma ScanPulled(names: seq<string>, i: nat, rest: string, seen: bv8)
    requires AreModifiers(names) && i < |names| && ModifierMask(names[i]).Some?
    ensures ScanModifiers(Typed(names, rest), seen)
         == ScanOn(ModifierMask(names[i]).value, Typed(names[..i] + names[i + 1..], rest), seen)
  {
    hide ScanModifiers, ModifierMask, Typed;
    ScanMoved(names, i, rest, seen);
    ScanTyped(names[i], Typed(names[..i] + names[i + 1..], rest), seen);
  }

  /** What is first in `others` is somewhere in `names`, and the rest is the same again. */
  lemma WithoutFirst(names: seq<string>, others: seq<string>) returns (i: nat)
    requires others != [] && multiset(names) == multiset(others)
    ensures i < |names| && names[i] == others[0]
    ensures multiset(names[..i] + names[i + 1..]) == multiset(others[1..])
  {
    assert others[0] in multiset(others) && others[0] in names;
    i :| 0 <= i < |names| && names[i] == others[0];
    WithoutOne(names, i);
    WithoutOne(others, 0);
    assert others[..0] + others[1..] == others[1..];
  }

  lemma {:induction false} ScanPermuted(names: seq<string>, others: seq<string>, rest: string, seen: bv8)
    requires AreModifiers(names) && multiset(names) == multiset(others)
    ensures ScanModifiers(Typed(names, rest), seen) == ScanModifiers(Typed(others, rest), seen)
    decreases |others|
  {
    hide ScanModifiers, ModifierMask, Typed, AreModifiers, Union, ScanOn;
    if others == [] {
      assert |multiset(names)| == 0;
    } else {
      var x := others[0];
      var i := WithoutFirst(names, others);
      var left := names[..i] + names[i + 1..];
      assert others[..0] + others[1..] == others[1..];
      AlsoModifiers(names, others);
      FewerModifiers(names, i);
      ScanPulled(names, i, rest, seen);
      ScanPulled(others, 0, rest, seen);
      ScanOnSame(ModifierMask(x).value, Typed(left, rest), Typed(others[1..], rest), seen);
      ScanPermuted(left, others[1..], rest, Union(seen, ModifierMask(x).value));
    }
  }

  lemma ScanOnSame(mask: bv8, text: string, other: string, seen: bv8)
    ensures ScanModifiers(text, Union(seen, mask)) == ScanModifiers(other, Union(seen, mask)) ==>
              ScanOn(mask, text, seen) == ScanOn(mask, other, seen)
  {
    hide ScanModifiers;
  }

  lemma FewerModifiers(names: seq<string>, i: nat)
    requires AreModifiers(names) && i < |names|
    ensures AreModifiers(names[..i] + names[i + 1..]) && ModifierMask(names[i]).Some?
  {
    hide ModifierMask;
  }

  lemma AlsoModifiers(names: seq<string>, others: seq<string>)
    requires AreModifiers(names) && multiset(names) == multiset(others)
    ensures AreModifiers(others)
  {
    hide ModifierMask;
    forall name | name in others ensures ModifierMask(name).Some? {
      assert name in multiset(names);
    }
  }

  lemma {:induction false} TrimEndAfter(start: string, text: string)
    requires start != [] && !IsWhitespace(start[|start| - 1])
    ensures TrimEnd(start + text) == start + TrimEnd(text)
    decreases |text|
  {
    if text == [] {
      assert start + text == start;
    } else if IsWhitespace(text[|text| - 1]) {
      TrimEndAfter(start, text[..|text| - 1]);
      assert (start + text)[..|start + text| - 1] == start + text[..|text| - 1];
    }
  }

  // ---- with blanks around the plus signs ---------------------------------------------------------------

  function Trims(names: seq<string>): (trimmed: seq<string>)
    ensures |trimmed| == |names|
  {
    seq(|names|, i requires 0 <= i < |names| => Trim(names[i]))
  }

  lemma TrimTwice(name: string)
    ensures Trim(Trim(name)) == Trim(name) && Trim(TrimStart(name)) == Trim(name)
  {
    TrimIsTight(name);
    TrimOfTight(Trim(name));
    TrimStartFacts(name);
  }

  lemma {:induction false} TrimDropsBlanks(name: string)
    ensures forall c :: c in name ==> IsWhitespace(c) || c in TrimStart(name)
    decreases |name|
  {
    if name != [] && IsWhitespace(name[0]) {
      TrimDropsBlanks(name[1..]);
      assert name == [name[0]] + name[1..];
    }
  }

  lemma {:induction false} TrimEndDropsBlanks(name: string)
    ensures forall c :: c in name ==> IsWhitespace(c) || c in TrimEnd(name)
    decreases |name|
  {
    if name != [] && IsWhitespace(name[|name| - 1]) {
      TrimEndDropsBlanks(name[..|name| - 1]);
      assert name == name[..|name| - 1] + [name[|name| - 1]];
    }
  }

  /** Blanks around a modifier make no difference. */
  lemma ScanBlank(name: string, rest: string, seen: bv8)
    requires ModifierMask(Trim(name)).Some?
    ensures ScanModifiers(name + "+" + rest, seen) == ScanModifiers(Trim(name) + "+" + rest, seen)
  {
    ScanTyped(Trim(name), rest, seen);
    TrimDropsBlanks(name);
    TrimEndDropsBlanks(TrimStart(name));
    ModifierIsPlain(Trim(name));
    hide Trim, ModifierMask;
    assert '+' !in name;
    var s := name + ['+'] + rest;
    FindAt(name, '+', rest);
    assert s[..|name|] == name && s[|name| + 1..] == rest;
  }

  lemma {:induction false} ScanTrimmed(names: seq<string>, rest: string, seen: bv8)
    requires AreModifiers(Trims(names))
    ensures ScanModifiers(Typed(names, rest), seen) == ScanModifiers(Typed(Trims(names), rest), seen)
    decreases |names|
  {
    hide ScanModifiers, ModifierMask, Trim;
    if names != [] {
      var name, tail := names[0], names[1..];
      assert Trims(names)[0] == Trim(name) && Trim(name) in Trims(names);
      assert Trims(names)[1..] == Trims(tail);
      ScanBlank(name, Typed(tail, rest), seen);
      ScanTyped(Trim(name), Typed(tail, rest), seen);
      ScanTyped(Trim(name), Typed(Trims(tail), rest), seen);
      ScanTrimmed(tail, rest, Union(seen, ModifierMask(Trim(name)).value));
    }
  }

  lemma {:induction false} TrimStartBefore(text: string, more: string)
    requires TrimStart(text) != []
    ensures TrimStart(text + more) == TrimStart(text) + more
    decreases |text|
  {
    assert (text + more)[1..] == text[1..] + more;
    if IsWhitespace(text[0]) {
      TrimStartBefore(text[1..], more);
    }
  }

  lemma {:induction false} TrimEndTyped(names: seq<string>, rest: string)
    requires names != []
    ensures TrimEnd(Typed(names, rest)) == Typed(names, TrimEnd(rest))
    decreases |names|
  {
    var start := names[0] + "+";
    TrimEndAfter(start, Typed(names[1..], rest));
    if |names| > 1 {
      TrimEndTyped(names[1..], rest);
    }
  }

  /** The first modifier without the blanks before it. */
  function Tightened(names: seq<string>): seq<string>
    requires names != []
  {
    [TrimStart(names[0])] + names[1..]
  }

  lemma TightenedTrims(names: seq<string>)
    requires names != []
    ensures Trims(Tightened(names)) == Trims(names)
  {
    TrimTwice(names[0]);
    hide Trim, TrimStart;
    var tight := Tightened(names);
    forall i | 0 <= i < |names| ensures Trims(tight)[i] == Trims(names)[i] {
      assert i > 0 ==> tight[i] == names[i];
    }
  }

  lemma TypedTightened(names: seq<string>, rest: string)
    requires names != [] && TrimStart(names[0]) != []
    ensures TrimStart(Typed(names, rest)) == Typed(Tightened(names), rest) != []
  {
    var name, more := names[0], "+" + Typed(names[1..], rest);
    TrimStartBefore(name, more);
    hide TrimStart;
    var tight := Tightened(names);
    assert tight[1..] == names[1..];
    assert Typed(names, rest) == name + more && Typed(tight, rest) == TrimStart(name) + more;
  }

  lemma TrimTyped(names: seq<string>, rest: string)
    requires AreModifiers(Trims(names)) && names != []
    ensures Trim(Typed(names, rest)) == Typed(Tightened(names), TrimEnd(rest)) != []
  {
    assert Trims(names)[0] == Trim(names[0]);
    ModifierIsPlain(Trim(names[0]));
    assert TrimStart(names[0]) != [];
    TypedTightened(names, rest);
    TypedTightened(names, TrimEnd(rest));
    hide Trim, TrimStart, TrimEnd, Typed, Tightened;
    TrimIs(Typed(names, rest));
    TrimEndTyped(Tightened(names), rest);
  }

  lemma TrimIs(text: string)
    ensures Trim(text) == TrimEnd(TrimStart(text))
  {
  }

  /** The order in which modifiers are typed does not matter, nor do the blanks around them,
      whatever follows: neither for the combination nor for the error. */
  lemma ModifiersInAnyOrder(names: seq<string>, others: seq<string>, rest: string, validate: bool)
    requires AreModifiers(Trims(names)) && multiset(Trims(names)) == multiset(Trims(others))
    ensures Parse(Typed(names, rest), validate) == Parse(Typed(others, rest), validate)
  {
    hide Finish, ScanModifiers, Trim, ModifierMask, Typed;
    assert |multiset(Trims(names))| == |names| && |multiset(Trims(others))| == |others|;
    if names == [] {
      assert others == [];
    } else {
      forall name | name in Trims(others) ensures ModifierMask(name).Some? {
        assert name in multiset(Trims(others)) && name in Trims(names);
      }
      ScansAsTrimmed(names, rest);
      ScansAsTrimmed(others, rest);
      ScanPermuted(Trims(names), Trims(others), TrimEnd(rest), 0);
    }
  }

  lemma ScansAsTrimmed(names: seq<string>, rest: string)
    requires AreModifiers(Trims(names)) && names != []
    ensures Trim(Typed(names, rest)) != []
    ensures ScanModifiers(Trim(Typed(names, rest)), 0) == ScanModifiers(Typed(Trims(names), TrimEnd(rest)), 0)
  {
    hide ScanModifiers, Trim, ModifierMask, Typed, Tightened;
    TrimTyped(names, rest);
    TightenedTrims(names);
    ScanTrimmed(Tightened(names), TrimEnd(rest), 0);
  }
}
