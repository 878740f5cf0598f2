/** Which keyboards make keycodes uncertain, and when the compositor is asked about them. */
module VirtualKeyboards {
  import opened Wrappers
  import opened Text
  import opened SocketLine
  import opened FeedSpec

  /** A virtual keyboard that does not have the keymap keys are decoded with. */
  predicate IsForeign(reference: Option<string>, name: string, keymap: string) {
    |name| >= 19 && name[..19] == "hl-virtual-keyboard" && reference != Some(keymap)
  }

  lemma ForeignIs(s: Sources, name: string, keymap: string)
    ensures ForeignKeymap(s, name, keymap) <==> IsForeign(s.reference, name, keymap)
  {
  }

  // ---- announced layouts ----------------------------------------------------------------------------

  /** The socket announces a layout: whoever reads the line, a foreign one attaches its keyboard, and
      any other leaves the keyboards alone. */
  lemma LayoutAttaches(f: Feed, token: string, m: Micro, keyboard: string, layout: string)
    requires m.Decode? || m.Drain?
    requires HasLine(f) && Parse(Line(f)) == ActiveLayout(keyboard, layout)
    ensures var g := Step(f, token, m).0;
            && g.dirty && g.buffer == f.buffer[LineEnd(f) + 1..] && g.sources.reference == f.sources.reference
            && (IsForeign(f.sources.reference, keyboard, layout) ==>
                  g.sources.source == Some(VirtualSource(keyboard, layout, None)))
            && (!IsForeign(f.sources.reference, keyboard, layout) ==>
                  && g.sources.source.Some? == f.sources.source.Some?
                  && (Queued(f.sources) == None ==> g.sources == f.sources))
  {
    hide Parse;
  }

  /** The next key is read as a bare keycode iff the layout was foreign, or another keyboard was on. */
  lemma KeyBehindLayout(f: Feed, token: string, keyboard: string, layout: string, e: KeyEvent)
    requires HasLine(f) && Parse(Line(f)) == ActiveLayout(keyboard, layout) && Queued(f.sources) == None
    requires var g := Step(f, token, Decode(Refresh(None, ""))).0;
             HasLine(g) && Parse(Line(g)) == Key(e) && e.token == token
    ensures var g := Step(f, token, Decode(Refresh(None, ""))).0;
            Step(g, token, Decode(Refresh(None, ""))).1 ==
            Saw(Observed(e, f.sources.source.Some? || IsForeign(f.sources.reference, keyboard, layout)))
  {
    hide Parse, IsForeign;
    LayoutAttaches(f, token, Decode(Refresh(None, "")), keyboard, layout);
    var g := Step(f, token, Decode(Refresh(None, ""))).0;
    KeyWithoutAnswer(g, token, e);
  }

  lemma KeyWithoutAnswer(g: Feed, token: string, e: KeyEvent)
    requires HasLine(g) && Parse(Line(g)) == Key(e) && e.token == token
    ensures Step(g, token, Decode(Refresh(None, ""))).1 == Saw(Observed(e, g.sources.source.Some?))
  {
    hide Parse;
  }

  // ---- device queries ---------------------------------------------------------------------------------

  /** The first keyboard of the list that was used last and is foreign. */
  predicate IsFirstForeign(inventory: Inventory, i: int) {
    && 0 <= i < |inventory.keyboards|
    && inventory.keyboards[i].main
    && IsForeign(inventory.reference, inventory.keyboards[i].name, inventory.keyboards[i].keymap)
    && forall k | 0 <= k < i ::
         !inventory.keyboards[k].main
         || !IsForeign(inventory.reference, inventory.keyboards[k].name, inventory.keyboards[k].keymap)
  }

  lemma {:induction false} FirstForeignIs(s: Sources, keyboards: seq<Keyboard>)
    ensures match FirstForeignMain(s, keyboards)
            case None => forall k | 0 <= k < |keyboards| ::
                !keyboards[k].main || !IsForeign(s.reference, keyboards[k].name, keyboards[k].keymap)
            case Some(found) => exists i :: IsFirstForeign(Inventory(s.reference, keyboards), i) && keyboards[i] == found
    decreases |keyboards|
  {
    hide IsForeign, ForeignKeymap;
    if keyboards != [] {
      var first, rest := keyboards[0], keyboards[1..];
      ForeignIs(s, first.name, first.keymap);
      assert forall k | 1 <= k < |keyboards| :: keyboards[k] == rest[k - 1];
      if first.main && ForeignKeymap(s, first.name, first.keymap) {
        assert IsFirstForeign(Inventory(s.reference, keyboards), 0);
      } else {
        FirstForeignIs(s, rest);
        if i :| IsFirstForeign(Inventory(s.reference, rest), i) && rest[i] == FirstForeignMain(s, rest).value {
          assert keyboards[i + 1] == rest[i];
          assert IsFirstForeign(Inventory(s.reference, keyboards), i + 1);
        }
      }
    }
  }

  predicate IsSource(source: VirtualSource, keyboard: Keyboard) {
    source == VirtualSource(keyboard.name, keyboard.keymap, None)
  }

  /** While no virtual keyboard is on, a query finds the first foreign one that was used last. */
  lemma QueryFinds(f: Feed, inventory: Inventory, incoming: string)
    requires f.sources.source.None?
    ensures var g := Refreshed(f, Refresh(Some(inventory), incoming));
            && g == f.(dirty := false, sources := g.sources) && g.sources.reference == inventory.reference
            && match g.sources.source
               case None => forall i :: !IsFirstForeign(inventory, i)
               case Some(found) =>
                 exists i :: IsFirstForeign(inventory, i) && IsSource(found, inventory.keyboards[i])
  {
    hide IsForeign, FirstForeignMain;
    FirstForeignIs(f.sources.(reference := inventory.reference), inventory.keyboards);
  }

  /** While one is on, a query only finds out whether it is gone: then, once, everything buffered
      and waiting is counted. */
  lemma QueryCounts(f: Feed, inventory: Inventory, incoming: string)
    requires f.sources.source.Some?
    ensures var g := Refreshed(f, Refresh(Some(inventory), incoming));
            var gone := forall k | 0 <= k < |inventory.keyboards| ::
              inventory.keyboards[k].name != f.sources.source.value.name;
            && !g.dirty && g.held == f.held && g.mask == f.mask && g.sources.reference == inventory.reference
            && if gone && Queued(f.sources) == None then
                 && g.buffer == f.buffer + incoming
                 && g.sources.source == Some(f.sources.source.value.(queued := Some(|f.buffer| + |incoming|)))
               else g.buffer == f.buffer && g.sources.source == f.sources.source
  {
    if Listed(inventory, f.sources.source.value.name) {
      var i :| 0 <= i < |inventory.keyboards| && inventory.keyboards[i].name == f.sources.source.value.name;
    }
  }

  /** A query without an answer changes nothing but that it was made. */
  lemma QueryFails(f: Feed, incoming: string)
    ensures Refreshed(f, Refresh(None, incoming)) == f.(dirty := false)
  {
  }

  /** A key event asks first if a layout has changed, if it is Caps Lock or Num Lock, or if a virtual
      keyboard is on; otherwise no answer matters. */
  lemma WhenItIsAsked(f: Feed, token: string, e: KeyEvent, inventory: Inventory, incoming: string)
    requires HasLine(f) && Parse(Line(f)) == Key(e) && e.token == token
    ensures var asks := f.dirty || e.keycode == 66 || e.keycode == 77 || f.sources.source.Some?;
            var answered := Step(f, token, Decode(Refresh(Some(inventory), incoming))).0;
            && (asks ==> answered.sources.reference == inventory.reference && !answered.dirty)
            && (!asks ==> answered == Step(f, token, Decode(Refresh(None, ""))).0
                          && answered.sources == f.sources && !answered.dirty)
  {
    hide Parse, FirstForeignMain, Listed;
  }

  /** And it is read as a bare keycode iff a virtual keyboard was on, or the query it makes finds one. */
  lemma KeyIsCodeIff(f: Feed, token: string, e: KeyEvent, inventory: Inventory, incoming: string)
    requires HasLine(f) && Parse(Line(f)) == Key(e) && e.token == token
    ensures var found := exists i :: IsFirstForeign(inventory, i);
            var asks := f.dirty || e.keycode == 66 || e.keycode == 77;
            Step(f, token, Decode(Refresh(Some(inventory), incoming))).1
            == Saw(Observed(e, f.sources.source.Some? || (asks && found)))
  {
    hide Parse, FirstForeignMain, Listed, IsFirstForeign, IsSource, Refreshed;
    var asked := Absorb(WithoutLine(f), e);
    var stale := asked.(dirty := asked.dirty || IsLockKey(e.keycode));
    if stale.sources.source.Some? {
      QueryCounts(stale, inventory, incoming);
    } else {
      QueryFinds(stale, inventory, incoming);
    }
  }

  // ---- modifiers --------------------------------------------------------------------------------------

  /** The XKB keycodes of the keys that set and clear a bit of the mask themselves: both Ctrl, both
      Shift, both Alt and both Super. */
  lemma OwnBits(keycode: nat)
    ensures OwnBit(keycode) ==
            if keycode in {37, 105} then Some(4) else if keycode in {50, 62} then Some(1)
            else if keycode in {64, 108} then Some(8) else if keycode in {133, 134} then Some(64) else None
  {
  }

  /** XKB counts keys from 8 on, the kernel from 0 and in 16 bits. */
  lemma EvdevCodes(keycode: nat, code: nat)
    ensures ToEvdev(keycode) == Some(code) <==> keycode == code + 8 && code <= 65535
  {
  }

  lemma NextQuotient(mask: nat, bit: nat)
    requires bit == 1 || bit == 4 || bit == 8 || bit == 64
    ensures (mask + bit) / bit == mask / bit + 1
  {
    if bit == 1 { } else if bit == 4 { } else if bit == 8 { } else { }
  }

  lemma OneUp(mask: nat, bit: nat)
    requires bit == 1 || bit == 4 || bit == 8 || bit == 64
    ensures HasBit(mask + bit, bit) <==> !HasBit(mask, bit)
  {
    NextQuotient(mask, bit);
    NextIsOdd(mask / bit);
  }

  lemma NextIsOdd(q: nat)
    ensures (q + 1) % 2 == 1 <==> q % 2 != 1
  {
  }

  lemma BitFlips(mask: nat, bit: nat)
    requires bit == 1 || bit == 4 || bit == 8 || bit == 64
    ensures HasBit(mask + bit, bit) <==> !HasBit(mask, bit)
    ensures HasBit(mask, bit) ==> mask >= bit && !HasBit(mask - bit, bit)
  {
    OneUp(mask, bit);
    if mask < bit {
      assert mask / bit == 0;
    } else {
      hide HasBit;
      OneUp(mask - bit, bit);
    }
  }

  /** An event's mask is from before it: its own bit is set by a press or a repetition and cleared
      by a release, and nothing else changes. */
  lemma MaskAfter(e: KeyEvent)
    ensures match OwnBit(e.keycode)
            case None => HeldModifiersAfter(e) == e.mask
            case Some(bit) =>
              && (HasBit(HeldModifiersAfter(e), bit) <==> !e.kind.Release?)
              && HeldModifiersAfter(e) == if HasBit(e.mask, bit) == !e.kind.Release? then e.mask
                                          else if e.kind.Release? then e.mask - bit else e.mask + bit
  {
    hide ToEvdev, EvdevModifier, HasBit;
    match OwnBit(e.keycode) {
      case None =>
      case Some(bit) => BitFlips(e.mask, bit);
    }
  }
}
