/** What the client makes of the socket: which keys are held, which modifiers, and from whose
    keyboard the next keys may come. */
module FeedSpec {
  import opened Wrappers
  import opened Text
  import opened SocketLine

  // ---- modifiers -------------------------------------------------------------------------

  /** `evdev_modifier`: the modmask bit of a physical modifier or lock key. */
  function EvdevModifier(code: nat): Option<nat> {
    if code == 29 || code == 97 then Some(4)
    else if code == 42 || code == 54 then Some(1)
    else if code == 56 || code == 100 then Some(8)
    else if code == 125 || code == 126 then Some(64)
    else if code == 58 then Some(2)
    else if code == 69 then Some(16)
    else None
  }

  /** `XkbKeycode::to_evdev`: codes below 8 or above 16 bits have no counterpart. */
  function ToEvdev(keycode: nat): Option<nat> {
    if keycode < 8 || keycode - 8 > 0xFFFF then None else Some(keycode - 8)
  }

  predicate HasBit(mask: nat, bit: nat)
    requires bit > 0
  {
    (mask / bit) % 2 == 1
  }

  function SetBit(mask: nat, bit: nat): nat
    requires bit > 0
  {
    if HasBit(mask, bit) then mask else mask + bit
  }

  function ClearBit(mask: nat, bit: nat): nat
    requires bit == 1 || bit == 4 || bit == 8 || bit == 64
  {
    if HasBit(mask, bit) then mask - bit else mask
  }

  /** The bit a key event itself sets or clears, if the client applies it. */
  function OwnBit(keycode: nat): (bit: Option<nat>)
    ensures bit.Some? ==> bit.value == 1 || bit.value == 4 || bit.value == 8 || bit.value == 64
  {
    if ToEvdev(keycode).None? then None
    else
      match EvdevModifier(ToEvdev(keycode).value)
      case Some(bit) => if bit == 1 || bit == 4 || bit == 8 || bit == 64 then Some(bit) else None
      case None => None
  }

  /** `held_modifiers_after`: the reported mask is from before the event. */
  function HeldModifiersAfter(e: KeyEvent): nat {
    match OwnBit(e.keycode)
    case None => e.mask
    case Some(bit) =>
      if e.kind.Release? then ClearBit(e.mask, bit) else SetBit(e.mask, bit)
  }

  function HeldAfter(held: set<nat>, e: KeyEvent): set<nat> {
    match e.kind
    case Press => held + {e.keycode}
    case Release => held - {e.keycode}
    case Repeat => held
  }

  // ---- keyboards ---------------------------------------------------------------------------

  const VIRTUAL_PREFIX := "hl-virtual-keyboard"

  datatype VirtualSource = VirtualSource(name: string, keymap: string, queued: Option<nat>)

  datatype Sources = Sources(reference: Option<string>, source: Option<VirtualSource>)

  datatype Keyboard = Keyboard(name: string, keymap: string, main: bool)

  datatype Inventory = Inventory(reference: Option<string>, keyboards: seq<Keyboard>)

  predicate ForeignKeymap(s: Sources, keyboard: string, keymap: string) {
    VIRTUAL_PREFIX <= keyboard && s.reference != Some(keymap)
  }

  function OnActiveLayout(s: Sources, keyboard: string, keymap: string): Sources {
    if ForeignKeymap(s, keyboard, keymap) then
      s.(source := Some(VirtualSource(keyboard, keymap, None)))
    else s
  }

  predicate Listed(inventory: Inventory, name: string) {
    exists i :: 0 <= i < |inventory.keyboards| && inventory.keyboards[i].name == name
  }

  function FirstForeignMain(s: Sources, keyboards: seq<Keyboard>): Option<Keyboard> {
    if keyboards == [] then None
    else if keyboards[0].main && ForeignKeymap(s, keyboards[0].name, keyboards[0].keymap) then Some(keyboards[0])
    else FirstForeignMain(s, keyboards[1..])
  }

  /** `on_inventory`: the flag asks the caller to record the queued bytes. */
  function OnInventory(s: Sources, inventory: Inventory): (Sources, bool) {
    var known := s.(reference := inventory.reference);
    match s.source
    case Some(source) => (known, !Listed(inventory, source.name) && source.queued.None?)
    case None =>
      match FirstForeignMain(known, inventory.keyboards)
      case None => (known, false)
      case Some(k) => (known.(source := Some(VirtualSource(k.name, k.keymap, None))), false)
  }

  function Detached(s: Sources, queued: nat): Sources {
    if s.source.None? then s else s.(source := Some(s.source.value.(queued := Some(queued))))
  }

  function Queued(s: Sources): Option<nat> {
    if s.source.None? then None else s.source.value.queued
  }

  /** A line of `bytes` bytes, newline included, left the buffer. */
  function Consumed(s: Sources, bytes: nat): Sources {
    if Queued(s).None? then s
    else Detached(s, if Queued(s).value < bytes then 0 else Queued(s).value - bytes)
  }

  function Settle(s: Sources): Sources {
    if Queued(s) == Some(0) then s.(source := None) else s
  }

  // ---- one line at a time --------------------------------------------------------------------

  datatype Feed = Feed(buffer: string, sources: Sources, held: set<nat>, mask: nat, dirty: bool)

  /** One answer to `hyprctl devices`, and what the socket still held when it was asked. */
  datatype Refresh = Refresh(devices: Option<Inventory>, incoming: string)

  /** An event as reported: `code` when only its keycode is certain. */
  datatype Observed = Observed(event: KeyEvent, code: bool)

  datatype LineOutcome = Quiet | Saw(observed: Observed) | Stopped | Confirmed

  /** A session that has read nothing yet. */
  const EMPTY_FEED: Feed := Feed("", Sources(None, None), {}, 0, false)

  predicate HasLine(f: Feed) {
    Find(f.buffer, '\n').Some?
  }

  function LineEnd(f: Feed): (n: nat)
    requires HasLine(f)
    ensures n < |f.buffer| && f.buffer[n] == '\n'
  {
    Find(f.buffer, '\n').value
  }

  function Line(f: Feed): string
    requires HasLine(f)
  {
    f.buffer[..LineEnd(f)]
  }

  function WithoutLine(f: Feed): Feed
    requires HasLine(f)
  {
    f.(buffer := f.buffer[LineEnd(f) + 1..], sources := Consumed(f.sources, LineEnd(f) + 1))
  }

  function Receive(f: Feed, chunk: string): Feed {
    f.(buffer := f.buffer + chunk)
  }

  function Absorb(f: Feed, e: KeyEvent): Feed {
    f.(mask := HeldModifiersAfter(e), held := HeldAfter(f.held, e))
  }

  function LayoutChanged(f: Feed, keyboard: string, layout: string): Feed {
    f.(sources := OnActiveLayout(f.sources, keyboard, layout), dirty := true)
  }

  /** `refresh_keyboard_state`, as far as buffer and sources go. */
  function Refreshed(f: Feed, r: Refresh): Feed {
    var clean := f.(dirty := false);
    if r.devices.None? then clean
    else
      var (sources, detached) := OnInventory(f.sources, r.devices.value);
      if !detached then clean.(sources := sources)
      else
        var full := clean.buffer + r.incoming;
        clean.(buffer := full, sources := Detached(sources, |full|))
  }

  predicate IsLockKey(keycode: nat) {
    ToEvdev(keycode) == Some(58) || ToEvdev(keycode) == Some(69)
  }

  /** `drain_buffer_events` on one line. */
  function DrainLine(f: Feed, token: string): (Feed, LineOutcome)
    requires HasLine(f)
  {
    var rest := WithoutLine(f);
    match Parse(Line(f))
    case ConfigReloaded => (rest, Stopped)
    case ActiveLayout(k, l) => (LayoutChanged(rest, k, l), Quiet)
    case Key(e) => if e.token == token then (Absorb(rest, e), Quiet) else (rest, Quiet)
    case _ => (rest, Quiet)
  }

  function DecodeKey(f: Feed, e: KeyEvent, r: Refresh): (Feed, LineOutcome) {
    var absorbed := Absorb(f, e);
    var stale := absorbed.(dirty := absorbed.dirty || IsLockKey(e.keycode));
    var current := if stale.dirty || stale.sources.source.Some? then Refreshed(stale, r) else stale;
    (current.(sources := Settle(current.sources)), Saw(Observed(e, current.sources.source.Some?)))
  }

  /** `next_observed_event` on one line. */
  function DecodeLine(f: Feed, token: string, r: Refresh): (Feed, LineOutcome)
    requires HasLine(f)
  {
    var rest := WithoutLine(f);
    match Parse(Line(f))
    case ConfigReloaded => (rest, Stopped)
    case ActiveLayout(k, l) => (LayoutChanged(rest, k, l), Quiet)
    case Key(e) => if e.token == token then DecodeKey(rest, e, r) else (rest, Quiet)
    case _ => (rest, Quiet)
  }

  /** `arm` waiting for its own armed event: the line leaves the buffer uncounted. */
  function SkipLine(f: Feed): Feed
    requires HasLine(f)
  {
    f.(buffer := f.buffer[LineEnd(f) + 1..])
  }

  // ---- all lines there are ---------------------------------------------------------------------

  /** `drain_buffer_events`: up to a reload. */
  function DrainAll(f: Feed, token: string): (Feed, bool)
    decreases |f.buffer|
  {
    if !HasLine(f) then (f, true)
    else
      var (rest, outcome) := DrainLine(f, token);
      if outcome.Stopped? then (rest, false) else DrainAll(rest, token)
  }

  /** `arm`: drop lines up to the session's own armed event. */
  function SkipToArmed(f: Feed, token: string): (Feed, bool)
    decreases |f.buffer|
  {
    if !HasLine(f) then (f, false)
    else if Parse(Line(f)) == ArmedBy(token) then (SkipLine(f), true)
    else SkipToArmed(SkipLine(f), token)
  }

  /** `arm` reading until its armed event comes. What a read brings may be nothing; the reads
      end with the time or with an error. */
  function AwaitArmed(f: Feed, token: string, texts: seq<string>): (Feed, bool)
    decreases |texts|
  {
    if texts == [] then (f, false)
    else
      var (rest, seen) := SkipToArmed(Receive(f, texts[0]), token);
      if seen then (rest, true) else AwaitArmed(rest, token, texts[1..])
  }

  function Concat(texts: seq<string>): string {
    if texts == [] then "" else texts[0] + Concat(texts[1..])
  }

  predicate Announces(lines: seq<string>, token: string) {
    exists i | 0 <= i < |lines| :: Parse(lines[i]) == ArmedBy(token)
  }

  lemma {:induction false} SkippingFindsArmed(f: Feed, token: string)
    ensures SkipToArmed(f, token).1 <==> Announces(Lines(f.buffer), token)
    ensures !SkipToArmed(f, token).1 ==> SkipToArmed(f, token).0.buffer == Remainder(f.buffer)
    decreases |f.buffer|
  {
    hide Parse;
    if HasLine(f) {
      var lines := Lines(f.buffer);
      assert lines[0] == Line(f) && lines[1..] == Lines(SkipLine(f).buffer);
      if Parse(Line(f)) != ArmedBy(token) {
        SkippingFindsArmed(SkipLine(f), token);
        AnnouncedLater(lines, token);
      }
    }
  }

  lemma AnnouncedLater(lines: seq<string>, token: string)
    requires lines != [] && Parse(lines[0]) != ArmedBy(token)
    ensures Announces(lines, token) <==> Announces(lines[1..], token)
  {
    hide Parse;
    if Announces(lines, token) {
      var i :| 0 <= i < |lines| && Parse(lines[i]) == ArmedBy(token);
      assert lines[1..][i - 1] == lines[i];
    }
  }

  /** Arming is confirmed exactly when the text read holds the session's own armed event as a
      complete line, however the text is split into reads. */
  lemma {:induction false} ArmedIsRead(f: Feed, token: string, texts: seq<string>)
    requires texts != []
    ensures AwaitArmed(f, token, texts).1 <==> Announces(Lines(f.buffer + Concat(texts)), token)
    decreases |texts|
  {
    hide Parse, SkipToArmed;
    var read, later := f.buffer + texts[0], Concat(texts[1..]);
    assert f.buffer + Concat(texts) == read + later;
    LinesOfMore(read, later);
    SkippingFindsArmed(Receive(f, texts[0]), token);
    var (rest, seen) := SkipToArmed(Receive(f, texts[0]), token);
    AnnouncedInEither(Lines(read), Lines(Remainder(read) + later), token);
    if !seen {
      if |texts| > 1 {
        ArmedIsRead(rest, token, texts[1..]);
      } else {
        assert Remainder(read) + later == Remainder(read);
        RemainderHasNoLine(read);
      }
    }
  }

  lemma {:induction false} RemainderHasNoLine(text: string)
    ensures Lines(Remainder(text)) == []
    decreases |text|
  {
    if Find(text, '\n').Some? {
      RemainderHasNoLine(text[Find(text, '\n').value + 1..]);
    }
  }

  lemma AnnouncedInEither(lines: seq<string>, more: seq<string>, token: string)
    ensures Announces(lines + more, token) <==> Announces(lines, token) || Announces(more, token)
  {
    hide Parse;
    forall i | 0 <= i < |lines| && Parse(lines[i]) == ArmedBy(token) ensures Announces(lines + more, token) {
      assert (lines + more)[i] == lines[i];
    }
    forall i | 0 <= i < |more| && Parse(more[i]) == ArmedBy(token) ensures Announces(lines + more, token) {
      assert (lines + more)[|lines| + i] == more[i];
    }
  }

  predicate Reloads(lines: seq<string>) {
    exists i | 0 <= i < |lines| :: Parse(lines[i]).ConfigReloaded?
  }

  lemma DrainTakesOne(f: Feed, token: string)
    requires HasLine(f)
    ensures DrainLine(f, token).0.buffer == WithoutLine(f).buffer
    ensures DrainLine(f, token).1.Stopped? <==> Parse(Line(f)).ConfigReloaded?
  {
    hide Parse;
  }

  /** Draining is stopped exactly by a reload among the complete lines; otherwise it takes them all. */
  lemma {:induction false} DrainStopsAtReload(f: Feed, token: string)
    ensures DrainAll(f, token).1 <==> !Reloads(Lines(f.buffer))
    ensures DrainAll(f, token).1 ==> DrainAll(f, token).0.buffer == Remainder(f.buffer)
    decreases |f.buffer|
  {
    hide Parse, DrainLine;
    if HasLine(f) {
      var lines := Lines(f.buffer);
      assert lines[0] == Line(f) && lines[1..] == Lines(WithoutLine(f).buffer);
      DrainTakesOne(f, token);
      var (rest, outcome) := DrainLine(f, token);
      if outcome.Stopped? {
        assert Parse(lines[0]).ConfigReloaded?;
      } else {
        DrainStopsAtReload(rest, token);
        ReloadsLater(lines);
      }
    }
  }

  lemma ReloadsLater(lines: seq<string>)
    requires lines != [] && !Parse(lines[0]).ConfigReloaded?
    ensures Reloads(lines) <==> Reloads(lines[1..])
  {
    hide Parse;
    if Reloads(lines) {
      var i :| 0 <= i < |lines| && Parse(lines[i]).ConfigReloaded?;
      assert lines[1..][i - 1] == lines[i];
    }
  }

  // ---- runs -----------------------------------------------------------------------------------

  /** Everything that touches the buffer, line by line. */
  datatype Micro =
    | Chunk(text: string)
    | Decode(refresh: Refresh)
    | Drain
    | Skip
    | Requery(refresh: Refresh)

  function Step(f: Feed, token: string, m: Micro): (Feed, LineOutcome) {
    match m
    case Chunk(text) => (Receive(f, text), Quiet)
    case Requery(r) => (Refreshed(f, r), Quiet)
    case Decode(r) => if HasLine(f) then DecodeLine(f, token, r) else (f, Quiet)
    case Drain => if HasLine(f) then DrainLine(f, token) else (f, Quiet)
    case Skip =>
      if HasLine(f) then (SkipLine(f), if Parse(Line(f)) == ArmedBy(token) then Confirmed else Quiet)
      else (f, Quiet)
  }

  function Steps(f: Feed, token: string, micros: seq<Micro>): Feed
    decreases |micros|
  {
    if micros == [] then f else Steps(Step(f, token, micros[0]).0, token, micros[1..])
  }

  lemma {:induction false} StepsSnoc(f: Feed, token: string, micros: seq<Micro>, m: Micro)
    ensures Steps(f, token, micros + [m]) == Step(Steps(f, token, micros), token, m).0
    decreases |micros|
  {
    if micros == [] {
      assert micros + [m] == [m] && [m][1..] == [];
      assert Steps(Step(f, token, m).0, token, []) == Step(f, token, m).0;
    } else {
      assert (micros + [m])[1..] == micros[1..] + [m];
      StepsSnoc(Step(f, token, micros[0]).0, token, micros[1..], m);
    }
  }
}
