/** The wait for a chord to be let go, against what is physically held. */
module Chord {
  import opened Wrappers
  import opened Text
  import opened SocketLine
  import opened FeedSpec
  import opened FeedTrack
  import opened FeedWait

  // ---- the keyboard ---------------------------------------------------------------------

  /** One transition of one physical key. */
  datatype Stroke = Stroke(keycode: nat, kind: KeyEventType)

  /** The modifier each key's symbol stands for, as a modmask bit; 0 for none. */
  type Symbols = nat -> nat

  ghost predicate GoodSymbols(sym: Symbols) {
    forall k :: sym(k) == 0 || sym(k) == 1 || sym(k) == 4 || sym(k) == 8
                || sym(k) == 32 || sym(k) == 64 || sym(k) == 128
  }

  function DownAfter(down: set<nat>, s: Stroke): set<nat> {
    match s.kind
    case Press => down + {s.keycode}
    case Release => down - {s.keycode}
    case Repeat => down
  }

  predicate Possible(down: set<nat>, s: Stroke) {
    s.keycode <= 0xFFFF_FFFF && (s.kind.Press? <==> s.keycode !in down)
  }

  /** The mask the hook computes: one bit per kind of modifier held before the event. */
  ghost function BitFor(down: set<nat>, sym: Symbols, bit: nat): nat {
    if exists k :: k in down && sym(k) == bit then bit else 0
  }

  ghost function HookMask(down: set<nat>, sym: Symbols): nat {
    BitFor(down, sym, 1) + BitFor(down, sym, 4) + BitFor(down, sym, 8)
    + BitFor(down, sym, 32) + BitFor(down, sym, 64) + BitFor(down, sym, 128)
  }

  ghost function Emitted(down: set<nat>, s: Stroke, token: string, sym: Symbols): KeyEvent {
    KeyEvent(token, s.keycode, s.kind, HookMask(down, sym))
  }

  // ---- the stream -----------------------------------------------------------------------------

  /** A line of the socket: one of this session's key events, or anything else. */
  datatype Item = Key(stroke: Stroke) | Noise(line: string)

  predicate GoodNoise(line: string, token: string) {
    && '\n' !in line && !Parse(line).ConfigReloaded?
    && (Parse(line).Key? ==> Parse(line).event.token != token)
  }

  ghost predicate GoodItems(down: set<nat>, items: seq<Item>, token: string)
    decreases |items|
  {
    items == [] ||
    match items[0]
    case Key(s) => Possible(down, s) && GoodItems(DownAfter(down, s), items[1..], token)
    case Noise(line) => GoodNoise(line, token) && GoodItems(down, items[1..], token)
  }

  /** A place in the stream: the keys physically down there, those of them that were down
      before the hook and still are, the modifiers the client makes of the last key event, and
      what is yet to come. */
  datatype Spot = Spot(down: set<nat>, missed: set<nat>, mask: nat, items: seq<Item>)

  /** Where a session's stream begins: it has seen none of the keys down by then. */
  function Begin(down: set<nat>, items: seq<Item>): Spot {
    Spot(down, down, 0, items)
  }

  ghost function After(p: Spot, sym: Symbols): Spot
    requires p.items != []
  {
    match p.items[0]
    case Noise(_) => p.(items := p.items[1..])
    case Key(s) =>
      Spot(DownAfter(p.down, s), if s.kind.Release? then p.missed - {s.keycode} else p.missed,
           HeldModifiersAfter(Emitted(p.down, s, "", sym)), p.items[1..])
  }

  ghost function AfterN(p: Spot, n: nat, sym: Symbols): Spot
    requires n <= |p.items|
    decreases n
  {
    if n == 0 then p else AfterN(After(p, sym), n - 1, sym)
  }

  ghost function FirstLine(p: Spot, token: string, sym: Symbols): string
    requires p.items != []
  {
    match p.items[0]
    case Key(s) => KeyLine(Emitted(p.down, s, token, sym))
    case Noise(line) => line
  }

  /** The text of everything from this place on. */
  ghost function Stream(p: Spot, token: string, sym: Symbols): string
    decreases |p.items|
  {
    if p.items == [] then "" else FirstLine(p, token, sym) + ['\n'] + Stream(After(p, sym), token, sym)
  }

  lemma MaskIsSmall(down: set<nat>, sym: Symbols)
    ensures HookMask(down, sym) <= 237
  {
  }

  lemma FirstLineParses(p: Spot, token: string, sym: Symbols)
    requires GoodToken(token) && p.items != [] && GoodItems(p.down, p.items, token)
    ensures '\n' !in FirstLine(p, token, sym)
    ensures p.items[0].Key? ==>
              Parse(FirstLine(p, token, sym)) == SocketMessage.Key(Emitted(p.down, p.items[0].stroke, token, sym))
  {
    if p.items[0].Key? {
      var e := Emitted(p.down, p.items[0].stroke, token, sym);
      MaskIsSmall(p.down, sym);
      KeyLineIsOneLine(e);
      KeyLineRoundTrip(e);
    }
  }

  // ---- every consumer follows the keyboard ----------------------------------------------------------

  /** The feed agrees with the keyboard at `p`: the keys held are those down, except the ones
      down since before the hook, and the mask is that of the last key event. What is unread
      and what is yet to be read, `later`, continue the stream from there. */
  ghost predicate Follows(f: Feed, token: string, p: Spot, later: string, sym: Symbols) {
    && GoodItems(p.down, p.items, token)
    && f.buffer + later <= Stream(p, token, sym)
    && p.missed <= p.down && f.held == p.down - p.missed && f.mask == p.mask
  }

  /** A feed that has read nothing follows every stream, whatever was down before the hook. */
  lemma EmptyFeedFollows(f: Feed, token: string, down: set<nat>, items: seq<Item>, later: string, sym: Symbols)
    requires f.buffer == "" && f.held == {} && f.mask == 0
    requires GoodItems(down, items, token)
    requires later <= Stream(Begin(down, items), token, sym)
    ensures Follows(f, token, Begin(down, items), later, sym)
  {
    assert "" + later == later;
  }

  lemma FirstNewline(b: string, line: string, tail: string, n: nat)
    requires b <= line + ['\n'] + tail && '\n' !in line
    requires n < |b| && b[n] == '\n' && '\n' !in b[..n]
    ensures n == |line| && b[..n] == line && b[n + 1..] <= tail
  {
    var stream := line + ['\n'] + tail;
    assert stream[|line|] == '\n';
    assert forall i :: 0 <= i < n ==> b[..n][i] == b[i] && b[i] != '\n';
    var k := if n < |line| then n else |line|;
    assert b[k] == stream[k];
    assert b[..n] == stream[..n] == line;
    assert stream[n + 1..] == tail;
    forall i | 0 <= i < |b[n + 1..]|
      ensures i < |tail| && b[n + 1..][i] == tail[i]
    {
      assert b[n + 1 + i] == stream[n + 1 + i];
    }
  }

  lemma NextLine(f: Feed, token: string, p: Spot, later: string, sym: Symbols)
    requires GoodToken(token) && Follows(f, token, p, later, sym) && HasLine(f)
    ensures p.items != [] && Line(f) == FirstLine(p, token, sym)
    ensures f.buffer[LineEnd(f) + 1..] + later <= Stream(After(p, sym), token, sym)
  {
    FirstLineParses(p, token, sym);
    var all, n := f.buffer + later, LineEnd(f);
    assert all[..n] == f.buffer[..n] && all[n + 1..] == f.buffer[n + 1..] + later;
    FirstNewline(all, FirstLine(p, token, sym), Stream(After(p, sym), token, sym), n);
  }

  /** What consuming a line does to keys and mask, whoever consumes it. */
  lemma ConsumedKeys(f: Feed, token: string, m: Micro)
    requires (m.Decode? || m.Drain?) && HasLine(f)
    ensures var after := Step(f, token, m).0;
            match Parse(Line(f))
            case Key(e) =>
              if e.token == token then after.held == HeldAfter(f.held, e) && after.mask == HeldModifiersAfter(e)
              else after.held == f.held && after.mask == f.mask
            case _ => after.held == f.held && after.mask == f.mask
  {
    hide Parse;
  }

  lemma UnreadKeys(f: Feed, token: string, m: Micro)
    requires Removed(f, m) == 0 || m.Skip?
    ensures Step(f, token, m).0.held == f.held && Step(f, token, m).0.mask == f.mask
  {
  }

  /** `arm` drops no key event of the session. */
  predicate DropsNoKey(f: Feed, token: string, m: Micro) {
    m.Skip? && HasLine(f) ==> !(Parse(Line(f)).Key? && Parse(Line(f)).event.token == token)
  }

  /** A key line of the session that `arm` does drop is made up for iff it changes nothing the
      client keeps: a release of a key the client has not seen down, or a repetition, and with
      it the modifiers it knows of. */
  lemma DroppedKeyIsMadeUpForIff(f: Feed, token: string, p: Spot, later: string, sym: Symbols)
    requires GoodToken(token) && Follows(f, token, p, later, sym) && HasLine(f)
    requires p.items != [] && p.items[0].Key?
    ensures var s := p.items[0].stroke;
            Follows(Step(f, token, Skip).0, token, After(p, sym), later, sym)
            <==> !s.kind.Press? && (s.kind.Release? ==> s.keycode in p.missed) && After(p, sym).mask == p.mask
  {
    hide Parse, KeyLine, Stream;
    NextLine(f, token, p, later, sym);
    SeenAfter(p.down, p.missed, p.items[0].stroke);
  }

  /** Which events leave the keys that have been seen to go down and are still down as they are. */
  lemma SeenAfter(down: set<nat>, missed: set<nat>, s: Stroke)
    requires missed <= down && Possible(down, s)
    ensures var rest := if s.kind.Release? then missed - {s.keycode} else missed;
            && rest <= DownAfter(down, s)
            && (DownAfter(down, s) - rest == down - missed
                <==> !s.kind.Press? && (s.kind.Release? ==> s.keycode in missed))
  {
    var rest := if s.kind.Release? then missed - {s.keycode} else missed;
    assert s.keycode in DownAfter(down, s) - rest <==> s.keycode in DownAfter(down, s) && s.keycode !in rest;
    assert s.keycode in down - missed <==> s.keycode in down && s.keycode !in missed;
  }

  /** The place in the stream after one step. */
  ghost function Reached(f: Feed, m: Micro, p: Spot, sym: Symbols): Spot {
    if Removed(f, m) > 0 && p.items != [] then After(p, sym) else p
  }

  lemma StepFollows(f: Feed, token: string, m: Micro, p: Spot, later: string, sym: Symbols)
    requires GoodToken(token) && Follows(f, token, p, Added(f, token, m) + later, sym) && DropsNoKey(f, token, m)
    ensures Follows(Step(f, token, m).0, token, Reached(f, m, p, sym), later, sym)
    ensures Removed(f, m) > 0 ==> p.items != []
  {
    hide Step, Parse, KeyLine, Stream;
    StepBuffer(f, token, m);
    var more := Added(f, token, m) + later;
    if Removed(f, m) > 0 {
      NextLine(f, token, p, more, sym);
      FirstLineParses(p, token, sym);
      assert f.buffer[LineEnd(f) + 1..] + more == f.buffer[Removed(f, m)..] + Added(f, token, m) + later;
      if m.Skip? { UnreadKeys(f, token, m); } else { ConsumedKeys(f, token, m); }
      if p.items[0].Key? { MaskIsOfTheKey(p, token, sym); }
    } else {
      UnreadKeys(f, token, m);
      assert f.buffer + more == f.buffer[0..] + Added(f, token, m) + later;
    }
  }

  lemma MaskIsOfTheKey(p: Spot, token: string, sym: Symbols)
    requires p.items != [] && p.items[0].Key?
    ensures After(p, sym).mask == HeldModifiersAfter(Emitted(p.down, p.items[0].stroke, token, sym))
  {
  }

  // ---- runs --------------------------------------------------------------------------------------

  /** How many lines a run consumes. */
  function LinesTaken(f: Feed, token: string, micros: seq<Micro>): nat
    decreases |micros|
  {
    if micros == [] then 0
    else (if Removed(f, micros[0]) > 0 then 1 else 0) + LinesTaken(Step(f, token, micros[0]).0, token, micros[1..])
  }

  /** All the text a run reads, in whatever pieces. */
  function Received(f: Feed, token: string, micros: seq<Micro>): string
    decreases |micros|
  {
    if micros == [] then ""
    else Added(f, token, micros[0]) + Received(Step(f, token, micros[0]).0, token, micros[1..])
  }

  predicate DropNoKeys(f: Feed, token: string, micros: seq<Micro>)
    decreases |micros|
  {
    micros == [] || (DropsNoKey(f, token, micros[0]) && DropNoKeys(Step(f, token, micros[0]).0, token, micros[1..]))
  }

  lemma SpotsAdd(p: Spot, q: Spot, n: nat, taken: nat, sym: Symbols)
    requires n <= |q.items| && (taken == 0 || (taken == 1 && p.items != []))
    requires q == if taken == 1 then After(p, sym) else p
    ensures n + taken <= |p.items| && AfterN(p, n + taken, sym) == AfterN(q, n, sym)
  {
  }

  /** After any run that reads a beginning of the stream, in pieces of any size, some whole
      number of lines has been consumed, and the feed agrees with the keyboard at that place. */
  lemma {:induction false} RunFollows(f: Feed, token: string, micros: seq<Micro>, p: Spot, later: string, sym: Symbols)
    requires GoodToken(token) && DropNoKeys(f, token, micros)
    requires Follows(f, token, p, Received(f, token, micros) + later, sym)
    ensures LinesTaken(f, token, micros) <= |p.items|
    ensures Follows(Steps(f, token, micros), token, AfterN(p, LinesTaken(f, token, micros), sym), later, sym)
    decreases |micros|
  {
    hide Step, Follows, DropsNoKey, Added, Removed;
    if micros == [] {
      assert "" + later == later;
    } else {
      var m, rest := micros[0], micros[1..];
      var next, q := Step(f, token, m).0, Reached(f, m, p, sym);
      var more := Received(next, token, rest) + later;
      assert Received(f, token, micros) + later == Added(f, token, m) + more;
      StepFollows(f, token, m, p, more, sym);
      RunFollows(next, token, rest, q, later, sym);
      SpotsAdd(p, q, LinesTaken(next, token, rest), if Removed(f, m) > 0 then 1 else 0, sym);
    }
  }

  /** From the first byte: a session that has read nothing, over every run that reads a beginning
      of the stream, holds exactly the keys down where it has read to (keys down since before
      the hook excepted, until they are released). */
  lemma HeldKeysAreDown(f: Feed, token: string, micros: seq<Micro>, down: set<nat>, items: seq<Item>, sym: Symbols)
    requires GoodToken(token) && DropNoKeys(f, token, micros)
    requires f.buffer == "" && f.held == {} && f.mask == 0 && GoodItems(down, items, token)
    requires Received(f, token, micros) <= Stream(Begin(down, items), token, sym)
    ensures var n := LinesTaken(f, token, micros);
            && n <= |items|
            && var q := AfterN(Begin(down, items), n, sym);
               && Steps(f, token, micros).held == q.down - q.missed && Steps(f, token, micros).mask == q.mask
  {
    var read := Received(f, token, micros);
    EmptyFeedFollows(f, token, down, items, read, sym);
    assert read + "" == read;
    RunFollows(f, token, micros, Begin(down, items), "", sym);
  }

  // ---- keys the session has not seen go down ---------------------------------------------------------

  /** A key is released among the first `n` lines. */
  predicate ComesUp(items: seq<Item>, n: nat, k: nat)
    requires n <= |items|
  {
    exists i | 0 <= i < n :: items[i] == Item.Key(Stroke(k, Release))
  }

  lemma {:induction false} AfterNSnoc(p: Spot, n: nat, sym: Symbols)
    requires n < |p.items|
    ensures AfterN(p, n, sym).items == p.items[n..] != []
    ensures AfterN(p, n + 1, sym) == After(AfterN(p, n, sym), sym)
    decreases n
  {
    if n > 0 {
      AfterNSnoc(After(p, sym), n - 1, sym);
    }
  }

  /** The keys still missed are those down since before the hook. */
  lemma {:induction false} MissedMeansNotReleased(p: Spot, n: nat, sym: Symbols)
    requires n <= |p.items|
    ensures AfterN(p, n, sym).missed == set k | k in p.missed && !ComesUp(p.items, n, k)
    decreases n
  {
    if n > 0 {
      var item := p.items[n - 1];
      AfterNSnoc(p, n - 1, sym);
      MissedMeansNotReleased(p, n - 1, sym);
      var q := AfterN(p, n - 1, sym);
      assert q.items[0] == item;
      forall k ensures ComesUp(p.items, n, k) <==> ComesUp(p.items, n - 1, k) || item == Item.Key(Stroke(k, Release)) { }
    }
  }

  lemma {:induction false} GoodAfterN(p: Spot, n: nat, token: string, sym: Symbols)
    requires n <= |p.items| && GoodItems(p.down, p.items, token) && p.missed <= p.down
    ensures GoodItems(AfterN(p, n, sym).down, AfterN(p, n, sym).items, token)
    ensures AfterN(p, n, sym).missed <= AfterN(p, n, sym).down
    decreases n
  {
    if n > 0 {
      GoodAfterN(After(p, sym), n - 1, token, sym);
    }
  }

  /** Soundness, exactly: a confirmed release means that the keys still down are those down since
      before the hook. So nothing is down iff all of these have come up by then. */
  lemma ReleasedMeansNoNewKeyHeld(f: Feed, token: string, micros: seq<Micro>, down: set<nat>, items: seq<Item>,
                                  sym: Symbols, main: nat)
    requires GoodToken(token) && DropNoKeys(f, token, micros)
    requires f.buffer == "" && f.held == {} && f.mask == 0 && GoodItems(down, items, token)
    requires Received(f, token, micros) <= Stream(Begin(down, items), token, sym)
    requires ChordReleased(Steps(f, token, micros), main)
    ensures var n := LinesTaken(f, token, micros);
            && n <= |items|
            && var q := AfterN(Begin(down, items), n, sym);
               && q.down == (set k | k in down && !ComesUp(items, n, k))
               && (q.down == {} <==> forall k | k in down :: ComesUp(items, n, k))
  {
    var n := LinesTaken(f, token, micros);
    HeldKeysAreDown(f, token, micros, down, items, sym);
    GoodAfterN(Begin(down, items), n, token, sym);
    MissedMeansNotReleased(Begin(down, items), n, sym);
    var q := AfterN(Begin(down, items), n, sym);
    NoneSeen(q.down, q.missed);
    hide AfterN, GoodItems, Stream, Steps, Received, DropNoKeys, LinesTaken, ComesUp;
    forall k | k in down ensures ComesUp(items, n, k) <==> k !in q.missed { }
  }

  lemma NoneSeen(down: set<nat>, missed: set<nat>)
    requires missed <= down
    ensures down - missed == {} <==> down == missed
  {
    if down - missed == {} {
      forall k | k in down ensures k in missed { assert k !in down - missed; }
    }
  }

  // ---- completeness --------------------------------------------------------------------------------

  /** A sum of modifier bits, each there or not, has a bit iff it is one of them. */
  lemma BitOfSum(c1: nat, c4: nat, c8: nat, c32: nat, c64: nat, c128: nat, own: nat)
    requires c1 <= 1 && c4 <= 1 && c8 <= 1 && c32 <= 1 && c64 <= 1 && c128 <= 1
    requires own == 1 || own == 4 || own == 8 || own == 64
    ensures var sum := c1 + 4 * c4 + 8 * c8 + 32 * c32 + 64 * c64 + 128 * c128;
            HasBit(sum, own) <==> (if own == 1 then c1 else if own == 4 then c4 else if own == 8 then c8 else c64) == 1
  {
    var sum := c1 + 4 * c4 + 8 * c8 + 32 * c32 + 64 * c64 + 128 * c128;
    assert sum % 2 == c1;
    assert sum / 4 == c4 + 2 * (c8 + 4 * c32 + 8 * c64 + 16 * c128);
    assert sum / 8 == c8 + 2 * (2 * c32 + 4 * c64 + 8 * c128);
    assert sum / 64 == c64 + 2 * c128;
  }

  /** A modifier of kind `bit` is held. */
  ghost predicate Holds(down: set<nat>, sym: Symbols, bit: nat) {
    exists k :: k in down && sym(k) == bit
  }

  ghost function Count(down: set<nat>, sym: Symbols, bit: nat): nat {
    if Holds(down, sym, bit) then 1 else 0
  }

  lemma MaskIsSum(down: set<nat>, sym: Symbols)
    ensures HookMask(down, sym) == Count(down, sym, 1) + 4 * Count(down, sym, 4) + 8 * Count(down, sym, 8)
              + 32 * Count(down, sym, 32) + 64 * Count(down, sym, 64) + 128 * Count(down, sym, 128)
  {
  }

  /** No modifier is held but those of kind `own`. */
  ghost predicate HoldsOnly(down: set<nat>, sym: Symbols, own: Option<nat>) {
    forall j | j in down :: sym(j) == 0 || own == Some(sym(j))
  }

  lemma HoldsOnlyMeans(down: set<nat>, sym: Symbols, own: Option<nat>)
    requires GoodSymbols(sym) && (own.Some? ==> own.value > 0)
    ensures HoldsOnly(down, sym, own) <==>
            && (Holds(down, sym, 1) ==> own == Some(1)) && (Holds(down, sym, 4) ==> own == Some(4))
            && (Holds(down, sym, 8) ==> own == Some(8)) && (Holds(down, sym, 32) ==> own == Some(32))
            && (Holds(down, sym, 64) ==> own == Some(64)) && (Holds(down, sym, 128) ==> own == Some(128))
  {
    if j :| j in down && sym(j) != 0 && own != Some(sym(j)) {
      assert Holds(down, sym, sym(j));
    }
  }

  /** The modifiers after the event of a key that is down, `down` with that key: none iff it
      comes up and all that is held is of its own kind, or it is no modifier and nothing is. */
  predicate LeavesNoModifier(down: set<nat>, s: Stroke, sym: Symbols) {
    && (!s.kind.Release? ==> OwnBit(s.keycode).None?)
    && forall j | j in down + {s.keycode} :: sym(j) == 0 || OwnBit(s.keycode) == Some(sym(j))
  }

  lemma MaskIsEmptyIff(down: set<nat>, s: Stroke, token: string, sym: Symbols)
    requires GoodSymbols(sym) && s.keycode in down
    ensures HeldModifiersAfter(Emitted(down, s, token, sym)) == 0 <==> LeavesNoModifier(down, s, sym)
  {
    hide HookMask, Holds, HoldsOnly;
    var own := OwnBit(s.keycode);
    assert down + {s.keycode} == down;
    HoldsOnlyIs(down, sym, own);
    MaskIsSum(down, sym);
    HoldsOnlyMeans(down, sym, own);
    if own.Some? {
      BitOfSum(Count(down, sym, 1), Count(down, sym, 4), Count(down, sym, 8), Count(down, sym, 32),
               Count(down, sym, 64), Count(down, sym, 128), own.value);
    }
  }

  lemma HoldsOnlyIs(down: set<nat>, sym: Symbols, own: Option<nat>)
    ensures HoldsOnly(down, sym, own) <==> forall j | j in down :: sym(j) == 0 || own == Some(sym(j))
  {
  }

  /** The last key's release leaves the held mask empty iff the key carries no modifier symbol,
      or one whose bit the client clears: Ctrl, Shift, Alt or Super under its usual key. */
  lemma LastReleaseClearsMaskIff(k: nat, token: string, sym: Symbols)
    requires GoodSymbols(sym)
    ensures HeldModifiersAfter(Emitted({k}, Stroke(k, Release), token, sym)) == 0
            <==> sym(k) == 0 || OwnBit(k) == Some(sym(k))
  {
    MaskIsEmptyIff({k}, Stroke(k, Release), token, sym);
    assert {k} + {k} == {k};
  }

  /** The last key event among the first `n` lines. */
  function LastKey(items: seq<Item>, n: nat): Option<Stroke>
    requires n <= |items|
  {
    if n == 0 then None
    else
      match items[n - 1]
      case Key(s) => Some(s)
      case Noise(_) => LastKey(items, n - 1)
  }

  /** Its release clears its own modifier, if it carries one. */
  predicate ClearsItself(k: nat, sym: Symbols) {
    sym(k) == 0 || OwnBit(k) == Some(sym(k))
  }

  /** Where all keys down are missed ones, the last key event was no press, and the mask is empty
      iff it leaves no modifier; other lines in between change nothing. */
  lemma {:induction false} MaskWhereOnlyMissed(p: Spot, n: nat, token: string, sym: Symbols)
    requires GoodSymbols(sym) && GoodItems(p.down, p.items, token) && p.missed <= p.down && n <= |p.items|
    requires var q := AfterN(p, n, sym);
             q.down == q.missed && LastKey(p.items, n).Some?
    ensures var q, s := AfterN(p, n, sym), LastKey(p.items, n).value;
            && !s.kind.Press? && (q.mask == 0 <==> LeavesNoModifier(q.down, s, sym))
            && (q.down == {} ==> s.kind.Release?)
    decreases n
  {
    AfterNSnoc(p, n - 1, sym);
    var before := AfterN(p, n - 1, sym);
    GoodAfterN(p, n - 1, token, sym);
    assert before.items[0] == p.items[n - 1];
    match p.items[n - 1] {
      case Noise(_) => MaskWhereOnlyMissed(p, n - 1, token, sym);
      case Key(s) =>
        MaskIsEmptyIff(before.down, s, "", sym);
        assert before.down + {s.keycode} == AfterN(p, n, sym).down + {s.keycode};
    }
  }

  lemma {:induction false} MaskWithoutKeys(p: Spot, n: nat, sym: Symbols)
    requires n <= |p.items| && LastKey(p.items, n).None?
    ensures AfterN(p, n, sym).mask == p.mask
    decreases n
  {
    if n > 0 {
      AfterNSnoc(p, n - 1, sym);
      MaskWithoutKeys(p, n - 1, sym);
      assert AfterN(p, n - 1, sym).items[0] == p.items[n - 1];
    }
  }

  /** After `n` lines the keys down are those down since before the hook, and the last key event
      leaves no modifier that the client knows of. */
  ghost predicate UpAfter(down: set<nat>, items: seq<Item>, n: nat, sym: Symbols) {
    && n <= |items|
    && var q := AfterN(Begin(down, items), n, sym);
       && q.down == q.missed
       && (LastKey(items, n).Some? ==> LeavesNoModifier(q.down, LastKey(items, n).value, sym))
  }

  lemma ConfirmedWhereUp(f: Feed, token: string, down: set<nat>, items: seq<Item>, n: nat, later: string,
                         main: nat, sym: Symbols)
    requires GoodSymbols(sym) && GoodItems(down, items, token) && n <= |items|
    requires Follows(f, token, AfterN(Begin(down, items), n, sym), later, sym)
    ensures ChordReleased(f, main) <==> UpAfter(down, items, n, sym)
  {
    hide Stream, LeavesNoModifier;
    var p := Begin(down, items);
    var q := AfterN(p, n, sym);
    NoneSeen(q.down, q.missed);
    if q.down == q.missed {
      if LastKey(items, n).Some? {
        MaskWhereOnlyMissed(p, n, token, sym);
      } else {
        MaskWithoutKeys(p, n, sym);
      }
    }
  }

  /** Completeness, exactly: over every run from the first byte, the release is confirmed iff the
      only keys down where the client has read to are those down since before the hook, and the
      last key event leaves no modifier. */
  lemma LastReleaseIsConfirmedIff(f: Feed, token: string, micros: seq<Micro>, down: set<nat>, items: seq<Item>,
                                  sym: Symbols, main: nat)
    requires GoodToken(token) && GoodSymbols(sym) && DropNoKeys(f, token, micros)
    requires f.buffer == "" && f.held == {} && f.mask == 0 && GoodItems(down, items, token)
    requires Received(f, token, micros) <= Stream(Begin(down, items), token, sym)
    ensures ChordReleased(Steps(f, token, micros), main) <==> UpAfter(down, items, LinesTaken(f, token, micros), sym)
  {
    hide UpAfter;
    var read := Received(f, token, micros);
    EmptyFeedFollows(f, token, down, items, read, sym);
    assert read + "" == read;
    RunFollows(f, token, micros, Begin(down, items), "", sym);
    ConfirmedWhereUp(Steps(f, token, micros), token, down, items, LinesTaken(f, token, micros), "", main, sym);
  }

  /** Where nothing is down, that is so iff no key event came at all, or the last was the release
      of a key that clears its own modifier, if it carries one. */
  lemma NothingDownIsUpIff(down: set<nat>, items: seq<Item>, n: nat, token: string, sym: Symbols)
    requires GoodSymbols(sym) && GoodItems(down, items, token) && n <= |items|
    requires AfterN(Begin(down, items), n, sym).down == {}
    ensures UpAfter(down, items, n, sym)
            <==> LastKey(items, n).None? || ClearsItself(LastKey(items, n).value.keycode, sym)
  {
    var p := Begin(down, items);
    GoodAfterN(p, n, token, sym);
    if LastKey(items, n).Some? {
      MaskWhereOnlyMissed(p, n, token, sym);
      var k := LastKey(items, n).value.keycode;
      assert {} + {k} == {k};
    }
  }

  // ---- the wait ---------------------------------------------------------------------------------------

  lemma {:induction false} DrainFollows(f: Feed, token: string, p: Spot, later: string, sym: Symbols)
    requires GoodToken(token) && Follows(f, token, p, later, sym)
    ensures |Lines(f.buffer)| <= |p.items| && DrainAll(f, token).1
    ensures Follows(DrainAll(f, token).0, token, AfterN(p, |Lines(f.buffer)|, sym), later, sym)
    decreases |f.buffer|
  {
    hide Parse, Follows, DrainLine, Stream;
    if HasLine(f) {
      NextIsGood(f, token, p, later, sym);
      DrainTakesOne(f, token);
      var rest := DrainLine(f, token).0;
      assert Added(f, token, Drain) + later == later;
      StepFollows(f, token, Drain, p, later, sym);
      assert Lines(f.buffer)[1..] == Lines(rest.buffer);
      DrainFollows(rest, token, After(p, sym), later, sym);
    }
  }

  lemma NextIsGood(f: Feed, token: string, p: Spot, later: string, sym: Symbols)
    requires GoodToken(token) && Follows(f, token, p, later, sym) && HasLine(f)
    ensures p.items != [] && !Parse(Line(f)).ConfigReloaded?
  {
    hide Parse, Stream;
    NextLine(f, token, p, later, sym);
    FirstLineParses(p, token, sym);
  }

  function TextOf(e: PollEvent): string {
    if e.Data? then e.chunk else ""
  }

  /** The text polled before the `n`th check, and from it on. */
  function TextAt(polls: seq<Poll>, n: nat): string
    requires n <= |polls|
  {
    if n == 0 then "" else TextAt(polls, n - 1) + TextOf(polls[n - 1].event)
  }

  function TextFrom(polls: seq<Poll>, n: nat): string
    requires n <= |polls|
    decreases |polls| - n
  {
    if n == |polls| then "" else TextOf(polls[n].event) + TextFrom(polls, n + 1)
  }

  /** No renewal is refused, no poll breaks. */
  predicate Undisturbed(polls: seq<Poll>) {
    forall i | 0 <= i < |polls| :: polls[i].renewed && !polls[i].event.Broken? && !polls[i].event.Hangup?
  }

  lemma PolledFollows(f: Feed, token: string, e: PollEvent, p: Spot, later: string, sym: Symbols)
    requires GoodToken(token) && Follows(f, token, p, TextOf(e) + later, sym) && Lines(f.buffer) == []
    requires !e.Broken? && !e.Hangup?
    ensures Polled(f, token, e).1
    ensures Polled(f, token, e).0.buffer == Remainder(f.buffer + TextOf(e))
    ensures |Lines(f.buffer + TextOf(e))| <= |p.items|
    ensures Follows(Polled(f, token, e).0, token, AfterN(p, |Lines(f.buffer + TextOf(e))|, sym), later, sym)
  {
    hide Stream, DrainAll;
    if e.Data? {
      var read := Receive(f, e.chunk);
      assert read.buffer + later == f.buffer + (e.chunk + later);
      DrainFollows(read, token, p, later, sym);
      DrainStopsAtReload(read, token);
    } else {
      assert f.buffer + "" == f.buffer && "" + later == later;
    }
  }

  lemma {:induction false} SpotsJoin(p: Spot, m: nat, n: nat, sym: Symbols)
    requires m <= |p.items| && n <= |AfterN(p, m, sym).items|
    ensures m + n <= |p.items| && AfterN(p, m + n, sym) == AfterN(AfterN(p, m, sym), n, sym)
    decreases m
  {
    if m > 0 {
      SpotsJoin(After(p, sym), m - 1, n, sym);
    }
  }

  /** All complete lines of `read` have been consumed from `p` on, and the feed agrees with the
      keyboard at that place. */
  ghost predicate HasRead(at: Feed, read: string, token: string, p: Spot, later: string, sym: Symbols) {
    && at.buffer == Remainder(read) && |Lines(read)| <= |p.items|
    && Follows(at, token, AfterN(p, |Lines(read)|, sym), later, sym)
  }

  lemma DrainHasRead(f: Feed, token: string, p: Spot, later: string, sym: Symbols)
    requires GoodToken(token) && Follows(f, token, p, later, sym)
    ensures DrainAll(f, token).1 && HasRead(DrainAll(f, token).0, f.buffer, token, p, later, sym)
  {
    hide Follows, DrainAll, AfterN, Lines, Remainder;
    DrainFollows(f, token, p, later, sym);
    DrainStopsAtReload(f, token);
  }

  lemma PollHasRead(at: Feed, read: string, token: string, e: PollEvent, p: Spot, later: string, sym: Symbols)
    requires GoodToken(token) && !e.Broken? && !e.Hangup?
    requires HasRead(at, read, token, p, TextOf(e) + later, sym)
    ensures Polled(at, token, e).1
    ensures HasRead(Polled(at, token, e).0, read + TextOf(e), token, p, later, sym)
  {
    hide Follows, Polled, AfterN;
    RemainderHasNoLine(read);
    PolledFollows(at, token, e, AfterN(p, |Lines(read)|, sym), later, sym);
    LinesOfMore(read, TextOf(e));
    SpotsJoin(p, |Lines(read)|, |Lines(at.buffer + TextOf(e))|, sym);
  }

  lemma PollStep(f: Feed, token: string, polls: seq<Poll>, n: nat)
    requires n <= |polls|
    ensures if n == 0 then TextAt(polls, 0) == "" && FeedAt(f, token, polls, 0) == f
            else
              var e := polls[n - 1].event;
              && TextAt(polls, n) == TextAt(polls, n - 1) + TextOf(e)
              && TextFrom(polls, n - 1) == TextOf(e) + TextFrom(polls, n)
              && FeedAt(f, token, polls, n) == Polled(FeedAt(f, token, polls, n - 1), token, e).0
  {
    hide Polled;
  }

  /** So it is before the `n`th check, with everything that was there and was polled. */
  lemma {:induction false} CheckHasRead(f: Feed, token: string, polls: seq<Poll>, n: nat, p: Spot,
                                        later: string, sym: Symbols)
    requires GoodToken(token) && Undisturbed(polls) && n <= |polls|
    requires Follows(f, token, p, TextFrom(polls, 0) + later, sym)
    ensures HasRead(FeedAt(DrainAll(f, token).0, token, polls, n), f.buffer + TextAt(polls, n), token, p,
                    TextFrom(polls, n) + later, sym)
    decreases n
  {
    hide Follows, DrainAll, Polled, HasRead, FeedAt, TextAt, TextFrom;
    PollStep(DrainAll(f, token).0, token, polls, n);
    if n == 0 {
      DrainHasRead(f, token, p, TextFrom(polls, 0) + later, sym);
      assert f.buffer + "" == f.buffer;
    } else {
      var e, more := polls[n - 1].event, TextFrom(polls, n) + later;
      CheckHasRead(f, token, polls, n - 1, p, later, sym);
      var before := f.buffer + TextAt(polls, n - 1);
      assert TextFrom(polls, n - 1) + later == TextOf(e) + more;
      assert f.buffer + TextAt(polls, n) == before + TextOf(e);
      PollHasRead(FeedAt(DrainAll(f, token).0, token, polls, n - 1), before, token, e, p, more, sym);
    }
  }

  /** The lines read before the `n`th check of a wait that starts `taken` lines into the stream. */
  function LinesAt(f: Feed, taken: nat, polls: seq<Poll>, n: nat): nat
    requires n <= |polls|
  {
    taken + |Lines(f.buffer + TextAt(polls, n))|
  }

  lemma CheckMeans(f: Feed, t: Task, polls: seq<Poll>, n: nat, down: set<nat>, items: seq<Item>, taken: nat,
                   later: string, sym: Symbols)
    requires GoodToken(t.token) && GoodSymbols(sym) && Undisturbed(polls) && n <= |polls|
    requires GoodItems(down, items, t.token) && taken <= |items|
    requires Follows(f, t.token, AfterN(Begin(down, items), taken, sym), TextFrom(polls, 0) + later, sym)
    ensures ChordReleased(FeedAt(DrainAll(f, t.token).0, t.token, polls, n), t.main)
            <==> UpAfter(down, items, LinesAt(f, taken, polls, n), sym)
  {
    hide Follows, DrainAll, AfterN, FeedAt, UpAfter, ChordReleased, Lines, TextAt, TextFrom;
    var p, at := Begin(down, items), FeedAt(DrainAll(f, t.token).0, t.token, polls, n);
    var read := f.buffer + TextAt(polls, n);
    CheckHasRead(f, t.token, polls, n, AfterN(p, taken, sym), later, sym);
    SpotsJoin(p, taken, |Lines(read)|, sym);
    ConfirmedWhereUp(at, t.token, down, items, taken + |Lines(read)|, TextFrom(polls, n) + later, t.main, sym);
  }

  lemma NothingFails(f: Feed, token: string, polls: seq<Poll>, n: nat, p: Spot, later: string, sym: Symbols)
    requires GoodToken(token) && Undisturbed(polls) && n <= |polls|
    requires Follows(f, token, p, TextFrom(polls, 0) + later, sym)
    ensures !Reloads(Lines(f.buffer))
    ensures n < |polls| ==> !PollFails(DrainAll(f, token).0, token, polls, n)
  {
    hide Follows, DrainAll, HasRead, Polled, Lines, Reloads, PollFails, FeedAt, TextAt, TextFrom;
    var start := DrainAll(f, token).0;
    DrainHasRead(f, token, p, TextFrom(polls, 0) + later, sym);
    DrainStopsAtReload(f, token);
    if n < |polls| {
      var e, read, more := polls[n].event, f.buffer + TextAt(polls, n), TextFrom(polls, n + 1) + later;
      CheckHasRead(f, token, polls, n, p, later, sym);
      PollStep(start, token, polls, n + 1);
      assert TextFrom(polls, n) + later == TextOf(e) + more;
      PollHasRead(FeedAt(start, token, polls, n), read, token, e, p, more, sym);
      PolledGoesOnIff(start, token, polls, n);
    }
  }

  lemma {:induction false} TimeGoesOn(polls: seq<Poll>, m: nat, n: nat)
    requires m <= n <= |polls|
    ensures ElapsedAt(polls, m) <= ElapsedAt(polls, n)
    decreases n
  {
    if m < n {
      TimeGoesOn(polls, m, n - 1);
    }
  }

  /** A wait that starts at `f`, `taken` lines into the stream, does not fail, and is released iff
      at one of the checks it has time for the only keys down are those down since before the
      hook, and the last key event leaves no modifier. */
  ghost predicate ReleasedWhenUp(f: Feed, t: Task, polls: seq<Poll>, last: Refresh, down: set<nat>, items: seq<Item>,
                                 taken: nat, sym: Symbols) {
    var status := WaitFor(f, t, polls, last).status;
    && !status.Failed?
    && (status.Released? <==>
          exists n | 0 <= n <= |polls| :: WithinTime(t, polls, n) && UpAfter(down, items, LinesAt(f, taken, polls, n), sym))
  }

  /** The wait itself, exactly: undisturbed, it reports the release iff that is so at one of its
      checks within the time. It never fails then. */
  lemma WaitReleasesIff(f: Feed, t: Task, polls: seq<Poll>, last: Refresh, down: set<nat>, items: seq<Item>,
                        taken: nat, later: string, sym: Symbols)
    requires GoodToken(t.token) && GoodSymbols(sym) && Undisturbed(polls)
    requires GoodItems(down, items, t.token) && taken <= |items|
    requires Follows(f, t.token, AfterN(Begin(down, items), taken, sym), TextFrom(polls, 0) + later, sym)
    ensures ReleasedWhenUp(f, t, polls, last, down, items, taken, sym)
  {
    hide Follows, DrainAll, AfterN, Polled, UpAfter, ChordReleased, PollFails, Reloads, LinesAt, WaitFor;
    var start := DrainAll(f, t.token).0;
    forall n | 0 <= n <= |polls|
      ensures ChordReleased(FeedAt(start, t.token, polls, n), t.main)
              <==> UpAfter(down, items, LinesAt(f, taken, polls, n), sym)
      ensures !Reloads(Lines(f.buffer))
      ensures n < |polls| ==> !PollFails(start, t.token, polls, n) && !RenewalFails(t, polls, n)
    {
      CheckMeans(f, t, polls, n, down, items, taken, later, sym);
      NothingFails(f, t.token, polls, n, AfterN(Begin(down, items), taken, sym), later, sym);
    }
    var rounds := WaitEnds(f, t, polls, last);
    forall n | rounds <= n <= |polls| ensures ElapsedAt(polls, rounds) <= ElapsedAt(polls, n) {
      TimeGoesOn(polls, rounds, n);
    }
    assert FeedAt(start, t.token, polls, 0) == start;
    match WaitFor(f, t, polls, last).status {
      case Released =>
        assert WithinTime(t, polls, rounds);
      case TimedOut =>
        forall n | 0 <= n <= |polls| && WithinTime(t, polls, n)
          ensures !UpAfter(down, items, LinesAt(f, taken, polls, n), sym)
        {
          if n > 0 {
            assert n < rounds;
            assert GoesOn(start, t, polls, n);
          }
        }
      case Failed => assert false;
    }
  }

  /** The `n`th check is made: the first always, the others while there is time. */
  predicate WithinTime(t: Task, polls: seq<Poll>, n: nat)
    requires n <= |polls|
  {
    n == 0 || (n < |polls| && ElapsedAt(polls, n) < t.maxMs)
  }

  /** The same for a session from its first byte: whatever run of its consumers comes before the
      wait, and however the stream is cut into reads and polls. */
  lemma WaitReleasesFromTheStart(f: Feed, micros: seq<Micro>, t: Task, polls: seq<Poll>, last: Refresh,
                                 down: set<nat>, items: seq<Item>, sym: Symbols)
    requires GoodToken(t.token) && GoodSymbols(sym) && Undisturbed(polls) && DropNoKeys(f, t.token, micros)
    requires f.buffer == "" && f.held == {} && f.mask == 0 && GoodItems(down, items, t.token)
    requires Received(f, t.token, micros) + TextFrom(polls, 0) <= Stream(Begin(down, items), t.token, sym)
    ensures var g, taken := Steps(f, t.token, micros), LinesTaken(f, t.token, micros);
            taken <= |items| && ReleasedWhenUp(g, t, polls, last, down, items, taken, sym)
  {
    hide ReleasedWhenUp, Follows, Steps, LinesTaken, AfterN, Stream, GoodItems, Received, DropNoKeys, TextFrom;
    var start, text := Begin(down, items), TextFrom(polls, 0);
    EmptyFeedFollows(f, t.token, down, items, Received(f, t.token, micros) + text, sym);
    RunFollows(f, t.token, micros, start, text, sym);
    assert text + "" == text;
    WaitReleasesIff(Steps(f, t.token, micros), t, polls, last, down, items, LinesTaken(f, t.token, micros), "", sym);
  }

  // ---- at given streams ----------------------------------------------------------------------------------

  lemma {:induction false} LinesOfStream(p: Spot, token: string, sym: Symbols)
    requires GoodToken(token) && GoodItems(p.down, p.items, token)
    ensures |Lines(Stream(p, token, sym))| == |p.items|
    decreases |p.items|
  {
    hide Parse, KeyLine;
    if p.items != [] {
      var line, rest := FirstLine(p, token, sym), Stream(After(p, sym), token, sym);
      var s := Stream(p, token, sym);
      FirstLineParses(p, token, sym);
      FindAt(line, '\n', rest);
      assert s[..|line|] == line && s[|line| + 1..] == rest;
      LinesOfStream(After(p, sym), token, sym);
    }
  }

  /** Nothing more is read. */
  predicate Quiet(polls: seq<Poll>) {
    forall i | 0 <= i < |polls| :: polls[i].renewed && (polls[i].event.Silent? || polls[i].event.Interrupted?)
  }

  lemma {:induction false} QuietText(polls: seq<Poll>, n: nat)
    requires Quiet(polls) && n <= |polls|
    ensures TextAt(polls, n) == ""
    decreases n
  {
    if n > 0 {
      QuietText(polls, n - 1);
    }
  }

  lemma {:induction false} QuietAhead(polls: seq<Poll>, n: nat)
    requires Quiet(polls) && n <= |polls|
    ensures TextFrom(polls, n) == ""
    decreases |polls| - n
  {
    if n < |polls| {
      QuietAhead(polls, n + 1);
    }
  }

  /** A wait that finds the whole stream in the buffer. */
  lemma WaitOnWholeStream(f: Feed, t: Task, polls: seq<Poll>, last: Refresh, down: set<nat>, items: seq<Item>,
                          sym: Symbols)
    requires GoodToken(t.token) && GoodSymbols(sym) && Quiet(polls) && GoodItems(down, items, t.token)
    requires f.buffer == Stream(Begin(down, items), t.token, sym) && f.held == {} && f.mask == 0
    ensures WaitFor(f, t, polls, last).status
         == if UpAfter(down, items, |items|, sym) then Released else TimedOut
  {
    hide WaitFor, UpAfter, Stream, Lines, GoodItems, GoodSymbols;
    var p := Begin(down, items);
    QuietAhead(polls, 0);
    LinesOfStream(p, t.token, sym);
    assert f.buffer + ("" + "") == f.buffer;
    assert AfterN(p, 0, sym) == p;
    WaitReleasesIff(f, t, polls, last, down, items, 0, "", sym);
    forall n | 0 <= n <= |polls| ensures LinesAt(f, 0, polls, n) == |items| {
      QuietText(polls, n);
      assert f.buffer + "" == f.buffer;
    }
    assert WithinTime(t, polls, 0);
    assert LinesAt(f, 0, polls, 0) == |items|;
  }

  /** The stream of one key that is pressed and let go. */
  function Tap(k: nat): seq<Item> {
    [Item.Key(Stroke(k, Press)), Item.Key(Stroke(k, Release))]
  }

  lemma AfterTap(k: nat, down: set<nat>, token: string, sym: Symbols)
    requires k <= 0xFFFF_FFFF && k !in down
    ensures GoodItems(down, Tap(k), token)
    ensures var q := AfterN(Begin(down, Tap(k)), 2, sym);
            q.down == down && q.missed == down && LastKey(Tap(k), 2) == Some(Stroke(k, Release))
  {
    var p := Begin(down, Tap(k));
    assert p.items[1..] == [Item.Key(Stroke(k, Release))] && p.items[1..][1..] == [];
    assert AfterN(p, 2, sym) == After(After(p, sym), sym);
    assert down + {k} - {k} == down;
  }

  /** Left Shift is down when the hook is installed, and Right Shift is tapped: the wait reports
      the release with Left Shift down. So it is with any other key held since before the hook
      that carries no modifier. */
  lemma HeldBeforeIsNotSeen(f: Feed, t: Task, polls: seq<Poll>, last: Refresh, sym: Symbols, held: nat, tapped: nat)
    requires GoodToken(t.token) && GoodSymbols(sym) && Quiet(polls)
    requires (held == 50 && tapped == 62 && sym(50) == 1 && sym(62) == 1)
          || (held == 38 && tapped == 39 && sym(38) == 0 && sym(39) == 0)
    requires f.buffer == Stream(Begin({held}, Tap(tapped)), t.token, sym) && f.held == {} && f.mask == 0
    ensures WaitFor(f, t, polls, last).status == Released
    ensures AfterN(Begin({held}, Tap(tapped)), 2, sym).down == {held}
  {
    AfterTap(tapped, {held}, t.token, sym);
    hide WaitFor, Stream, GoodItems, AfterN;
    WaitOnWholeStream(f, t, polls, last, {held}, Tap(tapped), sym);
  }

  /** Right Alt producing ISO_Level3_Shift, or Hyper, is tapped: nothing is down, and the wait
      times out, however long it is. */
  lemma AltGrReleaseIsNotConfirmed(f: Feed, t: Task, polls: seq<Poll>, last: Refresh, sym: Symbols, k: nat)
    requires GoodToken(t.token) && GoodSymbols(sym) && Quiet(polls)
    requires (k == 108 && sym(108) == 128) || (k == 207 && sym(207) == 32)
    requires f.buffer == Stream(Begin({}, Tap(k)), t.token, sym) && f.held == {} && f.mask == 0
    ensures WaitFor(f, t, polls, last).status == TimedOut
    ensures AfterN(Begin({}, Tap(k)), 2, sym).down == {}
  {
    AfterTap(k, {}, t.token, sym);
    hide WaitFor, Stream, GoodItems, AfterN;
    WaitOnWholeStream(f, t, polls, last, {}, Tap(k), sym);
    assert k in {} + {k};
  }
}
