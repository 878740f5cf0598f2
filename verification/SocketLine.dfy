/** The lines of the compositor's event socket. */
module SocketLine {
  import opened Wrappers
  import opened Text
  import opened Decimal

  datatype KeyEventType = Press | Repeat | Release

  /** One key event of the hook: `mask` is the modifier state before the event. */
  datatype KeyEvent = KeyEvent(token: string, keycode: nat, kind: KeyEventType, mask: nat)

  datatype SocketMessage =
    | ArmedBy(token: string)
    | Key(event: KeyEvent)
    | ActiveLayout(keyboard: string, layout: string)
    | ConfigReloaded
    | Other

  // ---- parsing --------------------------------------------------------------------------

  const RELOADED := "configreloaded>>"
  const LAYOUT := "activelayout>>"
  const PROBE := "custom>>whykey-probe,"

  function KindOf(raw: nat): Option<KeyEventType> {
    if raw == 0 then Some(Release) else if raw == 1 then Some(Press)
    else if raw == 2 then Some(Repeat) else None
  }

  function ParseKey(parts: seq<string>): SocketMessage
    requires |parts| == 4
  {
    var keycode := ParseUnsigned(parts[1], U32_MAX);
    var state := ParseUnsigned(parts[2], U32_MAX);
    var mask := ParseUnsigned(parts[3], U32_MAX);
    if keycode.None? || state.None? || mask.None? || KindOf(state.value).None? then Other
    else Key(KeyEvent(parts[0], keycode.value, KindOf(state.value).value, mask.value))
  }

  function ParseLayout(payload: string): SocketMessage {
    match Find(payload, ',')
    case None => ActiveLayout(payload, "")
    case Some(i) => ActiveLayout(payload[..i], payload[i + 1..])
  }

  function ParseProbe(parts: seq<string>): SocketMessage
    requires parts != []
  {
    if |parts| > 1 && (parts[1] == "armed" || parts[1] == "ready") then ArmedBy(parts[0])
    else if |parts| == 4 then ParseKey(parts)
    else Other
  }

  /** `parse_socket_line`. */
  function Parse(line: string): SocketMessage {
    var trimmed := Trim(line);
    if RELOADED <= trimmed then ConfigReloaded
    else if LAYOUT <= trimmed then ParseLayout(trimmed[|LAYOUT|..])
    else if !(PROBE <= trimmed) then Other
    else ParseProbe(Split(trimmed[|PROBE|..], ','))
  }

  // ---- what the hook prints ------------------------------------------------------------------

  function KindNumber(k: KeyEventType): nat {
    match k case Release => 0 case Press => 1 case Repeat => 2
  }

  function Joined(field: string, rest: string): string {
    field + [','] + rest
  }

  /** The event a listener dispatches for a key: `whykey-probe,TOKEN,%d,%d,%d`. */
  function KeyLine(e: KeyEvent): string {
    PROBE + Joined(e.token, Joined(Print(e.keycode), Joined(Print(KindNumber(e.kind)), Print(e.mask))))
  }

  function ArmedLine(token: string): string {
    PROBE + Joined(token, "armed")
  }

  /** Tokens as the client generates them: no separator, no blank. */
  predicate GoodToken(t: string) {
    t != "" && ',' !in t && NoWhitespace(t)
  }

  predicate GoodEvent(e: KeyEvent) {
    GoodToken(e.token) && e.keycode <= U32_MAX && e.mask <= U32_MAX
  }

  lemma DigitsAreTight(s: string)
    requires AllDigits(s) && s != []
    ensures ',' !in s && NoWhitespace(s) && !IsWhitespace(s[|s| - 1])
    ensures s != "armed" && s != "ready"
  {
    assert IsDigit(s[0]);
  }

  lemma SplitSingle(s: string, c: char)
    requires c !in s
    ensures Split(s, c) == [s]
  {
  }

  lemma NotPrefix(line: string, prefix: string, other: string, i: nat)
    requires prefix <= line && i < |prefix| && i < |other| && prefix[i] != other[i]
    ensures !(other <= line)
  {
    assert line[i] == prefix[i];
  }

  lemma ProbeStart(line: string)
    requires PROBE <= line
    ensures line[0] == 'c' && !(RELOADED <= line) && !(LAYOUT <= line)
  {
    NotPrefix(line, PROBE, RELOADED, 1);
    NotPrefix(line, PROBE, LAYOUT, 0);
    assert line[0] == PROBE[0];
  }

  lemma ProbeLine(line: string)
    requires PROBE <= line && !IsWhitespace(line[|line| - 1])
    ensures Parse(line) == ParseProbe(Split(line[|PROBE|..], ','))
  {
    ProbeStart(line);
    TrimOfTight(line);
  }

  lemma SplitJoined(head: string, rest: string, whole: string, parts: seq<string>)
    requires ',' !in head && Split(rest, ',') == parts && whole == Joined(head, rest)
    ensures Split(whole, ',') == [head] + parts
  {
    SplitCons(head, ',', rest);
  }

  lemma SplitFields(a: string, b: string, c: string, d: string, cd: string, bcd: string, abcd: string)
    requires ',' !in a && ',' !in b && ',' !in c && ',' !in d
    requires cd == Joined(c, d) && bcd == Joined(b, cd) && abcd == Joined(a, bcd)
    ensures Split(abcd, ',') == [a, b, c, d]
  {
    SplitSingle(d, ',');
    SplitJoined(c, d, cd, [d]);
    SplitJoined(b, cd, bcd, [c, d]);
    SplitJoined(a, bcd, abcd, [b, c, d]);
  }

  function Fields(e: KeyEvent): seq<string> {
    [e.token, Print(e.keycode), Print(KindNumber(e.kind)), Print(e.mask)]
  }

  lemma FieldsParse(e: KeyEvent)
    requires GoodEvent(e)
    ensures ParseProbe(Fields(e)) == Key(e)
  {
    DigitsAreTight(Print(e.keycode));
    ParseOfPrint(e.keycode, U32_MAX);
    ParseOfPrint(KindNumber(e.kind), U32_MAX);
    ParseOfPrint(e.mask, U32_MAX);
  }

  lemma FieldsSplit(e: KeyEvent, line: string)
    requires GoodEvent(e) && line == KeyLine(e)
    ensures PROBE <= line && !IsWhitespace(line[|line| - 1])
    ensures Split(line[|PROBE|..], ',') == Fields(e)
  {
    var kc, st, mask := Print(e.keycode), Print(KindNumber(e.kind)), Print(e.mask);
    DigitsAreTight(kc);
    DigitsAreTight(st);
    DigitsAreTight(mask);
    var cd := Joined(st, mask);
    var bcd := Joined(kc, cd);
    var abcd := Joined(e.token, bcd);
    assert line[|PROBE|..] == abcd;
    assert line[|line| - 1] == mask[|mask| - 1];
    SplitFields(e.token, kc, st, mask, cd, bcd, abcd);
  }

  /** The reader understands what the hook prints, field by field. */
  lemma KeyLineRoundTrip(e: KeyEvent)
    requires GoodEvent(e)
    ensures Parse(KeyLine(e)) == Key(e)
  {
    FieldsSplit(e, KeyLine(e));
    ProbeLine(KeyLine(e));
    FieldsParse(e);
  }

  lemma ArmedSplit(t: string, line: string)
    requires GoodToken(t) && line == ArmedLine(t)
    ensures PROBE <= line && !IsWhitespace(line[|line| - 1])
    ensures Split(line[|PROBE|..], ',') == [t, "armed"]
  {
    var payload := Joined(t, "armed");
    assert line[|PROBE|..] == payload && line[|line| - 1] == payload[|payload| - 1] == 'd';
    SplitSingle("armed", ',');
    SplitJoined(t, "armed", payload, ["armed"]);
  }

  lemma ArmedLineRoundTrip(t: string)
    requires GoodToken(t)
    ensures Parse(ArmedLine(t)) == ArmedBy(t)
  {
    ArmedSplit(t, ArmedLine(t));
    ProbeLine(ArmedLine(t));
  }

  lemma KeyLineIsOneLine(e: KeyEvent)
    requires GoodEvent(e)
    ensures '\n' !in KeyLine(e)
  {
    DigitsAreTight(Print(e.keycode));
    DigitsAreTight(Print(KindNumber(e.kind)));
    DigitsAreTight(Print(e.mask));
    assert IsWhitespace('\n');
  }

  lemma ArmedLineIsOneLine(t: string)
    requires GoodToken(t)
    ensures '\n' !in ArmedLine(t)
  {
    assert IsWhitespace('\n');
  }

  // ---- the wire format, literally ---------------------------------------------------------------------

  /** Fields between commas. */
  function Wire(a: string, b: string, c: string, d: string): string {
    "custom>>whykey-probe," + (a + ("," + (b + ("," + (c + ("," + d))))))
  }

  function WireKind(kind: KeyEventType): string {
    match kind case Release => "0" case Press => "1" case Repeat => "2"
  }

  /** Every key event, as the hook dispatches it: token, XKB keycode, 0 for a release, 1 for a press,
      2 for a repetition, and the modifiers held before. */
  lemma KeyLineOnTheWire(e: KeyEvent)
    requires GoodEvent(e)
    ensures var line := Wire(e.token, Print(e.keycode), WireKind(e.kind), Print(e.mask));
            KeyLine(e) == line && Parse(line) == Key(e)
  {
    KeyLineRoundTrip(e);
    PrintedKind(e.kind);
    hide Parse, Print, Wire, WireKind;
    WireIsJoined(e.token, Print(e.keycode), WireKind(e.kind), Print(e.mask));
  }

  lemma PrintedKind(kind: KeyEventType)
    ensures Print(KindNumber(kind)) == WireKind(kind)
  {
  }

  lemma JoinedIs(field: string, rest: string)
    ensures Joined(field, rest) == field + ("," + rest)
  {
  }

  lemma WireIsJoined(a: string, b: string, c: string, d: string)
    ensures PROBE + Joined(a, Joined(b, Joined(c, d))) == Wire(a, b, c, d)
  {
    hide Joined;
    JoinedIs(c, d);
    JoinedIs(b, c + ("," + d));
    JoinedIs(a, b + ("," + (c + ("," + d))));
  }

  /** What else the socket may say. */
  lemma OtherLines(keyboard: string, layout: string)
    requires ',' !in keyboard && Tight(layout) && layout != ""
    ensures Parse("configreloaded>>") == ConfigReloaded
    ensures Parse("activelayout>>" + (keyboard + ("," + layout))) == ActiveLayout(keyboard, layout)
  {
    ReloadLine();
    LayoutLine(keyboard + ("," + layout));
    LayoutFields(keyboard, layout);
  }

  lemma ReloadLine()
    ensures Parse("configreloaded>>") == ConfigReloaded
  {
    TrimOfTight("configreloaded>>");
    hide Trim, ParseLayout, ParseProbe, Split;
  }

  lemma LayoutLine(payload: string)
    requires payload != "" && !IsWhitespace(payload[|payload| - 1])
    ensures Parse("activelayout>>" + payload) == ParseLayout(payload)
  {
    var line := LAYOUT + payload;
    assert line[0] == 'a' && line[|line| - 1] == payload[|payload| - 1];
    TrimOfTight(line);
    assert RELOADED[0] == 'c';
    assert line[|LAYOUT|..] == payload;
    hide Trim, ParseLayout, ParseProbe, Split;
  }

  lemma LayoutFields(keyboard: string, layout: string)
    requires ',' !in keyboard
    ensures ParseLayout(keyboard + ("," + layout)) == ActiveLayout(keyboard, layout)
  {
    var payload := keyboard + [','] + layout;
    assert keyboard + ("," + layout) == payload;
    FindAt(keyboard, ',', layout);
    assert payload[..|keyboard|] == keyboard && payload[|keyboard| + 1..] == layout;
  }
}
