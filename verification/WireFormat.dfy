/** Every line of the hook's event, well formed or not, and the lines a text is made of. */
module WireFormat {
  import opened Wrappers
  import opened Text
  import opened Decimal
  import opened SocketLine

  predicate IsField(s: string) {
    ',' !in s && NoWhitespace(s)
  }

  /** An unsigned number of 32 bits, with or without a plus sign. */
  function NumberOf(s: string): Option<nat> {
    var digits := if s != "" && s[0] == '+' then s[1..] else s;
    if digits != "" && (forall c :: c in digits ==> '0' <= c <= '9') && Value(digits) <= 4_294_967_295
    then Some(Value(digits)) else None
  }

  /** Four fields are a key event if the last three are numbers and the third says release, press or
      repetition; but armed or ready in the second place says that the hook is armed. */
  function FourFieldsMean(a: string, b: string, c: string, d: string): SocketMessage {
    if b == "armed" || b == "ready" then ArmedBy(a)
    else
      match (NumberOf(b), NumberOf(c), NumberOf(d))
      case (Some(keycode), Some(state), Some(mask)) =>
        if state == 0 then Key(KeyEvent(a, keycode, Release, mask))
        else if state == 1 then Key(KeyEvent(a, keycode, Press, mask))
        else if state == 2 then Key(KeyEvent(a, keycode, Repeat, mask))
        else Other
      case _ => Other
  }

  lemma FourFields(a: string, b: string, c: string, d: string)
    requires IsField(a) && IsField(b) && IsField(c) && IsField(d)
    ensures Parse(Wire(a, b, c, d)) == FourFieldsMean(a, b, c, d)
  {
    hide Parse, Wire, IsField, FourFieldsMean, ParseProbe;
    FourFieldsSplit(a, b, c, d);
    FourFieldsParse(a, b, c, d);
  }

  lemma FourFieldsParse(a: string, b: string, c: string, d: string)
    ensures ParseProbe([a, b, c, d]) == FourFieldsMean(a, b, c, d)
  {
    NumbersAre(b);
    NumbersAre(c);
    NumbersAre(d);
    hide ParseUnsigned, NumberOf;
  }

  lemma NumbersAre(s: string)
    ensures NumberOf(s) == ParseUnsigned(s, U32_MAX)
  {
  }

  lemma FourFieldsSplit(a: string, b: string, c: string, d: string)
    requires IsField(a) && IsField(b) && IsField(c) && IsField(d)
    ensures Parse(Wire(a, b, c, d)) == ParseProbe([a, b, c, d])
  {
    hide IsWhitespace, ParseProbe;
    var cd := Joined(c, d);
    var bcd := Joined(b, cd);
    var abcd := Joined(a, bcd);
    WireIsJoined(a, b, c, d);
    hide Wire;
    var line := PROBE + abcd;
    assert line[|PROBE|..] == abcd;
    LastOfFields(a, b, c, d);
    SplitFields(a, b, c, d, cd, bcd, abcd);
    ProbeLine(line);
  }

  lemma LastOfFields(a: string, b: string, c: string, d: string)
    requires IsField(d)
    ensures var line := PROBE + Joined(a, Joined(b, Joined(c, d)));
            PROBE <= line && !IsWhitespace(line[|line| - 1])
  {
    var line := PROBE + Joined(a, Joined(b, Joined(c, d)));
    if d == "" {
      assert line[|line| - 1] == ',';
    } else {
      assert line[|line| - 1] == d[|d| - 1] && d[|d| - 1] in d;
    }
  }

  /** What belongs to somebody else is none of the session's business. */
  lemma OtherEvents(line: string)
    requires Tight(line)
    requires !("configreloaded>>" <= line) && !("activelayout>>" <= line) && !("custom>>whykey-probe," <= line)
    ensures Parse(line) == Other
  {
    TrimOfTight(line);
  }

  /** An announcement that names no layout. */
  lemma LayoutWithoutComma(keyboard: string)
    requires ',' !in keyboard && Tight(keyboard) && keyboard != ""
    ensures Parse("activelayout>>" + keyboard) == ActiveLayout(keyboard, "")
  {
    hide IsWhitespace;
    LayoutLine(keyboard);
    hide Parse;
    assert Find(keyboard, ',') == None;
  }

  // ---- lines -----------------------------------------------------------------------------------------

  function WithNewlines(lines: seq<string>): string {
    if lines == [] then "" else lines[0] + ("\n" + WithNewlines(lines[1..]))
  }

  /** A text is its complete lines, each with its newline, and the rest. */
  lemma {:induction false} LinesAreAll(text: string)
    ensures text == WithNewlines(Lines(text)) + Remainder(text)
    ensures '\n' !in Remainder(text) && forall line :: line in Lines(text) ==> '\n' !in line
    decreases |text|
  {
    if Find(text, '\n').Some? {
      var i := Find(text, '\n').value;
      var first, rest := text[..i], text[i + 1..];
      LinesAreAll(rest);
      assert Lines(text) == [first] + Lines(rest) && Remainder(text) == Remainder(rest);
      hide Lines, Remainder, Find, WithNewlines;
      OneMoreLine(first, Lines(rest), Remainder(rest));
      CutAt(text, i);
    }
  }

  lemma CutAt(text: string, i: nat)
    requires i < |text| && text[i] == '\n'
    ensures text == text[..i] + ("\n" + text[i + 1..])
  {
  }

  lemma OneMoreLine(first: string, lines: seq<string>, rest: string)
    ensures WithNewlines([first] + lines) + rest == first + ("\n" + (WithNewlines(lines) + rest))
  {
    assert ([first] + lines)[1..] == lines;
    hide WithNewlines;
  }
}
