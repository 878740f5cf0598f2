/** What reading an event means, in terms of the lines of the socket. */
module Reading {
  import opened Wrappers
  import opened Text
  import opened SocketLine
  import opened FeedSpec
  import opened FeedTrack
  import opened SocketFeed
  import Chord

  /** The XKB keycodes of the modifier and lock keys: Ctrl, Shift, Alt and Super on both sides, Caps
      Lock and Num Lock. */
  const ModifierKeys: set<nat> := {37, 105, 50, 62, 64, 108, 133, 134, 66, 77}

  /** A key going down that is neither a modifier nor a lock. */
  predicate IsPlainPress(e: KeyEvent) {
    e.kind == Press && e.keycode !in ModifierKeys
  }

  lemma ReportedIff(o: Observed, eventsAll: bool)
    ensures Reported(o, eventsAll) <==> eventsAll || IsPlainPress(o.event)
  {
  }

  predicate IsOwnKey(line: string, token: string) {
    Parse(line).Key? && Parse(line).event.token == token
  }

  /** Reading goes on behind this line. */
  predicate IsPassed(line: string, token: string, eventsAll: bool) {
    && !Parse(line).ConfigReloaded?
    && (IsOwnKey(line, token) ==> !eventsAll && !IsPlainPress(Parse(line).event))
  }

  lemma LineOutcomeIs(f: Feed, token: string, r: Refresh)
    requires HasLine(f)
    ensures var outcome := Step(f, token, Decode(r)).1;
            && (outcome.Stopped? <==> Parse(Line(f)).ConfigReloaded?)
            && (outcome.Saw? <==> IsOwnKey(Line(f), token))
            && (outcome.Saw? ==> outcome.observed.event == Parse(Line(f)).event)
  {
    hide Parse;
  }

  /** All the text there is to a reading: what the buffer held and what device queries pulled in. */
  function AllText(f: Feed, token: string, micros: seq<Micro>): string {
    f.buffer + Chord.Received(f, token, micros)
  }

  /** The lines are taken in the order they came. */
  lemma {:induction false} LineTaken(f: Feed, token: string, micros: seq<Micro>, i: nat)
    requires i < |micros| && forall k | 0 <= k < |micros| :: micros[k].Decode?
    requires forall k | 0 <= k <= i :: HasLine(Steps(f, token, micros[..k]))
    ensures i < |Lines(AllText(f, token, micros))|
    ensures Lines(AllText(f, token, micros))[i] == Line(Steps(f, token, micros[..i]))
    decreases i
  {
    hide Step, Steps, AllText, Lines, HasLine;
    assert micros[..0] == [];
    StepsNone(f, token);
    AllTextCons(f, token, micros);
    if i > 0 {
      var rest, next := micros[1..], Step(f, token, micros[0]).0;
      forall k | 0 <= k < i ensures HasLine(Steps(next, token, rest[..k])) {
        StepsCons(f, token, micros, k + 1);
      }
      StepsCons(f, token, micros, i);
      LineTaken(next, token, rest, i - 1);
    }
  }

  lemma StepsNone(f: Feed, token: string)
    ensures Steps(f, token, []) == f
  {
  }

  lemma AllTextCons(f: Feed, token: string, micros: seq<Micro>)
    requires micros != [] && micros[0].Decode? && HasLine(f)
    ensures Lines(AllText(f, token, micros))
         == [Line(f)] + Lines(AllText(Step(f, token, micros[0]).0, token, micros[1..]))
  {
    hide Step, Parse, Lines;
    var next := Step(f, token, micros[0]).0;
    FirstLine(f, Chord.Received(f, token, micros));
    StepBuffer(f, token, micros[0]);
    assert f.buffer[LineEnd(f) + 1..] + Chord.Received(f, token, micros) == AllText(next, token, micros[1..]);
  }

  lemma StepsCons(f: Feed, token: string, micros: seq<Micro>, k: nat)
    requires 0 < k <= |micros|
    ensures Steps(f, token, micros[..k]) == Steps(Step(f, token, micros[0]).0, token, micros[1..][..k - 1])
  {
    hide Step;
    assert micros[..k][0] == micros[0] && micros[..k][1..] == micros[1..][..k - 1];
  }

  lemma FirstLine(f: Feed, more: string)
    requires HasLine(f)
    ensures Lines(f.buffer + more) == [Line(f)] + Lines(f.buffer[LineEnd(f) + 1..] + more)
  {
    var n := LineEnd(f);
    var rest := f.buffer[n + 1..] + more;
    assert f.buffer + more == f.buffer[..n] + ['\n'] + rest;
    FindAt(f.buffer[..n], '\n', rest);
    assert (f.buffer + more)[..n] == Line(f) && (f.buffer + more)[n + 1..] == rest;
  }

  /** What `next_observed_event` returns: the first key event of the session, or without
      `eventsAll` the first press of a key that is neither a modifier nor a lock; a reload that
      comes first; or nothing, when no complete line is left. */
  lemma ReadingMeans(f: Feed, token: string, eventsAll: bool, refreshes: seq<Refresh>, micros: seq<Micro>,
                     reading: Reading, g: Feed)
    requires IsReading(f, token, eventsAll, refreshes, micros, reading, g)
    ensures var lines, n := Lines(AllText(f, token, micros)), |micros|;
            && n <= |lines|
            && match reading
               case Event(o) =>
                 && n > 0 && Parse(lines[n - 1]) == SocketMessage.Key(o.event) && o.event.token == token
                 && (!eventsAll ==> IsPlainPress(o.event))
                 && forall i | 0 <= i < n - 1 :: IsPassed(lines[i], token, eventsAll)
               case Reloaded =>
                 && n > 0 && Parse(lines[n - 1]).ConfigReloaded?
                 && forall i | 0 <= i < n - 1 :: IsPassed(lines[i], token, eventsAll)
               case NoEvent => Lines(g.buffer) == [] && forall i | 0 <= i < n :: IsPassed(lines[i], token, eventsAll)
  {
    hide Parse, Step, Steps, Chord.Received, Lines, IsPlainPress, HasLine, Line;
    forall k | 0 <= k < |micros|
      ensures micros[k] == Decode(AnswerAt(refreshes, k)) && HasLine(Steps(f, token, micros[..k]))
    {
      assert DecodesAt(f, token, micros, k, refreshes);
    }
    forall i | 0 <= i < |micros|
      ensures i < |Lines(AllText(f, token, micros))|
      ensures var line, outcome := Lines(AllText(f, token, micros))[i], OutcomeAt(f, token, micros, i);
              && (outcome.Stopped? <==> Parse(line).ConfigReloaded?) && (outcome.Saw? <==> IsOwnKey(line, token))
              && (outcome.Saw? ==> outcome.observed.event == Parse(line).event)
              && (EndsReading(outcome, eventsAll) <==> !IsPassed(line, token, eventsAll))
    {
      LineTaken(f, token, micros, i);
      var at := Steps(f, token, micros[..i]);
      LineOutcomeIs(at, token, AnswerAt(refreshes, i));
      var outcome := OutcomeAt(f, token, micros, i);
      if outcome.Saw? { ReportedIff(outcome.observed, eventsAll); }
    }
    if micros != [] { LineTaken(f, token, micros, |micros| - 1); }
    if reading.NoEvent? { NoLineNoLines(g); }
  }

  lemma NoLineNoLines(g: Feed)
    requires !HasLine(g)
    ensures Lines(g.buffer) == []
  {
  }

  // ---- at the hook's own lines ----------------------------------------------------------------------

  /** Nothing is uncertain about the keyboards. */
  predicate Settled(f: Feed) {
    f.sources.source.None? && !f.dirty
  }

  lemma PlainKeyStep(f: Feed, token: string, e: KeyEvent, r: Refresh)
    requires HasLine(f) && Parse(Line(f)) == SocketMessage.Key(e) && e.token == token
    requires e.keycode !in ModifierKeys && Settled(f)
    ensures var (g, outcome) := Step(f, token, Decode(r));
            outcome == Saw(Observed(e, false)) && g.buffer == f.buffer[LineEnd(f) + 1..] && Settled(g)
  {
    hide Parse;
  }

  /** The one step a reading takes when its first line ends it. */
  lemma OneStepReading(f: Feed, token: string, eventsAll: bool, micros: seq<Micro>, reading: Reading, g: Feed, o: Observed)
    requires IsReading(f, token, eventsAll, [], micros, reading, g) && HasLine(f)
    requires Step(f, token, Decode(Refresh(None, ""))).1 == Saw(o) && Reported(o, eventsAll)
    ensures reading == Event(o) && g == Step(f, token, Decode(Refresh(None, ""))).0
  {
    hide Step, HasLine, Reported;
    assert micros != [] && DecodesAt(f, token, micros, 0, []);
    assert micros[..0] == [] && Steps(f, token, []) == f;
    assert OutcomeAt(f, token, micros, 0) == Saw(o);
    assert |micros| == 1;
    assert Steps(f, token, micros) == Steps(Step(f, token, micros[0]).0, token, micros[1..]);
  }

  /** And when its first and only line does not. */
  lemma OneLineReading(f: Feed, token: string, eventsAll: bool, micros: seq<Micro>, reading: Reading, g: Feed, o: Observed)
    requires IsReading(f, token, eventsAll, [], micros, reading, g) && HasLine(f)
    requires Step(f, token, Decode(Refresh(None, ""))).1 == Saw(o) && !Reported(o, eventsAll)
    requires !HasLine(Step(f, token, Decode(Refresh(None, ""))).0)
    ensures reading == NoEvent && g == Step(f, token, Decode(Refresh(None, ""))).0
  {
    hide Step, HasLine, Reported;
    assert micros != [] && DecodesAt(f, token, micros, 0, []);
    assert micros[..0] == [] && Steps(f, token, []) == f;
    assert OutcomeAt(f, token, micros, 0) == Saw(o);
    StepsCons(f, token, micros, 1);
    assert micros[1..][..0] == [];
    assert |micros| > 1 ==> DecodesAt(f, token, micros, 1, []);
    assert |micros| == 1;
    assert micros[..1] == micros;
  }

  /** A line of the hook for `e`, and the rest of the buffer. */
  predicate BeginsWith(f: Feed, e: KeyEvent, rest: string) {
    f.buffer == KeyLine(e) + ['\n'] + rest
  }

  lemma FirstKeyStep(f: Feed, token: string, e: KeyEvent, rest: string)
    requires GoodEvent(e) && e.token == token && e.keycode !in ModifierKeys && Settled(f) && BeginsWith(f, e, rest)
    ensures HasLine(f)
    ensures var (g, outcome) := Step(f, token, Decode(Refresh(None, "")));
            outcome == Saw(Observed(e, false)) && g.buffer == rest && Settled(g)
  {
    KeyLineIsOneLine(e);
    KeyLineRoundTrip(e);
    hide Parse, KeyLine, Step;
    FindAt(KeyLine(e), '\n', rest);
    assert HasLine(f) && f.buffer[..LineEnd(f)] == KeyLine(e) && f.buffer[LineEnd(f) + 1..] == rest;
    PlainKeyStep(f, token, e, Refresh(None, ""));
  }

  /** A plain key pressed and let go, as the hook dispatches it: one reading returns its press and
      leaves its release, which the next reading returns only with `eventsAll`. */
  lemma TapIsRead(f: Feed, token: string, k: nat, mask: nat, eventsAll: bool,
                  micros: seq<Micro>, reading: Reading, g: Feed,
                  later: seq<Micro>, second: Reading, h: Feed)
    requires GoodToken(token) && k <= 0xFFFF_FFFF && k !in ModifierKeys && mask <= 0xFFFF_FFFF && Settled(f)
    requires var press, release := KeyEvent(token, k, Press, mask), KeyEvent(token, k, Release, mask);
             BeginsWith(f, press, KeyLine(release) + ['\n'] + "")
    requires IsReading(f, token, eventsAll, [], micros, reading, g)
    requires IsReading(g, token, eventsAll, [], later, second, h)
    ensures reading == Event(Observed(KeyEvent(token, k, Press, mask), false))
    ensures second == if eventsAll then Event(Observed(KeyEvent(token, k, Release, mask), false)) else NoEvent
    ensures h.buffer == ""
  {
    var press, release := KeyEvent(token, k, Press, mask), KeyEvent(token, k, Release, mask);
    hide IsReading, KeyLine, Step, HasLine;
    FirstKeyStep(f, token, press, KeyLine(release) + ['\n'] + "");
    ReportedIff(Observed(press, false), eventsAll);
    OneStepReading(f, token, eventsAll, micros, reading, g, Observed(press, false));
    FirstKeyStep(g, token, release, "");
    ReportedIff(Observed(release, false), eventsAll);
    if eventsAll {
      OneStepReading(g, token, eventsAll, later, second, h, Observed(release, false));
    } else {
      EmptyHasNoLine(Step(g, token, Decode(Refresh(None, ""))).0);
      OneLineReading(g, token, eventsAll, later, second, h, Observed(release, false));
    }
  }

  lemma EmptyHasNoLine(f: Feed)
    requires f.buffer == ""
    ensures !HasLine(f)
  {
  }
}
