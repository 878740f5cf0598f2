/** The socket side of the session object: one line buffer with its consumers. */
module SocketFeed {
  import opened Wrappers
  import opened Text
  import opened SocketLine
  import opened FeedSpec
  import opened FeedWait
  import HookWorld
  import HookLease

  datatype Reading = Event(observed: Observed) | NoEvent | Reloaded

  /** What the caller of `next_observed_event` is shown. */
  predicate Reported(o: Observed, eventsAll: bool) {
    eventsAll ||
    (o.event.kind.Press? && !IsLockKey(o.event.keycode)
     && (ToEvdev(o.event.keycode).Some? ==> EvdevModifier(ToEvdev(o.event.keycode).value).None?))
  }

  // ---- reading up to the first event to report ---------------------------------------------------

  /** What the `i`th of these steps made of its line. */
  function OutcomeAt(f: Feed, token: string, micros: seq<Micro>, i: nat): LineOutcome
    requires i < |micros|
  {
    Step(Steps(f, token, micros[..i]), token, micros[i]).1
  }

  /** Reading returns at this outcome. */
  predicate EndsReading(o: LineOutcome, eventsAll: bool) {
    o.Stopped? || (o.Saw? && Reported(o.observed, eventsAll))
  }

  /** The device query a decoding step may make is answered by the answer of its number. */
  function AnswerAt(refreshes: seq<Refresh>, i: nat): Refresh {
    if i < |refreshes| then refreshes[i] else Refresh(None, "")
  }

  /** The `i`th of these steps decodes a line. */
  predicate DecodesAt(f: Feed, token: string, micros: seq<Micro>, i: nat, refreshes: seq<Refresh>)
    requires i < |micros|
  {
    micros[i] == Decode(AnswerAt(refreshes, i)) && HasLine(Steps(f, token, micros[..i]))
  }

  /** These are the first decoding steps from `f`: each finds a line, and none of the first `n`
      ends the reading. */
  predicate Reads(f: Feed, token: string, micros: seq<Micro>, n: nat, eventsAll: bool, refreshes: seq<Refresh>)
    requires n <= |micros|
  {
    && (forall i | 0 <= i < |micros| :: DecodesAt(f, token, micros, i, refreshes))
    && (forall i | 0 <= i < n :: !EndsReading(OutcomeAt(f, token, micros, i), eventsAll))
  }

  /** Reading from `f` takes these steps, returns this and ends at `g`. */
  predicate IsReading(f: Feed, token: string, eventsAll: bool, refreshes: seq<Refresh>, micros: seq<Micro>,
                      reading: Reading, g: Feed) {
    && g == Steps(f, token, micros)
    && if reading.NoEvent? then !HasLine(g) && Reads(f, token, micros, |micros|, eventsAll, refreshes)
       else
         && micros != [] && Reads(f, token, micros, |micros| - 1, eventsAll, refreshes)
         && var outcome := OutcomeAt(f, token, micros, |micros| - 1);
            && EndsReading(outcome, eventsAll)
            && outcome == match reading case Event(o) => Saw(o) case _ => Stopped
  }

  lemma ReadsOneMore(f: Feed, token: string, micros: seq<Micro>, eventsAll: bool, refreshes: seq<Refresh>)
    requires Reads(f, token, micros, |micros|, eventsAll, refreshes) && HasLine(Steps(f, token, micros))
    ensures var m := Decode(AnswerAt(refreshes, |micros|));
            && Reads(f, token, micros + [m], |micros|, eventsAll, refreshes)
            && (Steps(f, token, micros + [m]), OutcomeAt(f, token, micros + [m], |micros|))
               == Step(Steps(f, token, micros), token, m)
  {
    var m := Decode(AnswerAt(refreshes, |micros|));
    var more := micros + [m];
    StepsSnoc(f, token, micros, m);
    OutcomeOfMore(f, token, micros, m);
    assert DecodesAt(f, token, more, |micros|, refreshes) by {
      hide Steps, Step, HasLine;
      assert more[..|micros|] == micros;
    }
    hide EndsReading, HasLine, Step, Steps, OutcomeAt, DecodesAt;
    forall i | 0 <= i < |micros| ensures DecodesAt(f, token, more, i, refreshes) {
      DecodesStill(f, token, micros, m, i, refreshes);
    }
  }

  lemma DecodesStill(f: Feed, token: string, micros: seq<Micro>, m: Micro, i: nat, refreshes: seq<Refresh>)
    requires i < |micros|
    ensures DecodesAt(f, token, micros + [m], i, refreshes) == DecodesAt(f, token, micros, i, refreshes)
  {
    hide Steps, HasLine;
    assert (micros + [m])[..i] == micros[..i];
  }

  /** The last step ends the reading. */
  lemma ReadsToTheEnd(f: Feed, token: string, micros: seq<Micro>, eventsAll: bool, refreshes: seq<Refresh>)
    requires micros != [] && Reads(f, token, micros, |micros| - 1, eventsAll, refreshes)
    requires !EndsReading(OutcomeAt(f, token, micros, |micros| - 1), eventsAll)
    ensures Reads(f, token, micros, |micros|, eventsAll, refreshes)
  {
    hide EndsReading, OutcomeAt, DecodesAt;
  }

  /** The reading ends with the last step. */
  lemma ReadingStops(f: Feed, token: string, eventsAll: bool, refreshes: seq<Refresh>, micros: seq<Micro>, reading: Reading)
    requires micros != [] && Reads(f, token, micros, |micros| - 1, eventsAll, refreshes)
    requires EndsReading(OutcomeAt(f, token, micros, |micros| - 1), eventsAll)
    requires match reading
             case NoEvent => false
             case Event(o) => OutcomeAt(f, token, micros, |micros| - 1) == Saw(o)
             case Reloaded => OutcomeAt(f, token, micros, |micros| - 1).Stopped?
    ensures IsReading(f, token, eventsAll, refreshes, micros, reading, Steps(f, token, micros))
  {
    hide Reads, OutcomeAt, Steps, EndsReading;
  }

  /** Or for want of a line. */
  lemma ReadingDries(f: Feed, token: string, eventsAll: bool, refreshes: seq<Refresh>, micros: seq<Micro>)
    requires Reads(f, token, micros, |micros|, eventsAll, refreshes) && !HasLine(Steps(f, token, micros))
    ensures IsReading(f, token, eventsAll, refreshes, micros, NoEvent, Steps(f, token, micros))
  {
    hide Reads, Steps;
  }

  lemma OutcomeOfMore(f: Feed, token: string, micros: seq<Micro>, m: Micro)
    ensures forall i | 0 <= i < |micros| :: OutcomeAt(f, token, micros + [m], i) == OutcomeAt(f, token, micros, i)
    ensures OutcomeAt(f, token, micros + [m], |micros|) == Step(Steps(f, token, micros), token, m).1
  {
    hide Step, Steps;
    assert (micros + [m])[..|micros|] == micros;
    forall i | 0 <= i < |micros|
      ensures OutcomeAt(f, token, micros + [m], i) == OutcomeAt(f, token, micros, i)
    {
      assert (micros + [m])[..i] == micros[..i];
    }
  }

  class CaptureFeed {
    const token: string
    var buffer: string
    var sources: Sources
    var held: set<nat>
    var mask: nat
    var dirty: bool

    constructor (token: string)
      ensures this.token == token && State() == EMPTY_FEED
    {
      this.token := token;
      buffer, sources, held, mask, dirty := "", Sources(None, None), {}, 0, false;
    }

    function State(): Feed
      reads this
    {
      Feed(buffer, sources, held, mask, dirty)
    }

    method ReadIncoming(chunk: string)
      modifies this`buffer
      ensures State() == Receive(old(State()), chunk)
    {
      buffer := buffer + chunk;
    }

    method RefreshKeyboardState(r: Refresh)
      modifies this
      ensures State() == Refreshed(old(State()), r)
    {
      dirty := false;
      if r.devices.None? {
        return;
      }
      var current, detached := OnInventory(sources, r.devices.value).0, OnInventory(sources, r.devices.value).1;
      sources := current;
      if detached {
        buffer := buffer + r.incoming;
        sources := Detached(sources, |buffer|);
      }
    }

    /** Take one line off the buffer, counted. */
    method TakeLine() returns (line: string)
      requires HasLine(State())
      modifies this`buffer, this`sources
      ensures line == Line(old(State())) && State() == WithoutLine(old(State()))
      ensures |buffer| < |old(buffer)|
    {
      var pos := LineEnd(State());
      line := buffer[..pos];
      buffer := buffer[pos + 1..];
      sources := Consumed(sources, pos + 1);
    }

    method AbsorbKey(e: KeyEvent)
      modifies this`mask, this`held
      ensures State() == Absorb(old(State()), e)
    {
      mask := HeldModifiersAfter(e);
      match e.kind {
        case Press => held := held + {e.keycode};
        case Release => held := held - {e.keycode};
        case Repeat =>
      }
    }

    method DecodeOne(r: Refresh) returns (outcome: LineOutcome)
      requires HasLine(State())
      modifies this
      ensures (State(), outcome) == DecodeLine(old(State()), token, r)
      ensures |buffer| < |old(buffer)| || (outcome.Saw? && |buffer| < |old(buffer)| + |r.incoming|)
    {
      var line := TakeLine();
      outcome := Quiet;
      match Parse(line) {
        case ConfigReloaded => outcome := Stopped;
        case ActiveLayout(k, l) =>
          sources := OnActiveLayout(sources, k, l);
          dirty := true;
        case Key(e) =>
          if e.token == token {
            AbsorbKey(e);
            if IsLockKey(e.keycode) {
              dirty := true;
            }
            if dirty || sources.source.Some? {
              RefreshKeyboardState(r);
            }
            outcome := Saw(Observed(e, sources.source.Some?));
            sources := Settle(sources);
          }
        case _ =>
      }
    }

    /** Decode lines until one is to be reported; `refreshes` answers the device queries. The
        first event to report, or a reload, ends the reading; otherwise no line is left. */
    method NextObservedEvent(eventsAll: bool, refreshes: seq<Refresh>)
      returns (reading: Reading, ghost micros: seq<Micro>)
      modifies this
      ensures IsReading(old(State()), token, eventsAll, refreshes, micros, reading, State())
    {
      hide Reads, OutcomeAt, Step, Steps, EndsReading, IsReading, HasLine;
      micros := [];
      ReadsNothing(old(State()), token, eventsAll, refreshes);
      var next := 0;
      while HasLine(State())
        invariant State() == Steps(old(State()), token, micros) && next == |micros|
        invariant Reads(old(State()), token, micros, |micros|, eventsAll, refreshes)
        decreases if next < |refreshes| then |refreshes| - next else 0, |buffer|
      {
        var r := AnswerAt(refreshes, next);
        ghost var before := State();
        var outcome := DecodeOne(r);
        DecodesLine(before, token, r);
        ReadsOneMore(old(State()), token, micros, eventsAll, refreshes);
        micros := micros + [Decode(r)];
        next := next + 1;
        ReadingEnds(outcome, eventsAll);
        if outcome.Stopped? {
          ReadingStops(old(State()), token, eventsAll, refreshes, micros, Reloaded);
          return Reloaded, micros;
        }
        if outcome.Saw? && Reported(outcome.observed, eventsAll) {
          ReadingStops(old(State()), token, eventsAll, refreshes, micros, Event(outcome.observed));
          return Event(outcome.observed), micros;
        }
        ReadsToTheEnd(old(State()), token, micros, eventsAll, refreshes);
      }
      ReadingDries(old(State()), token, eventsAll, refreshes, micros);
      return NoEvent, micros;
    }

    method DrainOne() returns (outcome: LineOutcome)
      requires HasLine(State())
      modifies this
      ensures (State(), outcome) == DrainLine(old(State()), token)
      ensures |buffer| < |old(buffer)|
    {
      var line := TakeLine();
      outcome := Quiet;
      match Parse(line) {
        case ConfigReloaded => outcome := Stopped;
        case ActiveLayout(k, l) =>
          sources := OnActiveLayout(sources, k, l);
          dirty := true;
        case Key(e) =>
          if e.token == token {
            AbsorbKey(e);
          }
        case _ =>
      }
    }

    /** `drain_buffer_events`: all complete lines, up to a reload. */
    method DrainBufferEvents() returns (ok: bool)
      modifies this
      ensures (State(), ok) == DrainAll(old(State()), token)
    {
      hide DrainLine;
      while HasLine(State())
        invariant DrainAll(State(), token) == DrainAll(old(State()), token)
        decreases |buffer|
      {
        var outcome := DrainOne();
        if outcome.Stopped? {
          return false;
        }
      }
      return true;
    }

    /** `arm`: drop lines up to the session's own armed event. */
    method DropToArmed() returns (seen: bool)
      modifies this`buffer
      ensures (State(), seen) == SkipToArmed(old(State()), token)
    {
      hide Parse;
      while HasLine(State())
        invariant SkipToArmed(State(), token) == SkipToArmed(old(State()), token)
        decreases |buffer|
      {
        var pos := LineEnd(State());
        var line := buffer[..pos];
        buffer := buffer[pos + 1..];
        if Parse(line) == ArmedBy(token) {
          return true;
        }
      }
      return false;
    }

    /** `arm` waiting for its armed event, read by read until the time is up. */
    method WaitForArmed(texts: seq<string>) returns (seen: bool)
      modifies this`buffer
      ensures (State(), seen) == AwaitArmed(old(State()), token, texts)
    {
      hide SkipToArmed;
      var i := 0;
      while i < |texts|
        invariant 0 <= i <= |texts|
        invariant AwaitArmed(State(), token, texts[i..]) == AwaitArmed(old(State()), token, texts)
      {
        assert texts[i..][0] == texts[i] && texts[i..][1..] == texts[i + 1..];
        ReadIncoming(texts[i]);
        seen := DropToArmed();
        if seen {
          return;
        }
        i := i + 1;
      }
      return false;
    }

    /** What one poll of the wait brings; false ends the wait with an error. */
    method TakePoll(e: PollEvent) returns (ok: bool)
      modifies this
      ensures (State(), ok) == Polled(old(State()), token, e)
    {
      match e {
        case Silent => return true;
        case Interrupted => return true;
        case Broken => return false;
        case Hangup => return false;
        case Data(chunk) =>
          ReadIncoming(chunk);
          ok := DrainBufferEvents();
      }
    }

    /** One round of the wait: renew if due, look whether the chord is up, poll. */
    method WaitRound(t: Task, sinceRenewal: nat, p: Poll)
      returns (end: Option<ChordStatus>, clock: seq<HookWorld.Act>)
      requires t.token == token
      modifies this
      ensures Rounds(end, State(), clock) == Round(old(State()), t, sinceRenewal, p)
    {
      hide Polled, ChordReleased;
      clock := [];
      if t.leased && sinceRenewal >= HookLease.RENEW_INTERVAL_MS {
        clock := [HookWorld.Renew(t.token, t.policy)];
        if !p.renewed {
          return Some(Failed), clock;
        }
      }
      if ChordReleased(State(), t.main) {
        return Some(Released), clock;
      }
      clock := clock + [HookWorld.Tick(p.ms)];
      var ok := TakePoll(p.event);
      end := if ok then None else Some(Failed);
    }

    /** The rounds of the wait, until one ends it or the time is up. */
    method WaitRounds(t: Task, polls: seq<Poll>) returns (end: Option<ChordStatus>, clock: seq<HookWorld.Act>)
      requires t.token == token
      modifies this
      ensures Rounds(end, State(), clock) == RoundsFrom(old(State()), t, polls, 0, 0)
    {
      hide Round, RoundsFrom;
      clock, end := [], None;
      var elapsed: nat, sinceRenewal: nat, i: nat := 0, 0, 0;
      ghost var whole := RoundsFrom(State(), t, polls, 0, 0);
      assert polls[0..] == polls;
      while end.None? && elapsed < t.maxMs && i < |polls|
        invariant 0 <= i <= |polls|
        invariant if end.Some? then whole == Rounds(end, State(), clock)
                  else
                    var rest := RoundsFrom(State(), t, polls[i..], elapsed, sinceRenewal);
                    whole == rest.(clock := clock + rest.clock)
        decreases end.None?, |polls| - i
      {
        assert polls[i..][0] == polls[i] && polls[i..][1..] == polls[i + 1..];
        RoundStep(State(), t, polls[i..], elapsed, sinceRenewal);
        var seen;
        end, seen := WaitRound(t, sinceRenewal, polls[i]);
        clock := clock + seen;
        if end.None? {
          elapsed, sinceRenewal, i := elapsed + polls[i].ms, SinceAfter(t, sinceRenewal, polls[i]), i + 1;
        }
      }
      if end.None? {
        RoundStep(State(), t, polls[i..], elapsed, sinceRenewal);
      }
    }

    /** The wait for the captured chord to be let go. `clock` is what its lease saw. */
    method WaitForChordRelease(t: Task, polls: seq<Poll>, last: Refresh)
      returns (status: ChordStatus, clock: seq<HookWorld.Act>)
      requires t.token == token
      modifies this
      ensures Waited(status, State(), clock) == WaitFor(old(State()), t, polls, last)
    {
      hide DrainAll, RoundsFrom, ChordReleased;
      clock := [];
      var drained := DrainBufferEvents();
      if !drained {
        return Failed, clock;
      }
      if ChordReleased(State(), t.main) {
        return Released, clock;
      }
      var end;
      end, clock := WaitRounds(t, polls);
      if end.Some? {
        return end.value, clock;
      }
      if dirty {
        RefreshKeyboardState(last);
      }
      return TimedOut, clock;
    }
  }

  lemma ReadsNothing(f: Feed, token: string, eventsAll: bool, refreshes: seq<Refresh>)
    ensures Reads(f, token, [], 0, eventsAll, refreshes) && Steps(f, token, []) == f
  {
  }

  lemma DecodesLine(f: Feed, token: string, r: Refresh)
    requires HasLine(f)
    ensures Step(f, token, Decode(r)) == DecodeLine(f, token, r)
  {
  }

  lemma ReadingEnds(o: LineOutcome, eventsAll: bool)
    ensures EndsReading(o, eventsAll) <==> o.Stopped? || (o.Saw? && Reported(o.observed, eventsAll))
  {
  }
}
