/** The wait for a captured chord to be let go: its rounds, and when they end in what. */
module FeedWait {
  import opened Wrappers
  import opened Text
  import opened SocketLine
  import opened FeedSpec
  import HookWorld
  import HookLease

  datatype ChordStatus = Released | TimedOut | Failed

  datatype PollEvent = Silent | Interrupted | Broken | Hangup | Data(chunk: string)

  /** One round of the wait: whether a renewal due before it works, how long it polls, what
      the poll brings. */
  datatype Poll = Poll(renewed: bool, ms: nat, event: PollEvent)

  /** What waits, and for how long. */
  datatype Task = Task(token: string, main: nat, maxMs: nat, leased: bool, policy: HookWorld.Policy)

  predicate ChordReleased(f: Feed, main: nat) {
    main !in f.held && f.held == {} && f.mask == 0
  }

  // ---- the rounds -------------------------------------------------------------------------------

  predicate Due(t: Task, sinceRenewal: nat) {
    t.leased && sinceRenewal >= HookLease.RENEW_INTERVAL_MS
  }

  function SinceAfter(t: Task, sinceRenewal: nat, p: Poll): nat {
    if Due(t, sinceRenewal) then p.ms else sinceRenewal + p.ms
  }

  /** What a poll brings, and whether the wait can go on. Data is read and drained. */
  function Polled(f: Feed, token: string, e: PollEvent): (Feed, bool) {
    match e
    case Data(chunk) => DrainAll(Receive(f, chunk), token)
    case Silent => (f, true)
    case Interrupted => (f, true)
    case Broken => (f, false)
    case Hangup => (f, false)
  }

  /** How the rounds end, if not with the time or the polls, and what the lease saw of them. */
  datatype Rounds = Rounds(end: Option<ChordStatus>, feed: Feed, clock: seq<HookWorld.Act>)

  function Round(f: Feed, t: Task, sinceRenewal: nat, p: Poll): Rounds {
    var renewal := if Due(t, sinceRenewal) then [HookWorld.Renew(t.token, t.policy)] else [];
    if Due(t, sinceRenewal) && !p.renewed then Rounds(Some(Failed), f, renewal)
    else if ChordReleased(f, t.main) then Rounds(Some(Released), f, renewal)
    else
      var (next, goesOn) := Polled(f, t.token, p.event);
      Rounds(if goesOn then None else Some(Failed), next, renewal + [HookWorld.Tick(p.ms)])
  }

  function RoundsFrom(f: Feed, t: Task, polls: seq<Poll>, elapsed: nat, sinceRenewal: nat): Rounds
    decreases |polls|
  {
    if elapsed >= t.maxMs || polls == [] then Rounds(None, f, [])
    else
      var p := polls[0];
      var now := Round(f, t, sinceRenewal, p);
      if now.end.Some? then now
      else
        var rest := RoundsFrom(now.feed, t, polls[1..], elapsed + p.ms, SinceAfter(t, sinceRenewal, p));
        rest.(clock := now.clock + rest.clock)
  }

  /** One round, unfolded. */
  lemma RoundStep(f: Feed, t: Task, polls: seq<Poll>, elapsed: nat, sinceRenewal: nat)
    ensures RoundsFrom(f, t, polls, elapsed, sinceRenewal) ==
            if elapsed >= t.maxMs || polls == [] then Rounds(None, f, [])
            else
              var p := polls[0];
              var now := Round(f, t, sinceRenewal, p);
              if now.end.Some? then now
              else
                var rest := RoundsFrom(now.feed, t, polls[1..], elapsed + p.ms, SinceAfter(t, sinceRenewal, p));
                rest.(clock := now.clock + rest.clock)
  {
    hide Round;
  }

  datatype Waited = Waited(status: ChordStatus, feed: Feed, clock: seq<HookWorld.Act>)

  /** `wait_for_chord_release`; `last` answers the device query after a timeout. */
  function WaitFor(f: Feed, t: Task, polls: seq<Poll>, last: Refresh): Waited {
    var (drained, ok) := DrainAll(f, t.token);
    if !ok then Waited(Failed, drained, [])
    else if ChordReleased(drained, t.main) then Waited(Released, drained, [])
    else
      var rounds := RoundsFrom(drained, t, polls, 0, 0);
      match rounds.end
      case Some(status) => Waited(status, rounds.feed, rounds.clock)
      case None =>
        Waited(TimedOut, if rounds.feed.dirty then Refreshed(rounds.feed, last) else rounds.feed, rounds.clock)
  }

  // ---- the clock of the lease ----------------------------------------------------------------------

  function PollTimes(polls: seq<Poll>): seq<nat> {
    if polls == [] then [] else [polls[0].ms] + PollTimes(polls[1..])
  }

  /** What the lease sees of a wait is a beginning of the polling schedule whose safety
      `HookLease` proves. */
  lemma {:induction false} ClockIsPolling(f: Feed, t: Task, polls: seq<Poll>, elapsed: nat, sinceRenewal: nat)
    requires t.leased
    ensures RoundsFrom(f, t, polls, elapsed, sinceRenewal).clock
         <= HookLease.PollingActs(sinceRenewal, PollTimes(polls), t.token, t.policy)
    decreases |polls|
  {
    hide Round, RoundsFrom, HookLease.PollingActs;
    RoundStep(f, t, polls, elapsed, sinceRenewal);
    if elapsed < t.maxMs && polls != [] {
      var p, since := polls[0], SinceAfter(t, sinceRenewal, polls[0]);
      var now := Round(f, t, sinceRenewal, p);
      RoundClock(f, t, sinceRenewal, p);
      PollingStep(sinceRenewal, polls, t);
      if now.end.None? {
        ClockIsPolling(now.feed, t, polls[1..], elapsed + p.ms, since);
        PrefixBehind(now.clock, RoundsFrom(now.feed, t, polls[1..], elapsed + p.ms, since).clock,
                     HookLease.PollingActs(since, PollTimes(polls[1..]), t.token, t.policy));
      }
    }
  }

  lemma PollingStep(sinceRenewal: nat, polls: seq<Poll>, t: Task)
    requires polls != [] && t.leased
    ensures HookLease.PollingActs(sinceRenewal, PollTimes(polls), t.token, t.policy)
         == (if sinceRenewal >= HookLease.RENEW_INTERVAL_MS
             then [HookWorld.Renew(t.token, t.policy), HookWorld.Tick(polls[0].ms)] else [HookWorld.Tick(polls[0].ms)])
            + HookLease.PollingActs(SinceAfter(t, sinceRenewal, polls[0]), PollTimes(polls[1..]), t.token, t.policy)
  {
    assert PollTimes(polls)[1..] == PollTimes(polls[1..]);
  }

  lemma PrefixBehind(a: seq<HookWorld.Act>, x: seq<HookWorld.Act>, y: seq<HookWorld.Act>)
    requires x <= y
    ensures a + x <= a + y
  {
  }

  lemma RoundClock(f: Feed, t: Task, sinceRenewal: nat, p: Poll)
    requires t.leased
    ensures var clock := if sinceRenewal >= HookLease.RENEW_INTERVAL_MS
                         then [HookWorld.Renew(t.token, t.policy), HookWorld.Tick(p.ms)] else [HookWorld.Tick(p.ms)];
            var now := Round(f, t, sinceRenewal, p);
            now.clock <= clock && (now.end.None? ==> now.clock == clock)
  {
    hide Polled, ChordReleased;
  }

  // ---- when the wait ends in what ---------------------------------------------------------------------

  /** The feed, the time passed and the time since the last renewal at the `n`th check. */
  function FeedAt(f: Feed, token: string, polls: seq<Poll>, n: nat): Feed
    requires n <= |polls|
  {
    if n == 0 then f else Polled(FeedAt(f, token, polls, n - 1), token, polls[n - 1].event).0
  }

  function ElapsedAt(polls: seq<Poll>, n: nat): nat
    requires n <= |polls|
  {
    if n == 0 then 0 else ElapsedAt(polls, n - 1) + polls[n - 1].ms
  }

  function SinceAt(t: Task, polls: seq<Poll>, n: nat): nat
    requires n <= |polls|
  {
    if n == 0 then 0 else SinceAfter(t, SinceAt(t, polls, n - 1), polls[n - 1])
  }

  predicate RenewalFails(t: Task, polls: seq<Poll>, n: nat)
    requires n < |polls|
  {
    Due(t, SinceAt(t, polls, n)) && !polls[n].renewed
  }

  /** The `n`th round's poll ends the wait: an error, a disconnection, or a reload among the
      lines it completes. */
  predicate PollFails(f: Feed, token: string, polls: seq<Poll>, n: nat)
    requires n < |polls|
  {
    match polls[n].event
    case Broken => true
    case Hangup => true
    case Data(chunk) => Reloads(Lines(FeedAt(f, token, polls, n).buffer + chunk))
    case _ => false
  }

  /** Nothing ends the wait in its `n`th round. */
  predicate GoesOn(f: Feed, t: Task, polls: seq<Poll>, n: nat)
    requires n < |polls|
  {
    && ElapsedAt(polls, n) < t.maxMs && !RenewalFails(t, polls, n)
    && !ChordReleased(FeedAt(f, t.token, polls, n), t.main) && !PollFails(f, t.token, polls, n)
  }

  lemma PolledGoesOnIff(f: Feed, token: string, polls: seq<Poll>, n: nat)
    requires n < |polls|
    ensures Polled(FeedAt(f, token, polls, n), token, polls[n].event).1 <==> !PollFails(f, token, polls, n)
  {
    hide Parse;
    var at := FeedAt(f, token, polls, n);
    match polls[n].event {
      case Data(chunk) => DrainStopsAtReload(Receive(at, chunk), token);
      case _ =>
    }
  }

  /** The rounds from the `n`th on, whatever came before. */
  lemma {:induction false} RoundsEnd(f: Feed, t: Task, polls: seq<Poll>, n: nat) returns (last: nat)
    requires n <= |polls|
    ensures n <= last <= |polls| && forall i | n <= i < last :: GoesOn(f, t, polls, i)
    ensures match RoundsFrom(FeedAt(f, t.token, polls, n), t, polls[n..], ElapsedAt(polls, n), SinceAt(t, polls, n)).end
            case None => ElapsedAt(polls, last) >= t.maxMs || last == |polls|
            case Some(Released) =>
              && last < |polls| && ElapsedAt(polls, last) < t.maxMs && !RenewalFails(t, polls, last)
              && ChordReleased(FeedAt(f, t.token, polls, last), t.main)
            case Some(Failed) =>
              && last < |polls| && ElapsedAt(polls, last) < t.maxMs
              && (RenewalFails(t, polls, last)
                  || (!ChordReleased(FeedAt(f, t.token, polls, last), t.main) && PollFails(f, t.token, polls, last)))
            case Some(TimedOut) => false
    decreases |polls| - n
  {
    hide ChordReleased, Polled, PollFails;
    last := n;
    if n < |polls| {
      assert polls[n..][0] == polls[n] && polls[n..][1..] == polls[n + 1..];
      PolledGoesOnIff(f, t.token, polls, n);
      if GoesOn(f, t, polls, n) {
        last := RoundsEnd(f, t, polls, n + 1);
      }
    }
  }

  /** How many rounds went by, and why the wait ended after them: confirmed at its check, out of
      time or of polls without ever being confirmed, or failed for one of four reasons. */
  lemma WaitEnds(f: Feed, t: Task, polls: seq<Poll>, last: Refresh) returns (rounds: nat)
    ensures rounds <= |polls|
    ensures var start := DrainAll(f, t.token).0;
            match WaitFor(f, t, polls, last).status
            case Released =>
              && !Reloads(Lines(f.buffer)) && ChordReleased(WaitFor(f, t, polls, last).feed, t.main)
              && (forall i | 0 <= i < rounds :: GoesOn(start, t, polls, i))
              && (rounds > 0 ==> rounds < |polls| && ElapsedAt(polls, rounds) < t.maxMs)
              && ChordReleased(FeedAt(start, t.token, polls, rounds), t.main)
            case TimedOut =>
              && !Reloads(Lines(f.buffer)) && !ChordReleased(start, t.main)
              && (forall i | 0 <= i < rounds :: GoesOn(start, t, polls, i))
              && (ElapsedAt(polls, rounds) >= t.maxMs || rounds == |polls|)
            case Failed =>
              || Reloads(Lines(f.buffer))
              || (&& rounds < |polls| && (forall i | 0 <= i < rounds :: GoesOn(start, t, polls, i))
                  && ElapsedAt(polls, rounds) < t.maxMs && !ChordReleased(start, t.main)
                  && (RenewalFails(t, polls, rounds) || PollFails(start, t.token, polls, rounds)))
  {
    hide PollFails, Reloads, GoesOn, RenewalFails;
    DrainStopsAtReload(f, t.token);
    var (start, ok) := DrainAll(f, t.token);
    rounds := 0;
    if ok && !ChordReleased(start, t.main) {
      rounds := RoundsEnd(start, t, polls, 0);
      assert polls[0..] == polls;
      ReleasedFeed(start, t, polls, 0, 0);
    }
  }

  lemma {:induction false} ReleasedFeed(f: Feed, t: Task, polls: seq<Poll>, elapsed: nat, sinceRenewal: nat)
    ensures var rounds := RoundsFrom(f, t, polls, elapsed, sinceRenewal);
            rounds.end == Some(Released) ==> ChordReleased(rounds.feed, t.main)
    decreases |polls|
  {
    hide ChordReleased, Polled;
    if polls != [] {
      ReleasedFeed(Polled(f, t.token, polls[0].event).0, t, polls[1..], elapsed + polls[0].ms,
                   SinceAfter(t, sinceRenewal, polls[0]));
    }
  }

  // ---- the wait as a run ------------------------------------------------------------------------------

  predicate Waiting(micros: seq<Micro>) {
    forall m :: m in micros ==> m.Chunk? || m.Drain? || m.Requery?
  }

  /** The text read by these steps, read by read. */
  function Chunks(micros: seq<Micro>): seq<string> {
    if micros == [] then []
    else (if micros[0].Chunk? then [micros[0].text] else []) + Chunks(micros[1..])
  }

  function Incoming(e: PollEvent): seq<string> {
    if e.Data? then [e.chunk] else []
  }

  function AllIncoming(polls: seq<Poll>): seq<string> {
    if polls == [] then [] else Incoming(polls[0].event) + AllIncoming(polls[1..])
  }

  lemma {:induction false} JoinMicros(f: Feed, token: string, a: seq<Micro>, b: seq<Micro>)
    ensures Steps(f, token, a + b) == Steps(Steps(f, token, a), token, b)
    ensures Chunks(a + b) == Chunks(a) + Chunks(b)
    decreases |a|
  {
    hide Step;
    if a == [] {
      assert a + b == b;
    } else {
      assert (a + b)[0] == a[0] && (a + b)[1..] == a[1..] + b;
      JoinMicros(Step(f, token, a[0]).0, token, a[1..], b);
    }
  }

  /** The steps `micros` of a wait lead from `f` to `g`, and read `texts`. */
  predicate Explains(f: Feed, g: Feed, token: string, micros: seq<Micro>, texts: seq<string>) {
    g == Steps(f, token, micros) && Waiting(micros) && Chunks(micros) == texts
  }

  lemma ExplainsNothing(f: Feed, token: string)
    ensures Explains(f, f, token, [], [])
  {
  }

  lemma ExplainsOne(f: Feed, token: string, m: Micro)
    requires m.Chunk? || m.Drain? || m.Requery?
    ensures Explains(f, Step(f, token, m).0, token, [m], if m.Chunk? then [m.text] else [])
  {
    assert [m][1..] == [];
    assert Steps(Step(f, token, m).0, token, []) == Step(f, token, m).0;
  }

  lemma ExplainsJoin(f: Feed, g: Feed, h: Feed, token: string, a: seq<Micro>, b: seq<Micro>,
                     texts: seq<string>, more: seq<string>)
    requires Explains(f, g, token, a, texts) && Explains(g, h, token, b, more)
    ensures Explains(f, h, token, a + b, texts + more)
  {
    JoinMicros(f, token, a, b);
  }

  lemma {:induction false} DrainAllIsRun(f: Feed, token: string) returns (micros: seq<Micro>)
    ensures Explains(f, DrainAll(f, token).0, token, micros, [])
    decreases |f.buffer|
  {
    hide Explains, DrainLine;
    if !HasLine(f) {
      micros := [];
      ExplainsNothing(f, token);
    } else {
      var (rest, outcome) := DrainLine(f, token);
      DrainTakesOne(f, token);
      ExplainsOne(f, token, Drain);
      micros := [Drain];
      if !outcome.Stopped? {
        var more := DrainAllIsRun(rest, token);
        ExplainsJoin(f, rest, DrainAll(rest, token).0, token, [Drain], more, [], []);
        micros := [Drain] + more;
      }
    }
  }

  lemma PolledIsRun(f: Feed, token: string, e: PollEvent) returns (micros: seq<Micro>)
    ensures Explains(f, Polled(f, token, e).0, token, micros, Incoming(e))
  {
    hide Explains, DrainAll;
    match e {
      case Data(chunk) =>
        ExplainsOne(f, token, Chunk(chunk));
        var drains := DrainAllIsRun(Receive(f, chunk), token);
        ExplainsJoin(f, Receive(f, chunk), Polled(f, token, e).0, token, [Chunk(chunk)], drains, [chunk], []);
        micros := [Chunk(chunk)] + drains;
        assert [chunk] + [] == Incoming(e);
      case _ =>
        micros := [];
        ExplainsNothing(f, token);
    }
  }

  lemma {:induction false} RoundsAreRun(f: Feed, t: Task, polls: seq<Poll>, elapsed: nat, sinceRenewal: nat)
      returns (micros: seq<Micro>, texts: seq<string>)
    ensures Explains(f, RoundsFrom(f, t, polls, elapsed, sinceRenewal).feed, t.token, micros, texts)
    ensures texts <= AllIncoming(polls)
    decreases |polls|
  {
    hide Explains, Polled, ChordReleased;
    var rounds := RoundsFrom(f, t, polls, elapsed, sinceRenewal);
    micros, texts := [], [];
    ExplainsNothing(f, t.token);
    if elapsed < t.maxMs && polls != [] && !(Due(t, sinceRenewal) && !polls[0].renewed) && !ChordReleased(f, t.main) {
      var p := polls[0];
      var (next, goesOn) := Polled(f, t.token, p.event);
      var polled := PolledIsRun(f, t.token, p.event);
      if goesOn {
        var more, later := RoundsAreRun(next, t, polls[1..], elapsed + p.ms, SinceAfter(t, sinceRenewal, p));
        ExplainsJoin(f, next, rounds.feed, t.token, polled, more, Incoming(p.event), later);
        micros, texts := polled + more, Incoming(p.event) + later;
      } else {
        micros, texts := polled, Incoming(p.event);
      }
    }
  }

  /** A wait is a run of reads and draining steps over text that was polled, so everything that
      holds of runs holds of it. */
  lemma WaitIsRun(f: Feed, t: Task, polls: seq<Poll>, last: Refresh)
      returns (micros: seq<Micro>, texts: seq<string>)
    ensures Explains(f, WaitFor(f, t, polls, last).feed, t.token, micros, texts)
    ensures texts <= AllIncoming(polls)
  {
    hide Explains, DrainAll, ChordReleased, RoundsFrom;
    var (start, ok) := DrainAll(f, t.token);
    texts := [];
    micros := DrainAllIsRun(f, t.token);
    if ok && !ChordReleased(start, t.main) {
      var rounds := RoundsFrom(start, t, polls, 0, 0);
      var more, read := RoundsAreRun(start, t, polls, 0, 0);
      ExplainsJoin(f, start, rounds.feed, t.token, micros, more, [], read);
      micros, texts := micros + more, [] + read;
      assert [] + read == read;
      if rounds.end.None? && rounds.feed.dirty {
        ExplainsOne(rounds.feed, t.token, Requery(last));
        ExplainsJoin(f, rounds.feed, Refreshed(rounds.feed, last), t.token, micros, [Requery(last)], texts, []);
        micros, texts := micros + [Requery(last)], texts + [];
        assert read + [] == read;
      }
    }
  }
}
