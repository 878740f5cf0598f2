/** The lease in time: a session that renews keeps its hook, a session that dies loses it. */
module HookLease {
  import opened Wrappers
  import opened HookWorld
  import opened HookInvariant
  import opened HookSafety

  const RENEW_INTERVAL_MS: nat := 2000
  /** The longest poll of the chord-release wait. */
  const CHORD_POLL_MS: nat := 50

  // ---- runs in which timers fire on time ------------------------------------------------

  /** Timers fire when due: never early, and time does not pass a running timer. */
  ghost predicate OnTime(w: World, a: Act) {
    match a
    case Tick(ms) =>
      && (LeaseRuns(w) ==> w.now + ms <= LeaseDue(w))
      && (forall t :: t in Subs(w) && Subs(w)[t].timer.Some? ==> w.now + ms <= Subs(w)[t].timer.value.due)
    case LeaseTimer(_) => LeaseRuns(w) && LeaseDue(w) <= w.now
    case EntryTimer(t, id) =>
      t in Subs(w) && Subs(w)[t].id == id && Subs(w)[t].timer.Some? && Subs(w)[t].timer.value.due <= w.now
    case _ => true
  }

  ghost predicate Prompt(w: World, acts: seq<Act>)
    decreases |acts|
  {
    acts == [] || (OnTime(w, acts[0]) && Prompt(Next(w, acts[0]), acts[1..]))
  }

  predicate ByToken(a: Act, t: Token) {
    (a.Install? || a.Cleanup? || a.Renew?) && a.token == t
  }

  /** Everybody but `t` may act, in any way; the configuration is not reloaded. */
  predicate WithoutSession(acts: seq<Act>, t: Token) {
    forall a :: a in acts ==> !a.Reload? && !ByToken(a, t)
  }

  /** How often the shared lease ran out. */
  function Expiries(acts: seq<Act>): nat {
    if acts == [] then 0 else (if acts[0].LeaseTimer? then 1 else 0) + Expiries(acts[1..])
  }

  // ---- an owner that died -----------------------------------------------------------------

  lemma AbandonedStep(w: World, a: Act, t: Token)
    requires Inv(w) && Owner(w) == Some(t) && LeaseRuns(w) && w.now <= LeaseDue(w)
    requires OnTime(w, a) && !a.Reload? && !ByToken(a, t)
    ensures Owner(Next(w, a)) == Some(t) ==>
              && LeaseRuns(Next(w, a)) && Next(w, a).now <= LeaseDue(Next(w, a))
              && LeaseDue(Next(w, a)) == LeaseDue(w) + (if a.LeaseTimer? then LEASE_MS else 0)
    ensures Owner(Next(w, a)) != Some(t) ==> a.LeaseTimer? && Next(w, a).now == LeaseDue(w)
  {
  }

  /** As long as the dead owner is still there, the lease runs and has been extended by
      exactly one lease per expiry whose restore failed. */
  lemma {:induction false} AbandonedLease(w: World, acts: seq<Act>, t: Token)
    requires Inv(w) && LeaseRuns(w) && w.now <= LeaseDue(w)
    requires Prompt(w, acts) && WithoutSession(acts, t) && OwnedThroughout(w, acts, t)
    ensures var end := Run(w, acts);
            && Inv(end) && Owner(end) == Some(t) && LeaseRuns(end)
            && end.now <= LeaseDue(end) == LeaseDue(w) + LEASE_MS * Expiries(acts)
    decreases |acts|
  {
    if acts != [] {
      NextInv(w, acts[0]);
      AbandonedStep(w, acts[0], t);
      AbandonedLease(Next(w, acts[0]), acts[1..], t);
    }
  }

  /** A dead owner is released by a lease expiry: the first whose restore succeeds. After
      `k` failed restores that is `k + 1` leases after its last renewal, to the millisecond. */
  lemma DeadOwnerIsReleasedOnTime(w: World, acts: seq<Act>, release: Act, t: Token, renewed: nat)
    requires Inv(w) && LeaseRuns(w) && LeaseDue(w) == renewed + LEASE_MS && w.now <= LeaseDue(w)
    requires Prompt(w, acts) && WithoutSession(acts + [release], t) && OwnedThroughout(w, acts, t)
    requires OnTime(Run(w, acts), release) && Owner(Next(Run(w, acts), release)) != Some(t)
    ensures var end := Next(Run(w, acts), release);
            && end.now == renewed + (Expiries(acts) + 1) * LEASE_MS
            && Owner(end).None?
            && Matches(end.submap, TargetOf(w.capture.value.previous.value))
  {
    assert release in acts + [release];
    forall a | a in acts ensures !a.Reload? && !ByToken(a, t) {
      assert a in acts + [release];
    }
    AbandonedLease(w, acts, t);
    RecordKept(w, acts, t);
    AbandonedStep(Run(w, acts), release, t);
    ReleaseRestores(Run(w, acts), release, t);
  }

  /** So it cannot outstay: past that time, with at most `k` expiries, it is gone. */
  lemma DeadOwnerCannotOutstay(w: World, acts: seq<Act>, t: Token, renewed: nat, k: nat)
    requires Inv(w) && LeaseRuns(w) && LeaseDue(w) == renewed + LEASE_MS && w.now <= LeaseDue(w)
    requires Prompt(w, acts) && WithoutSession(acts, t)
    requires Expiries(acts) <= k && Run(w, acts).now > renewed + (k + 1) * LEASE_MS
    ensures !OwnedThroughout(w, acts, t)
  {
    if OwnedThroughout(w, acts, t) {
      AbandonedLease(w, acts, t);
    }
  }

  /** The exception: an owner whose lease is off when it dies is never released, whatever the
      others do. A reload is the only way out. */
  lemma {:induction false} DisarmedOwnerIsStranded(w: World, acts: seq<Act>, t: Token)
    requires Inv(w) && Owner(w) == Some(t) && !LeaseRuns(w)
    requires Prompt(w, acts) && WithoutSession(acts, t)
    ensures OwnedThroughout(w, acts, t) && !LeaseRuns(Run(w, acts))
    decreases |acts|
  {
    if acts != [] {
      assert acts[0] in acts;
      NextInv(w, acts[0]);
      DisarmedOwnerIsStranded(Next(w, acts[0]), acts[1..], t);
    }
  }

  /** An install that gets no timer, in a compositor that has none yet, leaves its owner so
      exactly when its rollback cannot restore the submap. */
  lemma TimerlessInstallStrandsIff(w: World, t: Token, f: Faults, acts: seq<Act>)
    requires Inv(w) && Owner(w).None? && !HasTimer(w) && f.previousRead && !f.timerMade
    requires var failed := InstallSuppress(w, t, f);
             Prompt(failed.0, acts) && WithoutSession(acts, t)
    ensures InstallSuppress(w, t, f).1.Raised?
    ensures OwnedThroughout(InstallSuppress(w, t, f).0, acts, t) <==> !Restored(f.rollback, TargetOf(w.submap))
  {
    InstallSuppressInv(w, t, f);
    var failed := InstallSuppress(w, t, f).0;
    if !Restored(f.rollback, TargetOf(w.submap)) {
      DisarmedOwnerIsStranded(failed, acts, t);
    }
  }

  /** A fresh compositor is such a one: here nothing restores the submap for the first session. */
  lemma FirstInstallCanStrand(submap: string, now: nat, t: Token, acts: seq<Act>)
    requires var refused := Dispatch(false, true, submap);
             var f := Faults(true, false, true, true, refused, true, refused);
             && Prompt(Run(Fresh(submap, now), [Install(t, Suppress, f)]), acts) && WithoutSession(acts, t)
    ensures var refused := Dispatch(false, true, submap);
            var f := Faults(true, false, true, true, refused, true, refused);
            OwnedThroughout(Run(Fresh(submap, now), [Install(t, Suppress, f)]), acts, t)
  {
    var refused := Dispatch(false, true, submap);
    var f := Faults(true, false, true, true, refused, true, refused);
    var start := Fresh(submap, now);
    FreshInv(submap, now);
    RunSnoc(start, [], Install(t, Suppress, f));
    assert [] + [Install(t, Suppress, f)] == [Install(t, Suppress, f)];
    TimerlessInstallStrandsIff(start, t, f, acts);
  }

  /** An owner's cleanup that fails to restore is such a state. */
  lemma FailedCleanupStrands(w: World, t: Token, saved: string, d: Dispatch, acts: seq<Act>)
    requires Inv(w) && Owner(w) == Some(t)
    requires var failed := CleanupSuppress(w, t, saved, d);
             failed.1.Raised? && Prompt(failed.0, acts) && WithoutSession(acts, t)
    ensures OwnedThroughout(CleanupSuppress(w, t, saved, d).0, acts, t)
  {
    CleanupSuppressInv(w, t, saved, d);
    DisarmedOwnerIsStranded(CleanupSuppress(w, t, saved, d).0, acts, t);
  }

  // ---- an owner that renews ---------------------------------------------------------------

  /** Every tick ends within one lease of the last renewal by `t`. */
  predicate Scheduled(now: nat, last: nat, acts: seq<Act>, t: Token)
    decreases |acts|
  {
    acts == [] ||
    match acts[0]
    case Tick(ms) => now + ms < last + LEASE_MS && Scheduled(now + ms, last, acts[1..], t)
    case Renew(u, _) => Scheduled(now, if u == t then now else last, acts[1..], t)
    case _ => Scheduled(now, last, acts[1..], t)
  }

  /** `t` itself only renews; nobody reloads the configuration. */
  predicate OnlyRenews(acts: seq<Act>, t: Token, policy: Policy) {
    forall a :: a in acts ==> !a.Reload? && (ByToken(a, t) ==> a.Renew? && a.policy == policy)
  }

  lemma RenewingOwnerStep(w: World, a: Act, t: Token, last: nat)
    requires Inv(w) && Owner(w) == Some(t) && LeaseRuns(w) && LeaseDue(w) == last + LEASE_MS
    requires w.now < last + LEASE_MS && OnTime(w, a)
    requires !a.Reload? && (ByToken(a, t) ==> a.Renew? && a.policy.Suppress?)
    ensures var n := Next(w, a);
            && Owner(n) == Some(t) && LeaseRuns(n) && !a.LeaseTimer?
            && LeaseDue(n) == (if a.Renew? && a.token == t then w.now else last) + LEASE_MS
            && n.capture.value.listener == w.capture.value.listener
            && n.capture.value.previous == w.capture.value.previous
            && n.now == w.now + (if a.Tick? then a.ms else 0)
  {
  }

  /** A suppressing session that renews on schedule keeps the capture, the listener, the
      record and the lease, through every interleaving; the lease never runs out. */
  lemma {:induction false} RenewingOwnerKeepsHook(w: World, acts: seq<Act>, t: Token, last: nat)
    requires Inv(w) && Owner(w) == Some(t) && LeaseRuns(w) && LeaseDue(w) == last + LEASE_MS
    requires w.now < last + LEASE_MS
    requires Prompt(w, acts) && OnlyRenews(acts, t, Suppress) && Scheduled(w.now, last, acts, t)
    ensures var end := Run(w, acts);
            && OwnedThroughout(w, acts, t) && Expiries(acts) == 0 && LeaseRuns(end)
            && end.capture.value.listener == w.capture.value.listener
            && end.capture.value.previous == w.capture.value.previous
    decreases |acts|
  {
    if acts != [] {
      hide Next;
      var a := acts[0];
      assert a in acts;
      NextInv(w, a);
      RenewingOwnerStep(w, a, t, last);
      RenewingOwnerKeepsHook(Next(w, a), acts[1..], t,
                             if a.Renew? && a.token == t then w.now else last);
    }
  }

  ghost predicate EntryRuns(w: World, t: Token, id: nat, last: nat) {
    t in Subs(w) && Subs(w)[t].id == id && Subs(w)[t].timer == Some(Timer(true, last + LEASE_MS))
  }

  lemma RenewingEntryStep(w: World, a: Act, t: Token, id: nat, last: nat)
    requires Inv(w) && EntryRuns(w, t, id, last) && w.now < last + LEASE_MS
    requires OnTime(w, a) && !a.Reload? && (ByToken(a, t) ==> a.Renew? && a.policy.PassThrough?)
    ensures EntryRuns(Next(w, a), t, id, if a.Renew? && a.token == t then w.now else last)
    ensures Next(w, a).now == w.now + (if a.Tick? then a.ms else 0)
  {
    if ByToken(a, t) {
      assert EntryOk(t, Subs(w)[t], w.listeners);
    } else if PassesThrough(a) {
      if a.token != t {
        PassThroughStaysInItsLane(w, a, t);
      }
    } else if !a.Tick? && !a.UserSubmap? {
      SuppressionStaysInItsLane(w, a);
    }
  }

  /** The same for a pass-through session and its own entry. */
  lemma {:induction false} RenewingEntryKeepsHook(w: World, acts: seq<Act>, t: Token, id: nat, last: nat)
    returns (latest: nat)
    requires Inv(w) && EntryRuns(w, t, id, last) && w.now < last + LEASE_MS
    requires Prompt(w, acts) && OnlyRenews(acts, t, PassThrough) && Scheduled(w.now, last, acts, t)
    ensures EntryRuns(Run(w, acts), t, id, latest) && Run(w, acts).now < latest + LEASE_MS
    ensures id in Run(w, acts).listeners
    decreases |acts|
  {
    latest := last;
    assert EntryOk(t, Subs(w)[t], w.listeners);
    if acts != [] {
      hide Next;
      var a := acts[0];
      assert a in acts;
      NextInv(w, a);
      var renewed := if a.Renew? && a.token == t then w.now else last;
      RenewingEntryStep(w, a, t, id, last);
      latest := RenewingEntryKeepsHook(Next(w, a), acts[1..], t, id, renewed);
    }
  }

  /** A first session can come to that: it installs, and its cleanup is refused. */
  lemma FirstCleanupCanStrand(submap: string, now: nat, t: Token, saved: string, acts: seq<Act>)
    requires var works, refused := Dispatch(true, true, PRIVATE), Dispatch(false, true, PRIVATE);
             var hooked := InstallSuppress(Fresh(submap, now), t, Faults(true, true, true, true, works, true, works)).0;
             Prompt(CleanupSuppress(hooked, t, saved, refused).0, acts) && WithoutSession(acts, t)
    ensures var works, refused := Dispatch(true, true, PRIVATE), Dispatch(false, true, PRIVATE);
            var install := Install(t, Suppress, Faults(true, true, true, true, works, true, works));
            OwnedThroughout(Run(Fresh(submap, now), [install, Cleanup(t, Suppress, saved, true, refused)]), acts, t)
  {
    var works, refused := Dispatch(true, true, PRIVATE), Dispatch(false, true, PRIVATE);
    var f := Faults(true, true, true, true, works, true, works);
    var install, cleanup := Install(t, Suppress, f), Cleanup(t, Suppress, saved, true, refused);
    var start := Fresh(submap, now);
    FreshInv(submap, now);
    InstallSuppressInv(start, t, f);
    RunSnoc(start, [], install);
    RunSnoc(start, [install], cleanup);
    assert [] + [install] == [install] && [install] + [cleanup] == [install, cleanup];
    FailedCleanupStrands(InstallSuppress(start, t, f).0, t, saved, refused, acts);
  }

  // ---- does the code renew on schedule? -----------------------------------------------------

  /** The renewal clock of a polling loop that last restarted it `elapsed` ms ago: before each
      poll it renews if a whole interval has passed. */
  function PollingActs(elapsed: nat, polls: seq<nat>, t: Token, policy: Policy): seq<Act>
    decreases |polls|
  {
    if polls == [] then []
    else if elapsed >= RENEW_INTERVAL_MS then
      [Renew(t, policy), Tick(polls[0])] + PollingActs(polls[0], polls[1..], t, policy)
    else
      [Tick(polls[0])] + PollingActs(elapsed + polls[0], polls[1..], t, policy)
  }

  predicate AtMost(polls: seq<nat>, limit: nat) {
    forall i :: 0 <= i < |polls| ==> polls[i] <= limit
  }

  /** The loop keeps the schedule if its clock lags the real renewal by little enough. */
  lemma {:induction false} PollingIsScheduled(now: nat, last: nat, elapsed: nat, polls: seq<nat>, limit: nat,
                                              t: Token, policy: Policy)
    requires AtMost(polls, limit) && last + elapsed <= now
    requires (now - last - elapsed) + RENEW_INTERVAL_MS - 1 + limit < LEASE_MS
    ensures Scheduled(now, last, PollingActs(elapsed, polls, t, policy), t)
    decreases |polls|
  {
    if polls != [] {
      var p, rest := polls[0], polls[1..];
      if elapsed >= RENEW_INTERVAL_MS {
        PollingIsScheduled(now + p, now, p, rest, limit, t, policy);
        var tail := PollingActs(p, rest, t, policy);
        var acts := [Renew(t, policy), Tick(p)] + tail;
        assert acts[1..] == [Tick(p)] + tail && acts[1..][1..] == tail;
      } else {
        PollingIsScheduled(now + p, last, elapsed + p, rest, limit, t, policy);
        var tail := PollingActs(elapsed + p, rest, t, policy);
        assert ([Tick(p)] + tail)[1..] == tail;
      }
    }
  }

  /** Slow polls that reach the worst gap: 39 of 50 ms, one of 49 ms, one of 50 ms. */
  const SLOWEST_POLLS: seq<nat> := seq(39, _ => 50) + [49, 50]

  lemma OnePollIsTick(elapsed: nat, p: nat, rest: seq<nat>, t: Token, policy: Policy, now: nat, last: nat)
    requires elapsed < RENEW_INTERVAL_MS
    requires Scheduled(now, last, PollingActs(elapsed, [p] + rest, t, policy), t)
    ensures Scheduled(now + p, last, PollingActs(elapsed + p, rest, t, policy), t)
  {
    var tail := PollingActs(elapsed + p, rest, t, policy);
    assert ([p] + rest)[1..] == rest && ([Tick(p)] + tail)[1..] == tail;
  }

  lemma {:induction false} LongPollsAreTicks(elapsed: nat, n: nat, rest: seq<nat>,
                                             t: Token, policy: Policy, now: nat, last: nat)
    requires elapsed + 50 * n < RENEW_INTERVAL_MS + 50
    requires Scheduled(now, last, PollingActs(elapsed, seq(n, _ => 50) + rest, t, policy), t)
    ensures Scheduled(now + 50 * n, last, PollingActs(elapsed + 50 * n, rest, t, policy), t)
    decreases n
  {
    hide PollingActs, Scheduled;
    if n == 0 {
      assert seq(0, _ => 50) + rest == rest;
    } else {
      assert seq(n, _ => 50) + rest == [50] + (seq(n - 1, _ => 50) + rest);
      OnePollIsTick(elapsed, 50, seq(n - 1, _ => 50) + rest, t, policy, now, last);
      LongPollsAreTicks(elapsed + 50, n - 1, rest, t, policy, now + 50, last);
    }
  }

  /** `wait_for_chord_release` restarts its renewal clock without renewing. Entered `slack` ms
      after the last real renewal, it keeps the lease for every sequence of polls if and only
      if slack, interval and one poll stay inside the lease. */
  lemma ChordWaitKeepsLease(slack: nat, t: Token, policy: Policy)
    ensures (forall polls: seq<nat> :: AtMost(polls, CHORD_POLL_MS) ==>
               Scheduled(slack, 0, PollingActs(0, polls, t, policy), t))
            <==> slack + RENEW_INTERVAL_MS - 1 + CHORD_POLL_MS < LEASE_MS
  {
    if slack + RENEW_INTERVAL_MS - 1 + CHORD_POLL_MS < LEASE_MS {
      forall polls: seq<nat> | AtMost(polls, CHORD_POLL_MS)
        ensures Scheduled(slack, 0, PollingActs(0, polls, t, policy), t)
      {
        PollingIsScheduled(slack, 0, 0, polls, CHORD_POLL_MS, t, policy);
      }
    } else {
      var polls := SLOWEST_POLLS;
      assert AtMost(polls, CHORD_POLL_MS);
      if Scheduled(slack, 0, PollingActs(0, polls, t, policy), t) {
        LongPollsAreTicks(0, 39, [49, 50], t, policy, slack, 0);
        assert [49, 50] == [49] + [50];
        OnePollIsTick(1950, 49, [50], t, policy, slack + 1950, 0);
        assert false;
      }
    }
  }

  // ---- the wait, interleaved with everybody else ------------------------------------------------

  predicate OnClock(a: Act, t: Token) {
    a.Tick? || (a.Renew? && a.token == t)
  }

  /** The steps of a run that the renewal clock of `t` sees. */
  function Clock(acts: seq<Act>, t: Token): seq<Act> {
    if acts == [] then []
    else (if OnClock(acts[0], t) then [acts[0]] else []) + Clock(acts[1..], t)
  }

  lemma {:induction false} ScheduleIsAboutTheClock(now: nat, last: nat, acts: seq<Act>, t: Token)
    ensures Scheduled(now, last, acts, t) <==> Scheduled(now, last, Clock(acts, t), t)
    decreases |acts|
  {
    if acts != [] {
      var a := acts[0];
      var rest := Clock(acts[1..], t);
      if OnClock(a, t) {
        assert ([a] + rest)[1..] == rest;
      } else {
        assert [] + rest == rest;
      }
      ScheduleIsAboutTheClock(if a.Tick? then now + a.ms else now,
                              if a.Renew? && a.token == t then now else last, acts[1..], t);
    }
  }

  lemma {:induction false} ScheduledPrefix(now: nat, last: nat, acts: seq<Act>, whole: seq<Act>, t: Token)
    requires acts <= whole && Scheduled(now, last, whole, t)
    ensures Scheduled(now, last, acts, t)
    decreases |acts|
  {
    if acts != [] {
      var a := acts[0];
      assert whole[0] == a && acts[1..] <= whole[1..];
      ScheduledPrefix(if a.Tick? then now + a.ms else now,
                      if a.Renew? && a.token == t then now else last, acts[1..], whole[1..], t);
    }
  }

  /** Entered within one interval of the last renewal, the wait never loses the capture,
      however the others interleave and however long it takes. */
  lemma ChordWaitNeverLosesHook(w: World, acts: seq<Act>, polls: seq<nat>, t: Token, last: nat)
    requires Inv(w) && Owner(w) == Some(t) && LeaseRuns(w) && LeaseDue(w) == last + LEASE_MS
    requires last <= w.now <= last + RENEW_INTERVAL_MS
    requires Prompt(w, acts) && OnlyRenews(acts, t, Suppress)
    requires AtMost(polls, CHORD_POLL_MS) && Clock(acts, t) <= PollingActs(0, polls, t, Suppress)
    ensures OwnedThroughout(w, acts, t) && LeaseRuns(Run(w, acts))
    ensures Run(w, acts).capture.value.listener == w.capture.value.listener
  {
    PollingIsScheduled(w.now, last, 0, polls, CHORD_POLL_MS, t, Suppress);
    ScheduledPrefix(w.now, last, Clock(acts, t), PollingActs(0, polls, t, Suppress), t);
    ScheduleIsAboutTheClock(w.now, last, acts, t);
    RenewingOwnerKeepsHook(w, acts, t, last);
  }
}
