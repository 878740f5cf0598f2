/** What a session guarantees over all sequences of calls, whatever fails and whoever else
    acts in between. */
module SessionLife {
  import opened Wrappers
  import opened Text
  import opened HookWorld
  import opened HookInvariant
  import opened HookSafety
  import opened HookLease
  import opened SessionSpec
  import SocketLine
  import FeedSpec

  // ---- the others -----------------------------------------------------------------------

  /** Tokens are unique: nobody else runs a script with this session's. */
  predicate Foreign(acts: seq<Act>, t: Token) {
    forall a :: a in acts ==> !ByToken(a, t)
  }

  predicate ForeignAttempts(plan: seq<Attempt>, t: Token) {
    forall a :: a in plan ==> Foreign(a.before, t) && Foreign(a.between, t)
  }

  predicate ForeignArm(plan: ArmPlan, t: Token) {
    && Foreign(plan.before, t) && Foreign(plan.between, t) && Foreign(plan.waiting, t)
    && ForeignAttempts(plan.close, t)
  }

  predicate ForeignCall(c: Call, t: Token) {
    match c
    case ArmCall(_, plan) => ForeignArm(plan, t)
    case CloseCall(attempts) => ForeignAttempts(attempts, t)
    case DropCall(a) => ForeignAttempts([a], t)
    case RenewCall(_) => true
    case ReadCall(_) => true
    case Others(acts) => Foreign(acts, t)
  }

  /** What `t` holds in the compositor. */
  predicate Holds(w: World, t: Token, policy: Policy) {
    if policy.Suppress? then Owner(w) == Some(t) else t in Subs(w)
  }

  lemma OtherGrantsNothing(w: World, a: Act, t: Token)
    requires Inv(w) && !ByToken(a, t)
    ensures Inv(Next(w, a))
    ensures Holds(Next(w, a), t, Suppress) ==> Holds(w, t, Suppress)
    ensures Holds(Next(w, a), t, PassThrough) ==> Holds(w, t, PassThrough)
  {
    NextInv(w, a);
    if PassesThrough(a) {
      PassThroughSparesCapture(w, a);
      if a.token != t {
        PassThroughStaysInItsLane(w, a, t);
      }
    } else if a.LeaseTimer? || a.Install? || a.Cleanup? || a.Renew? {
      SuppressionStaysInItsLane(w, a);
    }
  }

  lemma {:induction false} OthersGrantNothing(w: World, acts: seq<Act>, t: Token)
    requires Inv(w) && Foreign(acts, t)
    ensures Inv(Run(w, acts))
    ensures Holds(Run(w, acts), t, Suppress) ==> Holds(w, t, Suppress)
    ensures Holds(Run(w, acts), t, PassThrough) ==> Holds(w, t, PassThrough)
    decreases |acts|
  {
    if acts != [] {
      assert acts[0] in acts;
      OtherGrantsNothing(w, acts[0], t);
      OthersGrantNothing(Next(w, acts[0]), acts[1..], t);
    }
  }

  /** A session's own scripts act on its own hook of the script's policy only. */
  lemma OwnScript(w: World, a: Act, t: Token)
    requires Inv(w) && ByToken(a, t)
    ensures Inv(Next(w, a))
    ensures Holds(Next(w, a), t, Other(a.policy)) ==> Holds(w, t, Other(a.policy))
    ensures !a.Install? && Holds(Next(w, a), t, a.policy) ==> Holds(w, t, a.policy)
    ensures a.Cleanup? && Apply(w, a).1.Ran? ==> !Holds(Next(w, a), t, a.policy)
  {
    NextInv(w, a);
    if a.policy.Suppress? {
      SuppressionStaysInItsLane(w, a);
    } else {
      PassThroughSparesCapture(w, a);
    }
  }

  function Other(p: Policy): Policy {
    if p.Suppress? then PassThrough else Suppress
  }

  // ---- ownership ----------------------------------------------------------------------------

  /** A session that is not in the middle of a capture holds nothing, and never anything of the
      policy it does not use. */
  ghost predicate Consistent(s: Session, w: World) {
    && Inv(w)
    && (s.state.Connected? || s.state.Closed? ==> !Holds(w, s.token, s.policy))
    && !Holds(w, s.token, Other(s.policy))
  }

  lemma TryConsistent(s: Session, w: World, a: Attempt)
    requires Consistent(s, w) && !s.state.Connected? && !s.state.Closed?
    requires Foreign(a.before, s.token) && Foreign(a.between, s.token)
    ensures var (after, removed, confirmed) := Try(s, w, a);
            && Consistent(s, after) && (removed ==> !Holds(after, s.token, s.policy))
            && (confirmed ==> removed)
  {
    var ready := Run(w, a.before);
    OthersGrantNothing(w, a.before, s.token);
    var (removed, ok) := Eval(ready, Removal(s, a), a.delivery);
    OwnScript(ready, Removal(s, a), s.token);
    if ok && s.policy.Suppress? {
      OthersGrantNothing(removed, a.between, s.token);
    }
  }

  lemma {:induction false} TryCloseConsistent(s: Session, w: World, plan: seq<Attempt>)
    requires Consistent(s, w) && s.state.RestorePending? && ForeignAttempts(plan, s.token)
    ensures var o := TryClose(s, w, plan);
            && Consistent(o.session, o.world)
            && o.session == s.(state := if o.ok then Closed else RestorePending)
            && |o.events| <= |plan|
            && (forall e :: e in o.events ==> e.RemoveEval?)
            && (o.ok ==> o.events != [] && o.events[|o.events| - 1] == RemoveEval(true))
    decreases |plan|
  {
    if plan != [] {
      assert plan[0] in plan;
      TryConsistent(s, w, plan[0]);
      var (after, removed, confirmed) := Try(s, w, plan[0]);
      if !confirmed {
        TryCloseConsistent(s, after, plan[1..]);
      }
    }
  }

  /** Teardown: it ends in `Closed` exactly when it succeeds, after a successful removal; it
      runs at most three scripts, and none for a session without a hook or, under
      suppression, without a known original. */
  lemma ClosingIsBounded(s: Session, w: World, plan: Attempts)
    requires Consistent(s, w) && ForeignAttempts(plan, s.token)
    ensures var o := CleanupBounded(s, w, plan);
            && Consistent(o.session, o.world)
            && o.session == s.(state := if o.ok then Closed else RestorePending)
            && |o.events| <= 3
            && (forall e :: e in o.events ==> e.RemoveEval?)
            && (s.state.Connected? || s.state.Closed? ==> o.ok && o.events == [] && o.world == w)
            && (!s.state.Connected? && !s.state.Closed? && s.policy.Suppress? && RestoreTarget(s.saved).None?
                ==> !o.ok && o.events == [] && o.world == w)
            && (!s.state.Connected? && !s.state.Closed? && o.ok ==> RemoveEval(true) in o.events)
  {
    if !s.state.Connected? && !s.state.Closed? {
      TryCloseConsistent(s.(state := RestorePending), w, plan);
    }
  }

  lemma HookingConsistent(s: Session, w: World, plan: ArmPlan)
    requires Inv(w) && s.state.Installing? && ForeignArm(plan, s.token)
    requires !Holds(w, s.token, Suppress) && !Holds(w, s.token, PassThrough)
    ensures var hooked := Hooking(s, w, plan);
            && Consistent(s, hooked.world) && (hooked.armed ==> hooked.installed)
  {
    hide FeedSpec.AwaitArmed;
    var ready := Run(w, plan.before);
    OthersGrantNothing(w, plan.before, s.token);
    var install := Install(s.token, s.policy, plan.faults);
    OwnScript(ready, install, s.token);
    var (hooked, _) := Eval(ready, install, plan.delivery);
    assert Consistent(s, hooked);
    OthersGrantNothing(hooked, plan.between, s.token);
    OthersGrantNothing(Run(hooked, plan.between), plan.waiting, s.token);
  }

  /** What `arm` leaves behind. A refused call changes nothing; a failed one is torn down. */
  lemma ArmingIsSafe(s: Session, w: World, policy: Policy, plan: ArmPlan)
    requires Consistent(s, w) && ForeignArm(plan, s.token)
    ensures var o := ArmSession(s, w, policy, plan);
            && Consistent(o.session, o.world)
            && if !s.state.Connected? && !s.state.Closed? then !o.ok && o.session == s && o.events == []
               else
                 && (o.ok ==> o.session.state.Armed? && o.events == [InstallEval(true)])
                 && (!o.ok ==> o.session.state.Closed? || o.session.state.RestorePending?)
                 && o.events != [] && o.events[0].InstallEval? && |o.events| <= 1 + 3
                 && (forall e :: e in o.events[1..] ==> e.RemoveEval?)
                 && (o.session.state.Closed? ==> RemoveEval(true) in o.events[1..])
  {
    if s.state.Connected? || s.state.Closed? {
      var installing := s.(policy := policy, state := Installing);
      HookingConsistent(installing, w, plan);
      var hooked := Hooking(installing, w, plan);
      if !hooked.armed {
        var after := installing.(feed := hooked.feed);
        ClosingIsBounded(after, hooked.world, plan.close);
        var closing := CleanupBounded(after, hooked.world, plan.close);
        assert ([InstallEval(hooked.installed)] + closing.events)[1..] == closing.events;
      }
    }
  }

  /** `Armed` means, and is all it takes: the install was confirmed, the private submap observed
      when suppressing, and the text read holds the session's own armed event as a complete
      line, however it is split into reads. */
  lemma ArmedMeansConfirmed(s: Session, w: World, policy: Policy, plan: ArmPlan)
    requires s.state.Connected? || s.state.Closed?
    ensures var o := ArmSession(s, w, policy, plan);
            var install := Install(s.token, policy, plan.faults);
            var ready := Run(w, plan.before);
            o.ok <==>
              && plan.delivery.Heard? && Apply(ready, install).1.Ran?
              && (policy.Suppress? ==>
                    plan.answered && Trim(Run(Next(ready, install), plan.between).submap) == PRIVATE)
              && plan.texts != []
              && exists line :: line in Lines(s.feed.buffer + FeedSpec.Concat(plan.texts))
                                && SocketLine.Parse(line) == SocketLine.ArmedBy(s.token)
  {
    hide SocketLine.Parse, FeedSpec.AwaitArmed, Lines, FeedSpec.Concat, Apply, Run, Trim;
    var lines := Lines(s.feed.buffer + FeedSpec.Concat(plan.texts));
    NothingReadNothingSeen(s.feed, s.token);
    if plan.texts != [] {
      FeedSpec.ArmedIsRead(s.feed, s.token, plan.texts);
    }
    AnnouncedLine(lines, s.token);
  }

  lemma NothingReadNothingSeen(f: FeedSpec.Feed, token: Token)
    ensures !FeedSpec.AwaitArmed(f, token, []).1
  {
  }

  lemma AnnouncedLine(lines: seq<string>, token: Token)
    ensures FeedSpec.Announces(lines, token) <==>
            exists line :: line in lines && SocketLine.Parse(line) == SocketLine.ArmedBy(token)
  {
    hide SocketLine.Parse;
    if line :| line in lines && SocketLine.Parse(line) == SocketLine.ArmedBy(token) {
      var i :| 0 <= i < |lines| && lines[i] == line;
      assert SocketLine.Parse(lines[i]) == SocketLine.ArmedBy(token);
    }
  }

  lemma DoConsistent(s: Session, w: World, c: Call)
    requires Consistent(s, w) && ForeignCall(c, s.token)
    ensures Consistent(Do(s, w, c).session, Do(s, w, c).world)
  {
    match c {
      case ArmCall(policy, plan) => ArmingIsSafe(s, w, policy, plan);
      case CloseCall(attempts) => ClosingIsBounded(s, w, attempts);
      case DropCall(a) =>
        if !s.state.Connected? && !s.state.Closed? {
          TryCloseConsistent(s.(state := RestorePending), w, [a]);
        }
      case RenewCall(d) =>
        OwnScript(w, Renew(s.token, s.policy), s.token);
      case ReadCall(_) =>
      case Others(acts) => OthersGrantNothing(w, acts, s.token);
    }
  }

  lemma DoKeepsToken(s: Session, w: World, c: Call)
    requires Consistent(s, w) && ForeignCall(c, s.token)
    ensures Do(s, w, c).session.token == s.token
  {
    match c {
      case ArmCall(policy, plan) =>
        if s.state.Connected? || s.state.Closed? {
          var installing := s.(policy := policy, state := Installing);
          HookingConsistent(installing, w, plan);
          var hooked := Hooking(installing, w, plan);
          ClosingIsBounded(installing.(feed := hooked.feed), hooked.world, plan.close);
        }
      case CloseCall(attempts) => ClosingIsBounded(s, w, attempts);
      case DropCall(a) =>
        if !s.state.Connected? && !s.state.Closed? {
          TryCloseConsistent(s.(state := RestorePending), w, [a]);
        }
      case _ =>
    }
  }

  /** Over every call sequence: whenever the session is `Connected` or `Closed`, nothing of it
      is left in the compositor. */
  lemma {:induction false} ClosedSessionHoldsNothing(s: Session, w: World, calls: seq<Call>)
    requires Consistent(s, w)
    requires forall c :: c in calls ==> ForeignCall(c, s.token)
    ensures var o := DoAll(s, w, calls);
            && Consistent(o.session, o.world) && o.session.token == s.token
            && (o.session.state.Connected? || o.session.state.Closed? ==>
                  Owner(o.world) != Some(s.token) && s.token !in Subs(o.world))
    decreases |calls|
  {
    if calls != [] {
      assert calls[0] in calls;
      DoConsistent(s, w, calls[0]);
      DoKeepsToken(s, w, calls[0]);
      var first := Do(s, w, calls[0]);
      ClosedSessionHoldsNothing(first.session, first.world, calls[1..]);
    }
  }

  // ---- installs and removals alternate ------------------------------------------------------

  /** No install since the last successful removal. */
  predicate Settled(log: seq<Event>) {
    log == [] || log[|log| - 1] == RemoveEval(true)
    || (log[|log| - 1].RemoveEval? && Settled(log[..|log| - 1]))
  }

  /** Every install finds the log settled: a successful removal lies between any two. */
  predicate Alternating(log: seq<Event>) {
    log == [] || (Alternating(log[..|log| - 1]) && (log[|log| - 1].InstallEval? ==> Settled(log[..|log| - 1])))
  }

  lemma LogGrows(log: seq<Event>, e: Event)
    ensures Settled(log + [e]) <==> e == RemoveEval(true) || (e.RemoveEval? && Settled(log))
    ensures Alternating(log + [e]) <==> Alternating(log) && (e.InstallEval? ==> Settled(log))
  {
    assert (log + [e])[..|log|] == log;
  }

  lemma {:induction false} RemovalsAlternate(log: seq<Event>, more: seq<Event>)
    requires Alternating(log) && forall e :: e in more ==> e.RemoveEval?
    ensures Alternating(log + more)
    ensures Settled(log) || RemoveEval(true) in more ==> Settled(log + more)
    decreases |more|
  {
    hide Settled, Alternating;
    if more == [] {
      assert log + more == log;
    } else {
      var init, last := more[..|more| - 1], more[|more| - 1];
      assert more == init + [last];
      assert log + more == (log + init) + [last];
      assert last in more && forall e :: e in init ==> e in more;
      assert RemoveEval(true) in more ==> last == RemoveEval(true) || RemoveEval(true) in init;
      RemovalsAlternate(log, init);
      LogGrows(log + init, last);
    }
  }

  lemma CallAlternates(s: Session, w: World, c: Call, log: seq<Event>)
    requires Consistent(s, w) && ForeignCall(c, s.token) && Alternating(log)
    requires s.state.Connected? || s.state.Closed? ==> Settled(log)
    ensures var o := Do(s, w, c);
            && Alternating(log + o.events)
            && (o.session.state.Connected? || o.session.state.Closed? ==> Settled(log + o.events))
  {
    hide Settled, Alternating;
    var o := Do(s, w, c);
    match c {
      case ArmCall(policy, plan) =>
        ArmingIsSafe(s, w, policy, plan);
        if o.events == [] {
          assert log + o.events == log;
        } else {
          var begun := log + [o.events[0]];
          LogGrows(log, o.events[0]);
          assert log + o.events == begun + o.events[1..];
          RemovalsAlternate(begun, o.events[1..]);
        }
      case CloseCall(attempts) =>
        ClosingIsBounded(s, w, attempts);
        RemovalsAlternate(log, o.events);
      case DropCall(a) =>
        if s.state.Connected? || s.state.Closed? {
          assert log + o.events == log;
        } else {
          TryCloseConsistent(s.(state := RestorePending), w, [a]);
          RemovalsAlternate(log, o.events);
        }
      case _ => assert log + o.events == log;
    }
  }

  lemma {:induction false} LogAlternates(s: Session, w: World, calls: seq<Call>, log: seq<Event>)
    requires Consistent(s, w) && Alternating(log)
    requires s.state.Connected? || s.state.Closed? ==> Settled(log)
    requires forall c :: c in calls ==> ForeignCall(c, s.token)
    ensures Alternating(log + DoAll(s, w, calls).events)
    decreases |calls|
  {
    hide Do, Alternating, Settled, Consistent, ForeignCall;
    if calls == [] {
      assert log + DoAll(s, w, calls).events == log;
    } else {
      assert calls[0] in calls;
      var first := Do(s, w, calls[0]);
      DoConsistent(s, w, calls[0]);
      DoKeepsToken(s, w, calls[0]);
      CallAlternates(s, w, calls[0], log);
      LogAlternates(first.session, first.world, calls[1..], log + first.events);
      var rest := DoAll(first.session, first.world, calls[1..]);
      assert log + (first.events + rest.events) == (log + first.events) + rest.events;
    }
  }

  lemma {:induction false} SettledSince(log: seq<Event>, i: nat)
    requires i < |log| && log[i].InstallEval? && Settled(log)
    ensures exists k :: i < k < |log| && log[k] == RemoveEval(true)
    decreases |log|
  {
    var last := |log| - 1;
    if log[last] == RemoveEval(true) {
    } else {
      SettledSince(log[..last], i);
      var k :| i < k < last && log[..last][k] == RemoveEval(true);
      assert log[k] == RemoveEval(true);
    }
  }

  /** Between two installs of one session there is a successful removal. */
  lemma RemovalBetweenInstalls(s: Session, w: World, calls: seq<Call>, i: nat, j: nat)
    requires Consistent(s, w) && (s.state.Connected? || s.state.Closed?)
    requires forall c :: c in calls ==> ForeignCall(c, s.token)
    requires i < j < |DoAll(s, w, calls).events|
    requires DoAll(s, w, calls).events[i].InstallEval? && DoAll(s, w, calls).events[j].InstallEval?
    ensures exists k :: i < k < j && DoAll(s, w, calls).events[k] == RemoveEval(true)
  {
    hide DoAll, Alternating, Settled, Consistent, ForeignCall;
    var log := DoAll(s, w, calls).events;
    EmptyLogAlternates();
    LogAlternates(s, w, calls, []);
    assert [] + log == log;
    RemovalBetween(log, i, j);
  }

  lemma EmptyLogAlternates()
    ensures Alternating([]) && Settled([])
  {
  }

  lemma RemovalBetween(log: seq<Event>, i: nat, j: nat)
    requires Alternating(log) && i < j < |log| && log[i].InstallEval? && log[j].InstallEval?
    ensures exists k :: i < k < j && log[k] == RemoveEval(true)
  {
    hide Alternating, Settled;
    PrefixAlternates(log, j + 1);
    assert log[..j + 1] == log[..j] + [log[j]];
    LogGrows(log[..j], log[j]);
    SettledSince(log[..j], i);
    var k :| i < k < j && log[..j][k] == RemoveEval(true);
    assert log[k] == RemoveEval(true);
  }

  lemma {:induction false} PrefixAlternates(log: seq<Event>, n: nat)
    requires Alternating(log) && n <= |log|
    ensures Alternating(log[..n])
    decreases |log|
  {
    if n < |log| {
      var init := log[..|log| - 1];
      PrefixAlternates(init, n);
      assert init[..n] == log[..n];
    } else {
      assert log[..n] == log;
    }
  }
}
