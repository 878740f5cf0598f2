/** What a closed session has restored, and exactly when a teardown succeeds. */
module SessionRestore {
  import opened Wrappers
  import opened Text
  import opened HookWorld
  import opened HookInvariant
  import opened HookSafety
  import opened HookLease
  import opened SessionSpec
  import opened SessionLife
  import FeedSpec

  /** The compositor as the `i`-th cleanup script finds it, if no earlier attempt closed. */
  function BeforeRemoval(s: Session, w: World, plan: seq<Attempt>, i: nat): World
    requires i < |plan|
    decreases i
  {
    if i == 0 then Run(w, plan[0].before)
    else BeforeRemoval(s, Try(s, w, plan[0]).0, plan[1..], i - 1)
  }

  /** Attempt `a`, its script started in `b`, is reported to have worked and is verified. */
  predicate Confirmed(s: Session, b: World, a: Attempt) {
    && a.delivery.Heard? && Apply(b, Removal(s, a)).1.Ran?
    && (s.policy.Suppress? ==> VerifyRestored(s, Run(Next(b, Removal(s, a)), a.between), a.answered))
  }

  lemma TryIsConfirmed(s: Session, w: World, a: Attempt)
    ensures Try(s, w, a).2 <==> Confirmed(s, Run(w, a.before), a)
  {
  }

  /** A teardown succeeds iff one of its attempts is confirmed. */
  lemma {:induction false} ClosesIffConfirmed(s: Session, w: World, plan: seq<Attempt>)
    ensures TryClose(s, w, plan).ok
            <==> exists i :: 0 <= i < |plan| && Confirmed(s, BeforeRemoval(s, w, plan, i), plan[i])
    decreases |plan|
  {
    if plan != [] {
      TryIsConfirmed(s, w, plan[0]);
      var (after, _, confirmed) := Try(s, w, plan[0]);
      if confirmed {
        assert Confirmed(s, BeforeRemoval(s, w, plan, 0), plan[0]);
      } else {
        ClosesIffConfirmed(s, after, plan[1..]);
        var rest := plan[1..];
        if TryClose(s, after, rest).ok {
          var i :| 0 <= i < |rest| && Confirmed(s, BeforeRemoval(s, after, rest, i), rest[i]);
          assert Confirmed(s, BeforeRemoval(s, w, plan, i + 1), plan[i + 1]);
        }
        forall i | 0 <= i < |plan| && Confirmed(s, BeforeRemoval(s, w, plan, i), plan[i])
          ensures TryClose(s, after, rest).ok
        {
          assert i > 0;
          assert Confirmed(s, BeforeRemoval(s, after, rest, i - 1), rest[i - 1]);
        }
      }
    }
  }

  // ---- the record survives until the removal --------------------------------------------------

  /** If `t` owns the capture, the record is `name`. */
  predicate Remembers(w: World, t: Token, name: string) {
    Owner(w) == Some(t) ==> w.capture.value.previous == Some(name)
  }

  lemma RemembersStep(w: World, a: Act, t: Token, name: string)
    requires Inv(w) && Remembers(w, t, name) && !(a.Install? && a.token == t)
    ensures Inv(Next(w, a)) && Remembers(Next(w, a), t, name)
  {
    NextInv(w, a);
    if Owner(w) == Some(t) {
      if Owner(Next(w, a)) == Some(t) {
        RecordKeptByStep(w, a, t);
      }
    } else if ByToken(a, t) {
      OwnScript(w, a, t);
    } else {
      OtherGrantsNothing(w, a, t);
    }
  }

  lemma {:induction false} RemembersRun(w: World, acts: seq<Act>, t: Token, name: string)
    requires Inv(w) && Remembers(w, t, name) && Foreign(acts, t)
    ensures Inv(Run(w, acts)) && Remembers(Run(w, acts), t, name)
    decreases |acts|
  {
    if acts != [] {
      assert acts[0] in acts;
      RemembersStep(w, acts[0], t, name);
      RemembersRun(Next(w, acts[0]), acts[1..], t, name);
    }
  }

  lemma {:induction false} RemembersBeforeRemoval(s: Session, w: World, plan: seq<Attempt>, i: nat, name: string)
    requires Inv(w) && Remembers(w, s.token, name) && ForeignAttempts(plan, s.token) && i < |plan|
    ensures Inv(BeforeRemoval(s, w, plan, i)) && Remembers(BeforeRemoval(s, w, plan, i), s.token, name)
    decreases i
  {
    var a := plan[0];
    assert a in plan;
    RemembersRun(w, a.before, s.token, name);
    if i > 0 {
      var ready := Run(w, a.before);
      RemembersStep(ready, Removal(s, a), s.token, name);
      RemembersRun(Eval(ready, Removal(s, a), a.delivery).0, a.between, s.token, name);
      RemembersBeforeRemoval(s, Try(s, w, a).0, plan[1..], i - 1, name);
    }
  }

  /** A cleanup script that ran through has brought a submap back: the recorded one, or after
      Lua state loss the one the session remembers. */
  lemma CleanupThatRanRestored(w: World, t: Token, saved: string, d: Dispatch)
    requires Inv(w) && CleanupSuppress(w, t, saved, d).1.Ran?
    ensures Matches(CleanupSuppress(w, t, saved, d).0.submap,
                    if Owner(w) == Some(t) then CleanupTarget(w.capture.value.previous.value)
                    else DefaultTarget(saved))
  {
  }

  /** What the removal of attempt `i` leaves active. */
  function AfterRemoval(s: Session, w: World, plan: seq<Attempt>, i: nat): World
    requires i < |plan|
  {
    Next(BeforeRemoval(s, w, plan, i), Removal(s, plan[i]))
  }

  /** The attempt that closes, and how it leaves the compositor: others may have acted between
      its script and its check. */
  lemma {:induction false} ClosingAttempt(s: Session, w: World, plan: seq<Attempt>) returns (i: nat)
    requires s.policy.Suppress? && TryClose(s, w, plan).ok
    ensures i < |plan| && Confirmed(s, BeforeRemoval(s, w, plan, i), plan[i])
    ensures TryClose(s, w, plan).world == Run(AfterRemoval(s, w, plan, i), plan[i].between)
    decreases |plan|
  {
    TryIsConfirmed(s, w, plan[0]);
    if Try(s, w, plan[0]).2 {
      i := 0;
    } else {
      var later := ClosingAttempt(s, Try(s, w, plan[0]).0, plan[1..]);
      i := later + 1;
    }
  }

  /** A suppressing session that closed has restored the submap: by the very attempt that
      closed it, before any query was believed. */
  lemma ClosedMeansRestored(s: Session, w: World, plan: seq<Attempt>, name: string) returns (i: nat)
    requires Inv(w) && s.policy.Suppress? && ForeignAttempts(plan, s.token)
    requires Remembers(w, s.token, name) && TryClose(s, w, plan).ok
    ensures i < |plan| && Confirmed(s, BeforeRemoval(s, w, plan, i), plan[i])
    ensures TryClose(s, w, plan).world == Run(AfterRemoval(s, w, plan, i), plan[i].between)
    ensures Matches(AfterRemoval(s, w, plan, i).submap,
                    if Owner(BeforeRemoval(s, w, plan, i)) == Some(s.token) then CleanupTarget(name)
                    else DefaultTarget(s.saved))
  {
    i := ClosingAttempt(s, w, plan);
    RemembersBeforeRemoval(s, w, plan, i, name);
    CleanupThatRanRestored(BeforeRemoval(s, w, plan, i), s.token, s.saved, plan[i].restore);
  }

  /** A session connects under a submap other than the private one, and knows it by its name, or
      without the blanks around it if it learned it from the plain query. */
  lemma ConnectKnowsTheSubmap(w: World, t: Token, json: bool, plain: bool, devices: FeedSpec.Refresh)
    requires Connect(w, t, json, plain, devices).Some?
    ensures var saved := Connect(w, t, json, plain, devices).value.saved;
            && (saved == w.submap || saved == Trim(w.submap)) && KnownOriginal(saved)
            && DefaultTarget(saved) == TargetOf(saved) && CleanupTarget(w.submap) == TargetOf(w.submap)
  {
    TrimIsTight(w.submap);
    TrimOfTight(PRIVATE);
    TrimOfTight("");
  }

  lemma InstallRemembers(w: World, t: Token, f: Faults)
    requires Inv(w) && Owner(w) != Some(t)
    ensures Inv(InstallSuppress(w, t, f).0) && Remembers(InstallSuppress(w, t, f).0, t, w.submap)
  {
    InstallSuppressInv(w, t, f);
  }

  lemma HookingRemembers(s: Session, w: World, plan: ArmPlan)
    requires Inv(w) && s.policy.Suppress? && Owner(w) != Some(s.token) && ForeignArm(plan, s.token)
    ensures Inv(Hooking(s, w, plan).world)
    ensures Remembers(Hooking(s, w, plan).world, s.token, Run(w, plan.before).submap)
  {
    hide FeedSpec.AwaitArmed;
    var ready := Run(w, plan.before);
    OthersGrantNothing(w, plan.before, s.token);
    var install := Install(s.token, s.policy, plan.faults);
    InstallRemembers(ready, s.token, plan.faults);
    var (hooked, _) := Eval(ready, install, plan.delivery);
    RemembersRun(hooked, plan.between, s.token, ready.submap);
    RemembersRun(Run(hooked, plan.between), plan.waiting, s.token, ready.submap);
  }

  /** The teardown of a session: of its failed arming, or the one it is closed with. */
  datatype Teardown = Teardown(session: Session, world: World, plan: Attempts)

  function TeardownOf(s: Session, w: World, plan: ArmPlan, whileArmed: seq<Act>, attempts: Attempts): Teardown {
    var hooked := Hooking(s.(policy := Suppress, state := Installing), w, plan);
    var pending := s.(policy := Suppress, state := RestorePending, feed := hooked.feed);
    if hooked.armed then Teardown(pending, Run(hooked.world, whileArmed), attempts)
    else Teardown(pending, hooked.world, plan.close)
  }

  /** Arm with suppression and, if that worked, close after a while. */
  function ArmThenClose(s: Session, w: World, plan: ArmPlan, whileArmed: seq<Act>, attempts: Attempts): Outcome {
    var armed := ArmSession(s, w, Suppress, plan);
    if armed.ok then CleanupBounded(armed.session, Run(armed.world, whileArmed), attempts) else armed
  }

  /** Connect, arm, close: whatever failed on the way, a session that reaches `Closed` after
      its install was sent has brought back the submap it connected under; only after Lua state
      loss it knows that by the name it learned. The attempt `i` that closed it did, and only
      what others did after its script has come since. */
  lemma ConnectArmClose(w: World, t: Token, json: bool, plain: bool, devices: FeedSpec.Refresh, plan: ArmPlan,
                        whileArmed: seq<Act>, attempts: Attempts) returns (i: nat)
    requires Inv(w) && Owner(w) != Some(t)
    requires Connect(w, t, json, plain, devices).Some?
    requires ForeignArm(plan, t) && Foreign(whileArmed, t) && ForeignAttempts(attempts, t)
    requires Run(w, plan.before).submap == w.submap
    requires var s := Connect(w, t, json, plain, devices).value;
             ArmThenClose(s, w, plan, whileArmed, attempts).session.state.Closed?
    ensures var s := Connect(w, t, json, plain, devices).value;
            var end := ArmThenClose(s, w, plan, whileArmed, attempts).world;
            var down := TeardownOf(s, w, plan, whileArmed, attempts);
            && i < |down.plan|
            && var found := BeforeRemoval(down.session, down.world, down.plan, i);
               var removed := AfterRemoval(down.session, down.world, down.plan, i);
               var original := if Owner(found) == Some(t) then w.submap else s.saved;
               && Owner(removed) != Some(t) && Matches(removed.submap, TargetOf(original))
               && (original == w.submap || original == Trim(w.submap))
               && end == Run(removed, down.plan[i].between)
               && (end.submap == removed.submap ==> Matches(end.submap, TargetOf(original)))
  {
    hide FeedSpec.AwaitArmed, Trim;
    ConnectKnowsTheSubmap(w, t, json, plain, devices);
    var s := Connect(w, t, json, plain, devices).value;
    var installing := s.(policy := Suppress, state := Installing);
    HookingRemembers(installing, w, plan);
    var hooked := Hooking(installing, w, plan);
    if hooked.armed {
      RemembersRun(hooked.world, whileArmed, t, w.submap);
    }
    var down := TeardownOf(s, w, plan, whileArmed, attempts);
    ClosedByTeardown(s, w, plan, whileArmed, attempts);
    i := ClosedMeansRestored(down.session, down.world, down.plan, w.submap);
    RemembersBeforeRemoval(down.session, down.world, down.plan, i, w.submap);
    OwnScript(BeforeRemoval(down.session, down.world, down.plan, i), Removal(down.session, down.plan[i]), t);
  }

  lemma ClosedByTeardown(s: Session, w: World, plan: ArmPlan, whileArmed: seq<Act>, attempts: Attempts)
    requires s.state.Connected?
    requires ArmThenClose(s, w, plan, whileArmed, attempts).session.state.Closed?
    ensures var down := TeardownOf(s, w, plan, whileArmed, attempts);
            && TryClose(down.session, down.world, down.plan).ok
            && TryClose(down.session, down.world, down.plan).world == ArmThenClose(s, w, plan, whileArmed, attempts).world
  {
    hide Hooking, TryClose;
    var down := TeardownOf(s, w, plan, whileArmed, attempts);
    TryCloseState(down.session, down.world, down.plan);
  }

  // ---- names with white space around them ------------------------------------------------------------

  /** A name with blanks around it is never verified: the check compares it with one that has been
      trimmed. */
  lemma BlankNameIsNotVerified(s: Session, seen: World, answered: bool)
    requires Trim(s.saved) != s.saved
    ensures !VerifyRestored(s, seen, answered)
  {
    TrimIsTight(seen.submap);
    TrimOfTight("default");
    TrimOfTight("reset");
    hide Trim;
    if VerifyRestored(s, seen, answered) {
      TrimOfTight(CurrentSubmap(seen, answered));
    }
  }

  /** Back in the submap it knows, a session is verified iff that name has no blanks around it. */
  lemma OwnNameIsVerifiedIff(s: Session, seen: World)
    requires RestoreTarget(s.saved).Some? && seen.submap == s.saved
    ensures VerifyRestored(s, seen, true) <==> Trim(s.saved) == s.saved
  {
    if Trim(s.saved) != s.saved {
      BlankNameIsNotVerified(s, seen, true);
    }
  }

  /** Back in the submap it connected under, it is verified unless it learned from the JSON query
      a name with blanks around it. The plain query's answer is trimmed, and so is the check's. */
  lemma ConnectedNameIsVerifiedIff(w: World, t: Token, json: bool, plain: bool, devices: FeedSpec.Refresh, seen: World)
    requires Connect(w, t, json, plain, devices).Some? && seen.submap == w.submap
    ensures var fromJson := json && Trim(w.submap) != "" && w.submap != PRIVATE;
            VerifyRestored(Connect(w, t, json, plain, devices).value, seen, true)
            <==> !(fromJson && Trim(w.submap) != w.submap)
  {
    var s := Connect(w, t, json, plain, devices).value;
    TrimIsTight(w.submap);
    TrimOfTight(Trim(w.submap));
    TrimOfTight(PRIVATE);
    hide Trim;
    if Trim(s.saved) != s.saved {
      BlankNameIsNotVerified(s, seen, true);
    }
  }

  /** Whatever the plan, a session with such a name never closes. */
  lemma BlankNamesNeverClose(s: Session, w: World, plan: seq<Attempt>)
    requires s.policy.Suppress? && Trim(s.saved) != s.saved
    ensures !TryClose(s, w, plan).ok
  {
    ClosesIffConfirmed(s, w, plan);
    hide Trim, BeforeRemoval;
    forall seen: World, answered: bool ensures !VerifyRestored(s, seen, answered) {
      BlankNameIsNotVerified(s, seen, answered);
    }
  }

  /** So a session closes, under some course of events, iff its name has no blanks around it. */
  lemma CanCloseIff(s: Session)
    requires s.policy.Suppress? && RestoreTarget(s.saved).Some?
    ensures (exists w, a :: Inv(w) && Owner(w) == Some(s.token) && TryClose(s, w, [a]).ok) <==> Trim(s.saved) == s.saved
  {
    forall w, a | TryClose(s, w, [a]).ok ensures Trim(s.saved) == s.saved {
      if Trim(s.saved) != s.saved {
        BlankNamesNeverClose(s, w, [a]);
      }
    }
    TrimOfTight("");
    TrimOfTight(PRIVATE);
    if Trim(s.saved) == s.saved {
      var works := Dispatch(true, true, PRIVATE);
      var w := InstallSuppress(Fresh(s.saved, 0), s.token, Faults(true, true, true, true, works, true, works)).0;
      var a := Attempt([], true, Dispatch(true, true, CleanupTarget(s.saved)), Heard, [], true);
      FreshInv(s.saved, 0);
      InstallSuppressInv(Fresh(s.saved, 0), s.token, Faults(true, true, true, true, works, true, works));
      OrdinaryClose(s, w, a);
    }
  }

  /** An owner that is heard at once and undisturbed closes. */
  lemma OrdinaryClose(s: Session, w: World, a: Attempt)
    requires s.policy.Suppress? && RestoreTarget(s.saved).Some? && KnownOriginal(s.saved) && Trim(s.saved) == s.saved
    requires Inv(w) && Remembers(w, s.token, s.saved) && Owner(w) == Some(s.token)
    requires a == Attempt([], true, Dispatch(true, true, CleanupTarget(s.saved)), Heard, [], true)
    ensures TryClose(s, w, [a]).ok
  {
    TrimOfTight("reset");
    assert Try(s, w, a).2;
  }

  /** " a" is such a name: a session that connects there by the JSON query is never verified there,
      one that connects by the plain query is. */
  lemma BlankNameExample(t: Token, devices: FeedSpec.Refresh, now: nat)
    ensures var w := Fresh(" a", now);
            var byJson, byPlain := Connect(w, t, true, true, devices), Connect(w, t, false, true, devices);
            && byJson.Some? && byJson.value.saved == " a" && !VerifyRestored(byJson.value, w, true)
            && byPlain.Some? && byPlain.value.saved == "a" && VerifyRestored(byPlain.value, w, true)
  {
    var w := Fresh(" a", now);
    assert TrimStart(" a") == "a" by { assert " a"[1..] == "a" && TrimStart("a") == "a"; }
    assert TrimEnd("a") == "a";
    assert Trim(w.submap) == "a";
    ConnectedNameIsVerifiedIff(w, t, true, true, devices, w);
    ConnectedNameIsVerifiedIff(w, t, false, true, devices, w);
  }

  lemma {:induction false} TryCloseState(s: Session, w: World, plan: seq<Attempt>)
    requires s.state.RestorePending?
    ensures TryClose(s, w, plan).ok <==> TryClose(s, w, plan).session.state.Closed?
    decreases |plan|
  {
    if plan != [] {
      TryCloseState(s, Try(s, w, plan[0]).0, plan[1..]);
    }
  }

  // ---- exactly when a teardown succeeds ----------------------------------------------------------

  predicate Calm(acts: seq<Act>, t: Token) {
    WithoutSession(acts, t)
  }

  predicate CalmAttempts(plan: seq<Attempt>, t: Token) {
    forall a :: a in plan ==> Calm(a.before, t) && Calm(a.between, t)
  }

  lemma {:induction false} LostStaysLost(w: World, acts: seq<Act>, t: Token)
    requires Inv(w) && w.capture.Some? && Calm(acts, t)
    ensures Inv(Run(w, acts)) && Run(w, acts).capture.Some?
    ensures Owner(Run(w, acts)) == Some(t) ==> Owner(w) == Some(t)
    decreases |acts|
  {
    if acts != [] {
      assert acts[0] in acts;
      OtherGrantsNothing(w, acts[0], t);
      LostStaysLost(Next(w, acts[0]), acts[1..], t);
    }
  }

  lemma TableStaysOnce(s: Session, w: World, a: Attempt)
    requires Inv(w) && w.capture.Some? && s.policy.Suppress? && Calm(a.before, s.token) && Calm(a.between, s.token)
    ensures Inv(Run(w, a.before)) && Run(w, a.before).capture.Some?
    ensures Owner(Run(w, a.before)) == Some(s.token) ==> Owner(w) == Some(s.token)
    ensures Inv(Try(s, w, a).0) && Try(s, w, a).0.capture.Some?
    ensures Owner(Try(s, w, a).0) == Some(s.token) ==> Owner(w) == Some(s.token)
  {
    LostStaysLost(w, a.before, s.token);
    var ready := Run(w, a.before);
    OwnScript(ready, Removal(s, a), s.token);
    var removed := Eval(ready, Removal(s, a), a.delivery).0;
    assert Inv(removed) && removed.capture.Some?;
    LostStaysLost(removed, a.between, s.token);
  }

  lemma {:induction false} TableStays(s: Session, w: World, plan: seq<Attempt>, i: nat)
    requires Inv(w) && w.capture.Some? && s.policy.Suppress? && CalmAttempts(plan, s.token) && i < |plan|
    ensures Inv(BeforeRemoval(s, w, plan, i)) && BeforeRemoval(s, w, plan, i).capture.Some?
    ensures Owner(BeforeRemoval(s, w, plan, i)) == Some(s.token) ==> Owner(w) == Some(s.token)
    decreases i
  {
    hide Inv, Try, Calm;
    var a := plan[0];
    assert a in plan;
    TableStaysOnce(s, w, a);
    if i > 0 {
      TableStays(s, Try(s, w, a).0, plan[1..], i - 1);
    }
  }

  /** `t` still owns the capture, and this dispatch restores what it recorded. */
  predicate BringsBack(w: World, t: Token, read: bool, d: Dispatch) {
    && Owner(w) == Some(t) && w.capture.value.previous.Some? && read
    && Restored(d, CleanupTarget(w.capture.value.previous.value))
  }

  /** Without a reload, a suppressing session closes iff some attempt still finds it the owner,
      restores the record, is reported back and is then verified. */
  lemma ClosesExactlyWhen(s: Session, w: World, plan: seq<Attempt>)
    requires Inv(w) && w.capture.Some? && s.policy.Suppress? && CalmAttempts(plan, s.token)
    ensures TryClose(s, w, plan).ok <==>
            exists i :: 0 <= i < |plan| &&
              var b := BeforeRemoval(s, w, plan, i);
              && plan[i].delivery.Heard? && BringsBack(b, s.token, plan[i].read, plan[i].restore)
              && VerifyRestored(s, Run(AfterRemoval(s, w, plan, i), plan[i].between), plan[i].answered)
  {
    ClosesIffConfirmed(s, w, plan);
    forall i | 0 <= i < |plan|
      ensures Inv(BeforeRemoval(s, w, plan, i)) && BeforeRemoval(s, w, plan, i).capture.Some?
    {
      TableStays(s, w, plan, i);
    }
  }

  /** A session armed where the record is not the submap it knows, with nobody else acting: its
      removal restores the record, which its own check then refuses. It closes iff an attempt is
      heard, restores the record, and the record passes for what the session knows. */
  lemma ArmedElsewhereClosesIff(s: Session, w: World, plan: seq<Attempt>, name: string)
    requires Inv(w) && w.capture.Some? && s.policy.Suppress? && RestoreTarget(s.saved).Some?
    requires Remembers(w, s.token, name) && forall a :: a in plan ==> a.before == [] && a.between == [] && a.answered
    ensures TryClose(s, w, plan).ok <==>
            && Matches(Trim(CleanupTarget(name)), RestoreTarget(s.saved).value)
            && exists i :: 0 <= i < |plan| && plan[i].delivery.Heard?
                           && BringsBack(BeforeRemoval(s, w, plan, i), s.token, plan[i].read, plan[i].restore)
  {
    assert CalmAttempts(plan, s.token) && ForeignAttempts(plan, s.token);
    ClosesExactlyWhen(s, w, plan);
    forall i | 0 <= i < |plan| && BringsBack(BeforeRemoval(s, w, plan, i), s.token, plan[i].read, plan[i].restore)
      ensures VerifyRestored(s, Run(AfterRemoval(s, w, plan, i), plan[i].between), plan[i].answered)
              <==> Matches(Trim(CleanupTarget(name)), RestoreTarget(s.saved).value)
    {
      assert plan[i] in plan;
      RemembersBeforeRemoval(s, w, plan, i, name);
      RestoredPasses(s, BeforeRemoval(s, w, plan, i), plan[i], name);
    }
  }

  lemma RestoredPasses(s: Session, b: World, a: Attempt, name: string)
    requires Inv(b) && s.policy.Suppress? && RestoreTarget(s.saved).Some? && Remembers(b, s.token, name)
    requires BringsBack(b, s.token, a.read, a.restore)
    ensures VerifyRestored(s, Next(b, Removal(s, a)), true)
            <==> Matches(Trim(CleanupTarget(name)), RestoreTarget(s.saved).value)
  {
    var after := a.restore.after;
    assert Next(b, Removal(s, a)).submap == after && Matches(after, CleanupTarget(name));
    TrimOfTight("");
    TrimOfTight("default");
    TrimOfTight("reset");
    hide Trim;
    assert CleanupTarget(name) != "default";
  }

  lemma LostIsFinal(s: Session, w: World, plan: seq<Attempt>)
    requires Inv(w) && w.capture.Some? && s.policy.Suppress? && CalmAttempts(plan, s.token)
    requires Owner(w) != Some(s.token)
    ensures !TryClose(s, w, plan).ok
  {
    ClosesExactlyWhen(s, w, plan);
    forall i | 0 <= i < |plan|
      ensures Owner(BeforeRemoval(s, w, plan, i)) != Some(s.token)
    {
      TableStays(s, w, plan, i);
    }
  }

  /** The owner's removal takes effect in attempt `a`, but is not heard of or not verified. */
  predicate TakenInVain(s: Session, w: World, a: Attempt) {
    && Owner(Run(w, a.before)) == Some(s.token) && !a.delivery.Lost?
    && Apply(Run(w, a.before), Removal(s, a)).1.Ran? && !Try(s, w, a).2
  }

  /** A removal that took effect unheard, or whose check failed, cannot be made up for: the
      session no longer owns anything, and every later attempt is refused. */
  lemma TakenRemovalIsFinal(s: Session, w: World, a: Attempt, rest: seq<Attempt>)
    requires Inv(w) && w.capture.Some? && s.policy.Suppress? && CalmAttempts([a] + rest, s.token)
    requires TakenInVain(s, w, a)
    ensures !TryClose(s, w, [a] + rest).ok
  {
    hide Try, Apply;
    assert a in [a] + rest && forall b :: b in rest ==> b in [a] + rest;
    assert ([a] + rest)[1..] == rest;
    TakenOnce(s, w, a);
    LostIsFinal(s, Try(s, w, a).0, rest);
  }

  /** Any owner's removal that restores the record can be lost like this: the script runs, and
      `hyprctl` fails after it. */
  lemma AnyRemovalCanBeTaken(s: Session, w: World, d: Dispatch, answered: bool)
    requires Inv(w) && s.policy.Suppress? && Owner(w) == Some(s.token) && BringsBack(w, s.token, true, d)
    ensures TakenInVain(s, w, Attempt([], true, d, Unheard, [], answered))
  {
  }

  lemma TakenOnce(s: Session, w: World, a: Attempt)
    requires Inv(w) && w.capture.Some? && s.policy.Suppress? && Calm(a.before, s.token) && Calm(a.between, s.token)
    requires TakenInVain(s, w, a)
    ensures Inv(Try(s, w, a).0) && Try(s, w, a).0.capture.Some? && Owner(Try(s, w, a).0) != Some(s.token)
  {
    TableStaysOnce(s, w, a);
    var ready := Run(w, a.before);
    LostStaysLost(w, a.before, s.token);
    OwnScript(ready, Removal(s, a), s.token);
    var removed := Eval(ready, Removal(s, a), a.delivery).0;
    assert Owner(removed) != Some(s.token) && removed.capture.Some?;
    LostStaysLost(removed, a.between, s.token);
  }

  /** A failed query reads as the default submap, so it verifies such a session whatever is
      active. `ClosedMeansRestored` holds all the same: the script has checked before. */
  lemma FailedQueryVerifiesDefault(s: Session, w: World)
    requires RestoreTarget(s.saved).Some?
    ensures VerifyRestored(s, w, false) <==> RestoreTarget(s.saved).value == "reset"
  {
  }
}
