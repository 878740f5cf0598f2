/** Closing, attempt by attempt, and a whole session to which nothing happens. */
module SessionClose {
  import opened Wrappers
  import opened Text
  import opened HookWorld
  import opened HookInvariant
  import opened HookSafety
  import opened HookLease
  import opened HookEffects
  import opened SessionSpec
  import opened SessionLife
  import opened SessionRestore
  import SocketLine
  import FeedSpec
  import VirtualKeyboards

  // ---- the three attempts -----------------------------------------------------------------------

  function Pending(s: Session): Session {
    s.(state := RestorePending)
  }

  /** There is something to tear down, and it may be tried. */
  predicate MayClose(s: Session) {
    !s.state.Connected? && !s.state.Closed? && (s.policy.PassThrough? || RestoreTarget(s.saved).Some?)
  }

  /** Attempts are made in order until one is confirmed, and every one of them is logged. */
  lemma {:induction false} AttemptsMade(s: Session, w: World, plan: seq<Attempt>)
    ensures var o := TryClose(s, w, plan);
            && |o.events| <= |plan|
            && (forall i | 0 <= i < |o.events| - 1 :: !Confirmed(s, BeforeRemoval(s, w, plan, i), plan[i]))
            && (o.ok ==> o.events != [] && Confirmed(s, BeforeRemoval(s, w, plan, |o.events| - 1), plan[|o.events| - 1]))
            && (!o.ok ==> |o.events| == |plan|
                          && forall i | 0 <= i < |plan| :: !Confirmed(s, BeforeRemoval(s, w, plan, i), plan[i]))
    decreases |plan|
  {
    hide Try, Confirmed;
    if plan != [] {
      TryIsConfirmed(s, w, plan[0]);
      var (after, _, confirmed) := Try(s, w, plan[0]);
      var rest := plan[1..];
      AttemptsMade(s, after, rest);
      assert forall i | 0 < i < |plan| ::
          BeforeRemoval(s, w, plan, i) == BeforeRemoval(s, after, rest, i - 1) && plan[i] == rest[i - 1];
    }
  }

  /** A close makes three attempts, or as many as it takes until one is confirmed: reported to have
      run through, and under suppression verified. It succeeds iff one of the three is. */
  lemma CloseMakesItsAttempts(s: Session, w: World, plan: Attempts)
    requires MayClose(s)
    ensures var o := CleanupBounded(s, w, plan);
            && (o.ok <==> exists i | 0 <= i < 3 :: Confirmed(Pending(s), BeforeRemoval(Pending(s), w, plan, i), plan[i]))
            && (o.ok <==> o.session.state.Closed?)
            && (!o.ok ==> |o.events| == 3 && o.session.state.RestorePending?)
            && (o.ok ==>
                  var last := |o.events| - 1;
                  && 0 <= last < 3 && Confirmed(Pending(s), BeforeRemoval(Pending(s), w, plan, last), plan[last])
                  && forall i | 0 <= i < last :: !Confirmed(Pending(s), BeforeRemoval(Pending(s), w, plan, i), plan[i]))
  {
    hide Confirmed, BeforeRemoval, TryClose;
    AttemptsMade(Pending(s), w, plan);
    TryCloseState(Pending(s), w, plan);
    StateAfterTries(Pending(s), w, plan);
  }

  lemma {:induction false} StateAfterTries(s: Session, w: World, plan: seq<Attempt>)
    ensures !TryClose(s, w, plan).ok ==> TryClose(s, w, plan).session == s
    decreases |plan|
  {
    hide Try;
    if plan != [] {
      StateAfterTries(s, Try(s, w, plan[0]).0, plan[1..]);
    }
  }

  /** The destructor makes the first of them, and does nothing if there is nothing to tear down. */
  lemma DropMakesOneAttempt(s: Session, w: World, a: Attempt)
    ensures var o := DropSession(s, w, a);
            if s.state.Connected? || s.state.Closed? then o == Outcome(s, w, [], true)
            else
              && |o.events| == 1
              && (o.ok <==> Confirmed(Pending(s), Run(w, a.before), a)) && (o.ok <==> o.session.state.Closed?)
  {
    hide Confirmed, TryClose;
    AttemptsMade(Pending(s), w, [a]);
    TryCloseState(Pending(s), w, [a]);
    assert BeforeRemoval(Pending(s), w, [a], 0) == Run(w, a.before);
  }

  /** What an attempt to arm has come to when it has failed: the session that tears down, and the
      compositor it does so on. */
  function Failing(s: Session, w: World, policy: Policy, plan: ArmPlan): (Session, World) {
    var installing := s.(policy := policy, state := Installing);
    var hooked := Hooking(installing, w, plan);
    (installing.(feed := hooked.feed), hooked.world)
  }

  /** An arm that fails is followed by a teardown like that of a close: three attempts, or as many as
      it takes until one is confirmed. The session is closed iff one of the three is. */
  lemma FailedArmTearsDown(s: Session, w: World, policy: Policy, plan: ArmPlan)
    requires s.state.Connected? || s.state.Closed?
    requires !ArmSession(s, w, policy, plan).ok && (policy.PassThrough? || RestoreTarget(s.saved).Some?)
    ensures var o := ArmSession(s, w, policy, plan);
            var (failing, left) := Failing(s, w, policy, plan);
            && o.events != [] && o.events[0].InstallEval?
            && (o.session.state.Closed? <==>
                exists i | 0 <= i < 3 ::
                  Confirmed(Pending(failing), BeforeRemoval(Pending(failing), left, plan.close, i), plan.close[i]))
            && (!o.session.state.Closed? ==> |o.events| == 4 && o.session.state.RestorePending?)
            && (o.session.state.Closed? ==>
                  var last := |o.events| - 2;
                  && 0 <= last < 3
                  && Confirmed(Pending(failing), BeforeRemoval(Pending(failing), left, plan.close, last), plan.close[last])
                  && forall i | 0 <= i < last ::
                       !Confirmed(Pending(failing), BeforeRemoval(Pending(failing), left, plan.close, i), plan.close[i]))
  {
    hide Confirmed, BeforeRemoval, CleanupBounded, Hooking, RestoreTarget;
    var (failing, left) := Failing(s, w, policy, plan);
    CloseMakesItsAttempts(failing, left, plan.close);
  }

  /** Without a reload, a suppressing session that may close does so iff in one of its three
      attempts it is still the owner, restores the record, is heard and is verified. */
  lemma CloseExactlyWhen(s: Session, w: World, plan: Attempts)
    requires Inv(w) && w.capture.Some? && s.policy.Suppress? && MayClose(s) && CalmAttempts(plan, s.token)
    ensures CleanupBounded(s, w, plan).ok <==>
            exists i :: 0 <= i < 3 &&
              var b := BeforeRemoval(Pending(s), w, plan, i);
              && plan[i].delivery.Heard? && BringsBack(b, s.token, plan[i].read, plan[i].restore)
              && VerifyRestored(s, Run(AfterRemoval(Pending(s), w, plan, i), plan[i].between), plan[i].answered)
  {
    hide BeforeRemoval, AfterRemoval, TryClose, CalmAttempts, BringsBack;
    ClosesExactlyWhen(Pending(s), w, plan);
    assert forall seen: World, answered: bool ::
        VerifyRestored(s, seen, answered) == VerifyRestored(Pending(s), seen, answered);
  }

  /** A close can succeed, under some course of events, iff the known name has no blanks around it. */
  lemma CloseCanSucceedIff(s: Session)
    requires s.policy.Suppress? && MayClose(s)
    ensures (exists w, plan: Attempts :: Inv(w) && Owner(w) == Some(s.token) && CleanupBounded(s, w, plan).ok)
            <==> Trim(s.saved) == s.saved
  {
    hide TryClose, Inv, Trim;
    forall w, plan: Attempts | CleanupBounded(s, w, plan).ok ensures Trim(s.saved) == s.saved {
      if Trim(s.saved) != s.saved {
        BlankNamesNeverClose(Pending(s), w, plan);
      }
    }
    if Trim(s.saved) == s.saved {
      CanCloseIff(Pending(s));
      var w, a :| Inv(w) && Owner(w) == Some(s.token) && TryClose(Pending(s), w, [a]).ok;
      FirstAttemptCloses(Pending(s), w, a);
      var plan: Attempts := [a, a, a];
      assert CleanupBounded(s, w, plan).ok;
    }
  }

  lemma FirstAttemptCloses(s: Session, w: World, a: Attempt)
    requires TryClose(s, w, [a]).ok
    ensures TryClose(s, w, [a, a, a]).ok
  {
    hide Try;
    assert [a][0] == a && [a, a, a][0] == a && [a][1..] == [];
  }

  // ---- a session to which nothing happens -----------------------------------------------------------

  /** An install in which everything works. */
  function Works(): Faults {
    var done := Dispatch(true, true, PRIVATE);
    Faults(true, true, true, true, done, true, done)
  }

  /** Arming undisturbed; `texts` is what is read. */
  function Smoothly(texts: seq<string>, close: Attempts): ArmPlan {
    ArmPlan([], Works(), Heard, [], true, [], texts, close)
  }

  lemma ArmedLineIsRead(f: FeedSpec.Feed, t: Token)
    requires SocketLine.GoodToken(t) && f.buffer == ""
    ensures exists line :: line in Lines(f.buffer + FeedSpec.Concat([SocketLine.ArmedLine(t) + "\n"]))
                           && SocketLine.Parse(line) == SocketLine.ArmedBy(t)
  {
    var line := SocketLine.ArmedLine(t);
    var text := line + "\n";
    SocketLine.ArmedLineRoundTrip(t);
    SocketLine.ArmedLineIsOneLine(t);
    hide SocketLine.Parse, SocketLine.ArmedLine;
    assert [text][1..] == [];
    assert FeedSpec.Concat([text]) == text + FeedSpec.Concat([]) == text;
    assert f.buffer + FeedSpec.Concat([text]) == line + ['\n'] + "";
    FindAt(line, '\n', "");
    assert (line + ['\n'] + "")[..|line|] == line;
    assert Lines(line + ['\n'] + "")[0] == line;
  }

  /** A session can connect iff one of the two queries gives a name that is neither blank nor the
      private submap's; it takes the first one's as it is, and the second one's without blanks. It
      has read nothing, and knows the keyboards its device query found. */
  lemma ConnectMeans(w: World, t: Token, json: bool, plain: bool, inventory: FeedSpec.Inventory, incoming: string)
    ensures var name := Trim(w.submap);
            var connected := Connect(w, t, json, plain, FeedSpec.Refresh(Some(inventory), incoming));
            && (connected.Some? <==> name != "" && ((json && w.submap != "__whykey_capture")
                                                    || (plain && name != "__whykey_capture")))
            && (connected.Some? ==>
                  var s := connected.value;
                  && s.token == t && s.policy.Suppress? && s.state.Connected?
                  && s.saved == (if json && w.submap != "__whykey_capture" then w.submap else name)
                  && s.feed.buffer == "" && s.feed.held == {} && s.feed.mask == 0 && !s.feed.dirty
                  && s.feed.sources.reference == inventory.reference
                  && (s.feed.sources.source.Some? <==> exists i :: VirtualKeyboards.IsFirstForeign(inventory, i)))
  {
    hide Trim, FeedSpec.Refreshed;
    VirtualKeyboards.QueryFinds(FeedSpec.EMPTY_FEED, inventory, incoming);
    hide VirtualKeyboards.IsFirstForeign, VirtualKeyboards.IsSource;
  }

  lemma NothingReadYet(w: World, t: Token, json: bool, plain: bool, devices: FeedSpec.Refresh)
    requires Connect(w, t, json, plain, devices).Some?
    ensures Connect(w, t, json, plain, devices).value.feed.buffer == ""
  {
  }

  /** The dispatch that brings a submap back. */
  function BackTo(name: string): Dispatch {
    Dispatch(true, true, if name == "default" then "reset" else name)
  }

  function Attempted(name: string, d: Delivery): Attempt {
    Attempt([], true, BackTo(name), d, [], true)
  }

  /** A session that connects to a fresh compositor, arms and reads its armed event, is armed over
      the private submap with the capture in its hands. */
  lemma OrdinaryArm(name: string, now: nat, t: Token, devices: FeedSpec.Refresh, close: Attempts)
    requires SocketLine.GoodToken(t) && name != "" && name != PRIVATE && Trim(name) == name
    ensures var w := Fresh(name, now);
            Connect(w, t, true, true, devices).Some? &&
            var s := Connect(w, t, true, true, devices).value;
            var armed := ArmSession(s, w, Suppress, Smoothly([SocketLine.ArmedLine(t) + "\n"], close));
            && armed.ok && armed.session == s.(policy := Suppress, state := Armed, feed := armed.session.feed)
            && s.saved == name && armed.events == [InstallEval(true)]
            && Inv(armed.world) && Owner(armed.world) == Some(t)
            && armed.world.capture.value.previous == Some(name) && armed.world.submap == "__whykey_capture"
  {
    var w := Fresh(name, now);
    var s := Connect(w, t, true, true, devices).value;
    var plan := Smoothly([SocketLine.ArmedLine(t) + "\n"], close);
    NothingReadYet(w, t, true, true, devices);
    ArmedLineIsRead(s.feed, t);
    FreshInv(name, now);
    hide Trim, ArmSession, InstallSuppress, SocketLine.ArmedLine, SocketLine.Parse;
    SmoothArm(s, w, plan);
  }

  /** It closes at the second attempt if the first is lost, and ends with nobody owning the capture
      and the submap as it was. */
  lemma OrdinarySession(name: string, now: nat, t: Token, devices: FeedSpec.Refresh, close: Attempts)
    requires SocketLine.GoodToken(t) && name != "" && name != PRIVATE && Trim(name) == name
    ensures var w := Fresh(name, now);
            Connect(w, t, true, true, devices).Some? &&
            var s := Connect(w, t, true, true, devices).value;
            var armed := ArmSession(s, w, Suppress, Smoothly([SocketLine.ArmedLine(t) + "\n"], close));
            ClosesAtSecond(armed.session, armed.world, name)
  {
    OrdinaryArm(name, now, t, devices, close);
    hide Trim, ArmSession, Connect, SocketLine.ArmedLine, SocketLine.GoodToken, ClosesAtSecond, Smoothly, Inv;
    var w := Fresh(name, now);
    var s := Connect(w, t, true, true, devices).value;
    var armed := ArmSession(s, w, Suppress, Smoothly([SocketLine.ArmedLine(t) + "\n"], close));
    OrdinaryClose(armed.session, armed.world, name);
  }

  predicate ClosesAtSecond(s: Session, w: World, name: string) {
    var plan := [Attempted(name, Lost), Attempted(name, Heard), Attempted(name, Heard)];
    var closed := CleanupBounded(s, w, plan);
    && closed.ok && closed.session.state.Closed? && closed.events == [RemoveEval(false), RemoveEval(true)]
    && Owner(closed.world).None? && Matches(closed.world.submap, name)
  }

  lemma OrdinaryClose(s: Session, w: World, name: string)
    requires s.state.Armed? && s.policy.Suppress? && s.saved == name
    requires name != "" && name != PRIVATE && Trim(name) == name
    requires Inv(w) && Owner(w) == Some(s.token) && w.capture.value.previous == Some(name)
    ensures ClosesAtSecond(s, w, name)
  {
    hide Trim, TryClose, CleanupBounded, Inv;
    TriedTwice(Pending(s), w, Attempted(name, Lost), Attempted(name, Heard), name);
    CloseIsTry(s, w, [Attempted(name, Lost), Attempted(name, Heard), Attempted(name, Heard)]);
  }

  lemma CloseIsTry(s: Session, w: World, plan: Attempts)
    requires MayClose(s)
    ensures CleanupBounded(s, w, plan) == TryClose(Pending(s), w, plan)
  {
  }

  lemma SmoothArm(s: Session, w: World, plan: ArmPlan)
    requires s.state.Connected? && Inv(w) && Owner(w).None? && plan == Smoothly(plan.texts, plan.close) && plan.texts != []
    requires exists line :: line in Lines(s.feed.buffer + FeedSpec.Concat(plan.texts))
                            && SocketLine.Parse(line) == SocketLine.ArmedBy(s.token)
    ensures var armed := ArmSession(s, w, Suppress, plan);
            && armed.ok && armed.session == s.(policy := Suppress, state := Armed, feed := armed.session.feed)
            && armed.events == [InstallEval(true)]
            && armed.world == InstallSuppress(w, s.token, Works()).0
            && Inv(armed.world) && Owner(armed.world) == Some(s.token)
            && armed.world.capture.value.previous == Some(w.submap) && armed.world.submap == PRIVATE
  {
    hide SocketLine.Parse, FeedSpec.AwaitArmed, Lines, FeedSpec.Concat, Trim;
    InstallRunsIff(w, s.token, Works());
    InstallRanMeans(w, s.token, Works());
    InstallSuppressInv(w, s.token, Works());
    TrimOfTight(PRIVATE);
    hide InstallSuppress;
    assert Trim(PRIVATE) == PRIVATE;
    ArmedMeansConfirmed(s, w, Suppress, plan);
  }

  lemma TriedTwice(s: Session, w: World, lost: Attempt, heard: Attempt, name: string)
    requires s.policy.Suppress? && s.saved == name && name != "" && name != PRIVATE && Trim(name) == name
    requires Inv(w) && Owner(w) == Some(s.token) && w.capture.value.previous == Some(name)
    requires lost == Attempted(name, Lost) && heard == Attempted(name, Heard)
    ensures var o := TryClose(s, w, [lost, heard, heard]);
            && o.ok && o.session == s.(state := Closed) && o.events == [RemoveEval(false), RemoveEval(true)]
            && Owner(o.world).None? && o.world.submap == heard.restore.after
  {
    TrimOfTight("reset");
    hide Trim;
    assert Try(s, w, lost) == (w, false, false);
    OwnersCleanup(w, s.token, name, heard.restore);
    var removed := CleanupSuppress(w, s.token, name, heard.restore).0;
    assert Eval(w, Removal(s, heard), Heard) == (removed, true);
    assert Trim(removed.submap) == removed.submap;
    assert Try(s, w, heard) == (removed, true, true);
    hide Try;
    TryCloseStep(s, w, [lost, heard, heard]);
    TryCloseStep(s, w, [heard, heard]);
    assert [lost, heard, heard][1..] == [heard, heard];
  }
}
