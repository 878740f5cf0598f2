/** The session object of the client, driving the compositor. */
module CaptureSession {
  import opened Wrappers
  import opened Text
  import opened HookWorld
  import opened HookScripts
  import opened SessionSpec
  import FeedSpec
  import SocketFeed

  class HyprlandCaptureSession {
    const hypr: Compositor
    const token: Token
    const saved: string
    const feed: SocketFeed.CaptureFeed
    var policy: Policy
    var state: CaptureState

    /** `connect`, once the active submap is known; `devices` answers its device query. */
    constructor (hypr: Compositor, token: Token, saved: string, devices: FeedSpec.Refresh)
      ensures this.hypr == hypr && Valid() && fresh(feed)
      ensures Value() == Session(token, Suppress, saved, Connected, FeedSpec.Refreshed(FeedSpec.EMPTY_FEED, devices))
    {
      this.hypr, this.token, this.saved := hypr, token, saved;
      policy, state := Suppress, Connected;
      feed := new SocketFeed.CaptureFeed(token);
      new;
      feed.RefreshKeyboardState(devices);
    }

    /** The reader knows the session's token. */
    predicate Valid() {
      feed.token == token
    }

    function Value(): Session
      reads this, feed
    {
      Session(token, policy, saved, state, feed.State())
    }

    twostate predicate TableKept()
      reads this, hypr
    {
      hypr.capture == null || hypr.capture == old(hypr.capture) || fresh(hypr.capture)
    }

    /** One script through `hyprctl eval`. */
    method EvalScript(a: Act, d: Delivery) returns (ok: bool)
      modifies hypr, hypr.capture
      ensures TableKept() && (hypr.State(), ok) == Eval(old(hypr.State()), a, d)
    {
      if d.Lost? {
        return false;
      }
      var reply := hypr.Perform(a);
      return d.Heard? && reply.Ran?;
    }

    method QueryRestored(answered: bool) returns (restored: bool)
      ensures restored == VerifyRestored(Value(), hypr.State(), answered)
    {
      var current := if answered then Trim(hypr.submap) else "";
      var target := RestoreTarget(saved);
      return target.Some? && Matches(current, target.value);
    }

    method AttemptRemoval(a: Attempt) returns (removed: bool, confirmed: bool)
      modifies hypr, hypr.capture
      ensures TableKept()
      ensures (hypr.State(), removed, confirmed) == Try(Value(), old(hypr.State()), a)
      ensures confirmed ==> removed
    {
      hypr.PerformAll(a.before);
      removed := EvalScript(Cleanup(token, policy, saved, a.read, a.restore), a.delivery);
      confirmed := removed && policy.PassThrough?;
      if removed && policy.Suppress? {
        hypr.PerformAll(a.between);
        confirmed := QueryRestored(a.answered);
      }
    }

    /** The bounded teardown loop. */
    method RemoveUntilRestored(plan: seq<Attempt>) returns (events: seq<Event>, ok: bool)
      modifies this`state, hypr, hypr.capture
      ensures TableKept()
      ensures Outcome(Value(), hypr.State(), events, ok)
           == TryClose(old(Value()), old(hypr.State()), plan)
    {
      hide Try, TryClose;
      events, ok := [], false;
      var attempt := 0;
      ghost var whole := TryClose(Value(), hypr.State(), plan);
      while !ok && attempt < |plan|
        invariant 0 <= attempt <= |plan| && TableKept() && Value() == old(Value())
        invariant if ok then whole == Outcome(Value().(state := Closed), hypr.State(), events, true)
                  else
                    var rest := TryClose(Value(), hypr.State(), plan[attempt..]);
                    whole == rest.(events := events + rest.events)
        decreases !ok, |plan| - attempt
      {
        assert plan[attempt..][0] == plan[attempt] && plan[attempt..][1..] == plan[attempt + 1..];
        TryCloseStep(Value(), hypr.State(), plan[attempt..]);
        var removed;
        removed, ok := AttemptRemoval(plan[attempt]);
        events := events + [RemoveEval(removed)];
        attempt := attempt + 1;
      }
      if ok {
        state := Closed;
      } else {
        TryCloseStep(Value(), hypr.State(), plan[attempt..]);
      }
    }

    method Close(plan: Attempts) returns (events: seq<Event>, ok: bool)
      modifies this`state, hypr, hypr.capture
      ensures TableKept()
      ensures Outcome(Value(), hypr.State(), events, ok)
           == CleanupBounded(old(Value()), old(hypr.State()), plan)
    {
      if state == Closed {
        return [], true;
      }
      if state == Connected {
        state := Closed;
        return [], true;
      }
      state := RestorePending;
      if policy == Suppress && RestoreTarget(saved).None? {
        return [], false;
      }
      events, ok := RemoveUntilRestored(plan);
    }

    method FailArming(plan: ArmPlan, installed: bool) returns (events: seq<Event>)
      modifies this`state, hypr, hypr.capture
      ensures TableKept()
      ensures Outcome(Value(), hypr.State(), events, false)
           == FailArm(old(Value()), old(hypr.State()), plan, installed)
    {
      var closing, _ := Close(plan.close);
      events := [InstallEval(installed)] + closing;
    }

    method Hook(plan: ArmPlan) returns (installed: bool, armed: bool)
      requires Valid()
      modifies hypr, hypr.capture, feed
      ensures TableKept()
      ensures Hooked(hypr.State(), feed.State(), installed, armed) == Hooking(old(Value()), old(hypr.State()), plan)
    {
      hide Run, Eval, Confirming;
      hypr.PerformAll(plan.before);
      installed := EvalScript(Install(token, policy, plan.faults), plan.delivery);
      armed := false;
      if installed {
        armed := Confirm(plan);
      }
    }

    /** The postcondition of an install and the wait for the armed event. */
    method Confirm(plan: ArmPlan) returns (armed: bool)
      requires Valid()
      modifies hypr, hypr.capture, feed
      ensures TableKept()
      ensures Hooked(hypr.State(), feed.State(), true, armed) == Confirming(old(Value()), old(hypr.State()), plan)
    {
      hide Run, FeedSpec.AwaitArmed;
      hypr.PerformAll(plan.between);
      var current := if plan.answered then Trim(hypr.submap) else "";
      armed := false;
      if policy != Suppress || current == PRIVATE {
        armed := feed.WaitForArmed(plan.texts);
        hypr.PerformAll(plan.waiting);
      }
    }

    method Arm(newPolicy: Policy, plan: ArmPlan) returns (events: seq<Event>, ok: bool)
      requires Valid()
      modifies this, hypr, hypr.capture, feed
      ensures TableKept()
      ensures Outcome(Value(), hypr.State(), events, ok)
           == ArmSession(old(Value()), old(hypr.State()), newPolicy, plan)
    {
      hide Hooking, FailArm;
      if state != Connected && state != Closed {
        return [], false;
      }
      policy := newPolicy;
      state := Installing;
      var installed, armed := Hook(plan);
      if !armed {
        events := FailArming(plan, installed);
        return events, false;
      }
      state := Armed;
      return [InstallEval(true)], true;
    }

    /** The destructor's single best-effort attempt. */
    method Drop(a: Attempt) returns (events: seq<Event>, ok: bool)
      modifies this`state, hypr, hypr.capture
      ensures TableKept()
      ensures Outcome(Value(), hypr.State(), events, ok)
           == DropSession(old(Value()), old(hypr.State()), a)
    {
      if state == Closed || state == Connected {
        return [], true;
      }
      state := RestorePending;
      events, ok := RemoveUntilRestored([a]);
    }

    method RenewLease(d: Delivery) returns (ok: bool)
      modifies hypr, hypr.capture
      ensures TableKept()
      ensures (hypr.State(), ok) == Eval(old(hypr.State()), Renew(token, policy), d)
    {
      ok := EvalScript(Renew(token, policy), d);
    }
  }
}
