/** One capture session of the client: arming, closing, dropping. Between any two of its
    scripts and queries anybody else may act on the compositor; those acts are part of the
    plan a call runs under, together with everything that can fail. */
module SessionSpec {
  import opened Wrappers
  import opened Text
  import opened HookWorld
  import FeedSpec

  const MAX_ATTEMPTS: nat := 3

  datatype CaptureState = Connected | Installing | Armed | RestorePending | Closed

  /** The session: how it is known to the compositor, its state, and what it has read. */
  datatype Session = Session(token: Token, policy: Policy, saved: string, state: CaptureState, feed: FeedSpec.Feed)

  /** What `hyprctl eval` makes of a script: never runs it, runs it but reports an error, or
      reports what the script did. */
  datatype Delivery = Lost | Unheard | Heard

  datatype Attempt = Attempt(
    before: seq<Act>, read: bool, restore: Dispatch, delivery: Delivery, between: seq<Act>, answered: bool)

  /** A teardown makes three attempts and no more. */
  type Attempts = plan: seq<Attempt> | |plan| == MAX_ATTEMPTS
    witness seq(MAX_ATTEMPTS, _ => Attempt([], true, Dispatch(true, true, ""), Lost, [], true))

  /** What arming runs under; `texts` is what each read of the socket brings until the time for
      the armed event is up or a read fails. */
  datatype ArmPlan = ArmPlan(
    before: seq<Act>, faults: Faults, delivery: Delivery,
    between: seq<Act>, answered: bool,
    waiting: seq<Act>, texts: seq<string>,
    close: Attempts)

  datatype Event = InstallEval(ok: bool) | RemoveEval(ok: bool)

  datatype Outcome = Outcome(session: Session, world: World, events: seq<Event>, ok: bool)

  // ---- the compositor as the client reaches it ------------------------------------------

  function Eval(w: World, a: Act, d: Delivery): (World, bool) {
    match d
    case Lost => (w, false)
    case Unheard => (Next(w, a), false)
    case Heard => (Next(w, a), Apply(w, a).1.Ran?)
  }

  /** `raw_current_submap`: a query that fails reads as the empty name. */
  function CurrentSubmap(w: World, answered: bool): string {
    if answered then Trim(w.submap) else ""
  }

  /** `query_active_submap`, which decides whether a session can connect at all. */
  function QueryActiveSubmap(w: World, json: bool, plain: bool): Option<string> {
    if json && Trim(w.submap) != "" && w.submap != PRIVATE then Some(w.submap)
    else if plain && Trim(w.submap) != "" && Trim(w.submap) != PRIVATE then Some(Trim(w.submap))
    else None
  }

  /** `connect`, with the answer to its first device query. */
  function Connect(w: World, token: Token, json: bool, plain: bool, devices: FeedSpec.Refresh): Option<Session> {
    var saved := QueryActiveSubmap(w, json, plain);
    if saved.None? then None
    else
      Some(Session(token, Suppress, saved.value, Connected, FeedSpec.Refreshed(FeedSpec.EMPTY_FEED, devices)))
  }

  /** `restore_target`: no target when the original was never known. */
  function RestoreTarget(saved: string): Option<string> {
    if Trim(saved) == "" || Trim(saved) == PRIVATE then None
    else if saved == "default" then Some("reset")
    else Some(saved)
  }

  predicate VerifyRestored(s: Session, w: World, answered: bool) {
    RestoreTarget(s.saved).Some? && Matches(CurrentSubmap(w, answered), RestoreTarget(s.saved).value)
  }

  // ---- closing ---------------------------------------------------------------------------

  function Removal(s: Session, a: Attempt): Act {
    Cleanup(s.token, s.policy, s.saved, a.read, a.restore)
  }

  function Logged(e: Event, o: Outcome): Outcome {
    o.(events := [e] + o.events)
  }

  /** One attempt: where it leaves the compositor, whether the removal was reported to have
      worked, and whether the session may close. */
  function Try(s: Session, w: World, a: Attempt): (World, bool, bool) {
    var (removed, ok) := Eval(Run(w, a.before), Removal(s, a), a.delivery);
    if !ok then (removed, false, false)
    else if s.policy.PassThrough? then (removed, true, true)
    else
      var seen := Run(removed, a.between);
      (seen, true, VerifyRestored(s, seen, a.answered))
  }

  /** The attempts of one teardown, in order, until one is confirmed. */
  function TryClose(s: Session, w: World, plan: seq<Attempt>): Outcome
    decreases |plan|
  {
    if plan == [] then Outcome(s, w, [], false)
    else
      var (after, removed, confirmed) := Try(s, w, plan[0]);
      if confirmed then Outcome(s.(state := Closed), after, [RemoveEval(true)], true)
      else Logged(RemoveEval(removed), TryClose(s, after, plan[1..]))
  }

  lemma TryCloseStep(s: Session, w: World, plan: seq<Attempt>)
    ensures TryClose(s, w, plan) ==
            if plan == [] then Outcome(s, w, [], false)
            else
              var (after, removed, confirmed) := Try(s, w, plan[0]);
              if confirmed then Outcome(s.(state := Closed), after, [RemoveEval(true)], true)
              else
                var rest := TryClose(s, after, plan[1..]);
                rest.(events := [RemoveEval(removed)] + rest.events)
  {
    hide Try;
  }

  function CleanupBounded(s: Session, w: World, plan: Attempts): Outcome {
    if s.state.Closed? || s.state.Connected? then Outcome(s.(state := Closed), w, [], true)
    else
      var pending := s.(state := RestorePending);
      if s.policy.Suppress? && RestoreTarget(s.saved).None? then Outcome(pending, w, [], false)
      else TryClose(pending, w, plan)
  }

  /** `Drop`: one attempt, whatever is known about the original. */
  function DropSession(s: Session, w: World, a: Attempt): Outcome {
    if s.state.Closed? || s.state.Connected? then Outcome(s, w, [], true)
    else TryClose(s.(state := RestorePending), w, [a])
  }

  // ---- arming ------------------------------------------------------------------------------

  /** A failed arm tears down and fails, however the teardown went. */
  function FailArm(s: Session, w: World, plan: ArmPlan, installed: bool): Outcome {
    Logged(InstallEval(installed), CleanupBounded(s, w, plan.close).(ok := false))
  }

  /** What an attempt to hook has led to: the compositor, the session's reading, whether the
      install was reported to have worked, and whether the hook is armed. */
  datatype Hooked = Hooked(world: World, feed: FeedSpec.Feed, installed: bool, armed: bool)

  /** Install, confirm the private submap, wait for the armed event. */
  function Hooking(s: Session, w: World, plan: ArmPlan): Hooked {
    var (hooked, ok) := Eval(Run(w, plan.before), Install(s.token, s.policy, plan.faults), plan.delivery);
    if !ok then Hooked(hooked, s.feed, false, false) else Confirming(s, hooked, plan)
  }

  /** After the install: is the private submap observed, is the own armed event read? */
  function Confirming(s: Session, hooked: World, plan: ArmPlan): Hooked {
    var seen := Run(hooked, plan.between);
    if s.policy.Suppress? && CurrentSubmap(seen, plan.answered) != PRIVATE then Hooked(seen, s.feed, true, false)
    else
      var (feed, armed) := FeedSpec.AwaitArmed(s.feed, s.token, plan.texts);
      Hooked(Run(seen, plan.waiting), feed, true, armed)
  }

  function ArmSession(s: Session, w: World, policy: Policy, plan: ArmPlan): Outcome {
    if !s.state.Connected? && !s.state.Closed? then Outcome(s, w, [], false)
    else
      var hooked := Hooking(s.(policy := policy, state := Installing), w, plan);
      var after := s.(policy := policy, state := Installing, feed := hooked.feed);
      if hooked.armed then Outcome(after.(state := Armed), hooked.world, [InstallEval(true)], true)
      else FailArm(after, hooked.world, plan, hooked.installed)
  }

  // ---- call sequences --------------------------------------------------------------------------

  datatype Call =
    | ArmCall(policy: Policy, plan: ArmPlan)
    | CloseCall(attempts: Attempts)
    | DropCall(attempt: Attempt)
    | RenewCall(delivery: Delivery)
    | ReadCall(micros: seq<FeedSpec.Micro>)
    | Others(acts: seq<Act>)

  function Do(s: Session, w: World, c: Call): Outcome {
    match c
    case ArmCall(policy, plan) => ArmSession(s, w, policy, plan)
    case CloseCall(attempts) => CleanupBounded(s, w, attempts)
    case DropCall(a) => DropSession(s, w, a)
    case RenewCall(d) =>
      var (renewed, ok) := Eval(w, Renew(s.token, s.policy), d);
      Outcome(s, renewed, [], ok)
    case ReadCall(micros) => Outcome(s.(feed := FeedSpec.Steps(s.feed, s.token, micros)), w, [], true)
    case Others(acts) => Outcome(s, Run(w, acts), [], true)
  }

  function DoAll(s: Session, w: World, calls: seq<Call>): Outcome
    decreases |calls|
  {
    if calls == [] then Outcome(s, w, [], true)
    else
      var first := Do(s, w, calls[0]);
      var rest := DoAll(first.session, first.world, calls[1..]);
      rest.(events := first.events + rest.events)
  }
}
