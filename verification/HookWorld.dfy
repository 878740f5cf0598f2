/** The Lua scripts of the Hyprland capture hook as atomic steps on the compositor's state.

    Each script runs to completion inside the compositor, so one step is one script. What a
    script cannot control (whether `hl.dispatch`, `hl.timer`, `hl.on` raise, where a submap
    dispatch leaves the compositor) is an argument of the step. */
module HookWorld {
  import opened Wrappers

  const LEASE_MS: nat := 5000
  const PRIVATE: string := "__whykey_capture"

  type Token = string

  datatype Policy = PassThrough | Suppress

  /** A one-shot timer handle: whether it runs, and when it fires if it does. */
  datatype Timer = Timer(enabled: bool, due: nat)

  /** Who registered a key listener with the compositor. */
  datatype Hook = Hook(policy: Policy, token: Token)

  /** `_G.__whykey_capture`: the table all suppressing sessions share. */
  datatype Capture = Capture(
    owner: Option<Token>,
    previous: Option<string>,
    timer: Option<Timer>,
    onTimeout: Option<Token>,
    listener: Option<nat>,
    catchall: Option<bool>)

  /** One pass-through hook in `_G.__whykey_subs`. Tables have identity: `id` is it. */
  datatype Entry = Entry(id: nat, listener: Option<nat>, timer: Option<Timer>)

  datatype World = World(
    capture: Option<Capture>,
    subs: Option<map<Token, Entry>>,
    listeners: map<nat, Hook>,
    nextId: nat,
    submap: string,
    now: nat)

  const EMPTY_CAPTURE := Capture(None, None, None, None, None, None)

  /** A compositor no hook has touched. */
  function Fresh(submap: string, now: nat): World {
    World(None, None, map[], 0, submap, now)
  }

  datatype ScriptError =
    | Busy | Unreadable | InstallFailed | ArmedFailed
    | NotOwner | RestoreFailed | RecoveryFailed | UnknownOriginal | NotLeased

  datatype Reply = Ran | Raised(error: ScriptError)

  /** The outcome of one submap dispatch: whether the compositor accepted it, whether the
      submap could be read back, and the submap it left active. */
  datatype Dispatch = Dispatch(accepted: bool, readable: bool, after: string)

  /** What each call inside an install script does. */
  datatype Faults = Faults(
    previousRead: bool,
    timerMade: bool,
    catchallMade: bool,
    listenerMade: bool,
    activation: Dispatch,
    armedSent: bool,
    rollback: Dispatch)

  // ---- submap names ------------------------------------------------------------

  predicate IsDefault(name: string) {
    name == "" || name == "default" || name == "reset"
  }

  /** Whether `current` is what a dispatch to `target` should have produced. */
  predicate Matches(current: string, target: string) {
    if target == "reset" || target == "default" then IsDefault(current) else current == target
  }

  /** The target that brings a recorded submap back. */
  function TargetOf(previous: string): string {
    if previous == "" || previous == "default" then "reset" else previous
  }

  /** The cleanup script never restores the private submap. */
  function CleanupTarget(previous: string): string {
    if TargetOf(previous) == PRIVATE then "reset" else TargetOf(previous)
  }

  /** The session's recorded submap as the cleanup script sees it. */
  predicate KnownOriginal(saved: string) {
    saved != "" && saved != PRIVATE
  }

  function DefaultTarget(saved: string): string {
    if !KnownOriginal(saved) || saved == "default" then "reset" else saved
  }

  predicate Restored(d: Dispatch, target: string) {
    d.accepted && d.readable && Matches(d.after, target)
  }

  // ---- reading the state ---------------------------------------------------------

  function Owner(w: World): Option<Token> {
    if w.capture.Some? then w.capture.value.owner else None
  }

  function Subs(w: World): map<Token, Entry> {
    if w.subs.Some? then w.subs.value else map[]
  }

  predicate LeaseRuns(w: World) {
    w.capture.Some? && w.capture.value.timer.Some? && w.capture.value.timer.value.enabled
  }

  function LeaseDue(w: World): nat
    requires LeaseRuns(w)
  {
    w.capture.value.timer.value.due
  }

  function StartedAt(now: nat): Timer {
    Timer(true, now + LEASE_MS)
  }

  // ---- suppressing sessions --------------------------------------------------------

  /** Timer off, listener removed, catchall off: what every release starts with. */
  function Quieted(w: World): World
    requires w.capture.Some?
  {
    var c := w.capture.value;
    w.(capture := Some(c.(timer := if c.timer.Some? then Some(c.timer.value.(enabled := false)) else None,
                          listener := None,
                          catchall := if c.catchall.Some? then Some(false) else None)),
       listeners := if c.listener.Some? then w.listeners - {c.listener.value} else w.listeners)
  }

  /** The install script's own `do_cleanup(expected)`: a rollback, or the lease running out.
      A failed restore keeps the owner and starts the lease again. */
  function DoCleanup(w: World, expected: Token, d: Dispatch): World {
    if Owner(w) != Some(expected) then w
    else
      var q := Quieted(w);
      var c := q.capture.value;
      if c.previous.None? then q.(capture := Some(c.(owner := None)))
      else if Restored(d, TargetOf(c.previous.value)) then
        q.(capture := Some(c.(owner := None, previous := None)), submap := d.after)
      else
        q.(capture := Some(c.(timer := if c.timer.Some? then Some(StartedAt(w.now)) else None)),
           submap := d.after)
  }

  /** How far the protected part of the install script gets. */
  function HooksMade(c: Capture, f: Faults): nat
    ensures HooksMade(c, f) <= 3
  {
    if c.timer.None? && !f.timerMade then 0
    else if c.catchall.None? && !f.catchallMade then 1
    else if !f.listenerMade then 2
    else 3
  }

  predicate Activated(f: Faults) {
    f.activation.accepted && f.activation.readable && f.activation.after == PRIVATE && f.armedSent
  }

  /** The table after `stage` of timer, catchall and listener were set up for `token`. */
  function Claimed(w: World, token: Token, stage: nat): World
    requires stage <= 3
  {
    var c := if w.capture.Some? then w.capture.value else EMPTY_CAPTURE;
    w.(capture := Some(Capture(
           Some(token),
           Some(w.submap),
           if stage >= 1 then Some(StartedAt(w.now)) else c.timer,
           Some(token),
           if stage >= 3 then Some(w.nextId) else c.listener,
           if stage >= 2 then Some(true) else c.catchall)),
       listeners := if stage >= 3 then w.listeners[w.nextId := Hook(Suppress, token)] else w.listeners,
       nextId := if stage >= 3 then w.nextId + 1 else w.nextId)
  }

  function InstallSuppress(w: World, token: Token, f: Faults): (World, Reply) {
    var c := if w.capture.Some? then w.capture.value else EMPTY_CAPTURE;
    var table := w.(capture := Some(c));
    if c.owner.Some? then (table, Raised(Busy))
    else if !f.previousRead then (table, Raised(Unreadable))
    else
      var stage := HooksMade(c, f);
      var hooked := Claimed(w, token, stage);
      if stage < 3 then (DoCleanup(hooked, token, f.rollback), Raised(InstallFailed))
      else
        var active := hooked.(submap := f.activation.after);
        if Activated(f) then (active, Ran)
        else (DoCleanup(active, token, f.rollback), Raised(InstallFailed))
  }

  /** A session's cleanup script, once it has read the active submap at its head. A failed
      restore raises with the lease still off. */
  function CleanupSuppress(w: World, token: Token, saved: string, d: Dispatch): (World, Reply) {
    if Owner(w) == Some(token) then
      var q := Quieted(w);
      var c := q.capture.value;
      if c.previous.Some? then
        if Restored(d, CleanupTarget(c.previous.value)) then
          (q.(capture := Some(c.(owner := None, previous := None)), submap := d.after), Ran)
        else (q.(submap := d.after), Raised(RestoreFailed))
      else if w.submap == PRIVATE then
        if Restored(d, DefaultTarget(saved)) then
          (q.(capture := Some(c.(owner := None)), submap := d.after), Ran)
        else (q.(submap := d.after), Raised(RestoreFailed))
      else (q.(capture := Some(c.(owner := None))), Ran)
    else if w.capture.None? && w.submap == PRIVATE then
      if !KnownOriginal(saved) then (w, Raised(UnknownOriginal))
      else (w.(submap := d.after),
            if Restored(d, DefaultTarget(saved)) then Ran else Raised(RecoveryFailed))
    else (w, Raised(NotOwner))
  }

  function RenewSuppress(w: World, token: Token): (World, Reply) {
    if Owner(w) != Some(token) then (w, Raised(NotLeased))
    else
      var c := w.capture.value;
      (w.(capture := Some(c.(timer := if c.timer.Some? then Some(StartedAt(w.now)) else None))), Ran)
  }

  /** The shared lease timer fires: it is one-shot, and calls whatever closure is installed. */
  function LeaseFires(w: World, d: Dispatch): World {
    if w.capture.None? || w.capture.value.timer.None? then w
    else
      var c := w.capture.value;
      var fired := w.(capture := Some(c.(timer := Some(c.timer.value.(enabled := false)))));
      if c.onTimeout.None? then fired else DoCleanup(fired, c.onTimeout.value, d)
  }

  // ---- pass-through sessions ---------------------------------------------------------

  /** Drop `token`'s entry and its listener. */
  function WithoutEntry(w: World, token: Token): World {
    if w.subs.None? || token !in w.subs.value then w
    else
      var entry := w.subs.value[token];
      w.(subs := Some(w.subs.value - {token}),
         listeners := if entry.listener.Some? then w.listeners - {entry.listener.value} else w.listeners)
  }

  function InstallPassThrough(w: World, token: Token, f: Faults): (World, Reply) {
    var cleared := WithoutEntry(w.(subs := Some(Subs(w))), token);
    if !f.listenerMade then (cleared, Raised(InstallFailed))
    else if !f.timerMade then (cleared.(nextId := w.nextId + 1), Raised(InstallFailed))
    else
      var entry := Entry(w.nextId, Some(w.nextId), Some(StartedAt(w.now)));
      (cleared.(subs := Some(cleared.subs.value[token := entry]),
                listeners := cleared.listeners[w.nextId := Hook(PassThrough, token)],
                nextId := w.nextId + 1),
       if f.armedSent then Ran else Raised(ArmedFailed))
  }

  function CleanupPassThrough(w: World, token: Token): World {
    WithoutEntry(w, token)
  }

  function RenewPassThrough(w: World, token: Token): (World, Reply) {
    if token !in Subs(w) || Subs(w)[token].listener.None? || Subs(w)[token].timer.None? then (w, Raised(NotLeased))
    else
      var entry := Subs(w)[token];
      (w.(subs := Some(w.subs.value[token := entry.(timer := Some(StartedAt(w.now)))])), Ran)
  }

  /** The lease timer made for entry `id` of `token` fires. */
  function EntryFires(w: World, token: Token, id: nat): World {
    if token in Subs(w) && Subs(w)[token].id == id then WithoutEntry(w, token) else w
  }

  // ---- steps and runs ----------------------------------------------------------------

  /** Everything that can happen to the compositor, by any session, in one atomic step. */
  datatype Act =
    | Install(token: Token, policy: Policy, faults: Faults)
    | Cleanup(token: Token, policy: Policy, saved: string, read: bool, restore: Dispatch)
    | Renew(token: Token, policy: Policy)
    | LeaseTimer(restore: Dispatch)
    | EntryTimer(token: Token, id: nat)
    | Reload(after: string)
    | UserSubmap(name: string)
    | Tick(ms: nat)

  function Apply(w: World, a: Act): (World, Reply) {
    match a
    case Install(t, PassThrough, f) => InstallPassThrough(w, t, f)
    case Install(t, Suppress, f) => InstallSuppress(w, t, f)
    case Cleanup(t, PassThrough, _, _, _) => (CleanupPassThrough(w, t), Ran)
    case Cleanup(t, Suppress, saved, read, d) =>
      if read then CleanupSuppress(w, t, saved, d) else (w, Raised(Unreadable))
    case Renew(t, PassThrough) => RenewPassThrough(w, t)
    case Renew(t, Suppress) => RenewSuppress(w, t)
    case LeaseTimer(d) => (LeaseFires(w, d), Ran)
    case EntryTimer(t, id) => (EntryFires(w, t, id), Ran)
    case Reload(after) => (w.(capture := None, subs := None, listeners := map[], submap := after), Ran)
    case UserSubmap(name) => (w.(submap := name), Ran)
    case Tick(ms) => (w.(now := w.now + ms), Ran)
  }

  function Next(w: World, a: Act): World {
    Apply(w, a).0
  }

  function Run(w: World, acts: seq<Act>): World
    decreases |acts|
  {
    if acts == [] then w else Run(Next(w, acts[0]), acts[1..])
  }

  lemma {:induction false} RunAppend(w: World, before: seq<Act>, after: seq<Act>)
    ensures Run(w, before + after) == Run(Run(w, before), after)
    decreases |before|
  {
    if before == [] {
      assert before + after == after;
    } else {
      assert (before + after)[0] == before[0];
      assert (before + after)[1..] == before[1..] + after;
      RunAppend(Next(w, before[0]), before[1..], after);
    }
  }

  lemma RunSnoc(w: World, acts: seq<Act>, a: Act)
    ensures Run(w, acts + [a]) == Next(Run(w, acts), a)
  {
    RunAppend(w, acts, [a]);
    var end := Run(w, acts);
    assert Run(end, [a]) == Run(Next(end, a), [a][1..]);
  }
}
