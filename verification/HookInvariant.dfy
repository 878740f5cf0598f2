/** What every interleaving of hook scripts, timers, reloads and user actions keeps. */
module HookInvariant {
  import opened Wrappers
  import opened HookWorld

  // ---- the invariant -------------------------------------------------------------

  /** The shared table: an owner has a recorded submap, the closure on the lease timer and,
      if any, the live listener carry its token; without an owner everything is off. */
  ghost predicate CaptureOk(w: World) {
    w.capture.Some? ==>
      var c := w.capture.value;
      && (c.owner.Some? <==> c.previous.Some?)
      && (c.owner.Some? ==> c.onTimeout == c.owner)
      && (c.owner.None? ==>
            c.listener.None? && c.catchall != Some(true) && (c.timer.Some? ==> !c.timer.value.enabled))
      && (c.listener.Some? ==>
            && c.catchall == Some(true) && c.owner.Some?
            && c.listener.value in w.listeners
            && w.listeners[c.listener.value] == Hook(Suppress, c.owner.value))
  }

  /** A pass-through entry is complete, leased, and owns the listener its id names. */
  ghost predicate EntryOk(t: Token, e: Entry, listeners: map<nat, Hook>) {
    && e.listener == Some(e.id) && e.timer.Some? && e.timer.value.enabled
    && e.id in listeners && listeners[e.id] == Hook(PassThrough, t)
  }

  ghost predicate EntriesOk(subs: map<Token, Entry>, listeners: map<nat, Hook>) {
    forall t :: t in subs ==> EntryOk(t, subs[t], listeners)
  }

  /** The table entry that can remove listener `h` is there. */
  ghost predicate Removable(h: nat, hook: Hook, w: World) {
    && h < w.nextId
    && match hook.policy
       case Suppress => w.capture.Some? && w.capture.value.listener == Some(h)
       case PassThrough => hook.token in Subs(w) && Subs(w)[hook.token].id == h
  }

  /** No listener outlives its table entry. */
  ghost predicate NoLeak(w: World) {
    forall h :: h in w.listeners ==> Removable(h, w.listeners[h], w)
  }

  ghost predicate Inv(w: World) {
    CaptureOk(w) && EntriesOk(Subs(w), w.listeners) && NoLeak(w)
  }

  lemma FreshInv(submap: string, now: nat)
    ensures Inv(Fresh(submap, now))
  {
  }

  lemma QuietedInv(w: World)
    requires Inv(w) && w.capture.Some?
    ensures EntriesOk(Subs(w), Quieted(w).listeners) && NoLeak(Quieted(w))
    ensures forall h :: h in Quieted(w).listeners ==> Quieted(w).listeners[h].policy.PassThrough?
  {
  }

  lemma DoCleanupInv(w: World, expected: Token, d: Dispatch)
    requires Inv(w)
    ensures Inv(DoCleanup(w, expected, d))
  {
    if Owner(w) == Some(expected) {
      QuietedInv(w);
    }
  }

  lemma ClaimedInv(w: World, token: Token, stage: nat)
    requires Inv(w) && Owner(w).None? && stage <= 3
    ensures Inv(Claimed(w, token, stage))
  {
  }

  lemma InstallSuppressInv(w: World, token: Token, f: Faults)
    requires Inv(w)
    ensures Inv(InstallSuppress(w, token, f).0)
  {
    var c := if w.capture.Some? then w.capture.value else EMPTY_CAPTURE;
    if c.owner.None? && f.previousRead {
      var hooked := Claimed(w, token, HooksMade(c, f));
      ClaimedInv(w, token, HooksMade(c, f));
      DoCleanupInv(hooked, token, f.rollback);
      var active := hooked.(submap := f.activation.after);
      assert Inv(active);
      DoCleanupInv(active, token, f.rollback);
    }
  }

  lemma CleanupSuppressInv(w: World, token: Token, saved: string, d: Dispatch)
    requires Inv(w)
    ensures Inv(CleanupSuppress(w, token, saved, d).0)
  {
    if Owner(w) == Some(token) {
      QuietedInv(w);
    }
  }

  lemma LeaseFiresInv(w: World, d: Dispatch)
    requires Inv(w)
    ensures Inv(LeaseFires(w, d))
  {
    if w.capture.Some? && w.capture.value.timer.Some? {
      var c := w.capture.value;
      var fired := w.(capture := Some(c.(timer := Some(c.timer.value.(enabled := false)))));
      assert Inv(fired);
      if c.onTimeout.Some? {
        DoCleanupInv(fired, c.onTimeout.value, d);
      }
    }
  }

  lemma WithoutEntryInv(w: World, token: Token)
    requires Inv(w)
    ensures Inv(WithoutEntry(w, token))
    ensures token !in Subs(WithoutEntry(w, token))
  {
  }

  lemma InstallPassThroughInv(w: World, token: Token, f: Faults)
    requires Inv(w)
    ensures Inv(InstallPassThrough(w, token, f).0)
  {
    var started := w.(subs := Some(Subs(w)));
    assert Inv(started);
    WithoutEntryInv(started, token);
  }

  /** One step of anybody keeps the invariant. */
  lemma NextInv(w: World, a: Act)
    requires Inv(w)
    ensures Inv(Next(w, a))
  {
    match a {
      case Install(t, PassThrough, f) => InstallPassThroughInv(w, t, f);
      case Install(t, Suppress, f) => InstallSuppressInv(w, t, f);
      case Cleanup(t, PassThrough, _, _, _) => WithoutEntryInv(w, t);
      case Cleanup(t, Suppress, saved, _, d) => CleanupSuppressInv(w, t, saved, d);
      case EntryTimer(t, _) => WithoutEntryInv(w, t);
      case LeaseTimer(d) => LeaseFiresInv(w, d);
      case _ =>
    }
  }

  /** Every run, of any length and interleaving, from any state that satisfies it. */
  lemma {:induction false} RunInv(w: World, acts: seq<Act>)
    requires Inv(w)
    ensures Inv(Run(w, acts))
    decreases |acts|
  {
    if acts != [] {
      NextInv(w, acts[0]);
      RunInv(Next(w, acts[0]), acts[1..]);
    }
  }

  /** The same, from the compositor as it starts: the global statement. */
  lemma ReachableInv(submap: string, now: nat, acts: seq<Act>)
    ensures Inv(Run(Fresh(submap, now), acts))
  {
    FreshInv(submap, now);
    RunInv(Fresh(submap, now), acts);
  }
}
