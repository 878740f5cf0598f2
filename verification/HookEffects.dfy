/** When each hook script succeeds, and all it leaves behind, in terms of the tables and the
    compositor alone. */
module HookEffects {
  import opened Wrappers
  import opened HookWorld
  import opened HookInvariant
  import opened HookSafety

  predicate HasCatchall(w: World) {
    w.capture.Some? && w.capture.value.catchall.Some?
  }

  /** Listener `h` of a hook is registered. */
  predicate Listens(w: World, h: Option<nat>, hook: Hook) {
    h.Some? && h.value in w.listeners && w.listeners[h.value] == hook
  }

  /** The shared timer runs and fires in `ms`. */
  predicate FiresIn(w: World, ms: nat) {
    w.capture.Some? && w.capture.value.timer == Some(Timer(true, w.now + ms))
  }

  // ---- suppressing sessions -----------------------------------------------------------------------

  /** A suppressing install succeeds iff nobody owns the capture and everything it calls works:
      the submap is read, a timer and a catchall are there or can be made, the listener is made,
      the private submap is dispatched, read back and active, and the armed event is sent. */
  lemma InstallRunsIff(w: World, t: Token, f: Faults)
    ensures InstallSuppress(w, t, f).1.Ran? <==>
            && Owner(w).None? && f.previousRead
            && (HasTimer(w) || f.timerMade) && (HasCatchall(w) || f.catchallMade) && f.listenerMade
            && f.activation.accepted && f.activation.readable && f.activation.after == "__whykey_capture"
            && f.armedSent
  {
  }

  /** And then the session owns the capture, with everything on and its lease fresh. */
  lemma InstallRanMeans(w: World, t: Token, f: Faults)
    requires InstallSuppress(w, t, f).1.Ran?
    ensures var n := InstallSuppress(w, t, f).0;
            && Owner(n) == Some(t) && n.capture.value.previous == Some(w.submap)
            && Listens(n, n.capture.value.listener, Hook(Suppress, t))
            && n.capture.value.catchall == Some(true) && n.capture.value.onTimeout == Some(t)
            && FiresIn(n, 5000) && n.submap == "__whykey_capture"
            && n.subs == w.subs && n.now == w.now
            && forall h :: h in w.listeners && h != w.nextId ==> h in n.listeners && n.listeners[h] == w.listeners[h]
  {
  }

  /** A refused or unreadable one changes nothing but that the table is there. */
  lemma InstallRefused(w: World, t: Token, f: Faults)
    requires Owner(w).Some? || !f.previousRead
    ensures var (n, reply) := InstallSuppress(w, t, f);
            && reply == Raised(if Owner(w).Some? then Busy else Unreadable)
            && n == w.(capture := n.capture) && (w.capture.Some? ==> n == w) && Owner(n) == Owner(w)
  {
  }

  /** Any other one that fails is rolled back: everything is off, and the claim is given up iff
      the submap the session found is back; else it is kept, and its lease, if there is a timer,
      starts again. */
  lemma InstallFailedMeans(w: World, t: Token, f: Faults)
    requires Inv(w) && Owner(w).None? && f.previousRead && InstallSuppress(w, t, f).1.Raised?
    ensures var n := InstallSuppress(w, t, f).0;
            && InstallSuppress(w, t, f).1 == Raised(InstallFailed)
            && n.capture.Some? && n.capture.value.listener.None? && n.capture.value.catchall != Some(true)
            && n.listeners == w.listeners && n.subs == w.subs && n.submap == f.rollback.after
            && (if f.rollback.accepted && f.rollback.readable
                   && (if w.submap == "" || w.submap == "default" || w.submap == "reset"
                       then f.rollback.after == "" || f.rollback.after == "default" || f.rollback.after == "reset"
                       else f.rollback.after == w.submap)
                then Owner(n).None? && n.capture.value.previous.None? && !LeaseRuns(n)
                else
                  && Owner(n) == Some(t) && n.capture.value.previous == Some(w.submap)
                  && (n.capture.value.timer.Some? ==> FiresIn(n, 5000)))
  {
    ListenersRestored(w, w.nextId, Hook(Suppress, t));
    var c := if w.capture.Some? then w.capture.value else EMPTY_CAPTURE;
    var hooked := Claimed(w, t, HooksMade(c, f));
    ClosureMeans(hooked, t, f.rollback);
    ClosureMeans(hooked.(submap := f.activation.after), t, f.rollback);
    hide DoCleanup;
  }

  lemma ListenersRestored(w: World, h: nat, hook: Hook)
    ensures h !in w.listeners ==> w.listeners[h := hook] - {h} == w.listeners
  {
  }

  /** The cleanup closure in the hands of the owner. */
  lemma ClosureMeans(w: World, t: Token, d: Dispatch)
    requires Owner(w) == Some(t) && w.capture.value.previous.Some?
    ensures var n := DoCleanup(w, t, d);
            var p := w.capture.value.previous.value;
            && n.capture.Some? && n.capture.value.listener.None? && n.capture.value.catchall != Some(true)
            && n.submap == d.after && n.subs == w.subs && n.now == w.now && n.nextId == w.nextId
            && n.listeners == (if w.capture.value.listener.Some? then w.listeners - {w.capture.value.listener.value}
                               else w.listeners)
            && (if d.accepted && d.readable
                   && (if p == "" || p == "default" || p == "reset"
                       then d.after == "" || d.after == "default" || d.after == "reset" else d.after == p)
                then Owner(n).None? && n.capture.value.previous.None? && !LeaseRuns(n)
                else
                  && Owner(n) == Some(t) && n.capture.value.previous == Some(p)
                  && (n.capture.value.timer.Some? <==> w.capture.value.timer.Some?)
                  && (n.capture.value.timer.Some? ==> FiresIn(n, 5000)))
  {
  }

  /** An owner's cleanup succeeds iff the dispatch brings the record back, `reset` for a default or
      the private one. Either way listener, catchall and lease are off. */
  lemma OwnersCleanup(w: World, t: Token, saved: string, d: Dispatch)
    requires Inv(w) && Owner(w) == Some(t)
    ensures var (n, reply) := CleanupSuppress(w, t, saved, d);
            var p := w.capture.value.previous.value;
            && (reply.Ran? <==>
                  d.accepted && d.readable
                  && (if p == "" || p == "default" || p == "reset" || p == "__whykey_capture"
                      then d.after == "" || d.after == "default" || d.after == "reset" else d.after == p))
            && (reply.Raised? ==> reply == Raised(RestoreFailed))
            && Owner(n) == (if reply.Ran? then None else Some(t))
            && n.capture.value.previous == (if reply.Ran? then None else Some(p))
            && n.capture.value.listener.None? && n.capture.value.catchall != Some(true) && !LeaseRuns(n)
            && n.submap == d.after && n.subs == w.subs && n.now == w.now
            && forall h :: h in n.listeners <==> h in w.listeners && Some(h) != w.capture.value.listener
  {
  }

  /** Anybody else's touches only a compositor that lost the tables in the private submap, and
      brings back the submap the session knows. */
  lemma StrangersCleanup(w: World, t: Token, saved: string, d: Dispatch)
    requires Owner(w) != Some(t)
    ensures var (n, reply) := CleanupSuppress(w, t, saved, d);
            if w.capture.Some? || w.submap != "__whykey_capture" then n == w && reply == Raised(NotOwner)
            else if saved == "" || saved == "__whykey_capture" then n == w && reply == Raised(UnknownOriginal)
            else
              && n == w.(submap := d.after)
              && (reply.Ran? <==>
                    d.accepted && d.readable
                    && (if saved == "default" || saved == "reset"
                        then d.after == "" || d.after == "default" || d.after == "reset" else d.after == saved))
              && (reply.Raised? ==> reply == Raised(RecoveryFailed))
  {
  }

  /** The lease running out: the owner is released iff the record is brought back, the private one
      included; else the lease starts again. Listener and catchall are off either way. */
  lemma LeaseExpiry(w: World, t: Token, d: Dispatch)
    requires Inv(w) && Owner(w) == Some(t) && HasTimer(w)
    ensures var n := LeaseFires(w, d);
            var p := w.capture.value.previous.value;
            && n.capture.Some? && n.capture.value.listener.None? && n.capture.value.catchall != Some(true)
            && n.submap == d.after && n.subs == w.subs && n.now == w.now
            && (forall h :: h in n.listeners <==> h in w.listeners && Some(h) != w.capture.value.listener)
            && (if d.accepted && d.readable
                   && (if p == "" || p == "default" || p == "reset"
                       then d.after == "" || d.after == "default" || d.after == "reset" else d.after == p)
                then Owner(n).None? && n.capture.value.previous.None? && !LeaseRuns(n)
                else Owner(n) == Some(t) && n.capture.value.previous == Some(p) && FiresIn(n, 5000))
  {
  }

  /** A lease whose closure is gone, or is not the owner's, only switches itself off. */
  lemma StrangeExpiry(w: World, d: Dispatch)
    requires HasTimer(w) && (w.capture.value.onTimeout.None? || w.capture.value.onTimeout != Owner(w))
    ensures var c := w.capture.value;
            LeaseFires(w, d) == w.(capture := Some(c.(timer := Some(Timer(false, c.timer.value.due)))))
  {
  }

  /** Renewal succeeds for the owner only, and restarts its lease, if there is a timer. */
  lemma RenewalMeans(w: World, t: Token)
    ensures var (n, reply) := RenewSuppress(w, t);
            && (reply.Ran? <==> Owner(w) == Some(t))
            && (reply.Raised? ==> n == w)
            && (reply.Ran? ==> n == w.(capture := n.capture) && n.capture.Some?
                               && n.capture.value == w.capture.value.(timer := n.capture.value.timer)
                               && (HasTimer(w) <==> HasTimer(n)) && (HasTimer(w) ==> FiresIn(n, 5000)))
  {
  }

  // ---- pass-through sessions -------------------------------------------------------------------------

  /** A pass-through install is there iff listener and timer were made, with a fresh lease of its
      own, and succeeds iff the armed event was sent too. */
  lemma PassThroughInstall(w: World, t: Token, f: Faults)
    requires Inv(w)
    ensures var (n, reply) := InstallPassThrough(w, t, f);
            && (reply.Ran? <==> f.listenerMade && f.timerMade && f.armedSent)
            && (t in Subs(n) <==> f.listenerMade && f.timerMade)
            && (t in Subs(n) ==>
                  && Subs(n)[t].timer == Some(Timer(true, w.now + 5000))
                  && Listens(n, Subs(n)[t].listener, Hook(PassThrough, t)))
            && n.submap == w.submap && n.capture == w.capture && n.now == w.now
            && forall h :: h in n.listeners ==>
                 (t in Subs(n) && Subs(n)[t].listener == Some(h)) || (h in w.listeners && n.listeners[h] == w.listeners[h])
  {
  }

  /** A cleanup, an own timer or a new install takes the entry away with its listener. */
  lemma EntryRemoved(w: World, t: Token)
    requires Inv(w)
    ensures var n := CleanupPassThrough(w, t);
            && t !in Subs(n)
            && (forall h :: h in n.listeners <==>
                  h in w.listeners && !(t in Subs(w) && Subs(w)[t].listener == Some(h)))
            && n.submap == w.submap && n.capture == w.capture
    ensures t in Subs(w) ==> EntryFires(w, t, Subs(w)[t].id) == CleanupPassThrough(w, t)
  {
  }

  lemma PassThroughRenewal(w: World, t: Token)
    ensures var (n, reply) := RenewPassThrough(w, t);
            && (reply.Ran? <==> t in Subs(w) && Subs(w)[t].listener.Some? && Subs(w)[t].timer.Some?)
            && (reply.Raised? ==> n == w)
            && (reply.Ran? ==> t in Subs(n) && Subs(n)[t] == Subs(w)[t].(timer := Some(Timer(true, w.now + 5000)))
                               && n == w.(subs := n.subs))
  {
  }
}
