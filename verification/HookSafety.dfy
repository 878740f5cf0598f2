/** What single steps and whole runs of the hook scripts can and cannot do to each other. */
module HookSafety {
  import opened Wrappers
  import opened HookWorld
  import opened HookInvariant

  // ---- an owner's cleanup always knows what to restore ---------------------------------

  /** In every reachable state the record is there, so the script's guess of a target from the
      session's own memory is dead code: `saved` does not influence an owner's cleanup. */
  lemma OwnersCleanupUsesTheRecord(submap: string, now: nat, acts: seq<Act>, t: Token,
                                   saved: string, guess: string, d: Dispatch)
    requires Owner(Run(Fresh(submap, now), acts)) == Some(t)
    ensures var w := Run(Fresh(submap, now), acts);
            && w.capture.value.previous.Some?
            && CleanupSuppress(w, t, saved, d) == CleanupSuppress(w, t, guess, d)
  {
    ReachableInv(submap, now, acts);
  }

  // ---- stale steps ----------------------------------------------------------------------

  /** While `t` owns the capture, no suppressing script of another token changes anything, and
      neither does a timeout closure that outlived its owner. */
  lemma StaleScriptsAreInert(w: World, t: Token, a: Act)
    requires Inv(w) && Owner(w) == Some(t)
    requires a.Install? || a.Cleanup? || a.Renew?
    requires a.policy.Suppress? && a.token != t
    ensures Next(w, a) == w && Apply(w, a).1.Raised?
    ensures forall d :: DoCleanup(w, a.token, d) == w
  {
  }

  /** Who may run the recovery after Lua state loss, and when it touches the submap at all. */
  lemma RecoveryOnlyWhenUnowned(w: World, t: Token, saved: string, d: Dispatch)
    requires Owner(w) != Some(t)
    ensures CleanupSuppress(w, t, saved, d).0 != w
            ==> w.capture.None? && w.submap == PRIVATE && KnownOriginal(saved)
    ensures CleanupSuppress(w, t, saved, d).1.Ran?
            <==> w.capture.None? && w.submap == PRIVATE && KnownOriginal(saved)
                 && Restored(d, DefaultTarget(saved))
  {
  }

  predicate PassesThrough(a: Act) {
    a.EntryTimer? || ((a.Install? || a.Cleanup? || a.Renew?) && a.policy.PassThrough?)
  }

  /** Pass-through scripts never touch suppression or the active submap. */
  lemma PassThroughSparesCapture(w: World, a: Act)
    requires PassesThrough(a)
    ensures Next(w, a).capture == w.capture && Next(w, a).submap == w.submap
  {
  }

  /** They touch no entry but their own token's. */
  lemma PassThroughStaysInItsLane(w: World, a: Act, other: Token)
    requires PassesThrough(a) && other != a.token
    ensures var n := Next(w, a);
            && (other in Subs(n) <==> other in Subs(w))
            && (other in Subs(w) ==> Subs(n)[other] == Subs(w)[other])
  {
  }

  /** Suppressing scripts never touch a pass-through entry. */
  lemma SuppressionStaysInItsLane(w: World, a: Act)
    requires a.LeaseTimer? || ((a.Install? || a.Cleanup? || a.Renew?) && a.policy.Suppress?)
    ensures Next(w, a).subs == w.subs
  {
  }

  /** Reinstalling gives a new entry: the old entry's timer can no longer remove it. */
  lemma OldTimerSparesNewEntry(w: World, t: Token, f: Faults, stale: nat)
    requires Inv(w) && stale in w.listeners
    requires InstallPassThrough(w, t, f).1.Ran?
    ensures var n := InstallPassThrough(w, t, f).0;
            && t in Subs(n) && Subs(n)[t].id != stale
            && EntryFires(n, t, stale) == n
            && t !in Subs(EntryFires(n, t, Subs(n)[t].id))
  {
    assert Removable(stale, w.listeners[stale], w);
  }

  // ---- release restores what the install recorded ------------------------------------------

  predicate OwnedThroughout(w: World, acts: seq<Act>, t: Token)
    decreases |acts|
  {
    && Owner(w) == Some(t)
    && (acts == [] || OwnedThroughout(Next(w, acts[0]), acts[1..], t))
  }

  /** As long as the owner stays, so does its record. */
  lemma RecordKeptByStep(w: World, a: Act, t: Token)
    requires Inv(w) && Owner(w) == Some(t) && Owner(Next(w, a)) == Some(t)
    ensures Next(w, a).capture.value.previous == w.capture.value.previous
  {
  }

  lemma {:induction false} RecordKept(w: World, acts: seq<Act>, t: Token)
    requires Inv(w) && OwnedThroughout(w, acts, t)
    ensures Owner(Run(w, acts)) == Some(t)
    ensures Run(w, acts).capture.value.previous == w.capture.value.previous
    decreases |acts|
  {
    if acts != [] {
      RecordKeptByStep(w, acts[0], t);
      NextInv(w, acts[0]);
      RecordKept(Next(w, acts[0]), acts[1..], t);
    }
  }

  /** Short of a reload, an owner leaves only through its own cleanup or its lease, and then
      the compositor is back in the recorded submap. */
  lemma ReleaseRestores(w: World, a: Act, t: Token)
    requires Inv(w) && Owner(w) == Some(t) && Owner(Next(w, a)) != Some(t) && !a.Reload?
    ensures Owner(Next(w, a)).None?
    ensures a.LeaseTimer? || (a.Cleanup? && a.policy.Suppress? && a.token == t && Apply(w, a).1.Ran?)
    ensures var p := w.capture.value.previous.value;
            Matches(Next(w, a).submap, if a.Cleanup? then CleanupTarget(p) else TargetOf(p))
  {
  }

  lemma InstallRecords(w: World, t: Token, f: Faults)
    requires Owner(w).None? && Owner(InstallSuppress(w, t, f).0) == Some(t)
    ensures InstallSuppress(w, t, f).0.capture.value.previous == Some(w.submap)
  {
  }

  /** End to end: installed over submap `w.submap`, held through any interleaving, released. */
  lemma CaptureIsUndone(w: World, t: Token, f: Faults, held: seq<Act>, release: Act)
    requires Inv(w) && Owner(w).None?
    requires var hooked := InstallSuppress(w, t, f).0;
             && OwnedThroughout(hooked, held, t)
             && Owner(Next(Run(hooked, held), release)) != Some(t)
    requires !release.Reload?
    ensures var end := Next(Run(InstallSuppress(w, t, f).0, held), release);
            && Owner(end).None?
            && Matches(end.submap, if release.Cleanup? then CleanupTarget(w.submap) else TargetOf(w.submap))
  {
    hide InstallSuppress, Apply;
    var hooked := InstallSuppress(w, t, f).0;
    InstallSuppressInv(w, t, f);
    InstallRecords(w, t, f);
    RecordKept(hooked, held, t);
    RunInv(hooked, held);
    ReleaseRestores(Run(hooked, held), release, t);
  }

  /** A failed install that does give up its claim has rolled the submap back. */
  lemma RollbackRestores(w: World, t: Token, f: Faults)
    requires Inv(w) && Owner(w).None?
    requires InstallSuppress(w, t, f).1.Raised? && Owner(InstallSuppress(w, t, f).0).None?
    ensures var end := InstallSuppress(w, t, f).0.submap;
            end == w.submap || Matches(end, TargetOf(w.submap))
  {
  }

  /** The two release paths differ on one record: the lease brings the private submap itself
      back, with nobody owning it and its catchall off. The cleanup script does not. */
  lemma LeaseMayLeavePrivateSubmap(w: World, t: Token, d: Dispatch)
    requires Inv(w) && Owner(w) == Some(t)
    requires Owner(DoCleanup(w, t, d)).None?
    ensures DoCleanup(w, t, d).submap == PRIVATE <==> w.capture.value.previous == Some(PRIVATE)
    ensures CleanupSuppress(w, t, "", d).1.Ran? ==> CleanupSuppress(w, t, "", d).0.submap != PRIVATE
  {
  }

  /** And a capture can come to be installed over the private submap: the user is in it. The
      lease then ends in it, with nobody left to leave it. */
  lemma LeaseCanLeavePrivateSubmap(submap: string, now: nat, t: Token)
    ensures var works := Dispatch(true, true, PRIVATE);
            var install := Install(t, Suppress, Faults(true, true, true, true, works, true, works));
            var before := Run(Fresh(submap, now), [UserSubmap(PRIVATE), install]);
            var after := Run(Fresh(submap, now), [UserSubmap(PRIVATE), install, Tick(LEASE_MS), LeaseTimer(works)]);
            && Owner(before) == Some(t) && before.capture.value.previous == Some(PRIVATE)
            && Owner(after).None? && after.submap == PRIVATE
            && after.capture.Some? && after.capture.value.catchall == Some(false)
  {
    var works := Dispatch(true, true, PRIVATE);
    var install := Install(t, Suppress, Faults(true, true, true, true, works, true, works));
    var start := Fresh(submap, now);
    RunSnoc(start, [], UserSubmap(PRIVATE));
    RunSnoc(start, [UserSubmap(PRIVATE)], install);
    assert [UserSubmap(PRIVATE)] + [install] == [UserSubmap(PRIVATE), install];
    var held := [UserSubmap(PRIVATE), install];
    RunSnoc(start, held, Tick(LEASE_MS));
    RunSnoc(start, held + [Tick(LEASE_MS)], LeaseTimer(works));
    assert held + [Tick(LEASE_MS)] + [LeaseTimer(works)]
        == [UserSubmap(PRIVATE), install, Tick(LEASE_MS), LeaseTimer(works)];
    assert [] + [UserSubmap(PRIVATE)] == [UserSubmap(PRIVATE)];
  }

  // ---- when is the lease off? -------------------------------------------------------------

  predicate HasTimer(w: World) {
    w.capture.Some? && w.capture.value.timer.Some?
  }

  /** The last event that concerned the owner's lease switched it off: its own cleanup, which
      left it the owner, or an install that got no timer. */
  predicate Disarmed(start: World, acts: seq<Act>)
    decreases |acts|
  {
    if acts == [] then false
    else
      var before := acts[..|acts| - 1];
      var w := Run(start, before);
      match acts[|acts| - 1]
      case Cleanup(t, Suppress, _, true, _) => Owner(w) == Some(t) || Disarmed(start, before)
      case Install(_, Suppress, f) =>
        if Owner(w).None? then !HasTimer(w) && !f.timerMade else Disarmed(start, before)
      case Renew(t, Suppress) => !(Owner(w) == Some(t) && HasTimer(w)) && Disarmed(start, before)
      case LeaseTimer(_) => !HasTimer(w) && Disarmed(start, before)
      case _ => Disarmed(start, before)
  }

  lemma LeaseStep(w: World, a: Act, disarmed: bool)
    requires Inv(w) && Owner(Next(w, a)).Some?
    requires Owner(w).Some? ==> (LeaseRuns(w) <==> !disarmed)
    ensures LeaseRuns(Next(w, a)) <==>
            match a
            case Cleanup(t, Suppress, _, true, _) => Owner(w) != Some(t) && !disarmed
            case Install(_, Suppress, f) => if Owner(w).None? then HasTimer(w) || f.timerMade else !disarmed
            case Renew(t, Suppress) => (Owner(w) == Some(t) && HasTimer(w)) || !disarmed
            case LeaseTimer(_) => HasTimer(w) || !disarmed
            case _ => !disarmed
  {
  }

  /** Exactly when a capture has no running lease, over every run. */
  lemma {:induction false} LeaseRunsUnlessDisarmed(submap: string, now: nat, acts: seq<Act>)
    requires Owner(Run(Fresh(submap, now), acts)).Some?
    ensures LeaseRuns(Run(Fresh(submap, now), acts)) <==> !Disarmed(Fresh(submap, now), acts)
    decreases |acts|
  {
    var start := Fresh(submap, now);
    if acts != [] {
      var before, a := acts[..|acts| - 1], acts[|acts| - 1];
      assert before + [a] == acts;
      RunSnoc(start, before, a);
      ReachableInv(submap, now, before);
      if Owner(Run(start, before)).Some? {
        LeaseRunsUnlessDisarmed(submap, now, before);
      }
      LeaseStep(Run(start, before), a, Disarmed(start, before));
    }
  }

  // ---- renewal of an expired lease ----------------------------------------------------------

  /** Renewal is meant to fail once the lease ran out. It does exactly when that expiry could
      restore the submap; otherwise the session renews a hook that has no listener left. */
  lemma RenewalAfterExpiry(w: World, t: Token, d: Dispatch)
    requires Inv(w) && Owner(w) == Some(t) && LeaseRuns(w)
    ensures var late := LeaseFires(w, d);
            var p := w.capture.value.previous.value;
            && (RenewSuppress(late, t).1.Raised? <==> Restored(d, TargetOf(p)))
            && late.capture.value.listener.None?
            && RenewSuppress(late, t).0.capture.value.listener.None?
  {
  }

  /** A run from a fresh compositor in which a session renews a hook it no longer has: its lease
      expires, the dispatch is refused, and the renewal is accepted. */
  lemma ExpiredLeaseCanBeRenewed(submap: string, now: nat, t: Token)
    ensures var works, refused := Dispatch(true, true, PRIVATE), Dispatch(false, true, PRIVATE);
            var install := Install(t, Suppress, Faults(true, true, true, true, works, true, works));
            var late := Run(Fresh(submap, now), [install, Tick(LEASE_MS), LeaseTimer(refused)]);
            && Owner(Run(Fresh(submap, now), [install])) == Some(t)
            && RenewSuppress(late, t).1.Ran? && late.capture.Some? && late.capture.value.listener.None?
  {
    var works, refused := Dispatch(true, true, PRIVATE), Dispatch(false, true, PRIVATE);
    var install := Install(t, Suppress, Faults(true, true, true, true, works, true, works));
    var start := Fresh(submap, now);
    RunSnoc(start, [], install);
    assert [] + [install] == [install];
    RunSnoc(start, [install], Tick(LEASE_MS));
    RunSnoc(start, [install] + [Tick(LEASE_MS)], LeaseTimer(refused));
    assert [install] + [Tick(LEASE_MS)] + [LeaseTimer(refused)] == [install, Tick(LEASE_MS), LeaseTimer(refused)];
    var held := Run(start, [install] + [Tick(LEASE_MS)]);
    assert Inv(held) by { ReachableInv(submap, now, [install] + [Tick(LEASE_MS)]); }
    RenewalAfterExpiry(held, t, refused);
  }

  /** In pass-through an expired lease always ends renewal. */
  lemma EntryRenewalAfterExpiry(w: World, t: Token)
    requires t in Subs(w)
    ensures RenewPassThrough(EntryFires(w, t, Subs(w)[t].id), t).1 == Raised(NotLeased)
  {
  }
}
