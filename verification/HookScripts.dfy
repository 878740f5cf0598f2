/** The hook scripts as the compositor runs them: statement by statement, on mutable tables.
    Every script ends in the state and with the reply its step in `HookWorld` describes. */
module HookScripts {
  import opened Wrappers
  import opened HookWorld

  /** The Lua table behind `_G.__whykey_capture`. */
  class CaptureTable {
    var owner: Option<Token>
    var previous: Option<string>
    var timer: Option<Timer>
    var onTimeout: Option<Token>
    var listener: Option<nat>
    var catchall: Option<bool>

    constructor ()
      ensures Value() == EMPTY_CAPTURE
    {
      owner, previous, timer, onTimeout, listener, catchall := None, None, None, None, None, None;
    }

    function Value(): Capture
      reads this
    {
      Capture(owner, previous, timer, onTimeout, listener, catchall)
    }
  }

  class Compositor {
    var capture: CaptureTable?
    var subs: Option<map<Token, Entry>>
    var listeners: map<nat, Hook>
    var nextId: nat
    var submap: string
    var now: nat

    constructor (name: string, time: nat)
      ensures State() == Fresh(name, time) && capture == null
    {
      capture, subs, listeners, nextId, submap, now := null, None, map[], 0, name, time;
    }

    function State(): World
      reads this, capture
    {
      World(if capture == null then None else Some(capture.Value()), subs, listeners, nextId, submap, now)
    }

    /** `dispatch_submap(target)`: dispatch, then look at what became active. */
    method DispatchSubmap(target: string, d: Dispatch) returns (ok: bool)
      modifies this`submap
      ensures submap == d.after && ok == Restored(d, target)
    {
      submap := d.after;
      if !d.accepted || !d.readable {
        return false;
      }
      var byDefault := (target == "reset" || target == "default")
        && (submap == "" || submap == "default" || submap == "reset");
      return byDefault || submap == target;
    }

    /** Register a listener; the handle identifies it. */
    method Listen(hook: Hook) returns (handle: nat)
      modifies this`listeners, this`nextId
      ensures handle == old(nextId) && nextId == old(nextId) + 1
      ensures listeners == old(listeners)[handle := hook]
    {
      handle := nextId;
      listeners := listeners[handle := hook];
      nextId := nextId + 1;
    }

    /** Timer off, listener removed, catchall off. */
    method Quiet()
      requires capture != null
      modifies this`listeners, capture
      ensures State() == Quieted(old(State()))
    {
      if capture.timer.Some? {
        capture.timer := Some(capture.timer.value.(enabled := false));
      }
      if capture.listener.Some? {
        listeners := listeners - {capture.listener.value};
        capture.listener := None;
      }
      if capture.catchall.Some? {
        capture.catchall := Some(false);
      }
    }

    /** `do_cleanup(expected_owner)` of the install script. */
    method RunCleanup(expected: Token, d: Dispatch)
      modifies this, capture
      ensures capture == old(capture)
      ensures State() == DoCleanup(old(State()), expected, d)
    {
      if capture == null || capture.owner != Some(expected) {
        return;
      }
      Quiet();
      if capture.previous.Some? {
        var p := capture.previous.value;
        var target := if p == "" || p == "default" then "reset" else p;
        var restored := DispatchSubmap(target, d);
        if !restored {
          if capture.timer.Some? {
            capture.timer := Some(Timer(true, now + LEASE_MS));
          }
          return;
        }
        capture.previous := None;
      }
      capture.owner := None;
    }

    /** The protected call of the suppressing install script; false when any step raises. */
    method SetUpHooks(token: Token, f: Faults) returns (ok: bool)
      requires capture != null && capture.owner == Some(token) && capture.onTimeout == Some(token)
      requires capture.previous == Some(submap)
      modifies this, capture
      ensures capture == old(capture)
      ensures var c := old(capture.Value());
              var stage := HooksMade(c, f);
              var hooked := Claimed(old(State()), token, stage);
              && State() == (if stage < 3 then hooked else hooked.(submap := f.activation.after))
              && ok == (stage == 3 && Activated(f))
    {
      if capture.timer.None? {
        if !f.timerMade {
          return false;
        }
        capture.timer := Some(Timer(true, now + LEASE_MS));
      } else {
        capture.timer := Some(Timer(true, now + LEASE_MS));
      }
      if capture.catchall.None? {
        if !f.catchallMade {
          return false;
        }
        capture.catchall := Some(true);
      } else {
        capture.catchall := Some(true);
      }
      if !f.listenerMade {
        return false;
      }
      var handle := Listen(Hook(Suppress, token));
      capture.listener := Some(handle);
      submap := f.activation.after;
      if !f.activation.accepted || !f.activation.readable || submap != PRIVATE {
        return false;
      }
      return f.armedSent;
    }

    method InstallSuppressing(token: Token, f: Faults) returns (reply: Reply)
      modifies this, capture
      ensures capture == old(capture) || fresh(capture)
      ensures (State(), reply) == InstallSuppress(old(State()), token, f)
    {
      if capture == null {
        capture := new CaptureTable();
      }
      if capture.owner.Some? {
        return Raised(Busy);
      }
      if !f.previousRead {
        return Raised(Unreadable);
      }
      capture.owner := Some(token);
      capture.previous := Some(submap);
      capture.onTimeout := Some(token);
      var ok := SetUpHooks(token, f);
      if !ok {
        RunCleanup(token, f.rollback);
        return Raised(InstallFailed);
      }
      return Ran;
    }

    method CleanUpSuppressing(token: Token, saved: string, read: bool, d: Dispatch) returns (reply: Reply)
      modifies this, capture
      ensures capture == old(capture)
      ensures (State(), reply) == if read then CleanupSuppress(old(State()), token, saved, d)
                                  else (old(State()), Raised(Unreadable))
    {
      if !read {
        return Raised(Unreadable);
      }
      var current := submap;
      var defaultTarget := if !KnownOriginal(saved) || saved == "default" then "reset" else saved;
      if capture != null && capture.owner == Some(token) {
        Quiet();
        if capture.previous.Some? {
          var p := capture.previous.value;
          var target := if p == "" || p == "default" then "reset" else p;
          if target == PRIVATE {
            target := "reset";
          }
          var ok := DispatchSubmap(target, d);
          if !ok {
            return Raised(RestoreFailed);
          }
          capture.previous := None;
        } else if current == PRIVATE {
          var ok := DispatchSubmap(defaultTarget, d);
          if !ok {
            return Raised(RestoreFailed);
          }
        }
        capture.owner := None;
        return Ran;
      } else if capture == null && current == PRIVATE {
        if !KnownOriginal(saved) {
          return Raised(UnknownOriginal);
        }
        var ok := DispatchSubmap(defaultTarget, d);
        return if ok then Ran else Raised(RecoveryFailed);
      }
      return Raised(NotOwner);
    }

    method RenewSuppressing(token: Token) returns (reply: Reply)
      modifies capture
      ensures (State(), reply) == RenewSuppress(old(State()), token)
    {
      if capture == null || capture.owner != Some(token) {
        return Raised(NotLeased);
      }
      if capture.timer.Some? {
        capture.timer := Some(Timer(true, now + LEASE_MS));
      }
      return Ran;
    }

    /** The one-shot lease timer: it calls the closure the table holds now. */
    method FireLease(d: Dispatch)
      modifies this, capture
      ensures capture == old(capture)
      ensures State() == LeaseFires(old(State()), d)
    {
      if capture == null || capture.timer.None? {
        return;
      }
      capture.timer := Some(capture.timer.value.(enabled := false));
      if capture.onTimeout.Some? {
        RunCleanup(capture.onTimeout.value, d);
      }
    }

    /** `remove_entry` and forgetting the entry. */
    method RemoveEntry(token: Token)
      modifies this`subs, this`listeners
      ensures State() == WithoutEntry(old(State()), token)
    {
      if subs.None? || token !in subs.value {
        return;
      }
      var entry := subs.value[token];
      if entry.listener.Some? {
        listeners := listeners - {entry.listener.value};
      }
      subs := Some(subs.value - {token});
    }

    method InstallPassingThrough(token: Token, f: Faults) returns (reply: Reply)
      modifies this
      ensures capture == old(capture)
      ensures (State(), reply) == InstallPassThrough(old(State()), token, f)
    {
      if subs.None? {
        subs := Some(map[]);
      }
      RemoveEntry(token);
      if !f.listenerMade {
        return Raised(InstallFailed);
      }
      var before := listeners;
      var handle := Listen(Hook(PassThrough, token));
      if !f.timerMade {
        listeners := before;
        return Raised(InstallFailed);
      }
      subs := Some(subs.value[token := Entry(handle, Some(handle), Some(Timer(true, now + LEASE_MS)))]);
      return if f.armedSent then Ran else Raised(ArmedFailed);
    }

    method RenewPassingThrough(token: Token) returns (reply: Reply)
      modifies this`subs
      ensures (State(), reply) == RenewPassThrough(old(State()), token)
    {
      if subs.None? || token !in subs.value {
        return Raised(NotLeased);
      }
      var entry := subs.value[token];
      if entry.listener.None? || entry.timer.None? {
        return Raised(NotLeased);
      }
      subs := Some(subs.value[token := entry.(timer := Some(Timer(true, now + LEASE_MS)))]);
      return Ran;
    }

    method FireEntry(token: Token, id: nat)
      modifies this`subs, this`listeners
      ensures State() == EntryFires(old(State()), token, id)
    {
      if subs.Some? && token in subs.value && subs.value[token].id == id {
        RemoveEntry(token);
      }
    }

    /** Run one step, whoever causes it. */
    method Perform(a: Act) returns (reply: Reply)
      modifies this, capture
      ensures capture == null || capture == old(capture) || fresh(capture)
      ensures (State(), reply) == Apply(old(State()), a)
    {
      reply := Ran;
      match a {
        case Install(t, PassThrough, f) => reply := InstallPassingThrough(t, f);
        case Install(t, Suppress, f) => reply := InstallSuppressing(t, f);
        case Cleanup(t, PassThrough, _, _, _) => RemoveEntry(t);
        case Cleanup(t, Suppress, saved, read, d) => reply := CleanUpSuppressing(t, saved, read, d);
        case Renew(t, PassThrough) => reply := RenewPassingThrough(t);
        case Renew(t, Suppress) => reply := RenewSuppressing(t);
        case LeaseTimer(d) => FireLease(d);
        case EntryTimer(t, id) => FireEntry(t, id);
        case Reload(after) => capture, subs, listeners, submap := null, None, map[], after;
        case UserSubmap(name) => submap := name;
        case Tick(ms) => now := now + ms;
      }
    }

    method PerformAll(acts: seq<Act>)
      modifies this, capture
      ensures capture == null || capture == old(capture) || fresh(capture)
      ensures State() == Run(old(State()), acts)
    {
      var i := 0;
      while i < |acts|
        invariant 0 <= i <= |acts|
        invariant capture == null || capture == old(capture) || fresh(capture)
        invariant Run(State(), acts[i..]) == Run(old(State()), acts)
      {
        assert acts[i..][0] == acts[i] && acts[i..][1..] == acts[i + 1..];
        var _ := Perform(acts[i]);
        i := i + 1;
      }
    }
  }
}
