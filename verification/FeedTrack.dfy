/** Byte accounting of a detached virtual keyboard, against positions in the whole stream. */
module FeedTrack {
  import opened Wrappers
  import opened Text
  import opened SocketLine
  import opened FeedSpec

  /** A feed together with everything ever received, how much of it left the buffer, and the
      stream position at which the virtual keyboard was last found detached. */
  datatype Tracked = Tracked(feed: Feed, received: string, taken: nat, detachedAt: nat)

  function Start(f: Feed): Tracked {
    Tracked(f, f.buffer, 0, 0)
  }

  /** Whether a device query at `f` finds the virtual keyboard gone. */
  predicate FindsDetached(f: Feed, r: Refresh) {
    r.devices.Some? && OnInventory(f.sources, r.devices.value).1
  }

  /** The feed a `Decode` step queries the devices with, if it does. */
  predicate Queries(f: Feed, token: string) {
    HasLine(f) && Parse(Line(f)).Key? && Parse(Line(f)).event.token == token
    && (f.dirty || IsLockKey(Parse(Line(f)).event.keycode) || WithoutLine(f).sources.source.Some?)
  }

  predicate Detaches(f: Feed, token: string, m: Micro) {
    match m
    case Requery(r) => FindsDetached(f, r)
    case Decode(r) => Queries(f, token) && FindsDetached(WithoutLine(f), r)
    case _ => false
  }

  function Added(f: Feed, token: string, m: Micro): string {
    match m
    case Chunk(text) => text
    case Requery(r) => if Detaches(f, token, m) then r.incoming else ""
    case Decode(r) => if Detaches(f, token, m) then r.incoming else ""
    case _ => ""
  }

  function Removed(f: Feed, m: Micro): nat {
    if (m.Decode? || m.Drain? || m.Skip?) && HasLine(f) then LineEnd(f) + 1 else 0
  }

  function Track(t: Tracked, token: string, m: Micro): Tracked {
    var received := t.received + Added(t.feed, token, m);
    Tracked(Step(t.feed, token, m).0, received, t.taken + Removed(t.feed, m),
            if Detaches(t.feed, token, m) then |received| else t.detachedAt)
  }

  function TrackAll(t: Tracked, token: string, micros: seq<Micro>): Tracked
    decreases |micros|
  {
    if micros == [] then t else TrackAll(Track(t, token, micros[0]), token, micros[1..])
  }

  // ---- the buffer is the unread part of the stream ----------------------------------------

  predicate Aligned(t: Tracked) {
    t.taken <= |t.received| && t.feed.buffer == t.received[t.taken..]
  }

  lemma StepBuffer(f: Feed, token: string, m: Micro)
    ensures Step(f, token, m).0.buffer == f.buffer[Removed(f, m)..] + Added(f, token, m)
  {
    hide Parse;
    if m.Decode? && HasLine(f) {
      var rest := WithoutLine(f);
      assert rest.buffer == f.buffer[Removed(f, m)..];
    }
  }

  lemma TrackAligned(t: Tracked, token: string, m: Micro)
    requires Aligned(t)
    ensures Aligned(Track(t, token, m))
  {
    hide Step, Parse;
    StepBuffer(t.feed, token, m);
    var n := Removed(t.feed, m);
    assert t.received[t.taken..][n..] == t.received[t.taken + n..];
    assert (t.received + Added(t.feed, token, m))[t.taken + n..]
        == t.received[t.taken + n..] + Added(t.feed, token, m);
  }

  // ---- the count --------------------------------------------------------------------------------

  /** Bytes of the buffer that were there when the keyboard was found detached. */
  function OldBytes(t: Tracked): nat {
    if t.taken < t.detachedAt then t.detachedAt - t.taken else 0
  }

  predicate Exact(t: Tracked) {
    Aligned(t) && (Queued(t.feed.sources).Some? ==>
      t.detachedAt <= |t.received| && Queued(t.feed.sources).value == OldBytes(t))
  }

  /** The count never falls short. */
  predicate NeverShort(t: Tracked) {
    Aligned(t) && (Queued(t.feed.sources).Some? ==>
      t.detachedAt <= |t.received| && Queued(t.feed.sources).value >= OldBytes(t))
  }

  lemma RefreshedQueue(f: Feed, r: Refresh)
    ensures Queued(Refreshed(f, r).sources)
         == if FindsDetached(f, r) then Some(|f.buffer + r.incoming|) else Queued(f.sources)
  {
  }

  /** Bytes are owed to a detached keyboard. */
  predicate Owes(t: Tracked) {
    Queued(t.feed.sources).Some? && Queued(t.feed.sources).value > 0
  }

  /** Everything keeps the count exact, split last line included, but a line that `arm` drops
      while bytes are owed. */
  lemma TrackExact(t: Tracked, token: string, m: Micro)
    requires Exact(t) && (m.Skip? ==> !Owes(t))
    ensures Exact(Track(t, token, m))
  {
    hide Parse;
    TrackAligned(t, token, m);
    var f := t.feed;
    match m {
      case Requery(r) => RefreshedQueue(f, r);
      case Decode(r) =>
        if HasLine(f) && Parse(Line(f)).Key? && Parse(Line(f)).event.token == token {
          var e := Parse(Line(f)).event;
          var absorbed := Absorb(WithoutLine(f), e);
          RefreshedQueue(absorbed.(dirty := absorbed.dirty || IsLockKey(e.keycode)), r);
        }
      case _ =>
    }
  }

  /** `arm` drops no line while bytes are owed. */
  predicate Counted(t: Tracked, token: string, micros: seq<Micro>)
    decreases |micros|
  {
    micros == [] || ((micros[0].Skip? ==> !Owes(t)) && Counted(Track(t, token, micros[0]), token, micros[1..]))
  }

  /** A session that has met no virtual keyboard owes nothing, whatever it has in its buffer. */
  lemma StartIsExact(f: Feed)
    requires f.sources.source.None?
    ensures Exact(Start(f))
  {
  }

  lemma {:induction false} CountIsExact(t: Tracked, token: string, micros: seq<Micro>)
    requires Exact(t) && Counted(t, token, micros)
    ensures Exact(TrackAll(t, token, micros))
    decreases |micros|
  {
    if micros != [] {
      TrackExact(t, token, micros[0]);
      CountIsExact(Track(t, token, micros[0]), token, micros[1..]);
    }
  }

  /** A line that `arm` drops is not counted: the count stays exact iff nothing was owed. */
  lemma ArmKeepsCountIff(t: Tracked, token: string)
    requires Exact(t) && HasLine(t.feed)
    ensures Exact(Track(t, token, Skip)) <==> !Owes(t)
  {
    TrackAligned(t, token, Skip);
  }

  /** A session can come to arm with bytes owed: a virtual keyboard is found by one device query
      and gone at the next, which reads one more line, and the session is armed again. */
  lemma ArmCanMiscount(token: string)
    ensures var keyboard := Keyboard(VIRTUAL_PREFIX, "other", true);
            var attach := Requery(Refresh(Some(Inventory(None, [keyboard])), ""));
            var detach := Requery(Refresh(Some(Inventory(None, [])), "\n"));
            var t := TrackAll(Start(EMPTY_FEED), token, [attach, detach]);
            && Exact(t) && HasLine(t.feed) && Owes(t)
            && !Exact(TrackAll(Start(EMPTY_FEED), token, [attach, detach, Skip]))
  {
    hide Parse, TrackAll, Exact;
    var keyboard := Keyboard(VIRTUAL_PREFIX, "other", true);
    var attach := Requery(Refresh(Some(Inventory(None, [keyboard])), ""));
    var detach := Requery(Refresh(Some(Inventory(None, [])), "\n"));
    var start := Start(EMPTY_FEED);
    var attached := Track(start, token, attach);
    assert attached.feed.sources == Sources(None, Some(VirtualSource(VIRTUAL_PREFIX, "other", None)));
    var detached := Track(attached, token, detach);
    StartIsExact(EMPTY_FEED);
    TrackExact(start, token, attach);
    TrackExact(attached, token, detach);
    assert "" + "\n" == "\n";
    assert detached.feed.buffer == "\n" && Queued(detached.feed.sources) == Some(1);
    ArmKeepsCountIff(detached, token);
    TrackJoins(start, token, [attach], [detach]);
    TrackJoins(start, token, [attach, detach], [Skip]);
    assert [attach] + [detach] == [attach, detach] && [attach, detach] + [Skip] == [attach, detach, Skip];
    TrackOne(start, token, attach);
    TrackOne(attached, token, detach);
    TrackOne(detached, token, Skip);
  }

  lemma TrackOne(t: Tracked, token: string, m: Micro)
    ensures TrackAll(t, token, [m]) == Track(t, token, m)
  {
    hide Track;
    assert [m][1..] == [];
    assert TrackAll(Track(t, token, m), token, []) == Track(t, token, m);
  }

  lemma {:induction false} TrackJoins(t: Tracked, token: string, a: seq<Micro>, b: seq<Micro>)
    ensures TrackAll(t, token, a + b) == TrackAll(TrackAll(t, token, a), token, b)
    ensures Counted(t, token, a + b) <==> Counted(t, token, a) && Counted(TrackAll(t, token, a), token, b)
    decreases |a|
  {
    hide Track, Owes;
    if a == [] {
      assert a + b == b;
    } else {
      assert (a + b)[0] == a[0] && (a + b)[1..] == a[1..] + b;
      TrackJoins(Track(t, token, a[0]), token, a[1..], b);
    }
  }

  lemma TrackNeverShort(t: Tracked, token: string, m: Micro)
    requires NeverShort(t)
    ensures NeverShort(Track(t, token, m))
  {
    hide Parse;
    TrackAligned(t, token, m);
    var f := t.feed;
    match m {
      case Requery(r) => RefreshedQueue(f, r);
      case Decode(r) =>
        if HasLine(f) && Parse(Line(f)).Key? && Parse(Line(f)).event.token == token {
          var e := Parse(Line(f)).event;
          var absorbed := Absorb(WithoutLine(f), e);
          RefreshedQueue(absorbed.(dirty := absorbed.dirty || IsLockKey(e.keycode)), r);
        }
      case _ =>
    }
  }

  /** With `arm` in the run too, the count is still never too small. */
  lemma {:induction false} CountNeverShort(t: Tracked, token: string, micros: seq<Micro>)
    requires NeverShort(t)
    ensures NeverShort(TrackAll(t, token, micros))
    decreases |micros|
  {
    if micros != [] {
      TrackNeverShort(t, token, micros[0]);
      CountNeverShort(Track(t, token, micros[0]), token, micros[1..]);
    }
  }

  // ---- what is decoded as a bare keycode ------------------------------------------------------------

  /** The key event step `m` reports at `t`, if it is one. */
  function Decoded(t: Tracked, token: string, m: Micro): Option<Observed> {
    if m.Decode? && Step(t.feed, token, m).1.Saw? then Some(Step(t.feed, token, m).1.observed) else None
  }

  /** Something of the stream before `position` is unread, and a virtual keyboard is on. */
  predicate Suspect(t: Tracked, position: nat) {
    && NeverShort(t)
    && (t.taken < position ==>
          t.feed.sources.source.Some? && (Queued(t.feed.sources).None? || t.detachedAt >= position))
  }

  lemma SourceStays(f: Feed, r: Refresh)
    requires f.sources.source.Some?
    ensures Refreshed(f, r).sources.source.Some?
  {
  }

  /** Only an event with nothing owed any more lets go of the virtual keyboard. */
  lemma SourceLeavesOnlySettled(f: Feed, token: string, m: Micro)
    requires f.sources.source.Some?
    ensures Step(f, token, m).0.sources.source.None? ==>
              || Step(f, token, m).0.buffer == ""
              || (HasLine(f) && Queued(f.sources).Some? && Queued(f.sources).value <= LineEnd(f) + 1)
    ensures m.Decode? && Step(f, token, m).1.Saw? ==> Step(f, token, m).1.observed.code
    ensures Detaches(f, token, m) ==> Queued(f.sources).None?
  {
    hide Parse;
    match m {
      case Requery(r) => SourceStays(f, r);
      case Decode(r) =>
        if HasLine(f) && Parse(Line(f)).Key? && Parse(Line(f)).event.token == token {
          var e := Parse(Line(f)).event;
          var absorbed := Absorb(WithoutLine(f), e);
          var stale := absorbed.(dirty := absorbed.dirty || IsLockKey(e.keycode));
          RefreshedQueue(stale, r);
          SourceStays(stale, r);
        }
      case _ =>
    }
  }

  lemma StaysSuspect(t: Tracked, token: string, m: Micro, position: nat)
    requires Suspect(t, position) && position <= |t.received|
    ensures Suspect(Track(t, token, m), position)
    ensures t.taken < position && Decoded(t, token, m).Some? ==> Decoded(t, token, m).value.code
  {
    TrackNeverShort(t, token, m);
    if t.taken < position {
      SourceLeavesOnlySettled(t.feed, token, m);
    }
  }

  /** Every key event that begins before the point of detachment is read as a keycode, whatever
      arrives, attaches or detaches in between. */
  lemma {:induction false} EarlyKeysAreCodes(t: Tracked, token: string, micros: seq<Micro>, m: Micro, position: nat)
    requires Suspect(t, position) && position <= |t.received|
    requires TrackAll(t, token, micros).taken < position
    requires Decoded(TrackAll(t, token, micros), token, m).Some?
    ensures Decoded(TrackAll(t, token, micros), token, m).value.code
    decreases |micros|
  {
    if micros == [] {
      StaysSuspect(t, token, m, position);
    } else {
      StaysSuspect(t, token, micros[0], position);
      EarlyKeysAreCodes(Track(t, token, micros[0]), token, micros[1..], m, position);
    }
  }

  /** No virtual keyboard attaches in this step. */
  predicate NoneAttaches(t: Tracked, token: string, m: Micro) {
    var after := Step(t.feed, token, m).0.sources;
    after.source.Some? ==> t.feed.sources.source.Some? && (Queued(t.feed.sources).Some? ==> Queued(after).Some?)
  }

  predicate NobodyAttaches(t: Tracked, token: string, micros: seq<Micro>)
    decreases |micros|
  {
    micros == [] || (NoneAttaches(t, token, micros[0])
                     && NobodyAttaches(Track(t, token, micros[0]), token, micros[1..]))
  }

  /** Key events from `position` on that are still read as keycodes. */
  function LateCodes(t: Tracked, token: string, micros: seq<Micro>, position: nat): nat
    decreases |micros|
  {
    if micros == [] then 0
    else
      var o := Decoded(t, token, micros[0]);
      (if t.taken >= position && o.Some? && o.value.code then 1 else 0)
      + LateCodes(Track(t, token, micros[0]), token, micros[1..], position)
  }

  lemma LateKeySettles(t: Tracked, token: string, m: Micro)
    requires Exact(t) && Queued(t.feed.sources).Some? && t.taken >= t.detachedAt
    requires Decoded(t, token, m).Some?
    ensures Track(t, token, m).feed.sources.source.None?
  {
  }

  lemma NoSourceNoCode(t: Tracked, token: string, m: Micro)
    requires t.feed.sources.source.None? && NoneAttaches(t, token, m)
    ensures Track(t, token, m).feed.sources.source.None?
    ensures Decoded(t, token, m).Some? ==> !Decoded(t, token, m).value.code
  {
  }

  lemma {:induction false} NoSourceNoLateCodes(t: Tracked, token: string, micros: seq<Micro>, position: nat)
    requires t.feed.sources.source.None? && NobodyAttaches(t, token, micros)
    ensures LateCodes(t, token, micros, position) == 0
    decreases |micros|
  {
    if micros != [] {
      NoSourceNoCode(t, token, micros[0]);
      NoSourceNoLateCodes(Track(t, token, micros[0]), token, micros[1..], position);
    }
  }

  lemma DetachmentStands(t: Tracked, token: string, m: Micro)
    requires Exact(t) && Queued(t.feed.sources).Some? && NoneAttaches(t, token, m)
    ensures var n := Track(t, token, m);
            n.feed.sources.source.None? || (Queued(n.feed.sources).Some? && n.detachedAt == t.detachedAt)
  {
  }

  /** Once the keyboard is found detached, and until another attaches, at most one key event
      that begins afterwards is still read as a keycode. */
  lemma {:induction false} AtMostOneLateCode(t: Tracked, token: string, micros: seq<Micro>)
    requires Exact(t) && Queued(t.feed.sources).Some?
    requires NobodyAttaches(t, token, micros) && Counted(t, token, micros)
    ensures LateCodes(t, token, micros, t.detachedAt) <= 1
    decreases |micros|
  {
    if micros != [] {
      var m := micros[0];
      var n := Track(t, token, m);
      TrackExact(t, token, m);
      DetachmentStands(t, token, m);
      if n.feed.sources.source.None? {
        NoSourceNoLateCodes(n, token, micros[1..], t.detachedAt);
      } else {
        if Decoded(t, token, m).Some? && t.taken >= t.detachedAt {
          LateKeySettles(t, token, m);
        }
        AtMostOneLateCode(n, token, micros[1..]);
      }
    }
  }

  // ---- from the first byte on ----------------------------------------------------------------------

  /** The step that finds the keyboard detached. */
  lemma DetachingStep(t: Tracked, token: string, m: Micro)
    requires Exact(t) && Detaches(t.feed, token, m)
    ensures var n := Track(t, token, m);
            && Exact(n) && n.detachedAt == |n.received| && Suspect(n, n.detachedAt)
            && (n.feed.sources.source.None? || Queued(n.feed.sources).Some?)
  {
    hide Parse;
    TrackExact(t, token, m);
    var n := Track(t, token, m);
    StepBuffer(t.feed, token, m);
    match m {
      case Requery(r) => RefreshedQueue(t.feed, r);
      case Decode(r) =>
        var e := Parse(Line(t.feed)).event;
        var absorbed := Absorb(WithoutLine(t.feed), e);
        RefreshedQueue(absorbed.(dirty := absorbed.dirty || IsLockKey(e.keycode)), r);
    }
  }

  /** From a session that has met no virtual keyboard, over every run in which one is found
      detached: the count stays exact; a key event that begins before that point of the stream
      is read as a keycode; and until another attaches at most one that begins later is. */
  lemma DetachmentIsAccounted(f: Feed, token: string, before: seq<Micro>, m: Micro, after: seq<Micro>, r: Refresh)
    requires f.sources.source.None?
    requires Counted(Start(f), token, before + [m] + after)
    requires Detaches(TrackAll(Start(f), token, before).feed, token, m)
    ensures var t := TrackAll(Start(f), token, before + [m]);
            var end := TrackAll(Start(f), token, before + [m] + after);
            && t.detachedAt == |t.received| && Exact(t) && Exact(end)
            && (end.taken < t.detachedAt && Decoded(end, token, Decode(r)).Some? ==>
                  Decoded(end, token, Decode(r)).value.code)
            && (NobodyAttaches(t, token, after) ==> LateCodes(t, token, after, t.detachedAt) <= 1)
  {
    hide Track, Decoded, Suspect, Detaches, NobodyAttaches, LateCodes, Exact;
    StartIsExact(f);
    TrackJoins(Start(f), token, before + [m], after);
    TrackJoins(Start(f), token, before, [m]);
    var d := TrackAll(Start(f), token, before);
    TrackOne(d, token, m);
    CountIsExact(Start(f), token, before);
    DetachingStep(d, token, m);
    var t := Track(d, token, m);
    CountIsExact(t, token, after);
    var end := TrackAll(t, token, after);
    if end.taken < t.detachedAt && Decoded(end, token, Decode(r)).Some? {
      EarlyKeysAreCodes(t, token, after, Decode(r), t.detachedAt);
    }
    if NobodyAttaches(t, token, after) {
      if t.feed.sources.source.None? {
        NoSourceNoLateCodes(t, token, after, t.detachedAt);
      } else {
        AtMostOneLateCode(t, token, after);
      }
    }
  }
}
