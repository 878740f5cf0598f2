/** The report of conflicts, told by the bindings it was made from. */
module ConflictReport {
  import opened Wrappers
  import opened Text
  import opened StringOrder
  import opened Conflicts

  /** A binding that is compared with the others of `group`. */
  predicate Joins(e: Binding, group: Group) {
    e.group == group && e.certainty != "runtime effective binding; key not reported"
  }

  lemma {:induction false} GroupMembers(entries: seq<Binding>, group: Group)
    ensures forall e :: e in GroupOf(entries, group) <==> e in entries && Joins(e, group)
    decreases |entries|
  {
    if entries != [] {
      var init, last := entries[..|entries| - 1], entries[|entries| - 1];
      GroupMembers(init, group);
      assert entries == init + [last];
    }
  }

  lemma GroupActions(entries: seq<Binding>, group: Group)
    ensures forall a :: a in FirstOccurrences(Actions(GroupOf(entries, group)))
                        <==> exists e :: e in entries && Joins(e, group) && e.action == a
  {
    hide FirstOccurrences, GroupOf, Joins;
    var members := GroupOf(entries, group);
    FirstOccurrencesFacts(Actions(members));
    GroupMembers(entries, group);
    forall a ensures a in Actions(members) <==> exists e :: e in members && e.action == a {
      if e :| e in members && e.action == a {
        var i :| 0 <= i < |members| && members[i] == e;
        assert Actions(members)[i] == a;
      }
    }
  }

  /** Two bindings of a group that do different things. */
  predicate Disagree(entries: seq<Binding>, group: Group) {
    exists e, f :: e in entries && f in entries && Joins(e, group) && Joins(f, group) && e.action != f.action
  }

  lemma CompetesIff(entries: seq<Binding>, group: Group)
    ensures Competes(entries, group) <==> Disagree(entries, group)
  {
    hide GroupOf, Joins, Actions, FirstOccurrences;
    var actions := FirstOccurrences(Actions(GroupOf(entries, group)));
    GroupActions(entries, group);
    FirstOccurrencesFacts(Actions(GroupOf(entries, group)));
    if |actions| >= 2 {
      assert actions[0] in actions && actions[1] in actions && actions[0] != actions[1];
    }
    if e, f :| e in entries && f in entries && Joins(e, group) && Joins(f, group) && e.action != f.action {
      assert e.action in actions && f.action in actions;
      var i :| 0 <= i < |actions| && actions[i] == e.action;
      var k :| 0 <= k < |actions| && actions[k] == f.action;
      assert i != k;
    }
  }

  /** What is reported of `entries`. */
  predicate IsReported(entries: seq<Binding>, c: Conflict) {
    c in ReportOf(entries, Groups(entries)).conflicts
  }

  lemma ReportedIs(entries: seq<Binding>, c: Conflict)
    ensures IsReported(entries, c) <==>
            c.group.context.Some? && Disagree(entries, c.group) && c == ConflictOf(entries, c.group)
  {
    hide GroupOf, Groups, ReportOf, ConflictOf, Competes, Disagree;
    ReportIsExact(entries);
    CompetesIff(entries, c.group);
    if Disagree(entries, c.group) {
      NonEmpty(entries, c.group);
    }
  }

  lemma NonEmpty(entries: seq<Binding>, group: Group)
    requires Disagree(entries, group)
    ensures GroupOf(entries, group) != []
  {
    hide GroupOf;
    GroupMembers(entries, group);
  }

  /** A group is reported exactly when its context is known and two of its bindings disagree. */
  lemma ReportedIff(entries: seq<Binding>, group: Group)
    ensures (exists c :: IsReported(entries, c) && c.group == group) <==>
            group.context.Some? && Disagree(entries, group)
  {
    hide IsReported, Disagree, ConflictOf;
    var it := ConflictOf(entries, group);
    OfItsGroup(entries, group);
    ReportedIs(entries, it);
    if c :| IsReported(entries, c) && c.group == group {
      ReportedIs(entries, c);
    }
  }

  lemma OfItsGroup(entries: seq<Binding>, group: Group)
    ensures ConflictOf(entries, group).group == group
  {
  }

  /** Outside Hyprland, the order is what is missing if all bindings of the group are known to be in
      effect; else it is not known which are. */
  lemma OthersAreClassified(entries: seq<Binding>, c: Conflict)
    requires IsReported(entries, c) && c.group.source != "Hyprland (hyprctl binds -j)"
    ensures c.classification ==
            if forall e | e in entries && Joins(e, c.group) :: e.certainty == "runtime effective binding"
            then OrderNotExposed else ActivationUnknown
  {
    hide IsReported, Disagree, GroupOf, Joins, FirstOccurrences, Actions;
    ReportedIs(entries, c);
    GroupMembers(entries, c.group);
  }

  /** In Hyprland, it is said exactly when some action of the group is not run. */
  lemma HyprlandIsClassified(entries: seq<Binding>, c: Conflict)
    requires IsReported(entries, c) && c.group.source == "Hyprland (hyprctl binds -j)"
    ensures c.classification ==
            if LeavesOneUnrun(Actions(GroupOf(entries, c.group))) then SubmapStopsTheRest else AllFireTogether
  {
    hide IsReported, Disagree, GroupOf, ConflictOf, LeavesOneUnrun, Actions;
    ReportedIs(entries, c);
    HyprlandConflict(entries, c.group);
  }

  /** The first word of the action, at `i`, is submap. */
  predicate SubmapAt(action: string, i: nat) {
    && i + 6 <= |action| && (forall k | 0 <= k < i :: IsWhitespace(action[k]))
    && action[i..i + 6] == "submap" && (i + 6 == |action| || IsWhitespace(action[i + 6]))
  }

  lemma {:induction false} IsSubmapIff(action: string)
    ensures IsSubmap(action) <==> exists i: nat :: SubmapAt(action, i)
    decreases |action|
  {
    hide SubmapAt, WordEnd;
    if action == [] {
      NothingIsSubmap();
    } else if IsWhitespace(action[0]) {
      IsSubmapIff(action[1..]);
      SubmapLater(action);
    } else {
      FirstWordIsSubmap(action);
    }
  }

  lemma NothingIsSubmap()
    ensures forall i: nat :: !SubmapAt("", i)
  {
  }

  lemma SubmapLater(action: string)
    requires action != [] && IsWhitespace(action[0])
    ensures (exists i: nat :: SubmapAt(action, i)) <==> exists i: nat :: SubmapAt(action[1..], i)
  {
    hide IsWhitespace;
    var rest := action[1..];
    assert forall k | 1 <= k < |action| :: action[k] == rest[k - 1];
    if i: nat :| SubmapAt(rest, i) {
      assert action[i + 1..i + 7] == rest[i..i + 6];
      assert SubmapAt(action, i + 1);
    }
    if i: nat :| SubmapAt(action, i) {
      assert action[i] == action[i..i + 6][0] && !IsWhitespace('s') by { SIsVisible(); }
      assert action[i..i + 6] == rest[i - 1..i + 5];
      assert SubmapAt(rest, i - 1);
    }
  }

  lemma SIsVisible()
    ensures !IsWhitespace('s')
  {
  }

  lemma FirstWordIsSubmap(action: string)
    requires action != [] && !IsWhitespace(action[0])
    ensures IsSubmap(action) <==> exists i: nat :: SubmapAt(action, i)
  {
    hide IsWhitespace;
    var n := WordEnd(action);
    assert Words(action)[0] == action[..n];
    if n == 6 && action[..6] == "submap" {
      assert SubmapAt(action, 0);
    }
    if i: nat :| SubmapAt(action, i) {
      assert i == 0 && action[..6] == "submap";
      SubmapHasNoBlank();
      WordEndIs(action, 6);
    }
  }

  lemma SubmapHasNoBlank()
    ensures NoWhitespace("submap")
  {
  }

  lemma WordEndIs(s: string, n: nat)
    requires n <= |s| && NoWhitespace(s[..n]) && (n == |s| || IsWhitespace(s[n]))
    ensures WordEnd(s) == n
  {
    var e := WordEnd(s);
    assert forall k | 0 <= k < n :: s[k] == s[..n][k] && s[k] in s[..n];
    assert forall k | 0 <= k < e :: s[k] == s[..e][k] && s[k] in s[..e];
  }

  // ---- order ------------------------------------------------------------------------------------------

  /** Among the bindings of the group, one that does `a` comes before all that do `b`. */
  predicate ComesFirst(entries: seq<Binding>, group: Group, a: string, b: string) {
    exists n | 0 <= n < |entries| :: Joins(entries[n], group) && entries[n].action == a &&
      forall m | 0 <= m <= n :: Joins(entries[m], group) ==> entries[m].action != b
  }

  lemma {:induction false} ActionsInOrder(entries: seq<Binding>, group: Group)
    ensures var actions := FirstOccurrences(Actions(GroupOf(entries, group)));
            forall i, k | 0 <= i < k < |actions| :: ComesFirst(entries, group, actions[i], actions[k])
    decreases |entries|
  {
    if entries != [] {
      var init, last := entries[..|entries| - 1], entries[|entries| - 1];
      ActionsInOrder(init, group);
      GroupActions(init, group);
      LastAction(entries, group);
      hide GroupOf, FirstOccurrences, Actions, Joins, ComesFirst;
      var was := FirstOccurrences(Actions(GroupOf(init, group)));
      var actions := FirstOccurrences(Actions(GroupOf(entries, group)));
      forall i, k | 0 <= i < k < |actions| ensures ComesFirst(entries, group, actions[i], actions[k]) {
        if k < |was| {
          StillFirst(entries, group, actions[i], actions[k]);
        } else {
          assert actions[i] in was && actions[k] !in was;
          NewIsLast(entries, group, actions[i], actions[k]);
        }
      }
    }
  }

  lemma LastAction(entries: seq<Binding>, group: Group)
    requires entries != []
    ensures var init, last := entries[..|entries| - 1], entries[|entries| - 1];
            var was := FirstOccurrences(Actions(GroupOf(init, group)));
            FirstOccurrences(Actions(GroupOf(entries, group))) ==
            if Joins(last, group) && last.action !in was then was + [last.action] else was
  {
    var init, last := entries[..|entries| - 1], entries[|entries| - 1];
    var members := GroupOf(init, group);
    if Joins(last, group) {
      assert GroupOf(entries, group) == members + [last];
      assert Actions(members + [last]) == Actions(members) + [last.action];
      assert (Actions(members) + [last.action])[..|members|] == Actions(members);
    } else {
      assert GroupOf(entries, group) == members;
    }
  }

  lemma StillFirst(entries: seq<Binding>, group: Group, a: string, b: string)
    requires entries != [] && ComesFirst(entries[..|entries| - 1], group, a, b)
    ensures ComesFirst(entries, group, a, b)
  {
    hide Joins;
    var init := entries[..|entries| - 1];
    var n :| 0 <= n < |init| && Joins(init[n], group) && init[n].action == a &&
      forall m | 0 <= m <= n :: Joins(init[m], group) ==> init[m].action != b;
    assert entries[n] == init[n] && forall m | 0 <= m <= n :: entries[m] == init[m];
  }

  lemma NewIsLast(entries: seq<Binding>, group: Group, a: string, b: string)
    requires entries != []
    requires exists e :: e in entries[..|entries| - 1] && Joins(e, group) && e.action == a
    requires !exists e :: e in entries[..|entries| - 1] && Joins(e, group) && e.action == b
    ensures ComesFirst(entries, group, a, b)
  {
    hide Joins;
    var init := entries[..|entries| - 1];
    var e :| e in init && Joins(e, group) && e.action == a;
    var n :| 0 <= n < |init| && init[n] == e;
    forall m | 0 <= m <= n ensures Joins(entries[m], group) ==> entries[m].action != b {
      assert entries[m] == init[m] && init[m] in init;
    }
    assert entries[n] == e;
  }

  /** The actions of a conflict are those of its bindings, each once, in the order of the input. */
  lemma ActionsAreListed(entries: seq<Binding>, c: Conflict)
    requires IsReported(entries, c)
    ensures forall a :: a in c.actions <==> exists e :: e in entries && Joins(e, c.group) && e.action == a
    ensures forall i, k | 0 <= i < k < |c.actions| :: ComesFirst(entries, c.group, c.actions[i], c.actions[k])
    ensures forall i, k | 0 <= i < k < |c.actions| :: c.actions[i] != c.actions[k]
  {
    hide IsReported, Disagree, GroupOf, Joins, FirstOccurrences, Actions, ComesFirst, Classify;
    ReportedIs(entries, c);
    assert c.actions == FirstOccurrences(Actions(GroupOf(entries, c.group)));
    GroupActions(entries, c.group);
    ActionsInOrder(entries, c.group);
    FirstOccurrencesFacts(Actions(GroupOf(entries, c.group)));
  }

  // ---- the order of the groups -------------------------------------------------------------------------

  /** The first place where two strings differ decides, or that one ends there. */
  lemma {:induction false} FirstDifferenceDecides(a: string, b: string, n: nat)
    requires n <= |a| && n < |b| && a[..n] == b[..n]
    requires n == |a| || a[n] < b[n]
    ensures Before(a, b) && !Before(b, a)
    decreases n
  {
    BeforeIsStrict(a, b);
    if n > 0 {
      assert a[0] == a[..n][0] && b[0] == b[..n][0];
      assert a[1..][..n - 1] == a[..n][1..] && b[1..][..n - 1] == b[..n][1..];
      FirstDifferenceDecides(a[1..], b[1..], n - 1);
    }
  }

  /** Groups go by source, then key, context, device and submap; nothing goes before something. */
  lemma FieldByField(source: string, key: string, context: Option<string>, device: Option<string>, a: Group, b: Group)
    ensures Before(a.source, b.source) ==> GroupBefore(a, b)
    ensures a.source == b.source && Before(a.key, b.key) ==> GroupBefore(a, b)
    ensures a.source == b.source && a.key == b.key && a.context == None && b.context.Some? ==> GroupBefore(a, b)
    ensures GroupBefore(Group(source, key, Some("a"), None, Some("b")), Group(source, key, Some("b"), None, Some("a")))
    ensures GroupBefore(Group(source, key, context, Some("a"), None), Group(source, key, context, Some("b"), None))
    ensures GroupBefore(Group(source, key, context, device, None), Group(source, key, context, device, Some("")))
  {
    BeforeIsStrict(a.source, b.source);
    BeforeIsStrict(a.key, b.key);
  }
}
