/** Bindings that compete for the same key. */
module Conflicts {
  import opened Wrappers
  import opened Text
  import opened StringOrder

  const UNRESOLVED_KEY_CERTAINTY := "runtime effective binding; key not reported"
  const RUNTIME_CERTAINTY := "runtime effective binding"
  const HYPRLAND_SOURCE := "Hyprland (hyprctl binds -j)"

  datatype Group = Group(source: string, key: string, context: Option<string>, device: Option<string>,
                         submap: Option<string>)
  datatype Binding = Binding(group: Group, action: string, certainty: string)

  datatype Classification = SubmapStopsTheRest | AllFireTogether | OrderNotExposed | ActivationUnknown
  datatype Conflict = Conflict(group: Group, classification: Classification, actions: seq<string>)
  datatype Report = Report(conflicts: seq<Conflict>, unknownContexts: nat)

  // ---- the order of groups ------------------------------------------------------------------------

  predicate OptionBefore(a: Option<string>, b: Option<string>) {
    match (a, b)
    case (None, Some(_)) => true
    case (Some(x), Some(y)) => Before(x, y)
    case _ => false
  }

  /** The order of tuples: by the first part that differs. */
  predicate GroupBefore(a: Group, b: Group) {
    if a.source != b.source then Before(a.source, b.source)
    else if a.key != b.key then Before(a.key, b.key)
    else if a.context != b.context then OptionBefore(a.context, b.context)
    else if a.device != b.device then OptionBefore(a.device, b.device)
    else OptionBefore(a.submap, b.submap)
  }

  lemma OptionOrder(a: Option<string>, b: Option<string>, c: Option<string>)
    ensures !OptionBefore(a, a)
    ensures a != b ==> OptionBefore(a, b) || OptionBefore(b, a)
    ensures OptionBefore(a, b) && OptionBefore(b, c) ==> OptionBefore(a, c)
  {
    if a.Some? { BeforeIsStrict(a.value, a.value); }
    if a.Some? && b.Some? {
      BeforeIsStrict(a.value, b.value);
      if c.Some? && Before(a.value, b.value) && Before(b.value, c.value) {
        BeforeIsTransitive(a.value, b.value, c.value);
      }
    }
  }

  lemma StringOrdered(a: string, b: string, c: string)
    ensures !Before(a, a)
    ensures a != b ==> Before(a, b) || Before(b, a)
    ensures Before(a, b) && Before(b, c) ==> Before(a, c)
  {
    BeforeIsStrict(a, a);
    BeforeIsStrict(a, b);
    if Before(a, b) && Before(b, c) { BeforeIsTransitive(a, b, c); }
  }

  lemma GroupOrder(a: Group, b: Group, c: Group)
    ensures !GroupBefore(a, a)
    ensures a != b ==> GroupBefore(a, b) || GroupBefore(b, a)
    ensures GroupBefore(a, b) && GroupBefore(b, c) ==> GroupBefore(a, c)
  {
    hide Before, OptionBefore;
    StringOrdered(a.source, b.source, c.source);
    StringOrdered(a.key, b.key, c.key);
    OptionOrder(a.context, b.context, c.context);
    OptionOrder(a.device, b.device, c.device);
    OptionOrder(a.submap, b.submap, c.submap);
  }

  predicate Sorted(groups: seq<Group>) {
    forall i, k | 0 <= i < k < |groups| :: GroupBefore(groups[i], groups[k])
  }

  /** A new entry of an ordered map. */
  function Enter(group: Group, groups: seq<Group>): seq<Group> {
    if groups == [] || GroupBefore(group, groups[0]) then [group] + groups
    else [groups[0]] + Enter(group, groups[1..])
  }

  lemma {:induction false} EnterIsSorted(group: Group, groups: seq<Group>)
    requires Sorted(groups) && group !in groups
    ensures Sorted(Enter(group, groups))
    ensures forall g :: g in Enter(group, groups) <==> g == group || g in groups
    decreases |groups|
  {
    hide GroupBefore;
    if groups != [] {
      var first, rest := groups[0], groups[1..];
      assert groups == [first] + rest;
      GroupOrder(group, first, first);
      if GroupBefore(group, first) {
        forall k | 0 <= k < |rest| ensures GroupBefore(group, rest[k]) {
          GroupOrder(group, first, groups[k + 1]);
        }
      } else {
        EnterIsSorted(group, rest);
        var r := Enter(group, rest);
        forall k | 0 <= k < |r| ensures GroupBefore(first, r[k]) {
          assert r[k] in r;
        }
      }
    }
  }

  // ---- grouping --------------------------------------------------------------------------------------

  /** The bindings of a group, in input order; those without a reported key belong to none. */
  function GroupOf(entries: seq<Binding>, group: Group): seq<Binding> {
    if entries == [] then []
    else
      var last := entries[|entries| - 1];
      GroupOf(entries[..|entries| - 1], group)
      + if last.certainty != UNRESOLVED_KEY_CERTAINTY && last.group == group then [last] else []
  }

  /** The groups there are, in order. */
  function Groups(entries: seq<Binding>): seq<Group> {
    if entries == [] then []
    else
      var last, before := entries[|entries| - 1], Groups(entries[..|entries| - 1]);
      if last.certainty != UNRESOLVED_KEY_CERTAINTY && last.group !in before then Enter(last.group, before)
      else before
  }

  /** The groups are exactly those of the bindings with a reported key, each once. */
  lemma {:induction false} GroupsAreClasses(entries: seq<Binding>)
    ensures Sorted(Groups(entries))
    ensures forall g :: g in Groups(entries) <==> GroupOf(entries, g) != []
    ensures forall g :: g in Groups(entries) <==>
              exists e :: e in entries && e.certainty != UNRESOLVED_KEY_CERTAINTY && e.group == g
    decreases |entries|
  {
    if entries != [] {
      var init, last := entries[..|entries| - 1], entries[|entries| - 1];
      GroupsAreClasses(init);
      assert entries == init + [last];
      if last.certainty != UNRESOLVED_KEY_CERTAINTY && last.group !in Groups(init) {
        EnterIsSorted(last.group, Groups(init));
      }
    }
  }

  // ---- what a group amounts to ---------------------------------------------------------------------------

  function Actions(entries: seq<Binding>): (actions: seq<string>)
    ensures |actions| == |entries|
  {
    seq(|entries|, i requires 0 <= i < |entries| => entries[i].action)
  }

  /** Each action where it first occurs. */
  function FirstOccurrences(actions: seq<string>): seq<string> {
    if actions == [] then []
    else
      var last, before := actions[|actions| - 1], FirstOccurrences(actions[..|actions| - 1]);
      if last in before then before else before + [last]
  }

  predicate IsSubmap(action: string) {
    Words(action) != [] && Words(action)[0] == "submap"
  }

  predicate StopsEarly(actions: seq<string>) {
    exists i | 0 <= i < |actions| - 1 :: IsSubmap(actions[i])
  }

  function Classify(group: Group, entries: seq<Binding>, actions: seq<string>): Classification {
    if group.source == HYPRLAND_SOURCE then
      if StopsEarly(actions) then SubmapStopsTheRest else AllFireTogether
    else if forall e :: e in entries ==> e.certainty == RUNTIME_CERTAINTY then OrderNotExposed
    else ActivationUnknown
  }

  function AddGroup(report: Report, group: Group, entries: seq<Binding>): Report {
    var actions := FirstOccurrences(Actions(entries));
    if group.context == None then
      if |set a | a in Actions(entries)| > 1 then report.(unknownContexts := report.unknownContexts + 1) else report
    else if |actions| < 2 then report
    else report.(conflicts := report.conflicts + [Conflict(group, Classify(group, entries, actions), actions)])
  }

  function ReportOf(entries: seq<Binding>, groups: seq<Group>): Report {
    if groups == [] then Report([], 0)
    else
      var last := groups[|groups| - 1];
      AddGroup(ReportOf(entries, groups[..|groups| - 1]), last, GroupOf(entries, last))
  }

  /** The map that is filled: its keys in order, and the bindings under each. */
  ghost predicate IsGrouping(order: seq<Group>, groups: map<Group, seq<Binding>>, entries: seq<Binding>) {
    && order == Groups(entries)
    && (forall g :: g in groups <==> g in order)
    && (forall g :: g in groups ==> groups[g] == GroupOf(entries, g))
  }

  lemma GroupOneMore(order: seq<Group>, groups: map<Group, seq<Binding>>, entries: seq<Binding>, entry: Binding)
    requires IsGrouping(order, groups, entries)
    ensures if entry.certainty == UNRESOLVED_KEY_CERTAINTY then IsGrouping(order, groups, entries + [entry])
            else
              IsGrouping(if entry.group in groups then order else Enter(entry.group, order),
                         groups[entry.group := if entry.group in groups then groups[entry.group] + [entry] else [entry]],
                         entries + [entry])
  {
    hide Enter;
    var all := entries + [entry];
    assert all[..|all| - 1] == entries;
    GroupsAreClasses(entries);
    GroupsAreClasses(all);
    if entry.certainty != UNRESOLVED_KEY_CERTAINTY && entry.group !in groups {
      assert GroupOf(entries, entry.group) == [];
    }
  }

  lemma NothingIsGrouped()
    ensures IsGrouping([], map[], [])
  {
  }

  method GroupBindings(entries: seq<Binding>) returns (order: seq<Group>, groups: map<Group, seq<Binding>>)
    ensures IsGrouping(order, groups, entries)
  {
    hide IsGrouping, Enter;
    order := [];
    groups := map[];
    NothingIsGrouped();
    var n := 0;
    while n < |entries|
      invariant 0 <= n <= |entries|
      invariant IsGrouping(order, groups, entries[..n])
    {
      var entry := entries[n];
      GroupOneMore(order, groups, entries[..n], entry);
      assert entries[..n + 1] == entries[..n] + [entry];
      if entry.certainty != UNRESOLVED_KEY_CERTAINTY {
        if entry.group !in groups {
          order := Enter(entry.group, order);
          groups := groups[entry.group := [entry]];
        } else {
          groups := groups[entry.group := groups[entry.group] + [entry]];
        }
      }
      n := n + 1;
    }
    assert entries[..|entries|] == entries;
  }

  /** `build_conflicts`. */
  method BuildConflicts(entries: seq<Binding>) returns (report: Report)
    ensures report == ReportOf(entries, Groups(entries))
  {
    hide GroupOf, Groups, AddGroup;
    var order, groups := GroupBindings(entries);
    report := Report([], 0);
    var k := 0;
    while k < |order|
      invariant 0 <= k <= |order|
      invariant report == ReportOf(entries, order[..k])
    {
      var group := order[k];
      assert order[..k + 1][..k] == order[..k];
      report := ReportGroup(report, group, groups[group]);
      k := k + 1;
    }
    assert order[..|order|] == order;
  }

  method ReportGroup(before: Report, group: Group, entries: seq<Binding>) returns (report: Report)
    ensures report == AddGroup(before, group, entries)
  {
    report := before;
    if group.context == None {
      var distinct := set a | a in Actions(entries);
      if |distinct| > 1 {
        report := report.(unknownContexts := report.unknownContexts + 1);
      }
      return;
    }
    var actions: seq<string> := [];
    var n := 0;
    while n < |entries|
      invariant 0 <= n <= |entries|
      invariant actions == FirstOccurrences(Actions(entries)[..n])
    {
      assert Actions(entries)[..n + 1][..n] == Actions(entries)[..n];
      if entries[n].action !in actions {
        actions := actions + [entries[n].action];
      }
      n := n + 1;
    }
    assert Actions(entries)[..|entries|] == Actions(entries);
    if |actions| < 2 {
      return;
    }
    report := report.(conflicts := report.conflicts + [Conflict(group, Classify(group, entries, actions), actions)]);
  }

  // ---- what the classification means -----------------------------------------------------------------------

  /** The binds Hyprland runs: in order, up to the first that changes the submap. */
  function Executed(actions: seq<string>): seq<string> {
    if actions == [] then []
    else if IsSubmap(actions[0]) then [actions[0]]
    else [actions[0]] + Executed(actions[1..])
  }

  lemma {:induction false} FirstOccurrencesFacts(actions: seq<string>)
    ensures forall a :: a in FirstOccurrences(actions) <==> a in actions
    ensures forall i, k | 0 <= i < k < |FirstOccurrences(actions)| ::
              FirstOccurrences(actions)[i] != FirstOccurrences(actions)[k]
    decreases |actions|
  {
    if actions != [] {
      var init, last := actions[..|actions| - 1], actions[|actions| - 1];
      FirstOccurrencesFacts(init);
      assert actions == init + [last];
    }
  }

  lemma {:induction false} FirstOccurrencesOfPrefix(actions: seq<string>, n: nat)
    requires n <= |actions|
    ensures FirstOccurrences(actions[..n]) <= FirstOccurrences(actions)
    decreases |actions| - n
  {
    if n < |actions| {
      assert actions[..n + 1][..n] == actions[..n];
      FirstOccurrencesOfPrefix(actions, n + 1);
    } else {
      assert actions[..n] == actions;
    }
  }

  /** What is run is a prefix that ends with the first submap bind, or all there is. */
  lemma {:induction false} ExecutedIsPrefix(actions: seq<string>) returns (n: nat)
    ensures n <= |actions| && Executed(actions) == actions[..n]
    ensures n < |actions| ==> n > 0 && IsSubmap(actions[n - 1])
    ensures forall i | 0 <= i < n - 1 :: !IsSubmap(actions[i])
    decreases |actions|
  {
    if actions == [] {
      n := 0;
    } else if IsSubmap(actions[0]) {
      n := 1;
    } else {
      var rest := ExecutedIsPrefix(actions[1..]);
      n := rest + 1;
      assert actions[..n] == [actions[0]] + actions[1..][..rest];
      assert forall i | 1 <= i < n :: actions[i] == actions[1..][i - 1];
    }
  }

  /** "The submap bind stops the binds listed after it" is said exactly when running the binds as
      they are listed leaves one of the distinct actions unrun. */
  lemma ClassificationIsExact(actions: seq<string>)
    ensures StopsEarly(FirstOccurrences(actions)) <==>
            exists a :: a in FirstOccurrences(actions) && a !in Executed(actions)
  {
    hide IsSubmap;
    var n := ExecutedIsPrefix(actions);
    var run, all := FirstOccurrences(actions[..n]), FirstOccurrences(actions);
    FirstOccurrencesOfPrefix(actions, n);
    FirstOccurrencesFacts(actions[..n]);
    FirstOccurrencesFacts(actions);
    assert forall a :: a in run <==> a in Executed(actions);
    if n == |actions| {
      assert actions[..n] == actions;
      OnlyLastIsSubmap(actions, n);
    } else {
      LastRunIsSubmap(actions, n);
      if |run| < |all| {
        assert all[|run|] !in run;
      }
    }
  }

  /** The submap bind that ends the run is new when it is reached. */
  lemma LastRunIsSubmap(actions: seq<string>, n: nat)
    requires 0 < n <= |actions| && IsSubmap(actions[n - 1])
    requires forall i | 0 <= i < n - 1 :: !IsSubmap(actions[i])
    ensures var run := FirstOccurrences(actions[..n]);
            run != [] && run[|run| - 1] == actions[n - 1]
            && forall i | 0 <= i < |run| - 1 :: !IsSubmap(run[i])
  {
    hide IsSubmap;
    var init := actions[..n - 1];
    assert actions[..n][..n - 1] == init;
    FirstOccurrencesFacts(init);
    forall a | a in FirstOccurrences(init) ensures !IsSubmap(a) {
      assert a in init;
    }
  }

  lemma OnlyLastIsSubmap(actions: seq<string>, n: nat)
    requires n == |actions|
    requires forall i | 0 <= i < n - 1 :: !IsSubmap(actions[i])
    ensures !StopsEarly(FirstOccurrences(actions))
  {
    hide IsSubmap;
    if n > 0 {
      assert actions[..n] == actions;
      if IsSubmap(actions[n - 1]) {
        LastRunIsSubmap(actions, n);
      } else {
        FirstOccurrencesFacts(actions);
        forall a | a in FirstOccurrences(actions) ensures !IsSubmap(a) {
          assert a in actions;
        }
      }
    }
  }

  // ---- what is reported -----------------------------------------------------------------------------------

  predicate Competes(entries: seq<Binding>, group: Group) {
    |FirstOccurrences(Actions(GroupOf(entries, group)))| >= 2
  }

  function ConflictOf(entries: seq<Binding>, group: Group): Conflict {
    var members := GroupOf(entries, group);
    var actions := FirstOccurrences(Actions(members));
    Conflict(group, Classify(group, members, actions), actions)
  }

  lemma {:induction false} DistinctActions(actions: seq<string>)
    ensures |set a | a in actions| == |FirstOccurrences(actions)|
    decreases |actions|
  {
    if actions != [] {
      var init, last := actions[..|actions| - 1], actions[|actions| - 1];
      DistinctActions(init);
      FirstOccurrencesFacts(init);
      OneMoreAction(init, last);
      assert actions == init + [last];
    } else {
      assert (set a | a in actions) == {};
    }
  }

  lemma OneMoreAction(actions: seq<string>, last: string)
    ensures |set a | a in actions + [last]| == |set a | a in actions| + if last in actions then 0 else 1
  {
    var all, before := set a | a in actions + [last], set a | a in actions;
    assert all == before + {last};
    assert last in actions <==> last in before;
    if last in before { assert all == before; }
  }

  lemma AddGroupMeans(report: Report, entries: seq<Binding>, group: Group)
    ensures ConflictOf(entries, group).group == group
    ensures AddGroup(report, group, GroupOf(entries, group)) ==
            if !Competes(entries, group) then report
            else if group.context == None then report.(unknownContexts := report.unknownContexts + 1)
            else report.(conflicts := report.conflicts + [ConflictOf(entries, group)])
  {
    hide GroupOf, Classify, FirstOccurrences, Actions;
    DistinctActions(Actions(GroupOf(entries, group)));
  }

  lemma {:induction false} ReportLists(entries: seq<Binding>, groups: seq<Group>)
    ensures forall c :: c in ReportOf(entries, groups).conflicts <==>
              c.group in groups && c.group.context.Some? && Competes(entries, c.group) && c == ConflictOf(entries, c.group)
    decreases |groups|
  {
    hide AddGroup, Competes, ConflictOf, GroupOf;
    if groups != [] {
      var init, last := groups[..|groups| - 1], groups[|groups| - 1];
      ReportLists(entries, init);
      assert groups == init + [last];
      AddGroupMeans(ReportOf(entries, init), entries, last);
    }
  }

  lemma {:induction false} ReportIsSorted(entries: seq<Binding>, groups: seq<Group>)
    requires Sorted(groups)
    ensures forall i, k | 0 <= i < k < |ReportOf(entries, groups).conflicts| ::
              GroupBefore(ReportOf(entries, groups).conflicts[i].group, ReportOf(entries, groups).conflicts[k].group)
    decreases |groups|
  {
    hide GroupBefore, AddGroup, Competes, ConflictOf, GroupOf;
    if groups != [] {
      var init, last := groups[..|groups| - 1], groups[|groups| - 1];
      ReportIsSorted(entries, init);
      ReportLists(entries, init);
      AddGroupMeans(ReportOf(entries, init), entries, last);
      var before := ReportOf(entries, init).conflicts;
      forall i | 0 <= i < |before| ensures GroupBefore(before[i].group, last) {
        assert before[i] in before;
      }
    }
  }

  lemma {:induction false} ReportCounts(entries: seq<Binding>, groups: seq<Group>)
    requires Sorted(groups)
    ensures ReportOf(entries, groups).unknownContexts
         == |set g | g in groups && g.context == None && Competes(entries, g)|
    decreases |groups|
  {
    hide GroupBefore, AddGroup, Competes, ConflictOf, GroupOf;
    if groups != [] {
      var init, last := groups[..|groups| - 1], groups[|groups| - 1];
      ReportCounts(entries, init);
      AddGroupMeans(ReportOf(entries, init), entries, last);
      CountOneMore(entries, groups);
    }
  }

  lemma CountOneMore(entries: seq<Binding>, groups: seq<Group>)
    requires Sorted(groups) && groups != []
    ensures var init, last := groups[..|groups| - 1], groups[|groups| - 1];
            |set g | g in groups && g.context == None && Competes(entries, g)| ==
            |set g | g in init && g.context == None && Competes(entries, g)|
            + if last.context == None && Competes(entries, last) then 1 else 0
  {
    hide GroupBefore, Competes;
    var init, last := groups[..|groups| - 1], groups[|groups| - 1];
    assert groups == init + [last];
    assert forall g | g in init :: GroupBefore(g, last);
    GroupOrder(last, last, last);
    var before := set g | g in init && g.context == None && Competes(entries, g);
    var all := set g | g in groups && g.context == None && Competes(entries, g);
    assert all == if last.context == None && Competes(entries, last) then before + {last} else before;
  }

  /** Running these binds in order, up to the first submap bind, leaves one of them unrun. */
  predicate LeavesOneUnrun(actions: seq<string>) {
    exists a :: a in actions && a !in Executed(actions)
  }

  lemma HyprlandConflict(entries: seq<Binding>, group: Group)
    requires group.source == HYPRLAND_SOURCE
    ensures ConflictOf(entries, group).classification
         == if LeavesOneUnrun(Actions(GroupOf(entries, group))) then SubmapStopsTheRest else AllFireTogether
  {
    hide GroupOf, Actions, StopsEarly, Executed;
    var actions := Actions(GroupOf(entries, group));
    ClassificationIsExact(actions);
    FirstOccurrencesFacts(actions);
  }

  /** Exactly the groups with a known context and two distinct actions are reported, once each and
      in order, with their actions where they first occur; those with an unknown context are
      counted. For Hyprland, the classification tells whether every action runs. */
  lemma ReportIsExact(entries: seq<Binding>)
    ensures var report := ReportOf(entries, Groups(entries));
            && (forall c :: c in report.conflicts <==>
                  GroupOf(entries, c.group) != [] && c.group.context.Some? && Competes(entries, c.group)
                  && c == ConflictOf(entries, c.group))
            && (forall i, k | 0 <= i < k < |report.conflicts| ::
                  GroupBefore(report.conflicts[i].group, report.conflicts[k].group))
            && report.unknownContexts == |set g | g in Groups(entries) && g.context == None && Competes(entries, g)|
            && (forall c | c in report.conflicts && c.group.source == HYPRLAND_SOURCE ::
                  c.classification == if LeavesOneUnrun(Actions(GroupOf(entries, c.group)))
                                      then SubmapStopsTheRest else AllFireTogether)
  {
    hide GroupBefore, GroupOf, Groups, ReportOf, Actions, LeavesOneUnrun, ConflictOf;
    GroupsAreClasses(entries);
    ReportLists(entries, Groups(entries));
    ReportIsSorted(entries, Groups(entries));
    ReportCounts(entries, Groups(entries));
    forall c | c in ReportOf(entries, Groups(entries)).conflicts && c.group.source == HYPRLAND_SOURCE
      ensures c.classification == if LeavesOneUnrun(Actions(GroupOf(entries, c.group)))
                                  then SubmapStopsTheRest else AllFireTogether
    {
      HyprlandConflict(entries, c.group);
    }
  }
}
