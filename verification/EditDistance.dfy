/** The distance behind "did you mean": a two-row table against the textbook recursion, and
    the recursion against edit scripts. */
module EditDistance {

  function Min(a: nat, b: nat): nat {
    if a <= b then a else b
  }

  function Cost(a: char, b: char): nat {
    if a == b then 0 else 1
  }

  /** Levenshtein's recursion, on the last characters. */
  function Distance(a: string, b: string): nat
    decreases |a| + |b|
  {
    if a == [] then |b|
    else if b == [] then |a|
    else
      var a', b' := a[..|a| - 1], b[..|b| - 1];
      Min(Distance(a', b') + Cost(a[|a| - 1], b[|b| - 1]),
          Min(Distance(a, b') + 1, Distance(a', b) + 1))
  }

  predicate RowOf(row: seq<nat>, prefix: string, right: string, columns: nat)
    requires columns <= |right| + 1
  {
    columns <= |row| && forall j :: 0 <= j < columns ==> row[j] == Distance(prefix, right[..j])
  }

  /** `edit_distance`: two rows, overwritten and swapped. */
  method ComputeEditDistance(left: string, right: string) returns (distance: nat)
    ensures distance == Distance(left, right)
  {
    var previous := new nat[|right| + 1](i => i);
    var current := new nat[|right| + 1](_ => 0);
    var row := 0;
    assert left[..0] == [];
    while row < |left|
      invariant 0 <= row <= |left|
      invariant previous.Length == current.Length == |right| + 1 && previous != current
      invariant fresh(previous) && fresh(current)
      invariant RowOf(previous[..], left[..row], right, |right| + 1)
    {
      FillRow(left, right, row, previous, current);
      previous, current := current, previous;
      row := row + 1;
    }
    assert left[..|left|] == left && right[..|right|] == right;
    distance := previous[|right|];
  }

  method FillRow(left: string, right: string, row: nat, previous: array<nat>, current: array<nat>)
    requires row < |left| && previous != current
    requires previous.Length == current.Length == |right| + 1
    requires RowOf(previous[..], left[..row], right, |right| + 1)
    modifies current
    ensures RowOf(current[..], left[..row + 1], right, |right| + 1)
  {
    var prefix := left[..row + 1];
    assert prefix[..|prefix| - 1] == left[..row];
    current[0] := row + 1;
    var column := 0;
    while column < |right|
      invariant 0 <= column <= |right|
      invariant RowOf(current[..], prefix, right, column + 1)
    {
      var target := right[..column + 1];
      assert target[..|target| - 1] == right[..column];
      assert previous[..][column] == Distance(left[..row], right[..column]);
      assert previous[..][column + 1] == Distance(left[..row], target);
      assert current[..][column] == Distance(prefix, right[..column]);
      var substitution := previous[column] + Cost(left[row], right[column]);
      current[column + 1] := Min(substitution, Min(previous[column + 1] + 1, current[column] + 1));
      column := column + 1;
    }
  }

  // ---- the distance is a metric ------------------------------------------------------------

  /** Dropping a last character changes the distance by at most one. */
  lemma {:induction false} DropLast(a: string, b: string)
    requires a != []
    ensures Distance(a, b) <= Distance(a[..|a| - 1], b) + 1
  {
  }

  lemma {:induction false} Symmetric(a: string, b: string)
    ensures Distance(a, b) == Distance(b, a)
    decreases |a| + |b|
  {
    if a != [] && b != [] {
      var a', b' := a[..|a| - 1], b[..|b| - 1];
      Symmetric(a', b');
      Symmetric(a, b');
      Symmetric(a', b);
    }
  }

  lemma {:induction false} LengthBounds(a: string, b: string)
    ensures Distance(a, b) >= |a| - |b| && Distance(a, b) >= |b| - |a|
    ensures Distance(a, b) <= if |a| <= |b| then |b| else |a|
    decreases |a| + |b|
  {
    if a != [] && b != [] {
      var a', b' := a[..|a| - 1], b[..|b| - 1];
      LengthBounds(a', b');
      LengthBounds(a, b');
      LengthBounds(a', b);
    }
  }

  lemma {:induction false} ZeroIffEqual(a: string, b: string)
    ensures Distance(a, b) == 0 <==> a == b
    decreases |a| + |b|
  {
    if a != [] && b != [] {
      var a', b' := a[..|a| - 1], b[..|b| - 1];
      ZeroIffEqual(a', b');
      assert a == a' + [a[|a| - 1]] && b == b' + [b[|b| - 1]];
    }
  }

  lemma {:induction false} Triangle(a: string, b: string, c: string)
    ensures Distance(a, c) <= Distance(a, b) + Distance(b, c)
    decreases |a| + |b| + |c|
  {
    if a == [] || b == [] || c == [] {
      LengthBounds(a, b);
      LengthBounds(b, c);
      LengthBounds(a, c);
    } else {
      var a', b', c' := a[..|a| - 1], b[..|b| - 1], c[..|c| - 1];
      DropLast(a, c);
      Symmetric(a, c);
      Symmetric(a, c');
      DropLast(c, a);
      Triangle(a', b, c);
      Triangle(a, b, c');
      Triangle(a', b', c');
      Triangle(a', b', c);
      Triangle(a, b', c');
      Triangle(a, b', c);
    }
  }

  // ---- and counts edits -------------------------------------------------------------------------

  /** One step of an edit script, applied from left to right. */
  datatype Edit = Keep(c: char) | Replace(from: char, to: char) | Insert(to: char) | Delete(from: char)

  function Source(script: seq<Edit>): string {
    if script == [] then []
    else
      Source(script[..|script| - 1]) +
      match script[|script| - 1]
      case Keep(c) => [c]
      case Replace(from, _) => [from]
      case Insert(_) => []
      case Delete(from) => [from]
  }

  function Target(script: seq<Edit>): string {
    if script == [] then []
    else
      Target(script[..|script| - 1]) +
      match script[|script| - 1]
      case Keep(c) => [c]
      case Replace(_, to) => [to]
      case Insert(to) => [to]
      case Delete(_) => []
  }

  function Edits(script: seq<Edit>): nat {
    if script == [] then 0
    else Edits(script[..|script| - 1]) + (if script[|script| - 1].Keep? then 0 else 1)
  }

  /** No script does it in fewer edits. */
  lemma {:induction false} ScriptsCostAtLeast(script: seq<Edit>)
    ensures Distance(Source(script), Target(script)) <= Edits(script)
    decreases |script|
  {
    hide Distance, Source, Target, Edits;
    if script == [] {
      EmptyScript();
      LengthBounds([], []);
    } else {
      var init, e := script[..|script| - 1], script[|script| - 1];
      ScriptsCostAtLeast(init);
      assert script == init + [e];
      Extend(init, e);
      var s, t := Source(init), Target(init);
      match e {
        case Keep(c) => BothLonger(s, t, c, c);
        case Replace(from, to) => BothLonger(s, t, from, to);
        case Insert(to) =>
          OneLonger(t, s, to);
          Symmetric(s, t);
          Symmetric(s, t + [to]);
          assert s + [] == s;
        case Delete(from) =>
          OneLonger(s, t, from);
          assert t + [] == t;
      }
    }
  }

  lemma BothLonger(s: string, t: string, x: char, y: char)
    ensures Distance(s + [x], t + [y]) <= Distance(s, t) + Cost(x, y)
  {
    assert (s + [x])[..|s|] == s && (t + [y])[..|t|] == t;
  }

  lemma OneLonger(s: string, t: string, x: char)
    ensures Distance(s + [x], t) <= Distance(s, t) + 1
  {
    assert (s + [x])[..|s|] == s;
    DropLast(s + [x], t);
  }

  lemma Extend(script: seq<Edit>, e: Edit)
    ensures Source(script + [e]) == Source(script) + (if e.Insert? then [] else [if e.Keep? then e.c else e.from])
    ensures Target(script + [e]) == Target(script) + (if e.Delete? then [] else [if e.Keep? then e.c else e.to])
    ensures Edits(script + [e]) == Edits(script) + (if e.Keep? then 0 else 1)
  {
    assert (script + [e])[..|script|] == script;
  }

  lemma EmptyScript()
    ensures Source([]) == [] && Target([]) == [] && Edits([]) == 0
  {
  }

  /** And some script does it in exactly that many. */
  lemma {:induction false} ScriptOfDistance(a: string, b: string) returns (script: seq<Edit>)
    ensures Source(script) == a && Target(script) == b && Edits(script) == Distance(a, b)
    decreases |a| + |b|
  {
    hide Source, Target, Edits;
    assert a != [] ==> a == a[..|a| - 1] + [a[|a| - 1]];
    assert b != [] ==> b == b[..|b| - 1] + [b[|b| - 1]];
    if a == [] && b == [] {
      EmptyScript();
      script := [];
    } else if a == [] {
      var t := b[..|b| - 1];
      var init := ScriptOfDistance(a, t);
      script := init + [Insert(b[|b| - 1])];
      Extend(init, Insert(b[|b| - 1]));
    } else if b == [] {
      var s := a[..|a| - 1];
      var init := ScriptOfDistance(s, b);
      script := init + [Delete(a[|a| - 1])];
      Extend(init, Delete(a[|a| - 1]));
    } else {
      var a', b' := a[..|a| - 1], b[..|b| - 1];
      var x, y := a[|a| - 1], b[|b| - 1];
      var init: seq<Edit>, e: Edit;
      if Distance(a, b) == Distance(a', b') + Cost(x, y) {
        init := ScriptOfDistance(a', b');
        e := if x == y then Keep(x) else Replace(x, y);
      } else if Distance(a, b) == Distance(a, b') + 1 {
        init := ScriptOfDistance(a, b');
        e := Insert(y);
      } else {
        init := ScriptOfDistance(a', b);
        e := Delete(x);
      }
      script := init + [e];
      Extend(init, e);
    }
  }
}
