/** The identity of a recorded question: its kind and its key in canonical JSON. */
module Canonical {
  import opened StringOrder

  /** A JSON value. An object keeps its fields in the order it was built in; a number is the
      numeral it prints as. */
  datatype Json =
    | Null
    | Bool(value: bool)
    | Number(numeral: string)
    | String(text: string)
    | Array(items: seq<Json>)
    | Object(fields: seq<(string, Json)>)

  predicate IsNumeral(s: string) {
    s != [] && (s[0] == '-' || '0' <= s[0] <= '9')
    && forall c :: c in s ==> '0' <= c <= '9' || c in "+-.eE"
  }

  /** Field names are distinct, and numbers are numerals, at every depth. */
  predicate WellFormed(j: Json) {
    match j
    case Number(n) => IsNumeral(n)
    case Array(items) => forall i | 0 <= i < |items| :: WellFormed(items[i])
    case Object(fields) =>
      && (forall i, k | 0 <= i < k < |fields| :: fields[i].0 != fields[k].0)
      && forall i | 0 <= i < |fields| :: WellFormed(fields[i].1)
    case _ => true
  }

  /** Equal up to the order of object fields, at every depth. */
  predicate Same(a: Json, b: Json) {
    match (a, b)
    case (Array(xs), Array(ys)) => |xs| == |ys| && forall i | 0 <= i < |xs| :: Same(xs[i], ys[i])
    case (Object(f), Object(g)) =>
      |f| == |g| && forall i | 0 <= i < |f| ::
        exists k | 0 <= k < |g| :: f[i].0 == g[k].0 && Same(f[i].1, g[k].1)
    case _ => a == b
  }

  // ---- the text ---------------------------------------------------------------------------

  function HexDigit(n: nat): char
    requires n < 16
  {
    if n < 10 then ('0' as int + n) as char else ('a' as int + n - 10) as char
  }

  /** A character inside a JSON string, as section 7 of RFC 8259 allows it: the quotation mark,
      the backslash and control characters are escaped, nothing else. */
  function EscapeChar(c: char): (s: string)
    ensures s != []
  {
    if c == '"' then "\\\""
    else if c == '\\' then "\\\\"
    else if c == '\U{8}' then "\\b"
    else if c == '\U{C}' then "\\f"
    else if c == '\n' then "\\n"
    else if c == '\r' then "\\r"
    else if c == '\t' then "\\t"
    else if c < ' ' then "\\u00" + [HexDigit(c as int / 16), HexDigit(c as int % 16)]
    else [c]
  }

  function Escape(s: string): string {
    if s == [] then [] else EscapeChar(s[0]) + Escape(s[1..])
  }

  function Quote(s: string): string {
    "\"" + (Escape(s) + "\"")
  }

  function Join(parts: seq<string>): string {
    if parts == [] then []
    else if |parts| == 1 then parts[0]
    else parts[0] + ("," + Join(parts[1..]))
  }

  function MemberText(member: (string, string)): string {
    Quote(member.0) + (":" + member.1)
  }

  function MemberTexts(members: seq<(string, string)>): (texts: seq<string>)
    ensures |texts| == |members|
  {
    seq(|members|, i requires 0 <= i < |members| => MemberText(members[i]))
  }

  /** `canonical`. */
  function Text(j: Json): string {
    match j
    case Null => "null"
    case Bool(b) => if b then "true" else "false"
    case Number(n) => n
    case String(s) => Quote(s)
    case Array(items) =>
      "[" + (Join(seq(|items|, i requires 0 <= i < |items| => Text(items[i]))) + "]")
    case Object(fields) =>
      var members := seq(|fields|, i requires 0 <= i < |fields| => (fields[i].0, Text(fields[i].1)));
      "{" + (Join(MemberTexts(SortByName(members))) + "}")
  }

  /** `question`. */
  function QuestionText(kind: string, key: Json): string {
    kind + " " + Text(key)
  }

  // ---- where a text ends --------------------------------------------------------------------

  /** The place of the first `,`, `]` or `}` outside every string and bracket. */
  function End(s: string, depth: nat, quoted: bool): (n: nat)
    ensures n <= |s|
    decreases |s|
  {
    if s == [] then 0
    else if quoted then
      if s[0] == '\\' && |s| > 1 then 2 + End(s[2..], depth, true)
      else 1 + End(s[1..], depth, s[0] != '"')
    else if s[0] == '"' then 1 + End(s[1..], depth, true)
    else if s[0] in "[{" then 1 + End(s[1..], depth + 1, false)
    else if s[0] in ",]}" && depth == 0 then 0
    else 1 + End(s[1..], if s[0] in "]}" then depth - 1 else depth, false)
  }

  predicate Stops(rest: string) {
    rest == [] || rest[0] in ",]}"
  }

  /** Reading `t` brings the reader back to where it was. */
  ghost predicate Whole(t: string) {
    forall rest: string, depth: nat :: End(t + rest, depth, false) == |t| + End(rest, depth, false)
  }

  /** A text is split from what follows it in one way only. */
  lemma OneSplit(t: string, u: string, x: string, y: string)
    requires Whole(t) && Whole(u) && Stops(x) && Stops(y)
    requires t + x == u + y
    ensures t == u && x == y
  {
    assert |t| == End(t + x, 0, false) == End(u + y, 0, false) == |u|;
    assert t == (t + x)[..|t|] && u == (u + y)[..|t|];
    assert x == (t + x)[|t|..] && y == (u + y)[|t|..];
  }

  lemma PlainIsSkipped(c: char, rest: string, depth: nat)
    requires c != '\\' && c != '"'
    ensures End([c] + rest, depth, true) == 1 + End(rest, depth, true)
  {
    assert ([c] + rest)[1..] == rest;
  }

  lemma HexIsSkipped(x: char, y: char, rest: string, depth: nat)
    requires x != '\\' && x != '"' && y != '\\' && y != '"'
    ensures End("00" + ([x, y] + rest), depth, true) == 4 + End(rest, depth, true)
  {
    hide End;
    PlainIsSkipped(y, rest, depth);
    PlainIsSkipped(x, [y] + rest, depth);
    assert [x] + ([y] + rest) == [x, y] + rest;
    PlainIsSkipped('0', [x, y] + rest, depth);
    PlainIsSkipped('0', "0" + ([x, y] + rest), depth);
    assert "0" + ("0" + ([x, y] + rest)) == "00" + ([x, y] + rest);
  }

  lemma EscapeCharIsSkipped(c: char, rest: string, depth: nat)
    ensures End(EscapeChar(c) + rest, depth, true) == |EscapeChar(c)| + End(rest, depth, true)
  {
    var e := EscapeChar(c);
    var s := e + rest;
    if |e| == 1 {
      assert s[1..] == rest;
    } else if |e| == 2 {
      assert s[2..] == rest;
    } else {
      var x, y := HexDigit(c as int / 16), HexDigit(c as int % 16);
      assert e == ['\\', 'u', '0', '0', x, y];
      HexIsSkipped(x, y, rest, depth);
      assert s == "\\u" + ("00" + ([x, y] + rest));
      assert s[2..] == "00" + ([x, y] + rest);
    }
  }

  lemma {:induction false} EscapeIsSkipped(s: string, rest: string, depth: nat)
    ensures End(Escape(s) + rest, depth, true) == |Escape(s)| + End(rest, depth, true)
    decreases |s|
  {
    if s == [] {
      assert Escape(s) + rest == rest;
    } else {
      var more := Escape(s[1..]) + rest;
      assert Escape(s) + rest == EscapeChar(s[0]) + more;
      EscapeCharIsSkipped(s[0], more, depth);
      EscapeIsSkipped(s[1..], rest, depth);
    }
  }

  lemma QuoteIsWhole(s: string)
    ensures Whole(Quote(s))
  {
    forall rest: string, depth: nat ensures End(Quote(s) + rest, depth, false) == |Quote(s)| + End(rest, depth, false) {
      var closed := "\"" + rest;
      assert (Quote(s) + rest)[1..] == Escape(s) + closed;
      EscapeIsSkipped(s, closed, depth);
      assert closed[1..] == rest;
    }
  }

  lemma WholeConcat(t: string, u: string)
    requires Whole(t) && Whole(u)
    ensures Whole(t + u)
  {
    forall rest: string, depth: nat ensures End(t + u + rest, depth, false) == |t + u| + End(rest, depth, false) {
      assert t + u + rest == t + (u + rest);
    }
  }

  /** Letters, digits and numerals hold no quote, bracket or comma. */
  lemma {:induction false} PlainIsWhole(t: string)
    requires forall c :: c in t ==> c !in "\"[{,]}"
    ensures Whole(t)
    decreases |t|
  {
    forall rest: string, depth: nat ensures End(t + rest, depth, false) == |t| + End(rest, depth, false) {
      if t == [] {
        assert t + rest == rest;
      } else {
        assert t[0] in t && forall c :: c in t[1..] ==> c in t;
        PlainIsWhole(t[1..]);
        assert (t + rest)[1..] == t[1..] + rest;
      }
    }
  }

  /** Brackets hide the commas of what they hold. */
  lemma {:induction false} JoinIsHidden(parts: seq<string>, rest: string, depth: nat)
    requires forall i | 0 <= i < |parts| :: Whole(parts[i])
    requires depth > 0
    ensures End(Join(parts) + rest, depth, false) == |Join(parts)| + End(rest, depth, false)
    decreases |parts|
  {
    if parts == [] {
      assert Join(parts) + rest == rest;
    } else if |parts| > 1 {
      var more := Join(parts[1..]) + rest;
      var tail := "," + more;
      assert Join(parts) + rest == parts[0] + tail;
      assert tail[1..] == more;
      JoinIsHidden(parts[1..], rest, depth);
    }
  }

  lemma BracketIsSkipped(open: char, body: string, close: char, rest: string, depth: nat)
    requires open == '[' || open == '{'
    requires close == ']' || close == '}'
    requires End(body + ([close] + rest), depth + 1, false) == |body| + End([close] + rest, depth + 1, false)
    ensures End([open] + (body + [close]) + rest, depth, false) == |body| + 2 + End(rest, depth, false)
  {
    var inner := body + ([close] + rest);
    assert [open] + (body + [close]) + rest == [open] + inner;
    assert ([open] + inner)[1..] == inner;
    assert ([close] + rest)[1..] == rest;
  }

  lemma BracketIsWhole(open: char, parts: seq<string>, close: char)
    requires forall i | 0 <= i < |parts| :: Whole(parts[i])
    requires open == '[' || open == '{'
    requires close == ']' || close == '}'
    ensures Whole([open] + (Join(parts) + [close]))
  {
    var body := Join(parts);
    forall rest: string, depth: nat
      ensures End([open] + (body + [close]) + rest, depth, false) == |body| + 2 + End(rest, depth, false)
    {
      hide Join, End;
      JoinIsHidden(parts, [close] + rest, depth + 1);
      BracketIsSkipped(open, body, close, rest, depth);
    }
  }

  lemma MemberIsWhole(member: (string, string))
    requires Whole(member.1)
    ensures Whole(MemberText(member))
  {
    QuoteIsWhole(member.0);
    PlainIsWhole(":");
    WholeConcat(":", member.1);
    WholeConcat(Quote(member.0), ":" + member.1);
  }

  function ItemTexts(items: seq<Json>): (texts: seq<string>)
    ensures |texts| == |items|
  {
    seq(|items|, i requires 0 <= i < |items| => Text(items[i]))
  }

  function Members(fields: seq<(string, Json)>): (members: seq<(string, string)>)
    ensures |members| == |fields|
  {
    seq(|fields|, i requires 0 <= i < |fields| => (fields[i].0, Text(fields[i].1)))
  }

  lemma TextOfArray(items: seq<Json>)
    ensures Text(Array(items)) == "[" + (Join(ItemTexts(items)) + "]")
  {
    assert ItemTexts(items) == seq(|items|, i requires 0 <= i < |items| => Text(items[i]));
  }

  lemma TextOfObject(fields: seq<(string, Json)>)
    ensures Text(Object(fields)) == "{" + (Join(MemberTexts(SortByName(Members(fields)))) + "}")
  {
    assert Members(fields) ==
      seq(|fields|, i requires 0 <= i < |fields| => (fields[i].0, Text(fields[i].1)));
  }

  /** Every member of the sorted listing is a field, and the other way round. */
  lemma SortedMembers(fields: seq<(string, Json)>)
    ensures |SortByName(Members(fields))| == |fields|
    ensures forall m :: m in SortByName(Members(fields)) <==> m in Members(fields)
  {
    var sorted := SortByName(Members(fields));
    assert |multiset(sorted)| == |sorted|;
    forall m ensures m in sorted <==> m in Members(fields) {
      assert m in sorted <==> m in multiset(sorted);
      assert m in Members(fields) <==> m in multiset(Members(fields));
    }
  }

  /** The text of a value ends where its own brackets and quotes end. */
  lemma {:induction false} TextIsWhole(j: Json)
    requires WellFormed(j)
    ensures Whole(Text(j)) && Text(j) != []
    decreases j
  {
    match j {
      case Null => PlainIsWhole("null");
      case Bool(b) => PlainIsWhole("true"); PlainIsWhole("false");
      case Number(n) => PlainIsWhole(n);
      case String(s) => QuoteIsWhole(s);
      case Array(items) =>
        TextOfArray(items);
        forall i | 0 <= i < |items| ensures Whole(ItemTexts(items)[i]) { TextIsWhole(items[i]); }
        BracketIsWhole('[', ItemTexts(items), ']');
      case Object(fields) =>
        TextOfObject(fields);
        SortedMembers(fields);
        var sorted := SortByName(Members(fields));
        forall i | 0 <= i < |sorted| ensures Whole(MemberTexts(sorted)[i]) {
          assert sorted[i] in Members(fields);
          var k :| 0 <= k < |fields| && Members(fields)[k] == sorted[i];
          TextIsWhole(fields[k].1);
          MemberIsWhole(sorted[i]);
        }
        BracketIsWhole('{', MemberTexts(sorted), '}');
    }
  }

  // ---- the text determines the value ----------------------------------------------------------

  /** The code of one character, including the closing quote, is never the start of another's. */
  lemma EscapeCharIsCode(c: char, d: char, x: string, y: string)
    requires EscapeChar(c) + x == EscapeChar(d) + y
    ensures c == d && x == y
  {
    var e, f := EscapeChar(c), EscapeChar(d);
    var s := e + x;
    assert s[0] == e[0] == f[0];
    assert |e| > 1 ==> s[1] == e[1];
    assert |f| > 1 ==> s[1] == f[1];
    assert |e| > 2 ==> s[4] == e[4] && s[5] == e[5];
    assert |f| > 2 ==> s[4] == f[4] && s[5] == f[5];
    assert |e| == |f|;
    assert x == s[|e|..] && y == s[|f|..];
  }

  lemma EscapeIsNoQuote(c: char, x: string, y: string)
    ensures EscapeChar(c) + x != "\"" + y
  {
    assert (EscapeChar(c) + x)[0] != '"';
  }

  /** A quoted name can be split off again. */
  lemma {:induction false} QuoteIsCode(s: string, t: string, x: string, y: string)
    requires Escape(s) + ("\"" + x) == Escape(t) + ("\"" + y)
    ensures s == t && x == y
    decreases |s|
  {
    hide EscapeChar;
    var qx, qy := "\"" + x, "\"" + y;
    assert s != [] ==> Escape(s) + qx == EscapeChar(s[0]) + (Escape(s[1..]) + qx);
    assert t != [] ==> Escape(t) + qy == EscapeChar(t[0]) + (Escape(t[1..]) + qy);
    if s == [] && t == [] {
      assert Escape(s) + qx == qx && Escape(t) + qy == qy;
      assert x == qx[1..] && y == qy[1..];
    } else if s == [] {
      EscapeIsNoQuote(t[0], Escape(t[1..]) + qy, x);
    } else if t == [] {
      EscapeIsNoQuote(s[0], Escape(s[1..]) + qx, y);
    } else {
      EscapeCharIsCode(s[0], t[0], Escape(s[1..]) + qx, Escape(t[1..]) + qy);
      QuoteIsCode(s[1..], t[1..], x, y);
      assert s == [s[0]] + s[1..] && t == [t[0]] + t[1..];
    }
  }

  lemma MemberTail(m: (string, string), x: string)
    requires x == ":" + m.1
    ensures MemberText(m)[1..] == Escape(m.0) + ("\"" + x)
  {
    hide Escape;
    assert MemberText(m) == "\"" + (Escape(m.0) + ("\"" + x));
  }

  lemma MemberIsCode(m: (string, string), n: (string, string))
    requires MemberText(m) == MemberText(n)
    ensures m == n
  {
    hide Escape;
    var x, y := ":" + m.1, ":" + n.1;
    MemberTail(m, x);
    MemberTail(n, y);
    QuoteIsCode(m.0, n.0, x, y);
    assert m.1 == x[1..] && n.1 == y[1..];
  }

  /** Joined texts come apart again. */
  lemma {:induction false} JoinIsCode(parts: seq<string>, others: seq<string>)
    requires forall i | 0 <= i < |parts| :: Whole(parts[i]) && parts[i] != []
    requires forall i | 0 <= i < |others| :: Whole(others[i]) && others[i] != []
    requires Join(parts) == Join(others)
    ensures parts == others
    decreases |parts|
  {
    if parts != [] && others != [] {
      var x := if |parts| == 1 then [] else "," + Join(parts[1..]);
      var y := if |others| == 1 then [] else "," + Join(others[1..]);
      assert Join(parts) == parts[0] + x && Join(others) == others[0] + y;
      OneSplit(parts[0], others[0], x, y);
      if |parts| > 1 {
        assert Join(parts[1..]) == x[1..] && Join(others[1..]) == y[1..];
        JoinIsCode(parts[1..], others[1..]);
      }
      assert parts == [parts[0]] + parts[1..] && others == [others[0]] + others[1..];
    }
  }

  lemma MembersAreDistinct(fields: seq<(string, Json)>)
    requires WellFormed(Object(fields))
    ensures DistinctNames(Members(fields))
  {
  }

  /** Two objects have the same text exactly when they have the same members. */
  lemma ObjectTexts(f: seq<(string, Json)>, g: seq<(string, Json)>)
    requires WellFormed(Object(f)) && WellFormed(Object(g))
    ensures Text(Object(f)) == Text(Object(g)) <==>
            forall m :: m in Members(f) <==> m in Members(g)
    ensures Text(Object(f)) == Text(Object(g)) ==> |f| == |g|
  {
    hide WellFormed, Text, Whole;
    var s, t := SortByName(Members(f)), SortByName(Members(g));
    MembersAreDistinct(f);
    MembersAreDistinct(g);
    SortIsSorted(Members(f));
    SortIsSorted(Members(g));
    SortedMembers(f);
    SortedMembers(g);
    TextOfObject(f);
    TextOfObject(g);
    if forall m :: m in Members(f) <==> m in Members(g) {
      SortedIsUnique(s, t);
    }
    if Text(Object(f)) == Text(Object(g)) {
      MemberTextsAreWhole(f);
      MemberTextsAreWhole(g);
      SameBrackets(Join(MemberTexts(s)), Join(MemberTexts(t)), '{', '}');
      JoinIsCode(MemberTexts(s), MemberTexts(t));
      MemberTextsAreCodes(s, t);
    }
  }

  lemma MemberTextsAreCodes(s: seq<(string, string)>, t: seq<(string, string)>)
    requires MemberTexts(s) == MemberTexts(t)
    ensures s == t
  {
    hide MemberText;
    assert |s| == |MemberTexts(s)| == |t|;
    forall i | 0 <= i < |s| ensures s[i] == t[i] {
      assert MemberTexts(s)[i] == MemberTexts(t)[i];
      MemberIsCode(s[i], t[i]);
    }
  }

  lemma SameBrackets(x: string, y: string, open: char, close: char)
    requires [open] + (x + [close]) == [open] + (y + [close])
    ensures x == y
  {
    assert x == ([open] + (x + [close]))[1..][..|x|];
    assert y == ([open] + (y + [close]))[1..][..|y|];
  }

  lemma MemberTextsAreWhole(fields: seq<(string, Json)>)
    requires WellFormed(Object(fields))
    ensures var texts := MemberTexts(SortByName(Members(fields)));
            forall i | 0 <= i < |texts| :: Whole(texts[i]) && texts[i] != []
  {
    SortedMembers(fields);
    var sorted := SortByName(Members(fields));
    forall i | 0 <= i < |sorted| ensures Whole(MemberTexts(sorted)[i]) && MemberTexts(sorted)[i] != [] {
      assert sorted[i] in Members(fields);
      var k :| 0 <= k < |fields| && Members(fields)[k] == sorted[i];
      hide Whole;
      TextIsWhole(fields[k].1);
      MemberIsWhole(sorted[i]);
    }
  }

  /** The first character tells the shapes apart. */
  lemma TextStart(j: Json)
    requires WellFormed(j)
    ensures Text(j) != []
    ensures j.Null? <==> Text(j)[0] == 'n'
    ensures j.Bool? <==> Text(j)[0] in "tf"
    ensures j.String? <==> Text(j)[0] == '"'
    ensures j.Array? <==> Text(j)[0] == '['
    ensures j.Object? <==> Text(j)[0] == '{'
  {
    if j.Array? { TextOfArray(j.items); }
    if j.Object? { TextOfObject(j.fields); }
  }

  /** The text depends on nothing but the value, and not on the order of fields. */
  lemma {:induction false} TextOfSame(a: Json, b: Json)
    requires WellFormed(a) && WellFormed(b)
    requires Same(a, b)
    ensures Text(a) == Text(b)
    decreases a
  {
    match (a, b) {
      case (Array(xs), Array(ys)) =>
        forall i | 0 <= i < |xs| ensures Text(xs[i]) == Text(ys[i]) { TextOfSame(xs[i], ys[i]); }
        assert ItemTexts(xs) == ItemTexts(ys);
        TextOfArray(xs);
        TextOfArray(ys);
      case (Object(f), Object(g)) =>
        forall i | 0 <= i < |f| ensures Members(f)[i] in Members(g) {
          var k :| 0 <= k < |g| && f[i].0 == g[k].0 && Same(f[i].1, g[k].1);
          TextOfSame(f[i].1, g[k].1);
          assert Members(g)[k] == Members(f)[i];
        }
        MembersAreDistinct(f);
        MembersAreDistinct(g);
        SameSize(Members(f), Members(g));
        ObjectTexts(f, g);
      case _ =>
    }
  }

  /** As many distinct members, all of them shared: then they share all. */
  lemma SameSize(s: seq<(string, string)>, t: seq<(string, string)>)
    requires DistinctNames(s) && DistinctNames(t) && |s| == |t|
    requires forall i | 0 <= i < |s| :: s[i] in t
    ensures forall m :: m in s <==> m in t
  {
    var left, right := set m | m in s, set m | m in t;
    Size(s);
    Size(t);
    assert left <= right;
    SubsetOfSize(left, right);
    assert forall m :: m in s <==> m in left;
    assert forall m :: m in t <==> m in right;
  }

  lemma {:induction false} Size(s: seq<(string, string)>)
    requires DistinctNames(s)
    ensures |set m | m in s| == |s|
    decreases |s|
  {
    if s != [] {
      var all, rest := set m | m in s, set m | m in s[1..];
      Size(s[1..]);
      assert s == [s[0]] + s[1..];
      assert all == {s[0]} + rest;
    }
  }

  lemma SubsetOfSize<T>(a: set<T>, b: set<T>)
    requires a <= b && |a| == |b|
    ensures a == b
  {
    assert b == a + (b - a);
  }

  lemma {:induction false} SameOfText(a: Json, b: Json)
    requires WellFormed(a) && WellFormed(b)
    requires Text(a) == Text(b)
    ensures Same(a, b)
    decreases a
  {
    ShapeOfText(a, b);
    hide Text;
    match (a, b) {
      case (Array(xs), Array(ys)) =>
        ArrayTexts(xs, ys);
        forall i | 0 <= i < |xs| ensures Same(xs[i], ys[i]) { SameOfText(xs[i], ys[i]); }
      case (Object(f), Object(g)) =>
        MatchingMembers(f, g);
        forall i | 0 <= i < |f| ensures exists k | 0 <= k < |g| :: f[i].0 == g[k].0 && Same(f[i].1, g[k].1) {
          var k :| 0 <= k < |g| && f[i].0 == g[k].0 && Text(f[i].1) == Text(g[k].1);
          SameOfText(f[i].1, g[k].1);
        }
      case _ =>
    }
  }

  /** The text tells arrays and objects from each other and from anything else, which it is. */
  lemma ShapeOfText(a: Json, b: Json)
    requires WellFormed(a) && WellFormed(b) && Text(a) == Text(b)
    ensures a.Array? == b.Array? && a.Object? == b.Object?
    ensures !a.Array? && !a.Object? ==> a == b
  {
    TextStart(a);
    TextStart(b);
    if a.String? { StringTexts(a.text, b.text); }
  }

  lemma MatchingMembers(f: seq<(string, Json)>, g: seq<(string, Json)>)
    requires WellFormed(Object(f)) && WellFormed(Object(g))
    requires Text(Object(f)) == Text(Object(g))
    ensures |f| == |g|
    ensures forall i | 0 <= i < |f| :: exists k | 0 <= k < |g| :: f[i].0 == g[k].0 && Text(f[i].1) == Text(g[k].1)
  {
    ObjectTexts(f, g);
    hide Text, WellFormed;
    forall i | 0 <= i < |f| ensures exists k | 0 <= k < |g| :: f[i].0 == g[k].0 && Text(f[i].1) == Text(g[k].1) {
      assert Members(f)[i] in Members(g);
      var k :| 0 <= k < |g| && Members(g)[k] == Members(f)[i];
    }
  }

  lemma StringTexts(s: string, t: string)
    requires Quote(s) == Quote(t)
    ensures s == t
  {
    hide Escape;
    assert Quote(s)[1..] == Escape(s) + ("\"" + []) && Quote(t)[1..] == Escape(t) + ("\"" + []);
    QuoteIsCode(s, t, [], []);
  }

  lemma ArrayTexts(xs: seq<Json>, ys: seq<Json>)
    requires WellFormed(Array(xs)) && WellFormed(Array(ys))
    requires Text(Array(xs)) == Text(Array(ys))
    ensures |xs| == |ys| && forall i | 0 <= i < |xs| :: Text(xs[i]) == Text(ys[i])
  {
    TextOfArray(xs);
    TextOfArray(ys);
    SameBrackets(Join(ItemTexts(xs)), Join(ItemTexts(ys)), '[', ']');
    forall i | 0 <= i < |xs| ensures Whole(ItemTexts(xs)[i]) && ItemTexts(xs)[i] != [] { TextIsWhole(xs[i]); }
    forall i | 0 <= i < |ys| ensures Whole(ItemTexts(ys)[i]) && ItemTexts(ys)[i] != [] { TextIsWhole(ys[i]); }
    JoinIsCode(ItemTexts(xs), ItemTexts(ys));
    forall i | 0 <= i < |xs| ensures Text(xs[i]) == Text(ys[i]) {
      assert ItemTexts(xs)[i] == ItemTexts(ys)[i];
    }
  }

  function UpToSpace(s: string): string {
    if s == [] || s[0] == ' ' then [] else [s[0]] + UpToSpace(s[1..])
  }

  lemma {:induction false} FirstSpace(kind: string, rest: string)
    requires ' ' !in kind
    ensures UpToSpace(kind + " " + rest) == kind
    ensures rest == (kind + " " + rest)[|kind| + 1..]
  {
    if kind != [] {
      FirstSpace(kind[1..], rest);
      assert (kind + " " + rest)[1..] == kind[1..] + " " + rest;
    }
  }

  /** Questions have the same text exactly when they are the same question. A kind holds no
      space. */
  lemma SameQuestion(kind: string, key: Json, kind': string, key': Json)
    requires ' ' !in kind && ' ' !in kind'
    requires WellFormed(key) && WellFormed(key')
    ensures QuestionText(kind, key) == QuestionText(kind', key') <==> kind == kind' && Same(key, key')
  {
    if QuestionText(kind, key) == QuestionText(kind', key') {
      FirstSpace(kind, Text(key));
      FirstSpace(kind', Text(key'));
      SameOfText(key, key');
    }
    if kind == kind' && Same(key, key') {
      TextOfSame(key, key');
    }
  }
}
