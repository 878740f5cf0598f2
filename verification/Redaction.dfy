/** Replacing secrets in captured text, in place. */
module Redaction {
  import opened Strings = Text
  import opened Canonical

  const REDACTED := "[redacted]"

  const SecretKeys: seq<string> :=
    ["token", "password", "passwd", "secret", "api_key", "apikey", "api-key"]

  // ---- where a secret stands ----------------------------------------------------------------------

  /** `key` occurs at `i`, whatever its case. */
  predicate MatchAt(text: string, key: string, i: nat) {
    i + |key| <= |text| && Lower(text[i..i + |key|]) == key
  }

  /** A key written as a command line flag. */
  predicate IsFlag(text: string, i: nat)
    requires i <= |text|
  {
    i >= 2 && text[i - 2] == '-' && text[i - 1] == '-'
  }

  /** A separator follows the key at `i`. */
  predicate HasSeparator(text: string, key: string, i: nat)
    requires i + |key| <= |text|
  {
    && i + |key| < |text|
    && var c := text[i + |key|];
       c == '=' || c == ':' || (IsFlag(text, i) && IsWhitespace(c))
  }

  predicate IsSkipped(c: char) {
    c == ' ' || c == '\t' || c == '"' || c == '\''
  }

  predicate IsStop(c: char) {
    IsSkipped(c) || c == ',' || c == ';'
  }

  function ValueStart(text: string, p: nat): (q: nat)
    requires p <= |text|
    ensures p <= q <= |text|
    ensures forall k | p <= k < q :: IsSkipped(text[k])
    ensures q < |text| ==> !IsSkipped(text[q])
    decreases |text| - p
  {
    if p < |text| && IsSkipped(text[p]) then ValueStart(text, p + 1) else p
  }

  function ValueEnd(text: string, q: nat): (e: nat)
    requires q <= |text|
    ensures q <= e <= |text|
    ensures forall k | q <= k < e :: !IsStop(text[k])
    ensures e < |text| ==> IsStop(text[e])
    decreases |text| - q
  {
    if q < |text| && !IsStop(text[q]) then ValueEnd(text, q + 1) else q
  }

  /** The value that starts at `p`, behind the separator, is empty or redacted. */
  predicate CleanValue(text: string, p: nat)
    requires p <= |text|
  {
    var q := ValueStart(text, p);
    var e := ValueEnd(text, q);
    q == e || text[q..e] == REDACTED
  }

  /** Nothing is left to be said by the key at `i`: it is no key, or its value is empty or
      redacted. */
  predicate CleanAt(text: string, key: string, i: nat) {
    MatchAt(text, key, i) && HasSeparator(text, key, i) ==> CleanValue(text, i + |key| + 1)
  }

  predicate Clean(text: string, key: string) {
    forall i | 0 <= i < |text| :: CleanAt(text, key, i)
  }

  // ---- where a value is said to end -----------------------------------------------------------------

  /** The documented end: white space, a quote, a comma or a semicolon. */
  predicate IsDocumentedStop(c: char) {
    IsWhitespace(c) || IsStop(c)
  }

  function DocumentedEnd(text: string, q: nat): (e: nat)
    requires q <= |text|
    ensures q <= e <= |text|
    decreases |text| - q
  {
    if q < |text| && !IsDocumentedStop(text[q]) then DocumentedEnd(text, q + 1) else q
  }

  /** The value ends where it is said to iff there is no white space in it: a line break, or a
      white space other than blank and tab, does not end it. */
  lemma {:induction false} EndIsAsDocumentedIff(text: string, q: nat)
    requires q <= |text|
    ensures ValueEnd(text, q) == DocumentedEnd(text, q)
            <==> forall k | q <= k < ValueEnd(text, q) :: !IsWhitespace(text[k])
    ensures DocumentedEnd(text, q) <= ValueEnd(text, q)
    decreases |text| - q
  {
    if q < |text| && !IsStop(text[q]) {
      EndIsAsDocumentedIff(text, q + 1);
    }
  }

  /** So the word that begins the next line is taken for a part of the value. */
  lemma LineBreakIsSwallowed()
    ensures var text := "token=a\nb c";
            && ValueStart(text, 6) == 6 && DocumentedEnd(text, 6) == 7 && ValueEnd(text, 6) == 9
            && Pass(text, "token", 0, false) == Redacted("token=[redacted] c", true)
  {
    var text := "token=a\nb c";
    SwallowedEnd(text);
    TokenAtStart(text);
    assert Replace(text, 6, 9) == "token=[redacted] c";
    NoMoreTokens("token=[redacted] c");
    hide ValueStart, ValueEnd, DocumentedEnd, MatchAt, HasSeparator, Replace, Pass;
    PassStep(text, "token", 0, false);
  }

  lemma SwallowedEnd(text: string)
    requires text == "token=a\nb c"
    ensures ValueStart(text, 6) == 6 && DocumentedEnd(text, 6) == 7 && ValueEnd(text, 6) == 9
  {
    assert text[6] == 'a' && text[7] == '\n' && text[8] == 'b' && text[9] == ' ';
    StartIs(text, 6, 6);
    EndIs(text, 6, 9);
    assert IsDocumentedStop(text[7]) && !IsDocumentedStop(text[6]);
    assert DocumentedEnd(text, 7) == 7;
  }

  lemma TokenAtStart(text: string)
    requires text == "token=a\nb c"
    ensures FindKey(text, "token", 0) == 0 && HasSeparator(text, "token", 0)
  {
    assert text[0..5] == "token" && Lower("token") == "token" && text[5] == '=';
    assert MatchAt(text, "token", 0);
  }

  lemma NoMoreTokens(text: string)
    requires text == "token=[redacted] c"
    ensures Pass(text, "token", 16, true) == Redacted(text, true)
  {
    PassStep(text, "token", 16, true);
    assert !MatchAt(text, "token", 16) && !MatchAt(text, "token", 17);
    assert FindKey(text, "token", 16) == FindKey(text, "token", 17) == 18;
  }

  // ---- the passes -----------------------------------------------------------------------------------

  /** The first place from `from` on where `key` occurs; the length of the text if none. */
  function FindKey(text: string, key: string, from: nat): (i: nat)
    requires from <= |text| && key != []
    ensures from <= i <= |text|
    ensures i < |text| ==> MatchAt(text, key, i) && i + |key| <= |text|
    ensures forall k | from <= k < i :: !MatchAt(text, key, k)
    decreases |text| - from
  {
    if from == |text| || MatchAt(text, key, from) then from else FindKey(text, key, from + 1)
  }

  datatype Redacted = Redacted(text: string, changed: bool)

  function Replace(text: string, q: nat, e: nat): (r: string)
    requires q <= e <= |text|
    ensures |r| - (q + |REDACTED|) == |text| - e
  {
    text[..q] + REDACTED + text[e..]
  }

  /** One key, from `from` on. */
  function Pass(text: string, key: string, from: nat, changed: bool): Redacted
    requires from <= |text| && key != []
    decreases |text| - from
  {
    var i := FindKey(text, key, from);
    if i == |text| then Redacted(text, changed)
    else if !HasSeparator(text, key, i) then Pass(text, key, i + |key|, changed)
    else
      var q := ValueStart(text, i + |key| + 1);
      var e := ValueEnd(text, q);
      if q == e then Pass(text, key, i + |key|, changed)
      else Pass(Replace(text, q, e), key, q + |REDACTED|, true)
  }

  /** What the seven keys have in common: no letter of a key occurs in it again after the first,
      and each has a letter that "[redacted]" has not. */
  predicate IsSecretKey(key: string) {
    && key != []
    && (forall c :: c in key ==> 'a' <= c <= 'z' || c == '_' || c == '-')
    && (forall k | 0 < k < |key| :: key[k] != key[0])
    && exists k | 0 <= k < |key| :: IsTelling(key[k])
  }

  predicate AreSecretKeys(keys: seq<string>) {
    forall n | 0 <= n < |keys| :: IsSecretKey(keys[n])
  }

  function Passes(text: string, keys: seq<string>, changed: bool): Redacted
    requires AreSecretKeys(keys)
    decreases |keys|
  {
    if keys == [] then Redacted(text, changed)
    else
      var first := Pass(text, keys[0], 0, changed);
      Passes(first.text, keys[1..], first.changed)
  }

  lemma KeyFacts()
    ensures AreSecretKeys(SecretKeys)
  {
    assert IsTelling("token"[1]) && IsTelling("password"[0]) && IsTelling("passwd"[0]);
    assert IsTelling("secret"[0]) && IsTelling("api_key"[1]) && IsTelling("apikey"[1]) && IsTelling("api-key"[1]);
  }

  function RedactedText(text: string): Redacted {
    KeyFacts();
    Passes(text, SecretKeys, false)
  }

  /** `redact_secret_string`: the text is rewritten while it is scanned. */
  method RedactSecretString(original: string) returns (text: string, redacted: bool)
    ensures Redacted(text, redacted) == RedactedText(original)
  {
    KeyFacts();
    hide IsSecretKey, MatchAt, HasSeparator;
    text := original;
    redacted := false;
    var n := 0;
    while n < |SecretKeys|
      invariant 0 <= n <= |SecretKeys|
      invariant Passes(text, SecretKeys[n..], redacted) == Passes(original, SecretKeys, false)
    {
      var key := SecretKeys[n];
      assert SecretKeys[n..][0] == key && SecretKeys[n..][1..] == SecretKeys[n + 1..];
      text, redacted := RedactKey(text, key, redacted);
      n := n + 1;
    }
  }

  method RedactKey(original: string, key: string, already: bool) returns (text: string, redacted: bool)
    requires key != []
    ensures Redacted(text, redacted) == Pass(original, key, 0, already)
  {
    hide MatchAt, HasSeparator, Replace, ValueStart, ValueEnd, Pass;
    text := original;
    redacted := already;
    var searchFrom: nat := 0;
    var found := FindKey(text, key, searchFrom);
    while found < |text|
      invariant searchFrom <= |text| && found == FindKey(text, key, searchFrom)
      invariant Pass(text, key, searchFrom, redacted) == Pass(original, key, 0, already)
      decreases |text| - searchFrom
    {
      PassStep(text, key, searchFrom, redacted);
      if !HasSeparator(text, key, found) {
        searchFrom := found + |key|;
      } else {
        var start := ValueStart(text, found + |key| + 1);
        var end := ValueEnd(text, start);
        if start == end {
          searchFrom := found + |key|;
        } else {
          text := Replace(text, start, end);
          redacted := true;
          searchFrom := start + |REDACTED|;
        }
      }
      found := FindKey(text, key, searchFrom);
    }
    PassStep(text, key, searchFrom, redacted);
  }

  lemma PassStep(text: string, key: string, from: nat, changed: bool)
    requires from <= |text| && key != []
    ensures Pass(text, key, from, changed) ==
            var i := FindKey(text, key, from);
            if i == |text| then Redacted(text, changed)
            else if !HasSeparator(text, key, i) then Pass(text, key, i + |key|, changed)
            else
              var q := ValueStart(text, i + |key| + 1);
              var e := ValueEnd(text, q);
              if q == e then Pass(text, key, i + |key|, changed)
              else Pass(Replace(text, q, e), key, q + |REDACTED|, true)
  {
    hide MatchAt, HasSeparator, ValueStart, ValueEnd, Replace, FindKey;
  }

  // ---- a replacement spoils nothing -----------------------------------------------------------------

  /** Where the value of an occurrence may stand: after a separator or a skipped character, up to
      a stop. */
  predicate IsValue(text: string, q: nat, e: nat) {
    && 0 < q < e <= |text|
    && (text[q - 1] == '=' || text[q - 1] == ':' || IsWhitespace(text[q - 1]) || IsSkipped(text[q - 1]))
    && !IsSkipped(text[q])
    && (forall k | q <= k < e :: !IsStop(text[k]))
    && (e < |text| ==> IsStop(text[e]))
  }

  lemma ValueIsValue(text: string, key: string, i: nat)
    requires key != [] && MatchAt(text, key, i) && HasSeparator(text, key, i)
    ensures var q := ValueStart(text, i + |key| + 1);
            var e := ValueEnd(text, q);
            q < e ==> IsValue(text, q, e)
  {
  }

  lemma StartIs(text: string, p: nat, q: nat)
    requires p <= q <= |text|
    requires forall k | p <= k < q :: IsSkipped(text[k])
    requires q < |text| ==> !IsSkipped(text[q])
    ensures ValueStart(text, p) == q
  {
  }

  lemma EndIs(text: string, q: nat, e: nat)
    requires q <= e <= |text|
    requires forall k | q <= k < e :: !IsStop(text[k])
    requires e < |text| ==> IsStop(text[e])
    ensures ValueEnd(text, q) == e
  {
  }

  /** In the new text a key lies wholly before the replaced value or wholly behind it. */
  lemma NoMatchAcross(text: string, q: nat, e: nat, key: string, i: nat)
    requires IsSecretKey(key) && IsValue(text, q, e)
    requires MatchAt(Replace(text, q, e), key, i)
    ensures i + |key| < q || i > q + |REDACTED|
  {
    var after := Replace(text, q, e);
    var r := q + |REDACTED|;
    assert forall k | 0 <= k < q :: after[k] == text[k];
    assert forall k | q <= k < r :: after[k] == REDACTED[k - q];
    assert e < |text| ==> after[r] == text[e];
    assert IsForeign(after[q - 1]) && after[q] == '[' && after[r - 1] == ']';
    assert r < |after| ==> IsForeign(after[r]);
    KeyIsNotForeign(after, key, i);
    var n := TellingLetter(after, key, i);
    assert forall k | 0 <= k < |REDACTED| :: !IsTelling(LowerChar(REDACTED[k]));
  }

  /** A character no key has. */
  predicate IsForeign(c: char) {
    c == '=' || c == ':' || c == '[' || c == ']' || IsWhitespace(c) || IsStop(c)
  }

  lemma KeyIsNotForeign(text: string, key: string, i: nat)
    requires IsSecretKey(key) && MatchAt(text, key, i)
    ensures forall n | i <= n < i + |key| :: !IsForeign(text[n])
  {
    forall n | i <= n < i + |key| ensures !IsForeign(text[n]) {
      assert Lower(text[i..i + |key|])[n - i] == LowerChar(text[n]) == key[n - i] && key[n - i] in key;
    }
  }

  predicate IsTelling(c: char) {
    c == 'o' || c == 'p' || c == 's'
  }

  lemma TellingLetter(text: string, key: string, i: nat) returns (n: nat)
    requires IsSecretKey(key) && MatchAt(text, key, i)
    ensures i <= n < i + |key| && IsTelling(LowerChar(text[n]))
  {
    var k :| 0 <= k < |key| && IsTelling(key[k]);
    n := i + k;
    assert Lower(text[i..i + |key|])[k] == LowerChar(text[n]) == key[k];
  }

  /** A key before the value keeps a clean value, and one behind it is not touched. */
  lemma CleanValueBefore(text: string, q: nat, e: nat, p: nat)
    requires IsValue(text, q, e) && p <= q && CleanValue(text, p)
    ensures CleanValue(Replace(text, q, e), p)
  {
    hide IsWhitespace;
    var after := Replace(text, q, e);
    assert forall k | 0 <= k < q :: after[k] == text[k];
    var start := ValueStart(text, p);
    var end := ValueEnd(text, start);
    if start < q {
      StartIs(after, p, start);
      CleanValueEndsBefore(text, q, e, start, end);
      EndIs(after, start, end);
      assert after[start..end] == text[start..end];
    } else {
      StartIs(after, p, q);
      RedactedValueAt(text, q, e);
    }
  }

  lemma CleanValueEndsBefore(text: string, q: nat, e: nat, start: nat, end: nat)
    requires IsValue(text, q, e) && start < q && start <= end <= |text|
    requires start == end || text[start..end] == REDACTED
    ensures end < q
  {
    hide IsWhitespace;
    assert forall k | start <= k < end :: text[k] == text[start..end][k - start];
    RedactedIsUnbounded();
  }

  lemma RedactedIsUnbounded()
    ensures forall k | 0 <= k < |REDACTED| :: !Bounds(REDACTED[k])
  {
  }

  predicate Bounds(c: char) {
    c == '=' || c == ':' || IsWhitespace(c) || IsSkipped(c)
  }

  lemma SameMatch(text: string, i: nat, other: string, j: nat, key: string)
    requires i + |key| <= |text| && j + |key| <= |other|
    requires text[i..i + |key|] == other[j..j + |key|]
    ensures MatchAt(text, key, i) == MatchAt(other, key, j)
  {
  }

  lemma BeforeStaysClean(text: string, q: nat, e: nat, key: string, i: nat)
    requires IsSecretKey(key) && IsValue(text, q, e)
    requires i + |key| < q && CleanAt(text, key, i)
    ensures CleanAt(Replace(text, q, e), key, i)
  {
    hide IsSecretKey, CleanValue;
    var after := Replace(text, q, e);
    assert forall k | 0 <= k < q :: after[k] == text[k];
    assert after[i..i + |key|] == text[i..i + |key|];
    SameMatch(text, i, after, i, key);
    CleanEverywhereBefore(text, q, e, i + |key| + 1);
  }

  lemma CleanEverywhereBefore(text: string, q: nat, e: nat, p: nat)
    requires IsValue(text, q, e) && p <= q
    ensures CleanValue(text, p) ==> CleanValue(Replace(text, q, e), p)
  {
    if CleanValue(text, p) {
      CleanValueBefore(text, q, e, p);
    }
  }

  lemma RedactedValueAt(text: string, q: nat, e: nat)
    requires IsValue(text, q, e)
    ensures var after := Replace(text, q, e);
            ValueEnd(after, q) == q + |REDACTED| && after[q..q + |REDACTED|] == REDACTED
  {
    var after := Replace(text, q, e);
    var r := q + |REDACTED|;
    assert forall k | q <= k < r :: after[k] == REDACTED[k - q];
    assert e < |text| ==> after[r] == text[e];
    EndIs(after, q, r);
  }

  /** The value depends on what follows the separator, and on nothing else. */
  lemma SameValue(text: string, p: nat, other: string, o: nat)
    requires p <= |text| && o <= |other| && text[p..] == other[o..]
    ensures CleanValue(text, p) == CleanValue(other, o)
  {
    hide ValueStart, ValueEnd;
    var q := ValueStart(text, p);
    var e := ValueEnd(text, q);
    SameStart(text, p, other, o);
    assert text[q..] == text[p..][q - p..] && other[q - p + o..] == other[o..][q - p..];
    SameEnd(text, q, other, q - p + o);
    assert text[q..e] == text[q..][..e - q] && other[q - p + o..e - p + o] == other[q - p + o..][..e - q];
  }

  lemma SameStart(text: string, p: nat, other: string, o: nat)
    requires p <= |text| && o <= |other| && text[p..] == other[o..]
    ensures ValueStart(other, o) == ValueStart(text, p) - p + o
  {
    var q := ValueStart(text, p);
    assert forall k | p <= k < |text| :: text[k] == text[p..][k - p];
    assert forall k | o <= k < |other| :: other[k] == other[o..][k - o];
    assert |text| - p == |other| - o;
    StartIs(other, o, q - p + o);
  }

  lemma SameEnd(text: string, p: nat, other: string, o: nat)
    requires p <= |text| && o <= |other| && text[p..] == other[o..]
    ensures ValueEnd(other, o) == ValueEnd(text, p) - p + o
  {
    var e := ValueEnd(text, p);
    assert forall k | p <= k < |text| :: text[k] == text[p..][k - p];
    assert forall k | o <= k < |other| :: other[k] == other[o..][k - o];
    assert |text| - p == |other| - o;
    EndIs(other, o, e - p + o);
  }

  lemma BehindIsTheSame(text: string, q: nat, e: nat, key: string, i: nat)
    requires IsSecretKey(key) && IsValue(text, q, e)
    requires i > q + |REDACTED|
    requires i - (q + |REDACTED|) + e < |text| && CleanAt(text, key, i - (q + |REDACTED|) + e)
    ensures CleanAt(Replace(text, q, e), key, i)
  {
    hide IsSecretKey, CleanValue, Lower;
    var after := Replace(text, q, e);
    var r := q + |REDACTED|;
    var was := i - r + e;
    assert after[r..] == text[e..];
    if MatchAt(after, key, i) && HasSeparator(after, key, i) {
      assert after[i..i + |key|] == text[was..was + |key|];
      SameMatch(text, was, after, i, key);
      SameSeparator(text, was, after, i, e, r, key);
      assert text[was + |key| + 1..] == after[i + |key| + 1..];
      SameValue(text, was + |key| + 1, after, i + |key| + 1);
    }
  }

  /** Behind a stop, which is no dash, a key looks the same. */
  lemma SameSeparator(text: string, i: nat, other: string, j: nat, e: nat, r: nat, key: string)
    requires e < |text| && r < |other| && text[e..] == other[r..] && IsStop(text[e])
    requires e < i && i + |key| <= |text| && j == i - e + r && j + |key| <= |other|
    ensures HasSeparator(text, key, i) == HasSeparator(other, key, j)
  {
    assert forall k | e <= k < |text| :: text[k] == text[e..][k - e];
    assert forall k | r <= k < |other| :: other[k] == other[r..][k - r];
    assert text[e] == other[r];
  }

  /** What was clean stays clean when any value is redacted. */
  lemma ReplaceKeepsClean(text: string, q: nat, e: nat, key: string)
    requires IsSecretKey(key) && IsValue(text, q, e) && Clean(text, key)
    ensures Clean(Replace(text, q, e), key)
  {
    var after := Replace(text, q, e);
    var r := q + |REDACTED|;
    hide CleanAt, MatchAt;
    forall i | 0 <= i < |after| ensures CleanAt(after, key, i) {
      if MatchAt(after, key, i) {
        NoMatchAcross(text, q, e, key, i);
        if i < q {
          BeforeStaysClean(text, q, e, key, i);
        } else {
          BehindIsTheSame(text, q, e, key, i);
        }
      } else {
        NoMatchIsClean(after, key, i);
      }
    }
  }

  lemma NoMatchIsClean(text: string, key: string, i: nat)
    requires !MatchAt(text, key, i)
    ensures CleanAt(text, key, i)
  {
  }

  // ---- after the passes -------------------------------------------------------------------------------

  /** A key does not overlap itself. */
  lemma NoSelfOverlap(text: string, key: string, i: nat, n: nat)
    requires IsSecretKey(key) && MatchAt(text, key, i) && i < n < i + |key|
    ensures !MatchAt(text, key, n)
  {
    MatchLetters(text, key, i);
    if MatchAt(text, key, n) {
      MatchLetters(text, key, n);
    }
  }

  lemma MatchLetters(text: string, key: string, i: nat)
    requires MatchAt(text, key, i)
    ensures forall n | i <= n < i + |key| :: LowerChar(text[n]) == key[n - i]
  {
    forall n | i <= n < i + |key| ensures LowerChar(text[n]) == key[n - i] {
      assert Lower(text[i..i + |key|])[n - i] == LowerChar(text[n]);
    }
  }

  predicate CleanUpTo(text: string, key: string, n: nat)
    requires n <= |text|
  {
    forall i | 0 <= i < n :: CleanAt(text, key, i)
  }

  /** Passing over an occurrence with nothing to redact. */
  lemma SkipIsClean(text: string, key: string, from: nat, i: nat)
    requires IsSecretKey(key) && from <= i && MatchAt(text, key, i) && CleanAt(text, key, i)
    requires forall k | from <= k < i :: !MatchAt(text, key, k)
    requires i + |key| <= |text| && CleanUpTo(text, key, from)
    ensures CleanUpTo(text, key, i + |key|)
  {
    hide CleanAt, MatchAt, IsSecretKey;
    forall n | from <= n < i + |key| ensures CleanAt(text, key, n) {
      if n != i {
        if n > i { NoSelfOverlap(text, key, i, n); }
        NoMatchIsClean(text, key, n);
      }
    }
  }

  /** Between a key and its value there is no other. */
  lemma NoneBeforeValue(text: string, key: string, i: nat, n: nat)
    requires IsSecretKey(key) && MatchAt(text, key, i) && HasSeparator(text, key, i)
    requires i < n < ValueStart(text, i + |key| + 1)
    ensures !MatchAt(text, key, n)
  {
    if MatchAt(text, key, n) {
      if n < i + |key| {
        NoSelfOverlap(text, key, i, n);
      } else {
        hide MatchAt;
        KeyIsNotForeign(text, key, n);
      }
    }
  }

  /** Redacting a value leaves everything up to its end clean. */
  lemma ReplaceIsClean(text: string, key: string, from: nat, i: nat)
    requires IsSecretKey(key) && from <= i && MatchAt(text, key, i) && HasSeparator(text, key, i)
    requires forall k | from <= k < i :: !MatchAt(text, key, k)
    requires from <= |text| && CleanUpTo(text, key, from)
    requires var q := ValueStart(text, i + |key| + 1);
             q < ValueEnd(text, q)
    ensures var q := ValueStart(text, i + |key| + 1);
            CleanUpTo(Replace(text, q, ValueEnd(text, q)), key, q + |REDACTED|)
  {
    hide CleanAt, MatchAt, HasSeparator, ValueStart, ValueEnd, Replace, IsSecretKey;
    var q := ValueStart(text, i + |key| + 1);
    var e := ValueEnd(text, q);
    SecretKeyIsText(key);
    ValueIsValue(text, key, i);
    forall n: nat | n < q + |REDACTED| ensures CleanAt(Replace(text, q, e), key, n) {
      if n == i {
        JustRedacted(text, key, i);
      } else {
        CleanBeforeEnd(text, key, i, n);
      }
    }
  }

  /** Up to the end of the replaced value there is nothing new. */
  lemma CleanBeforeEnd(text: string, key: string, i: nat, n: nat)
    requires IsSecretKey(key) && MatchAt(text, key, i) && HasSeparator(text, key, i) && n != i
    requires var q := ValueStart(text, i + |key| + 1);
             q < ValueEnd(text, q) && IsValue(text, q, ValueEnd(text, q)) && n < q + |REDACTED|
    requires n < i && MatchAt(text, key, n) ==> CleanAt(text, key, n)
    ensures var q := ValueStart(text, i + |key| + 1);
            CleanAt(Replace(text, q, ValueEnd(text, q)), key, n)
  {
    hide CleanAt, MatchAt, HasSeparator, ValueStart, ValueEnd, IsSecretKey, IsValue, Replace;
    var q := ValueStart(text, i + |key| + 1);
    var e := ValueEnd(text, q);
    var after := Replace(text, q, e);
    if MatchAt(after, key, n) {
      NoMatchAcross(text, q, e, key, n);
      MatchedBefore(text, q, e, key, n);
      if n > i {
        NoneBeforeValue(text, key, i, n);
      } else {
        BeforeStaysClean(text, q, e, key, n);
      }
    } else {
      NoMatchIsClean(after, key, n);
    }
  }

  lemma MatchedBefore(text: string, q: nat, e: nat, key: string, n: nat)
    requires q <= e <= |text| && n + |key| < q && MatchAt(Replace(text, q, e), key, n)
    ensures MatchAt(text, key, n)
  {
    hide Lower;
    var after := Replace(text, q, e);
    assert after[..q] == text[..q];
    assert after[n..n + |key|] == after[..q][n..n + |key|] == text[n..n + |key|];
  }

  lemma JustRedacted(text: string, key: string, i: nat)
    requires key != [] && MatchAt(text, key, i) && HasSeparator(text, key, i)
    requires var q := ValueStart(text, i + |key| + 1);
             q < ValueEnd(text, q)
    ensures var q := ValueStart(text, i + |key| + 1);
            CleanAt(Replace(text, q, ValueEnd(text, q)), key, i)
  {
    hide MatchAt;
    var p := i + |key| + 1;
    var q := ValueStart(text, p);
    var e := ValueEnd(text, q);
    ValueIsValue(text, key, i);
    var after := Replace(text, q, e);
    assert forall k | 0 <= k < q :: after[k] == text[k];
    assert after[q] == '[';
    StartIs(after, p, q);
    RedactedValueAt(text, q, e);
  }

  lemma SecretKeyIsText(key: string)
    ensures IsSecretKey(key) ==> key != []
  {
  }

  lemma {:induction false} PassCleans(text: string, key: string, from: nat, changed: bool)
    requires IsSecretKey(key) && from <= |text| && CleanUpTo(text, key, from)
    ensures Clean(Pass(text, key, from, changed).text, key)
    decreases |text| - from
  {
    hide MatchAt, HasSeparator, Replace, Pass, CleanValue, IsSecretKey;
    assert IsSecretKey(key) ==> key != [] by { SecretKeyIsText(key); }
    PassStep(text, key, from, changed);
    var i := FindKey(text, key, from);
    if i == |text| {
      forall n | from <= n < i ensures CleanAt(text, key, n) { NoMatchIsClean(text, key, n); }
    } else if !HasSeparator(text, key, i) {
      SkipIsClean(text, key, from, i);
      PassCleans(text, key, i + |key|, changed);
    } else {
      var q := ValueStart(text, i + |key| + 1);
      var e := ValueEnd(text, q);
      if q == e {
        EmptyIsClean(text, i + |key| + 1);
        SkipIsClean(text, key, from, i);
        PassCleans(text, key, i + |key|, changed);
      } else {
        ReplaceIsClean(text, key, from, i);
        PassCleans(Replace(text, q, e), key, q + |REDACTED|, true);
      }
    }
  }

  lemma EmptyIsClean(text: string, p: nat)
    requires p <= |text| && ValueStart(text, p) == ValueEnd(text, ValueStart(text, p))
    ensures CleanValue(text, p)
  {
  }

  lemma {:induction false} PassKeepsClean(text: string, key: string, from: nat, changed: bool, other: string)
    requires IsSecretKey(key) && IsSecretKey(other) && from <= |text| && Clean(text, other)
    ensures Clean(Pass(text, key, from, changed).text, other)
    decreases |text| - from
  {
    hide MatchAt, HasSeparator, Replace, Pass, Clean;
    PassStep(text, key, from, changed);
    var i := FindKey(text, key, from);
    if i == |text| {
    } else if !HasSeparator(text, key, i) {
      PassKeepsClean(text, key, i + |key|, changed, other);
    } else {
      var q := ValueStart(text, i + |key| + 1);
      var e := ValueEnd(text, q);
      if q == e {
        PassKeepsClean(text, key, i + |key|, changed, other);
      } else {
        ValueIsValue(text, key, i);
        ReplaceKeepsClean(text, q, e, other);
        PassKeepsClean(Replace(text, q, e), key, q + |REDACTED|, true, other);
      }
    }
  }

  ghost predicate AllClean(text: string, keys: seq<string>) {
    forall n | 0 <= n < |keys| :: Clean(text, keys[n])
  }

  lemma {:induction false} PassesClean(text: string, keys: seq<string>, changed: bool, earlier: seq<string>)
    requires AreSecretKeys(keys) && AreSecretKeys(earlier) && AllClean(text, earlier)
    ensures AllClean(Passes(text, keys, changed).text, earlier + keys)
    decreases |keys|
  {
    hide Clean, Pass;
    if keys == [] {
      assert earlier + keys == earlier;
    } else {
      var key := keys[0];
      var first := Pass(text, key, 0, changed);
      PassCleansAll(text, key, changed);
      forall n | 0 <= n < |earlier| ensures Clean(first.text, earlier[n]) {
        PassKeepsClean(text, key, 0, changed, earlier[n]);
      }
      PassesClean(first.text, keys[1..], first.changed, earlier + [key]);
      assert earlier + [key] + keys[1..] == earlier + keys;
    }
  }

  lemma PassCleansAll(text: string, key: string, changed: bool)
    requires IsSecretKey(key)
    ensures Clean(Pass(text, key, 0, changed).text, key)
  {
    PassCleans(text, key, 0, changed);
  }

  lemma CleanIsReplacedByItself(text: string, key: string, i: nat)
    requires Clean(text, key) && key != [] && MatchAt(text, key, i) && HasSeparator(text, key, i)
    requires var q := ValueStart(text, i + |key| + 1);
             q < ValueEnd(text, q)
    ensures var q := ValueStart(text, i + |key| + 1);
            Replace(text, q, ValueEnd(text, q)) == text
  {
    hide MatchAt, HasSeparator;
    assert CleanAt(text, key, i);
    var q := ValueStart(text, i + |key| + 1);
    var e := ValueEnd(text, q);
    assert text == text[..q] + text[q..e] + text[e..];
  }

  /** Clean text is rewritten to itself. */
  lemma {:induction false} PassOfClean(text: string, key: string, from: nat, changed: bool)
    requires IsSecretKey(key) && from <= |text| && Clean(text, key)
    ensures Pass(text, key, from, changed).text == text
    decreases |text| - from
  {
    hide HasSeparator, Pass, MatchAt, Clean, ValueStart, ValueEnd, Replace, IsSecretKey;
    SecretKeyIsText(key);
    PassStep(text, key, from, changed);
    var i := FindKey(text, key, from);
    if i == |text| {
    } else if !HasSeparator(text, key, i) {
      PassOfClean(text, key, i + |key|, changed);
    } else {
      var q := ValueStart(text, i + |key| + 1);
      var e := ValueEnd(text, q);
      if q == e {
        PassOfClean(text, key, i + |key|, changed);
      } else {
        CleanIsReplacedByItself(text, key, i);
        PassOfClean(text, key, q + |REDACTED|, true);
      }
    }
  }

  lemma {:induction false} PassesOfClean(text: string, keys: seq<string>, changed: bool)
    requires AreSecretKeys(keys) && AllClean(text, keys)
    ensures Passes(text, keys, changed).text == text
    decreases |keys|
  {
    hide Clean, Pass;
    if keys != [] {
      PassOfClean(text, keys[0], 0, changed);
      PassesOfClean(text, keys[1..], Pass(text, keys[0], 0, changed).changed);
    }
  }

  /** Afterwards every key left in the text has an empty value or none but "[redacted]", and
      redacting once more changes nothing. */
  lemma RedactionIsComplete(text: string)
    ensures AllClean(RedactedText(text).text, SecretKeys)
    ensures RedactedText(RedactedText(text).text).text == RedactedText(text).text
    ensures AllClean(text, SecretKeys) <==> RedactedText(text).text == text
  {
    hide Clean, Passes;
    KeyFacts();
    PassesClean(text, SecretKeys, false, []);
    assert [] + SecretKeys == SecretKeys;
    PassesOfClean(RedactedText(text).text, SecretKeys, false);
    if AllClean(text, SecretKeys) {
      PassesOfClean(text, SecretKeys, false);
    }
  }

  // ---- and nothing else is changed ------------------------------------------------------------------------

  /** A key at `i` with a value to redact, or redacted already. */
  predicate HasValue(text: string, key: string, i: nat) {
    MatchAt(text, key, i) && HasSeparator(text, key, i) &&
    var q := ValueStart(text, i + |key| + 1);
    q < ValueEnd(text, q)
  }

  /** `after` is `before` with values of keys replaced, one at a time, `n` in all. */
  ghost predicate ReplacesValues(before: string, after: string, n: nat)
    decreases n
  {
    if n == 0 then after == before
    else
      exists key, i: nat :: key in SecretKeys && HasValue(before, key, i) &&
        var q := ValueStart(before, i + |key| + 1);
        ReplacesValues(Replace(before, q, ValueEnd(before, q)), after, n - 1)
  }

  lemma {:induction false} PassReplaces(text: string, key: string, from: nat, changed: bool) returns (n: nat)
    requires IsSecretKey(key) && key in SecretKeys && from <= |text|
    ensures ReplacesValues(text, Pass(text, key, from, changed).text, n)
    ensures Pass(text, key, from, changed).changed <==> changed || n > 0
    ensures n == 0 ==> forall i | from <= i < |text| :: !HasValue(text, key, i)
    decreases |text| - from
  {
    hide MatchAt, HasSeparator, Replace, Pass, IsSecretKey, ReplacesValues;
    SecretKeyIsText(key);
    PassStep(text, key, from, changed);
    var i := FindKey(text, key, from);
    if i == |text| {
      n := 0;
      NothingReplaced(text);
    } else {
      NoValueBetween(text, key, i);
      if !HasValue(text, key, i) {
        n := PassReplaces(text, key, i + |key|, changed);
      } else {
        var q := ValueStart(text, i + |key| + 1);
        var next := Replace(text, q, ValueEnd(text, q));
        n := PassReplaces(next, key, q + |REDACTED|, true);
        OneReplaced(text, key, i, Pass(text, key, from, changed).text, n);
        n := n + 1;
      }
    }
  }

  lemma NoValueBetween(text: string, key: string, i: nat)
    requires IsSecretKey(key) && MatchAt(text, key, i)
    ensures forall k | i < k < i + |key| :: !HasValue(text, key, k)
  {
    hide MatchAt, IsSecretKey;
    forall k | i < k < i + |key| ensures !HasValue(text, key, k) { NoSelfOverlap(text, key, i, k); }
  }

  lemma NothingReplaced(text: string)
    ensures ReplacesValues(text, text, 0)
  {
  }

  lemma OneReplaced(text: string, key: string, i: nat, after: string, n: nat)
    requires key in SecretKeys && HasValue(text, key, i)
    requires var q := ValueStart(text, i + |key| + 1);
             ReplacesValues(Replace(text, q, ValueEnd(text, q)), after, n)
    ensures ReplacesValues(text, after, n + 1)
  {
  }

  lemma {:induction false} ReplacesBoth(before: string, middle: string, after: string, n: nat, m: nat)
    requires ReplacesValues(before, middle, n) && ReplacesValues(middle, after, m)
    ensures ReplacesValues(before, after, n + m)
    decreases n
  {
    hide ReplacesValues, HasValue, Replace, ValueStart, ValueEnd;
    if n > 0 {
      var key, i := FirstReplaced(before, middle, n);
      var q := ValueStart(before, i + |key| + 1);
      ReplacesBoth(Replace(before, q, ValueEnd(before, q)), middle, after, n - 1, m);
      OneReplaced(before, key, i, after, n - 1 + m);
    } else {
      ZeroReplaced(before, middle);
    }
  }

  lemma FirstReplaced(before: string, after: string, n: nat) returns (key: string, i: nat)
    requires n > 0 && ReplacesValues(before, after, n)
    ensures key in SecretKeys && i + |key| < |before| && HasValue(before, key, i)
    ensures var q := ValueStart(before, i + |key| + 1);
            ReplacesValues(Replace(before, q, ValueEnd(before, q)), after, n - 1)
  {
    key, i :| key in SecretKeys && HasValue(before, key, i) &&
      var q := ValueStart(before, i + |key| + 1);
      ReplacesValues(Replace(before, q, ValueEnd(before, q)), after, n - 1);
  }

  lemma {:induction false} PassesReplace(text: string, keys: seq<string>, changed: bool) returns (n: nat)
    requires AreSecretKeys(keys) && forall k | 0 <= k < |keys| :: keys[k] in SecretKeys
    ensures ReplacesValues(text, Passes(text, keys, changed).text, n)
    ensures Passes(text, keys, changed).changed <==> changed || n > 0
    ensures n == 0 ==> forall k, i | 0 <= k < |keys| && 0 <= i < |text| :: !HasValue(text, keys[k], i)
    decreases |keys|
  {
    hide HasValue, Pass, ReplacesValues;
    if keys == [] {
      n := 0;
      NothingReplaced(text);
    } else {
      var first := Pass(text, keys[0], 0, changed);
      var a := PassReplaces(text, keys[0], 0, changed);
      var b := PassesReplace(first.text, keys[1..], first.changed);
      ReplacesBoth(text, first.text, Passes(text, keys, changed).text, a, b);
      n := a + b;
      if n == 0 {
        ZeroReplaced(text, first.text);
        forall k, i | 0 <= k < |keys| && 0 <= i < |text| ensures !HasValue(text, keys[k], i) {
          assert k > 0 ==> keys[k] == keys[1..][k - 1];
        }
      }
    }
  }

  lemma ZeroReplaced(before: string, after: string)
    requires ReplacesValues(before, after, 0)
    ensures before == after
  {
  }

  /** Only values of secret keys are replaced, and the text is reported as redacted exactly when
      some key in it had a value. */
  lemma OnlyValuesAreReplaced(text: string)
    ensures exists n: nat :: ReplacesValues(text, RedactedText(text).text, n)
    ensures RedactedText(text).changed <==>
            exists k, i | 0 <= k < |SecretKeys| && 0 <= i < |text| :: HasValue(text, SecretKeys[k], i)
  {
    hide HasValue, Passes, ReplacesValues;
    KeyFacts();
    var n := PassesReplace(text, SecretKeys, false);
    assert ReplacesValues(text, RedactedText(text).text, n);
    if n > 0 {
      var key, i := FirstReplaced(text, RedactedText(text).text, n);
      var k :| 0 <= k < |SecretKeys| && SecretKeys[k] == key;
      assert HasValue(text, SecretKeys[k], i);
    }
  }

  // ---- whole documents ------------------------------------------------------------------------------------

  /** `redact_secrets`: every string value, at any depth; names of fields are kept. */
  function RedactedTree(j: Json): Json {
    match j
    case String(text) => String(RedactedText(text).text)
    case Array(items) => Array(seq(|items|, i requires 0 <= i < |items| => RedactedTree(items[i])))
    case Object(fields) =>
      Object(seq(|fields|, i requires 0 <= i < |fields| => (fields[i].0, RedactedTree(fields[i].1))))
    case _ => j
  }

  predicate TreeChanged(j: Json) {
    match j
    case String(text) => RedactedText(text).changed
    case Array(items) => exists i | 0 <= i < |items| :: TreeChanged(items[i])
    case Object(fields) => exists i | 0 <= i < |fields| :: TreeChanged(fields[i].1)
    case _ => false
  }

  ghost predicate TreeClean(j: Json) {
    match j
    case String(text) => AllClean(text, SecretKeys)
    case Array(items) => forall i | 0 <= i < |items| :: TreeClean(items[i])
    case Object(fields) => forall i | 0 <= i < |fields| :: TreeClean(fields[i].1)
    case _ => true
  }

  lemma UnchangedText(text: string)
    requires !RedactedText(text).changed
    ensures RedactedText(text).text == text
  {
    hide Passes;
    KeyFacts();
    var n := PassesReplace(text, SecretKeys, false);
    ZeroReplaced(text, RedactedText(text).text);
  }

  /** A redacted document is clean throughout, stays as it is when redacted again, and is the
      original if no redaction is reported. */
  lemma {:induction false} TreeIsRedacted(j: Json)
    ensures TreeClean(RedactedTree(j))
    ensures RedactedTree(RedactedTree(j)) == RedactedTree(j)
    ensures !TreeChanged(j) ==> RedactedTree(j) == j
    decreases j
  {
    hide AllClean, RedactedText;
    match j {
      case String(text) =>
        RedactionIsComplete(text);
        if !RedactedText(text).changed { UnchangedText(text); }
      case Array(items) =>
        forall i | 0 <= i < |items|
          ensures TreeClean(RedactedTree(items[i]))
          ensures RedactedTree(RedactedTree(items[i])) == RedactedTree(items[i])
          ensures !TreeChanged(items[i]) ==> RedactedTree(items[i]) == items[i]
        {
          TreeIsRedacted(items[i]);
        }
      case Object(fields) =>
        forall i | 0 <= i < |fields|
          ensures TreeClean(RedactedTree(fields[i].1))
          ensures RedactedTree(RedactedTree(fields[i].1)) == RedactedTree(fields[i].1)
          ensures !TreeChanged(fields[i].1) ==> RedactedTree(fields[i].1) == fields[i].1
        {
          TreeIsRedacted(fields[i].1);
        }
      case _ =>
    }
  }
}
