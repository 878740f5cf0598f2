/** Redaction told in characters: where a secret stands in a text, and what becomes of it. */
module SecretPlaces {
  import opened Wrappers
  import opened Strings = Text
  import opened Canonical
  import opened Redaction

  /** Behind `p`, over blanks, tabs and quotes, is `text[q..e]`: what comes before the next blank,
      tab, quote, comma or semicolon. */
  predicate IsBehind(text: string, p: nat, q: nat, e: nat) {
    && p < q <= e <= |text|
    && (forall k | p < k < q :: text[k] in {' ', '\t', '"', '\''})
    && (q < |text| ==> text[q] !in {' ', '\t', '"', '\''})
    && (forall k | q <= k < e :: text[k] !in {' ', '\t', '"', '\'', ',', ';'})
    && (e < |text| ==> text[e] in {' ', '\t', '"', '\'', ',', ';'})
  }

  /** One of the seven keys, in any case, from `i` to `p`. */
  predicate IsKeyAt(text: string, i: nat, p: nat) {
    && i <= p < |text|
    && Lower(text[i..p]) in {"token", "password", "passwd", "secret", "api_key", "apikey", "api-key"}
  }

  /** What stands at `p` gives the key from `i` to `p` a value: an equals sign, a colon, or white
      space if two dashes stand before the key. */
  predicate Separates(text: string, i: nat, p: nat)
    requires i <= p < |text|
  {
    text[p] == '=' || text[p] == ':' || (IsWhitespace(text[p]) && i >= 2 && text[i - 2..i] == "--")
  }

  /** The key from `i` to `p` has the value `text[q..e]`, if that is not empty. */
  predicate Tells(text: string, i: nat, p: nat, q: nat, e: nat) {
    IsKeyAt(text, i, p) && Separates(text, i, p) && IsBehind(text, p, q, e)
  }

  lemma TheSevenKeys(key: string)
    ensures key in SecretKeys
            <==> key in {"token", "password", "passwd", "secret", "api_key", "apikey", "api-key"}
  {
  }

  lemma TellsWhatItHas(text: string, i: nat, p: nat, q: nat, e: nat)
    requires Tells(text, i, p, q, e)
    ensures var key := Lower(text[i..p]);
            && key in SecretKeys && |key| == p - i && MatchAt(text, key, i) && HasSeparator(text, key, i)
            && ValueStart(text, p + 1) == q && ValueEnd(text, q) == e
  {
    hide IsWhitespace, Lower, ValueStart, ValueEnd;
    TheSevenKeys(Lower(text[i..p]));
    assert i >= 2 ==> (text[i - 2..i] == "--" <==> IsFlag(text, i));
    StartIs(text, p + 1, q);
    EndIs(text, q, e);
  }

  lemma HasWhatItTells(text: string, key: string, i: nat)
    requires key in SecretKeys && MatchAt(text, key, i) && HasSeparator(text, key, i)
    ensures var p := i + |key|;
            var q := ValueStart(text, p + 1);
            Tells(text, i, p, q, ValueEnd(text, q))
  {
    hide IsWhitespace, Lower, ValueStart, ValueEnd;
    TheSevenKeys(key);
    assert i >= 2 ==> (text[i - 2..i] == "--" <==> IsFlag(text, i));
  }

  /** Wherever a redacted text tells a secret, the secret is gone. */
  lemma NoSecretIsLeft(text: string, i: nat, p: nat, q: nat, e: nat)
    requires Tells(RedactedText(text).text, i, p, q, e)
    ensures q == e || RedactedText(text).text[q..e] == "[redacted]"
  {
    hide RedactedText, MatchAt, HasSeparator, Separates, IsBehind;
    var after := RedactedText(text).text;
    var key := Lower(after[i..p]);
    RedactionIsComplete(text);
    TellsWhatItHas(after, i, p, q, e);
    var n :| 0 <= n < |SecretKeys| && SecretKeys[n] == key;
    assert Clean(after, SecretKeys[n]);
    assert CleanAt(after, key, i);
  }

  /** A redaction is reported exactly when the text told something. */
  lemma ReportedIffTold(text: string)
    ensures RedactedText(text).changed <==> exists i: nat, p: nat, q: nat, e: nat :: Tells(text, i, p, q, e) && q < e
  {
    hide RedactedText, Tells, MatchAt, HasSeparator, ValueStart, ValueEnd;
    OnlyValuesAreReplaced(text);
    if RedactedText(text).changed {
      var k, i :| 0 <= k < |SecretKeys| && 0 <= i < |text| && HasValue(text, SecretKeys[k], i);
      HasWhatItTells(text, SecretKeys[k], i);
    }
    if i: nat, p: nat, q: nat, e: nat :| Tells(text, i, p, q, e) && q < e {
      TellsWhatItHas(text, i, p, q, e);
      var key := Lower(text[i..p]);
      var k :| 0 <= k < |SecretKeys| && SecretKeys[k] == key;
      assert HasValue(text, SecretKeys[k], i);
    }
  }

  /** `after` is `before` with `n` values replaced, one at a time. */
  ghost predicate Blackens(before: string, after: string, n: nat)
    decreases n
  {
    if n == 0 then after == before
    else
      exists i: nat, p: nat, q: nat, e: nat :: Tells(before, i, p, q, e) && q < e &&
        Blackens(before[..q] + "[redacted]" + before[e..], after, n - 1)
  }

  lemma OneBlackened(before: string, i: nat, p: nat, q: nat, e: nat, after: string, n: nat)
    requires Tells(before, i, p, q, e) && q < e
    requires Blackens(Replace(before, q, e), after, n)
    ensures Blackens(before, after, n + 1)
  {
    hide IsKeyAt, Separates;
    assert Replace(before, q, e) == before[..q] + "[redacted]" + before[e..];
  }

  lemma {:induction false} ReplacingIsBlackening(before: string, after: string, n: nat)
    requires ReplacesValues(before, after, n)
    ensures Blackens(before, after, n)
    decreases n
  {
    hide HasSeparator, HasValue, ValueStart, ValueEnd, MatchAt, Tells, Replace, ReplacesValues;
    if n == 0 {
      ZeroReplaced(before, after);
    } else {
      var key, i := FirstReplaced(before, after, n);
      var q := ValueStart(before, i + |key| + 1);
      FirstIsTold(before, key, i);
      ReplacingIsBlackening(Replace(before, q, ValueEnd(before, q)), after, n - 1);
      hide Blackens;
      OneBlackened(before, i, i + |key|, q, ValueEnd(before, q), after, n - 1);
    }
  }

  lemma FirstIsTold(text: string, key: string, i: nat)
    requires key in SecretKeys && HasValue(text, key, i)
    ensures var q := ValueStart(text, i + |key| + 1);
            var e := ValueEnd(text, q);
            Tells(text, i, i + |key|, q, e) && q < e
  {
    hide MatchAt, HasSeparator, ValueStart, ValueEnd, Tells;
    HasWhatItTells(text, key, i);
  }

  /** And nothing but what it told is replaced. */
  lemma OnlySecretsAreReplaced(text: string)
    ensures exists n: nat :: Blackens(text, RedactedText(text).text, n)
  {
    hide RedactedText, ReplacesValues, Blackens;
    OnlyValuesAreReplaced(text);
    var n: nat :| ReplacesValues(text, RedactedText(text).text, n);
    ReplacingIsBlackening(text, RedactedText(text).text, n);
  }

  lemma ColonTells(text: string)
    requires text == "password: hunter2"
    ensures Tells(text, 0, 8, 10, 17)
  {
    assert text[0..8] == "password" && Lower("password") == "password";
    assert text[8] == ':' && text[9] == ' ' && text[10] == 'h' && text[11] == 'u' && text[12] == 'n';
    assert text[13] == 't' && text[14] == 'e' && text[15] == 'r' && text[16] == '2';
  }

  /** So a value behind a colon does not stay. */
  lemma ColonIsRedacted()
    ensures var text := "password: hunter2";
            RedactedText(text).changed && RedactedText(text).text != text
  {
    hide RedactedText;
    var text := "password: hunter2";
    ColonTells(text);
    ReportedIffTold(text);
    assert text[10..17] != "[redacted]";
    if RedactedText(text).text == text {
      NoSecretIsLeft(text, 0, 8, 10, 17);
    }
  }

  // ---- in documents -------------------------------------------------------------------------------------

  /** The value in a document at the end of a path of positions. */
  function At(j: Json, path: seq<nat>): Option<Json>
    decreases |path|
  {
    if path == [] then Some(j)
    else
      match j
      case Array(items) => if path[0] < |items| then At(items[path[0]], path[1..]) else None
      case Object(fields) => if path[0] < |fields| then At(fields[path[0]].1, path[1..]) else None
      case _ => None
  }

  /** What may become of a value: strings are redacted, the rest keeps its shape and its names. */
  predicate RedactedTo(before: Json, after: Json) {
    match before
    case String(text) => after == String(RedactedText(text).text)
    case Array(items) => after.Array? && |after.items| == |items|
    case Object(fields) =>
      after.Object? && |after.fields| == |fields| && forall i | 0 <= i < |fields| :: after.fields[i].0 == fields[i].0
    case _ => after == before
  }

  /** A redacted document has the values of the original, at the same places. */
  lemma {:induction false} PlacesAreKept(j: Json, path: seq<nat>)
    ensures At(j, path).Some? <==> At(RedactedTree(j), path).Some?
    ensures At(j, path).Some? ==> RedactedTo(At(j, path).value, At(RedactedTree(j), path).value)
    decreases |path|
  {
    hide RedactedText;
    if path != [] {
      match j {
        case Array(items) => if path[0] < |items| { PlacesAreKept(items[path[0]], path[1..]); }
        case Object(fields) => if path[0] < |fields| { PlacesAreKept(fields[path[0]].1, path[1..]); }
        case _ =>
      }
    }
  }

  predicate TellsAt(j: Json, path: seq<nat>) {
    At(j, path).Some? && At(j, path).value.String? && RedactedText(At(j, path).value.text).changed
  }

  /** A redaction is reported exactly when a string somewhere in the document told something. */
  lemma {:induction false} TreeReportedIff(j: Json)
    ensures TreeChanged(j) <==> exists path :: TellsAt(j, path)
    decreases j
  {
    hide RedactedText, TellsAt;
    match j {
      case String(text) => TextReported(j);
      case Array(items) =>
        forall i | 0 <= i < |items| ensures TreeChanged(items[i]) <==> exists path :: TellsAt(items[i], path) {
          TreeReportedIff(items[i]);
        }
        ItemsReported(j);
      case Object(fields) =>
        forall i | 0 <= i < |fields| ensures TreeChanged(fields[i].1) <==> exists path :: TellsAt(fields[i].1, path) {
          TreeReportedIff(fields[i].1);
        }
        FieldsReported(j);
      case _ => TextReported(j);
    }
  }

  lemma TextReported(j: Json)
    requires !j.Array? && !j.Object?
    ensures (exists path :: TellsAt(j, path)) <==> j.String? && RedactedText(j.text).changed
  {
    hide RedactedText;
    if j.String? && RedactedText(j.text).changed {
      assert TellsAt(j, []);
    }
  }

  lemma ItemsReported(j: Json)
    requires j.Array?
    ensures (exists path :: TellsAt(j, path)) <==>
            exists i | 0 <= i < |j.items| :: exists path :: TellsAt(j.items[i], path)
  {
    hide RedactedText;
    if path :| TellsAt(j, path) {
      assert path != [];
      assert TellsAt(j.items[path[0]], path[1..]);
    }
    if i :| 0 <= i < |j.items| && exists path :: TellsAt(j.items[i], path) {
      var path :| TellsAt(j.items[i], path);
      assert ([i] + path)[1..] == path;
      assert TellsAt(j, [i] + path);
    }
  }

  lemma FieldsReported(j: Json)
    requires j.Object?
    ensures (exists path :: TellsAt(j, path)) <==>
            exists i | 0 <= i < |j.fields| :: exists path :: TellsAt(j.fields[i].1, path)
  {
    hide RedactedText;
    if path :| TellsAt(j, path) {
      assert path != [];
      assert TellsAt(j.fields[path[0]].1, path[1..]);
    }
    if i :| 0 <= i < |j.fields| && exists path :: TellsAt(j.fields[i].1, path) {
      var path :| TellsAt(j.fields[i].1, path);
      assert ([i] + path)[1..] == path;
      assert TellsAt(j, [i] + path);
    }
  }
}
