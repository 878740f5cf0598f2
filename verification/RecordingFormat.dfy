/** The format of a recording, literally: what is written for each answer. */
module RecordingFormat {
  import opened Wrappers
  import opened Bytes
  import opened StringOrder
  import opened Text
  import opened Decimal
  import opened Canonical
  import opened Codecs

  // ---- bytes ----------------------------------------------------------------------------------------

  predicate IsHexDigit(c: char) {
    '0' <= c <= '9' || 'a' <= c <= 'f' || 'A' <= c <= 'F'
  }

  /** Two digits for each byte; where the first of two is expected a plus sign is taken for a zero. */
  lemma {:induction false} HexDecodesIff(text: string)
    ensures HexDecode(text).Some? <==>
            |text| % 2 == 0 && forall i | 0 <= i < |text| :: IsHexDigit(text[i]) || (i % 2 == 0 && text[i] == '+')
    decreases |text|
  {
    hide HexPair;
    if |text| >= 2 {
      var rest := text[2..];
      HexPairIff(text[0], text[1]);
      HexDecodesIff(rest);
      assert forall i | 2 <= i < |text| :: text[i] == rest[i - 2] && i % 2 == (i - 2) % 2;
      if HexPair(text[0], text[1]).Some? && HexDecode(rest).Some? {
        forall i | 0 <= i < |text| ensures IsHexDigit(text[i]) || (i % 2 == 0 && text[i] == '+') {
          assert i >= 2 ==> text[i] == rest[i - 2];
        }
      }
      if forall i | 0 <= i < |text| :: IsHexDigit(text[i]) || (i % 2 == 0 && text[i] == '+') {
        forall i | 0 <= i < |rest| ensures IsHexDigit(rest[i]) || (i % 2 == 0 && rest[i] == '+') {
          assert rest[i] == text[i + 2] && (i + 2) % 2 == i % 2;
        }
      }
    }
  }

  lemma HexPairIff(high: char, low: char)
    ensures HexPair(high, low).Some? <==> (IsHexDigit(high) || high == '+') && IsHexDigit(low)
  {
  }

  /** The first byte of a character says how many there are, and all together which it is. */
  lemma FirstBytes(c: char)
    ensures var bytes := EncodeChar(c);
            |bytes| == if bytes[0] < 0x80 then 1 else if bytes[0] < 0xE0 then 2 else if bytes[0] < 0xF0 then 3 else 4
  {
  }

  lemma EncodedApart(a: char, b: char)
    requires EncodeChar(a) == EncodeChar(b)
    ensures a == b
  {
    var x: int, y: int, bytes := a as int, b as int, EncodeChar(a);
    FirstBytes(a);
    FirstBytes(b);
    if |bytes| == 1 {
    } else if |bytes| == 2 {
      assert x == 0x40 * (bytes[0] as int - 0xC0) + (bytes[1] as int - 0x80);
    } else if |bytes| == 3 {
      ThreeBytes(a, bytes);
      ThreeBytes(b, bytes);
    } else {
      FourBytes(a, bytes);
      FourBytes(b, bytes);
    }
  }

  lemma ThreeBytes(c: char, bytes: seq<Byte>)
    requires EncodeChar(c) == bytes && |bytes| == 3
    ensures c as int == 0x1000 * (bytes[0] as int - 0xE0) + 0x40 * (bytes[1] as int - 0x80) + (bytes[2] as int - 0x80)
  {
  }

  lemma FourBytes(c: char, bytes: seq<Byte>)
    requires EncodeChar(c) == bytes && |bytes| == 4
    ensures c as int ==
            0x4_0000 * (bytes[0] as int - 0xF0) + 0x1000 * (bytes[1] as int - 0x80) + 0x40 * (bytes[2] as int - 0x80)
            + (bytes[3] as int - 0x80)
  {
    var p := c as int;
    var q := p / 0x40;
    var r := q / 0x40;
    assert p == 0x40 * q + p % 0x40 && q == 0x40 * r + q % 0x40 && r == 0x40 * (r / 0x40) + r % 0x40;
    assert r == p / 0x1000 && r / 0x40 == p / 0x4_0000;
  }

  /** Different texts have different bytes. */
  lemma {:induction false} TextIsItsBytes(a: string, b: string)
    requires Utf8(a) == Utf8(b)
    ensures a == b
    decreases |a|
  {
    hide EncodeChar;
    if a == [] {
      if b != [] { FirstBytes(b[0]); }
    } else {
      FirstBytes(a[0]);
      if b != [] {
        FirstBytes(b[0]);
        var n := |EncodeChar(a[0])|;
        assert Utf8(a)[0] == EncodeChar(a[0])[0] == EncodeChar(b[0])[0];
        assert Utf8(a)[..n] == EncodeChar(a[0]) && Utf8(b)[..n] == EncodeChar(b[0]);
        assert Utf8(a)[n..] == Utf8(a[1..]) && Utf8(b)[n..] == Utf8(b[1..]);
        EncodedApart(a[0], b[0]);
        TextIsItsBytes(a[1..], b[1..]);
        assert a == [a[0]] + a[1..] && b == [b[0]] + b[1..];
      }
    }
  }

  /** Text is recorded as it is; anything else as hexadecimal digits. */
  lemma RecordedBytes(bytes: seq<Byte>, text: string)
    ensures Utf8(text) == bytes ==> BytesValue(bytes) == Object([("utf8", String(text))])
    ensures (forall t :: Utf8(t) != bytes) ==> BytesValue(bytes) == Object([("hex", String(HexEncode(bytes)))])
  {
    if Utf8(text) == bytes {
      TextIsItsBytes(text, FromUtf8(bytes).value);
    }
  }

  lemma Encodings()
    ensures EncodeChar('a') == [0x61] && EncodeChar('\U{E9}') == [0xC3, 0xA9]
    ensures EncodeChar('\U{20AC}') == [0xE2, 0x82, 0xAC] && EncodeChar('\U{1F600}') == [0xF0, 0x9F, 0x98, 0x80]
    ensures HexEncode([0x0F, 0xA0]) == "0fa0"
  {
    assert HexEncode([0xA0]) == "a0" by { assert HexEncode([]) == ""; }
    assert [0x0F, 0xA0][1..] == [0xA0];
  }

  // ---- errors of the system ----------------------------------------------------------------------------

  lemma RecordedIoErrors(code: int, kind: string, message: string)
    ensures code >= 0 ==> IoValue(Os(code)) == Object([("os", Number(Print(code)))])
    ensures code < 0 ==> IoValue(Os(code)) == Object([("os", Number("-" + Print(-code)))])
    ensures IoValue(Custom(kind, message)) == Object([("kind", String(kind)), ("message", String(message))])
    ensures KeptIo(Os(code)) == Os(code)
    ensures KeptIo(Custom(kind, message)) ==
            Custom(if kind in {"NotFound", "PermissionDenied", "InvalidData", "InvalidInput", "UnexpectedEof",
                               "WouldBlock"} then kind else "Other", message)
  {
  }

  // ---- the end of a process -----------------------------------------------------------------------------

  /** A wait status is 256 times an exit code, or a signal with or without 128 for a core dump; a low
      byte of 127 says that the process is stopped. */
  lemma WaitStatuses(code: nat, signal: nat)
    requires code < 256 && 0 < signal < 127
    ensures ExitCode(256 * code) == Some(code) && Signal(256 * code) == None
    ensures ExitCode(signal) == ExitCode(signal + 128) == None
    ensures Signal(signal) == Signal(signal + 128) == Some(signal)
    ensures ExitCode(256 * code + 127) == None && Signal(256 * code + 127) == None && Stopped(256 * code + 127)
    ensures StatusValue(256 * code) == Object([("code", Number(Print(code))), ("signal", Null)])
    ensures StatusValue(signal) == Object([("code", Null), ("signal", Number(Print(signal)))])
    ensures StatusValue(256 * code + 127) == Object([("code", Null), ("signal", Null)])
  {
  }

  // ---- commands -----------------------------------------------------------------------------------------

  lemma FieldIs(name: string, value: Json, rest: seq<(string, Json)>)
    ensures Field(name, value, rest) == [(name, value)] + rest
  {
  }

  lemma OneField(name: string, value: Json)
    ensures Field(name, value, NoFields) == [(name, value)]
  {
    FieldIs(name, value, NoFields);
    assert [(name, value)] + NoFields == [(name, value)];
  }

  lemma TwoFields(a: string, x: Json, b: string, y: Json)
    ensures Field(a, x, Field(b, y, NoFields)) == [(a, x), (b, y)]
  {
    OneField(b, y);
    hide Field;
    FieldIs(a, x, [(b, y)]);
    assert [(a, x)] + [(b, y)] == [(a, x), (b, y)];
  }

  lemma RecordedResults(output: Output, error: CommandError)
    ensures OutputValue(output) ==
            Object([("status", StatusValue(output.status)), ("stdout", BytesValue(output.stdout)),
                    ("stderr", BytesValue(output.stderr))])
    ensures CommandValue(Completed(output)) == Object([("ok", OutputValue(output))])
    ensures CommandValue(Failed(error)) == Object([("err", ErrorValue(error))])
  {
    hide StatusValue, BytesValue, ErrorValue, Field;
    var status, stdout, stderr := StatusValue(output.status), BytesValue(output.stdout), BytesValue(output.stderr);
    TwoFields("stdout", stdout, "stderr", stderr);
    FieldIs("status", status, [("stdout", stdout), ("stderr", stderr)]);
    assert [("status", status)] + [("stdout", stdout), ("stderr", stderr)]
        == [("status", status), ("stdout", stdout), ("stderr", stderr)];
    OneField("ok", OutputValue(output));
    OneField("err", ErrorValue(error));
  }

  /** An error by its name, the program, and what else there is to it. */
  function Tagged(name: string, program: string, more: seq<(string, Json)>): Json {
    Object([("variant", String(name)), ("program", String(program))] + more)
  }

  lemma ErrorIsTagged(e: CommandError)
    ensures ErrorValue(e) == Tagged(VariantName(e), e.program, ErrorDetails(e))
  {
    hide VariantName, ErrorDetails, Field;
    var name, program, more := String(VariantName(e)), String(e.program), ErrorDetails(e);
    FieldIs("program", program, more);
    FieldIs("variant", name, [("program", program)] + more);
    assert [("variant", name)] + ([("program", program)] + more) == [("variant", name), ("program", program)] + more;
  }

  lemma RecordedSourceErrors(p: string, io: IoError)
    ensures ErrorValue(Spawn(p, io)) == Tagged("Spawn", p, [("io", IoValue(io))])
    ensures ErrorValue(Wait(p, io)) == Tagged("Wait", p, [("io", IoValue(io))])
    ensures ErrorValue(Kill(p, io)) == Tagged("Kill", p, [("io", IoValue(io))])
    ensures ErrorValue(Write(p, io)) == Tagged("Write", p, [("io", IoValue(io))])
  {
    hide IoValue, Field, ErrorValue, Tagged;
    OneField("io", IoValue(io));
    ErrorIsTagged(Spawn(p, io));
    ErrorIsTagged(Wait(p, io));
    ErrorIsTagged(Kill(p, io));
    ErrorIsTagged(Write(p, io));
  }

  lemma RecordedStreamErrors(p: string, io: IoError, stream: string, limit: nat)
    ensures ErrorValue(Read(p, stream, io)) == Tagged("Read", p, [("stream", String(stream)), ("io", IoValue(io))])
    ensures ErrorValue(ReaderPanicked(p, stream)) == Tagged("ReaderPanicked", p, [("stream", String(stream))])
    ensures ErrorValue(OutputLimit(p, stream, limit)) ==
            Tagged("OutputLimit", p, [("stream", String(stream)), ("limit", Number(Print(limit)))])
  {
    hide IoValue, Field, ErrorValue, Tagged, Print;
    OneField("stream", String(stream));
    TwoFields("stream", String(stream), "io", IoValue(io));
    TwoFields("stream", String(stream), "limit", Number(Print(limit)));
    ErrorIsTagged(Read(p, stream, io));
    ErrorIsTagged(ReaderPanicked(p, stream));
    ErrorIsTagged(OutputLimit(p, stream, limit));
  }

  lemma RecordedTimeErrors(p: string, nanos: nat)
    ensures ErrorValue(BudgetExhausted(p)) == Tagged("BudgetExhausted", p, [])
    ensures ErrorValue(TimedOut(p, nanos)) ==
            Tagged("TimedOut", p, [("timeout_nanos", Number(Print(nanos % 18_446_744_073_709_551_616)))])
  {
    hide Field, ErrorValue, Tagged, Print;
    OneField("timeout_nanos", Number(Print(nanos % 18_446_744_073_709_551_616)));
    ErrorIsTagged(BudgetExhausted(p));
    ErrorIsTagged(TimedOut(p, nanos));
  }

  // ---- directories --------------------------------------------------------------------------------------

  /** How a type is called. */
  lemma TypeNames()
    ensures KindName(None) == "unknown" && KindName(Some(File)) == "file" && KindName(Some(Dir)) == "dir"
    ensures KindName(Some(Symlink)) == "symlink" && KindName(Some(FileKind.Other)) == "other"
  {
  }

  lemma RecordedItems(text: string, kind: Option<FileKind>, error: IoError, replaced: seq<Byte> -> string)
    ensures ItemValue(Ok(DirEntry(Utf8(text), kind)), replaced)
         == Object([("name", String(text)), ("type", String(KindName(kind)))])
    ensures ItemValue(Err(error), replaced) == Object([("err", IoValue(error))])
  {
    hide Field, IoValue, KindName, Utf8;
    TextIsItsBytes(text, FromUtf8(Utf8(text)).value);
    TwoFields("name", String(text), "type", String(KindName(kind)));
    OneField("err", IoValue(error));
  }

  // ---- questions ----------------------------------------------------------------------------------------

  /** Inside a string, the characters that have a short escape, the other control characters, and
      the rest. */
  lemma Escapes(c: char)
    ensures EscapeChar('"') == "\\\"" && EscapeChar('\\') == "\\\\" && EscapeChar('\n') == "\\n"
    ensures EscapeChar('\r') == "\\r" && EscapeChar('\t') == "\\t"
    ensures EscapeChar('\U{8}') == "\\b" && EscapeChar('\U{C}') == "\\f" && EscapeChar('\U{1F}') == "\\u001f"
    ensures c >= ' ' && c != '"' && c != '\\' ==> EscapeChar(c) == [c]
  {
    assert HexDigit(1) == '1' && HexDigit(15) == 'f' && '\U{1F}' as int == 31;
    assert "\\u00" + ['1', 'f'] == "\\u001f";
  }

  lemma JoinTwo(x: string, y: string)
    ensures Join([x, y]) == x + ("," + y)
  {
    assert [x, y][1..] == [y];
    assert Join([y]) == y;
  }

  lemma SortTwo(m: string, x: string, n: string, y: string)
    requires Before(m, n)
    ensures SortByName([(n, y), (m, x)]) == [(m, x), (n, y)]
  {
    BeforeIsStrict(m, n);
    var rest: seq<(string, string)> := [(m, x)];
    assert [(n, y), (m, x)][1..] == rest && rest[1..] == [];
    assert SortByName<string>([]) == [];
    assert SortByName(rest) == InsertByName((m, x), []) == rest;
    assert InsertByName((n, y), []) == [(n, y)];
  }

  /** The texts of an object's fields, by name. */
  function Members(fields: seq<(string, Json)>): seq<(string, string)> {
    seq(|fields|, i requires 0 <= i < |fields| => (fields[i].0, Canonical.Text(fields[i].1)))
  }

  lemma ObjectText(fields: seq<(string, Json)>)
    ensures Canonical.Text(Object(fields)) == "{" + (Join(MemberTexts(SortByName(Members(fields)))) + "}")
  {
    hide SortByName, MemberTexts, Join;
    assert Members(fields) == seq(|fields|, i requires 0 <= i < |fields| => (fields[i].0, Canonical.Text(fields[i].1)));
  }

  lemma TwoMembers(m: string, x: string, n: string, y: string)
    ensures Join(MemberTexts([(m, x), (n, y)])) == Quote(m) + (":" + x) + ("," + (Quote(n) + (":" + y)))
  {
    hide Quote, Join;
    var first, second := MemberText((m, x)), MemberText((n, y));
    assert MemberTexts([(m, x), (n, y)]) == [first, second];
    JoinTwo(first, second);
  }

  /** The fields of an object stand in the order of their names, between braces and commas. */
  lemma CanonicalObject(m: string, a: Json, n: string, b: Json)
    requires Before(m, n)
    ensures Canonical.Text(Object([(n, b), (m, a)])) ==
            "{" + (Quote(m) + (":" + Canonical.Text(a)) + ("," + (Quote(n) + (":" + Canonical.Text(b)))) + "}")
  {
    var fields := [(n, b), (m, a)];
    ObjectText(fields);
    hide SortByName, Quote, Join, MemberTexts, Canonical.Text;
    assert Members(fields) == [(n, Canonical.Text(b)), (m, Canonical.Text(a))];
    SortTwo(m, Canonical.Text(a), n, Canonical.Text(b));
    TwoMembers(m, Canonical.Text(a), n, Canonical.Text(b));
  }

  lemma CanonicalArray(a: Json, b: Json)
    ensures Canonical.Text(Array([a, b])) == "[" + (Canonical.Text(a) + ("," + Canonical.Text(b)) + "]")
  {
    hide Join;
    var items := [a, b];
    assert seq(|items|, i requires 0 <= i < |items| => Canonical.Text(items[i])) == [Canonical.Text(a), Canonical.Text(b)];
    JoinTwo(Canonical.Text(a), Canonical.Text(b));
  }

  lemma CanonicalLeaves(n: string, s: string)
    ensures Canonical.Text(Null) == "null" && Canonical.Text(Bool(true)) == "true" && Canonical.Text(Bool(false)) == "false"
    ensures Canonical.Text(Number(n)) == n && Canonical.Text(String(s)) == "\"" + (Escape(s) + "\"")
    ensures QuestionText(n, String(s)) == n + (" \"" + (Escape(s) + "\""))
  {
    assert n + " " + Quote(s) == n + (" " + Quote(s));
    assert " " + ("\"" + (Escape(s) + "\"")) == " \"" + (Escape(s) + "\"");
  }
}
