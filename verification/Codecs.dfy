/** How answers are written to a recording and read back. */
module Codecs {
  import opened Wrappers
  import opened Strings = Text
  import opened Decimal
  import opened Canonical
  import opened Bytes

  datatype Result<+T> = Ok(value: T) | Err(error: IoError)

  // ---- access to JSON -------------------------------------------------------------------------

  function FieldFrom(fields: seq<(string, Json)>, name: string): Option<Json> {
    if fields == [] then None
    else if fields[0].0 == name then Some(fields[0].1)
    else FieldFrom(fields[1..], name)
  }

  /** An object's fields, one after the other: `json!({ name: value, … })`. */
  function Field(name: string, value: Json, rest: seq<(string, Json)>): (fields: seq<(string, Json)>)
    ensures forall n :: FieldFrom(fields, n) == if n == name then Some(value) else FieldFrom(rest, n)
    ensures WellFormed(value) && WellFormed(Object(rest)) && FieldFrom(rest, name) == None
            ==> WellFormed(Object(fields))
  {
    var fields := [(name, value)] + rest;
    assert fields[1..] == rest;
    FieldFromMeans(rest, name);
    fields
  }

  const NoFields: seq<(string, Json)> := []

  lemma {:induction false} FieldFromMeans(fields: seq<(string, Json)>, name: string)
    ensures FieldFrom(fields, name) == None <==> forall i | 0 <= i < |fields| :: fields[i].0 != name
    ensures forall i | 0 <= i < |fields| ::
              (forall k | 0 <= k < i :: fields[k].0 != name) && fields[i].0 == name
              ==> FieldFrom(fields, name) == Some(fields[i].1)
    decreases |fields|
  {
    if fields != [] {
      FieldFromMeans(fields[1..], name);
    }
  }

  function Get(j: Json, name: string): Option<Json> {
    if j.Object? then FieldFrom(j.fields, name) else None
  }

  function AsStr(j: Json): Option<string> {
    if j.String? then Some(j.text) else None
  }

  function AsArray(j: Json): Option<seq<Json>> {
    if j.Array? then Some(j.items) else None
  }

  function AsUnsigned(j: Json, max: nat): Option<nat> {
    if j.Number? && AllDigits(j.numeral) then ParseUnsigned(j.numeral, max) else None
  }

  function AsInt(j: Json): Option<int> {
    if j.Number? && j.numeral != [] && j.numeral[0] == '-' then
      var n :- AsUnsigned(Number(j.numeral[1..]), 0x8000_0000_0000_0000);
      Some(0 - n as int)
    else AsUnsigned(j, 0x7FFF_FFFF_FFFF_FFFF)
  }

  function Nat(n: nat): Json {
    Number(Print(n))
  }

  function Int(i: int): Json {
    if i < 0 then Number("-" + Print(-i)) else Nat(i)
  }

  function I32(i: int): Option<int> {
    if -0x8000_0000 <= i < 0x8000_0000 then Some(i) else None
  }

  const U64: nat := 0x1_0000_0000_0000_0000

  lemma NumbersReadBack(i: int)
    requires -0x8000_0000 <= i < 0x8000_0000
    ensures AsInt(Int(i)) == Some(i)
    ensures WellFormed(Int(i))
  {
    var s := Print(if i < 0 then -i else i);
    ParseOfPrint(if i < 0 then -i else i, 0x7FFF_FFFF_FFFF_FFFF);
    ParseOfPrint(if i < 0 then -i else i, 0x8000_0000_0000_0000);
    assert ("-" + s)[1..] == s;
    assert IsDigit(s[0]);
  }

  lemma NaturalsReadBack(n: nat, max: nat)
    requires n <= max
    ensures AsUnsigned(Nat(n), max) == Some(n)
    ensures WellFormed(Nat(n))
  {
    ParseOfPrint(n, max);
    assert IsDigit(Print(n)[0]);
  }

  // ---- bytes ----------------------------------------------------------------------------------

  function HexEncode(bytes: seq<Byte>): string {
    if bytes == [] then [] else [HexDigit(bytes[0] / 16), HexDigit(bytes[0] % 16)] + HexEncode(bytes[1..])
  }

  function HexValue(c: char): Option<nat> {
    if '0' <= c <= '9' then Some(c as int - '0' as int)
    else if 'a' <= c <= 'f' then Some(c as int - 'a' as int + 10)
    else if 'A' <= c <= 'F' then Some(c as int - 'A' as int + 10)
    else None
  }

  /** `u8::from_str_radix` on two characters: a plus sign may stand before a single digit. */
  function HexPair(high: char, low: char): Option<Byte> {
    var l :- HexValue(low);
    if high == '+' then Some(l)
    else
      var h :- HexValue(high);
      assert h < 16 && l < 16;
      Some(16 * h + l)
  }

  function HexDecode(text: string): Option<seq<Byte>> {
    if text == [] then Some([])
    else if |text| == 1 then None
    else
      var first :- HexPair(text[0], text[1]);
      var rest :- HexDecode(text[2..]);
      Some([first] + rest)
  }

  lemma HexPairOfByte(b: Byte)
    ensures HexPair(HexDigit(b / 16), HexDigit(b % 16)) == Some(b)
  {
  }

  predicate IsLowerHex(c: char) {
    '0' <= c <= '9' || 'a' <= c <= 'f'
  }

  lemma HexPairIsCanonicalIff(high: char, low: char)
    requires HexPair(high, low).Some?
    ensures var b := HexPair(high, low).value;
            (HexDigit(b / 16) == high && HexDigit(b % 16) == low) <==> IsLowerHex(high) && IsLowerHex(low)
  {
    var l := HexValue(low).value;
    if high != '+' {
      var h := HexValue(high).value;
      assert (16 * h + l) / 16 == h && (16 * h + l) % 16 == l;
    }
  }

  lemma {:induction false} HexRoundTrip(bytes: seq<Byte>)
    ensures HexDecode(HexEncode(bytes)) == Some(bytes)
    decreases |bytes|
  {
    if bytes != [] {
      hide HexPair, HexDigit;
      HexRoundTrip(bytes[1..]);
      HexPairOfByte(bytes[0]);
      var text := HexEncode(bytes);
      assert text == [HexDigit(bytes[0] / 16), HexDigit(bytes[0] % 16)] + HexEncode(bytes[1..]);
      assert text[2..] == HexEncode(bytes[1..]);
      assert bytes == [bytes[0]] + bytes[1..];
    }
  }

  /** What it accepts, it accepts in one other way per letter: only lower case is its own. */
  lemma {:induction false} HexIsCanonicalIff(text: string)
    requires HexDecode(text).Some?
    ensures HexEncode(HexDecode(text).value) == text
            <==> forall c :: c in text ==> IsLowerHex(c)
    decreases |text|
  {
    if text != [] {
      hide HexPair, HexDigit, IsLowerHex;
      var rest := text[2..];
      HexIsCanonicalIff(rest);
      HexPairIsCanonicalIff(text[0], text[1]);
      var bytes := HexDecode(text).value;
      var again := HexEncode(bytes);
      assert bytes[1..] == HexDecode(rest).value;
      assert text == [text[0], text[1]] + rest;
      assert again == [HexDigit(bytes[0] / 16), HexDigit(bytes[0] % 16)] + HexEncode(bytes[1..]);
      assert again == text <==> again[0] == text[0] && again[1] == text[1] && again[2..] == rest;
      assert again[2..] == HexEncode(bytes[1..]);
    }
  }

  /** The UTF-8 bytes of one code point. */
  function EncodeChar(c: char): seq<Byte> {
    var p := c as int;
    if p < 0x80 then [p]
    else if p < 0x800 then [0xC0 + p / 0x40, 0x80 + p % 0x40]
    else if p < 0x1_0000 then [0xE0 + p / 0x1000, 0x80 + p / 0x40 % 0x40, 0x80 + p % 0x40]
    else [0xF0 + p / 0x4_0000, 0x80 + p / 0x1000 % 0x40, 0x80 + p / 0x40 % 0x40, 0x80 + p % 0x40]
  }

  function Utf8(text: string): seq<Byte> {
    if text == [] then [] else EncodeChar(text[0]) + Utf8(text[1..])
  }

  /** `str::from_utf8`: the text these bytes encode, if they encode one. */
  ghost function FromUtf8(bytes: seq<Byte>): (text: Option<string>)
    ensures text.Some? ==> Utf8(text.value) == bytes
    ensures text.None? ==> forall t :: Utf8(t) != bytes
  {
    if exists t :: Utf8(t) == bytes then
      var t :| Utf8(t) == bytes;
      Some(t)
    else None
  }

  ghost function BytesValue(bytes: seq<Byte>): Json {
    match FromUtf8(bytes)
    case Some(text) => Object(Field("utf8", String(text), NoFields))
    case None => Object(Field("hex", String(HexEncode(bytes)), NoFields))
  }

  function BytesFrom(j: Json): Option<seq<Byte>> {
    var utf8 := Get(j, "utf8");
    if utf8.Some? && utf8.value.String? then Some(Utf8(utf8.value.text))
    else
      var hex :- Get(j, "hex");
      var text :- AsStr(hex);
      HexDecode(text)
  }

  lemma BytesRoundTrip(bytes: seq<Byte>)
    ensures BytesFrom(BytesValue(bytes)) == Some(bytes)
    ensures WellFormed(BytesValue(bytes))
  {
    HexRoundTrip(bytes);
  }

  // ---- OS errors --------------------------------------------------------------------------------

  /** An error with an OS code, or a kind by its name with a message. */
  datatype IoError = Os(code: int) | Custom(kind: string, message: string)

  const NamedKinds: set<string> :=
    {"NotFound", "PermissionDenied", "InvalidData", "InvalidInput", "UnexpectedEof", "WouldBlock"}

  predicate IsIoError(e: IoError) {
    e.Os? ==> -0x8000_0000 <= e.code < 0x8000_0000
  }

  function IoValue(e: IoError): Json {
    match e
    case Os(code) => Object(Field("os", Int(code), NoFields))
    case Custom(kind, message) => Object(Field("kind", String(kind), Field("message", String(message), NoFields)))
  }

  function IoFrom(j: Json): Option<IoError> {
    var os := Get(j, "os");
    if os.Some? && AsInt(os.value).Some? then
      var code :- I32(AsInt(os.value).value);
      Some(Os(code))
    else
      var kindValue :- Get(j, "kind");
      var kind :- AsStr(kindValue);
      var messageValue :- Get(j, "message");
      var message :- AsStr(messageValue);
      Some(Custom(if kind in NamedKinds then kind else "Other", message))
  }

  /** What a recording keeps of an error. */
  function KeptIo(e: IoError): IoError {
    if e.Custom? && e.kind !in NamedKinds then Custom("Other", e.message) else e
  }

  lemma IoRoundTrip(e: IoError)
    requires IsIoError(e)
    ensures IoFrom(IoValue(e)) == Some(KeptIo(e))
    ensures WellFormed(IoValue(e))
  {
    if e.Os? { NumbersReadBack(e.code); }
  }

  // ---- directory listings ---------------------------------------------------------------------------

  datatype FileKind = File | Dir | Symlink | Other

  function KindName(kind: Option<FileKind>): string {
    match kind
    case None => "unknown"
    case Some(File) => "file"
    case Some(Dir) => "dir"
    case Some(Symlink) => "symlink"
    case Some(Other) => "other"
  }

  /** The type a recorded name stands for; `None` for a name that is no type. */
  function KindOfName(name: string): Option<Option<FileKind>> {
    if name == "unknown" then Some(None)
    else if name == "file" then Some(Some(File))
    else if name == "dir" then Some(Some(Dir))
    else if name == "symlink" then Some(Some(Symlink))
    else if name == "other" then Some(Some(Other))
    else None
  }

  /** A directory entry: its name's bytes and its type, if that can be read. */
  datatype DirEntry = DirEntry(name: seq<Byte>, kind: Option<FileKind>)
  type Listing = Result<seq<Result<DirEntry>>>

  /** `to_string_lossy`: the text when the bytes are UTF-8, else some text. */
  ghost function Lossy(bytes: seq<Byte>, replaced: seq<Byte> -> string): string {
    match FromUtf8(bytes)
    case Some(text) => text
    case None => replaced(bytes)
  }

  ghost function ItemValue(item: Result<DirEntry>, replaced: seq<Byte> -> string): Json {
    match item
    case Ok(entry) =>
      Object(Field("name", String(Lossy(entry.name, replaced)),
                   Field("type", String(KindName(entry.kind)), NoFields)))
    case Err(e) => Object(Field("err", IoValue(e), NoFields))
  }

  ghost function ListingValue(listing: Listing, replaced: seq<Byte> -> string): Json {
    match listing
    case Err(e) => Object(Field("err", IoValue(e), NoFields))
    case Ok(items) =>
      Object(Field("ok", Array(seq(|items|, i requires 0 <= i < |items| => ItemValue(items[i], replaced))),
                   NoFields))
  }

  function ItemFrom(j: Json): Option<Result<DirEntry>> {
    match Get(j, "err")
    case Some(error) =>
      var e :- IoFrom(error);
      Some(Err(e))
    case None =>
      var nameValue :- Get(j, "name");
      var name :- AsStr(nameValue);
      var typeValue :- Get(j, "type");
      var typeName :- AsStr(typeValue);
      var kind :- KindOfName(typeName);
      Some(Ok(DirEntry(Utf8(name), kind)))
  }

  function ItemsFrom(items: seq<Json>): Option<seq<Result<DirEntry>>> {
    if items == [] then Some([])
    else
      var first :- ItemFrom(items[0]);
      var rest :- ItemsFrom(items[1..]);
      Some([first] + rest)
  }

  function ListingFrom(j: Json): Option<Listing> {
    match Get(j, "err")
    case Some(error) =>
      var e :- IoFrom(error);
      Some(Err(e))
    case None =>
      var ok :- Get(j, "ok");
      var values :- AsArray(ok);
      var items :- ItemsFrom(values);
      Some(Ok(items))
  }

  predicate IsListing(listing: Listing) {
    match listing
    case Err(e) => IsIoError(e)
    case Ok(items) => forall i | 0 <= i < |items| :: items[i].Err? ==> IsIoError(items[i].error)
  }

  /** What a recording keeps of an entry, and of a listing. */
  ghost function KeptItem(item: Result<DirEntry>, replaced: seq<Byte> -> string): Result<DirEntry> {
    match item
    case Ok(entry) => Ok(entry.(name := Utf8(Lossy(entry.name, replaced))))
    case Err(e) => Err(KeptIo(e))
  }

  ghost function KeptListing(listing: Listing, replaced: seq<Byte> -> string): Listing {
    match listing
    case Err(e) => Err(KeptIo(e))
    case Ok(items) => Ok(seq(|items|, i requires 0 <= i < |items| => KeptItem(items[i], replaced)))
  }

  lemma ItemRoundTrip(item: Result<DirEntry>, replaced: seq<Byte> -> string)
    requires item.Err? ==> IsIoError(item.error)
    ensures ItemFrom(ItemValue(item, replaced)) == Some(KeptItem(item, replaced))
    ensures WellFormed(ItemValue(item, replaced))
  {
    hide IoFrom, IoValue, FromUtf8;
    match item {
      case Ok(entry) =>
      case Err(e) => IoRoundTrip(e);
    }
  }

  lemma {:induction false} ItemsRoundTrip(items: seq<Result<DirEntry>>, values: seq<Json>,
                                          kept: seq<Result<DirEntry>>)
    requires |items| == |values| == |kept|
    requires forall i | 0 <= i < |items| :: ItemFrom(values[i]) == Some(kept[i])
    ensures ItemsFrom(values) == Some(kept)
    decreases |items|
  {
    if items != [] {
      ItemsRoundTrip(items[1..], values[1..], kept[1..]);
      assert kept == [kept[0]] + kept[1..];
    }
  }

  lemma ListingRoundTrip(listing: Listing, replaced: seq<Byte> -> string)
    requires IsListing(listing)
    ensures ListingFrom(ListingValue(listing, replaced)) == Some(KeptListing(listing, replaced))
    ensures WellFormed(ListingValue(listing, replaced))
  {
    hide IoFrom, IoValue, ItemFrom, ItemValue, KeptItem;
    match listing {
      case Err(e) => IoRoundTrip(e);
      case Ok(items) =>
        forall i | 0 <= i < |items|
          ensures ItemFrom(ItemValue(items[i], replaced)) == Some(KeptItem(items[i], replaced))
          ensures WellFormed(ItemValue(items[i], replaced))
        {
          ItemRoundTrip(items[i], replaced);
        }
        var values := seq(|items|, i requires 0 <= i < |items| => ItemValue(items[i], replaced));
        ItemsRoundTrip(items, values, KeptListing(listing, replaced).value);
    }
  }

  // ---- results of commands ------------------------------------------------------------------------------

  /** How a child ended, as `wait` reports it. */
  type WaitStatus = s: nat | s < 0x1_0000

  function ExitCode(status: int): Option<int> {
    if status % 128 == 0 then Some(status / 256 % 256) else None
  }

  /** The signal that ended the child; the bit saying that it dumped core is not part of it. */
  function Signal(status: int): Option<int> {
    if status % 128 != 0 && status % 128 != 127 then Some(status % 128) else None
  }

  /** A stopped child, which `wait` reports only on request. */
  predicate Stopped(status: int) {
    status % 128 == 127
  }

  datatype Output = Output(status: int, stdout: seq<Byte>, stderr: seq<Byte>)

  datatype CommandError =
    | Spawn(program: string, source: IoError)
    | Wait(program: string, source: IoError)
    | Kill(program: string, source: IoError)
    | Read(program: string, stream: string, source: IoError)
    | Write(program: string, source: IoError)
    | ReaderPanicked(program: string, stream: string)
    | TimedOut(program: string, nanos: nat)
    | BudgetExhausted(program: string)
    | OutputLimit(program: string, stream: string, limit: nat)

  datatype CommandResult = Completed(output: Output) | Failed(error: CommandError)

  function OptionalInt(value: Option<int>): Json {
    match value
    case None => Null
    case Some(i) => Int(i)
  }

  function EndValue(code: Option<int>, signal: Option<int>): Json {
    Object(Field("code", OptionalInt(code), Field("signal", OptionalInt(signal), NoFields)))
  }

  function StatusValue(status: int): Json {
    EndValue(ExitCode(status), Signal(status))
  }

  function StatusFrom(j: Json): Option<int> {
    var signal, code := Get(j, "signal"), Get(j, "code");
    if signal.Some? && AsInt(signal.value).Some? then I32(AsInt(signal.value).value)
    else if code.Some? && AsInt(code.value).Some? then
      var c :- I32(AsInt(code.value).value);
      Some((c * 256 + 0x8000_0000) % 0x1_0000_0000 - 0x8000_0000)
    else Some(0)
  }

  function KeptStatus(status: int): int {
    if Signal(status).Some? then status % 128
    else if ExitCode(status).Some? then ExitCode(status).value * 256
    else 0
  }

  lemma EndRoundTrip(code: Option<int>, signal: Option<int>)
    requires code.Some? ==> 0 <= code.value < 256
    requires signal.Some? ==> 0 <= signal.value < 256
    ensures StatusFrom(EndValue(code, signal)) ==
            Some(if signal.Some? then signal.value else if code.Some? then code.value * 256 else 0)
    ensures WellFormed(EndValue(code, signal))
  {
    hide AsInt, Int;
    if code.Some? { NumbersReadBack(code.value); }
    if signal.Some? { NumbersReadBack(signal.value); }
    NullIsNoNumber();
  }

  lemma NullIsNoNumber()
    ensures AsInt(Null) == None
  {
  }

  /** Exit code and signal come back, except that a stopped child reads as a success. */
  lemma StatusRoundTrip(status: WaitStatus)
    ensures StatusFrom(StatusValue(status)) == Some(KeptStatus(status))
    ensures WellFormed(StatusValue(status))
    ensures ExitCode(KeptStatus(status)) == ExitCode(status) && Signal(KeptStatus(status)) == Signal(status)
            <==> !Stopped(status)
    ensures Stopped(status) ==> ExitCode(KeptStatus(status)) == Some(0)
    ensures KeptStatus(KeptStatus(status)) == KeptStatus(status)
    ensures 0 <= KeptStatus(status) < 0x1_0000
  {
    hide StatusFrom, EndValue;
    EndRoundTrip(ExitCode(status), Signal(status));
  }

  ghost function OutputValue(output: Output): Json {
    Object(Field("status", StatusValue(output.status),
                 Field("stdout", BytesValue(output.stdout),
                       Field("stderr", BytesValue(output.stderr), NoFields))))
  }

  function OutputFrom(j: Json): Option<Output> {
    var statusValue :- Get(j, "status");
    var status :- StatusFrom(statusValue);
    var stdoutValue :- Get(j, "stdout");
    var stdout :- BytesFrom(stdoutValue);
    var stderrValue :- Get(j, "stderr");
    var stderr :- BytesFrom(stderrValue);
    Some(Output(status, stdout, stderr))
  }

  function VariantName(e: CommandError): string {
    match e
    case Spawn(_, _) => "Spawn"
    case Wait(_, _) => "Wait"
    case Kill(_, _) => "Kill"
    case Read(_, _, _) => "Read"
    case Write(_, _) => "Write"
    case ReaderPanicked(_, _) => "ReaderPanicked"
    case TimedOut(_, _) => "TimedOut"
    case BudgetExhausted(_) => "BudgetExhausted"
    case OutputLimit(_, _, _) => "OutputLimit"
  }

  function ErrorDetails(e: CommandError): seq<(string, Json)> {
    match e
    case Spawn(_, source) => Field("io", IoValue(source), NoFields)
    case Wait(_, source) => Field("io", IoValue(source), NoFields)
    case Kill(_, source) => Field("io", IoValue(source), NoFields)
    case Read(_, stream, source) => Field("stream", String(stream), Field("io", IoValue(source), NoFields))
    case Write(_, source) => Field("io", IoValue(source), NoFields)
    case ReaderPanicked(_, stream) => Field("stream", String(stream), NoFields)
    case TimedOut(_, nanos) => Field("timeout_nanos", Nat(nanos % U64), NoFields)
    case BudgetExhausted(_) => NoFields
    case OutputLimit(_, stream, limit) => Field("stream", String(stream), Field("limit", Nat(limit), NoFields))
  }

  function ErrorValue(e: CommandError): Json {
    Object(Field("variant", String(VariantName(e)), Field("program", String(e.program), ErrorDetails(e))))
  }

  function StreamFrom(j: Json): Option<string> {
    var value :- Get(j, "stream");
    var stream :- AsStr(value);
    if stream == "stdout" || stream == "stderr" then Some(stream) else None
  }

  function SourceFrom(j: Json): Option<IoError> {
    var value :- Get(j, "io");
    IoFrom(value)
  }

  function NumberFrom(j: Json, name: string): Option<nat> {
    var value :- Get(j, name);
    AsUnsigned(value, U64 - 1)
  }

  /** `decode_command_error`, once the program and the variant are known. */
  function VariantFrom(j: Json, program: string, variant: string): Option<CommandError> {
    if variant == "Spawn" then
      var source :- SourceFrom(j);
      Some(Spawn(program, source))
    else if variant == "Wait" then
      var source :- SourceFrom(j);
      Some(Wait(program, source))
    else if variant == "Kill" then
      var source :- SourceFrom(j);
      Some(Kill(program, source))
    else if variant == "Write" then
      var source :- SourceFrom(j);
      Some(Write(program, source))
    else if variant == "Read" then
      var stream :- StreamFrom(j);
      var source :- SourceFrom(j);
      Some(Read(program, stream, source))
    else if variant == "ReaderPanicked" then
      var stream :- StreamFrom(j);
      Some(ReaderPanicked(program, stream))
    else if variant == "TimedOut" then
      var nanos :- NumberFrom(j, "timeout_nanos");
      Some(TimedOut(program, nanos))
    else if variant == "BudgetExhausted" then Some(BudgetExhausted(program))
    else if variant == "OutputLimit" then
      var stream :- StreamFrom(j);
      var limit :- NumberFrom(j, "limit");
      Some(OutputLimit(program, stream, limit))
    else None
  }

  function ErrorFrom(j: Json): Option<CommandError> {
    var programValue :- Get(j, "program");
    var program :- AsStr(programValue);
    var variantValue :- Get(j, "variant");
    var variant :- AsStr(variantValue);
    VariantFrom(j, program, variant)
  }

  ghost function CommandValue(result: CommandResult): Json {
    match result
    case Completed(output) => Object(Field("ok", OutputValue(output), NoFields))
    case Failed(error) => Object(Field("err", ErrorValue(error), NoFields))
  }

  function CommandFrom(j: Json): Option<CommandResult> {
    match Get(j, "ok")
    case Some(ok) =>
      var output :- OutputFrom(ok);
      Some(Completed(output))
    case None =>
      var value :- Get(j, "err");
      var error :- ErrorFrom(value);
      Some(Failed(error))
  }

  predicate HasSource(e: CommandError) {
    e.Spawn? || e.Wait? || e.Kill? || e.Read? || e.Write?
  }

  predicate HasStream(e: CommandError) {
    e.Read? || e.ReaderPanicked? || e.OutputLimit?
  }

  /** What the command runner can report: its streams have two names, a limit is 64 bits wide. */
  predicate IsCommandError(e: CommandError) {
    && (HasStream(e) ==> e.stream == "stdout" || e.stream == "stderr")
    && (HasSource(e) ==> IsIoError(e.source))
    && (e.OutputLimit? ==> e.limit < U64)
  }

  predicate IsCommandResult(result: CommandResult) {
    match result
    case Completed(output) => 0 <= output.status < 0x1_0000
    case Failed(error) => IsCommandError(error)
  }

  function KeptError(e: CommandError): CommandError {
    if HasSource(e) then e.(source := KeptIo(e.source))
    else if e.TimedOut? then e.(nanos := e.nanos % U64)
    else e
  }

  /** What a recording keeps of a command's result. */
  function Kept(result: CommandResult): CommandResult {
    match result
    case Completed(output) => Completed(output.(status := KeptStatus(output.status)))
    case Failed(error) => Failed(KeptError(error))
  }

  lemma DetailsReadBack(e: CommandError, j: Json)
    requires IsCommandError(e)
    requires forall n :: FieldFrom(ErrorDetails(e), n).Some? ==> Get(j, n) == FieldFrom(ErrorDetails(e), n)
    ensures VariantFrom(j, e.program, VariantName(e)) == Some(KeptError(e))
  {
    hide Nat, AsUnsigned, IoValue, IoFrom, FieldFrom, Field;
    if HasSource(e) { IoRoundTrip(e.source); }
    if e.TimedOut? { NaturalsReadBack(e.nanos % U64, U64 - 1); }
    if e.OutputLimit? { NaturalsReadBack(e.limit, U64 - 1); }
  }

  lemma TextIsWellFormed(text: string)
    ensures WellFormed(String(text)) && WellFormed(Object(NoFields))
  {
  }

  lemma DetailsAreWellFormed(e: CommandError)
    requires IsCommandError(e)
    ensures WellFormed(Object(ErrorDetails(e)))
    ensures FieldFrom(ErrorDetails(e), "program") == None && FieldFrom(ErrorDetails(e), "variant") == None
  {
    hide Nat, IoValue, Field, WellFormed;
    TextIsWellFormed(if HasStream(e) then e.stream else "");
    if HasSource(e) { IoRoundTrip(e.source); }
    if e.TimedOut? { NaturalsReadBack(e.nanos % U64, U64 - 1); }
    if e.OutputLimit? { NaturalsReadBack(e.limit, U64 - 1); }
  }

  /** A failure comes back as it was exactly when its cause has a kind of its own and its
      timeout fits 64 bits of nanoseconds. */
  lemma ErrorRoundTrip(e: CommandError)
    requires IsCommandError(e)
    ensures ErrorFrom(ErrorValue(e)) == Some(KeptError(e))
    ensures ErrorFrom(ErrorValue(e)) == Some(e) <==>
            && (HasSource(e) && e.source.Custom? ==> e.source.kind in NamedKinds || e.source.kind == "Other")
            && (e.TimedOut? ==> e.nanos < U64)
    ensures WellFormed(ErrorValue(e))
  {
    hide ErrorDetails, VariantFrom, VariantName;
    DetailsAreWellFormed(e);
    DetailsReadBack(e, ErrorValue(e));
  }

  lemma OutputRoundTrip(output: Output)
    requires 0 <= output.status < 0x1_0000
    ensures OutputFrom(OutputValue(output)) == Some(output.(status := KeptStatus(output.status)))
    ensures WellFormed(OutputValue(output))
  {
    hide StatusFrom, StatusValue, BytesValue, BytesFrom, KeptStatus;
    StatusRoundTrip(output.status);
    BytesRoundTrip(output.stdout);
    BytesRoundTrip(output.stderr);
  }

  /** Whatever a command's result, a recording of it can be read, and what is read then reads
      back as itself: a replay is shown what the recorded run was shown. */
  lemma CommandRoundTrip(result: CommandResult)
    requires IsCommandResult(result)
    ensures CommandFrom(CommandValue(result)) == Some(Kept(result))
    ensures WellFormed(CommandValue(result))
    ensures IsCommandResult(Kept(result)) && Kept(Kept(result)) == Kept(result)
  {
    hide OutputFrom, OutputValue, ErrorFrom, ErrorValue;
    match result {
      case Completed(output) =>
        OutputRoundTrip(output);
        StatusRoundTrip(output.status);
      case Failed(e) =>
        ErrorRoundTrip(e);
        if e.TimedOut? { assert 0 <= e.nanos % U64 < U64; }
    }
  }

  /** What does not come back: a stopped child reads as one that succeeded, a timeout of 2^64
      nanoseconds as none. */
  lemma WhatIsLost(program: string, stdout: seq<Byte>, stderr: seq<Byte>)
    ensures CommandFrom(CommandValue(Completed(Output(0x137F, stdout, stderr))))
         == Some(Completed(Output(0, stdout, stderr)))
    ensures CommandFrom(CommandValue(Failed(TimedOut(program, U64)))) == Some(Failed(TimedOut(program, 0)))
  {
    hide CommandFrom, CommandValue;
    CommandRoundTrip(Completed(Output(0x137F, stdout, stderr)));
    CommandRoundTrip(Failed(TimedOut(program, U64)));
  }

  // ---- the order of fields is not read ---------------------------------------------------------------------

  /** Both absent, or present and equal up to the order of fields. */
  predicate SameOption(a: Option<Json>, b: Option<Json>) {
    a.Some? == b.Some? && (a.Some? ==> WellFormed(a.value) && WellFormed(b.value) && Same(a.value, b.value))
  }

  lemma GetFinds(f: seq<(string, Json)>, g: seq<(string, Json)>, name: string)
    requires WellFormed(Object(f)) && WellFormed(Object(g)) && Same(Object(f), Object(g))
    ensures FieldFrom(g, name).Some? ==> FieldFrom(f, name).Some?
  {
    FieldFromMeans(f, name);
    FieldFromMeans(g, name);
    TextOfSame(Object(f), Object(g));
    ObjectTexts(f, g);
    hide Canonical.Text, Same, WellFormed, FieldFrom;
    if FieldFrom(g, name).Some? {
      var k :| 0 <= k < |g| && g[k].0 == name;
      assert Members(g)[k] in Members(f);
    }
  }

  lemma GetIsByName(a: Json, b: Json, name: string)
    requires WellFormed(a) && WellFormed(b) && Same(a, b)
    ensures SameOption(Get(a, name), Get(b, name))
  {
    hide FieldFrom;
    if a.Object? {
      GetFinds(a.fields, b.fields, name);
      FieldFromMeans(a.fields, name);
      FieldFromMeans(b.fields, name);
      if Get(a, name).Some? {
        var i :| 0 <= i < |a.fields| && a.fields[i].0 == name;
        var k :| 0 <= k < |b.fields| && a.fields[i].0 == b.fields[k].0 && Same(a.fields[i].1, b.fields[k].1);
      }
    }
  }

  lemma IoFromIsByName(a: Json, b: Json)
    requires WellFormed(a) && WellFormed(b) && Same(a, b)
    ensures IoFrom(a) == IoFrom(b)
  {
    hide Get, WellFormed;
    GetIsByName(a, b, "os");
    GetIsByName(a, b, "kind");
    GetIsByName(a, b, "message");
  }

  lemma BytesFromIsByName(a: Json, b: Json)
    requires WellFormed(a) && WellFormed(b) && Same(a, b)
    ensures BytesFrom(a) == BytesFrom(b)
  {
    hide Get, WellFormed;
    GetIsByName(a, b, "utf8");
    GetIsByName(a, b, "hex");
  }

  lemma StatusFromIsByName(a: Json, b: Json)
    requires WellFormed(a) && WellFormed(b) && Same(a, b)
    ensures StatusFrom(a) == StatusFrom(b)
  {
    hide Get, WellFormed;
    GetIsByName(a, b, "code");
    GetIsByName(a, b, "signal");
  }

  lemma OutputFromIsByName(a: Json, b: Json)
    requires WellFormed(a) && WellFormed(b) && Same(a, b)
    ensures OutputFrom(a) == OutputFrom(b)
  {
    hide Get, WellFormed, StatusFrom, BytesFrom, Same;
    GetIsByName(a, b, "status");
    GetIsByName(a, b, "stdout");
    GetIsByName(a, b, "stderr");
    if Get(a, "status").Some? { StatusFromIsByName(Get(a, "status").value, Get(b, "status").value); }
    if Get(a, "stdout").Some? { BytesFromIsByName(Get(a, "stdout").value, Get(b, "stdout").value); }
    if Get(a, "stderr").Some? { BytesFromIsByName(Get(a, "stderr").value, Get(b, "stderr").value); }
  }

  lemma PartsAreByName(a: Json, b: Json)
    requires WellFormed(a) && WellFormed(b) && Same(a, b)
    ensures SourceFrom(a) == SourceFrom(b) && StreamFrom(a) == StreamFrom(b)
    ensures NumberFrom(a, "timeout_nanos") == NumberFrom(b, "timeout_nanos")
    ensures NumberFrom(a, "limit") == NumberFrom(b, "limit")
  {
    hide Get, WellFormed, IoFrom;
    GetIsByName(a, b, "io");
    GetIsByName(a, b, "stream");
    GetIsByName(a, b, "timeout_nanos");
    GetIsByName(a, b, "limit");
    if Get(a, "io").Some? { IoFromIsByName(Get(a, "io").value, Get(b, "io").value); }
  }

  lemma ErrorFromIsByName(a: Json, b: Json)
    requires WellFormed(a) && WellFormed(b) && Same(a, b)
    ensures ErrorFrom(a) == ErrorFrom(b)
  {
    hide Get, WellFormed, SourceFrom, StreamFrom, NumberFrom;
    GetIsByName(a, b, "program");
    GetIsByName(a, b, "variant");
    PartsAreByName(a, b);
  }

  /** Reading a command's result does not depend on the order of fields at any depth. */
  lemma CommandFromIsByName(a: Json, b: Json)
    requires WellFormed(a) && WellFormed(b) && Same(a, b)
    ensures CommandFrom(a) == CommandFrom(b)
  {
    hide Get, WellFormed, OutputFrom, ErrorFrom, Same;
    GetIsByName(a, b, "ok");
    GetIsByName(a, b, "err");
    if Get(a, "ok").Some? { OutputFromIsByName(Get(a, "ok").value, Get(b, "ok").value); }
    if Get(a, "err").Some? { ErrorFromIsByName(Get(a, "err").value, Get(b, "err").value); }
  }

  lemma ItemFromIsByName(a: Json, b: Json)
    requires WellFormed(a) && WellFormed(b) && Same(a, b)
    ensures ItemFrom(a) == ItemFrom(b)
  {
    hide Get, WellFormed, IoFrom;
    GetIsByName(a, b, "err");
    GetIsByName(a, b, "name");
    GetIsByName(a, b, "type");
    if Get(a, "err").Some? { IoFromIsByName(Get(a, "err").value, Get(b, "err").value); }
  }

  lemma {:induction false} ItemsFromIsByName(xs: seq<Json>, ys: seq<Json>)
    requires |xs| == |ys|
    requires forall i | 0 <= i < |xs| :: WellFormed(xs[i]) && WellFormed(ys[i]) && Same(xs[i], ys[i])
    ensures ItemsFrom(xs) == ItemsFrom(ys)
    decreases |xs|
  {
    hide ItemFrom;
    if xs != [] {
      ItemFromIsByName(xs[0], ys[0]);
      ItemsFromIsByName(xs[1..], ys[1..]);
    }
  }

  /** Nor does reading a directory listing. */
  lemma ListingFromIsByName(a: Json, b: Json)
    requires WellFormed(a) && WellFormed(b) && Same(a, b)
    ensures ListingFrom(a) == ListingFrom(b)
  {
    hide Get, IoFrom, ItemsFrom;
    GetIsByName(a, b, "err");
    GetIsByName(a, b, "ok");
    if Get(a, "err").Some? { IoFromIsByName(Get(a, "err").value, Get(b, "err").value); }
    if Get(a, "ok").Some? && Get(a, "ok").value.Array? {
      ItemsFromIsByName(Get(a, "ok").value.items, Get(b, "ok").value.items);
    }
  }
}
