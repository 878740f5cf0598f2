/** The frames of Sway's IPC socket (MESSAGE AND REPLY FORMAT of sway-ipc(7), little-endian). */
module SwayFrames {
  import opened Wrappers
  import opened Bytes

  /** "i3-ipc". */
  const IPC_MAGIC: seq<Byte> := [0x69, 0x33, 0x2D, 0x69, 0x70, 0x63]
  const IPC_SUBSCRIBE: nat := 2
  const IPC_EVENT_BINDING: nat := 0x8000_0005
  const HEADER: nat := 14
  const MAX_LENGTH: nat := 1_000_000
  /** `["binding"]`. */
  const SUBSCRIPTION: seq<Byte> := [0x5B, 0x22, 0x62, 0x69, 0x6E, 0x64, 0x69, 0x6E, 0x67, 0x22, 0x5D]

  // ---- layout -----------------------------------------------------------------------------------

  function LittleEndian(n: nat): (bytes: seq<Byte>)
    requires n < 0x1_0000_0000
    ensures |bytes| == 4
  {
    [n % 256, n / 256 % 256, n / 0x1_0000 % 256, n / 0x100_0000]
  }

  function Unsigned(bytes: seq<Byte>): nat
    requires |bytes| == 4
  {
    var b0: nat, b1: nat, b2: nat, b3: nat := bytes[0], bytes[1], bytes[2], bytes[3];
    b0 + 256 * b1 + 0x1_0000 * b2 + 0x100_0000 * b3
  }

  lemma UnsignedOfLittleEndian(n: nat)
    requires n < 0x1_0000_0000
    ensures Unsigned(LittleEndian(n)) == n
  {
    var q := n / 256;
    DivideTwice(n, 256, 256);
    DivideTwice(n, 256, 0x1_0000);
    DivideTwice(q, 256, 256);
    assert q == q / 256 * 256 + q % 256;
  }

  lemma DivideTwice(n: nat, a: nat, b: nat)
    requires a == 256 && (b == 256 || b == 0x1_0000)
    ensures n / a / b == n / (a * b)
  {
  }

  datatype Frame = Frame(kind: nat, payload: seq<Byte>)

  predicate IsFrame(frame: Frame) {
    frame.kind < 0x1_0000_0000 && |frame.payload| <= MAX_LENGTH
  }

  /** A frame as it is sent. */
  function Layout(frame: Frame): (bytes: seq<Byte>)
    requires frame.kind < 0x1_0000_0000 && |frame.payload| < 0x1_0000_0000
    ensures |bytes| == HEADER + |frame.payload|
  {
    IPC_MAGIC + LittleEndian(|frame.payload|) + LittleEndian(frame.kind) + frame.payload
  }

  // ---- reading frames -------------------------------------------------------------------------------

  datatype Error = InvalidHeader | TooLong | BadEvent

  /** The first frame in a buffer, if it is all there. */
  datatype First = Incomplete | Broken(error: Error) | Complete(frame: Frame, rest: seq<Byte>)

  function FirstFrame(buffer: seq<Byte>): (first: First)
    ensures first.Complete? ==> |first.rest| < |buffer|
  {
    if |buffer| < HEADER then Incomplete
    else if buffer[..6] != IPC_MAGIC then Broken(InvalidHeader)
    else
      var length := Unsigned(buffer[6..10]);
      if length > MAX_LENGTH then Broken(TooLong)
      else if |buffer| < HEADER + length then Incomplete
      else
        Complete(Frame(Unsigned(buffer[10..HEADER]), buffer[HEADER..HEADER + length]),
                 buffer[HEADER + length..])
  }

  /** What a binding event is decoded to: a key, nothing to report, or no event at all. */
  datatype Decoded<K> = Key(key: K) | Nothing | Malformed
  type Decoder<!K> = seq<Byte> -> Decoded<K>

  /** What a call returns, and what it leaves in the buffer. */
  datatype Outcome<K> = Pending | Observed(key: K) | Failed(error: Error)
  datatype Parsed<K> = Parsed(outcome: Outcome<K>, buffer: seq<Byte>)

  function Parse<K>(buffer: seq<Byte>, decode: Decoder<K>): (parsed: Parsed<K>)
    ensures parsed.outcome.Observed? ==> |parsed.buffer| < |buffer|
    decreases |buffer|
  {
    match FirstFrame(buffer)
    case Incomplete => Parsed(Pending, buffer)
    case Broken(error) => Parsed(Failed(error), buffer)
    case Complete(frame, rest) =>
      if frame.kind != IPC_EVENT_BINDING then Parse(rest, decode)
      else
        match decode(frame.payload)
        case Malformed => Parsed(Failed(BadEvent), rest)
        case Key(key) => Parsed(Observed(key), rest)
        case Nothing => Parse(rest, decode)
  }

  datatype ReadResult = Bytes(bytes: seq<Byte>) | WouldBlock | ReadError

  class SwayCaptureSession {
    var buffer: seq<Byte>

    constructor ()
      ensures buffer == []
    {
      buffer := [];
    }

    /** `send_subscribe`: the frame that is written. */
    method Subscription() returns (frame: seq<Byte>)
      ensures frame == Layout(Frame(IPC_SUBSCRIBE, SUBSCRIPTION))
    {
      frame := [];
      frame := frame + IPC_MAGIC;
      frame := frame + LittleEndian(|SUBSCRIPTION|);
      frame := frame + LittleEndian(IPC_SUBSCRIBE);
      frame := frame + SUBSCRIPTION;
    }

    /** `parse_event`. */
    method ParseEvent<K>(decode: Decoder<K>) returns (outcome: Outcome<K>)
      modifies this
      ensures Parsed(outcome, buffer) == Parse(old(buffer), decode)
    {
      while true
        invariant Parse(buffer, decode) == Parse(old(buffer), decode)
        decreases |buffer|
      {
        if |buffer| < HEADER {
          return Pending;
        }
        if buffer[..6] != IPC_MAGIC {
          return Failed(InvalidHeader);
        }
        var length := Unsigned(buffer[6..10]);
        var kind := Unsigned(buffer[10..14]);
        if length > MAX_LENGTH {
          return Failed(TooLong);
        }
        if |buffer| < HEADER + length {
          return Pending;
        }
        var payload := buffer[HEADER..HEADER + length];
        assert FirstFrame(buffer) == Complete(Frame(kind, payload), buffer[HEADER + length..]);
        buffer := buffer[HEADER + length..];
        if kind == IPC_EVENT_BINDING {
          match decode(payload) {
            case Malformed => return Failed(BadEvent);
            case Key(key) => return Observed(key);
            case Nothing =>
          }
        }
      }
    }

    /** `read_incoming`: how many bytes were added; `None` when the socket is closed or broken. */
    method ReadIncoming(result: ReadResult) returns (size: Option<nat>)
      modifies this
      ensures buffer == old(buffer) + if result.Bytes? then result.bytes else []
      ensures size == match result
                      case Bytes(bytes) => if bytes == [] then None else Some(|bytes|)
                      case WouldBlock => Some(0)
                      case ReadError => None
    {
      match result {
        case Bytes(bytes) =>
          if bytes == [] {
            size := None;
          } else {
            buffer := buffer + bytes;
            size := Some(|bytes|);
          }
        case WouldBlock => size := Some(0);
        case ReadError => size := None;
      }
    }
  }

  // ---- everything a stream delivers --------------------------------------------------------------------

  /** The keys delivered, in order; the error that ended it, if any; and what is left over. */
  datatype Delivery<K> = Delivery(keys: seq<K>, error: Option<Error>, rest: seq<Byte>)

  /** Calling `parse_event` until it asks for more. */
  function Delivered<K>(buffer: seq<Byte>, decode: Decoder<K>): Delivery<K>
    decreases |buffer|
  {
    var parsed := Parse(buffer, decode);
    match parsed.outcome
    case Pending => Delivery([], None, parsed.buffer)
    case Failed(error) => Delivery([], Some(error), parsed.buffer)
    case Observed(key) =>
      var more := Delivered(parsed.buffer, decode);
      more.(keys := [key] + more.keys)
  }

  /** Reading one chunk after another, and taking all there is after each. */
  function Fed<K>(buffer: seq<Byte>, chunks: seq<seq<Byte>>, decode: Decoder<K>): Delivery<K>
    decreases |chunks|
  {
    if chunks == [] then Delivery([], None, buffer)
    else
      var now := Delivered(buffer + chunks[0], decode);
      if now.error.Some? then now
      else
        var more := Fed(now.rest, chunks[1..], decode);
        more.(keys := now.keys + more.keys)
  }

  function Concat(chunks: seq<seq<Byte>>): seq<Byte> {
    if chunks == [] then [] else chunks[0] + Concat(chunks[1..])
  }

  /** More bytes do not change a frame that is complete or broken. */
  lemma FirstFrameOfMore(buffer: seq<Byte>, more: seq<Byte>)
    ensures match FirstFrame(buffer)
            case Incomplete => true
            case Broken(error) => FirstFrame(buffer + more) == Broken(error)
            case Complete(frame, rest) => FirstFrame(buffer + more) == Complete(frame, rest + more)
  {
    var all := buffer + more;
    if |buffer| >= HEADER {
      assert all[..6] == buffer[..6] && all[6..10] == buffer[6..10] && all[10..HEADER] == buffer[10..HEADER];
      var length := Unsigned(buffer[6..10]);
      if |buffer| >= HEADER + length {
        assert all[HEADER..HEADER + length] == buffer[HEADER..HEADER + length];
        assert all[HEADER + length..] == buffer[HEADER + length..] + more;
      }
    }
  }

  lemma {:induction false} ParseOfMore<K>(buffer: seq<Byte>, more: seq<Byte>, decode: Decoder<K>)
    ensures var parsed := Parse(buffer, decode);
            match parsed.outcome
            case Pending => Parse(buffer + more, decode) == Parse(parsed.buffer + more, decode)
            case Failed(error) => Parse(buffer + more, decode).outcome == Failed(error)
            case Observed(key) => Parse(buffer + more, decode) == Parsed(Observed(key), parsed.buffer + more)
    decreases |buffer|
  {
    hide FirstFrame;
    FirstFrameOfMore(buffer, more);
    match FirstFrame(buffer) {
      case Incomplete =>
      case Broken(_) =>
      case Complete(_, rest) => ParseOfMore(rest, more, decode);
    }
  }

  lemma {:induction false} DeliveredOfMore<K>(buffer: seq<Byte>, more: seq<Byte>, decode: Decoder<K>)
    ensures var now, all := Delivered(buffer, decode), Delivered(buffer + more, decode);
            if now.error.Some? then all.keys == now.keys && all.error == now.error
            else
              var later := Delivered(now.rest + more, decode);
              all == later.(keys := now.keys + later.keys)
    decreases |buffer|
  {
    hide Parse;
    ParseOfMore(buffer, more, decode);
    var parsed := Parse(buffer, decode);
    match parsed.outcome {
      case Pending => DeliveredSame(buffer + more, parsed.buffer + more, decode);
      case Failed(_) =>
      case Observed(_) => DeliveredOfMore(parsed.buffer, more, decode);
    }
  }

  lemma DeliveredSame<K>(a: seq<Byte>, b: seq<Byte>, decode: Decoder<K>)
    requires Parse(a, decode) == Parse(b, decode)
    ensures Delivered(a, decode) == Delivered(b, decode)
  {
    hide Parse;
  }

  lemma {:induction false} RestIsSettled<K>(buffer: seq<Byte>, decode: Decoder<K>)
    ensures var now := Delivered(buffer, decode);
            now.error.None? ==> Delivered(now.rest, decode) == Delivery([], None, now.rest)
    decreases |buffer|
  {
    hide Parse;
    var parsed := Parse(buffer, decode);
    match parsed.outcome {
      case Pending =>
        PendingIsSettled(buffer, decode);
      case Failed(_) =>
      case Observed(_) => RestIsSettled(parsed.buffer, decode);
    }
  }

  lemma {:induction false} PendingIsSettled<K>(buffer: seq<Byte>, decode: Decoder<K>)
    requires Parse(buffer, decode).outcome.Pending?
    ensures var rest := Parse(buffer, decode).buffer;
            Parse(rest, decode) == Parsed(Pending, rest)
    decreases |buffer|
  {
    hide FirstFrame;
    if FirstFrame(buffer).Complete? {
      PendingIsSettled(FirstFrame(buffer).rest, decode);
    }
  }

  /** How a stream is cut into reads does not matter: the keys, the error and what is left over
      are those of the whole stream. */
  lemma {:induction false} ReadsMayBeCutAnywhere<K>(buffer: seq<Byte>, chunks: seq<seq<Byte>>, decode: Decoder<K>)
    requires Delivered(buffer, decode) == Delivery([], None, buffer)
    ensures var fed, whole := Fed(buffer, chunks, decode), Delivered(buffer + Concat(chunks), decode);
            fed.keys == whole.keys && fed.error == whole.error && (fed.error.None? ==> fed.rest == whole.rest)
    decreases |chunks|
  {
    hide Delivered;
    if chunks == [] {
      assert buffer + Concat(chunks) == buffer;
    } else {
      var read, later := buffer + chunks[0], Concat(chunks[1..]);
      assert buffer + Concat(chunks) == read + later;
      DeliveredOfMore(read, later, decode);
      var now := Delivered(read, decode);
      if now.error.None? {
        RestIsSettled(read, decode);
        ReadsMayBeCutAnywhere(now.rest, chunks[1..], decode);
      }
    }
  }

  // ---- streams of frames ---------------------------------------------------------------------------------

  function Stream(frames: seq<Frame>): seq<Byte>
    requires forall i | 0 <= i < |frames| :: IsFrame(frames[i])
  {
    if frames == [] then []
    else
      assert IsFrame(frames[0]);
      Layout(frames[0]) + Stream(frames[1..])
  }

  /** The keys of the binding events, in order, up to a malformed one. */
  function KeysOf<K>(frames: seq<Frame>, decode: Decoder<K>): (seq<K>, Option<Error>) {
    if frames == [] then ([], None)
    else if frames[0].kind != IPC_EVENT_BINDING then KeysOf(frames[1..], decode)
    else
      match decode(frames[0].payload)
      case Malformed => ([], Some(BadEvent))
      case Nothing => KeysOf(frames[1..], decode)
      case Key(key) =>
        var (keys, error) := KeysOf(frames[1..], decode);
        ([key] + keys, error)
  }

  lemma LayoutParts(frame: Frame)
    requires IsFrame(frame)
    ensures var bytes := Layout(frame);
            && bytes[..6] == IPC_MAGIC
            && Unsigned(bytes[6..10]) == |frame.payload| && Unsigned(bytes[10..HEADER]) == frame.kind
            && bytes[HEADER..] == frame.payload
  {
    hide Unsigned, LittleEndian;
    var bytes := Layout(frame);
    UnsignedOfLittleEndian(|frame.payload|);
    UnsignedOfLittleEndian(frame.kind);
    assert bytes[6..10] == LittleEndian(|frame.payload|) && bytes[10..HEADER] == LittleEndian(frame.kind);
  }

  lemma FirstOfLayout(frame: Frame, rest: seq<Byte>)
    requires IsFrame(frame)
    ensures FirstFrame(Layout(frame) + rest) == Complete(frame, rest)
  {
    hide Unsigned, Layout;
    LayoutParts(frame);
    var bytes := Layout(frame);
    var all := bytes + rest;
    assert all[..6] == bytes[..6] && all[6..10] == bytes[6..10] && all[10..HEADER] == bytes[10..HEADER];
    assert all[HEADER..|bytes|] == bytes[HEADER..] && all[|bytes|..] == rest;
  }

  /** A frame of which bytes are missing is waited for. */
  lemma PartIsIncomplete(frame: Frame, n: nat)
    requires IsFrame(frame) && n < |Layout(frame)|
    ensures FirstFrame(Layout(frame)[..n]) == Incomplete
  {
    hide Unsigned, Layout;
    LayoutParts(frame);
    var bytes := Layout(frame);
    if n >= HEADER {
      assert bytes[..n][..6] == bytes[..6] && bytes[..n][6..10] == bytes[6..10];
    }
  }

  lemma {:induction false} FramesAreDelivered<K>(frames: seq<Frame>, part: seq<Byte>, decode: Decoder<K>)
    requires forall i | 0 <= i < |frames| :: IsFrame(frames[i])
    requires FirstFrame(part) == Incomplete
    ensures var all := Delivered(Stream(frames) + part, decode);
            (all.keys, all.error) == KeysOf(frames, decode) && (all.error.None? ==> all.rest == part)
    decreases |frames|
  {
    hide FirstFrame, Layout;
    if frames == [] {
      assert Stream(frames) + part == part;
    } else {
      var frame, more := frames[0], Stream(frames[1..]) + part;
      assert Stream(frames) + part == Layout(frame) + more;
      FirstOfLayout(frame, more);
      FramesAreDelivered(frames[1..], part, decode);
      var all := Layout(frame) + more;
      if frame.kind != IPC_EVENT_BINDING || decode(frame.payload).Nothing? {
        assert Parse(all, decode) == Parse(more, decode);
        DeliveredSame(all, more, decode);
      }
    }
  }

  /** Frames sent one after another and read in any pieces: each binding event is delivered once
      and in order, the other frames are passed over, and a frame that has begun is kept. */
  lemma EveryFrameArrivesOnce<K>(frames: seq<Frame>, next: Frame, n: nat, chunks: seq<seq<Byte>>, decode: Decoder<K>)
    requires forall i | 0 <= i < |frames| :: IsFrame(frames[i])
    requires IsFrame(next) && n < |Layout(next)|
    requires Concat(chunks) == Stream(frames) + Layout(next)[..n]
    ensures var fed := Fed([], chunks, decode);
            (fed.keys, fed.error) == KeysOf(frames, decode) && (fed.error.None? ==> fed.rest == Layout(next)[..n])
  {
    hide Layout, Fed, KeysOf, FirstFrame, Stream;
    PartIsIncomplete(next, n);
    FramesAreDelivered(frames, Layout(next)[..n], decode);
    NothingYet(decode);
    ReadsMayBeCutAnywhere([], chunks, decode);
    assert [] + Concat(chunks) == Concat(chunks);
  }

  lemma NothingYet<K>(decode: Decoder<K>)
    ensures Delivered([], decode) == Delivery([], None, [])
  {
  }
}
