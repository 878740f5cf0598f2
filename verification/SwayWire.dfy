/** Sway's frames, byte by byte. */
module SwayWire {
  import opened Bytes
  import opened SwayFrames

  /** The subscription, as it is written to the socket. */
  lemma SubscriptionOnTheWire()
    ensures Layout(Frame(IPC_SUBSCRIBE, SUBSCRIPTION)) ==
            [0x69, 0x33, 0x2D, 0x69, 0x70, 0x63, 11, 0, 0, 0, 2, 0, 0, 0,
             0x5B, 0x22, 0x62, 0x69, 0x6E, 0x64, 0x69, 0x6E, 0x67, 0x22, 0x5D]
    ensures forall i | 0 <= i < 11 :: SUBSCRIPTION[i] as char == "[\"binding\"]"[i]
    ensures forall i | 0 <= i < 6 :: IPC_MAGIC[i] as char == "i3-ipc"[i]
  {
  }

  /** A header with these length and kind bytes, and what follows it. */
  function Message(length: seq<Byte>, kind: seq<Byte>, behind: seq<Byte>): seq<Byte> {
    [0x69, 0x33, 0x2D, 0x69, 0x70, 0x63] + length + kind + behind
  }

  lemma MessageParts(length: seq<Byte>, kind: seq<Byte>, behind: seq<Byte>)
    requires |length| == 4 && |kind| == 4
    ensures var buffer := Message(length, kind, behind);
            && buffer[..6] == [0x69, 0x33, 0x2D, 0x69, 0x70, 0x63]
            && buffer[6..10] == length && buffer[10..14] == kind && buffer[14..] == behind
  {
  }

  /** The length is little-endian and at most a million; a payload is awaited in full, then taken. */
  lemma MessageIsRead(length: seq<Byte>, kind: seq<Byte>, behind: seq<Byte>)
    requires |length| == 4 && |kind| == 4
    ensures var low := length[0] as nat + 256 * length[1] as nat;
            var n := low + 0x1_0000 * length[2] as nat + 0x100_0000 * length[3] as nat;
            FirstFrame(Message(length, kind, behind)) ==
            if n > 1_000_000 then Broken(TooLong)
            else if |behind| < n then Incomplete
            else Complete(Frame(Unsigned(kind), behind[..n]), behind[n..])
  {
    MessageParts(length, kind, behind);
    var buffer := Message(length, kind, behind);
    assert |buffer| == 14 + |behind|;
    hide Message;
    var n := Unsigned(length);
    if n <= |behind| {
      assert buffer[14..14 + n] == behind[..n] && buffer[14 + n..] == behind[n..];
    }
  }

  /** Only events with the highest bit of the kind set, and 5 in the rest, are decoded. */
  lemma BindingEventsAreDecoded<K>(kind: seq<Byte>, decode: Decoder<K>, frame: Frame, buffer: seq<Byte>, rest: seq<Byte>)
    requires |kind| == 4 && frame.kind == Unsigned(kind) && FirstFrame(buffer) == Complete(frame, rest)
    ensures Parse(buffer, decode) ==
            if kind != [5, 0, 0, 0x80] then Parse(rest, decode)
            else
              match decode(frame.payload)
              case Malformed => Parsed(Failed(BadEvent), rest)
              case Key(key) => Parsed(Observed(key), rest)
              case Nothing => Parse(rest, decode)
  {
    KindIs(kind);
  }

  lemma KindIs(kind: seq<Byte>)
    requires |kind| == 4
    ensures Unsigned(kind) == 0x8000_0005 <==> kind == [5, 0, 0, 0x80]
  {
    if Unsigned(kind) == 0x8000_0005 {
      assert kind[0] == 5 && kind[1] == 0 && kind[2] == 0 && kind[3] == 0x80;
    }
  }

  /** Anything else at the head of fourteen bytes ends the session. */
  lemma StrangeHeader<K>(buffer: seq<Byte>, decode: Decoder<K>)
    requires |buffer| >= 14
    ensures Parse(buffer, decode) == Parsed(Failed(InvalidHeader), buffer)
            || buffer[..6] == [0x69, 0x33, 0x2D, 0x69, 0x70, 0x63]
  {
  }

  /** Short of a header nothing is decided. */
  lemma HeaderIsAwaited<K>(buffer: seq<Byte>, decode: Decoder<K>)
    requires |buffer| < 14
    ensures Parse(buffer, decode) == Parsed(Pending, buffer)
  {
  }
}
