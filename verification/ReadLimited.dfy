/** Reading a child's output, of which only so much is kept. */
module ReadLimited {
  import opened Wrappers
  import opened Bytes

  /** What one read of the pipe gives: at most 8192 bytes, none at the end. */
  datatype Read<E> = Data(bytes: seq<Byte>) | Failed(error: E)
  datatype ReadResult<E> = ReadResult(bytes: seq<Byte>, overflowed: bool, error: Option<E>)

  /** All that arrives before the end or the first error. The pipe ends with the last read. */
  function Received<E>(pipe: seq<Read<E>>): seq<Byte> {
    if pipe == [] || pipe[0].Failed? || pipe[0].bytes == [] then []
    else pipe[0].bytes + Received(pipe[1..])
  }

  function ErrorOf<E>(pipe: seq<Read<E>>): Option<E> {
    if pipe == [] then None
    else if pipe[0].Failed? then Some(pipe[0].error)
    else if pipe[0].bytes == [] then None
    else ErrorOf(pipe[1..])
  }

  function Limited(bytes: seq<Byte>, max: nat): seq<Byte> {
    if |bytes| <= max then bytes else bytes[..max]
  }

  /** `read_limited`: the first bytes up to the limit, whatever the reads were, and whether there
      were more. Reading goes on behind the limit. */
  method ReadAll<E>(pipe: seq<Read<E>>, maxOutput: nat) returns (result: ReadResult<E>, raised: bool)
    ensures result.bytes == Limited(Received(pipe), maxOutput)
    ensures result.overflowed <==> |Received(pipe)| > maxOutput
    ensures result.error == ErrorOf(pipe)
    ensures raised == result.overflowed
  {
    var bytes: seq<Byte> := [];
    var overflowed := false;
    var error: Option<E> := None;
    raised := false;
    var n := 0;
    var reading := true;
    ghost var all: seq<Byte> := [];
    while reading && n < |pipe|
      invariant 0 <= n <= |pipe|
      invariant bytes == Limited(all, maxOutput)
      invariant overflowed <==> |all| > maxOutput
      invariant raised == overflowed
      invariant if reading
                then all + Received(pipe[n..]) == Received(pipe) && error == None && ErrorOf(pipe[n..]) == ErrorOf(pipe)
                else all == Received(pipe) && error == ErrorOf(pipe)
      decreases reading, |pipe| - n
    {
      match pipe[n] {
        case Data(chunk) =>
          if chunk == [] {
            reading := false;
          } else {
            var previous := |bytes|;
            if previous < maxOutput {
              var retained := if |chunk| <= maxOutput - previous then |chunk| else maxOutput - previous;
              bytes := bytes + chunk[..retained];
            }
            if |chunk| > maxOutput - previous {
              overflowed := true;
              raised := true;
            }
            assert all + Received(pipe[n..]) == (all + chunk) + Received(pipe[n + 1..]);
            all := all + chunk;
            n := n + 1;
          }
        case Failed(source) =>
          error := Some(source);
          reading := false;
      }
    }
    assert n == |pipe| ==> pipe[n..] == [];
    result := ReadResult(bytes, overflowed, error);
  }

  function Joined(chunks: seq<seq<Byte>>): seq<Byte> {
    if chunks == [] then [] else chunks[0] + Joined(chunks[1..])
  }

  /** However a stream is cut into reads, all of it is received. */
  lemma {:induction false} CutsDoNotMatter<E>(pipe: seq<Read<E>>, chunks: seq<seq<Byte>>)
    requires |pipe| == |chunks|
    requires forall i | 0 <= i < |pipe| :: pipe[i] == Data(chunks[i]) && chunks[i] != []
    ensures Received(pipe) == Joined(chunks) && ErrorOf(pipe) == None
    decreases |pipe|
  {
    if pipe != [] {
      CutsDoNotMatter(pipe[1..], chunks[1..]);
    }
  }

  /** A stream is received up to the first read that fails or that brings nothing, and what comes
      behind that read does not matter. */
  lemma {:induction false} ReadsEnd<E>(chunks: seq<seq<Byte>>, pipe: seq<Read<E>>, end: Read<E>)
    requires (forall i | 0 <= i < |chunks| :: chunks[i] != []) && (end.Data? ==> end.bytes == [])
    ensures var all := seq(|chunks|, i requires 0 <= i < |chunks| => Data(chunks[i])) + [end] + pipe;
            Received(all) == Joined(chunks) && ErrorOf(all) == if end.Failed? then Some(end.error) else None
    decreases |chunks|
  {
    var all := seq(|chunks|, i requires 0 <= i < |chunks| => Data(chunks[i])) + [end] + pipe;
    if chunks == [] {
      assert all[0] == end;
    } else {
      var more := seq(|chunks| - 1, i requires 0 <= i < |chunks| - 1 => Data(chunks[1..][i])) + [end] + pipe;
      ReadsEnd(chunks[1..], pipe, end);
      assert all[0] == Data(chunks[0]) && all[1..] == more;
    }
  }

  /** What is kept is the beginning, as long as the limit allows. */
  lemma KeptIsPrefix(bytes: seq<Byte>, max: nat)
    ensures Limited(bytes, max) <= bytes
    ensures |Limited(bytes, max)| == if |bytes| < max then |bytes| else max
  {
  }
}
