/** Message frames. */
module Framing {
  // Native messaging: length-prefixed frames over a pipe that may deliver any part of them
  // at a time (src/evomesh/browser_bridge.py).

  newtype Byte = x: int | 0 <= x < 256

  const MAX_MESSAGE_BYTES: nat := 1024 * 1024

  datatype Result<+T> = Ok(value: T) | Eof | TooLarge

  // ---- the length prefix ----

  /** `struct.pack("<I", n)`. */
  function Pack(n: nat): (bytes: seq<Byte>)
    requires n < 0x1_0000_0000
    ensures |bytes| == 4
  {
    [(n % 256) as Byte, (n / 256 % 256) as Byte, (n / 65536 % 256) as Byte, (n / 16777216) as Byte]
  }

  /** `struct.unpack("<I", bytes)`. */
  function Unpack(bytes: seq<Byte>): (n: nat)
    requires |bytes| == 4
    ensures n < 0x1_0000_0000
  {
    bytes[0] as nat + 256 * (bytes[1] as nat) + 65536 * (bytes[2] as nat) + 16777216 * (bytes[3] as nat)
  }

  lemma PackRoundTrip(n: nat)
    requires n < 0x1_0000_0000
    ensures Unpack(Pack(n)) == n
  {
    assert n / 65536 == n / 256 / 256 && n / 16777216 == n / 256 / 256 / 256;
  }

  /** Every four bytes are the prefix of the length they unpack to. */
  lemma UnpackRoundTrip(bytes: seq<Byte>)
    requires |bytes| == 4
    ensures Pack(Unpack(bytes)) == bytes
  {
    var a, b, c, d := bytes[0] as nat, bytes[1] as nat, bytes[2] as nat, bytes[3] as nat;
    var n := Unpack(bytes);
    assert n / 256 == b + 256 * c + 65536 * d && n / 65536 == c + 256 * d && n / 16777216 == d;
  }

  /** 256 to the power of `k`. */
  function Weight(k: nat): (w: nat)
    ensures w > 0
  {
    if k == 0 then 1 else 256 * Weight(k - 1)
  }

  /** The lowest byte comes first: byte `k` counts for 256 to the power of `k`. */
  lemma LowestFirst(bytes: seq<Byte>, k: nat, more: nat)
    requires |bytes| == 4 && k < 4 && bytes[k] as nat + more < 256
    ensures Unpack(bytes[k := (bytes[k] as nat + more) as Byte]) == Unpack(bytes) + more * Weight(k)
    ensures Unpack([0, 0, 0, 0]) == 0
  {
    assert Weight(0) == 1 && Weight(1) == 256 && Weight(2) == 65536 && Weight(3) == 16777216;
    match k
    case 0 =>
    case 1 =>
    case 2 =>
    case 3 =>
  }

  // ---- the pipe ----

  /** A pipe: what it still holds, and how much each coming read delivers. A read delivers at
      least one byte while there is one, and nothing only at the end. */
  class Pipe {
    var bytes: seq<Byte>
    var chunks: seq<nat>

    constructor (bytes: seq<Byte>, chunks: seq<nat>)
      ensures this.bytes == bytes && this.chunks == chunks
    {
      this.bytes, this.chunks := bytes, chunks;
    }

    /** `stream.read(count)`: any nonempty part of what is asked for and there. */
    method Read(count: nat) returns (chunk: seq<Byte>)
      requires count > 0
      modifies this
      ensures |chunk| <= count && old(bytes) == chunk + bytes
      ensures chunk == [] <==> old(bytes) == []
    {
      var offered := if chunks == [] then count else chunks[0];
      chunks := if chunks == [] then [] else chunks[1..];
      var most := if count < |bytes| then count else |bytes|;
      var n := if offered < 1 then 1 else offered;
      n := if n < most then n else most;
      chunk := bytes[..n];
      bytes := bytes[n..];
      assert old(bytes) == chunk + bytes;
    }
  }

  /** `_read_exactly`: the next `count` bytes however they come, or the end of the pipe. */
  method ReadExactly(pipe: Pipe, count: nat) returns (r: Result<seq<Byte>>)
    modifies pipe
    ensures |old(pipe.bytes)| >= count ==> r == Ok(old(pipe.bytes)[..count]) && pipe.bytes == old(pipe.bytes)[count..]
    ensures |old(pipe.bytes)| < count ==> r == Eof && pipe.bytes == []
  {
    var chunks: seq<Byte> := [];
    var remaining := count;
    while remaining > 0
      invariant 0 <= remaining <= count && |chunks| == count - remaining
      invariant old(pipe.bytes) == chunks + pipe.bytes
    {
      var chunk := pipe.Read(remaining);
      if chunk == [] {
        return Eof;
      }
      ghost var before := chunks;
      chunks := chunks + chunk;
      assert before + (chunk + pipe.bytes) == chunks + pipe.bytes;
      remaining := remaining - |chunk|;
    }
    r := Ok(chunks);
  }

  // ---- frames ----

  function Frame(payload: seq<Byte>): seq<Byte>
    requires |payload| < 0x1_0000_0000
  {
    Pack(|payload|) + payload
  }

  /** What `read_message` makes of the bytes before it, and what it leaves. */
  function Next(bytes: seq<Byte>): (Result<seq<Byte>>, seq<Byte>) {
    if |bytes| < 4 then (Eof, [])
    else
      var length := Unpack(bytes[..4]);
      if length > MAX_MESSAGE_BYTES then (TooLarge, bytes[4..])
      else if |bytes| - 4 < length then (Eof, [])
      else (Ok(bytes[4..4 + length]), bytes[4 + length..])
  }

  /** `read_message`, up to the payload: the same whatever parts the pipe delivers. */
  method ReadMessage(pipe: Pipe) returns (r: Result<seq<Byte>>)
    modifies pipe
    ensures (r, pipe.bytes) == Next(old(pipe.bytes))
  {
    hide Unpack;
    var lengthBytes := ReadExactly(pipe, 4);
    if !lengthBytes.Ok? {
      return lengthBytes;
    }
    var length := Unpack(lengthBytes.value);
    if length > MAX_MESSAGE_BYTES {
      return TooLarge;
    }
    ghost var rest := pipe.bytes;
    r := ReadExactly(pipe, length);
    assert r.Ok? ==> rest[..length] == old(pipe.bytes)[4..4 + length] && rest[length..] == old(pipe.bytes)[4 + length..];
  }

  /** `write_message` of an encoded payload. */
  method WriteMessage(pipe: Pipe, payload: seq<Byte>) returns (r: Result<()>)
    modifies pipe
    ensures |payload| > MAX_MESSAGE_BYTES ==> r == TooLarge && pipe.bytes == old(pipe.bytes)
    ensures |payload| <= MAX_MESSAGE_BYTES ==> r == Ok(()) && pipe.bytes == old(pipe.bytes) + Frame(payload)
    ensures pipe.chunks == old(pipe.chunks)
  {
    hide Pack;
    if |payload| > MAX_MESSAGE_BYTES {
      return TooLarge;
    }
    pipe.bytes := pipe.bytes + Pack(|payload|);
    pipe.bytes := pipe.bytes + payload;
    assert old(pipe.bytes) + Pack(|payload|) + payload == old(pipe.bytes) + Frame(payload);
    r := Ok(());
  }

  // ---- a stream of messages ----

  ghost predicate Fits(messages: seq<seq<Byte>>) {
    forall i :: 0 <= i < |messages| ==> |messages[i]| <= MAX_MESSAGE_BYTES
  }

  function Stream(messages: seq<seq<Byte>>): seq<Byte>
    requires Fits(messages)
  {
    if messages == [] then [] else Frame(messages[0]) + Stream(messages[1..])
  }

  lemma NextOfFrame(payload: seq<Byte>, rest: seq<Byte>)
    requires |payload| <= MAX_MESSAGE_BYTES
    ensures Next(Frame(payload) + rest) == (Ok(payload), rest)
  {
    hide Pack, Unpack;
    PackRoundTrip(|payload|);
    var bytes := Frame(payload) + rest;
    assert bytes[..4] == Pack(|payload|);
    assert bytes[4..4 + |payload|] == payload && bytes[4 + |payload|..] == rest;
  }

  /** A longer one is refused at its prefix, and the next read starts behind that. */
  lemma NextOfOversized(n: nat, rest: seq<Byte>)
    requires n < 0x1_0000_0000
    ensures Next(Pack(n) + rest).0.TooLarge? <==> n > 1_048_576
    ensures n > 1_048_576 ==> Next(Pack(n) + rest).1 == rest
  {
    hide Pack, Unpack;
    PackRoundTrip(n);
    var bytes := Pack(n) + rest;
    assert bytes[..4] == Pack(n) && bytes[4..] == rest;
  }

  /** A frame that is cut short reads as the end of the pipe, never as part of a message. */
  lemma NextOfTruncated(payload: seq<Byte>, n: nat)
    requires |payload| <= MAX_MESSAGE_BYTES && n < |Frame(payload)|
    ensures Next(Frame(payload)[..n]) == (Eof, [])
  {
    hide Pack, Unpack;
    PackRoundTrip(|payload|);
    if n >= 4 {
      assert Frame(payload)[..n][..4] == Pack(|payload|);
    }
  }

  /** The messages read until one cannot be, and why it could not. */
  function ReadAll(bytes: seq<Byte>): (seq<seq<Byte>>, Result<seq<Byte>>)
    decreases |bytes|
  {
    var (r, rest) := Next(bytes);
    if !r.Ok? then ([], r)
    else
      var (more, end) := ReadAll(rest);
      ([r.value] + more, end)
  }

  /** Reading gives back exactly the messages written, in order, and then the end -- also when
      the stream stops in the middle of one more frame, which is never read in part. */
  lemma {:induction false} StreamRoundTrip(messages: seq<seq<Byte>>, last: seq<Byte>, n: nat)
    requires Fits(messages) && |last| <= MAX_MESSAGE_BYTES && n < |Frame(last)|
    ensures ReadAll(Stream(messages) + Frame(last)[..n]) == (messages, Eof)
    decreases |messages|
  {
    hide Frame, Next;
    var cut := Frame(last)[..n];
    if messages == [] {
      assert Stream(messages) + cut == cut;
      NextOfTruncated(last, n);
    } else {
      var rest := Stream(messages[1..]) + cut;
      assert Stream(messages) + cut == Frame(messages[0]) + rest;
      NextOfFrame(messages[0], rest);
      StreamRoundTrip(messages[1..], last, n);
      assert [messages[0]] + messages[1..] == messages;
    }
  }

  /** The reader thread: messages are handed on until the pipe ends or one is refused. */
  method ReadUntilEnd(pipe: Pipe) returns (messages: seq<seq<Byte>>, end: Result<seq<Byte>>)
    modifies pipe
    ensures messages == ReadAll(old(pipe.bytes)).0 && end == ReadAll(old(pipe.bytes)).1
  {
    hide Next;
    messages := [];
    assert messages + ReadAll(pipe.bytes).0 == ReadAll(pipe.bytes).0;
    while true
      invariant ReadAll(old(pipe.bytes)).0 == messages + ReadAll(pipe.bytes).0
      invariant ReadAll(old(pipe.bytes)).1 == ReadAll(pipe.bytes).1
      decreases |pipe.bytes|
    {
      ghost var before, handed := pipe.bytes, messages;
      NextShrinks(pipe.bytes);
      var r := ReadMessage(pipe);
      if !r.Ok? {
        assert ReadAll(before).0 == [] && ReadAll(before).1 == r;
        assert messages + [] == messages;
        end := r;
        return;
      }
      messages := messages + [r.value];
      assert ReadAll(before).0 == [r.value] + ReadAll(pipe.bytes).0;
      assert handed + ([r.value] + ReadAll(pipe.bytes).0) == messages + ReadAll(pipe.bytes).0;
    }
  }

  lemma NextShrinks(bytes: seq<Byte>)
    ensures Next(bytes).0.Ok? ==> |Next(bytes).1| < |bytes|
  {
    hide Unpack;
  }

  /** Whatever is written within the cap is read back, however the pipe splits it up. */
  method WriteThenRead(messages: seq<seq<Byte>>, chunks: seq<nat>) returns (back: seq<seq<Byte>>, end: Result<seq<Byte>>)
    requires Fits(messages)
    ensures back == messages && end == Eof
  {
    hide Frame, Next, ReadAll;
    var pipe := new Pipe([], chunks);
    var k := 0;
    assert messages[0..] == messages;
    while k < |messages|
      invariant k <= |messages|
      invariant pipe.bytes + Stream(messages[k..]) == Stream(messages)
    {
      assert messages[k..][0] == messages[k] && messages[k..][1..] == messages[k + 1..];
      ghost var before := pipe.bytes;
      var r := WriteMessage(pipe, messages[k]);
      assert before + (Frame(messages[k]) + Stream(messages[k + 1..])) == pipe.bytes + Stream(messages[k + 1..]);
      k := k + 1;
    }
    assert messages[k..] == [] && pipe.bytes + [] == pipe.bytes;
    FrameIsLonger();
    StreamRoundTrip(messages, [], 0);
    assert Stream(messages) + Frame([])[..0] == Stream(messages);
    back, end := ReadUntilEnd(pipe);
  }

  lemma FrameIsLonger()
    ensures |Frame([])| == 4
  {
  }
}
