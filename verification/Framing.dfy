/** Length-prefixed frames over a byte stream that the socket may deliver in pieces of any size. */
module Framing {
  import opened Prelude

  type Byte = x: nat | x < 256

  type Bytes = seq<Byte>

  datatype FrameError =
    | MaxFrameInvalid | SizeNegative | Truncated | Empty | TooLarge | JsonInvalid | ObjectRequired

  /** What a frame's text turns out to be. */
  datatype Decoded<P> = Object(payload: P) | OtherValue | Invalid

  /** JSON text in and out; the hypothesis about it is `Inverse`. */
  datatype Codec<!P> = Codec(encode: P -> Bytes, decode: Bytes -> Decoded<P>)

  ghost predicate Inverse<P(!new)>(codec: Codec<P>) {
    forall p :: codec.decode(codec.encode(p)) == Object(p)
  }

  const MAX_HEADER: nat := 0xFFFF_FFFF

  predicate ValidLimit(max: int) {
    0 < max <= MAX_HEADER
  }

  // Header ------------------------------------------------------------------------------------

  function ToHeader(n: nat): Bytes
    requires n <= MAX_HEADER
  {
    [n / 0x100_0000, n / 0x1_0000 % 256, n / 256 % 256, n % 256]
  }

  function FromHeader(header: Bytes): nat
    requires |header| == 4
  {
    var b0: nat, b1: nat, b2: nat, b3: nat := header[0], header[1], header[2], header[3];
    ((b0 * 256 + b1) * 256 + b2) * 256 + b3
  }

  lemma HeaderRoundTrip(n: nat)
    requires n <= MAX_HEADER
    ensures |ToHeader(n)| == 4 && FromHeader(ToHeader(n)) == n
  {
    assert n / 256 / 256 == n / 0x1_0000;
    assert n / 0x1_0000 / 256 == n / 0x100_0000;
  }

  // Reading, as a function of the bytes to come -----------------------------------------------

  /** The outcome of asking for `size` bytes, and what stays unread. */
  function Exactly(stream: Bytes, size: nat): (Result<Option<Bytes>, FrameError>, Bytes) {
    if size <= |stream| then (Ok(Some(stream[..size])), stream[size..])
    else if stream == [] then (Ok(None), [])
    else (Err(Truncated), [])
  }

  function Text<P>(codec: Codec<P>, raw: Bytes): Result<Option<P>, FrameError> {
    match codec.decode(raw)
    case Object(p) => Ok(Some(p))
    case OtherValue => Err(ObjectRequired)
    case Invalid => Err(JsonInvalid)
  }

  function Body<P>(codec: Codec<P>, stream: Bytes, length: nat, max: int): (Result<Option<P>, FrameError>, Bytes) {
    if length == 0 then (Err(Empty), stream)
    else if length > max then (Err(TooLarge), stream)
    else
      var (raw, rest) := Exactly(stream, length);
      if raw.Err? then (Err(raw.error), rest)
      else if raw.value.None? then (Err(Truncated), rest)
      else (Text(codec, raw.value.value), rest)
  }

  function Frame<P>(codec: Codec<P>, stream: Bytes, max: int): (Result<Option<P>, FrameError>, Bytes) {
    if !ValidLimit(max) then (Err(MaxFrameInvalid), stream)
    else
      var (header, rest) := Exactly(stream, 4);
      if header.Err? then (Err(header.error), rest)
      else if header.value.None? then (Ok(None), rest)
      else Body(codec, rest, FromHeader(header.value.value), max)
  }

  /** A connected stream socket: what the peer sent before closing, and what was written to the peer. */
  class Socket {
    var incoming: Bytes
    var outgoing: Bytes

    constructor (incoming: Bytes)
      ensures this.incoming == incoming && outgoing == []
    {
      this.incoming := incoming;
      outgoing := [];
    }

    /** At least one byte and at most `max`, as many as happen to be there; nothing at the end of the stream. */
    method Recv(max: nat) returns (chunk: Bytes)
      requires max >= 1
      modifies this`incoming
      ensures old(incoming) == chunk + incoming && |chunk| <= max
      ensures chunk == [] <==> old(incoming) == []
    {
      if incoming == [] {
        return [];
      }
      var n: nat :| 1 <= n <= max && n <= |incoming|;
      chunk := incoming[..n];
      incoming := incoming[n..];
    }

    method SendAll(data: Bytes)
      modifies this`outgoing
      ensures outgoing == old(outgoing) + data
    {
      outgoing := outgoing + data;
    }

    method RecvExact(size: int) returns (r: Result<Option<Bytes>, FrameError>)
      modifies this`incoming
      ensures size < 0 ==> r == Err(SizeNegative) && incoming == old(incoming)
      ensures size >= 0 ==> (r, incoming) == Exactly(old(incoming), size)
    {
      if size < 0 {
        return Err(SizeNegative);
      }
      var buf: Bytes := [];
      while |buf| < size
        invariant |buf| <= size && old(incoming) == buf + incoming
        decreases |incoming|, size - |buf|
      {
        var chunk := Recv(size - |buf|);
        if chunk == [] {
          return if buf == [] then Ok(None) else Err(Truncated);
        }
        buf := buf + chunk;
      }
      return Ok(Some(buf));
    }

    method RecvJson<P>(codec: Codec<P>, max: int) returns (r: Result<Option<P>, FrameError>)
      modifies this`incoming
      ensures (r, incoming) == Frame(codec, old(incoming), max)
    {
      if max <= 0 || max > MAX_HEADER {
        return Err(MaxFrameInvalid);
      }
      var header := RecvExact(4);
      if header.Err? {
        return Err(header.error);
      }
      if header.value.None? {
        return Ok(None);
      }
      var length := FromHeader(header.value.value);
      if length <= 0 {
        return Err(Empty);
      }
      if length > max {
        return Err(TooLarge);
      }
      var raw := RecvExact(length);
      if raw.Err? {
        return Err(raw.error);
      }
      if raw.value.None? {
        return Err(Truncated);
      }
      match codec.decode(raw.value.value)
      case Invalid => return Err(JsonInvalid);
      case OtherValue => return Err(ObjectRequired);
      case Object(p) => return Ok(Some(p));
    }

    method SendJson<P>(codec: Codec<P>, payload: P, max: int) returns (r: Result<(), FrameError>)
      modifies this`outgoing
      ensures r.Ok? <==> Sendable(codec, payload, max)
      ensures outgoing == if r.Ok? then old(outgoing) + Encoded(codec, payload) else old(outgoing)
      ensures r.Err? ==> r.error == if !ValidLimit(max) then MaxFrameInvalid
                                    else if codec.encode(payload) == [] then Empty else TooLarge
    {
      if max <= 0 || max > MAX_HEADER {
        return Err(MaxFrameInvalid);
      }
      var data := codec.encode(payload);
      if data == [] {
        return Err(Empty);
      }
      if |data| > max {
        return Err(TooLarge);
      }
      SendAll(ToHeader(|data|) + data);
      return Ok(());
    }
  }

  predicate Sendable<P>(codec: Codec<P>, payload: P, max: int) {
    ValidLimit(max) && 0 < |codec.encode(payload)| <= max
  }

  function Encoded<P>(codec: Codec<P>, payload: P): Bytes
    requires |codec.encode(payload)| <= MAX_HEADER
  {
    ToHeader(|codec.encode(payload)|) + codec.encode(payload)
  }

  predicate AllSendable<P>(codec: Codec<P>, payloads: seq<P>, max: int) {
    forall i :: 0 <= i < |payloads| ==> Sendable(codec, payloads[i], max)
  }

  function Sent<P>(codec: Codec<P>, payloads: seq<P>, max: int): Bytes
    requires AllSendable(codec, payloads, max)
  {
    if payloads == [] then [] else Encoded(codec, payloads[0]) + Sent(codec, payloads[1..], max)
  }

  // Round trip --------------------------------------------------------------------------------

  /** A frame is read back whole, whatever follows it, and nothing of what follows is consumed. */
  lemma FrameRoundTrip<P(!new)>(codec: Codec<P>, payload: P, rest: Bytes, sendMax: int, max: int)
    requires Inverse(codec) && Sendable(codec, payload, sendMax) && ValidLimit(max) && sendMax <= max
    ensures Frame(codec, Encoded(codec, payload) + rest, max) == (Ok(Some(payload)), rest)
  {
    var data := codec.encode(payload);
    var stream := Encoded(codec, payload) + rest;
    HeaderRoundTrip(|data|);
    assert stream[..4] == ToHeader(|data|) && stream[4..] == data + rest;
    assert (data + rest)[..|data|] == data && (data + rest)[|data|..] == rest;
  }

  /** A frame cut short yields no value: nothing was sent, or it is reported as truncated. */
  lemma CutFrame<P>(codec: Codec<P>, payload: P, k: nat, sendMax: int, max: int)
    requires Sendable(codec, payload, sendMax) && ValidLimit(max) && sendMax <= max
    requires k < |Encoded(codec, payload)|
    ensures Frame(codec, Encoded(codec, payload)[..k], max) == if k == 0 then (Ok(None), []) else (Err(Truncated), [])
  {
    var data := codec.encode(payload);
    var stream := Encoded(codec, payload)[..k];
    HeaderRoundTrip(|data|);
    if k >= 4 {
      assert stream[..4] == ToHeader(|data|) && stream[4..] == data[..k - 4];
    }
  }

  /** What repeated receiving returns before the end of the stream, and the error that ended it, if any. */
  function Received<P>(codec: Codec<P>, stream: Bytes, max: int): (seq<P>, Option<FrameError>)
    decreases |stream|
  {
    var (r, rest) := Frame(codec, stream, max);
    if r.Err? then ([], Some(r.error))
    else if r.value.None? || |rest| >= |stream| then ([], None)
    else
      var (more, error) := Received(codec, rest, max);
      ([r.value.value] + more, error)
  }

  /** Every value comes from a frame of its own, so the guard against standing still above is never needed. */
  lemma ValueMeansFrame<P>(codec: Codec<P>, stream: Bytes, max: int)
    requires Frame(codec, stream, max).0.Ok? && Frame(codec, stream, max).0.value.Some?
    ensures |stream| >= 4
    ensures var length := FromHeader(stream[..4]);
      && 1 <= length <= max && 4 + length <= |stream|
      && codec.decode(stream[4..4 + length]) == Object(Frame(codec, stream, max).0.value.value)
      && Frame(codec, stream, max).1 == stream[4 + length..]
  {
    var length := FromHeader(stream[..4]);
    assert stream[4..][..length] == stream[4..4 + length] && stream[4..][length..] == stream[4 + length..];
  }

  lemma ReceivedFrame<P(!new)>(codec: Codec<P>, payload: P, rest: Bytes, sendMax: int, max: int)
    requires Inverse(codec) && Sendable(codec, payload, sendMax) && ValidLimit(max) && sendMax <= max
    ensures Received(codec, Encoded(codec, payload) + rest, max)
         == ([payload] + Received(codec, rest, max).0, Received(codec, rest, max).1)
  {
    FrameRoundTrip(codec, payload, rest, sendMax, max);
  }

  /** The number of frames that fit whole into the first `k` bytes. */
  function Whole<P>(codec: Codec<P>, payloads: seq<P>, k: nat, max: int): nat
    requires AllSendable(codec, payloads, max)
  {
    if payloads == [] || k < |Encoded(codec, payloads[0])| then 0
    else 1 + Whole(codec, payloads[1..], k - |Encoded(codec, payloads[0])|, max)
  }

  /** How receiving from the first `k` sent bytes must end. */
  function CutAt<P>(codec: Codec<P>, payloads: seq<P>, k: nat, max: int): (seq<P>, Option<FrameError>)
    requires AllSendable(codec, payloads, max)
    decreases |payloads|
  {
    if payloads == [] || k == 0 then ([], None)
    else
      var first := |Encoded(codec, payloads[0])|;
      if k < first then ([], Some(Truncated))
      else
        var (later, error) := CutAt(codec, payloads[1..], k - first, max);
        ([payloads[0]] + later, error)
  }

  lemma SentCut<P>(codec: Codec<P>, payloads: seq<P>, k: nat, max: int)
    requires AllSendable(codec, payloads, max) && payloads != [] && k <= |Sent(codec, payloads, max)|
    ensures var first, later := Encoded(codec, payloads[0]), Sent(codec, payloads[1..], max);
      && |Sent(codec, payloads, max)| == |first| + |later| && |first| > 0
      && Sent(codec, payloads, max)[..k] == if k < |first| then first[..k] else first + later[..k - |first|]
  {
    HeaderRoundTrip(|codec.encode(payloads[0])|);
  }

  lemma {:induction false} CutIsReceived<P(!new)>(codec: Codec<P>, payloads: seq<P>, k: nat, sendMax: int, max: int)
    requires Inverse(codec) && AllSendable(codec, payloads, sendMax) && ValidLimit(max) && sendMax <= max
    requires k <= |Sent(codec, payloads, sendMax)|
    ensures Received(codec, Sent(codec, payloads, sendMax)[..k], max) == CutAt(codec, payloads, k, sendMax)
  {
    if payloads == [] || k == 0 {
      assert Sent(codec, payloads, sendMax)[..k] == [];
    } else {
      var first := Encoded(codec, payloads[0]);
      SentCut(codec, payloads, k, sendMax);
      if k < |first| {
        CutFrame(codec, payloads[0], k, sendMax, max);
      } else {
        CutIsReceived(codec, payloads[1..], k - |first|, sendMax, max);
        ReceivedFrame(codec, payloads[0], Sent(codec, payloads[1..], sendMax)[..k - |first|], sendMax, max);
      }
    }
  }

  /** The frames before the cut, and no error only at a frame's end. */
  lemma {:induction false} CutAtIsWhole<P>(codec: Codec<P>, payloads: seq<P>, k: nat, max: int)
    requires AllSendable(codec, payloads, max) && k <= |Sent(codec, payloads, max)|
    ensures var w := Whole(codec, payloads, k, max);
      && w <= |payloads| && |Sent(codec, payloads[..w], max)| <= k
      && CutAt(codec, payloads, k, max)
         == (payloads[..w], if |Sent(codec, payloads[..w], max)| == k then None else Some(Truncated))
  {
    if payloads != [] {
      var first, later := |Encoded(codec, payloads[0])|, payloads[1..];
      SentCut(codec, payloads, k, max);
      if k >= first {
        CutAtIsWhole(codec, later, k - first, max);
        SentOneMore(codec, payloads, Whole(codec, later, k - first, max), max);
      }
    }
  }

  lemma SentOneMore<P>(codec: Codec<P>, payloads: seq<P>, w: nat, max: int)
    requires AllSendable(codec, payloads, max) && w < |payloads|
    ensures payloads[..1 + w] == [payloads[0]] + payloads[1..][..w]
    ensures |Sent(codec, payloads[..1 + w], max)| ==
      |Encoded(codec, payloads[0])| + |Sent(codec, payloads[1..][..w], max)|
  {
    assert payloads[..1 + w][1..] == payloads[1..][..w];
  }

  /** A stream cut after `k` bytes yields exactly the frames before the cut, and no error only at a frame's end. */
  lemma CutStream<P(!new)>(codec: Codec<P>, payloads: seq<P>, k: nat, sendMax: int, max: int)
    requires Inverse(codec) && AllSendable(codec, payloads, sendMax) && ValidLimit(max) && sendMax <= max
    requires k <= |Sent(codec, payloads, sendMax)|
    ensures var w := Whole(codec, payloads, k, sendMax);
      && w <= |payloads|
      && |Sent(codec, payloads[..w], sendMax)| <= k
      && Received(codec, Sent(codec, payloads, sendMax)[..k], max)
         == (payloads[..w], if |Sent(codec, payloads[..w], sendMax)| == k then None else Some(Truncated))
  {
    CutIsReceived(codec, payloads, k, sendMax, max);
    CutAtIsWhole(codec, payloads, k, sendMax);
  }

  lemma {:induction false} AllWhole<P>(codec: Codec<P>, payloads: seq<P>, max: int)
    requires AllSendable(codec, payloads, max)
    ensures Whole(codec, payloads, |Sent(codec, payloads, max)|, max) == |payloads|
  {
    if payloads != [] {
      SentCut(codec, payloads, 0, max);
      AllWhole(codec, payloads[1..], max);
    }
  }

  /** All sent payloads arrive in order, and then the end of the stream. */
  lemma StreamRoundTrip<P(!new)>(codec: Codec<P>, payloads: seq<P>, sendMax: int, max: int)
    requires Inverse(codec) && AllSendable(codec, payloads, sendMax) && ValidLimit(max) && sendMax <= max
    ensures Received(codec, Sent(codec, payloads, sendMax), max) == (payloads, None)
  {
    var all := Sent(codec, payloads, sendMax);
    AllWhole(codec, payloads, sendMax);
    CutStream(codec, payloads, |all|, sendMax, max);
    assert all[..|all|] == all && payloads[..|payloads|] == payloads;
  }

  /** Every answer to a stream of bytes, by the bytes: a limit out of range is refused before anything is read. */
  lemma FrameExactly<P>(codec: Codec<P>, stream: Bytes, max: int)
    ensures Frame(codec, stream, max).0 == Err(MaxFrameInvalid) <==> max < 1 || max > 4294967295
    ensures max < 1 || max > 4294967295 ==> Frame(codec, stream, max).1 == stream
    ensures 1 <= max <= 4294967295 && |stream| < 4 ==>
      Frame(codec, stream, max) == (if stream == [] then Ok(None) else Err(Truncated), [])
    ensures 1 <= max <= 4294967295 && |stream| >= 4 ==> AnswersHead(codec, stream, max)
  {
    if 1 <= max <= 4294967295 && |stream| >= 4 {
      var b0: nat, b1: nat, b2: nat, b3: nat := stream[0], stream[1], stream[2], stream[3];
      var length := b0 * 16777216 + b1 * 65536 + b2 * 256 + b3;
      assert FromHeader(stream[..4]) == length;
      if 1 <= length <= max && 4 + length <= |stream| {
        assert stream[4..][..length] == stream[4..4 + length] && stream[4..][length..] == stream[4 + length..];
      }
    }
  }

  /** The answer to four bytes of length, most significant first, and what follows them. */
  predicate AnswersHead<P(==)>(codec: Codec<P>, stream: Bytes, max: int)
    requires |stream| >= 4
  {
    var b0: nat, b1: nat, b2: nat, b3: nat := stream[0], stream[1], stream[2], stream[3];
    var length := b0 * 16777216 + b1 * 65536 + b2 * 256 + b3;
    if length == 0 then Frame(codec, stream, max) == (Err(Empty), stream[4..])
    else if length > max then Frame(codec, stream, max) == (Err(TooLarge), stream[4..])
    else if |stream| < 4 + length then Frame(codec, stream, max) == (Err(Truncated), [])
    else
      && Frame(codec, stream, max).1 == stream[4 + length..]
      && match codec.decode(stream[4..4 + length])
         case Object(p) => Frame(codec, stream, max).0 == Ok(Some(p))
         case OtherValue => Frame(codec, stream, max).0 == Err(ObjectRequired)
         case Invalid => Frame(codec, stream, max).0 == Err(JsonInvalid)
  }

  /** What is written for a payload: its length in four bytes, most significant first, and its text. */
  lemma EncodedBytes<P>(codec: Codec<P>, payload: P, max: int)
    requires 0 < |codec.encode(payload)| <= max <= 4294967295
    ensures Sendable(codec, payload, max) && |Encoded(codec, payload)| == 4 + |codec.encode(payload)|
    ensures Encoded(codec, payload)[4..] == codec.encode(payload)
    ensures var b0: nat, b1: nat, b2: nat, b3: nat :=
              Encoded(codec, payload)[0], Encoded(codec, payload)[1], Encoded(codec, payload)[2],
              Encoded(codec, payload)[3];
            b0 * 16777216 + b1 * 65536 + b2 * 256 + b3 == |codec.encode(payload)|
  {
    HeaderRoundTrip(|codec.encode(payload)|);
  }
}
