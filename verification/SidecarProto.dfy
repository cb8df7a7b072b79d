/** The length-prefixed frame codec shared by lain and its git sidecar
    (src/sidecar_proto.rs).

    The payload encoding itself is abstract: a Codec is any partial encoder with a
    decoder that inverts it. The framing around it is modelled byte by byte. */
module SidecarProto {
  import opened Outcomes

  type Byte = b: int | 0 <= b < 256

  /** One past the largest value of the 32-bit length prefix. */
  const LENGTH_LIMIT: nat := 0x1_0000_0000

  datatype ErrorKind = InvalidData | UnexpectedEof | Other

  datatype Codec<!T(!new)> = Codec(encode: T -> Option<seq<Byte>>, decode: seq<Byte> -> Option<T>) {

    /** What the model assumes of the payload encoding. */
    ghost predicate LeftInverse() {
      forall m: T :: encode(m).Some? ==> decode(encode(m).value) == Some(m)
    }

    /** The messages the frame writer accepts. */
    predicate Framable(m: T) {
      encode(m).Some? && |encode(m).value| < LENGTH_LIMIT
    }
  }

  // ---------------------------------------------------------------- lengths

  function ToBigEndian(n: nat): (b: seq<Byte>)
    requires n < LENGTH_LIMIT
    ensures |b| == 4
  {
    [n / 0x100_0000, n / 0x1_0000 % 0x100, n / 0x100 % 0x100, n % 0x100]
  }

  function FromBigEndian(b: seq<Byte>): (n: nat)
    requires |b| == 4
    ensures n < LENGTH_LIMIT
  {
    (b[0] as int) * 0x100_0000 + (b[1] as int) * 0x1_0000 + (b[2] as int) * 0x100 + b[3]
  }

  /** The prefix is inverted exactly, over the whole 32-bit range and in both directions. */
  lemma LengthPrefixRoundTrip(n: nat, b: seq<Byte>)
    requires n < LENGTH_LIMIT && |b| == 4
    ensures FromBigEndian(ToBigEndian(n)) == n
    ensures ToBigEndian(FromBigEndian(b)) == b
  {
    var m := FromBigEndian(b);
    assert m / 0x100 == (b[0] as int) * 0x1_0000 + (b[1] as int) * 0x100 + b[2];
    assert m / 0x1_0000 == (b[0] as int) * 0x100 + b[1];
    assert m / 0x100_0000 == b[0];
    assert n / 0x1_0000 == n / 0x100_0000 * 0x100 + n / 0x1_0000 % 0x100;
    assert n / 0x100 == n / 0x1_0000 * 0x100 + n / 0x100 % 0x100;
  }

  // ---------------------------------------------------------------- frames as byte strings

  function Frame(payload: seq<Byte>): (f: seq<Byte>)
    requires |payload| < LENGTH_LIMIT
    ensures |f| == 4 + |payload|
  {
    ToBigEndian(|payload|) + payload
  }

  datatype Parsed<+T> =
    | Got(msg: T, rest: seq<Byte>)
    | Malformed(rest: seq<Byte>)
    | Short

  /** What one frame read makes of the bytes in front of it. */
  function Parse<T(!new)>(codec: Codec<T>, s: seq<Byte>): (p: Parsed<T>)
    ensures p.Got? ==> |p.rest| + 4 <= |s|
  {
    if |s| < 4 then Short
    else
      var len := FromBigEndian(s[..4]);
      if |s| < 4 + len then Short
      else match codec.decode(s[4..4 + len])
        case None => Malformed(s[4 + len..])
        case Some(m) => Got(m, s[4 + len..])
  }

  /** Reading frames until one cannot be completed: the messages, and the bytes left over. */
  function ParseAll<T(!new)>(codec: Codec<T>, s: seq<Byte>): (seq<T>, seq<Byte>)
    decreases |s|
  {
    match Parse(codec, s)
    case Got(m, rest) => var tail := ParseAll(codec, rest); ([m] + tail.0, tail.1)
    case _ => ([], s)
  }

  predicate AllFramable<T(!new)>(codec: Codec<T>, msgs: seq<T>) {
    forall i | 0 <= i < |msgs| :: codec.Framable(msgs[i])
  }

  /** The bytes that writing `msgs` one frame after another puts on the wire. */
  function StreamOf<T(!new)>(codec: Codec<T>, msgs: seq<T>): seq<Byte>
    requires AllFramable(codec, msgs)
  {
    if msgs == [] then []
    else Frame(codec.encode(msgs[0]).value) + StreamOf(codec, msgs[1..])
  }

  lemma ParseOneFrame<T(!new)>(codec: Codec<T>, m: T, rest: seq<Byte>)
    requires codec.LeftInverse() && codec.Framable(m)
    ensures Parse(codec, Frame(codec.encode(m).value) + rest) == Got(m, rest)
  {
    var payload := codec.encode(m).value;
    var s := Frame(payload) + rest;
    LengthPrefixRoundTrip(|payload|, [0, 0, 0, 0]);
    assert s[..4] == ToBigEndian(|payload|);
    assert s[4..4 + |payload|] == payload;
    assert s[4 + |payload|..] == rest;
  }

  lemma ParseFrameFirst<T(!new)>(codec: Codec<T>, m: T, rest: seq<Byte>)
    requires codec.LeftInverse() && codec.Framable(m)
    ensures ParseAll(codec, Frame(codec.encode(m).value) + rest)
         == ([m] + ParseAll(codec, rest).0, ParseAll(codec, rest).1)
  {
    ParseOneFrame(codec, m, rest);
  }

  /** A strict prefix of a frame is never mistaken for a message. */
  lemma StrictPrefixIsShort<T(!new)>(codec: Codec<T>, m: T, k: nat)
    requires codec.Framable(m)
    requires k < |Frame(codec.encode(m).value)|
    ensures Parse(codec, Frame(codec.encode(m).value)[..k]) == Short
  {
    var payload := codec.encode(m).value;
    if k >= 4 {
      LengthPrefixRoundTrip(|payload|, [0, 0, 0, 0]);
      assert Frame(payload)[..k][..4] == ToBigEndian(|payload|);
    }
  }

  /** Whatever was written is read back, in order, and every byte is consumed. */
  lemma {:induction false} StreamRoundTrip<T(!new)>(codec: Codec<T>, msgs: seq<T>)
    requires codec.LeftInverse()
    requires AllFramable(codec, msgs)
    ensures ParseAll(codec, StreamOf(codec, msgs)) == (msgs, [])
  {
    if msgs == [] {
      assert Parse(codec, []).Short?;
    } else {
      ParseFrameFirst(codec, msgs[0], StreamOf(codec, msgs[1..]));
      StreamRoundTrip(codec, msgs[1..]);
      assert [msgs[0]] + msgs[1..] == msgs;
    }
  }

  /** A stream cut anywhere yields exactly the messages whose frames arrived whole; what is
      left is a strict prefix of the next frame, which the reader reports as incomplete. */
  lemma {:induction false} CutStream<T(!new)>(codec: Codec<T>, msgs: seq<T>, k: nat) returns (j: nat)
    requires codec.LeftInverse()
    requires AllFramable(codec, msgs)
    requires k <= |StreamOf(codec, msgs)|
    ensures j <= |msgs|
    ensures IsCut(codec, msgs, k, j)
  {
    var s := StreamOf(codec, msgs);
    if msgs == [] {
      j := 0;
      assert s[..k] == [];
    } else {
      var f := Frame(codec.encode(msgs[0]).value);
      var t := StreamOf(codec, msgs[1..]);
      PrefixOfStream(codec, msgs, 0);
      if k < |f| {
        j := 0;
        assert s[..k] == f[..k];
        StrictPrefixIsShort(codec, msgs[0], k);
      } else {
        var i := CutStream(codec, msgs[1..], k - |f|);
        j := i + 1;
        CutOneFrameLater(codec, msgs, k, i);
      }
    }
  }

  /** `k` bytes of the stream hold exactly the first `j` messages, and then only a strict
      prefix of the next frame. */
  ghost predicate IsCut<T(!new)>(codec: Codec<T>, msgs: seq<T>, k: nat, j: nat)
    requires AllFramable(codec, msgs)
    requires k <= |StreamOf(codec, msgs)| && j <= |msgs|
  {
    var (got, rest) := ParseAll(codec, StreamOf(codec, msgs)[..k]);
    && |StreamOf(codec, msgs[..j])| <= k
    && (j < |msgs| ==> k < |StreamOf(codec, msgs[..j + 1])|)
    && got == msgs[..j]
    && rest == StreamOf(codec, msgs)[|StreamOf(codec, msgs[..j])|..k]
    && Parse(codec, rest) == Short
  }

  /** With one more frame in front, the same cut falls one message later. */
  lemma CutOneFrameLater<T(!new)>(codec: Codec<T>, msgs: seq<T>, k: nat, i: nat)
    requires codec.LeftInverse() && AllFramable(codec, msgs) && msgs != []
    requires |Frame(codec.encode(msgs[0]).value)| <= k <= |StreamOf(codec, msgs)| && i < |msgs|
    requires IsCut(codec, msgs[1..], k - |Frame(codec.encode(msgs[0]).value)|, i)
    ensures IsCut(codec, msgs, k, i + 1)
  {
    hide Codec.LeftInverse, Parse, Frame;
    var f := Frame(codec.encode(msgs[0]).value);
    var t := StreamOf(codec, msgs[1..]);
    var n := |StreamOf(codec, msgs[1..][..i])|;
    var cut := t[..k - |f|];
    PrefixOfStream(codec, msgs, i);
    if i + 1 < |msgs| { PrefixOfStream(codec, msgs, i + 1); }
    assert StreamOf(codec, msgs)[..k] == f + cut;
    ParseFrameFirst(codec, msgs[0], cut);
    assert [msgs[0]] + msgs[1..][..i] == msgs[..i + 1];
    assert (f + t)[|f| + n..k] == t[n..k - |f|];
  }

  lemma PrefixOfStream<T(!new)>(codec: Codec<T>, msgs: seq<T>, i: nat)
    requires AllFramable(codec, msgs)
    requires i < |msgs|
    ensures StreamOf(codec, msgs[..i + 1])
         == Frame(codec.encode(msgs[0]).value) + StreamOf(codec, msgs[1..][..i])
  {
    assert msgs[..i + 1][1..] == msgs[1..][..i];
  }

  // ---------------------------------------------------------------- the writer

  /** Anything bytes are written to. A write may fail part of the way through. */
  class ByteSink {
    var written: seq<Byte>
    ghost var faults: nat       // how many writes have failed

    constructor ()
      ensures written == [] && faults == 0
    {
      written, faults := [], 0;
    }

    method WriteAll(bytes: seq<Byte>) returns (ok: bool)
      modifies this
      ensures ok ==> written == old(written) + bytes
      ensures faults == old(faults) + if ok then 0 else 1
      ensures !ok ==> exists k :: 0 <= k < |bytes| && written == old(written) + bytes[..k]
    {
      var k :| 0 <= k <= |bytes|;
      if k < |bytes| {
        written := written + bytes[..k];
        faults := faults + 1;
        return false;
      }
      written := written + bytes;
      return true;
    }
  }

  /** A message that cannot be encoded, or whose payload does not fit the prefix, is refused
      before a byte is written. Otherwise a success appends exactly one frame, and a failure
      leaves a strict prefix of it. */
  method WriteFrame<T(!new)>(sink: ByteSink, codec: Codec<T>, msg: T) returns (r: Result<(), ErrorKind>)
    modifies sink
    ensures !codec.Framable(msg) ==> r == Failure(InvalidData) && sink.written == old(sink.written)
    ensures sink.faults >= old(sink.faults)
    ensures codec.Framable(msg) && r.Success? ==>
              sink.written == old(sink.written) + Frame(codec.encode(msg).value)
    ensures codec.Framable(msg) && r.Failure? ==>
              && r.error == Other && sink.faults > old(sink.faults)
              && exists k :: 0 <= k < |Frame(codec.encode(msg).value)|
                             && sink.written == old(sink.written) + Frame(codec.encode(msg).value)[..k]
  {
    var encoded := codec.encode(msg);
    if encoded.None? { return Failure(InvalidData); }
    var bytes := encoded.value;
    if |bytes| >= LENGTH_LIMIT { return Failure(InvalidData); }
    ghost var before := sink.written;
    ghost var frame := Frame(bytes);
    var ok := sink.WriteAll(ToBigEndian(|bytes|));
    if !ok {
      ghost var k :| 0 <= k < 4 && sink.written == before + ToBigEndian(|bytes|)[..k];
      assert frame[..k] == ToBigEndian(|bytes|)[..k];
      return Failure(Other);
    }
    ok := sink.WriteAll(bytes);
    if !ok {
      ghost var k :| 0 <= k < |bytes| && sink.written == before + ToBigEndian(|bytes|) + bytes[..k];
      assert frame[..4 + k] == ToBigEndian(|bytes|) + bytes[..k];
      assert sink.written == before + frame[..4 + k];
      return Failure(Other);
    }
    assert sink.written == before + frame;
    return Success(());
  }

  // ---------------------------------------------------------------- the reader

  /** What the transport hands over next: some bytes, or an error such as a read timeout. */
  datatype Delivery = Chunk(bytes: seq<Byte>) | Fault

  /** The bytes that arrive before the first fault, however they are chunked. */
  function Bytes(ds: seq<Delivery>): seq<Byte>
  {
    if ds == [] || ds[0].Fault? then [] else ds[0].bytes + Bytes(ds[1..])
  }

  /** The error a reader meets when the bytes run out. */
  function Ending(ds: seq<Delivery>): ErrorKind
  {
    if ds == [] then UnexpectedEof else if ds[0].Fault? then Other else Ending(ds[1..])
  }

  class ByteSource {
    var incoming: seq<Delivery>

    constructor (ds: seq<Delivery>)
      ensures incoming == ds
    {
      incoming := ds;
    }

    /** One read: at most `max` bytes, and an empty success only at the end of the stream. */
    method Read(max: nat) returns (r: Result<seq<Byte>, ErrorKind>)
      requires max > 0
      modifies this
      ensures r.Success? && r.value != [] ==>
                && |r.value| <= max
                && Bytes(old(incoming)) == r.value + Bytes(incoming)
                && Ending(incoming) == Ending(old(incoming))
      ensures r == Success([]) ==>
                && Bytes(old(incoming)) == [] && Ending(old(incoming)) == UnexpectedEof
      ensures r.Failure? ==>
                r.error == Other && Bytes(old(incoming)) == [] && Ending(old(incoming)) == Other
    {
      while incoming != [] && incoming[0] == Chunk([])
        invariant Bytes(incoming) == Bytes(old(incoming))
        invariant Ending(incoming) == Ending(old(incoming))
        decreases |incoming|
      {
        incoming := incoming[1..];
      }
      if incoming == [] { return Success([]); }
      if incoming[0].Fault? {
        return Failure(Other);
      }
      var head, tail := incoming[0].bytes, incoming[1..];
      var n := if |head| <= max then |head| else max;
      incoming := [Chunk(head[n..])] + tail;
      assert head == head[..n] + head[n..];
      return Success(head[..n]);
    }

    /** Fills `buffer` from as many reads as it takes. */
    method ReadExact(buffer: array<Byte>) returns (r: Result<(), ErrorKind>)
      modifies this, buffer
      ensures |Bytes(old(incoming))| >= buffer.Length ==>
                && r.Success?
                && buffer[..] == Bytes(old(incoming))[..buffer.Length]
                && Bytes(incoming) == Bytes(old(incoming))[buffer.Length..]
                && Ending(incoming) == Ending(old(incoming))
      ensures |Bytes(old(incoming))| < buffer.Length ==> r == Failure(Ending(old(incoming)))
    {
      ghost var all := Bytes(incoming);
      ghost var ending := Ending(incoming);
      var filled := 0;
      while filled < buffer.Length
        invariant 0 <= filled <= buffer.Length
        invariant all == buffer[..filled] + Bytes(incoming)
        invariant Ending(incoming) == ending
      {
        var got := Read(buffer.Length - filled);
        if got.Failure? { return Failure(got.error); }
        if got.value == [] { return Failure(UnexpectedEof); }
        ghost var done := buffer[..filled];
        forall i | 0 <= i < |got.value| {
          buffer[filled + i] := got.value[i];
        }
        assert buffer[..filled + |got.value|] == done + got.value;
        filled := filled + |got.value|;
      }
      assert buffer[..filled] == buffer[..];
      return Success(());
    }
  }

  /** One frame read does to the stream what Parse says of its bytes, for any chunking. */
  method ReadFrame<T(!new)>(source: ByteSource, codec: Codec<T>) returns (r: Result<T, ErrorKind>)
    modifies source
    ensures match Parse(codec, Bytes(old(source.incoming)))
            case Got(m, rest) =>
              && r == Success(m) && Bytes(source.incoming) == rest
              && Ending(source.incoming) == old(Ending(source.incoming))
            case Malformed(rest) =>
              && r == Failure(InvalidData) && Bytes(source.incoming) == rest
              && Ending(source.incoming) == old(Ending(source.incoming))
            case Short =>
              r == Failure(Ending(old(source.incoming)))
  {
    ghost var all := Bytes(source.incoming);
    var lengthBuffer := new Byte[4];
    var ok := source.ReadExact(lengthBuffer);
    if ok.Failure? { return Failure(ok.error); }
    var len := FromBigEndian(lengthBuffer[..]);
    if |all| >= 4 + len {
      assert all[4..][..len] == all[4..4 + len];
      assert all[4..][len..] == all[4 + len..];
    }
    var payload := new Byte[len];
    ok := source.ReadExact(payload);
    if ok.Failure? { return Failure(ok.error); }
    match codec.decode(payload[..])
    case None => return Failure(InvalidData);
    case Some(m) => return Success(m);
  }

  // ---------------------------------------------------------------- both ends

  /** Writing messages one frame after another, as long as it goes well. */
  method WriteFrames<T(!new)>(sink: ByteSink, codec: Codec<T>, msgs: seq<T>) returns (ok: bool)
    modifies sink
    ensures ok ==> AllFramable(codec, msgs) && sink.written == old(sink.written) + StreamOf(codec, msgs)
    ensures !ok ==> !AllFramable(codec, msgs) || sink.faults > old(sink.faults)
  {
    ghost var before := sink.written;
    for i := 0 to |msgs|
      invariant AllFramable(codec, msgs[..i]) && sink.written == before + StreamOf(codec, msgs[..i])
      invariant sink.faults >= old(sink.faults)
    {
      ghost var sofar := sink.written;
      var r := WriteFrame(sink, codec, msgs[i]);
      if r.Failure? { return false; }
      StreamAppend(codec, msgs, i);
      assert sofar + Frame(codec.encode(msgs[i]).value) == before + StreamOf(codec, msgs[..i + 1]);
    }
    assert msgs[..|msgs|] == msgs;
    return true;
  }

  lemma {:induction false} StreamOfAppend<T(!new)>(codec: Codec<T>, msgs: seq<T>, m: T)
    requires AllFramable(codec, msgs) && codec.Framable(m)
    ensures AllFramable(codec, msgs + [m])
    ensures StreamOf(codec, msgs + [m]) == StreamOf(codec, msgs) + Frame(codec.encode(m).value)
  {
    hide Codec.Framable, Frame;
    if msgs == [] {
      assert [] + [m] == [m] && [m][1..] == [];
    } else {
      assert (msgs + [m])[1..] == msgs[1..] + [m];
      StreamOfAppend(codec, msgs[1..], m);
    }
  }

  lemma StreamAppend<T(!new)>(codec: Codec<T>, msgs: seq<T>, i: nat)
    requires i < |msgs| && AllFramable(codec, msgs[..i]) && codec.Framable(msgs[i])
    ensures AllFramable(codec, msgs[..i + 1])
    ensures StreamOf(codec, msgs[..i + 1]) == StreamOf(codec, msgs[..i]) + Frame(codec.encode(msgs[i]).value)
  {
    StreamOfAppend(codec, msgs[..i], msgs[i]);
    assert msgs[..i + 1] == msgs[..i] + [msgs[i]];
  }

  /** Reading frames until a read fails, as both ends' loops do: however the bytes arrive, this
      yields exactly the messages that are in them. */
  method ReadFrames<T(!new)>(source: ByteSource, codec: Codec<T>) returns (msgs: seq<T>, error: ErrorKind)
    modifies source
    ensures msgs == ParseAll(codec, Bytes(old(source.incoming))).0
    ensures var left := ParseAll(codec, Bytes(old(source.incoming))).1;
            error == if Parse(codec, left).Malformed? then InvalidData else Ending(old(source.incoming))
  {
    msgs := [];
    ghost var all := ParseAll(codec, Bytes(source.incoming));
    while true
      invariant all.0 == msgs + ParseAll(codec, Bytes(source.incoming)).0
      invariant all.1 == ParseAll(codec, Bytes(source.incoming)).1
      invariant Ending(source.incoming) == Ending(old(source.incoming))
      decreases |Bytes(source.incoming)|
    {
      ghost var before := Bytes(source.incoming);
      var r := ReadFrame(source, codec);
      if r.Failure? {
        assert !Parse(codec, before).Got?;
        assert msgs + [] == msgs;
        return msgs, r.error;
      }
      assert msgs + ([r.value] + ParseAll(codec, Bytes(source.incoming)).0)
          == (msgs + [r.value]) + ParseAll(codec, Bytes(source.incoming)).0;
      assert ParseAll(codec, before) == ([r.value] + ParseAll(codec, Bytes(source.incoming)).0,
                                         ParseAll(codec, Bytes(source.incoming)).1);
      msgs := msgs + [r.value];
    }
  }

  /** From end to end: what is written frame by frame, delivered in chunks of any sizes and read
      frame by frame, is what was sent, and then the way the deliveries end. */
  method Transfer<T(!new)>(codec: Codec<T>, msgs: seq<T>, deliver: seq<Byte> -> seq<Delivery>)
    returns (sent: bool, got: seq<T>, error: ErrorKind, ghost faults: nat)
    requires codec.LeftInverse()
    requires forall bytes: seq<Byte> :: Bytes(deliver(bytes)) == bytes
    ensures !sent ==> !AllFramable(codec, msgs) || faults > 0
    ensures sent ==> AllFramable(codec, msgs) && got == msgs && error == Ending(deliver(StreamOf(codec, msgs)))
  {
    var sink := new ByteSink();
    sent := WriteFrames(sink, codec, msgs);
    faults := sink.faults;
    var source := new ByteSource(deliver(sink.written));
    got, error := ReadFrames(source, codec);
    if sent {
      assert [] + StreamOf(codec, msgs) == StreamOf(codec, msgs);
      StreamRoundTrip(codec, msgs);
      assert Parse(codec, []).Short?;
    }
  }
}
