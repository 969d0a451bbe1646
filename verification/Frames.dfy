/**
 The length-prefixed wire protocol: one frame as bytes, extraction of a frame from a buffer, and the
 connection handler that reassembles frames from whatever chunks the socket delivers.
 */
module Frames {
  import opened Prelude
  import opened Bytes

  /** The values of the ApiKey enumeration. */
  type ApiKey = k: int | 0 <= k <= 18

  datatype Frame = Frame(apiKey: ApiKey, apiVersion: int, correlationId: int, payload: seq<byte>)

  const HEADER_SIZE := 12

  /** What struct.pack accepts for the header "!IHHi". */
  predicate Packable(f: Frame) {
    && HEADER_SIZE - 4 + |f.payload| < TWO_32
    && 0 <= f.apiVersion < TWO_16
    && FitsSigned(f.correlationId, TWO_32)
  }

  function Header(f: Frame): (h: seq<byte>)
    requires Packable(f)
    ensures |h| == HEADER_SIZE
  {
    BigEndian(HEADER_SIZE - 4 + |f.payload|, 4) + BigEndian(f.apiKey, 2) + BigEndian(f.apiVersion, 2)
    + BigEndian(ToUnsigned(f.correlationId, TWO_32), 4)
  }

  function ToBytes(f: Frame): (bs: seq<byte>)
    requires Packable(f)
    ensures |bs| == HEADER_SIZE + |f.payload|
  {
    Header(f) + f.payload
  }

  /** Nothing when the data is shorter than a header or names an unknown api key: from_bytes raises. */
  function FromBytes(data: seq<byte>): Option<Frame> {
    if |data| < HEADER_SIZE then None
    else
      var key := FromBigEndian(data[4..6]);
      if key > 18 then None
      else Some(Frame(key, FromBigEndian(data[6..8]), ToSigned(FromBigEndian(data[8..12]), TWO_32),
                      data[HEADER_SIZE..]))
  }

  datatype Extraction = Incomplete | Extracted(frame: Frame, rest: seq<byte>) | Malformed

  function ReadFromBuffer(buffer: seq<byte>): (r: Extraction)
    ensures r.Extracted? ==> |r.rest| < |buffer|
  {
    if |buffer| < 4 then Incomplete
    else
      var total := 4 + FromBigEndian(buffer[..4]);
      if |buffer| < total then Incomplete
      else
        var frame := FromBytes(buffer[..total]);
        if frame.Some? then Extracted(frame.value, buffer[total..]) else Malformed
  }

  // ---------------------------------------------------------------- one frame

  lemma HeaderFields(f: Frame)
    requires Packable(f)
    ensures var h := Header(f);
            && FromBigEndian(h[..4]) == HEADER_SIZE - 4 + |f.payload|
            && FromBigEndian(h[4..6]) == f.apiKey
            && FromBigEndian(h[6..8]) == f.apiVersion
            && ToSigned(FromBigEndian(h[8..12]), TWO_32) == f.correlationId
  {
    Powers();
    DecodeEncode(HEADER_SIZE - 4 + |f.payload|, 4);
    DecodeEncode(f.apiKey, 2);
    DecodeEncode(f.apiVersion, 2);
    DecodeEncode(ToUnsigned(f.correlationId, TWO_32), 4);
    hide FromBigEndian, ToSigned, ToUnsigned;
    var length, key := BigEndian(HEADER_SIZE - 4 + |f.payload|, 4), BigEndian(f.apiKey, 2);
    var version, id := BigEndian(f.apiVersion, 2), BigEndian(ToUnsigned(f.correlationId, TWO_32), 4);
    FourFields(length, key, version, id);
  }

  lemma FourFields(a: seq<byte>, b: seq<byte>, c: seq<byte>, d: seq<byte>)
    requires |a| == 4 && |b| == 2 && |c| == 2 && |d| == 4
    ensures var h := a + b + c + d; h[..4] == a && h[4..6] == b && h[6..8] == c && h[8..12] == d
  {
    var h := a + b + c + d;
    assert h == a + (b + (c + d));
  }

  /** A frame at the head of the buffer is extracted whole, whatever follows it. */
  lemma ReadOneFrame(f: Frame, suffix: seq<byte>)
    requires Packable(f)
    ensures ReadFromBuffer(ToBytes(f) + suffix) == Extracted(f, suffix)
  {
    var buffer := ToBytes(f) + suffix;
    var data := buffer[..HEADER_SIZE + |f.payload|];
    HeaderFields(f);
    assert data == ToBytes(f);
    assert buffer[..4] == Header(f)[..4];
    assert data[4..6] == Header(f)[4..6] && data[6..8] == Header(f)[6..8] && data[8..12] == Header(f)[8..12];
    assert data[HEADER_SIZE..] == f.payload;
    assert buffer[HEADER_SIZE + |f.payload|..] == suffix;
  }

  /** A strict prefix of a frame is kept waiting. */
  lemma ReadPartialFrame(f: Frame, n: nat)
    requires Packable(f) && n < |ToBytes(f)|
    ensures ReadFromBuffer(ToBytes(f)[..n]) == Incomplete
  {
    HeaderFields(f);
    if n >= 4 {
      assert ToBytes(f)[..n][..4] == Header(f)[..4];
    }
  }

  /** Extraction is exact: re-encoding the frame and appending the remainder gives the buffer back. */
  lemma ReencodeExtracted(buffer: seq<byte>)
    requires ReadFromBuffer(buffer).Extracted?
    ensures var r := ReadFromBuffer(buffer);
            Packable(r.frame) && ToBytes(r.frame) + r.rest == buffer
  {
    var r := ReadFromBuffer(buffer);
    var total := 4 + FromBigEndian(buffer[..4]);
    var data := buffer[..total];
    EncodeDecode(buffer[..4]);
    EncodeDecode(data[4..6]);
    EncodeDecode(data[6..8]);
    EncodeDecode(data[8..12]);
    Powers();
    assert data[..4] == buffer[..4];
    assert Header(r.frame) == data[..4] + data[4..6] + data[6..8] + data[8..12] == data[..HEADER_SIZE];
    assert data == data[..HEADER_SIZE] + data[HEADER_SIZE..];
  }

  /** More bytes at the end change neither what was extracted nor what was found malformed. */
  lemma ReadExtends(buffer: seq<byte>, more: seq<byte>)
    ensures match ReadFromBuffer(buffer)
            case Incomplete => true
            case Extracted(f, rest) => ReadFromBuffer(buffer + more) == Extracted(f, rest + more)
            case Malformed => ReadFromBuffer(buffer + more) == Malformed
  {
    if |buffer| >= 4 {
      var total := 4 + FromBigEndian(buffer[..4]);
      assert (buffer + more)[..4] == buffer[..4];
      if |buffer| >= total {
        assert (buffer + more)[..total] == buffer[..total];
        assert (buffer + more)[total..] == buffer[total..] + more;
      }
    }
  }

  // ---------------------------------------------------------------- the wire format

  /**
   The frame on the wire, byte by byte: the length of what follows the length field, the api key, the version,
   and the correlation id modulo 2 to the 32, most significant byte first, and then the payload.
   */
  lemma WireLayout(f: Frame)
    requires Packable(f)
    ensures var bs := ToBytes(f);
            && |bs| == 12 + |f.payload|
            && AreDigits(bs[0..4], 8 + |f.payload|)
            && AreDigits(bs[4..6], f.apiKey)
            && AreDigits(bs[6..8], f.apiVersion)
            && AreDigits(bs[8..12], f.correlationId % TWO_32)
            && bs[12..] == f.payload
  {
    var length, key := BigEndian(HEADER_SIZE - 4 + |f.payload|, 4), BigEndian(f.apiKey, 2);
    var version, id := BigEndian(f.apiVersion, 2), BigEndian(ToUnsigned(f.correlationId, TWO_32), 4);
    var bs := ToBytes(f);
    TwosComplement(f.correlationId, TWO_32);
    BigEndianIsDigits(HEADER_SIZE - 4 + |f.payload|, 4);
    BigEndianIsDigits(f.apiKey, 2);
    BigEndianIsDigits(f.apiVersion, 2);
    BigEndianIsDigits(ToUnsigned(f.correlationId, TWO_32), 4);
    FourFields(length, key, version, id);
    assert bs[0..4] == Header(f)[..4] && bs[4..6] == Header(f)[4..6];
    assert bs[6..8] == Header(f)[6..8] && bs[8..12] == Header(f)[8..12];
    hide AreDigits;
  }

  /**
   What the first bytes of a buffer decide: it waits while the announced bytes are not all there, and a frame
   that is there raises exactly if it is shorter than a header or names an api key that does not exist.
   */
  lemma ExtractionIff(buffer: seq<byte>)
    ensures ReadFromBuffer(buffer).Incomplete? <==>
            |buffer| < 4 || |buffer| < 4 + PlaceValues(buffer[..4])
    ensures ReadFromBuffer(buffer).Malformed? <==>
            && |buffer| >= 4 && |buffer| >= 4 + PlaceValues(buffer[..4])
            && (4 + PlaceValues(buffer[..4]) < 12 || PlaceValues(buffer[4..6]) > 18)
  {
    if |buffer| >= 4 {
      var total := 4 + FromBigEndian(buffer[..4]);
      FromBigEndianSums(buffer[..4]);
      if |buffer| >= total >= 12 {
        assert buffer[..total][4..6] == buffer[4..6];
        FromBigEndianSums(buffer[4..6]);
      }
    }
  }

  /** What an extracted frame holds. */
  lemma ExtractedFields(buffer: seq<byte>)
    requires ReadFromBuffer(buffer).Extracted?
    ensures var f, total := ReadFromBuffer(buffer).frame, 4 + PlaceValues(buffer[..4]);
            && 12 <= total <= |buffer|
            && f.apiKey == PlaceValues(buffer[4..6]) && f.apiVersion == PlaceValues(buffer[6..8])
            && f.correlationId % TWO_32 == PlaceValues(buffer[8..12]) && FitsSigned(f.correlationId, TWO_32)
            && f.payload == buffer[12..total] && ReadFromBuffer(buffer).rest == buffer[total..]
  {
    var data := buffer[..4 + FromBigEndian(buffer[..4])];
    assert data[4..6] == buffer[4..6] && data[6..8] == buffer[6..8] && data[8..12] == buffer[8..12];
    FromBigEndianSums(buffer[..4]);
    FromBigEndianSums(buffer[4..6]);
    FromBigEndianSums(buffer[6..8]);
    FromBigEndianSums(buffer[8..12]);
    ReencodeExtracted(buffer);
    EncodeDecode(buffer[8..12]);
    Powers();
    SignedIsCongruent(FromBigEndian(buffer[8..12]), TWO_32);
  }

  // ---------------------------------------------------------------- the processing loop

  /** What one pass over a buffer dispatches, what stays in it, and whether a frame raised. */
  datatype Pass = Pass(frames: seq<Frame>, rest: seq<byte>, failed: bool)

  function Drain(buffer: seq<byte>): Pass
    decreases |buffer|
  {
    match ReadFromBuffer(buffer)
    case Incomplete => Pass([], buffer, false)
    case Malformed => Pass([], buffer, true)
    case Extracted(f, rest) =>
      var more := Drain(rest);
      Pass([f] + more.frames, more.rest, more.failed)
  }

  ghost predicate AllPackable(fs: seq<Frame>) {
    forall i :: 0 <= i < |fs| ==> Packable(fs[i])
  }

  /** The bytes of a list of frames, one after the other. */
  function Stream(fs: seq<Frame>): seq<byte>
    requires AllPackable(fs)
  {
    if fs == [] then [] else ToBytes(fs[0]) + Stream(fs[1..])
  }

  /** The pass stops at an incomplete frame, and what it took plus what it left is the buffer. */
  lemma {:induction false} DrainConserves(buffer: seq<byte>)
    ensures AllPackable(Drain(buffer).frames)
    ensures Stream(Drain(buffer).frames) + Drain(buffer).rest == buffer
    ensures ReadFromBuffer(Drain(buffer).rest) == if Drain(buffer).failed then Malformed else Incomplete
    decreases |buffer|
  {
    match ReadFromBuffer(buffer)
    case Extracted(f, rest) =>
      ReencodeExtracted(buffer);
      DrainConserves(rest);
      var more := Drain(rest);
      assert ([f] + more.frames)[1..] == more.frames;
      assert ToBytes(f) + (Stream(more.frames) + more.rest) == ToBytes(f) + Stream(more.frames) + more.rest;
    case _ =>
  }

  /** Draining early and going on with what is left is the same as draining once. */
  lemma {:induction false} DrainExtends(buffer: seq<byte>, more: seq<byte>)
    ensures var first := Drain(buffer);
            if first.failed then Drain(buffer + more).frames == first.frames && Drain(buffer + more).failed
            else
              var second := Drain(first.rest + more);
              Drain(buffer + more) == Pass(first.frames + second.frames, second.rest, second.failed)
    decreases |buffer|
  {
    hide ReadFromBuffer;
    ReadExtends(buffer, more);
    match ReadFromBuffer(buffer)
    case Incomplete => assert [] + Drain(buffer + more).frames == Drain(buffer + more).frames;
    case Malformed =>
    case Extracted(f, rest) =>
      DrainExtends(rest, more);
      if !Drain(rest).failed {
        var second := Drain(Drain(rest).rest + more);
        assert [f] + (Drain(rest).frames + second.frames) == [f] + Drain(rest).frames + second.frames;
      }
  }

  // ---------------------------------------------------------------- the connection

  datatype Connection = Connection(buffer: seq<byte>, dispatched: seq<Frame>, open: bool)

  const OPENED := Connection([], [], true)

  /**
   One receive: an empty chunk is end of stream, and a malformed frame ends the connection with its buffer
   untouched.
   */
  function Receive(c: Connection, chunk: seq<byte>): Connection {
    if !c.open then c
    else if chunk == [] then c.(open := false)
    else
      var pass := Drain(c.buffer + chunk);
      Connection(pass.rest, c.dispatched + pass.frames, !pass.failed)
  }

  function Feed(c: Connection, chunks: seq<seq<byte>>): Connection {
    if chunks == [] then c else Receive(Feed(c, chunks[..|chunks| - 1]), chunks[|chunks| - 1])
  }

  function Joined(chunks: seq<seq<byte>>): seq<byte> {
    if chunks == [] then [] else Joined(chunks[..|chunks| - 1]) + chunks[|chunks| - 1]
  }

  ghost predicate NonEmpty(chunks: seq<seq<byte>>) {
    forall i :: 0 <= i < |chunks| ==> chunks[i] != []
  }

  /**
   How the stream is cut into chunks does not matter, for any bytes at all: the handler dispatches what
   one pass over the whole stream dispatches, fails if and only if that pass fails, and otherwise is
   left with the same buffer.
   */
  lemma {:induction false} ChunkingIsInvisible(chunks: seq<seq<byte>>)
    requires NonEmpty(chunks)
    ensures var c, pass := Feed(OPENED, chunks), Drain(Joined(chunks));
            && c.dispatched == pass.frames
            && c.open == !pass.failed
            && (c.open ==> c.buffer == pass.rest)
  {
    if chunks == [] {
    } else {
      var n := |chunks| - 1;
      ChunkingIsInvisible(chunks[..n]);
      DrainExtends(Joined(chunks[..n]), chunks[n]);
    }
  }

  /** At every moment of an open connection, the dispatched frames and the buffer are all the bytes received. */
  lemma NothingLostInTransit(chunks: seq<seq<byte>>)
    requires NonEmpty(chunks) && Feed(OPENED, chunks).open
    ensures var c := Feed(OPENED, chunks);
            && AllPackable(c.dispatched)
            && Stream(c.dispatched) + c.buffer == Joined(chunks)
            && ReadFromBuffer(c.buffer) == Incomplete
  {
    ChunkingIsInvisible(chunks);
    DrainConserves(Joined(chunks));
  }

  /** The pass dispatched the first `k` frames and left a strict prefix of the next one. */
  ghost predicate Took(pass: Pass, fs: seq<Frame>, k: nat)
    requires AllPackable(fs)
  {
    && k <= |fs| && pass.frames == fs[..k] && !pass.failed
    && if k == |fs| then pass.rest == []
       else |pass.rest| < |ToBytes(fs[k])| && pass.rest == ToBytes(fs[k])[..|pass.rest|]
  }

  lemma TookOneMore(pass: Pass, fs: seq<Frame>, j: nat)
    requires AllPackable(fs) && fs != [] && AllPackable(fs[1..]) && Took(pass, fs[1..], j)
    ensures Took(Pass([fs[0]] + pass.frames, pass.rest, pass.failed), fs, j + 1)
  {
    hide ToBytes;
    assert fs[..j + 1] == [fs[0]] + fs[1..][..j];
  }

  lemma DrainStep(buffer: seq<byte>, f: Frame, rest: seq<byte>)
    requires ReadFromBuffer(buffer) == Extracted(f, rest)
    ensures Drain(buffer) == Pass([f] + Drain(rest).frames, Drain(rest).rest, Drain(rest).failed)
  {
  }

  /** Any prefix of a stream of frames drains to the frames it holds in full and a strict prefix of the next one. */
  lemma {:induction false} DrainPrefix(fs: seq<Frame>, n: nat) returns (k: nat)
    requires AllPackable(fs) && n <= |Stream(fs)|
    ensures k <= |fs|
    ensures Took(Drain(Stream(fs)[..n]), fs, k)
    ensures n == |Stream(fs)| ==> k == |fs|
    decreases fs
  {
    if fs == [] {
      k := 0;
    } else {
      hide ReadFromBuffer;
      hide ToBytes;
      var head, tail := ToBytes(fs[0]), Stream(fs[1..]);
      var data := Stream(fs)[..n];
      assert Stream(fs) == head + tail;
      if n < |head| {
        k := 0;
        assert data == head[..n];
        ReadPartialFrame(fs[0], n);
      } else {
        var rest := tail[..n - |head|];
        assert data == head + rest;
        ReadOneFrame(fs[0], rest);
        DrainStep(data, fs[0], rest);
        hide Drain, Stream, AllPackable, Took;
        var j := DrainPrefix(fs[1..], n - |head|);
        k := j + 1;
        TookOneMore(Drain(rest), fs, j);
      }
    }
  }

  /**
   Reassembly: however the bytes of a list of frames are cut into chunks, after any number of chunks the
   handler has dispatched a prefix of the frames in order and holds a strict prefix of the next one;
   when all bytes are in, it has dispatched exactly the frames and its buffer is empty.
   */
  lemma StreamReassembly(fs: seq<Frame>, chunks: seq<seq<byte>>, more: seq<byte>) returns (k: nat)
    requires AllPackable(fs) && NonEmpty(chunks)
    requires Joined(chunks) + more == Stream(fs)
    ensures k <= |fs| && (more == [] ==> k == |fs|)
    ensures var c := Feed(OPENED, chunks);
            && c.open && c.dispatched == fs[..k]
            && (if k == |fs| then c.buffer == []
                else |c.buffer| < |ToBytes(fs[k])| && c.buffer == ToBytes(fs[k])[..|c.buffer|])
    ensures more == [] ==> Feed(OPENED, chunks) == Connection([], fs, true)
  {
    ChunkingIsInvisible(chunks);
    assert Stream(fs)[..|Joined(chunks)|] == Joined(chunks);
    k := DrainPrefix(fs, |Joined(chunks)|);
    assert fs[..|fs|] == fs;
  }

  // ---------------------------------------------------------------- the object

  class ClientHandler {
    var buffer: seq<byte>
    var active: bool
    /** The frames handed to the dispatcher, in order. */
    var dispatched: seq<Frame>

    constructor ()
      ensures State() == OPENED
    {
      buffer, active, dispatched := [], true, [];
    }

    function State(): Connection
      reads this
    {
      Connection(buffer, dispatched, active)
    }

    /** Extracts and dispatches complete frames; reports whether a frame raised. */
    method ProcessBuffer() returns (raised: bool)
      modifies this`buffer, this`dispatched
      ensures var pass := Drain(old(buffer));
              buffer == pass.rest && dispatched == old(dispatched) + pass.frames && raised == pass.failed
    {
      hide ReadFromBuffer;
      ghost var pass := Drain(buffer);
      ghost var done: seq<Frame> := [];
      assert [] + pass.frames == pass.frames;
      while true
        invariant dispatched == old(dispatched) + done
        invariant pass == Pass(done + Drain(buffer).frames, Drain(buffer).rest, Drain(buffer).failed)
        decreases |buffer|
      {
        var extraction := ReadFromBuffer(buffer);
        match extraction {
          case Malformed =>
            assert done + [] == done;
            return true;
          case Incomplete =>
            assert done + [] == done;
            return false;
          case Extracted(frame, rest) =>
            assert done + ([frame] + Drain(rest).frames) == done + [frame] + Drain(rest).frames;
            buffer := rest;
            dispatched := dispatched + [frame];
            done := done + [frame];
        }
      }
    }

    /** The receive loop over what the socket delivers, up to end of stream or a frame that raises. */
    method Handle(chunks: seq<seq<byte>>)
      modifies this
      ensures State() == Feed(old(State()), chunks)
    {
      ghost var start := State();
      for i := 0 to |chunks|
        invariant State() == Feed(start, chunks[..i])
      {
        assert chunks[..i + 1][..i] == chunks[..i];
        if active {
          if chunks[i] == [] {
            active := false;
          } else {
            buffer := buffer + chunks[i];
            var raised := ProcessBuffer();
            active := !raised;
          }
        }
      }
      assert chunks[..|chunks|] == chunks;
    }
  }
}
