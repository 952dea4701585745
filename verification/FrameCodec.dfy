/**
 Length-prefixed frames on the client connection: an eight-byte big-endian header (service id,
 payload size) and a payload of at most 10 MiB.  The client decodes whatever pieces the socket
 yields; the gateway reads header and payload in turn.
 */
module FrameCodec {
  type Byte = x: int | 0 <= x < 256

  const HEADER_SIZE := 8
  const MAX_PAYLOAD := 10 * 1024 * 1024
  const WORD := 0x1_0000_0000

  datatype Frame = Frame(serviceId: nat, payload: seq<Byte>)

  /** Big-endian bytes of a 32-bit word; a larger number is truncated as the source's cast does. */
  function BigEndian(w: nat): (b: seq<Byte>)
    ensures |b| == 4
  {
    [(w / 0x100_0000) % 256, (w / 0x1_0000) % 256, (w / 0x100) % 256, w % 256]
  }

  function Join(a: nat, b: nat, c: nat, d: nat): nat {
    a * 0x100_0000 + b * 0x1_0000 + c * 0x100 + d
  }

  function WordAt(b: seq<Byte>, at: nat): nat
    requires at + 4 <= |b|
  {
    Join(b[at], b[at + 1], b[at + 2], b[at + 3])
  }

  lemma BytesOfWord(w: nat, a: nat, b: nat, c: nat, d: nat)
    requires w < WORD && a == w / 0x100_0000 && b == (w / 0x1_0000) % 256 && c == (w / 0x100) % 256 && d == w % 256
    ensures a < 256 && w == Join(a, b, c, d)
  {
    var w1, w2 := w / 0x100, w / 0x1_0000;
    assert w1 == w2 * 256 + c && w2 == a * 256 + b;
  }

  lemma WordRoundTrip(w: nat, rest: seq<Byte>)
    requires w < WORD
    ensures WordAt(BigEndian(w) + rest, 0) == w
  {
    hide Join;
    var a := w / 0x100_0000;
    BytesOfWord(w, a, (w / 0x1_0000) % 256, (w / 0x100) % 256, w % 256);
    assert a % 256 == a;
    var b := BigEndian(w);
    assert (b + rest)[..4] == b;
    assert WordAt(b + rest, 0) == Join(b[0], b[1], b[2], b[3]);
  }

  /** Network byte order: one more factor of 256 moves every byte one place to the front. */
  lemma NetworkOrder(w: nat, x: Byte)
    requires w < 0x100_0000
    ensures BigEndian(x) == [0, 0, 0, x]
    ensures BigEndian(w * 256 + x) == BigEndian(w)[1..] + [x]
  {
    var v := w * 256 + x;
    assert v / 0x100 == w && v % 256 == x;
    assert v / 0x1_0000 == w / 0x100 && v / 0x100_0000 == w / 0x1_0000;
  }

  function Encode(f: Frame): seq<Byte> {
    BigEndian(f.serviceId) + BigEndian(|f.payload|) + f.payload
  }

  // ---------------------------------------------------------------- what a stream of bytes holds

  /** `oversized` is set when the frames are followed by a header over the limit. */
  datatype Parsed = Parsed(frames: seq<Frame>, rest: seq<Byte>, oversized: bool)

  function Prepend(fs: seq<Frame>, p: Parsed): Parsed {
    p.(frames := fs + p.frames)
  }

  function FirstFrame(b: seq<Byte>): Frame
    requires |b| >= HEADER_SIZE && |b| >= HEADER_SIZE + WordAt(b, 4)
  {
    Frame(WordAt(b, 0), b[HEADER_SIZE..HEADER_SIZE + WordAt(b, 4)])
  }

  function Parse(b: seq<Byte>): Parsed
    decreases |b|
  {
    if |b| < HEADER_SIZE then Parsed([], b, false)
    else if WordAt(b, 4) > MAX_PAYLOAD then Parsed([], [], true)
    else if |b| < HEADER_SIZE + WordAt(b, 4) then Parsed([], b, false)
    else Prepend([FirstFrame(b)], Parse(b[HEADER_SIZE + WordAt(b, 4)..]))
  }

  lemma PrependTwice(a: seq<Frame>, b: seq<Frame>, p: Parsed)
    ensures Prepend(a, Prepend(b, p)) == Prepend(a + b, p)
  {
    assert a + (b + p.frames) == (a + b) + p.frames;
  }

  lemma PrependNothing(p: Parsed)
    ensures Prepend([], p) == p
  {
    assert [] + p.frames == p.frames;
  }

  /** Moving the first frame of what is left to the frames already read. */
  lemma ParseStep(read: seq<Frame>, left: seq<Byte>)
    requires |left| >= HEADER_SIZE && WordAt(left, 4) <= MAX_PAYLOAD && |left| >= HEADER_SIZE + WordAt(left, 4)
    ensures Prepend(read, Parse(left)) ==
            Prepend(read + [FirstFrame(left)], Parse(left[HEADER_SIZE + WordAt(left, 4)..]))
  {
    hide WordAt;
    PrependTwice(read, [FirstFrame(left)], Parse(left[HEADER_SIZE + WordAt(left, 4)..]));
  }

  lemma HeaderStays(a: seq<Byte>, b: seq<Byte>)
    requires |a| >= HEADER_SIZE
    ensures WordAt(a + b, 0) == WordAt(a, 0) && WordAt(a + b, 4) == WordAt(a, 4)
  {
  }

  /** Reading on after a prefix gives what reading the whole gives; an oversized header is final. */
  lemma {:induction false} ParseAppend(a: seq<Byte>, b: seq<Byte>)
    ensures Parse(a).oversized ==> Parse(a + b) == Parse(a)
    ensures !Parse(a).oversized ==> Parse(a + b) == Prepend(Parse(a).frames, Parse(Parse(a).rest + b))
    decreases |a|
  {
    if |a| >= HEADER_SIZE {
      HeaderStays(a, b);
      var total := HEADER_SIZE + WordAt(a, 4);
      if WordAt(a, 4) <= MAX_PAYLOAD && |a| >= total {
        var tail := a[total..];
        ParseAppend(tail, b);
        assert (a + b)[total..] == tail + b;
        assert (a + b)[HEADER_SIZE..total] == a[HEADER_SIZE..total];
        assert Parse(a + b) == Prepend([FirstFrame(a)], Parse(tail + b));
        if !Parse(tail).oversized {
          PrependTwice([FirstFrame(a)], Parse(tail).frames, Parse(Parse(tail).rest + b));
        }
      }
    }
  }

  // ---------------------------------------------------------------- encoding and back

  predicate Sendable(f: Frame) {
    f.serviceId < WORD && |f.payload| <= MAX_PAYLOAD
  }

  function EncodeAll(fs: seq<Frame>): seq<Byte> {
    if fs == [] then [] else Encode(fs[0]) + EncodeAll(fs[1..])
  }

  lemma FirstOfEncoded(f: Frame, rest: seq<Byte>)
    requires Sendable(f)
    ensures var b := Encode(f) + rest;
            && WordAt(b, 4) == |f.payload| && |b| == HEADER_SIZE + |f.payload| + |rest|
            && FirstFrame(b) == f && b[HEADER_SIZE + |f.payload|..] == rest
  {
    hide BigEndian, Join;
    var b := Encode(f) + rest;
    var size := BigEndian(|f.payload|);
    WordRoundTrip(f.serviceId, size + f.payload + rest);
    assert b == BigEndian(f.serviceId) + (size + f.payload + rest);
    WordRoundTrip(|f.payload|, f.payload + rest);
    assert b[4..] == size + (f.payload + rest);
    assert WordAt(b, 4) == WordAt(b[4..], 0);
    assert b[HEADER_SIZE..HEADER_SIZE + |f.payload|] == f.payload;
  }

  lemma Assoc(a: seq<Byte>, b: seq<Byte>, c: seq<Byte>)
    ensures (a + b) + c == a + (b + c)
  {
  }

  lemma EncodedFrameParses(f: Frame, rest: seq<Byte>)
    requires Sendable(f)
    ensures Parse(Encode(f) + rest) == Prepend([f], Parse(rest))
  {
    FirstOfEncoded(f, rest);
    hide Encode;
  }

  lemma EncodedConsParses(f: Frame, tail: seq<Frame>, rest: seq<Byte>)
    requires Sendable(f) && Parse(EncodeAll(tail) + rest) == Prepend(tail, Parse(rest))
    ensures Parse((Encode(f) + EncodeAll(tail)) + rest) == Prepend([f] + tail, Parse(rest))
  {
    hide Encode, EncodeAll, Parse, Sendable;
    EncodedFrameParses(f, EncodeAll(tail) + rest);
    Assoc(Encode(f), EncodeAll(tail), rest);
    PrependTwice([f], tail, Parse(rest));
  }

  /** Decoding concatenated encodings gives back exactly the frames, whatever follows them. */
  lemma {:induction false} EncodedStreamParses(fs: seq<Frame>, rest: seq<Byte>)
    requires forall i :: 0 <= i < |fs| ==> Sendable(fs[i])
    ensures Parse(EncodeAll(fs) + rest) == Prepend(fs, Parse(rest))
    decreases |fs|
  {
    hide Encode, Parse, Sendable, Prepend;
    if fs == [] {
      assert [] + rest == rest && Prepend([], Parse(rest)) == Parse(rest) by { PrependNothing(Parse(rest)); }
    } else {
      EncodedStreamParses(fs[1..], rest);
      EncodedConsParses(fs[0], fs[1..], rest);
      assert [fs[0]] + fs[1..] == fs;
    }
  }

  // ---------------------------------------------------------------- feeding pieces

  datatype Decoder = Decoder(buffer: seq<Byte>, error: bool)

  const FRESH := Decoder([], false)

  /** One Feed.  A call that meets an oversized header returns nothing, not even earlier frames. */
  function Fed(d: Decoder, bytes: seq<Byte>): (Decoder, seq<Frame>) {
    if d.error then (d, [])
    else
      var p := Parse(d.buffer + bytes);
      if p.oversized then (Decoder([], true), []) else (Decoder(p.rest, false), p.frames)
  }

  function FedAll(chunks: seq<seq<Byte>>): (Decoder, seq<Frame>)
    decreases |chunks|
  {
    if chunks == [] then (FRESH, [])
    else
      var (d, before) := FedAll(chunks[..|chunks| - 1]);
      var (d', frames) := Fed(d, chunks[|chunks| - 1]);
      (d', before + frames)
  }

  function Concat(chunks: seq<seq<Byte>>): seq<Byte>
    decreases |chunks|
  {
    if chunks == [] then [] else Concat(chunks[..|chunks| - 1]) + chunks[|chunks| - 1]
  }

  /** The pieces up to and excluding the first that completes an oversized header. */
  function Clean(chunks: seq<seq<Byte>>): (clean: seq<seq<Byte>>)
    ensures clean <= chunks
    ensures clean == chunks <==> !Parse(Concat(chunks)).oversized
    decreases |chunks|
  {
    if !Parse(Concat(chunks)).oversized then chunks else
    assert chunks != [];
    Clean(chunks[..|chunks| - 1])
  }

  /**
   Feeding refines parsing the whole stream.  The error flag does not depend on the pieces; with
   no oversized header neither do the frames and the leftover; otherwise the frames are those of
   the pieces before the one that completed the oversized header.
   */
  lemma {:induction false} FeedingParses(chunks: seq<seq<Byte>>)
    ensures var (d, frames) := FedAll(chunks);
            && d.error == Parse(Concat(chunks)).oversized
            && (!d.error ==> d.buffer == Parse(Concat(chunks)).rest)
            && frames == Parse(Concat(Clean(chunks))).frames
    decreases |chunks|
  {
    if chunks != [] {
      var front, last := chunks[..|chunks| - 1], chunks[|chunks| - 1];
      FeedingParses(front);
      ParseAppend(Concat(front), last);
      var (d, before) := FedAll(front);
      var (d', frames) := Fed(d, last);
      assert FedAll(chunks) == (d', before + frames);
      if d'.error {
        assert before + [] == before;
      }
    }
  }

  /** Two ways of cutting the same stream agree on the flag, and on everything unless it is set. */
  lemma ChunkingIrrelevant(a: seq<seq<Byte>>, b: seq<seq<Byte>>)
    requires Concat(a) == Concat(b)
    ensures FedAll(a).0 == FedAll(b).0 || (FedAll(a).0.error && FedAll(b).0.error)
    ensures !FedAll(a).0.error ==> FedAll(a) == FedAll(b)
  {
    FeedingParses(a);
    FeedingParses(b);
  }

  /** Any cutting of concatenated encodings decodes to exactly the frames, with nothing left over. */
  lemma DecodesWhatWasEncoded(fs: seq<Frame>, chunks: seq<seq<Byte>>)
    requires forall i :: 0 <= i < |fs| ==> Sendable(fs[i])
    requires Concat(chunks) == EncodeAll(fs)
    ensures FedAll(chunks) == (FRESH, fs)
  {
    FeedingParses(chunks);
    EncodedStreamParses(fs, []);
    assert EncodeAll(fs) + [] == EncodeAll(fs);
    assert fs + [] == fs;
  }

  /** A frame followed by a header over the limit. */
  function Poisoned(f: Frame, serviceId: nat): seq<seq<Byte>> {
    [Encode(f), BigEndian(serviceId) + BigEndian(MAX_PAYLOAD + 1)]
  }

  lemma OversizedHeader(serviceId: nat)
    ensures Parse(BigEndian(serviceId) + BigEndian(MAX_PAYLOAD + 1)) == Parsed([], [], true)
  {
    var header := BigEndian(serviceId) + BigEndian(MAX_PAYLOAD + 1);
    WordRoundTrip(MAX_PAYLOAD + 1, []);
    assert header[4..] == BigEndian(MAX_PAYLOAD + 1) + [];
    assert WordAt(header, 4) == WordAt(header[4..], 0);
  }

  lemma FedOnce(bytes: seq<Byte>)
    ensures FedAll([bytes]).1 == if Parse(bytes).oversized then [] else Parse(bytes).frames
  {
    hide Parse;
    var none: seq<seq<Byte>> := [];
    assert [bytes][..0] == none && [] + bytes == bytes;
    assert FedAll([bytes]).1 == [] + Fed(FRESH, bytes).1;
  }

  /** With an oversized header the frames returned do depend on the cutting. */
  lemma CuttingMattersOnError(f: Frame, serviceId: nat)
    requires Sendable(f)
    ensures FedAll(Poisoned(f, serviceId)).1 == [f]
    ensures FedAll([Concat(Poisoned(f, serviceId))]).1 == []
  {
    var cut := Poisoned(f, serviceId);
    var header := cut[1];
    EncodedFrameParses(f, []);
    EncodedFrameParses(f, header);
    OversizedHeader(serviceId);
    assert Parse([]) == Parsed([], [], false);
    hide Parse, Encode, BigEndian;
    assert Encode(f) + [] == Encode(f);
    var none: seq<seq<Byte>> := [];
    assert cut[..1] == [Encode(f)] && cut[..1][..0] == none;
    assert Concat(cut[..1]) == [] + Encode(f) == Encode(f);
    assert Concat(cut) == Encode(f) + header;
    FedOnce(Encode(f));
    FedOnce(Concat(cut));
    FeedingParses(cut);
    assert [f] + [] == [f];
  }

  // ---------------------------------------------------------------- the decoder and the gateway

  class TcpFrameCodec {
    var buffer: seq<Byte>
    var error: bool

    function State(): Decoder
      reads this
    {
      Decoder(buffer, error)
    }

    constructor ()
      ensures State() == FRESH
    {
      buffer, error := [], false;
    }

    method Feed(bytes: seq<Byte>) returns (frames: seq<Frame>)
      modifies this
      ensures (State(), frames) == Fed(old(State()), bytes)
    {
      frames := [];
      if error {
        return;
      }
      buffer := buffer + bytes;
      ghost var whole := Parse(buffer);
      PrependNothing(whole);
      while |buffer| >= HEADER_SIZE
        invariant !error && whole == Prepend(frames, Parse(buffer))
        decreases |buffer|
      {
        var serviceId := WordAt(buffer, 0);
        var payloadSize := WordAt(buffer, 4);
        if payloadSize > MAX_PAYLOAD {
          error, buffer := true, [];
          return [];
        }
        var totalSize := HEADER_SIZE + payloadSize;
        if |buffer| < totalSize {
          break;
        }
        ParseStep(frames, buffer);
        frames := frames + [Frame(serviceId, buffer[HEADER_SIZE..totalSize])];
        buffer := buffer[totalSize..];
      }
      assert frames + [] == frames;
    }

    method Reset()
      modifies this
      ensures State() == FRESH
    {
      buffer, error := [], false;
    }
  }

  /** The gateway fills a buffer of the final size; the bytes are those of the client's encoder. */
  method EncodeFrame(protocolId: nat, payload: seq<Byte>) returns (frame: array<Byte>)
    ensures frame[..] == Encode(Frame(protocolId, payload))
  {
    frame := new Byte[HEADER_SIZE + |payload|](_ => 0);
    var wireId, wireSize := BigEndian(protocolId), BigEndian(|payload|);
    forall i | 0 <= i < 4 {
      frame[i] := wireId[i];
    }
    forall i | 0 <= i < 4 {
      frame[4 + i] := wireSize[i];
    }
    forall i | 0 <= i < |payload| {
      frame[HEADER_SIZE + i] := payload[i];
    }
    assert frame[..4] == wireId && frame[4..8] == wireSize && frame[8..] == payload;
    assert frame[..] == frame[..4] + frame[4..8] + frame[8..];
  }

  /**
   The gateway's read loop over the bytes a client sent before the connection ended: it handles
   every frame in front of the first incomplete or oversized one, which ends the session.
   */
  method ReadFrames(stream: seq<Byte>) returns (handled: seq<Frame>, oversized: bool)
    ensures handled == Parse(stream).frames && oversized == Parse(stream).oversized
  {
    hide WordAt;
    handled, oversized := [], false;
    var at := 0;
    PrependNothing(Parse(stream));
    assert stream[0..] == stream;
    while true
      invariant at <= |stream| && !oversized && Parse(stream) == Prepend(handled, Parse(stream[at..]))
      decreases |stream| - at
    {
      var left := stream[at..];
      if |left| < HEADER_SIZE {
        break;
      }
      var protocolId, bodySize := WordAt(left, 0), WordAt(left, 4);
      if bodySize > MAX_PAYLOAD {
        oversized := true;
        break;
      }
      if |left| < HEADER_SIZE + bodySize {
        break;
      }
      var next := at + HEADER_SIZE + bodySize;
      assert left[HEADER_SIZE + bodySize..] == stream[next..];
      ParseStep(handled, left);
      handled := handled + [Frame(protocolId, left[HEADER_SIZE..HEADER_SIZE + bodySize])];
      at := next;
    }
    assert handled + [] == handled;
  }
}
