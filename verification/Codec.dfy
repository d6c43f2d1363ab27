/** The frame codec (src/frame.rs): big-endian header, length-prefixed payload, and a streaming
    decoder fed by reads of arbitrary sizes. */
module Codec {
  import opened Wire
  import opened Division

  const MAX_DECODER_BUF := HEADER_LEN + MAX_PAYLOAD + 16384

  // ----- big-endian integers

  function Pow256(n: nat): (p: nat)
    ensures p > 0
  {
    if n == 0 then 1 else 256 * Pow256(n - 1)
  }

  function PutBE(v: nat, n: nat): (b: Bytes)
    ensures |b| == n
  {
    if n == 0 then [] else PutBE(v / 256, n - 1) + [v % 256]
  }

  function GetBE(b: Bytes): nat {
    if b == [] then 0 else GetBE(b[..|b| - 1]) * 256 + b[|b| - 1]
  }

  lemma {:induction false} GetPutBE(v: nat, n: nat)
    requires v < Pow256(n)
    ensures GetBE(PutBE(v, n)) == v
  {
    if n > 0 {
      GetPutBE(v / 256, n - 1);
      assert PutBE(v, n)[..n - 1] == PutBE(v / 256, n - 1);
    }
  }

  lemma {:induction false} GetBEBound(b: Bytes)
    ensures GetBE(b) < Pow256(|b|)
  {
    if b != [] {
      GetBEBound(b[..|b| - 1]);
    }
  }

  lemma PowValues()
    ensures Pow256(2) == 0x1_0000 && Pow256(4) == 0x1_0000_0000 && Pow256(8) == U64_MAX + 1
  {
    assert Pow256(2) == 256 * Pow256(1);
    assert Pow256(4) == 256 * Pow256(3);
    assert Pow256(6) == 256 * Pow256(5);
    assert Pow256(8) == 256 * Pow256(7);
  }

  // ----- one frame

  predicate Encodable(f: Frame) {
    |f.payload| <= MAX_PAYLOAD
  }

  function Header(f: Frame): (h: Bytes)
    ensures |h| == HEADER_LEN
  {
    PutBE(f.connId, 4) + PutBE(f.seqno, 8) + [f.flags] + PutBE(|f.payload|, 2)
  }

  function Encode(f: Frame): Bytes {
    Header(f) + f.payload
  }

  function PayloadLen(b: Bytes): (n: nat)
    requires |b| >= HEADER_LEN
    ensures n <= MAX_PAYLOAD
  {
    GetBEBound(b[13..15]);
    PowValues();
    GetBE(b[13..15])
  }

  predicate HasFrame(b: Bytes) {
    |b| >= HEADER_LEN && |b| >= HEADER_LEN + PayloadLen(b)
  }

  function FrameAt(b: Bytes): Frame
    requires HasFrame(b)
  {
    GetBEBound(b[..4]);
    GetBEBound(b[4..12]);
    PowValues();
    Frame(GetBE(b[..4]), GetBE(b[4..12]), b[12], b[HEADER_LEN..HEADER_LEN + PayloadLen(b)])
  }

  function FrameSize(b: Bytes): (n: nat)
    requires HasFrame(b)
    ensures HEADER_LEN <= n <= |b|
  {
    HEADER_LEN + PayloadLen(b)
  }

  lemma HeaderFields(f: Frame, tail: Bytes)
    requires Encodable(f)
    ensures var b := Header(f) + tail;
            && GetBE(b[..4]) == f.connId && GetBE(b[4..12]) == f.seqno && b[12] == f.flags
            && PayloadLen(b) == |f.payload|
  {
    PowValues();
    GetPutBE(f.connId, 4);
    GetPutBE(f.seqno, 8);
    GetPutBE(|f.payload|, 2);
    var b := Header(f) + tail;
    assert b[..4] == PutBE(f.connId, 4);
    assert b[4..12] == PutBE(f.seqno, 8);
    assert b[13..15] == PutBE(|f.payload|, 2);
  }

  /** Byte i of the encoding is the i-th most significant: network byte order. */
  lemma {:induction false} BigEndian(v: nat, n: nat, i: nat)
    requires i < n
    ensures PutBE(v, n)[i] == (v / Pow256(n - 1 - i)) % 256
  {
    if i < n - 1 {
      BigEndian(v / 256, n - 1, i);
      DivDiv(v, Pow256(n - 2 - i));
    }
  }

  lemma DivDiv(v: nat, k: nat)
    requires k > 0
    ensures v / 256 / k == v / (256 * k)
  {
    var q, r := v / 256, v % 256;
    var p, t := q / k, q % k;
    assert q == k * p + t;
    assert v == 256 * (k * p + t) + r;
    assert 256 * (k * p) == (256 * k) * p;
    Quotient(v, 256 * k, p, 256 * t + r);
  }

  /** Byte i of an n-byte integer, most significant first. */
  function NetworkByte(v: nat, n: nat, i: nat): int
    requires i < n
  {
    (v / Pow256(n - 1 - i)) % 256
  }

  lemma HeaderSlices(f: Frame)
    requires Encodable(f)
    ensures var b := Encode(f);
            && |b| == 15 + |f.payload|
            && b[..4] == PutBE(f.connId, 4) && b[4..12] == PutBE(f.seqno, 8) && b[12] == f.flags
            && b[13..15] == PutBE(|f.payload|, 2) && b[15..] == f.payload
  {
    hide PutBE;
  }

  /** The layout on the wire, in network byte order: connection, number, flags, payload length,
      payload. */
  lemma WireLayout(f: Frame)
    requires Encodable(f)
    ensures var b := Encode(f);
            && |b| == 15 + |f.payload|
            && (forall i :: 0 <= i < 4 ==> b[..4][i] == NetworkByte(f.connId, 4, i))
            && (forall i :: 0 <= i < 8 ==> b[4..12][i] == NetworkByte(f.seqno, 8, i))
            && b[12] == f.flags
            && (forall i :: 0 <= i < 2 ==> b[13..15][i] == NetworkByte(|f.payload|, 2, i))
            && b[15..] == f.payload
  {
    hide PutBE, Encode, Pow256;
    HeaderSlices(f);
    forall i | 0 <= i < 4
      ensures PutBE(f.connId, 4)[i] == NetworkByte(f.connId, 4, i)
    {
      BigEndian(f.connId, 4, i);
    }
    forall i | 0 <= i < 8
      ensures PutBE(f.seqno, 8)[i] == NetworkByte(f.seqno, 8, i)
    {
      BigEndian(f.seqno, 8, i);
    }
    forall i | 0 <= i < 2
      ensures PutBE(|f.payload|, 2)[i] == NetworkByte(|f.payload|, 2, i)
    {
      BigEndian(|f.payload|, 2, i);
    }
  }

  /** An encoded frame is read back, whatever follows it. */
  lemma DecodeEncoded(f: Frame, rest: Bytes)
    requires Encodable(f)
    ensures var b := Encode(f) + rest;
            HasFrame(b) && FrameAt(b) == f && b[FrameSize(b)..] == rest
  {
    hide Header, PutBE, GetBE;
    var b := Encode(f) + rest;
    assert b == Header(f) + (f.payload + rest);
    HeaderFields(f, f.payload + rest);
    assert b[HEADER_LEN..HEADER_LEN + |f.payload|] == f.payload;
    assert b[HEADER_LEN + |f.payload|..] == rest;
  }

  /** No proper prefix of an encoded frame holds a frame. */
  lemma TruncatedHasNone(f: Frame, n: nat)
    requires Encodable(f) && n < |Encode(f)|
    ensures !HasFrame(Encode(f)[..n])
  {
    hide Header, PutBE, GetBE;
    var b := Encode(f)[..n];
    if n >= HEADER_LEN {
      HeaderFields(f, f.payload[..n - HEADER_LEN]);
      assert b == Header(f) + f.payload[..n - HEADER_LEN];
    }
  }

  /** Append the frame to a reusable buffer, or refuse a payload that does not fit the length
      field. */
  method EncodeInto(f: Frame, buf: Bytes) returns (ok: bool, buf': Bytes)
    ensures ok <==> Encodable(f)
    ensures buf' == if ok then buf + Encode(f) else buf
  {
    if |f.payload| > MAX_PAYLOAD {
      return false, buf;
    }
    buf' := buf + PutBE(f.connId, 4);
    buf' := buf' + PutBE(f.seqno, 8);
    buf' := buf' + [f.flags];
    buf' := buf' + PutBE(|f.payload|, 2);
    buf' := buf' + f.payload;
    return true, buf';
  }

  // ----- the streaming decoder

  datatype Next = Got(frame: Frame) | End | MidFrame | Overflow

  /** The outcome of one `try_next`, as a function of the bytes alone. */
  function NextOf(bytes: Bytes): Next {
    if HasFrame(bytes) then Got(FrameAt(bytes)) else if bytes == [] then End else MidFrame
  }

  function RestOf(bytes: Bytes): Bytes {
    if HasFrame(bytes) then bytes[FrameSize(bytes)..] else bytes
  }

  /** A byte source: the reads it will deliver, none of them empty; then end of file. */
  class Reader {
    var chunks: seq<Bytes>

    ghost predicate Valid()
      reads this
    {
      forall i :: 0 <= i < |chunks| ==> chunks[i] != []
    }

    constructor (chunks: seq<Bytes>)
      requires forall i :: 0 <= i < |chunks| ==> chunks[i] != []
      ensures Valid() && this.chunks == chunks
    {
      this.chunks := chunks;
    }

    method Read() returns (chunk: Bytes)
      requires Valid()
      modifies this
      ensures Valid() && |chunks| <= |old(chunks)|
      ensures chunk == [] <==> old(chunks) == []
      ensures chunk != [] ==> |chunks| < |old(chunks)|
      ensures Flatten(old(chunks)) == chunk + Flatten(chunks)
    {
      if chunks == [] {
        return [];
      }
      chunk := chunks[0];
      chunks := chunks[1..];
    }
  }

  /** More bytes never change a frame that is already complete. */
  lemma FrameStable(b: Bytes, more: Bytes)
    requires HasFrame(b)
    ensures HasFrame(b + more) && FrameAt(b + more) == FrameAt(b) && RestOf(b + more) == RestOf(b) + more
  {
    hide GetBE;
    var c := b + more;
    assert c[13..15] == b[13..15] && c[..4] == b[..4] && c[4..12] == b[4..12];
    var n := HEADER_LEN + PayloadLen(b);
    assert c[HEADER_LEN..n] == b[HEADER_LEN..n] && c[n..] == b[n..] + more;
  }

  class FrameDecoder {
    var buf: Bytes

    constructor ()
      ensures buf == []
    {
      buf := [];
    }

    /** Whatever the read boundaries, the result is that of the bytes, the rest stays available,
        and the overflow bail is never taken. */
    method TryNext(rd: Reader) returns (r: Next)
      requires rd.Valid()
      modifies this, rd
      ensures rd.Valid()
      ensures r == NextOf(old(buf + Flatten(rd.chunks)))
      ensures buf + Flatten(rd.chunks) == RestOf(old(buf + Flatten(rd.chunks)))
    {
      ghost var all := buf + Flatten(rd.chunks);
      while true
        invariant rd.Valid() && buf + Flatten(rd.chunks) == all
        decreases |rd.chunks|
      {
        if |buf| >= HEADER_LEN {
          var payloadLen := PayloadLen(buf);
          if |buf| >= HEADER_LEN + payloadLen {
            FrameStable(buf, Flatten(rd.chunks));
            r := Got(FrameAt(buf));
            buf := buf[HEADER_LEN + payloadLen..];
            return;
          }
        }
        assert |buf| < MAX_DECODER_BUF;
        if MAX_DECODER_BUF - |buf| <= 0 {
          return Overflow;
        }
        var chunk := rd.Read();
        if chunk == [] {
          assert buf + [] == buf;
          return if buf == [] then End else MidFrame;
        }
        buf := buf + chunk;
      }
    }
  }

  // ----- whole streams

  function EncodeAll(frames: seq<Frame>): Bytes {
    if frames == [] then [] else Encode(frames[0]) + EncodeAll(frames[1..])
  }

  ghost predicate AllEncodable(frames: seq<Frame>) {
    forall i :: 0 <= i < |frames| ==> Encodable(frames[i])
  }

  datatype Decoded = Decoded(frames: seq<Frame>, end: Next)

  /** Repeated `try_next` until it stops yielding frames. */
  function DecodeAll(bytes: Bytes): (d: Decoded)
    ensures !d.end.Got?
    decreases |bytes|
  {
    if !HasFrame(bytes) then Decoded([], NextOf(bytes))
    else
      var d := DecodeAll(RestOf(bytes));
      Decoded([FrameAt(bytes)] + d.frames, d.end)
  }

  method DecodeStream(rd: Reader) returns (frames: seq<Frame>, end: Next)
    requires rd.Valid()
    modifies rd
    ensures Decoded(frames, end) == DecodeAll(old(Flatten(rd.chunks)))
  {
    hide HasFrame, FrameAt, FrameSize;
    var dec := new FrameDecoder();
    assert dec.buf + Flatten(rd.chunks) == Flatten(rd.chunks);
    ghost var all := DecodeAll(dec.buf + Flatten(rd.chunks));
    frames, end := [], Overflow;
    while true
      invariant rd.Valid()
      invariant all.end == DecodeAll(dec.buf + Flatten(rd.chunks)).end
      invariant all.frames == frames + DecodeAll(dec.buf + Flatten(rd.chunks)).frames
      decreases |dec.buf + Flatten(rd.chunks)|
    {
      ghost var bytes := dec.buf + Flatten(rd.chunks);
      var r := dec.TryNext(rd);
      NextShape(bytes);
      if !r.Got? {
        end := r;
        assert frames + [] == frames;
        return;
      }
      frames := frames + [r.frame];
    }
  }

  lemma NextShape(bytes: Bytes)
    ensures NextOf(bytes).Got? ==> |RestOf(bytes)| < |bytes|
    ensures NextOf(bytes).Got? ==>
              var d := DecodeAll(RestOf(bytes)); DecodeAll(bytes) == Decoded([NextOf(bytes).frame] + d.frames, d.end)
    ensures !NextOf(bytes).Got? ==> DecodeAll(bytes) == Decoded([], NextOf(bytes))
  {
    hide PayloadLen, FrameAt;
  }

  /** Decoding an encoded list, followed by an incomplete tail, gives back the list and then the
      verdict on the tail. */
  lemma {:induction false} DecodeEncodedAll(frames: seq<Frame>, tail: Bytes)
    requires AllEncodable(frames) && !HasFrame(tail)
    ensures DecodeAll(EncodeAll(frames) + tail) == Decoded(frames, if tail == [] then End else MidFrame)
  {
    hide HasFrame, FrameAt, Encode, FrameSize;
    var bytes := EncodeAll(frames) + tail;
    if frames == [] {
      assert bytes == tail;
      NextShape(tail);
    } else {
      var rest := EncodeAll(frames[1..]) + tail;
      assert bytes == Encode(frames[0]) + rest;
      DecodeEncoded(frames[0], rest);
      NextShape(bytes);
      DecodeEncodedAll(frames[1..], tail);
      assert frames == [frames[0]] + frames[1..];
    }
  }

  /** Round trip: for every list of encodable frames and every split of its encoding into
      nonempty reads, the decoder yields exactly that list and then a clean end. */
  method RoundTrip(frames: seq<Frame>, chunks: seq<Bytes>) returns (got: seq<Frame>, end: Next)
    requires AllEncodable(frames) && Flatten(chunks) == EncodeAll(frames)
    requires forall i :: 0 <= i < |chunks| ==> chunks[i] != []
    ensures got == frames && end == End
  {
    var rd := new Reader(chunks);
    got, end := DecodeStream(rd);
    EmptyHasNone();
    DecodeEncodedAll(frames, []);
    assert EncodeAll(frames) + [] == EncodeAll(frames);
  }

  lemma EmptyHasNone()
    ensures !HasFrame([])
  {
  }

  /** A stream cut inside its last frame ends in an error, after all the complete frames. */
  lemma TruncatedStreamErrs(frames: seq<Frame>, last: Frame, n: nat)
    requires AllEncodable(frames) && Encodable(last) && 0 < n < |Encode(last)|
    ensures DecodeAll(EncodeAll(frames) + Encode(last)[..n]) == Decoded(frames, MidFrame)
  {
    hide HasFrame;
    TruncatedHasNone(last, n);
    DecodeEncodedAll(frames, Encode(last)[..n]);
  }

  // ----- the other direction: nothing is read that was not on the wire

  lemma {:induction false} PutGetBE(b: Bytes)
    ensures PutBE(GetBE(b), |b|) == b
  {
    if b != [] {
      var front, last := b[..|b| - 1], b[|b| - 1];
      PutGetBE(front);
      assert (GetBE(front) * 256 + last) / 256 == GetBE(front);
      assert b == front + [last];
    }
  }

  lemma HeaderDecoded(b: Bytes)
    requires HasFrame(b)
    ensures Header(FrameAt(b)) == b[..HEADER_LEN]
  {
    PutGetBE(b[..4]);
    PutGetBE(b[4..12]);
    PutGetBE(b[13..15]);
    hide PutBE, GetBE;
    assert Header(FrameAt(b)) == b[..4] + b[4..12] + [b[12]] + b[13..15];
  }

  lemma EncodeDecoded(b: Bytes)
    requires HasFrame(b)
    ensures Encodable(FrameAt(b)) && Encode(FrameAt(b)) + RestOf(b) == b
  {
    HeaderDecoded(b);
    hide Header, PutBE, GetBE;
    var n := FrameSize(b);
    assert FrameAt(b).payload == b[HEADER_LEN..n];
    assert b[..HEADER_LEN] + b[HEADER_LEN..n] + b[n..] == b;
  }

  lemma Reassociate(a: Bytes, b: Bytes, c: Bytes)
    ensures (a + b) + c == a + (b + c)
  {
  }

  lemma EncodeAllCons(f: Frame, fs: seq<Frame>)
    ensures EncodeAll([f] + fs) == Encode(f) + EncodeAll(fs)
    ensures Encodable(f) && AllEncodable(fs) ==> AllEncodable([f] + fs)
  {
    hide Encode, Encodable;
    assert ([f] + fs)[1..] == fs;
  }

  /** Re-encoding whatever a byte stream decodes to gives that stream back, up to the incomplete
      tail on which decoding stopped. */
  lemma {:induction false} ReencodeAll(bytes: Bytes) returns (tail: Bytes)
    ensures AllEncodable(DecodeAll(bytes).frames) && !HasFrame(tail)
    ensures EncodeAll(DecodeAll(bytes).frames) + tail == bytes
    ensures DecodeAll(bytes).end == if tail == [] then End else MidFrame
    decreases |bytes|
  {
    hide HasFrame, FrameAt, Encode, Encodable, FrameSize, RestOf;
    NextShape(bytes);
    if !HasFrame(bytes) {
      tail := bytes;
      assert [] + bytes == bytes;
    } else {
      EncodeDecoded(bytes);
      var f, rest := FrameAt(bytes), RestOf(bytes);
      tail := ReencodeAll(rest);
      var fs := DecodeAll(rest).frames;
      EncodeAllCons(f, fs);
      Reassociate(Encode(f), EncodeAll(fs), tail);
    }
  }
}
