/** The embedding column: `embedding.tobytes()` on the way in and
    `np.frombuffer(blob, dtype=np.float32)` on the way out.

    A float32 is kept as its 32-bit pattern, so no floating-point arithmetic is involved:
    `tobytes` lays each pattern out as four bytes, least significant first (the byte order
    of the little-endian machines numpy runs on), and `frombuffer` regroups the bytes. */
module Blob {
  import opened Wrappers

  type Byte = b: int | 0 <= b < 256

  /** The bit pattern of one float32. */
  type F32Bits = w: int | 0 <= w < 0x1_0000_0000

  /** `str(e)` for the ValueError `frombuffer` raises when the blob does not split into whole
      float32 values. */
  const SizeError: string := "buffer size must be a multiple of element size"

  /** The four bytes of one float32, least significant first. */
  function WordBytes(w: F32Bits): (b: seq<Byte>)
    ensures |b| == 4
  {
    [w % 0x100, w / 0x100 % 0x100, w / 0x1_0000 % 0x100, w / 0x100_0000]
  }

  /** The float32 whose bytes, least significant first, are `b0 b1 b2 b3`. */
  function WordOf(b0: Byte, b1: Byte, b2: Byte, b3: Byte): F32Bits {
    b0 + 0x100 * b1 + 0x1_0000 * b2 + 0x100_0000 * b3
  }

  /** `embedding.tobytes()`. */
  function ToBytes(ws: seq<F32Bits>): (b: seq<Byte>)
    ensures |b| == 4 * |ws|
  {
    if ws == [] then [] else WordBytes(ws[0]) + ToBytes(ws[1..])
  }

  /** The float32 values of a blob whose length is a multiple of four. */
  function Regroup(b: seq<Byte>): (ws: seq<F32Bits>)
    requires |b| % 4 == 0
    ensures 4 * |ws| == |b|
  {
    if b == [] then [] else [WordOf(b[0], b[1], b[2], b[3])] + Regroup(b[4..])
  }

  /** `np.frombuffer(b, dtype=np.float32)`: it fails exactly when the length of the blob is not
      a multiple of four. */
  function FromBuffer(b: seq<Byte>): (r: Result<seq<F32Bits>>)
    ensures r.Err? <==> |b| % 4 != 0
    ensures r.Err? ==> r.error == SizeError
    ensures r.Ok? ==> 4 * |r.value| == |b|
  {
    if |b| % 4 != 0 then Err(SizeError) else Ok(Regroup(b))
  }

  /** Splitting a pattern into bytes and joining them again gives the pattern back. */
  lemma WordRoundTrip(w: F32Bits)
    ensures var b := WordBytes(w); WordOf(b[0], b[1], b[2], b[3]) == w
  {
    var q1 := w / 0x100;
    var q2 := q1 / 0x100;
    var q3 := q2 / 0x100;
    assert w == w % 0x100 + 0x100 * q1;
    assert q1 == q1 % 0x100 + 0x100 * q2;
    assert q2 == q2 % 0x100 + 0x100 * q3;
    assert q2 == w / 0x1_0000;
    assert q3 == w / 0x100_0000;
  }

  /** Joining four bytes and splitting the pattern again gives the bytes back. */
  lemma BytesRoundTrip(b0: Byte, b1: Byte, b2: Byte, b3: Byte)
    ensures WordBytes(WordOf(b0, b1, b2, b3)) == [b0, b1, b2, b3]
  {
    var w := WordOf(b0, b1, b2, b3);
    var q1 := b1 + 0x100 * b2 + 0x1_0000 * b3;
    var q2 := b2 + 0x100 * b3;
    assert w == b0 + 0x100 * q1;
    assert w % 0x100 == b0 && w / 0x100 == q1;
    assert q1 == b1 + 0x100 * q2;
    assert q1 % 0x100 == b1 && q1 / 0x100 == q2;
    assert w / 0x1_0000 == q2 by {
      assert w == b0 + 0x100 * b1 + 0x1_0000 * q2;
    }
    assert q2 % 0x100 == b2 && q2 / 0x100 == b3;
    assert w / 0x100_0000 == b3 by {
      assert w == b0 + 0x100 * b1 + 0x1_0000 * b2 + 0x100_0000 * b3;
    }
  }

  /** What `search_similar` reads back is what `embed_document` stored: decoding the bytes of a
      vector gives the vector, element for element. */
  lemma {:induction false} FromBufferOfToBytes(ws: seq<F32Bits>)
    ensures FromBuffer(ToBytes(ws)) == Ok(ws)
  {
    RegroupOfToBytes(ws);
  }

  lemma {:induction false} RegroupOfToBytes(ws: seq<F32Bits>)
    ensures |ToBytes(ws)| % 4 == 0 && Regroup(ToBytes(ws)) == ws
  {
    if ws != [] {
      var b := ToBytes(ws);
      var head := WordBytes(ws[0]);
      assert b[..4] == head && b[4..] == ToBytes(ws[1..]);
      WordRoundTrip(ws[0]);
      RegroupOfToBytes(ws[1..]);
      assert b[0] == head[0] && b[1] == head[1] && b[2] == head[2] && b[3] == head[3];
    }
  }

  /** Conversely every blob that `frombuffer` accepts is the `tobytes` of what it decodes to. */
  lemma {:induction false} ToBytesOfFromBuffer(b: seq<Byte>)
    requires FromBuffer(b).Ok?
    ensures ToBytes(FromBuffer(b).value) == b
  {
    ToBytesOfRegroup(b);
  }

  lemma {:induction false} ToBytesOfRegroup(b: seq<Byte>)
    requires |b| % 4 == 0
    ensures ToBytes(Regroup(b)) == b
  {
    if b != [] {
      var ws := Regroup(b);
      BytesRoundTrip(b[0], b[1], b[2], b[3]);
      ToBytesOfRegroup(b[4..]);
      assert ws[0] == WordOf(b[0], b[1], b[2], b[3]) && ws[1..] == Regroup(b[4..]);
      assert b == b[..4] + b[4..];
    }
  }
}
