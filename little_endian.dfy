/** Little-endian encoding of unsigned 32-bit words over byte sequences.

    Both guest records of the audio renderer are naturally packed arrays of
    `u32` words, laid out on a little-endian machine; this module is the word
    layer they are built on.
 */
module LittleEndian {

  /** One byte of guest memory. */
  type Byte = b: int | 0 <= b < 0x100

  /** The C++ `u32`: an unsigned 32-bit word. */
  type U32 = x: int | 0 <= x < 0x1_0000_0000

  /** Number of bytes of one `u32`. */
  const WordSize: nat := 4

  /** The four bytes of `x`, least significant first. */
  function EncodeU32(x: U32): (bs: seq<Byte>)
    ensures |bs| == WordSize
  {
    var x1 := x / 0x100;
    var x2 := x1 / 0x100;
    [x % 0x100, x1 % 0x100, x2 % 0x100, x2 / 0x100]
  }

  /** The word whose least significant byte is `bs[0]` and whose most
      significant byte is `bs[3]`. */
  function DecodeU32(bs: seq<Byte>): (x: U32)
    requires |bs| >= WordSize
    ensures x % 0x100 == bs[0]
    ensures x / 0x100_0000 == bs[3]
  {
    bs[0] as int + 0x100 * (bs[1] as int + 0x100 * (bs[2] as int + 0x100 * bs[3] as int))
  }

  /** `a + 256 * k` splits back into its low byte `a` and the rest `k`. */
  lemma SplitLowByte(a: int, k: int)
    requires 0 <= a < 0x100
    ensures (a + 0x100 * k) % 0x100 == a
    ensures (a + 0x100 * k) / 0x100 == k
  {
  }

  /** Decoding the encoding of a word gives the word back. */
  lemma DecodeEncodeU32(x: U32)
    ensures DecodeU32(EncodeU32(x)) == x
  {
  }

  /** Encoding the word read from four bytes gives those bytes back: the
      codec is a bijection between `U32` and four-byte sequences. */
  lemma EncodeDecodeU32(bs: seq<Byte>)
    requires |bs| == WordSize
    ensures EncodeU32(DecodeU32(bs)) == bs
  {
    var k2: int := bs[2] as int + 0x100 * bs[3] as int;
    var k1: int := bs[1] as int + 0x100 * k2;
    var x: int := bs[0] as int + 0x100 * k1;
    SplitLowByte(bs[0], k1);
    SplitLowByte(bs[1], k2);
    SplitLowByte(bs[2], bs[3]);
    assert x / 0x100 == k1;
    assert k1 / 0x100 == k2;
  }

  /** The words `ws` laid out one after another, each little-endian. */
  function EncodeWords(ws: seq<U32>): (bs: seq<Byte>)
    ensures |bs| == WordSize * |ws|
  {
    if ws == [] then [] else EncodeU32(ws[0]) + EncodeWords(ws[1..])
  }

  /** The first `n` little-endian words of `bs`. */
  function DecodeWords(bs: seq<Byte>, n: nat): (ws: seq<U32>)
    requires WordSize * n <= |bs|
    ensures |ws| == n
  {
    if n == 0 then [] else [DecodeU32(bs[..WordSize])] + DecodeWords(bs[WordSize..], n - 1)
  }

  /** Word `i` of `ws` occupies bytes `4 * i` up to `4 * i + 4` of the encoding. */
  lemma {:induction false} EncodeWordsAt(ws: seq<U32>, i: nat)
    requires i < |ws|
    ensures WordSize * i + WordSize <= |EncodeWords(ws)|
    ensures EncodeWords(ws)[WordSize * i .. WordSize * i + WordSize] == EncodeU32(ws[i])
  {
    if i > 0 {
      EncodeWordsAt(ws[1..], i - 1);
      var tail := EncodeWords(ws[1..]);
      assert EncodeWords(ws) == EncodeU32(ws[0]) + tail;
      assert EncodeWords(ws)[WordSize * i .. WordSize * i + WordSize]
          == tail[WordSize * (i - 1) .. WordSize * (i - 1) + WordSize];
    }
  }

  /** Decoding `|ws|` words from the encoding of `ws`, whatever follows it,
      gives `ws` back. */
  lemma {:induction false} DecodeEncodeWords(ws: seq<U32>, rest: seq<Byte>)
    ensures DecodeWords(EncodeWords(ws) + rest, |ws|) == ws
  {
    if ws != [] {
      var bs := EncodeWords(ws) + rest;
      assert bs[..WordSize] == EncodeU32(ws[0]);
      assert bs[WordSize..] == EncodeWords(ws[1..]) + rest;
      DecodeEncodeU32(ws[0]);
      DecodeEncodeWords(ws[1..], rest);
    }
  }

  /** Re-encoding the `n` words read from `bs` reproduces the first `4 * n`
      bytes of `bs`: decoding loses nothing from the prefix it reads. */
  lemma {:induction false} EncodeDecodeWords(bs: seq<Byte>, n: nat)
    requires WordSize * n <= |bs|
    ensures EncodeWords(DecodeWords(bs, n)) == bs[..WordSize * n]
  {
    if n > 0 {
      var ws := DecodeWords(bs, n);
      EncodeDecodeU32(bs[..WordSize]);
      EncodeDecodeWords(bs[WordSize..], n - 1);
      assert ws[1..] == DecodeWords(bs[WordSize..], n - 1);
      assert bs[..WordSize * n] == bs[..WordSize] + bs[WordSize..][..WordSize * (n - 1)];
    }
  }

  /** Only the first `4 * n` bytes decide the `n` words decoded. */
  lemma {:induction false} DecodeWordsPrefix(bs: seq<Byte>, bs': seq<Byte>, n: nat)
    requires WordSize * n <= |bs| && WordSize * n <= |bs'|
    requires bs[..WordSize * n] == bs'[..WordSize * n]
    ensures DecodeWords(bs, n) == DecodeWords(bs', n)
  {
    if n > 0 {
      assert bs[..WordSize] == bs[..WordSize * n][..WordSize];
      assert bs'[..WordSize] == bs'[..WordSize * n][..WordSize];
      assert bs[WordSize..][..WordSize * (n - 1)] == bs[..WordSize * n][WordSize..];
      assert bs'[WordSize..][..WordSize * (n - 1)] == bs'[..WordSize * n][WordSize..];
      DecodeWordsPrefix(bs[WordSize..], bs'[WordSize..], n - 1);
    }
  }
}
