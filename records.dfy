/** The two fixed-layout records the guest hands to the audio renderer:
    `AudioRendererParameters` (0x34 bytes, 13 words) and `UpdateDataHeader`
    (0x40 bytes, 16 words). Each is a naturally packed struct of `u32`
    fields, so its byte image is its words in declaration order, each
    little-endian.
 */
module Records {
  import opened Wrappers
  import opened LittleEndian

  /** Why a record could not be read from a byte buffer. */
  datatype DecodeError = TooShort(needed: nat, available: nat)

  // ---------------------------------------------------------------------
  // AudioRendererParameters
  // ---------------------------------------------------------------------

  /** The configuration of one renderer instance, fixed at its construction. */
  datatype AudioRendererParameters = AudioRendererParameters(
    sampleRate: U32,
    sampleCount: U32,
    mixBufferCount: U32,
    subMixCount: U32,
    voiceCount: U32,
    sinkCount: U32,
    effectCount: U32,
    performanceManagerCount: U32,
    voiceDropEnable: U32,
    splitterCount: U32,
    splitterDestinationDataCount: U32,
    unk0: U32,
    revision: U32)

  /** `sizeof(AudioRendererParameters)`. */
  const ParametersSize: nat := 0x34
  const ParametersWords: nat := 13

  /** The fields of `p` in declaration order; `ParametersFromWords` undoes it. */
  function ParametersToWords(p: AudioRendererParameters): (ws: seq<U32>)
    ensures |ws| == ParametersWords
    ensures ParametersFromWords(ws) == p
  {
    [p.sampleRate, p.sampleCount, p.mixBufferCount, p.subMixCount, p.voiceCount,
     p.sinkCount, p.effectCount, p.performanceManagerCount, p.voiceDropEnable,
     p.splitterCount, p.splitterDestinationDataCount, p.unk0, p.revision]
  }

  function ParametersFromWords(ws: seq<U32>): AudioRendererParameters
    requires |ws| == ParametersWords
  {
    AudioRendererParameters(ws[0], ws[1], ws[2], ws[3], ws[4], ws[5], ws[6],
                            ws[7], ws[8], ws[9], ws[10], ws[11], ws[12])
  }

  /** The byte image of `p`: exactly `sizeof(AudioRendererParameters)` bytes. */
  function EncodeParameters(p: AudioRendererParameters): (bs: seq<Byte>)
    ensures |bs| == ParametersSize
  {
    EncodeWords(ParametersToWords(p))
  }

  /** Reads the parameters from the start of `bs`; fails exactly when `bs`
      holds fewer than 0x34 bytes. */
  function DecodeParameters(bs: seq<Byte>): (r: Result<AudioRendererParameters, DecodeError>)
    ensures r.Ok? <==> |bs| >= ParametersSize
    ensures r.Err? ==> r.error == TooShort(ParametersSize, |bs|)
  {
    if |bs| < ParametersSize then Err(TooShort(ParametersSize, |bs|))
    else Ok(ParametersFromWords(DecodeWords(bs, ParametersWords)))
  }

  /** Decoding the image of `p`, whatever bytes follow it, gives `p`. */
  lemma ParametersRoundTrip(p: AudioRendererParameters, rest: seq<Byte>)
    ensures DecodeParameters(EncodeParameters(p) + rest) == Ok(p)
  {
    DecodeEncodeWords(ParametersToWords(p), rest);
  }

  /** A successful decode keeps every byte it read: re-encoding the result
      reproduces the first 0x34 bytes of the input. */
  lemma ParametersReencode(bs: seq<Byte>)
    requires |bs| >= ParametersSize
    ensures DecodeParameters(bs).Ok?
    ensures EncodeParameters(DecodeParameters(bs).value) == bs[..ParametersSize]
  {
    var ws := DecodeWords(bs, ParametersWords);
    EncodeDecodeWords(bs, ParametersWords);
    assert ParametersToWords(ParametersFromWords(ws)) == ws;
  }

  /** Only the first 0x34 bytes are read: bytes beyond them never change the
      decoded parameters. */
  lemma ParametersPrefixOnly(bs: seq<Byte>, bs': seq<Byte>)
    requires |bs| >= ParametersSize && |bs'| >= ParametersSize
    requires bs[..ParametersSize] == bs'[..ParametersSize]
    ensures DecodeParameters(bs) == DecodeParameters(bs')
  {
    DecodeWordsPrefix(bs, bs', ParametersWords);
  }

  /** The offset of every field in the image, `sampleRate` at 0x00 through
      `revision` at 0x30. */
  lemma ParametersLayout(p: AudioRendererParameters)
    ensures EncodeParameters(p)[0x00..0x04] == EncodeU32(p.sampleRate)
    ensures EncodeParameters(p)[0x04..0x08] == EncodeU32(p.sampleCount)
    ensures EncodeParameters(p)[0x08..0x0C] == EncodeU32(p.mixBufferCount)
    ensures EncodeParameters(p)[0x0C..0x10] == EncodeU32(p.subMixCount)
    ensures EncodeParameters(p)[0x10..0x14] == EncodeU32(p.voiceCount)
    ensures EncodeParameters(p)[0x14..0x18] == EncodeU32(p.sinkCount)
    ensures EncodeParameters(p)[0x18..0x1C] == EncodeU32(p.effectCount)
    ensures EncodeParameters(p)[0x1C..0x20] == EncodeU32(p.performanceManagerCount)
    ensures EncodeParameters(p)[0x20..0x24] == EncodeU32(p.voiceDropEnable)
    ensures EncodeParameters(p)[0x24..0x28] == EncodeU32(p.splitterCount)
    ensures EncodeParameters(p)[0x28..0x2C] == EncodeU32(p.splitterDestinationDataCount)
    ensures EncodeParameters(p)[0x2C..0x30] == EncodeU32(p.unk0)
    ensures EncodeParameters(p)[0x30..0x34] == EncodeU32(p.revision)
  {
    var ws := ParametersToWords(p);
    EncodeWordsAt(ws, 0);
    EncodeWordsAt(ws, 1);
    EncodeWordsAt(ws, 2);
    EncodeWordsAt(ws, 3);
    EncodeWordsAt(ws, 4);
    EncodeWordsAt(ws, 5);
    EncodeWordsAt(ws, 6);
    EncodeWordsAt(ws, 7);
    EncodeWordsAt(ws, 8);
    EncodeWordsAt(ws, 9);
    EncodeWordsAt(ws, 10);
    EncodeWordsAt(ws, 11);
    EncodeWordsAt(ws, 12);
  }

  // ---------------------------------------------------------------------
  // UpdateDataHeader
  // ---------------------------------------------------------------------

  /** The four reserved words `_unk1_[4]`. */
  type Reserved4 = s: seq<U32> | |s| == 4 witness [0, 0, 0, 0]

  /** The envelope at the start of every update request: the byte size of
      each section of the input and the size of the whole input. */
  datatype UpdateDataHeader = UpdateDataHeader(
    revision: U32,
    behaviorSize: U32,
    memoryPoolSize: U32,
    voiceSize: U32,
    voiceResourceSize: U32,
    effectSize: U32,
    mixSize: U32,
    sinkSize: U32,
    performanceManagerSize: U32,
    unk0: U32,
    elapsedFrameCountInfoSize: U32,
    unk1: Reserved4,
    totalSize: U32)

  /** `sizeof(UpdateDataHeader)`. */
  const HeaderSize: nat := 0x40
  const HeaderWords: nat := 16

  /** The fields of `h` in declaration order, the reserved array in place;
      `HeaderFromWords` undoes it. */
  function HeaderToWords(h: UpdateDataHeader): (ws: seq<U32>)
    ensures |ws| == HeaderWords
    ensures HeaderFromWords(ws) == h
  {
    var ws := [h.revision, h.behaviorSize, h.memoryPoolSize, h.voiceSize, h.voiceResourceSize,
               h.effectSize, h.mixSize, h.sinkSize, h.performanceManagerSize, h.unk0,
               h.elapsedFrameCountInfoSize] + h.unk1 + [h.totalSize];
    assert ws[11..15] == h.unk1;
    ws
  }

  function HeaderFromWords(ws: seq<U32>): UpdateDataHeader
    requires |ws| == HeaderWords
  {
    UpdateDataHeader(ws[0], ws[1], ws[2], ws[3], ws[4], ws[5], ws[6], ws[7],
                     ws[8], ws[9], ws[10], ws[11..15], ws[15])
  }

  /** The byte image of `h`: exactly `sizeof(UpdateDataHeader)` bytes. */
  function EncodeHeader(h: UpdateDataHeader): (bs: seq<Byte>)
    ensures |bs| == HeaderSize
  {
    EncodeWords(HeaderToWords(h))
  }

  /** Reads the header from the start of `bs`; fails exactly when `bs`
      holds fewer than 0x40 bytes. */
  function DecodeHeader(bs: seq<Byte>): (r: Result<UpdateDataHeader, DecodeError>)
    ensures r.Ok? <==> |bs| >= HeaderSize
    ensures r.Err? ==> r.error == TooShort(HeaderSize, |bs|)
  {
    if |bs| < HeaderSize then Err(TooShort(HeaderSize, |bs|))
    else Ok(HeaderFromWords(DecodeWords(bs, HeaderWords)))
  }

  /** Decoding the image of `h`, whatever bytes follow it, gives `h`. */
  lemma HeaderRoundTrip(h: UpdateDataHeader, rest: seq<Byte>)
    ensures DecodeHeader(EncodeHeader(h) + rest) == Ok(h)
  {
    var ws := HeaderToWords(h);
    DecodeEncodeWords(ws, rest);
  }

  /** A successful decode keeps every byte it read: re-encoding the result
      reproduces the first 0x40 bytes of the input. */
  lemma HeaderReencode(bs: seq<Byte>)
    requires |bs| >= HeaderSize
    ensures DecodeHeader(bs).Ok?
    ensures EncodeHeader(DecodeHeader(bs).value) == bs[..HeaderSize]
  {
    var ws := DecodeWords(bs, HeaderWords);
    EncodeDecodeWords(bs, HeaderWords);
    assert HeaderToWords(HeaderFromWords(ws)) == ws;
  }

  /** Only the first 0x40 bytes are read: bytes beyond them never change the
      decoded header. */
  lemma HeaderPrefixOnly(bs: seq<Byte>, bs': seq<Byte>)
    requires |bs| >= HeaderSize && |bs'| >= HeaderSize
    requires bs[..HeaderSize] == bs'[..HeaderSize]
    ensures DecodeHeader(bs) == DecodeHeader(bs')
  {
    DecodeWordsPrefix(bs, bs', HeaderWords);
  }

  /** The offset of every field in the image: `revision` at 0x00,
      `elapsedFrameCountInfoSize` at 0x28, the reserved words at 0x2C, 0x30,
      0x34 and 0x38, and `totalSize` at 0x3C. */
  lemma HeaderLayout(h: UpdateDataHeader)
    ensures EncodeHeader(h)[0x00..0x04] == EncodeU32(h.revision)
    ensures EncodeHeader(h)[0x04..0x08] == EncodeU32(h.behaviorSize)
    ensures EncodeHeader(h)[0x08..0x0C] == EncodeU32(h.memoryPoolSize)
    ensures EncodeHeader(h)[0x0C..0x10] == EncodeU32(h.voiceSize)
    ensures EncodeHeader(h)[0x10..0x14] == EncodeU32(h.voiceResourceSize)
    ensures EncodeHeader(h)[0x14..0x18] == EncodeU32(h.effectSize)
    ensures EncodeHeader(h)[0x18..0x1C] == EncodeU32(h.mixSize)
    ensures EncodeHeader(h)[0x1C..0x20] == EncodeU32(h.sinkSize)
    ensures EncodeHeader(h)[0x20..0x24] == EncodeU32(h.performanceManagerSize)
    ensures EncodeHeader(h)[0x24..0x28] == EncodeU32(h.unk0)
    ensures EncodeHeader(h)[0x28..0x2C] == EncodeU32(h.elapsedFrameCountInfoSize)
    ensures EncodeHeader(h)[0x2C..0x30] == EncodeU32(h.unk1[0])
    ensures EncodeHeader(h)[0x30..0x34] == EncodeU32(h.unk1[1])
    ensures EncodeHeader(h)[0x34..0x38] == EncodeU32(h.unk1[2])
    ensures EncodeHeader(h)[0x38..0x3C] == EncodeU32(h.unk1[3])
    ensures EncodeHeader(h)[0x3C..0x40] == EncodeU32(h.totalSize)
  {
    var ws := HeaderToWords(h);
    EncodeWordsAt(ws, 0);
    EncodeWordsAt(ws, 1);
    EncodeWordsAt(ws, 2);
    EncodeWordsAt(ws, 3);
    EncodeWordsAt(ws, 4);
    EncodeWordsAt(ws, 5);
    EncodeWordsAt(ws, 6);
    EncodeWordsAt(ws, 7);
    EncodeWordsAt(ws, 8);
    EncodeWordsAt(ws, 9);
    EncodeWordsAt(ws, 10);
    EncodeWordsAt(ws, 11);
    EncodeWordsAt(ws, 12);
    EncodeWordsAt(ws, 13);
    EncodeWordsAt(ws, 14);
    EncodeWordsAt(ws, 15);
  }
}
