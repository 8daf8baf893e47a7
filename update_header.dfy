/** Well-formedness of the `UpdateDataHeader` that opens every update
    request. Each size field of the header is the total byte size of one
    section of the input and `totalSize` is the size of the whole input, so a
    header is consistent when the header itself and the documented sections
    add up to `totalSize`, and the input really holds that many bytes.
 */
module UpdateHeader {
  import opened Wrappers
  import opened LittleEndian
  import opened Records

  /** Why an update input was refused before any section was looked at. */
  datatype UpdateError =
    | HeaderTruncated(cause: DecodeError)
    | SectionSizeMismatch(declared: nat, totalSize: nat)
    | InputTruncated(totalSize: nat, available: nat)

  /** The byte size the header declares for its sections: behaviour info,
      memory pools, voices, voice resources, effects, mixes, sinks,
      performance managers and elapsed-frame info. The reserved word is not a
      section size. The sum is taken over unbounded integers. */
  function SectionTotal(h: UpdateDataHeader): (total: nat)
    ensures h.behaviorSize <= total && h.memoryPoolSize <= total
    ensures h.voiceSize <= total && h.voiceResourceSize <= total
    ensures h.effectSize <= total && h.mixSize <= total && h.sinkSize <= total
    ensures h.performanceManagerSize <= total && h.elapsedFrameCountInfoSize <= total
  {
    h.behaviorSize + h.memoryPoolSize + h.voiceSize + h.voiceResourceSize
      + h.effectSize + h.mixSize + h.sinkSize + h.performanceManagerSize
      + h.elapsedFrameCountInfoSize
  }

  /** The header and its sections exactly fill `totalSize` bytes. */
  predicate WellFormed(h: UpdateDataHeader)
    ensures WellFormed(h) ==> h.totalSize >= HeaderSize
  {
    HeaderSize + SectionTotal(h) == h.totalSize
  }

  /** Reads the header at the start of `input` and accepts it only when it is
      well-formed and `input` holds all `totalSize` bytes it announces. */
  function CheckUpdate(input: seq<Byte>): (r: Result<UpdateDataHeader, UpdateError>)
    ensures r.Ok? <==>
              |input| >= HeaderSize
              && WellFormed(DecodeHeader(input).value)
              && DecodeHeader(input).value.totalSize <= |input|
    ensures r.Ok? ==> DecodeHeader(input) == Ok(r.value)
    ensures r == Err(HeaderTruncated(TooShort(HeaderSize, |input|))) <==> |input| < HeaderSize
  {
    match DecodeHeader(input)
    case Err(e) => Err(HeaderTruncated(e))
    case Ok(h) =>
      if !WellFormed(h) then Err(SectionSizeMismatch(HeaderSize + SectionTotal(h), h.totalSize))
      else if h.totalSize > |input| then Err(InputTruncated(h.totalSize, |input|))
      else Ok(h)
  }

  /** Completeness: the image of a well-formed header followed by the
      sections it announces (and any further bytes) is accepted, and the
      check returns that very header. */
  lemma CheckAcceptsWellFormed(h: UpdateDataHeader, body: seq<Byte>)
    requires WellFormed(h)
    requires HeaderSize + |body| >= h.totalSize
    ensures CheckUpdate(EncodeHeader(h) + body) == Ok(h)
  {
    HeaderRoundTrip(h, body);
  }

  /** An input whose declared sections fall short of (or overrun) its
      `totalSize` is refused as a size mismatch, whatever else it holds. */
  lemma CheckRejectsMismatch(h: UpdateDataHeader, body: seq<Byte>)
    requires HeaderSize + SectionTotal(h) != h.totalSize
    ensures CheckUpdate(EncodeHeader(h) + body)
         == Err(SectionSizeMismatch(HeaderSize + SectionTotal(h), h.totalSize))
  {
    HeaderRoundTrip(h, body);
  }

  /** An input shorter than the `totalSize` its own well-formed header
      announces is refused as truncated. */
  lemma CheckRejectsTruncated(h: UpdateDataHeader, body: seq<Byte>)
    requires WellFormed(h)
    requires HeaderSize + |body| < h.totalSize
    ensures CheckUpdate(EncodeHeader(h) + body)
         == Err(InputTruncated(h.totalSize, HeaderSize + |body|))
  {
    HeaderRoundTrip(h, body);
  }

  /** In a well-formed header no single section is larger than the input
      minus the header. */
  lemma WellFormedSectionsFit(h: UpdateDataHeader)
    requires WellFormed(h)
    ensures h.totalSize >= HeaderSize
    ensures h.behaviorSize <= h.totalSize - HeaderSize
    ensures h.memoryPoolSize <= h.totalSize - HeaderSize
    ensures h.voiceSize <= h.totalSize - HeaderSize
    ensures h.voiceResourceSize <= h.totalSize - HeaderSize
    ensures h.effectSize <= h.totalSize - HeaderSize
    ensures h.mixSize <= h.totalSize - HeaderSize
    ensures h.sinkSize <= h.totalSize - HeaderSize
    ensures h.performanceManagerSize <= h.totalSize - HeaderSize
    ensures h.elapsedFrameCountInfoSize <= h.totalSize - HeaderSize
  {
  }
}
