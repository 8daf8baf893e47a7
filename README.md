# Audio renderer service: records, header check and control state

This project models the part of Skyline's `IAudioRenderer` service (the
emulated console's audio renderer, `audren`) that its declaration header fixes
concretely, and proves properties of that model in Dafny.

What is modelled:

- **`AudioRendererParameters`**: the 0x34-byte configuration record the guest
  passes when it opens a renderer. It holds 13 `u32` words, from `sampleRate`
  to `revision`. It has a little-endian encoder and a decoder over byte
  sequences (`Records`).
- **`UpdateDataHeader`**: the 0x40-byte envelope at the start of every update
  request. It holds 16 `u32` words, including one reserved word (`unk0`) and a
  reserved array of four words (`unk1`). It has the same kind of codec
  (`Records`).
- **The header check**: the header's size fields give the byte size of each
  input section, and `totalSize` gives the size of the whole input. The check
  accepts an input only in one case. The header plus the nine documented
  sections must add up to `totalSize`, and the input must hold at least
  `totalSize` bytes (`UpdateHeader`).
- **`constant::BufferAlignment`** (0x40): a guest buffer address is
  acceptable only when it is a multiple of 0x40 (`Alignment`).
- **The renderer's control state**, as the class `Renderer.AudioRenderer`.
  It has the stored `parameters`, the `playbackState` (starts `Stopped`) and
  the fixed-size `i16` `sampleBuffer` of `MixBufferSize * ChannelCount`
  entries. It has the three configuration getters and the `Start`/`Stop`
  transitions. `Step` and `Run` describe the playback state machine as
  values. Lemmas about them cover any sequence of Start/Stop calls.

The record codecs rest on a word layer (`LittleEndian`). An unsigned 32-bit
word is four bytes, least significant first. A list of words is laid out word
after word. Both directions of the round trip are proved, along with the
offset of every word and the fact that decoding reads only its prefix.

Modelling choices:

- Bytes are `int`s in `0..255`, and `u32`/`u64`/`i16` are subset types of
  `int`. Nothing in the modelled code does arithmetic that could wrap.
- Decoding a record from too few bytes is an error result (`TooShort`), not
  a precondition.
- The header check sums the section sizes over unbounded integers. A sum of
  `u32` sizes that would wrap in 32 bits therefore never passes as
  consistent.
- The reserved word `unk0` of `UpdateDataHeader` is not counted as a
  section size.
- The header reaches `constant::MixBufferSize` and `constant::ChannelCount`
  through `#include <audio.h>`. The values used, 960 and 2, come from the
  upstream `audio/common.h`, which is not part of this model.
  `SampleBufferAligned` holds only for these values: 1000 frames of two
  `i16` channels (4000 bytes) would not be a multiple of 0x40.
- The C++ `sampleBuffer` member is not value-initialised. The model
  therefore promises only the length and the `i16` range of its entries, not
  their values.

## Model

| member | source | states |
|---|---|---|
| `LittleEndian.EncodeU32` | app/src/main/cpp/skyline/services/audio/IAudioRenderer/IAudioRenderer.h:25 | the image of a `u32` is four bytes, least significant first |
| `LittleEndian.DecodeU32` | app/src/main/cpp/skyline/services/audio/IAudioRenderer/IAudioRenderer.h:25 | the word read from four bytes has `bs[0]` as its least and `bs[3]` as its most significant byte |
| `LittleEndian.DecodeEncodeU32` | app/src/main/cpp/skyline/services/audio/IAudioRenderer/IAudioRenderer.h:25 | decoding the four little-endian bytes of a `u32` gives the word back |
| `LittleEndian.EncodeDecodeU32` | app/src/main/cpp/skyline/services/audio/IAudioRenderer/IAudioRenderer.h:25 | any four bytes are the encoding of the word decoded from them (the word codec is a bijection) |
| `LittleEndian.EncodeWords` | app/src/main/cpp/skyline/services/audio/IAudioRenderer/IAudioRenderer.h:24-38 | a packed run of `n` words occupies exactly `4 * n` bytes |
| `LittleEndian.DecodeWords` | app/src/main/cpp/skyline/services/audio/IAudioRenderer/IAudioRenderer.h:24-38 | reading `n` words needs `4 * n` bytes and yields exactly `n` words |
| `LittleEndian.EncodeWordsAt` | app/src/main/cpp/skyline/services/audio/IAudioRenderer/IAudioRenderer.h:24-38 | word `i` of a packed run sits at byte offset `4 * i` |
| `LittleEndian.DecodeEncodeWords` | app/src/main/cpp/skyline/services/audio/IAudioRenderer/IAudioRenderer.h:24-38 | decoding a packed run of words, whatever follows it, gives the words back |
| `LittleEndian.EncodeDecodeWords` | app/src/main/cpp/skyline/services/audio/IAudioRenderer/IAudioRenderer.h:24-38 | re-encoding decoded words reproduces the bytes that were read |
| `LittleEndian.DecodeWordsPrefix` | app/src/main/cpp/skyline/services/audio/IAudioRenderer/IAudioRenderer.h:24-38 | decoding `n` words depends only on the first `4 * n` bytes |
| `Records.ParametersToWords` | app/src/main/cpp/skyline/services/audio/IAudioRenderer/IAudioRenderer.h:24-38 | the 13 fields in declaration order, `sampleRate` first and `revision` last; `ParametersFromWords` gives the record back |
| `Records.EncodeParameters` | app/src/main/cpp/skyline/services/audio/IAudioRenderer/IAudioRenderer.h:39 | the image of `AudioRendererParameters` is exactly 0x34 bytes |
| `Records.DecodeParameters` | app/src/main/cpp/skyline/services/audio/IAudioRenderer/IAudioRenderer.h:24-39 | reading the parameters succeeds exactly when at least 0x34 bytes are given; otherwise the error names the 0x34 needed and the bytes available |
| `Records.ParametersRoundTrip` | app/src/main/cpp/skyline/services/audio/IAudioRenderer/IAudioRenderer.h:24-39 | decoding the image of any parameters record, followed by any bytes, gives that record |
| `Records.ParametersReencode` | app/src/main/cpp/skyline/services/audio/IAudioRenderer/IAudioRenderer.h:24-39 | re-encoding decoded parameters gives back the first 0x34 input bytes |
| `Records.ParametersPrefixOnly` | app/src/main/cpp/skyline/services/audio/IAudioRenderer/IAudioRenderer.h:39 | bytes past the first 0x34 never change the decoded parameters |
| `Records.ParametersLayout` | app/src/main/cpp/skyline/services/audio/IAudioRenderer/IAudioRenderer.h:24-38 | the 13 fields lie in declaration order, `sampleRate` at 0x00 through `revision` at 0x30, each a little-endian `u32` |
| `Records.HeaderToWords` | app/src/main/cpp/skyline/services/audio/IAudioRenderer/IAudioRenderer.h:44-58 | the 16 words in declaration order, the reserved array `_unk1_` in place before `totalSize`; `HeaderFromWords` gives the header back |
| `Records.EncodeHeader` | app/src/main/cpp/skyline/services/audio/IAudioRenderer/IAudioRenderer.h:59 | the image of `UpdateDataHeader` is exactly 0x40 bytes |
| `Records.DecodeHeader` | app/src/main/cpp/skyline/services/audio/IAudioRenderer/IAudioRenderer.h:44-59 | reading the header succeeds exactly when at least 0x40 bytes are given; otherwise the error names the 0x40 needed and the bytes available |
| `Records.HeaderRoundTrip` | app/src/main/cpp/skyline/services/audio/IAudioRenderer/IAudioRenderer.h:44-59 | decoding the image of any header, followed by any bytes, gives that header, reserved words included |
| `Records.HeaderReencode` | app/src/main/cpp/skyline/services/audio/IAudioRenderer/IAudioRenderer.h:44-59 | re-encoding a decoded header gives back the first 0x40 input bytes |
| `Records.HeaderPrefixOnly` | app/src/main/cpp/skyline/services/audio/IAudioRenderer/IAudioRenderer.h:59 | bytes past the first 0x40 never change the decoded header |
| `Records.HeaderLayout` | app/src/main/cpp/skyline/services/audio/IAudioRenderer/IAudioRenderer.h:44-58 | all 16 words at their offsets: `revision` at 0x00, `elapsedFrameCountInfoSize` at 0x28, the reserved array at 0x2C-0x38, `totalSize` at 0x3C |
| `UpdateHeader.SectionTotal` | app/src/main/cpp/skyline/services/audio/IAudioRenderer/IAudioRenderer.h:46-55 | the byte size of the nine documented sections; it is at least each single section size, and the reserved word is not part of it |
| `UpdateHeader.WellFormed` | app/src/main/cpp/skyline/services/audio/IAudioRenderer/IAudioRenderer.h:46-57 | the header (0x40 bytes) and its sections exactly fill `totalSize`, so a well-formed `totalSize` covers at least the header |
| `UpdateHeader.CheckUpdate` | app/src/main/cpp/skyline/services/audio/IAudioRenderer/IAudioRenderer.h:44-57 | an input is accepted exactly when it holds a header whose nine section sizes plus 0x40 equal `totalSize` and it holds `totalSize` bytes; an accepted input yields its decoded header; an input under 0x40 bytes is refused as a truncated header |
| `UpdateHeader.CheckAcceptsWellFormed` | app/src/main/cpp/skyline/services/audio/IAudioRenderer/IAudioRenderer.h:46-57 | a consistent header followed by at least the bytes it announces is accepted, and the check returns that header |
| `UpdateHeader.CheckRejectsMismatch` | app/src/main/cpp/skyline/services/audio/IAudioRenderer/IAudioRenderer.h:46-57 | a header whose sections plus header do not add up to `totalSize` is refused as a size mismatch, whatever follows it |
| `UpdateHeader.CheckRejectsTruncated` | app/src/main/cpp/skyline/services/audio/IAudioRenderer/IAudioRenderer.h:57 | a consistent header in an input shorter than its `totalSize` is refused as truncated |
| `UpdateHeader.WellFormedSectionsFit` | app/src/main/cpp/skyline/services/audio/IAudioRenderer/IAudioRenderer.h:46-57 | in a consistent header `totalSize` covers the header and each section fits in the rest of the input |
| `Alignment.IsAligned` | app/src/main/cpp/skyline/services/audio/IAudioRenderer/IAudioRenderer.h:17 | a guest buffer address is acceptable when it is a multiple of `BufferAlignment` = 0x40 |
| `Alignment.AlignedIsMultiple` | app/src/main/cpp/skyline/services/audio/IAudioRenderer/IAudioRenderer.h:17 | an address is acceptable exactly when some natural `k` gives it as `k * 0x40` |
| `Alignment.AlignedOffset` | app/src/main/cpp/skyline/services/audio/IAudioRenderer/IAudioRenderer.h:17 | past an aligned base, an address is aligned exactly when its offset is a multiple of 0x40 |
| `Renderer.SampleBufferAligned` | app/src/main/cpp/skyline/services/audio/IAudioRenderer/IAudioRenderer.h:17 | the byte size of the `i16` output buffer, `MixBufferSize * ChannelCount * 2`, is a multiple of 0x40 |
| `Renderer.Step` | app/src/main/cpp/skyline/services/audio/IAudioRenderer/IAudioRenderer.h:123-131 | Start leads to `Started` and Stop to `Stopped`, from either state |
| `Renderer.Run` | app/src/main/cpp/skyline/services/audio/IAudioRenderer/IAudioRenderer.h:123-131 | the playback state after a sequence of Start/Stop calls issued in order |
| `Renderer.RunEndsAtLastCall` | app/src/main/cpp/skyline/services/audio/IAudioRenderer/IAudioRenderer.h:123-131 | after any non-empty sequence of Start/Stop calls the playback state is the one the last call names, whatever the state before |
| `Renderer.RunIdempotent` | app/src/main/cpp/skyline/services/audio/IAudioRenderer/IAudioRenderer.h:123-131 | Start and Stop are idempotent: repeating the last call changes nothing |
| `Renderer.NeverStartedIsStopped` | app/src/main/cpp/skyline/services/audio/IAudioRenderer/IAudioRenderer.h:74 | a renderer that was never sent Start is still `Stopped` |
| `Renderer.AudioRenderer.Valid` | app/src/main/cpp/skyline/services/audio/IAudioRenderer/IAudioRenderer.h:73 | the object invariant: `sampleBuffer` holds exactly `MixBufferSize * ChannelCount` `i16` entries |
| `Renderer.AudioRenderer.constructor` | app/src/main/cpp/skyline/services/audio/IAudioRenderer/IAudioRenderer.h:66-91 | a new renderer stores the given parameters unchanged, is `Stopped`, and owns a fresh output buffer of `MixBufferSize * ChannelCount` `i16` entries |
| `Renderer.AudioRenderer.GetSampleRate` | app/src/main/cpp/skyline/services/audio/IAudioRenderer/IAudioRenderer.h:98-101 | returns the stored `parameters.sampleRate` |
| `Renderer.AudioRenderer.GetSampleCount` | app/src/main/cpp/skyline/services/audio/IAudioRenderer/IAudioRenderer.h:103-106 | returns the stored `parameters.sampleCount` |
| `Renderer.AudioRenderer.GetMixBufferCount` | app/src/main/cpp/skyline/services/audio/IAudioRenderer/IAudioRenderer.h:108-111 | returns the stored `parameters.mixBufferCount` |
| `Renderer.AudioRenderer.Start` | app/src/main/cpp/skyline/services/audio/IAudioRenderer/IAudioRenderer.h:123-126 | afterwards playback is `Started`, the `Step` of the old state by Start; the output buffer and parameters are unchanged |
| `Renderer.AudioRenderer.Stop` | app/src/main/cpp/skyline/services/audio/IAudioRenderer/IAudioRenderer.h:128-131 | afterwards playback is `Stopped`, the `Step` of the old state by Stop; the output buffer and parameters are unchanged |
| `Renderer.ApplyControlCalls` | app/src/main/cpp/skyline/services/audio/IAudioRenderer/IAudioRenderer.h:123-131 | issuing any sequence of Start/Stop calls to a renderer leaves it in the state `Run` gives for that sequence, with the invariant kept and the output buffer unchanged |
| `Renderer.ControlSession` | app/src/main/cpp/skyline/services/audio/IAudioRenderer/IAudioRenderer.h:91-131 | a client that creates a renderer and calls Start, Start, Stop reads back the configured sample rate and ends `Stopped`, as `Run` predicts |

## Left out

- `RequestUpdate`, `MixFinalBuffer` and `UpdateAudio`: their bodies are not
  part of this model. Only the header check that the header's size fields
  imply is modelled. Section parsing, mixing into `sampleBuffer` and
  enqueueing to the track are not.
- The header check does not compare the header's `revision` with the
  renderer's revision. That is decided by `RevisionInfo`, and
  `revision_info.h` is not part of this model.
- The header check does not fix the order of the sections inside the input,
  because the header does not state it.
- The `memoryPools`, `effects` and `voices` vectors and the `revisionInfo`
  member: `memory_pool.h`, `effect.h`, `voice.h` and `revision_info.h` are not
  part of this model. The sizes the constructor gives these vectors are not
  stated in the header either.
- `GetState`: its own documentation marks it as possibly stubbed.
- `QuerySystemEvent` and `releaseEvent`: kernel synchronisation objects
  signalled across threads.
- `track` and the destructor that closes it: the host audio device and its
  playback thread. `Start` and `Stop` are modelled only by their effect on
  `playbackState`, not by what they do to the track.
- The IPC session, request and response arguments of every handler, and
  service registration: IPC plumbing. The getters return their value directly
  instead of writing it into a response.
