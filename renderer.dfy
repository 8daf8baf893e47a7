/** The control state of one `IAudioRenderer` instance: the parameters it
    was created with, its playback state and its final output buffer.
 */
module Renderer {
  import opened LittleEndian
  import opened Records
  import Alignment

  /** Frames in one mix buffer (`constant::MixBufferSize`, reached through
      `audio.h`; the value is the upstream `audio/common.h` one). */
  const MixBufferSize: nat := 960
  /** Interleaved output channels (`constant::ChannelCount`, from the same
      upstream file). */
  const ChannelCount: nat := 2
  /** Entries of the final output buffer. */
  const SampleBufferLength: nat := MixBufferSize * ChannelCount
  /** Bytes of one `i16` sample. */
  const SampleBytes: nat := 2

  /** The C++ `i16`: one signed 16-bit PCM sample. */
  type I16 = x: int | -0x8000 <= x < 0x8000

  /** `skyline::audio::AudioOutState` as the renderer uses it. */
  datatype PlaybackState = Stopped | Started

  /** The two guest commands that change the playback state. */
  datatype ControlCall = StartCall | StopCall

  /** The playback state after one control command issued in state `s`. */
  function Step(s: PlaybackState, c: ControlCall): PlaybackState
  {
    match c
    case StartCall => Started
    case StopCall => Stopped
  }

  /** The playback state after the commands `cs`, issued in order from `s`. */
  function Run(s: PlaybackState, cs: seq<ControlCall>): PlaybackState
    decreases |cs|
  {
    if cs == [] then s else Run(Step(s, cs[0]), cs[1..])
  }

  /** Only the last command matters: after any non-empty sequence of
      commands the renderer is in the state that command names, whatever it
      started from. */
  lemma {:induction false} RunEndsAtLastCall(s: PlaybackState, cs: seq<ControlCall>)
    ensures Run(s, cs) == if cs == [] then s else Step(s, cs[|cs| - 1])
    decreases |cs|
  {
    if |cs| > 1 {
      RunEndsAtLastCall(Step(s, cs[0]), cs[1..]);
    }
  }

  /** Start and Stop are idempotent: repeating the last command of a run
      changes nothing. */
  lemma RunIdempotent(s: PlaybackState, cs: seq<ControlCall>, c: ControlCall)
    ensures Run(s, cs + [c, c]) == Run(s, cs + [c])
  {
    RunEndsAtLastCall(s, cs + [c, c]);
    RunEndsAtLastCall(s, cs + [c]);
  }

  /** A renderer that has never been sent Start is still stopped. */
  lemma {:induction false} NeverStartedIsStopped(cs: seq<ControlCall>)
    requires StartCall !in cs
    ensures Run(Stopped, cs) == Stopped
  {
    if cs != [] {
      assert cs[0] != StartCall;
      assert StartCall !in cs[1..];
      NeverStartedIsStopped(cs[1..]);
    }
  }

  /** The byte size of the final output buffer is a whole number of
      `BufferAlignment` blocks. This rests on the values of `MixBufferSize`
      and `ChannelCount`: 1000 frames of two channels (4000 bytes) would not
      be. */
  lemma SampleBufferAligned()
    ensures Alignment.IsAligned(SampleBufferLength * SampleBytes)
  {
  }

  class AudioRenderer {
    /** The parameters the renderer was created with. */
    const parameters: AudioRendererParameters
    /** The final interleaved output appended to the stream. */
    const sampleBuffer: array<I16>
    /** The current state of playback. */
    var playbackState: PlaybackState

    /** The output buffer keeps its fixed capacity. */
    ghost predicate Valid()
      reads this
    {
      sampleBuffer.Length == SampleBufferLength
    }

    /** A new renderer stores `parameters` unchanged and starts out
        stopped; its output buffer is fresh and has its full capacity. */
    constructor (parameters: AudioRendererParameters)
      ensures Valid() && fresh(sampleBuffer)
      ensures this.parameters == parameters
      ensures playbackState == Stopped
      ensures forall i :: 0 <= i < sampleBuffer.Length ==> -0x8000 <= sampleBuffer[i] < 0x8000
    {
      this.parameters := parameters;
      sampleBuffer := new I16[SampleBufferLength];
      playbackState := Stopped;
    }

    /** The configured sample rate. */
    method GetSampleRate() returns (sampleRate: U32)
      ensures sampleRate == parameters.sampleRate
    {
      sampleRate := parameters.sampleRate;
    }

    /** The configured sample count per buffer. */
    method GetSampleCount() returns (sampleCount: U32)
      ensures sampleCount == parameters.sampleCount
    {
      sampleCount := parameters.sampleCount;
    }

    /** The configured number of mix buffers. */
    method GetMixBufferCount() returns (mixBufferCount: U32)
      ensures mixBufferCount == parameters.mixBufferCount
    {
      mixBufferCount := parameters.mixBufferCount;
    }

    /** Starts the audio stream: playback is Started afterwards, whatever it
        was before; nothing else changes. */
    method Start()
      requires Valid()
      modifies this
      ensures Valid()
      ensures playbackState == Step(old(playbackState), StartCall) == Started
      ensures unchanged(sampleBuffer)
    {
      playbackState := Started;
    }

    /** Stops the audio stream: playback is Stopped afterwards, whatever it
        was before; nothing else changes. */
    method Stop()
      requires Valid()
      modifies this
      ensures Valid()
      ensures playbackState == Step(old(playbackState), StopCall) == Stopped
      ensures unchanged(sampleBuffer)
    {
      playbackState := Stopped;
    }
  }

  /** Issues the Start and Stop calls `cs` to `r` in order; the renderer ends
      in the state `Run` gives for them. */
  method ApplyControlCalls(r: AudioRenderer, cs: seq<ControlCall>)
    requires r.Valid()
    modifies r
    ensures r.Valid()
    ensures r.playbackState == Run(old(r.playbackState), cs)
    ensures unchanged(r.sampleBuffer)
  {
    var i := 0;
    while i < |cs|
      invariant 0 <= i <= |cs|
      invariant r.Valid()
      invariant Run(old(r.playbackState), cs) == Run(r.playbackState, cs[i..])
      invariant unchanged(r.sampleBuffer)
    {
      match cs[i] {
        case StartCall => r.Start();
        case StopCall => r.Stop();
      }
      i := i + 1;
    }
  }

  /** What a client can rely on: a fresh renderer reports its configuration
      and follows a sequence of Start and Stop calls as `Run` says. */
  method ControlSession(parameters: AudioRendererParameters) returns (rate: U32, state: PlaybackState)
    ensures rate == parameters.sampleRate
    ensures state == Run(Stopped, [StartCall, StartCall, StopCall]) == Stopped
  {
    var r := new AudioRenderer(parameters);
    r.Start();
    r.Start();
    r.Stop();
    rate := r.GetSampleRate();
    state := r.playbackState;
  }
}
