/** SDL audio sample formats, as far as the mixer needs them: the bytes per
    sample of a format (the SDL_AUDIO_SAMPLELEN macro of SDL_nmix.h) and the
    canonical output format, stereo 32-bit float. */
module AudioFormat {

  /** An SDL_AudioFormat: a 16-bit word whose low byte is the bit size. */
  type Format = bv16

  const MaskBitSize: Format := 0x00FF

  const U8: Format := 0x0008
  const S8: Format := 0x8008
  const S16LSB: Format := 0x8010
  const S32LSB: Format := 0x8020
  const F32LSB: Format := 0x8120
  const F32MSB: Format := 0x9120

  /** The bit size encoded in a format word. */
  function BitSize(f: Format): (b: nat)
    ensures b < 256
  {
    (f & MaskBitSize) as nat
  }

  /** SDL_AUDIO_SAMPLELEN: the bytes one sample of format f occupies. */
  function SampleLen(f: Format): (n: nat)
    ensures 8 * n <= BitSize(f) < 8 * n + 8
    ensures n < 32
  {
    BitSize(f) / 8
  }

  /** The standard formats have the sample lengths their names promise. */
  lemma StandardSampleLens()
    ensures SampleLen(U8) == 1 && SampleLen(S8) == 1
    ensures SampleLen(S16LSB) == 2 && SampleLen(S32LSB) == 4
    ensures SampleLen(F32LSB) == 4 && SampleLen(F32MSB) == 4
  {
  }

  /** The mixer always works in AUDIO_F32SYS, stereo (SDL_nmix.c:123-124). */
  const F32Sys: Format := F32LSB
  const MixChannels: nat := 2

  /** Bytes per mixed sample, SDL_AUDIO_SAMPLELEN(mixer.format). */
  const SampleBytes: nat := 4

  /** Bytes per stereo frame of mixed output. */
  const FrameBytes: nat := MixChannels * SampleBytes

  /** Byte counts of whole samples add and compare as the sample counts do. */
  lemma ByteCount(a: int, b: int)
    ensures SampleBytes * (a + b) == SampleBytes * a + SampleBytes * b
    ensures SampleBytes * a <= SampleBytes * b <==> a <= b
  {
  }

  /** A byte offset of whole samples names the sample it starts. */
  lemma SampleOffset(n: int)
    ensures (SampleBytes * n) / SampleBytes == n
  {
  }

  /** Two runs of whole stereo frames make whole frames. */
  lemma FrameCount(a: int, b: int)
    requires a % MixChannels == 0 && b % MixChannels == 0
    ensures (a + b) % MixChannels == 0
  {
  }

  lemma SampleBytesIsSampleLen()
    ensures SampleLen(F32Sys) == SampleBytes
    ensures SampleLen(F32MSB) == SampleBytes
  {
    StandardSampleLens();
  }
}
