/** One mixer source (NMIX_Source of SDL_nmix.h): its gain and pan with their
    clamping setters, the end-of-file flag, the list links, and the
    SDL_AudioStream converter seen as a FIFO of converted samples. What the
    source callback and SDL_AudioStreamPut will produce on successive refills
    is an oracle fixed when the source is created. */
module Voice {
  import opened AudioFormat
  import opened SampleMath

  /** Interleaved stereo samples: a whole number of left/right frames, as
      the converter yields them. */
  type Interleaved = s: seq<real> | |s| % MixChannels == 0

  /** A pan position, -1 full left to 1 full right. */
  type Pan = x: real | -1.0 <= x <= 1.0

  /** A gain factor in the documented range [0, 2]. */
  type Gain = x: real | 0.0 <= x <= 2.0 witness 1.0

  /** A positive byte count holding whole output frames. */
  type Period = n: nat | 0 < n && n % FrameBytes == 0 witness FrameBytes

  /** One refill: the source callback writes in_buffer and SDL_AudioStreamPut
      pushes it into the converter. `samples` is what the converter then
      yields at the mixer rate, `eof` whether the callback set the source's
      eof flag, `accepted` whether the Put succeeded. */
  datatype Refill = Refill(samples: Interleaved, eof: bool, accepted: bool)

  /** The converted samples a run of refills hands to the converter. */
  function Delivered(rs: seq<Refill>): (d: Interleaved)
    ensures |d| == 0 <== (forall i :: 0 <= i < |rs| ==> rs[i].samples == [] || !rs[i].accepted)
    decreases |rs|
  {
    if rs == [] then []
    else (if rs[0].accepted then rs[0].samples else []) + Delivered(rs[1..])
  }

  lemma {:induction false} DeliveredAppend(a: seq<Refill>, b: seq<Refill>)
    ensures Delivered(a + b) == Delivered(a) + Delivered(b)
    decreases |a|
  {
    if a == [] {
      assert a + b == b;
    } else {
      assert (a + b)[0] == a[0] && (a + b)[1..] == a[1..] + b;
      DeliveredAppend(a[1..], b);
    }
  }

  /** One more refill extends what a run has delivered after `start`. */
  lemma DeliveredSnoc(start: seq<real>, fed: seq<Refill>, r: Refill)
    ensures start + Delivered(fed + [r]) == (start + Delivered(fed)) + Delivered([r])
  {
    DeliveredAppend(fed, [r]);
  }

  /** Some refill ends the source's playback: its callback sets eof or its
      Put fails. */
  predicate Stops(rs: seq<Refill>) {
    exists i :: 0 <= i < |rs| && (rs[i].eof || !rs[i].accepted)
  }

  /** A refill that neither ends playback nor fails leaves the end ahead. */
  lemma StopsLater(rs: seq<Refill>)
    requires Stops(rs) && !rs[0].eof && rs[0].accepted
    ensures Stops(rs[1..])
  {
    var i :| 0 <= i < |rs| && (rs[i].eof || !rs[i].accepted);
    assert rs[1..][i - 1] == rs[i];
  }

  /** Some refill sets eof. */
  predicate SetsEof(rs: seq<Refill>) {
    exists i :: 0 <= i < |rs| && rs[i].eof
  }

  lemma SetsEofSnoc(rs: seq<Refill>, r: Refill)
    ensures SetsEof(rs + [r]) == (SetsEof(rs) || r.eof)
  {
    if SetsEof(rs) {
      var i :| 0 <= i < |rs| && rs[i].eof;
      assert (rs + [r])[i] == rs[i];
    }
    if r.eof {
      assert (rs + [r])[|rs|] == r;
    }
  }

  /** A stream with this eof flag, converter contents and refills to come
      is at its end, will end, or holds more than `need` bytes. */
  predicate Suffices(eof: bool, pending: seq<real>, refills: seq<Refill>, need: int) {
    eof || Stops(refills) || SampleBytes * (|pending| + |Delivered(refills)|) > need
  }

  class Source {
    const format: Format
    const channels: nat
    const rate: int
    /** Bytes of source-format audio one callback writes. */
    const inBufferSize: int
    /** Bytes of converted audio one SDL_AudioStreamGet may return (mixer.size). */
    const outBufferSize: Period
    var pan: Pan
    var gain: Gain
    var eof: bool
    /** The converted samples waiting in the SDL_AudioStream. */
    var pending: Interleaved
    /** The refills the source callback and the converter will perform. */
    var refills: seq<Refill>
    var prev: Source?
    var next: Source?

    /** The field initialisation of NMIX_NewSource: pan 0, gain 1, eof
        clear, no links, an empty converter. */
    constructor (format: Format, channels: nat, rate: int, inBufferSize: int, outBufferSize: Period, refills: seq<Refill>)
      ensures this.format == format && this.channels == channels && this.rate == rate
      ensures this.inBufferSize == inBufferSize && this.outBufferSize == outBufferSize
      ensures pan == 0.0 && gain == 1.0 && !eof
      ensures pending == [] && this.refills == refills
      ensures prev == null && next == null
    {
      this.format := format;
      this.channels := channels;
      this.rate := rate;
      pan := 0.0;
      gain := 1.0;
      eof := false;
      this.inBufferSize := inBufferSize;
      this.outBufferSize := outBufferSize;
      pending := [];
      this.refills := refills;
      prev := null;
      next := null;
    }

    /** The source can keep the mixer busy for `need` more bytes: it is
        already at its end, a later refill ends it, or the converter and the
        refills hold more than `need` bytes. Without this the callback's
        loop would wait forever on a source that delivers nothing. */
    predicate Supplies(need: int)
      reads this`eof, this`refills, this`pending
    {
      Suffices(eof, pending, refills, need)
    }

    /** SDL_AudioStreamAvailable: bytes of converted audio ready, always
        whole frames. */
    function Available(): (n: nat)
      reads this`pending
      ensures n == 0 <==> pending == []
      ensures n % FrameBytes == 0
    {
      SampleBytes * |pending|
    }

    /** SDL_AudioStreamGet: takes up to `len` bytes of converted audio off
        the front of the converter; `len` is a whole number of frames. */
    method Get(len: nat) returns (chunk: Interleaved)
      requires len % FrameBytes == 0
      modifies this`pending
      ensures old(pending) == chunk + pending
      ensures SampleBytes * |chunk| == if len <= old(Available()) then len else old(Available())
    {
      var n := if len <= Available() then len / SampleBytes else |pending|;
      chunk := pending[..n];
      pending := pending[n..];
    }

    /** The source callback followed by SDL_AudioStreamPut: the next refill
        sets eof if the callback does, and its samples join the converter if
        the Put succeeds. */
    method Feed() returns (accepted: bool)
      requires refills != []
      modifies this`pending, this`eof, this`refills
      ensures refills == old(refills[1..])
      ensures eof == (old(eof) || old(refills[0].eof))
      ensures accepted == old(refills[0].accepted)
      ensures pending == old(pending) + Delivered(old(refills[..1]))
    {
      var r := refills[0];
      assert refills[..1] == [r] && [r][1..] == [];
      refills := refills[1..];
      if r.eof {
        eof := true;
      }
      if r.accepted {
        pending := pending + r.samples;
      }
      accepted := r.accepted;
    }
  }

  /** NMIX_GetPan: the source's pan, 0 for no source; always in [-1, 1]. */
  function GetPan(s: Source?): (p: real)
    reads s
    ensures -1.0 <= p <= 1.0
    ensures s == null ==> p == 0.0
    ensures s != null ==> p == s.pan
  {
    if s == null then 0.0 else s.pan
  }

  /** NMIX_SetPan: stores the pan clamped to [-1, 1]; no effect on no source. */
  method SetPan(s: Source?, pan: real)
    modifies s
    ensures s != null ==> GetPan(s) == Clamp(pan, -1.0, 1.0)
    ensures s != null && -1.0 <= pan <= 1.0 ==> GetPan(s) == pan
    ensures s != null ==> unchanged(s`gain, s`eof, s`pending, s`refills, s`prev, s`next)
  {
    if s == null {
      return;
    }
    s.pan := Clamp(pan, -1.0, 1.0);
  }

  /** NMIX_GetGain: the source's gain, 0 for no source; always in [0, 2]. */
  function GetGain(s: Source?): (g: real)
    reads s
    ensures 0.0 <= g <= 2.0
    ensures s == null ==> g == 0.0
    ensures s != null ==> g == s.gain
  {
    if s == null then 0.0 else s.gain
  }

  /** NMIX_SetGain: stores the gain clamped to [0, 2]; no effect on no source. */
  method SetGain(s: Source?, gain: real)
    modifies s
    ensures s != null ==> GetGain(s) == Clamp(gain, 0.0, 2.0)
    ensures s != null && 0.0 <= gain <= 2.0 ==> GetGain(s) == gain
    ensures s != null ==> unchanged(s`pan, s`eof, s`pending, s`refills, s`prev, s`next)
  {
    if s == null {
      return;
    }
    s.gain := Clamp(gain, 0.0, 2.0);
  }

  function IAbs(x: int): nat {
    if x < 0 then -x else x
  }

  /** C's `/` on int: the quotient truncated toward zero. Its magnitude is
      the largest whose multiple of |b| does not exceed |a|, and its sign is
      that of a * b. */
  function CDiv(a: int, b: int): (q: int)
    requires b != 0
    ensures IAbs(q) * IAbs(b) <= IAbs(a) < (IAbs(q) + 1) * IAbs(b)
    ensures q == 0 || ((q > 0) <==> ((a > 0) == (b > 0)))
  {
    var q := IAbs(a) / IAbs(b);
    var r := if (a < 0) == (b < 0) then q else -q;
    Truncated(a, b, r);
    r
  }

  /** The quotient of |a| by |b|, signed as a * b, has the magnitude and
      the sign that C's division gives. */
  lemma Truncated(a: int, b: int, r: int)
    requires b != 0
    requires r == if (a < 0) == (b < 0) then IAbs(a) / IAbs(b) else -(IAbs(a) / IAbs(b))
    ensures IAbs(r) * IAbs(b) <= IAbs(a) < (IAbs(r) + 1) * IAbs(b)
    ensures r == 0 || ((r > 0) <==> ((a > 0) == (b > 0)))
  {
    var x, y := IAbs(a), IAbs(b);
    var q := x / y;
    DivBounds(x, y);
    assert IAbs(r) == q;
    if q > 0 {
      assert x != 0;
      assert a != 0;
    }
  }

  lemma DivBounds(x: nat, y: nat)
    requires y > 0
    ensures (x / y) * y <= x < (x / y + 1) * y
  {
    var q, r := x / y, x % y;
    assert x == q * y + r && 0 <= r < y;
    assert (q + 1) * y == q * y + y;
  }

  /** The sample frames one source callback is asked for: the source-rate
      frames in one device period, rate * samples / freq, truncated. */
  function InFrames(rate: int, samples: int, freq: int): (n: int)
    requires freq != 0
    ensures freq > 0 && rate * samples >= 0 ==> n >= 0
    ensures freq > 0 && 0 <= rate * samples < freq ==> n == 0
  {
    CDiv(rate * samples, freq)
  }

  /** The in_buffer_size of a new source, in bytes: never negative for a
      positive device rate, and zero when one device period is shorter than
      one source frame. */
  function InBufferSize(rate: int, samples: int, freq: int, channels: nat, format: Format): (b: int)
    requires freq != 0
    ensures freq > 0 && rate * samples >= 0 ==> b >= 0
    ensures freq > 0 && 0 <= rate * samples < freq ==> b == 0
  {
    var n := InFrames(rate, samples, freq);
    assert n >= 0 ==> n * channels >= 0;
    n * channels * SampleLen(format)
  }

  /** For positive rates the callback is asked for the period's frames
      rounded down, so it never covers more than one device period and
      falls short of it by less than one frame. */
  lemma InFramesRoundsDown(rate: int, samples: int, freq: int)
    requires rate > 0 && samples > 0 && freq > 0
    ensures 0 <= InFrames(rate, samples, freq)
    ensures InFrames(rate, samples, freq) * freq <= rate * samples < (InFrames(rate, samples, freq) + 1) * freq
  {
    assert rate * samples > 0;
  }

  /** Truncation, not rounding up: 22050 Hz into a 48000 Hz device with
      1000-frame periods gives 459 frames (459.375 exactly), 3672 bytes of
      stereo 32-bit float. */
  lemma InBufferSizeTruncates()
    ensures InFrames(22050, 1000, 48000) == 459
    ensures InBufferSize(22050, 1000, 48000, 2, F32LSB) == 3672
  {
    StandardSampleLens();
  }

  /** A source far slower than the device gets an empty in_buffer: each
      refill then delivers nothing new. */
  lemma InBufferSizeCanBeZero()
    ensures InBufferSize(80, 512, 48000, 2, S16LSB) == 0
  {
  }

  /** For positive rates the callback gets nothing at all exactly when one
      device period is shorter than one source frame: rate * samples < freq. */
  lemma InFramesZero(rate: int, samples: int, freq: int)
    requires rate > 0 && samples > 0 && freq > 0
    ensures InFrames(rate, samples, freq) == 0 <==> rate * samples < freq
  {
    InFramesRoundsDown(rate, samples, freq);
  }

  /** The period's source frames rounded up, (rate * samples + freq - 1) / freq:
      at least one frame, and the fewest frames that cover the period. */
  function InFramesCeil(rate: int, samples: int, freq: int): (n: int)
    requires rate > 0 && samples > 0 && freq > 0
    ensures n >= 1
    ensures (n - 1) * freq < rate * samples <= n * freq
  {
    var x := rate * samples + freq - 1;
    DivBounds(x, freq);
    x / freq
  }

  /** An in_buffer_size sized with InFramesCeil: never empty for a source
      with channels and a sample length, and never smaller than the
      truncated size. */
  function InBufferSizeCeil(rate: int, samples: int, freq: int, channels: nat, format: Format): (b: int)
    requires rate > 0 && samples > 0 && freq > 0
    ensures b > 0 <==> channels > 0 && SampleLen(format) > 0
    ensures b >= InBufferSize(rate, samples, freq, channels, format)
  {
    var f, n := InFrames(rate, samples, freq), InFramesCeil(rate, samples, freq);
    InFramesRoundsDown(rate, samples, freq);
    Cancel(f, n, freq);
    Scale(f, n, channels, SampleLen(format));
    Scale(1, n, channels, SampleLen(format));
    Positive(channels, SampleLen(format));
    n * channels * SampleLen(format)
  }

  lemma Scale(a: int, b: int, c: nat, d: nat)
    requires a <= b
    ensures a * c * d <= b * c * d
  {
    assert b * c * d - a * c * d == (b - a) * (c * d);
    assert (b - a) * (c * d) >= 0;
  }

  lemma Cancel(a: int, b: int, c: int)
    requires c > 0 && a * c <= b * c
    ensures a <= b
  {
  }

  lemma Positive(c: nat, d: nat)
    ensures c * d > 0 <==> c > 0 && d > 0
  {
  }
}
