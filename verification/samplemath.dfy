/** The sample arithmetic of the mixer (clampf, mix_samples and apply_panning
    of SDL_nmix.c), over real numbers, and the reference definition of what one
    mixing period produces: silence overlaid, source after source, with each
    source's scaled and panned samples through the saturating mix. */
module SampleMath {

  function Abs(x: real): real {
    if x < 0.0 then -x else x
  }

  /** The distance between two samples. */
  function Dist(a: real, b: real): real {
    Abs(a - b)
  }

  /** clampf: x brought into [lo, hi], that is, the point of [lo, hi] closest to x. */
  function Clamp(x: real, lo: real, hi: real): (r: real)
    requires lo <= hi
    ensures lo <= r <= hi
    ensures lo <= x <= hi ==> r == x
    ensures forall y :: lo <= y <= hi ==> Dist(r, x) <= Dist(y, x)
  {
    if x < lo then lo else if x > hi then hi else x
  }

  /** mix_samples: saturating addition of two samples into [-1, 1]. */
  function MixSamples(a: real, b: real): (r: real)
    ensures -1.0 <= r <= 1.0
    ensures -1.0 <= a + b <= 1.0 ==> r == a + b
    ensures a + b >= 1.0 ==> r == 1.0
    ensures a + b <= -1.0 ==> r == -1.0
  {
    Clamp(a + b, -1.0, 1.0)
  }

  /** The right-channel amplitude of linear panning; the left channel gets 1 minus it. */
  function Amplitude(pan: real): real {
    pan / 2.0 + 0.5
  }

  /** apply_panning: scales a left/right pair by the linear pan law. */
  method ApplyPanning(pan: real, left: real, right: real) returns (l: real, r: real)
    ensures l == left * (1.0 - Amplitude(pan)) && r == right * Amplitude(pan)
    ensures -1.0 <= pan <= 1.0 ==> Abs(l) <= Abs(left) && Abs(r) <= Abs(right)
  {
    var amplitude := pan / 2.0 + 0.5;
    l := left * (1.0 - amplitude);
    r := right * amplitude;
    if -1.0 <= pan <= 1.0 {
      ScaleDown(left, 1.0 - amplitude);
      ScaleDown(right, amplitude);
    }
  }

  lemma ScaleDown(x: real, f: real)
    requires 0.0 <= f <= 1.0
    ensures Abs(x * f) <= Abs(x)
  {
    if x < 0.0 {
      assert x * f >= x * 1.0;
    } else {
      assert x * f <= x * 1.0;
    }
  }

  /** The pan law: both amplitudes lie in [0, 1] and add up to 1; full left,
      centre and full right give (1, 0), (0.5, 0.5) and (0, 1). */
  lemma PanLaw(pan: real)
    requires -1.0 <= pan <= 1.0
    ensures 0.0 <= Amplitude(pan) <= 1.0
    ensures (1.0 - Amplitude(pan)) + Amplitude(pan) == 1.0
    ensures pan == -1.0 ==> 1.0 - Amplitude(pan) == 1.0 && Amplitude(pan) == 0.0
    ensures pan == 0.0 ==> 1.0 - Amplitude(pan) == 0.5 && Amplitude(pan) == 0.5
    ensures pan == 1.0 ==> 1.0 - Amplitude(pan) == 0.0 && Amplitude(pan) == 1.0
  {
  }

  /** The panning amplitude applied to interleaved sample i (even = left). */
  function PanFactor(pan: real, i: int): real {
    if i % 2 == 0 then 1.0 - Amplitude(pan) else Amplitude(pan)
  }

  /** What a source adds to the output for the interleaved samples it drained:
      each sample times the source gain, times the master gain, times its
      channel's pan amplitude (SDL_nmix.c:61-63). */
  function Scaled(samples: seq<real>, gain: real, master: real, pan: real): seq<real> {
    seq(|samples|, i requires 0 <= i < |samples| => samples[i] * gain * master * PanFactor(pan, i))
  }

  /** A frame starting at an even sample, its two samples already scaled
      by the gains to `left` and `right`: panning takes the left one by the
      left amplitude and the right one by the right amplitude. */
  lemma ScaledFrame(samples: seq<real>, gain: real, master: real, pan: real, i: int, left: real, right: real)
    requires 0 <= i && i + 1 < |samples| && i % 2 == 0
    requires left == samples[i] * gain * master && right == samples[i + 1] * gain * master
    ensures Scaled(samples, gain, master, pan)[i] == left * (1.0 - Amplitude(pan))
    ensures Scaled(samples, gain, master, pan)[i + 1] == right * Amplitude(pan)
  {
    assert (i + 1) % 2 == 1;
  }

  /** The output after mixing `layer` into `base` from sample `offset` on;
      samples outside the layer are left as they are. */
  function MixAt(base: seq<real>, offset: int, layer: seq<real>): seq<real> {
    seq(|base|, k requires 0 <= k < |base| =>
      if offset <= k < offset + |layer| then MixSamples(base[k], layer[k - offset]) else base[k])
  }

  function Zeros(n: nat): seq<real> {
    seq(n, _ => 0.0)
  }

  /** One mixing period: silence, then each layer mixed in, in registry order. */
  function Render(n: nat, layers: seq<seq<real>>): (r: seq<real>)
    ensures |r| == n
    decreases |layers|
  {
    if layers == [] then Zeros(n)
    else MixAt(Render(n, layers[..|layers| - 1]), 0, layers[|layers| - 1])
  }

  /** One more layer is mixed over the period rendered so far. */
  lemma RenderSnoc(n: nat, layers: seq<seq<real>>, layer: seq<real>)
    ensures Render(n, layers + [layer]) == MixAt(Render(n, layers), 0, layer)
  {
    assert (layers + [layer])[..|layers|] == layers;
  }

  /** Scaling distributes over a split at a frame boundary. */
  lemma ScaledAppend(a: seq<real>, b: seq<real>, gain: real, master: real, pan: real)
    requires |a| % 2 == 0
    ensures Scaled(a + b, gain, master, pan) == Scaled(a, gain, master, pan) + Scaled(b, gain, master, pan)
  {
    var l, r := Scaled(a + b, gain, master, pan), Scaled(a, gain, master, pan) + Scaled(b, gain, master, pan);
    assert |l| == |r|;
    forall i | 0 <= i < |l| ensures l[i] == r[i] {
      if i >= |a| {
        assert (i - |a|) % 2 == i % 2;
      }
    }
  }

  /** Mixing two adjacent layers one after the other is mixing their concatenation. */
  lemma MixAtAppend(base: seq<real>, offset: int, a: seq<real>, b: seq<real>)
    ensures MixAt(MixAt(base, offset, a), offset + |a|, b) == MixAt(base, offset, a + b)
  {
  }

  /** Mixing a source's samples chunk by chunk, each at the offset where the
      previous one ended, is mixing everything it delivered at once. */
  lemma MixOnward(base: seq<real>, done: seq<real>, more: seq<real>, gain: real, master: real, pan: real)
    requires |done| % 2 == 0
    ensures MixAt(MixAt(base, 0, Scaled(done, gain, master, pan)), |done|, Scaled(more, gain, master, pan))
         == MixAt(base, 0, Scaled(done + more, gain, master, pan))
  {
    ScaledAppend(done, more, gain, master, pan);
    MixAtAppend(base, 0, Scaled(done, gain, master, pan), Scaled(more, gain, master, pan));
  }

  /** Every sample lies in the float format's full-scale range [-1, 1]. */
  predicate InRange(xs: seq<real>) {
    forall k :: 0 <= k < |xs| ==> -1.0 <= xs[k] <= 1.0
  }

  /** Every sample of a mixed period lies in [-1, 1], whatever the sources
      deliver: silence is in range and every accumulation saturates. */
  lemma {:induction false} RenderBounded(n: nat, layers: seq<seq<real>>)
    ensures InRange(Render(n, layers))
  {
    if layers != [] {
      RenderBounded(n, layers[..|layers| - 1]);
    }
  }

  /** mix_samples applied in turn to each contribution, starting from x. */
  function FoldMix(x: real, cs: seq<real>): real
    decreases |cs|
  {
    if cs == [] then x else FoldMix(MixSamples(x, cs[0]), cs[1..])
  }

  /** The contributions of the layers to sample k, in mixing order. */
  function Column(layers: seq<seq<real>>, k: int): seq<real>
    decreases |layers|
  {
    if layers == [] then []
    else
      var last := layers[|layers| - 1];
      Column(layers[..|layers| - 1], k) + (if 0 <= k < |last| then [last[k]] else [])
  }

  lemma {:induction false} FoldMixSnoc(x: real, cs: seq<real>, c: real)
    ensures FoldMix(x, cs + [c]) == MixSamples(FoldMix(x, cs), c)
    decreases |cs|
  {
    if cs != [] {
      assert (cs + [c])[1..] == cs[1..] + [c];
      FoldMixSnoc(MixSamples(x, cs[0]), cs[1..], c);
    }
  }

  /** Sample k of a period is silence folded through mix_samples with the
      contribution of every layer that reaches k, in registry order. */
  lemma {:induction false} RenderAt(n: nat, layers: seq<seq<real>>, k: nat)
    requires k < n
    ensures Render(n, layers)[k] == FoldMix(0.0, Column(layers, k))
    decreases |layers|
  {
    if layers != [] {
      var init, last := layers[..|layers| - 1], layers[|layers| - 1];
      RenderAt(n, init, k);
      if k < |last| {
        FoldMixSnoc(0.0, Column(init, k), last[k]);
      } else {
        assert Column(layers, k) == Column(init, k);
      }
    }
  }

  function Sum(cs: seq<real>): real
    decreases |cs|
  {
    if cs == [] then 0.0 else cs[0] + Sum(cs[1..])
  }

  lemma {:induction false} SumNonNegative(cs: seq<real>)
    requires forall i :: 0 <= i < |cs| ==> cs[i] >= 0.0
    ensures Sum(cs) >= 0.0
    decreases |cs|
  {
    if cs != [] {
      SumNonNegative(cs[1..]);
    }
  }

  /** When no contribution is negative, mixing one after the other with
      saturation gives the clamped plain sum. */
  lemma {:induction false} FoldMixNonNegative(x: real, cs: seq<real>)
    requires 0.0 <= x <= 1.0
    requires forall i :: 0 <= i < |cs| ==> cs[i] >= 0.0
    ensures FoldMix(x, cs) == Clamp(x + Sum(cs), -1.0, 1.0)
    decreases |cs|
  {
    if cs != [] {
      var y := MixSamples(x, cs[0]);
      FoldMixNonNegative(y, cs[1..]);
      SumNonNegative(cs[1..]);
    }
  }

  /** With contributions of both signs the saturation of a partial sum is not
      undone later: 0.9 + 0.9 saturates at 1, then -0.9 gives 0.1, while the
      clamped plain sum is 0.9. */
  lemma FoldMixIsNotClampedSum()
    ensures FoldMix(0.0, [0.9, 0.9, -0.9]) == 0.1
    ensures Clamp(Sum([0.9, 0.9, -0.9]), -1.0, 1.0) == 0.9
  {
    var cs: seq<real> := [0.9, 0.9, -0.9];
    assert cs[1..] == [0.9, -0.9];
    assert cs[1..][1..] == [-0.9];
    assert FoldMix(0.0, cs) == FoldMix(0.9, [0.9, -0.9]);
    assert FoldMix(0.9, [0.9, -0.9]) == FoldMix(1.0, [-0.9]);
    assert [-0.9][1..] == [];
  }

  /** Two centred sources at gain 1 and master gain 1, each delivering the
      constant sample v in range, produce v on both channels: the pan law
      halves each source at pan 0. */
  lemma TwoCentredSources(n: nat, v: real, k: nat)
    requires -1.0 <= v <= 1.0 && k < n
    ensures Render(n, [Scaled(seq(n, _ => v), 1.0, 1.0, 0.0), Scaled(seq(n, _ => v), 1.0, 1.0, 0.0)])[k] == v
  {
    var layer := Scaled(seq(n, _ => v), 1.0, 1.0, 0.0);
    assert layer[k] == v / 2.0;
    var layers := [layer, layer];
    assert layers[..1] == [layer];
    var one: seq<seq<real>> := [layer];
    assert one[..0] == [];
    assert Render(n, [layer])[k] == MixSamples(0.0, v / 2.0);
  }

  /** Full-left and full-right panning of one source: one channel gets the
      whole (gain-scaled) sample and the other nothing. */
  lemma HardPanning(x: real, y: real, gain: real, master: real)
    ensures Scaled([x, y], gain, master, -1.0) == [x * gain * master, 0.0]
    ensures Scaled([x, y], gain, master, 1.0) == [0.0, y * gain * master]
  {
    var left, right := Scaled([x, y], gain, master, -1.0), Scaled([x, y], gain, master, 1.0);
    assert left[0] == x * gain * master * 1.0 && left[1] == y * gain * master * 0.0;
    assert right[0] == x * gain * master * 0.0 && right[1] == y * gain * master * 1.0;
  }
}
