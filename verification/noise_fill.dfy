/** The noise-based fills of `CustomTerrain`: plain Perlin noise, fractional
    Brownian motion (a sum of Perlin octaves) and the empty multifractal.
    Each fill builds its own generator; the sampling loops are stated for
    any noise field and then applied to that generator's `GenerateNoise`. */
module NoiseFill {
  import opened PerlinNoise

  /** A noise function of the plane. */
  type NoiseField = (real, real) -> real

  /** The noise at (x, y) scaled by the frequency. */
  function Sample(noise: NoiseField, x: real, y: real, frequency: real): real {
    noise(x * frequency, y * frequency)
  }

  /** The frequency scale of `PerlinNoiseAlgorithm`: 5 noise cells across
      the map. */
  const PERLIN_CELLS: real := 5.0
  const GAIN: real := 0.65
  const LACUNARITY: real := 2.0
  const OCTAVES: nat := 16

  /** The sampling loops of `PerlinNoiseAlgorithm`: both loops run over
      0..W, so cell (x, y) of the (W+1) x (W+1) square gets the noise at
      (x, y) scaled by the frequency, and the rows above W of a taller map
      keep their values. */
  method SampleSquare(heightMap: array2<real>, W: nat, frequency: real, noise: NoiseField)
    requires heightMap.Length0 == W + 1 && W + 1 <= heightMap.Length1
    modifies heightMap
    ensures forall x, y | 0 <= x <= W && 0 <= y <= W ::
              heightMap[x, y] == Sample(noise, x as real, y as real, frequency)
    ensures forall x, y | 0 <= x <= W && W < y < heightMap.Length1 :: heightMap[x, y] == old(heightMap[x, y])
  {
    for y := 0 to W + 1
      invariant forall x, y' | 0 <= x <= W && 0 <= y' < y ::
                  heightMap[x, y'] == Sample(noise, x as real, y' as real, frequency)
      invariant forall x, y' | 0 <= x <= W && y <= y' < heightMap.Length1 :: heightMap[x, y'] == old(heightMap[x, y'])
    {
      for x := 0 to W + 1
        invariant forall x', y' | 0 <= x' <= W && 0 <= y' < y ::
                    heightMap[x', y'] == Sample(noise, x' as real, y' as real, frequency)
        invariant forall x' | 0 <= x' < x :: heightMap[x', y] == Sample(noise, x' as real, y as real, frequency)
        invariant forall x', y' | 0 <= x' <= W && y <= y' < heightMap.Length1 && (y' != y || x' >= x) ::
                    heightMap[x', y'] == old(heightMap[x', y'])
      {
        heightMap[x, y] := Sample(noise, x as real, y as real, frequency);
      }
    }
  }

  /** `PerlinNoiseAlgorithm` on a map whose width is W = dimensions.x: a
      fresh generator, frequency 5 / (W + 1), and the noise of each cell of
      the (W+1) x (W+1) square. The y loop is bounded by dimensions.x as
      well, so the map must have at least W + 1 rows. */
  method PerlinNoiseAlgorithm(heightMap: array2<real>, W: nat, gradientTable: GradientTable, choices: seq<int>)
    returns (generator: PerlinNoiseGenerator)
    requires heightMap.Length0 == W + 1 && W + 1 <= heightMap.Length1
    requires |choices| == TABLE_SIZE && forall i | 0 <= i < |choices| :: 0 <= choices[i] < TABLE_SIZE
    modifies heightMap
    ensures generator.gradients == gradientTable && generator.permutations == Shuffled(choices, TABLE_SIZE)
    ensures forall x, y | 0 <= x <= W && 0 <= y <= W ::
              heightMap[x, y] == Sample(generator.GenerateNoise, x as real, y as real, PERLIN_CELLS / (W + 1) as real)
    ensures forall x, y | 0 <= x <= W && W < y < heightMap.Length1 :: heightMap[x, y] == old(heightMap[x, y])
  {
    generator := new PerlinNoiseGenerator(gradientTable, choices);
    SampleSquare(heightMap, W, PERLIN_CELLS / (W + 1) as real, generator.GenerateNoise);
  }

  /** The frequency of octave i of the fBm sum over a map of width W:
      1 / (W + 1), multiplied by the lacunarity for every later octave. */
  function Frequency(W: nat, i: nat): real {
    if i == 0 then 1.0 / (W + 1) as real else Frequency(W, i - 1) * LACUNARITY
  }

  /** The amplitude of octave i: the gain, multiplied by the gain again for
      every later octave. */
  function Amplitude(i: nat): real {
    if i == 0 then GAIN else Amplitude(i - 1) * GAIN
  }

  function Pow(b: real, n: nat): real {
    if n == 0 then 1.0 else b * Pow(b, n - 1)
  }

  /** Octave i samples at frequency 2^i / (W + 1) with amplitude 0.65^(i+1). */
  lemma {:induction false} OctaveClosedForm(W: nat, i: nat)
    ensures Frequency(W, i) == Pow(LACUNARITY, i) / (W + 1) as real
    ensures Amplitude(i) == Pow(GAIN, i + 1)
  {
    if i > 0 {
      OctaveClosedForm(W, i - 1);
      var d := (W + 1) as real;
      calc {
        Frequency(W, i);
        Frequency(W, i - 1) * LACUNARITY;
        (Pow(LACUNARITY, i - 1) / d) * LACUNARITY;
        { DivMul(Pow(LACUNARITY, i - 1), d, LACUNARITY); }
        (LACUNARITY * Pow(LACUNARITY, i - 1)) / d;
      }
    }
  }

  lemma DivMul(a: real, d: real, c: real)
    requires d > 0.0
    ensures (a / d) * c == (c * a) / d
  {
  }

  /** The fBm value of (x, y) after n octaves: the sum over i < n of the
      noise at (x, y) * Frequency(W, i), weighted by Amplitude(i). */
  function OctaveSum(noise: NoiseField, x: real, y: real, W: nat, n: nat): real {
    if n == 0 then 0.0
    else OctaveSum(noise, x, y, W, n - 1)
         + Sample(noise, x, y, Frequency(W, n - 1)) * Amplitude(n - 1)
  }

  /** Every amplitude is positive. */
  lemma {:induction false} AmplitudePositive(i: nat)
    ensures Amplitude(i) > 0.0
  {
    if i > 0 {
      AmplitudePositive(i - 1);
    }
  }

  /** The sum of the first n amplitudes. */
  function AmplitudeSum(n: nat): real {
    if n == 0 then 0.0 else AmplitudeSum(n - 1) + Amplitude(n - 1)
  }

  /** The amplitudes form a geometric series: the first n of them and the
      tail from n on add up to 0.65 / 0.35. */
  lemma {:induction false} AmplitudeSeries(n: nat)
    ensures Amplitude(n) > 0.0
    ensures AmplitudeSum(n) + Amplitude(n) / (1.0 - GAIN) == GAIN / (1.0 - GAIN)
  {
    if n > 0 {
      AmplitudeSeries(n - 1);
    }
  }

  /** The bound B times the amplitude of each of the first n octaves,
      added up. */
  function OctaveBound(B: real, n: nat): real {
    if n == 0 then 0.0 else OctaveBound(B, n - 1) + B * Amplitude(n - 1)
  }

  /** Adding up B times each amplitude is B times their sum. */
  lemma {:induction false} OctaveBoundFactor(B: real, n: nat)
    ensures OctaveBound(B, n) == B * AmplitudeSum(n)
  {
    if n > 0 {
      OctaveBoundFactor(B, n - 1);
      assert B * (AmplitudeSum(n - 1) + Amplitude(n - 1)) == B * AmplitudeSum(n - 1) + B * Amplitude(n - 1);
    }
  }

  /** A noise value within [-B, B] weighted by a positive amplitude a lies
      within [-B a, B a]. */
  lemma WeightedBound(v: real, B: real, a: real)
    requires -B <= v <= B && a > 0.0
    ensures -(B * a) <= v * a <= B * a
  {
  }

  /** Two values within [-b, b] and [-c, c] add up to one within
      [-(b + c), b + c]. */
  lemma AddWithin(s: real, b: real, t: real, c: real)
    requires -b <= s <= b && -c <= t <= c
    ensures -(b + c) <= s + t <= b + c
  {
  }

  /** One octave more: a sum within [-b, b] plus a noise value within
      [-B, B] weighted by a positive amplitude a stays within
      [-(b + B a), b + B a]. */
  lemma OctaveStep(s: real, b: real, v: real, B: real, a: real)
    requires -b <= s <= b && -B <= v <= B && a > 0.0
    ensures -(b + B * a) <= s + v * a <= b + B * a
  {
    WeightedBound(v, B, a);
    AddWithin(s, b, v * a, B * a);
  }

  /** A noise field bounded by B gives samples bounded by B at every
      frequency. */
  lemma SampleWithin(noise: NoiseField, x: real, y: real, f: real, B: real)
    requires forall a, b :: -B <= noise(a, b) <= B
    ensures -B <= Sample(noise, x, y, f) <= B
  {
  }

  /** The step of OctaveSumWithin: if the first n - 1 octaves stay within
      their bound and octave n - 1 samples within [-B, B], the first n
      octaves stay within theirs. */
  lemma OctaveSumNext(noise: NoiseField, x: real, y: real, W: nat, n: nat, B: real)
    requires n > 0
    requires -OctaveBound(B, n - 1) <= OctaveSum(noise, x, y, W, n - 1) <= OctaveBound(B, n - 1)
    requires -B <= Sample(noise, x, y, Frequency(W, n - 1)) <= B
    ensures -OctaveBound(B, n) <= OctaveSum(noise, x, y, W, n) <= OctaveBound(B, n)
  {
    AmplitudePositive(n - 1);
    OctaveStep(OctaveSum(noise, x, y, W, n - 1), OctaveBound(B, n - 1), Sample(noise, x, y, Frequency(W, n - 1)), B, Amplitude(n - 1));
  }

  /** Octave by octave, the fBm sum stays within the added-up bounds. */
  lemma {:induction false} OctaveSumWithin(noise: NoiseField, x: real, y: real, W: nat, n: nat, B: real)
    requires forall a, b :: -B <= noise(a, b) <= B
    ensures -OctaveBound(B, n) <= OctaveSum(noise, x, y, W, n) <= OctaveBound(B, n)
  {
    if n > 0 {
      OctaveSumWithin(noise, x, y, W, n - 1, B);
      SampleWithin(noise, x, y, Frequency(W, n - 1), B);
      OctaveSumNext(noise, x, y, W, n, B);
    }
  }

  /** With noise bounded by B in absolute value, the fBm sum of n octaves
      is bounded by B times the sum of their amplitudes. */
  lemma OctaveSumBound(noise: NoiseField, x: real, y: real, W: nat, n: nat, B: real)
    requires forall a, b :: -B <= noise(a, b) <= B
    ensures -(B * AmplitudeSum(n)) <= OctaveSum(noise, x, y, W, n) <= B * AmplitudeSum(n)
  {
    OctaveSumWithin(noise, x, y, W, n, B);
    OctaveBoundFactor(B, n);
  }

  /** However many octaves are summed, the bound stays below
      B * 0.65 / 0.35, about 1.86 B. */
  lemma OctaveSumLimit(noise: NoiseField, x: real, y: real, W: nat, n: nat, B: real)
    requires forall a, b :: -B <= noise(a, b) <= B
    ensures -(B * (GAIN / (1.0 - GAIN))) <= OctaveSum(noise, x, y, W, n) <= B * (GAIN / (1.0 - GAIN))
  {
    OctaveSumBound(noise, x, y, W, n, B);
    assert B >= 0.0 by {
      assert -B <= noise(0.0, 0.0) <= B;
    }
    AmplitudeSeries(n);
    TailPositive(Amplitude(n));
    ScaleWithin(OctaveSum(noise, x, y, W, n), B, AmplitudeSum(n), GAIN / (1.0 - GAIN));
  }

  /** The tail a / 0.35 of a positive amplitude a is positive. */
  lemma TailPositive(a: real)
    requires a > 0.0
    ensures a / (1.0 - GAIN) > 0.0
  {
  }

  /** A value within [-B s, B s] is within [-B t, B t] for any t >= s,
      when B >= 0. */
  lemma ScaleWithin(v: real, B: real, s: real, t: real)
    requires B >= 0.0 && s <= t && -(B * s) <= v <= B * s
    ensures -(B * t) <= v <= B * t
  {
    assert B * s <= B * t;
  }

  /** The octave loop of `FractionalBrownianMotionAlgorithm` for one cell:
      16 octaves, the frequency doubling and the amplitude shrinking by the
      gain after each. */
  method FbmAt(noise: NoiseField, x: int, y: int, W: nat) returns (total: real)
    ensures total == OctaveSum(noise, x as real, y as real, W, OCTAVES)
  {
    total := 0.0;
    var frequency := 1.0 / (W + 1) as real;
    var amplitude := GAIN;
    for i := 0 to OCTAVES
      invariant total == OctaveSum(noise, x as real, y as real, W, i)
      invariant frequency == Frequency(W, i) && amplitude == Amplitude(i)
    {
      total := total + Sample(noise, x as real, y as real, frequency) * amplitude;
      frequency := frequency * LACUNARITY;
      amplitude := amplitude * GAIN;
    }
  }

  /** The cell loops of `FractionalBrownianMotionAlgorithm`: every cell of
      the (W+1) x (H+1) map gets its 16-octave sum. */
  method SampleOctaves(heightMap: array2<real>, W: nat, H: nat, noise: NoiseField)
    requires heightMap.Length0 == W + 1 && heightMap.Length1 == H + 1
    modifies heightMap
    ensures forall x, y | 0 <= x <= W && 0 <= y <= H :: heightMap[x, y] == OctaveSum(noise, x as real, y as real, W, OCTAVES)
  {
    for y := 0 to H + 1
      invariant forall x, y' | 0 <= x <= W && 0 <= y' < y :: heightMap[x, y'] == OctaveSum(noise, x as real, y' as real, W, OCTAVES)
    {
      for x := 0 to W + 1
        invariant forall x', y' | 0 <= x' <= W && 0 <= y' < y :: heightMap[x', y'] == OctaveSum(noise, x' as real, y' as real, W, OCTAVES)
        invariant forall x' | 0 <= x' < x :: heightMap[x', y] == OctaveSum(noise, x' as real, y as real, W, OCTAVES)
      {
        var total := FbmAt(noise, x, y, W);
        heightMap[x, y] := total;
      }
    }
  }

  /** `FractionalBrownianMotionAlgorithm`: a fresh generator and, in every
      cell of the (W+1) x (H+1) map, the 16-octave sum of its noise. */
  method FractionalBrownianMotionAlgorithm(heightMap: array2<real>, W: nat, H: nat, gradientTable: GradientTable, choices: seq<int>)
    returns (generator: PerlinNoiseGenerator)
    requires heightMap.Length0 == W + 1 && heightMap.Length1 == H + 1
    requires |choices| == TABLE_SIZE && forall i | 0 <= i < |choices| :: 0 <= choices[i] < TABLE_SIZE
    modifies heightMap
    ensures generator.gradients == gradientTable && generator.permutations == Shuffled(choices, TABLE_SIZE)
    ensures forall x, y | 0 <= x <= W && 0 <= y <= H ::
              heightMap[x, y] == OctaveSum(generator.GenerateNoise, x as real, y as real, W, OCTAVES)
  {
    generator := new PerlinNoiseGenerator(gradientTable, choices);
    SampleOctaves(heightMap, W, H, generator.GenerateNoise);
  }

  /** `MultiFractalAlgorithm` has an empty body: the map keeps whatever the
      previous algorithm left in it. */
  method MultiFractalAlgorithm(heightMap: array2<real>)
    ensures unchanged(heightMap)
  {
  }
}
