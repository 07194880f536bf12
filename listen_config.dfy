/**
 * Configuration arithmetic of the pocketsphinx listener: how the configured
 * durations become whole numbers of audio buffers, and how the configured
 * audio device index is normalised.
 */
module ListenConfig {
  import opened Wrappers

  /** Defaults of the component. */
  const DefaultSampleRate: nat := 16000
  const DefaultBufferSize: nat := 480
  const DefaultMinSec: real := 2.0
  const DefaultSilenceSec: real := 0.5
  const DefaultTimeoutSec: real := 30.0

  /** The smallest integer not below x (math.ceil, stated over the reals). */
  function Ceil(x: real): (r: int)
    ensures x <= r as real < x + 1.0
  {
    if x.Floor as real == x then x.Floor else x.Floor + 1
  }

  /** Duration of one buffer in seconds. */
  function SecondsPerBuffer(bufferSize: nat, sampleRate: nat): (r: real)
    requires bufferSize > 0 && sampleRate > 0
    ensures r > 0.0
    ensures r * sampleRate as real == bufferSize as real
  {
    bufferSize as real / sampleRate as real
  }

  /**
   * Number of buffers needed to cover `seconds`: ceil(seconds / seconds_per_buffer),
   * as the listener computes its three reload counts.
   */
  function BufferCount(seconds: real, bufferSize: nat, sampleRate: nat): (r: int)
    requires bufferSize > 0 && sampleRate > 0
    ensures seconds >= 0.0 ==> r >= 0
    ensures (r - 1) as real * SecondsPerBuffer(bufferSize, sampleRate) < seconds
    ensures seconds <= r as real * SecondsPerBuffer(bufferSize, sampleRate)
  {
    var spb := SecondsPerBuffer(bufferSize, sampleRate);
    CeilScaled(seconds, spb);
    Ceil(seconds / spb)
  }

  /** ceil(x / d) buffers of length d are the fewest that cover x. */
  lemma CeilScaled(x: real, d: real)
    requires d > 0.0
    ensures x >= 0.0 ==> Ceil(x / d) >= 0
    ensures (Ceil(x / d) - 1) as real * d < x <= Ceil(x / d) as real * d
  {
    var q := x / d;
    var c := Ceil(q);
    DivMul(x, d);
    assert q * d == x;
    MulStrict((c - 1) as real, q, d);
    assert (c - 1) as real * d < x;
    MulMono(q, c as real, d);
    assert q * d <= c as real * d;
    assert x <= c as real * d;
    if x >= 0.0 {
      DivNonNegative(x, d);
    }
  }

  lemma DivNonNegative(x: real, d: real)
    requires x >= 0.0 && d > 0.0
    ensures x / d >= 0.0
  {
  }

  /** Real division undone by multiplication. */
  lemma DivMul(x: real, d: real)
    requires d != 0.0
    ensures (x / d) * d == x
  {
  }

  /** Multiplying by a positive real keeps the order. */
  lemma MulStrict(a: real, b: real, k: real)
    requires a < b && k > 0.0
    ensures a * k < b * k
  {
  }

  lemma MulMono(a: real, b: real, k: real)
    requires a <= b && k > 0.0
    ensures a * k <= b * k
  {
  }

  /**
   * `n` buffers of `spb` seconds are the fewest, counting from zero, whose
   * total duration reaches `seconds`.
   */
  ghost predicate LeastCover(n: nat, seconds: real, spb: real)
  {
    seconds <= n as real * spb && (n == 0 || (n - 1) as real * spb < seconds)
  }

  /** At most one count is the least cover of a duration. */
  lemma LeastCoverUnique(n: nat, m: nat, seconds: real, spb: real)
    requires spb > 0.0 && LeastCover(n, seconds, spb) && LeastCover(m, seconds, spb)
    ensures n == m
  {
    if n < m {
      FewerFallShort(n, m, seconds, spb);
    } else if m < n {
      FewerFallShort(m, n, seconds, spb);
    }
  }

  /** Fewer buffers than the least cover do not reach the duration. */
  lemma FewerFallShort(n: nat, m: nat, seconds: real, spb: real)
    requires spb > 0.0 && n < m && LeastCover(m, seconds, spb)
    ensures n as real * spb < seconds
  {
    MulMono(n as real, (m - 1) as real, spb);
  }

  /**
   * The reload value a counter gets from `seconds`. The callback only ever
   * compares a counter with zero and counts it down while it is positive, so
   * the negative ceiling a negative duration yields acts as zero.
   */
  function ReloadCount(seconds: real, bufferSize: nat, sampleRate: nat): (n: nat)
    requires bufferSize > 0 && sampleRate > 0
    ensures LeastCover(n, seconds, SecondsPerBuffer(bufferSize, sampleRate))
    ensures seconds >= 0.0 ==> n == BufferCount(seconds, bufferSize, sampleRate)
    ensures seconds <= 0.0 ==> n == 0
  {
    var spb := SecondsPerBuffer(bufferSize, sampleRate);
    var r := BufferCount(seconds, bufferSize, sampleRate);
    if r < 0 then
      MulStrict(r as real, 0.0, spb);
      0
    else if seconds <= 0.0 then
      assert r <= 0 by {
        if r > 0 {
          MulMono(0.0, (r - 1) as real, spb);
        }
      }
      0
    else
      r
  }

  /** With the default configuration the counts are 67 (minimum), 17 (silence) and 1000 (timeout). */
  lemma DefaultCounts()
    ensures BufferCount(DefaultMinSec, DefaultBufferSize, DefaultSampleRate) == 67
    ensures BufferCount(DefaultSilenceSec, DefaultBufferSize, DefaultSampleRate) == 17
    ensures BufferCount(DefaultTimeoutSec, DefaultBufferSize, DefaultSampleRate) == 1000
  {
    var spb := SecondsPerBuffer(DefaultBufferSize, DefaultSampleRate);
    assert spb == 0.03;
  }

  /** A negative configured device index selects the default device (None). */
  function AudioDeviceIndex(configured: Option<int>): (r: Option<nat>)
  {
    if configured.Some? && configured.value >= 0 then Some(configured.value) else None
  }

  /** The index as configured, before normalisation. */
  function AsConfigured(index: Option<nat>): Option<int>
  {
    if index.Some? then Some(index.value as int) else None
  }

  /**
   * The documented `-1`, like any negative index and like no index at all,
   * selects the default device; every non-negative index is kept; and the
   * normalisation is idempotent.
   */
  lemma DeviceIndexChoice(configured: Option<int>)
    ensures AudioDeviceIndex(Some(-1)) == None && AudioDeviceIndex(None) == None
    ensures configured.Some? && configured.value >= 0 ==> AudioDeviceIndex(configured) == Some(configured.value)
    ensures configured.Some? && configured.value < 0 ==> AudioDeviceIndex(configured) == None
    ensures AudioDeviceIndex(AsConfigured(AudioDeviceIndex(configured))) == AudioDeviceIndex(configured)
  {
  }
}
