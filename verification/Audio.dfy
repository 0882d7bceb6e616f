/** Sample/millisecond conversion and cropping by absolute time.

Both conversions round half up in integer arithmetic.  A buffer is a non-empty run of frames (one
value per channel) anchored at an absolute sample index.
*/
module Audio {
  import opened Arithmetic
  import opened Options
  import opened Timeline

  const MS_PER_SECOND := 1000

  /** `None` stands for the ValueError on a non-positive rate or a negative index. */
  function SamplesToMs(sampleIndex: int, rate: int): (r: Option<nat>)
    ensures r.Some? <==> rate > 0 && sampleIndex >= 0
    ensures r.Some? ==>
      2 * rate * r.value - rate <= 2 * sampleIndex * MS_PER_SECOND < 2 * rate * r.value + rate + 1
  {
    if rate <= 0 || sampleIndex < 0 then None
    else
      var x := sampleIndex * MS_PER_SECOND + rate / 2;
      FloorBounds(x, rate);
      Some(x / rate)
  }

  function MsToSamples(ms: int, rate: int): (r: Option<nat>)
    ensures r.Some? <==> rate > 0 && ms >= 0
    ensures r.Some? ==> MS_PER_SECOND * r.value - 500 <= ms * rate < MS_PER_SECOND * r.value + 500
  {
    if rate <= 0 || ms < 0 then None
    else
      assert ms * rate >= 0;
      Some((ms * rate + MS_PER_SECOND / 2) / MS_PER_SECOND)
  }

  lemma MsToSamplesMonotone(a: nat, b: nat, rate: int)
    requires a <= b && rate > 0
    ensures MsToSamples(a, rate).value <= MsToSamples(b, rate).value
  {
    assert a * rate <= b * rate;
  }

  lemma SamplesToMsMonotone(a: nat, b: nat, rate: int)
    requires a <= b && rate > 0
    ensures SamplesToMs(a, rate).value <= SamplesToMs(b, rate).value
  {
    var x, y := SamplesToMs(a, rate).value, SamplesToMs(b, rate).value;
    var u, v := a * MS_PER_SECOND + rate / 2, b * MS_PER_SECOND + rate / 2;
    FloorBounds(u, rate);
    FloorBounds(v, rate);
    assert u / rate == x && v / rate == y;
    if y < x {
      MulMonotone(rate, y + 1, x);
    }
  }

  /** Milliseconds to samples and back. */
  function RoundTrip(ms: nat, rate: int): nat
    requires rate > 0
  {
    SamplesToMs(MsToSamples(ms, rate).value, rate).value
  }

  lemma RoundTripExact(ms: nat, rate: int)
    requires rate >= 1000
    ensures RoundTrip(ms, rate) == ms
  {
    var n := MsToSamples(ms, rate).value;
    var x := n * MS_PER_SECOND + rate / 2;
    FloorBounds(x, rate);
    if rate == 1000 {
      assert n == ms;
    }
    assert rate * ms <= x < rate * ms + rate;
    FloorUnique(rate, x / rate, ms, x);
  }

  lemma {:induction false} ExactForcesSamples(m: nat, rate: int)
    requires rate > 0 && forall ms: nat :: RoundTrip(ms, rate) == ms
    ensures MsToSamples(m, rate).value >= m
  {
    if m > 0 {
      ExactForcesSamples(m - 1, rate);
      MsToSamplesMonotone(m - 1, m, rate);
      assert RoundTrip(m - 1, rate) == m - 1 && RoundTrip(m, rate) == m;
    }
  }

  /** The trip through samples loses no millisecond exactly at rates of 1 kHz and above. */
  lemma RoundTripIffKilohertz(rate: int)
    requires rate > 0
    ensures (forall ms: nat :: RoundTrip(ms, rate) == ms) <==> rate >= 1000
  {
    if forall ms: nat :: RoundTrip(ms, rate) == ms {
      ExactForcesSamples(1000, rate);
    }
    if rate >= 1000 {
      forall ms: nat
        ensures RoundTrip(ms, rate) == ms
      {
        RoundTripExact(ms, rate);
      }
    }
  }

  /** Samples to milliseconds and back: off by at most half a millisecond plus half a sample. */
  lemma ReverseTripError(n: nat, rate: int)
    requires rate > 0
    ensures var back := MsToSamples(SamplesToMs(n, rate).value, rate).value;
      -(rate + 1000) <= 2000 * (back - n) <= rate + 1000
  {
    var m := SamplesToMs(n, rate).value;
    var x := n * MS_PER_SECOND + rate / 2;
    FloorBounds(x, rate);
    assert m == x / rate;
    assert m * rate == rate * m;
  }

  // ---- crop_ms ----------------------------------------------------------------------------

  datatype RawBuffer<T> = Buffer(frames: seq<T>, rate: int, start: int) {
    function End(): int {
      start + |frames|
    }
  }

  ghost predicate ValidBuffer<T>(b: RawBuffer<T>) {
    b.frames != [] && b.rate > 0 && b.start >= 0
  }

  /** The part of the buffer between two absolute sample indices. */
  function CropSamples<T>(b: RawBuffer<T>, from: int, to: int): (r: Option<RawBuffer<T>>)
    requires ValidBuffer(b)
    ensures r.Some? ==> ValidBuffer(r.value) && r.value.rate == b.rate
  {
    var start, end := Max(from, b.start), Min(to, b.End());
    if end <= start then None
    else Some(Buffer(b.frames[start - b.start..end - b.start], b.rate, start))
  }

  /** `None` when the interval does not meet the buffer. */
  function CropMs<T>(b: RawBuffer<T>, interval: TimeInterval): (r: Option<RawBuffer<T>>)
    requires ValidBuffer(b)
    ensures r.Some? ==> ValidBuffer(r.value) && r.value.rate == b.rate
  {
    CropSamples(b, MsToSamples(interval.start, b.rate).value, MsToSamples(interval.end, b.rate).value)
  }

  predicate Holds<T>(b: RawBuffer<T>, n: int) {
    b.start <= n < b.End()
  }

  function FrameAt<T>(b: RawBuffer<T>, n: int): T
    requires Holds(b, n)
  {
    b.frames[n - b.start]
  }

  /** A crop holds exactly the absolute samples the buffer holds within the interval, each with its
  frame; there is none exactly when there is no such sample. */
  lemma CropKeepsFrames<T>(b: RawBuffer<T>, interval: TimeInterval)
    requires ValidBuffer(b)
    ensures var from, to := MsToSamples(interval.start, b.rate).value, MsToSamples(interval.end, b.rate).value;
      var crop := CropMs(b, interval);
      && (crop.None? <==> forall n :: !(Holds(b, n) && from <= n < to))
      && (crop.Some? ==> forall n :: Holds(crop.value, n) <==> Holds(b, n) && from <= n < to)
      && (crop.Some? ==> forall n :: Holds(crop.value, n) ==> FrameAt(crop.value, n) == FrameAt(b, n))
  {
    hide MsToSamples;
    var from, to := MsToSamples(interval.start, b.rate).value, MsToSamples(interval.end, b.rate).value;
    var start, end := Max(from, b.start), Min(to, b.End());
    if start < end {
      assert Holds(b, start) && from <= start < to;
      var r := CropMs(b, interval).value;
      forall n | Holds(r, n)
        ensures FrameAt(r, n) == FrameAt(b, n)
      {
        assert r.frames[n - start] == b.frames[start - b.start..end - b.start][n - start];
      }
    }
  }

  lemma SliceOfSlice<T>(s: seq<T>, i: nat, j: nat, k: nat, l: nat)
    requires i <= j <= |s| && k <= l <= j - i
    ensures s[i..j][k..l] == s[i + k..i + l]
  {
    var a, b := s[i..j][k..l], s[i + k..i + l];
    forall t | 0 <= t < l - k
      ensures a[t] == b[t]
    {
      assert a[t] == s[i..j][k + t];
    }
  }

  lemma CropSamplesCompose<T>(b: RawBuffer<T>, f1: int, t1: int, f2: int, t2: int)
    requires ValidBuffer(b)
    ensures var once := CropSamples(b, f1, t1);
      (if once.None? then None else CropSamples(once.value, f2, t2))
      == CropSamples(b, Max(f1, f2), Min(t1, t2))
  {
    var lo, hi := Max(f1, b.start), Min(t1, b.End());
    var start, end := Max(Max(f1, f2), b.start), Min(Min(t1, t2), b.End());
    assert start == Max(f2, lo) && end == Min(t2, hi);
    var once := CropSamples(b, f1, t1);
    if lo < hi {
      assert once == Some(Buffer(b.frames[lo - b.start..hi - b.start], b.rate, lo));
      assert once.value.End() == hi;
      if start < end {
        SliceOfSlice(b.frames, lo - b.start, hi - b.start, start - lo, end - lo);
      }
    }
  }

  function CropTwice<T>(b: RawBuffer<T>, first: TimeInterval, second: TimeInterval): Option<RawBuffer<T>>
    requires ValidBuffer(b)
  {
    var once := CropMs(b, first);
    if once.None? then None else CropMs(once.value, second)
  }

  lemma SamplesOfMax(a: nat, b: nat, rate: int)
    requires rate > 0
    ensures MsToSamples(Max(a, b), rate).value == Max(MsToSamples(a, rate).value, MsToSamples(b, rate).value)
    ensures MsToSamples(Min(a, b), rate).value == Min(MsToSamples(a, rate).value, MsToSamples(b, rate).value)
  {
    if a <= b {
      MsToSamplesMonotone(a, b, rate);
    } else {
      MsToSamplesMonotone(b, a, rate);
    }
  }

  /** Cropping twice is cropping by the intersection; disjoint intervals leave nothing. */
  lemma CropComposes<T>(b: RawBuffer<T>, first: TimeInterval, second: TimeInterval)
    requires ValidBuffer(b)
    ensures CropTwice(b, first, second) ==
      (var both := Clamp(first, second); if both.None? then None else CropMs(b, both.value))
  {
    hide MsToSamples;
    var rate := b.rate;
    var start, end := Max(first.start, second.start), Min(first.end, second.end);
    SamplesOfMax(first.start, second.start, rate);
    SamplesOfMax(first.end, second.end, rate);
    if end <= start {
      MsToSamplesMonotone(end, start, rate);
    }
    CropSamplesCompose(b, MsToSamples(first.start, rate).value, MsToSamples(first.end, rate).value,
                       MsToSamples(second.start, rate).value, MsToSamples(second.end, rate).value);
  }
}
