/** PCM frames and the ring of recent samples. */
module Ring {
  import opened PySlices

  type Byte = b: int | 0 <= b < 256

  /** A signed 16-bit sample, low byte first. */
  function Sample(low: Byte, high: Byte): (r: int)
    ensures -32768 <= r < 32768 && (r - low) % 256 == 0
  {
    var u := low + 256 * high;
    if u >= 32768 then u - 65536 else u
  }

  function Decode(payload: seq<Byte>): (r: seq<int>)
    requires |payload| % 2 == 0
    ensures |r| == |payload| / 2
  {
    if payload == [] then [] else [Sample(payload[0], payload[1])] + Decode(payload[2..])
  }

  lemma {:induction false} DecodeConcat(a: seq<Byte>, b: seq<Byte>)
    requires |a| % 2 == 0 && |b| % 2 == 0
    ensures Decode(a + b) == Decode(a) + Decode(b)
  {
    if a == [] {
      assert a + b == b;
    } else {
      assert (a + b)[2..] == a[2..] + b;
      DecodeConcat(a[2..], b);
    }
  }

  /** The two bytes of a sample in two's complement, low byte first. */
  function Encode(samples: seq<int>): (r: seq<Byte>)
    requires forall k :: 0 <= k < |samples| ==> -32768 <= samples[k] < 32768
    ensures |r| == 2 * |samples|
    ensures forall k :: 0 <= k < |samples| ==> r[2 * k] == samples[k] % 256 && r[2 * k + 1] == samples[k] / 256 % 256
  {
    if samples == [] then []
    else
      var rest := Encode(samples[1..]);
      var r := [samples[0] % 256, samples[0] / 256 % 256] + rest;
      assert forall k :: 0 < k < |samples| ==> r[2 * k] == rest[2 * (k - 1)] && r[2 * k + 1] == rest[2 * (k - 1) + 1];
      r
  }

  /** Decoding gives back every sequence of 16-bit samples. */
  lemma {:induction false} DecodeEncoded(samples: seq<int>)
    requires forall k :: 0 <= k < |samples| ==> -32768 <= samples[k] < 32768
    ensures Decode(Encode(samples)) == samples
  {
    if samples != [] {
      DecodeEncoded(samples[1..]);
      assert Encode(samples)[2..] == Encode(samples[1..]);
      assert Encode(samples)[0] == samples[0] % 256 && Encode(samples)[1] == samples[0] / 256 % 256;
      assert samples == [samples[0]] + samples[1..];
    }
  }

  function Joined(frames: seq<seq<Byte>>): seq<Byte> {
    if frames == [] then [] else Joined(frames[..|frames| - 1]) + frames[|frames| - 1]
  }

  ghost predicate Aligned(frames: seq<seq<Byte>>) {
    forall i :: 0 <= i < |frames| ==> |frames[i]| % 2 == 0
  }

  /** The ring and the sample counter after some frames. */
  function Ingest(frames: seq<seq<Byte>>, ring: nat): (seq<int>, nat)
    requires Aligned(frames)
  {
    if frames == [] then ([], 0)
    else
      var (samples, total) := Ingest(frames[..|frames| - 1], ring);
      var frame := Decode(frames[|frames| - 1]);
      (Keep(samples + frame, ring), total + |frame|)
  }

  lemma {:induction false} JoinedAligned(frames: seq<seq<Byte>>)
    requires Aligned(frames)
    ensures |Joined(frames)| % 2 == 0
  {
    if frames != [] {
      JoinedAligned(frames[..|frames| - 1]);
    }
  }

  /** However the same bytes are cut into frames, the ring ends up with the last samples of the whole
  stream and the counter with their number. */
  lemma {:induction false} FramingIrrelevant(frames: seq<seq<Byte>>, ring: nat)
    requires Aligned(frames)
    ensures |Joined(frames)| % 2 == 0
    ensures Ingest(frames, ring) == (Keep(Decode(Joined(frames)), ring), |Decode(Joined(frames))|)
  {
    JoinedAligned(frames);
    if frames != [] {
      var init, last := frames[..|frames| - 1], frames[|frames| - 1];
      FramingIrrelevant(init, ring);
      DecodeConcat(Joined(init), last);
      KeepAfterAppend(Decode(Joined(init)), Decode(last), ring);
      hide Decode, Keep;
    }
  }

  lemma KeepIsSuffix(stream: seq<int>, n: nat)
    ensures |Keep(stream, n)| <= |stream| && Keep(stream, n) == stream[|stream| - |Keep(stream, n)|..]
    ensures Keep(stream, n) == [] <==> stream == []
    ensures n >= 1 ==> |Keep(stream, n)| == if |stream| <= n then |stream| else n
  {
  }

  lemma TailIsSuffix(s: seq<int>, n: nat)
    ensures |Tail(s, n)| <= |s| && Tail(s, n) == s[|s| - |Tail(s, n)|..]
    ensures Tail(s, n) == [] <==> s == []
    ensures n >= 1 ==> |Tail(s, n)| == if |s| <= n then |s| else n
  {
  }

  /** The rolling window is the end of the whole stream, from the start it is labelled with. */
  lemma WindowIsStreamSuffix(stream: seq<int>, ring: nat, window: nat)
    ensures var chunk := Tail(Keep(stream, ring), window);
      && |chunk| <= |stream|
      && chunk == stream[|stream| - |chunk|..]
      && (chunk == [] <==> stream == [])
      && (ring >= 1 && window >= 1 ==> |chunk| == SmallerOf(|stream|, SmallerOf(ring, window)))
  {
    KeepIsSuffix(stream, ring);
    var kept := Keep(stream, ring);
    TailIsSuffix(kept, window);
    hide Keep, Tail;
    var chunk := Tail(kept, window);
    assert kept[|kept| - |chunk|..] == stream[|stream| - |chunk|..];
  }

  function SmallerOf(a: nat, b: nat): nat {
    if a <= b then a else b
  }
}
