/** Window sizing of the segmentation loop, in exact integer arithmetic.

    Durations are whole microseconds. One chunk holds CHUNK samples at
    FRAME_RATE samples per second, so it lasts CHUNK * US_PER_SECOND /
    FRAME_RATE microseconds (30000 µs = 30 ms). */
module Timing {

  /** Samples per chunk read from the capture device. */
  const CHUNK: nat := 480
  /** Samples per second. */
  const FRAME_RATE: nat := 16000
  const US_PER_SECOND: nat := 1000000
  /** The latency the engine assumes before its first recognition: 0.01 s. */
  const INITIAL_LATENCY_US: nat := 10000

  /** The smallest r with r * b >= a: the ceiling of a / b. */
  function CeilDiv(a: nat, b: nat): (r: nat)
    requires b > 0
    ensures r * b >= a
    ensures r == 0 || (r - 1) * b < a
  {
    var q := (a + b - 1) / b;
    assert a + b - 1 == q * b + (a + b - 1) % b;
    assert (q - 1) * b == q * b - b;
    q
  }

  lemma {:induction false} MulMonotone(x: nat, y: nat, b: nat)
    requires x <= y
    ensures x * b <= y * b
  {
    if x < y {
      MulMonotone(x, y - 1, b);
      assert (y - 1) * b + b == y * b;
    }
  }

  /** Rounding up the quotient keeps the order of the dividends. */
  lemma CeilDivMonotone(a: nat, a': nat, b: nat)
    requires b > 0 && a <= a'
    ensures CeilDiv(a, b) <= CeilDiv(a', b)
  {
    var r, r' := CeilDiv(a, b), CeilDiv(a', b);
    if r > r' {
      MulMonotone(r', r - 1, b);
    }
  }

  /** `chunks_num` of the collection pass: the number of chunk durations
      that cover the last recognition latency, rounded up. */
  function WindowChunkCount(latencyUs: nat): (n: nat)
    ensures n * CHUNK * US_PER_SECOND >= latencyUs * FRAME_RATE
    ensures n == 0 || (n - 1) * CHUNK * US_PER_SECOND < latencyUs * FRAME_RATE
  {
    CeilDiv(latencyUs * FRAME_RATE, CHUNK * US_PER_SECOND)
  }

  /** How many chunks one collection pass appends. The pass is a do-while
      loop, so it appends one chunk even when `chunks_num` is 0; otherwise it
      appends exactly `chunks_num`: the fewest whole chunks, at least one,
      whose duration covers the latency. */
  function ChunksPerPass(latencyUs: nat): (n: nat)
    ensures n >= 1
    ensures n * CHUNK * US_PER_SECOND >= latencyUs * FRAME_RATE
    ensures n == 1 || (n - 1) * CHUNK * US_PER_SECOND < latencyUs * FRAME_RATE
  {
    var k := WindowChunkCount(latencyUs);
    if k >= 1 then k else 1
  }

  /** A longer last recognition never shortens the next collection pass. */
  lemma ChunksPerPassMonotone(latencyUs: nat, latencyUs': nat)
    requires latencyUs <= latencyUs'
    ensures ChunksPerPass(latencyUs) <= ChunksPerPass(latencyUs')
  {
    CeilDivMonotone(latencyUs * FRAME_RATE, latencyUs' * FRAME_RATE, CHUNK * US_PER_SECOND);
  }

  /** `cache_chunk_num`: the number of chunks of the sliding window of
      `slidingDur` seconds, rounded up; a forced flush happens once the
      current window holds this many chunks. */
  function CacheChunkNum(slidingDur: nat): (n: nat)
    ensures n * CHUNK >= slidingDur * FRAME_RATE
    ensures n == 0 || (n - 1) * CHUNK < slidingDur * FRAME_RATE
    ensures slidingDur > 0 ==> n >= 1
  {
    CeilDiv(slidingDur * FRAME_RATE, CHUNK)
  }

  /** The values the shipped configuration produces: a first pass of one
      chunk, twenty chunks after a 600 ms recognition, and a window of
      1000 chunks for the 30 s sliding duration. */
  lemma ConfiguredWindowSizes()
    ensures ChunksPerPass(INITIAL_LATENCY_US) == 1
    ensures ChunksPerPass(600000) == 20
    ensures ChunksPerPass(0) == 1
    ensures CacheChunkNum(30) == 1000
  {
    assert WindowChunkCount(600000) == 20 by {
      var n := WindowChunkCount(600000);
      assert n * 480000000 >= 9600000000;
      assert n == 0 || (n - 1) * 480000000 < 9600000000;
    }
  }
}
