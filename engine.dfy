/** `WisperLoop`: the segmentation engine as an object whose methods update
    its fields in place. Every method's effect is stated through the
    functions of module Segmentation on the snapshot of the fields. */
module Engine {
  import opened Timing
  import opened Segmentation
  import opened SegmentationProperties

  class WisperLoop {
    var cacheFrames: seq<Frame>
    var cacheFramesStatus: seq<bool>
    var cacheSpeech: seq<string>
    var speechContent: string
    var chunksCount: int
    /** Microseconds the last recognition took. */
    var timeSpeedLastRecognization: nat

    const pauseChunksNumThreshold: nat
    const cacheChunkNum: nat
    /** The pause marker of the text compiler, kept opaque. */
    const pauseFlag: string

    /** The fields as a value. */
    function Model(): Snapshot
      reads this
    {
      Snapshot(cacheFrames, cacheFramesStatus, cacheSpeech, speechContent,
               chunksCount, timeSpeedLastRecognization)
    }

    function Settings(): Config {
      Config(pauseChunksNumThreshold, cacheChunkNum, pauseFlag)
    }

    predicate Valid()
      reads this
    {
      Segmentation.Valid(Model())
    }

    /** The engine for a sliding window of `slidingDur` seconds and the
        given pause marker: empty caches, an empty transcript and the
        nominal first latency of 0.01 s. */
    constructor (slidingDur: nat, pauseFlag: string)
      ensures Model() == Initial()
      ensures Settings() == DefaultConfig(slidingDur, pauseFlag)
      ensures Valid()
    {
      cacheSpeech := [];
      cacheFrames := [];
      cacheFramesStatus := [];
      pauseChunksNumThreshold := PAUSE_CHUNKS_NUM_THRESHOLD;
      speechContent := "";
      timeSpeedLastRecognization := INITIAL_LATENCY_US;
      chunksCount := 0;
      this.pauseFlag := pauseFlag;
      cacheChunkNum := CacheChunkNum(slidingDur);
    }

    /** `is_need_recognization`: or-accumulates the speech flags of every
        chunk of the session. */
    method IsNeedRecognization() returns (need: bool)
      ensures need == AnySpeech(cacheFramesStatus)
    {
      need := false;
      for i := 0 to |cacheFramesStatus|
        invariant need == AnySpeech(cacheFramesStatus[..i])
      {
        assert cacheFramesStatus[..i + 1] == cacheFramesStatus[..i] + [cacheFramesStatus[i]];
        AnySpeechConcat(cacheFramesStatus[..i], [cacheFramesStatus[i]]);
        assert AnySpeech([cacheFramesStatus[i]]) == cacheFramesStatus[i];
        need := need || cacheFramesStatus[i];
      }
      assert cacheFramesStatus[..|cacheFramesStatus|] == cacheFramesStatus;
    }

    /** `is_need_pause`: false while the window is shorter than the
        threshold; otherwise and-accumulates "silent" over the flags at
        indices -1, -2, ..., -threshold of the session-long flag list. */
    method IsNeedPause() returns (need: bool)
      requires |cacheFramesStatus| >= |cacheFrames|
      ensures need == NeedPause(Model(), pauseChunksNumThreshold)
    {
      if |cacheFrames| < pauseChunksNumThreshold {
        return false;
      }
      need := true;
      var n := |cacheFramesStatus|;
      for i := 0 to pauseChunksNumThreshold
        invariant need <==> forall k :: n - i <= k < n ==> !cacheFramesStatus[k]
      {
        var index := n - i - 1;
        need := need && !cacheFramesStatus[index];
      }
    }

    /** `__process_cache`: commits the last recognised text, with the pause
        marker when `isPause`, and resets the window. Returns false when the
        read of `cache_speech[-1]` raises IndexError; the counter is zeroed
        by then. */
    method ProcessCache(isPause: bool) returns (ok: bool)
      modifies this
      ensures var r := Segmentation.ProcessCache(old(Model()), Settings(), isPause);
              ok == r.Running? && Model() == r.state
    {
      chunksCount := 0;
      if |cacheSpeech| == 0 {
        return false;
      }
      speechContent := speechContent + cacheSpeech[|cacheSpeech| - 1];
      if isPause {
        speechContent := speechContent + pauseFlag;
      }
      cacheFrames := [];
      cacheSpeech := [];
      ok := true;
    }

    /** One outer iteration of `run`: pop and collect one pass of chunks
        from `queue` (returning what is left of it), run the recognizer when
        some flag is speech (its output is `rec`), then the pause commit and
        the forced flush. Returns false when a commit raised IndexError,
        which ends the run loop. */
    method Step(queue: seq<Tagged>, rec: Recognition) returns (rest: seq<Tagged>, ok: bool)
      requires |cacheFramesStatus| >= |cacheFrames|
      requires |queue| >= ChunksPerPass(timeSpeedLastRecognization)
      modifies this
      ensures rest == queue[ChunksPerPass(old(timeSpeedLastRecognization))..]
      ensures var r := Segmentation.Step(old(Model()), Settings(), queue, rec);
              ok == r.Running? && Model() == r.state
    {
      ghost var start := Model();
      ghost var m := ChunksPerPass(timeSpeedLastRecognization);
      var chunksNum := WindowChunkCount(timeSpeedLastRecognization);
      var i := 0;
      while true
        invariant 0 <= i < m
        invariant cacheFrames == start.frames + FramesOf(queue[..i])
        invariant cacheFramesStatus == start.status + FlagsOf(queue[..i])
        invariant chunksCount == start.chunksCount + i
        invariant cacheSpeech == start.speech && speechContent == start.content
        invariant timeSpeedLastRecognization == start.lastLatency
        decreases m - i
      {
        var chunk := queue[i];
        assert FramesOf(queue[..i + 1]) == FramesOf(queue[..i]) + [chunk.frame];
        assert FlagsOf(queue[..i + 1]) == FlagsOf(queue[..i]) + [chunk.isSpeech];
        cacheFrames := cacheFrames + [chunk.frame];
        cacheFramesStatus := cacheFramesStatus + [chunk.isSpeech];
        chunksCount := chunksCount + 1;
        i := i + 1;
        if i >= chunksNum {
          break;
        }
      }
      rest := queue[i..];
      assert Model() == Collect(start, queue[..m]);

      var needRecognition := IsNeedRecognization();
      if needRecognition {
        cacheSpeech := cacheSpeech + [rec.text];
        timeSpeedLastRecognization := rec.latencyUs;
      }
      assert Model() == Collected(start, queue, rec);

      var needPause := IsNeedPause();
      if needPause {
        ok := ProcessCache(true);
        if !ok {
          return;
        }
      }
      if chunksCount >= cacheChunkNum {
        ok := ProcessCache(false);
        if !ok {
          return;
        }
      }
      ok := true;
    }

    /** The run loop of a freshly started session: iterations follow one
        another while `queue` can feed a whole pass and `recs` holds the
        recognizer's output for the iteration; an IndexError ends it and
        returns false. */
    method Run(queue: seq<Tagged>, recs: seq<Recognition>) returns (ok: bool)
      requires Valid() && cacheFrames == []
      modifies this
      ensures var r := RunFrom(old(Model()), Settings(), queue, recs);
              ok == r.Running? && Model() == r.state
    {
      chunksCount := 0;
      var q, k := queue, 0;
      while k < |recs| && |q| >= ChunksPerPass(timeSpeedLastRecognization)
        invariant 0 <= k <= |recs|
        invariant |cacheFramesStatus| >= |cacheFrames|
        invariant RunFrom(Model(), Settings(), q, recs[k..]) == RunFrom(old(Model()), Settings(), queue, recs)
        decreases |recs| - k
      {
        ghost var before, beforeQ := Model(), q;
        assert recs[k..][1..] == recs[k + 1..];
        var done;
        q, done := Step(q, recs[k]);
        if !done {
          assert RunFrom(before, Settings(), beforeQ, recs[k..]) == IndexError(Model());
          return false;
        }
        k := k + 1;
      }
      ok := true;
    }
  }
}
