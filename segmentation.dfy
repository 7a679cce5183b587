/** The segmentation state of `WisperLoop` as a value, and one outer
    iteration of its run loop as a function of that value.

    The class in module Engine keeps these fields as mutable `seq`s and
    states every method's effect through the functions here. */
module Segmentation {
  import opened Timing

  /** One raw chunk as popped from the hand-off queue: opaque bytes. */
  type Frame = seq<bv8>

  /** A popped chunk together with the voice-activity verdict for it. */
  datatype Tagged = Tagged(frame: Frame, isSpeech: bool)

  /** What the recognizer returns this iteration: the decoded text and how
      long the call took, in microseconds. */
  datatype Recognition = Recognition(text: string, latencyUs: nat)

  /** The engine's fixed settings: `pause_chunks_num_threshold`,
      `cache_chunk_num` and the pause marker of the text compiler. */
  datatype Config = Config(pauseThreshold: nat, cacheChunkNum: nat, pauseFlag: string)

  /** The engine's mutable fields: `cache_frames`, `cache_frames_status`,
      `cache_speech`, `speech_content`, `chunks_count` and
      `time_speed_last_recognization` (in microseconds). */
  datatype Snapshot = Snapshot(
    frames: seq<Frame>,
    status: seq<bool>,
    speech: seq<string>,
    content: string,
    chunksCount: int,
    lastLatency: nat)

  /** Running: the iteration finished. IndexError: `cache_speech[-1]` was
      read on an empty list; the exception ends the run loop and the state
      is the one at the raise. */
  datatype Outcome = Running(state: Snapshot) | IndexError(state: Snapshot)

  const PAUSE_CHUNKS_NUM_THRESHOLD: nat := 5

  /** The settings the engine is built with, for a sliding window of
      `slidingDur` seconds. */
  function DefaultConfig(slidingDur: nat, pauseFlag: string): (c: Config)
    ensures c.pauseThreshold == 5
    ensures c.cacheChunkNum == CacheChunkNum(slidingDur) && c.pauseFlag == pauseFlag
    ensures slidingDur > 0 ==> c.cacheChunkNum >= 1
  {
    Config(PAUSE_CHUNKS_NUM_THRESHOLD, CacheChunkNum(slidingDur), pauseFlag)
  }

  /** The fields right after construction: consistent, and sized so that
      the first collection pass takes a single chunk. */
  function Initial(): (s: Snapshot)
    ensures Valid(s) && s.frames == [] && s.content == ""
    ensures s.status == [] && s.speech == [] && s.lastLatency == INITIAL_LATENCY_US
    ensures ChunksPerPass(s.lastLatency) == 1
  {
    ConfiguredWindowSizes();
    Snapshot([], [], [], "", 0, INITIAL_LATENCY_US)
  }

  /** Flags and frames are appended together and only the frames are ever
      cleared, so there are at least as many flags as frames; the chunk
      counter tracks the frames of the current window. */
  predicate Valid(s: Snapshot) {
    |s.status| >= |s.frames| && s.chunksCount == |s.frames|
  }

  /** The flags of the chunks of the current window: the last |frames|
      entries of the session-long flag list. */
  function Window(s: Snapshot): (w: seq<bool>)
    requires |s.status| >= |s.frames|
    ensures |w| == |s.frames|
  {
    s.status[|s.status| - |s.frames|..]
  }

  /** `is_need_recognization`: some flag of the whole session is speech;
      the flag list is never cleared, so this reaches back before the
      current window. */
  predicate AnySpeech(flags: seq<bool>) {
    exists i :: 0 <= i < |flags| && flags[i]
  }

  /** `is_need_pause`: the window holds at least `t` chunks and the last `t`
      flags are all silence. The length test is on the frames, the vote on
      the tail of the session-long flag list. */
  predicate NeedPause(s: Snapshot, t: nat)
    requires |s.status| >= |s.frames|
  {
    |s.frames| >= t && forall k :: |s.status| - t <= k < |s.status| ==> !s.status[k]
  }

  function FramesOf(cs: seq<Tagged>): (r: seq<Frame>)
    ensures |r| == |cs|
    ensures forall i :: 0 <= i < |cs| ==> r[i] == cs[i].frame
  {
    seq(|cs|, i requires 0 <= i < |cs| => cs[i].frame)
  }

  function FlagsOf(cs: seq<Tagged>): (r: seq<bool>)
    ensures |r| == |cs|
    ensures forall i :: 0 <= i < |cs| ==> r[i] == cs[i].isSpeech
  {
    seq(|cs|, i requires 0 <= i < |cs| => cs[i].isSpeech)
  }

  /** The collection pass: each popped chunk is appended to the frames, its
      flag to the flags, and the counter goes up by one. */
  function Collect(s: Snapshot, cs: seq<Tagged>): (r: Snapshot)
    requires |s.status| >= |s.frames|
    ensures |r.status| >= |r.frames|
    ensures r.frames == s.frames + FramesOf(cs) && r.chunksCount == s.chunksCount + |cs|
    ensures r.status == s.status + FlagsOf(cs)
    ensures Window(r) == Window(s) + FlagsOf(cs)
    ensures r.speech == s.speech && r.content == s.content && r.lastLatency == s.lastLatency
  {
    var r := s.(frames := s.frames + FramesOf(cs), status := s.status + FlagsOf(cs),
                chunksCount := s.chunksCount + |cs|);
    assert Window(r) == Window(s) + FlagsOf(cs);
    r
  }

  /** The recognition decision: when some flag of the session is speech,
      the recognizer's text is appended and its latency replaces the last
      one; otherwise nothing changes. */
  function Recognize(s: Snapshot, rec: Recognition): (r: Snapshot)
    ensures AnySpeech(s.status) ==> r.speech == s.speech + [rec.text] && r.lastLatency == rec.latencyUs
    ensures !AnySpeech(s.status) ==> r == s
    ensures r.frames == s.frames && r.status == s.status
    ensures r.content == s.content && r.chunksCount == s.chunksCount
  {
    if AnySpeech(s.status) then s.(speech := s.speech + [rec.text], lastLatency := rec.latencyUs)
    else s
  }

  /** `__process_cache`: zero the counter, append the last recognised text
      (and the pause marker when `isPause`) to the transcript, and empty the
      frames and the texts. The flags are kept. With no recognised text the
      read of `cache_speech[-1]` raises after the counter was zeroed. */
  function ProcessCache(s: Snapshot, cfg: Config, isPause: bool): (r: Outcome)
    ensures r.Running? <==> s.speech != []
    ensures r.state.chunksCount == 0
    ensures r.state.status == s.status && r.state.lastLatency == s.lastLatency
    ensures r.Running? ==> r.state.frames == [] && r.state.speech == []
    ensures r.Running? ==>
      r.state.content == s.content + s.speech[|s.speech| - 1] + (if isPause then cfg.pauseFlag else "")
    ensures r.IndexError? ==> r.state.frames == s.frames && r.state.content == s.content
    ensures r.IndexError? ==> r.state.speech == s.speech
  {
    var zeroed := s.(chunksCount := 0);
    if s.speech == [] then IndexError(zeroed)
    else
      var text := s.speech[|s.speech| - 1] + (if isPause then cfg.pauseFlag else "");
      Running(zeroed.(content := s.content + text, frames := [], speech := []))
  }

  /** The two commit decisions that end an iteration: a pause commit first,
      then a forced flush once the counter reaches `cache_chunk_num`. The
      flush sees the counter the pause commit left. */
  function Commit(s: Snapshot, cfg: Config): (r: Outcome)
    requires |s.status| >= |s.frames|
    ensures |r.state.status| >= |r.state.frames|
  {
    if NeedPause(s, cfg.pauseThreshold) then
      match ProcessCache(s, cfg, true)
      case IndexError(e) => IndexError(e)
      case Running(p) =>
        if p.chunksCount >= cfg.cacheChunkNum then ProcessCache(p, cfg, false) else Running(p)
    else if s.chunksCount >= cfg.cacheChunkNum then ProcessCache(s, cfg, false)
    else Running(s)
  }

  /** The state after a collection pass and the recognition decision, just
      before the commit decisions. */
  function Collected(s: Snapshot, queue: seq<Tagged>, rec: Recognition): Snapshot
    requires |s.status| >= |s.frames|
    requires |queue| >= ChunksPerPass(s.lastLatency)
  {
    Recognize(Collect(s, queue[..ChunksPerPass(s.lastLatency)]), rec)
  }

  /** One outer iteration of the run loop, popping its chunks from `queue`. */
  function Step(s: Snapshot, cfg: Config, queue: seq<Tagged>, rec: Recognition): (r: Outcome)
    requires |s.status| >= |s.frames|
    requires |queue| >= ChunksPerPass(s.lastLatency)
    ensures |r.state.status| >= |r.state.frames|
  {
    Commit(Collected(s, queue, rec), cfg)
  }

  /** The run loop: iterations follow one another while the queue can feed
      a whole pass and a recognizer result is supplied for the iteration;
      an IndexError ends it. */
  function RunFrom(s: Snapshot, cfg: Config, queue: seq<Tagged>, recs: seq<Recognition>): (r: Outcome)
    requires |s.status| >= |s.frames|
    ensures |r.state.status| >= |r.state.frames|
    ensures s.status <= r.state.status
    decreases |recs|
  {
    if recs == [] || |queue| < ChunksPerPass(s.lastLatency) then Running(s)
    else
      match Step(s, cfg, queue, recs[0])
      case IndexError(e) => IndexError(e)
      case Running(t) => RunFrom(t, cfg, queue[ChunksPerPass(s.lastLatency)..], recs[1..])
  }
}
