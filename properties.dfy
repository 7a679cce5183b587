/** What the segmentation loop guarantees, and where it fails, stated over
    the functions of module Segmentation. */
module SegmentationProperties {
  import opened Timing
  import opened Segmentation

  /** The pause vote reads the tail of the session-long flag list, but once
      the window holds `t` chunks that tail lies inside the window: the vote
      is exactly "the last `t` chunks of the current window are silence".
      A threshold of 0 pauses whenever it is asked. */
  lemma NeedPauseReadsWindow(s: Snapshot, t: nat)
    requires |s.status| >= |s.frames|
    ensures NeedPause(s, t) <==>
      |Window(s)| >= t && forall k :: |Window(s)| - t <= k < |Window(s)| ==> !Window(s)[k]
    ensures t == 0 ==> NeedPause(s, t)
  {
    var w, off := Window(s), |s.status| - |s.frames|;
    if |s.frames| >= t {
      if NeedPause(s, t) {
        forall k | |w| - t <= k < |w| ensures !w[k] {
          assert w[k] == s.status[off + k];
        }
      }
      if forall k :: |w| - t <= k < |w| ==> !w[k] {
        forall k | |s.status| - t <= k < |s.status| ensures !s.status[k] {
          assert s.status[k] == w[k - off];
        }
      }
    }
  }

  lemma {:induction false} AnySpeechConcat(a: seq<bool>, b: seq<bool>)
    ensures AnySpeech(a + b) <==> AnySpeech(a) || AnySpeech(b)
  {
    if AnySpeech(a + b) {
      var i :| 0 <= i < |a + b| && (a + b)[i];
      if i >= |a| { assert b[i - |a|]; } else { assert a[i]; }
    }
    if AnySpeech(a) {
      var i :| 0 <= i < |a| && a[i];
      assert (a + b)[i];
    }
    if AnySpeech(b) {
      var i :| 0 <= i < |b| && b[i];
      assert (a + b)[|a| + i];
    }
  }

  /** One iteration appends exactly one pass worth of flags, in queue order,
      whatever its outcome; earlier flags are never touched. */
  lemma StepAppendsPass(s: Snapshot, cfg: Config, queue: seq<Tagged>, rec: Recognition)
    requires |s.status| >= |s.frames|
    requires |queue| >= ChunksPerPass(s.lastLatency)
    ensures Step(s, cfg, queue, rec).state.status == s.status + FlagsOf(queue[..ChunksPerPass(s.lastLatency)])
    ensures |Step(s, cfg, queue, rec).state.status| == |s.status| + ChunksPerPass(s.lastLatency)
  {
  }

  /** Because the flags are never cleared, once any chunk of the session was
      speech every later iteration runs the recognizer, even over a window
      of silence. */
  lemma SpeechIsSticky(s: Snapshot, cfg: Config, queue: seq<Tagged>, rec: Recognition)
    requires |s.status| >= |s.frames|
    requires |queue| >= ChunksPerPass(s.lastLatency)
    requires AnySpeech(s.status)
    ensures Collected(s, queue, rec).speech == s.speech + [rec.text]
    ensures Collected(s, queue, rec).lastLatency == rec.latencyUs
    ensures AnySpeech(Step(s, cfg, queue, rec).state.status)
  {
    var pass := FlagsOf(queue[..ChunksPerPass(s.lastLatency)]);
    AnySpeechConcat(s.status, pass);
    StepAppendsPass(s, cfg, queue, rec);
  }

  /** A window made only of silence is still recognised when an earlier,
      already committed chunk was speech. */
  lemma RecognitionLooksBeyondWindow(rec: Recognition)
    ensures var s := Snapshot([], [true], [], "", 0, INITIAL_LATENCY_US);
            var q := [Tagged([], false)];
            Window(Collect(s, q)) == [false] &&
            Collected(s, q, rec).speech == [rec.text]
  {
    var s := Snapshot([], [true], [], "", 0, INITIAL_LATENCY_US);
    var q := [Tagged([], false)];
    ConfiguredWindowSizes();
    assert q[..ChunksPerPass(s.lastLatency)] == q;
    assert Collect(s, q).status[0];
  }

  /** Frames and flags stay in lockstep and the counter tracks the window
      across an iteration that does not raise. */
  lemma StepPreservesValid(s: Snapshot, cfg: Config, queue: seq<Tagged>, rec: Recognition)
    requires Valid(s)
    requires |queue| >= ChunksPerPass(s.lastLatency)
    requires Step(s, cfg, queue, rec).Running?
    ensures Valid(Step(s, cfg, queue, rec).state)
  {
  }

  /** With a window budget of at least one chunk an iteration commits at
      most once: a pause commit leaves the counter at 0, so the forced flush
      is not reached after it; the flush, without a marker, happens only
      when there was no pause and the counter reached the budget. */
  lemma AtMostOneCommit(s: Snapshot, cfg: Config, queue: seq<Tagged>, rec: Recognition)
    requires |s.status| >= |s.frames|
    requires |queue| >= ChunksPerPass(s.lastLatency)
    requires cfg.cacheChunkNum >= 1
    ensures var c := Collected(s, queue, rec);
            Step(s, cfg, queue, rec) ==
              if NeedPause(c, cfg.pauseThreshold) then ProcessCache(c, cfg, true)
              else if c.chunksCount >= cfg.cacheChunkNum then ProcessCache(c, cfg, false)
              else Running(c)
  {
  }

  /** The transcript only ever grows by appending: across one iteration,
      whatever its outcome. */
  lemma StepExtendsTranscript(s: Snapshot, cfg: Config, queue: seq<Tagged>, rec: Recognition)
    requires |s.status| >= |s.frames|
    requires |queue| >= ChunksPerPass(s.lastLatency)
    ensures s.content <= Step(s, cfg, queue, rec).state.content
  {
    var c := Collected(s, queue, rec);
    assert c.content == s.content;
    if NeedPause(c, cfg.pauseThreshold) {
      var p := ProcessCache(c, cfg, true);
      if p.Running? && p.state.chunksCount >= cfg.cacheChunkNum {
        assert c.content <= p.state.content;
        var f := ProcessCache(p.state, cfg, false);
        assert p.state.content <= f.state.content;
      }
    }
  }

  /** Once some chunk of the session was speech, and the window budget is at
      least one chunk, an iteration never raises: the recognizer has just
      supplied a text for whichever commit comes. */
  lemma NoIndexErrorOnceSpeechHeard(s: Snapshot, cfg: Config, queue: seq<Tagged>, rec: Recognition)
    requires |s.status| >= |s.frames|
    requires |queue| >= ChunksPerPass(s.lastLatency)
    requires cfg.cacheChunkNum >= 1
    requires AnySpeech(s.status)
    ensures Step(s, cfg, queue, rec).Running?
  {
    var pass := FlagsOf(queue[..ChunksPerPass(s.lastLatency)]);
    AnySpeechConcat(s.status, pass);
    AtMostOneCommit(s, cfg, queue, rec);
  }

  /** The forced flush is never late: after an iteration that does not raise,
      the window holds fewer chunks than the budget. */
  lemma WindowBelowBudgetAfterStep(s: Snapshot, cfg: Config, queue: seq<Tagged>, rec: Recognition)
    requires Valid(s)
    requires |queue| >= ChunksPerPass(s.lastLatency)
    requires cfg.cacheChunkNum >= 1
    requires Step(s, cfg, queue, rec).Running?
    ensures Step(s, cfg, queue, rec).state.chunksCount < cfg.cacheChunkNum
    ensures |Step(s, cfg, queue, rec).state.frames| < cfg.cacheChunkNum
  {
    AtMostOneCommit(s, cfg, queue, rec);
  }

  /** Over any number of iterations the lockstep invariant holds until an
      IndexError ends the loop. */
  lemma {:induction false} RunPreservesValid(s: Snapshot, cfg: Config, queue: seq<Tagged>, recs: seq<Recognition>)
    requires Valid(s)
    requires RunFrom(s, cfg, queue, recs).Running?
    ensures Valid(RunFrom(s, cfg, queue, recs).state)
    decreases |recs|
  {
    if recs != [] && |queue| >= ChunksPerPass(s.lastLatency) {
      var r := Step(s, cfg, queue, recs[0]);
      StepPreservesValid(s, cfg, queue, recs[0]);
      RunPreservesValid(r.state, cfg, queue[ChunksPerPass(s.lastLatency)..], recs[1..]);
    }
  }

  /** Over any number of iterations, and also when the loop ends in an
      IndexError, the transcript only grows by appending. */
  lemma {:induction false} RunExtendsTranscript(s: Snapshot, cfg: Config, queue: seq<Tagged>, recs: seq<Recognition>)
    requires |s.status| >= |s.frames|
    ensures s.content <= RunFrom(s, cfg, queue, recs).state.content
    decreases |recs|
  {
    if recs != [] && |queue| >= ChunksPerPass(s.lastLatency) {
      var r := Step(s, cfg, queue, recs[0]);
      StepExtendsTranscript(s, cfg, queue, recs[0]);
      if r.Running? {
        RunExtendsTranscript(r.state, cfg, queue[ChunksPerPass(s.lastLatency)..], recs[1..]);
      }
    }
  }

  /** A session that has heard only silence so far: `j` silent flags, no
      recognised text, and the initial latency still in force. */
  predicate SilentSoFar(s: Snapshot, j: nat) {
    && Valid(s) && |s.status| == j && |s.frames| == j
    && (forall k :: 0 <= k < j ==> !s.status[k])
    && s.speech == [] && s.lastLatency == INITIAL_LATENCY_US
  }

  /** The number of chunks after which a silent session has certainly been
      asked for a commit: the pause threshold, but at least one. */
  function PauseHorizon(t: nat): nat {
    if t == 0 then 1 else t
  }

  /** One iteration of a silent session fed a silent chunk: it raises, or
      it leaves a silent session one chunk longer, still short of the
      horizon. */
  lemma SilentStep(s: Snapshot, j: nat, cfg: Config, queue: seq<Tagged>, rec: Recognition)
    requires SilentSoFar(s, j)
    requires j < PauseHorizon(cfg.pauseThreshold)
    requires |queue| >= 1 && !queue[0].isSpeech
    ensures ChunksPerPass(s.lastLatency) == 1
    ensures Step(s, cfg, queue, rec).IndexError? ||
            (SilentSoFar(Step(s, cfg, queue, rec).state, j + 1) && j + 1 < PauseHorizon(cfg.pauseThreshold))
  {
    ConfiguredWindowSizes();
    var pass := queue[..1];
    var c := Collected(s, queue, rec);
    AnySpeechConcat(s.status, FlagsOf(pass));
    assert !AnySpeech(FlagsOf(pass)) by {
      assert FlagsOf(pass) == [queue[0].isSpeech];
    }
    assert !AnySpeech(s.status);
    assert c == Collect(s, pass);
    var t := Step(s, cfg, queue, rec);
    if t.Running? {
      assert !NeedPause(c, cfg.pauseThreshold);
      assert t == Running(c);
      assert c.status == s.status + [queue[0].isSpeech];
    }
  }

  lemma {:induction false} SilenceRaisesFrom(s: Snapshot, j: nat, cfg: Config, queue: seq<Tagged>, recs: seq<Recognition>)
    requires SilentSoFar(s, j)
    requires j < PauseHorizon(cfg.pauseThreshold)
    requires |queue| >= PauseHorizon(cfg.pauseThreshold) - j
    requires forall i :: 0 <= i < PauseHorizon(cfg.pauseThreshold) - j ==> !queue[i].isSpeech
    requires |recs| >= PauseHorizon(cfg.pauseThreshold) - j
    ensures RunFrom(s, cfg, queue, recs).IndexError?
    decreases |queue|
  {
    var h := PauseHorizon(cfg.pauseThreshold);
    assert !queue[0].isSpeech;
    SilentStep(s, j, cfg, queue, recs[0]);
    var t := Step(s, cfg, queue, recs[0]);
    if t.Running? {
      var q' := queue[1..];
      assert q' == queue[ChunksPerPass(s.lastLatency)..];
      forall i | 0 <= i < h - (j + 1) ensures !q'[i].isSpeech {
        assert q'[i] == queue[i + 1];
      }
      SilenceRaisesFrom(t.state, j + 1, cfg, q', recs[1..]);
    }
  }

  /** The engine as written raises IndexError unless speech is heard within
      its first `pause_chunks_num_threshold` chunks (at least one), whatever
      follows them: the pause vote (or the forced flush) asks for a
      recognised text before the recognizer was ever run. */
  lemma SilentStartRaises(cfg: Config, queue: seq<Tagged>, recs: seq<Recognition>)
    requires |queue| >= PauseHorizon(cfg.pauseThreshold)
    requires forall i :: 0 <= i < PauseHorizon(cfg.pauseThreshold) ==> !queue[i].isSpeech
    requires |recs| >= PauseHorizon(cfg.pauseThreshold)
    ensures RunFrom(Initial(), cfg, queue, recs).IndexError?
  {
    SilenceRaisesFrom(Initial(), 0, cfg, queue, recs);
  }
}
