# whisper-loop segmentation engine, in Dafny

A model of the streaming segmentation engine of whisper-loop: the `WisperLoop`
class of `main.py`. The engine pops fixed-size audio chunks (480 samples at
16 kHz, 30 ms each) from a hand-off queue and tags each one as speech or
silence. It decides when to run the recognizer over the buffered window and
appends the recognised text to a running transcript. A transcript entry is
committed on a pause (the last 5 chunks were silent), with the pause marker
after it. It is also committed, without the marker, once the window reaches
`cache_chunk_num` chunks, the 30 s sliding duration.

Modules:

- `Timing` (timing.dfy): window sizes in exact integer microseconds.
  - `chunks_num` is `ceil(latency * frame_rate / chunk)`.
  - A collection pass takes the larger of that and one chunk.
  - `cache_chunk_num` is `ceil(sliding_dur * frame_rate / chunk)`.
- `Segmentation` (segmentation.dfy):
  - the engine's fields as a `Snapshot` value;
  - the outcome type, where `IndexError` is the exception raised by `cache_speech[-1]`;
  - one function per decision of an iteration;
  - `Step` for one outer iteration of `run`, and `RunFrom` for the loop.
- `SegmentationProperties` (properties.dfy): lemmas about those functions.
- `Engine` (engine.dfy): the class `WisperLoop`. Its fields are `seq`s and
  integers. Its methods update them in place with the source's loops:
  - the or-accumulation of `is_need_recognization`;
  - the and-accumulation over negative indices of `is_need_pause`;
  - the do-while collection loop and the outer run loop.

  Each method's `ensures` ties the new fields to the function of module
  `Segmentation` applied to the old ones.

The source's quirks are kept:

- `__process_cache` empties the frames and the texts but never the speech
  flags.
  - So recognition looks at every flag of the session. Once any chunk was
    speech, every later iteration runs the recognizer (`SpeechIsSticky`,
    `RecognitionLooksBeyondWindow`).
  - The pause vote measures the frames but reads the tail of the flags.
    `NeedPauseReadsWindow` proves that the tail it reads lies inside the
    current window.
- The collection loop never stops early on a pause.
- A threshold of 0 pauses on every iteration.
- `cache_speech[-1]` on an empty list raises, after the counter was zeroed.

A consequence the model proves (`SilentStartRaises`): run as written, the
engine raises IndexError unless speech is heard within its first
`pause_chunks_num_threshold` chunks, at least one. The pause vote fires before
the recognizer has ever run.

Collaborators become inputs:

- each popped chunk is a `Tagged(frame, isSpeech)`: opaque bytes plus the
  voice-activity verdict;
- the recognizer's output for an iteration is a `Recognition(text, latencyUs)`;
- the pause marker and the sliding duration are constructor parameters.

Behaviour of the code worth noting, kept in the model:

- the code has no warm-up, no language filter and no retry;
- the collection loop does not end on a pause;
- a threshold of 0 pauses;
- the flag list is never cleared;
- the window can overshoot `cache_chunk_num` within one iteration before the
  forced flush.

## Model

| member | source | states |
|---|---|---|
| Timing.WindowChunkCount | main.py:153-155 | `chunks_num` covers the last latency with whole chunk durations and is the fewest that do |
| Timing.ChunksPerPass | main.py:153-182 | a collection pass appends at least one chunk, and otherwise exactly the fewest chunks whose duration covers the latency |
| Timing.ChunksPerPassMonotone | main.py:153-155 | a longer last recognition never gives a shorter next pass |
| Timing.CacheChunkNum | main.py:52-61 | `cache_chunk_num` chunks cover the sliding duration, no fewer do, and a positive duration gives at least one chunk |
| Timing.ConfiguredWindowSizes | main.py:25-61 | with 480-sample chunks at 16 kHz: the initial 0.01 s latency gives a one-chunk pass, 600 ms gives 20 chunks, and 30 s gives a window of 1000 chunks |
| Segmentation.DefaultConfig | main.py:23-53 | the pause threshold is 5, the window budget is `cache_chunk_num` for the sliding duration (at least one chunk when the duration is positive), and the pause marker is the one given |
| Segmentation.Initial | main.py:15-31 | the fresh engine has empty frames, flags and texts, an empty transcript, a zero counter and the 0.01 s initial latency, so its first pass takes one chunk |
| Segmentation.Collect | main.py:157-182 | the popped chunks' frames and flags are appended in queue order, in lockstep, and the counter goes up by their number. The window's flags are the old window's followed by the new ones |
| Segmentation.Recognize | main.py:184-192 | when some session flag is speech, exactly one text is appended and the latency is overwritten. When none is, nothing changes. Frames, flags, transcript and counter are never touched |
| Segmentation.ProcessCache | main.py:137-146 | it succeeds iff a text was recognised. The counter is zeroed either way and the flags are kept. On success the transcript gains the last text plus the marker iff a pause, and frames and texts are emptied. On failure frames, texts and transcript are unchanged |
| Segmentation.Commit | main.py:193-197 | the commit decisions never leave more frames than flags |
| Segmentation.Step | main.py:152-197 | an iteration never leaves more frames than flags |
| Segmentation.RunFrom | main.py:152-197 | the run loop never leaves more frames than flags, and the flags before it are a prefix of the flags after it |
| SegmentationProperties.NeedPauseReadsWindow | main.py:126-135 | the pause vote is true iff the window holds at least `t` chunks and its last `t` flags are silence. With `t` = 0 it is always true |
| SegmentationProperties.AnySpeechConcat | main.py:118-124 | the any-speech test over two joined flag lists is the disjunction of the tests over each |
| SegmentationProperties.StepAppendsPass | main.py:157-162 | an iteration appends exactly one pass of flags, in queue order, whatever its outcome |
| SegmentationProperties.SpeechIsSticky | main.py:184-192 | after any speech flag, every later iteration appends one text, overwrites the latency, and keeps the any-speech test true |
| SegmentationProperties.RecognitionLooksBeyondWindow | main.py:118-124 | a window of pure silence is still recognised when an earlier committed chunk was speech |
| SegmentationProperties.StepPreservesValid | main.py:137-182 | an iteration that does not raise keeps the flags at least as many as the frames and keeps the counter equal to the window length |
| SegmentationProperties.AtMostOneCommit | main.py:193-197 | with a budget of at least one chunk, an iteration makes at most one commit. A pause commit comes first. The forced flush, without the marker, comes only when there was no pause and the counter reached the budget |
| SegmentationProperties.StepExtendsTranscript | main.py:139-141 | the transcript before an iteration is a prefix of the one after it |
| SegmentationProperties.NoIndexErrorOnceSpeechHeard | main.py:184-197 | once any session flag is speech, with a budget of at least one chunk, an iteration never raises |
| SegmentationProperties.WindowBelowBudgetAfterStep | main.py:196-197 | after an iteration that does not raise, the window holds fewer chunks than `cache_chunk_num` (the flush is never late) |
| SegmentationProperties.RunPreservesValid | main.py:152-197 | frames, flags and counter stay consistent across any number of iterations that do not raise |
| SegmentationProperties.RunExtendsTranscript | main.py:152-197 | across the run loop, even one ending in IndexError, the transcript only grows by appending |
| SegmentationProperties.SilentStep | main.py:184-197 | while only silence has been heard, an iteration pops one chunk, runs no recognition, and either raises or leaves a silent session one chunk longer that is still short of the pause threshold |
| SegmentationProperties.SilentStartRaises | main.py:126-139 | a session whose first `max(1, threshold)` chunks are silent ends in IndexError, whatever the later chunks are, given a recognizer result for each of those iterations |
| Engine.WisperLoop.constructor | main.py:15-31 | the fields start as the initial snapshot, with threshold 5 and `cache_chunk_num` computed from the sliding duration |
| Engine.WisperLoop.IsNeedRecognization | main.py:118-124 | the or-accumulating loop returns true iff some flag of the session is speech |
| Engine.WisperLoop.IsNeedPause | main.py:126-135 | returns false when the window is shorter than the threshold. Otherwise the loop over indices -1 to -threshold returns true iff all those flags are silence |
| Engine.WisperLoop.ProcessCache | main.py:137-146 | the new fields are those of `Segmentation.ProcessCache`, and the result tells whether it raised |
| Engine.WisperLoop.Step | main.py:152-197 | the do-while pass pops `ChunksPerPass` chunks and the rest of the queue is returned. The new fields are those of `Segmentation.Step`, and the result tells whether it raised |
| Engine.WisperLoop.Run | main.py:148-198 | the new fields are those of `Segmentation.RunFrom` over the queue and the recognizer results, and the result tells whether it raised |

## Left out

- Audio capture and the producer thread, which are device I/O and concurrency:
  - the pyaudio open/read/close calls;
  - `audio_record_worker`, `start_audio_record_thread` and `__del__` with its thread joins.

  The hand-off queue is an input sequence of chunks.
- Blocking on an empty queue cannot be expressed: `Step` takes a queue that
  already holds a whole pass, and `Run` stops when the queue cannot feed the
  next pass.
- Speech recognition (`__speech_recognize`) is numpy normalisation plus a
  Whisper decode, a foreign model working in floating point. Its text is an
  input, and a recognition error is not modelled.
- Voice-activity detection (`webrtcvad`) is a foreign classifier. Its verdict
  is an input bool attached to each chunk.
- The wall clock (`time.time()`) is an input latency in whole microseconds,
  and window sizes use exact integer arithmetic.
  - The source divides floats, so a latency within rounding error of a whole
    number of chunks can give one chunk more or fewer than the model.
  - A clock that runs backwards, which gives a negative latency, is excluded
    because the latency is a `nat`.
- These are output and instrumentation and are left out:
  - the matplotlib display;
  - the `recog:` print;
  - `save_wave` and the commented-out file writes;
  - the profiling decorators.
- `core/model_card.py` only supplies the model handle and `sliding_dur = 30`.
  The duration is the constructor parameter `slidingDur`.
- The text compiler is not part of this model. Its `pause_flag` is an opaque
  string given to the constructor.
- After an IndexError the Python object lives on but the run loop is gone. The
  model returns the state at the raise and runs no further iteration.
