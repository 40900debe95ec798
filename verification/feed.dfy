/**
 * The three streaming generators: the raw feed, which records frames while
 * capture is on, and the door-detection and general-detection feeds, which
 * annotate each frame with a model and never touch the capture state. Each
 * yields one multipart chunk per successful read and stops at the first
 * failed read.
 */
module Feed {
  import opened Common
  import opened Camera
  import opened Storage
  import opened Capture
  import opened Framing
  import opened Detector

  /** Which generator serves the stream. */
  datatype Mode = Raw | DoorDetection | RegularDetection

  /**
   * The foreign collaborators: the loaded models, the YOLO call plus
   * `results[0].plot()` for a model path, and the JPEG encoder.
   */
  datatype Env = Env(models: Models, annotate: (string, Frame) -> Frame, encode: Frame -> seq<byte>)

  /** The image a mode streams for a frame read. */
  function Shown(mode: Mode, env: Env, f: Frame): Frame {
    match mode
    case Raw => f
    case DoorDetection => env.annotate(env.models.door, f)
    case RegularDetection => env.annotate(env.models.regular, f)
  }

  /** The chunk a mode yields for a frame read. */
  function ChunkFor(mode: Mode, env: Env, f: Frame): seq<byte> {
    Chunk(env.encode(Shown(mode, env, f)))
  }

  /** What a stream leaves behind: the session, the files written, and the chunks yielded. */
  datatype Output = Output(session: Session, writes: seq<Write>, chunks: seq<seq<byte>>)

  /** The side effect a mode has on the session for one frame. */
  function Effect(mode: Mode, s: Session, f: Frame): Step {
    if mode == Raw then Record(s, f) else Step(s, None)
  }

  /** One generator run over the camera's read results, threading the session through the frames. */
  function Feed(mode: Mode, env: Env, s: Session, results: seq<Option<Frame>>): Output
    decreases |results|
  {
    if results == [] || results[0].None? then Output(s, [], [])
    else
      var f := results[0].value;
      var step := Effect(mode, s, f);
      var rest := Feed(mode, env, step.session, results[1..]);
      Output(rest.session, ToSeq(step.write) + rest.writes, [ChunkFor(mode, env, f)] + rest.chunks)
  }

  /**
   * A stream yields exactly one chunk per read before the first failure, each
   * the framed encoding of what the mode shows for that read; the detection
   * feeds leave the session alone and write nothing.
   */
  lemma {:induction false} FeedChunks(mode: Mode, env: Env, s: Session, results: seq<Option<Frame>>)
    ensures
      var r := Feed(mode, env, s, results);
      && |r.chunks| == FirstFailure(results)
      && (forall i :: 0 <= i < |r.chunks| ==>
            results[i].Some? && r.chunks[i] == ChunkFor(mode, env, results[i].value))
      && (mode != Raw ==> r.session == s && r.writes == [])
    decreases |results|
  {
    if results != [] && results[0].Some? {
      var step := Effect(mode, s, results[0].value);
      var rest := Feed(mode, env, step.session, results[1..]);
      FeedChunks(mode, env, step.session, results[1..]);
      var r := Feed(mode, env, s, results);
      forall i | 0 < i < |r.chunks|
        ensures results[i].Some? && r.chunks[i] == ChunkFor(mode, env, results[i].value)
      {
        assert r.chunks[i] == rest.chunks[i - 1];
        assert results[1..][i - 1] == results[i];
      }
    }
  }

  /** The output of a stream that has already left `writes` and `chunks` and goes on as `rest`. */
  function Resume(writes: seq<Write>, chunks: seq<seq<byte>>, rest: Output): Output {
    Output(rest.session, writes + rest.writes, chunks + rest.chunks)
  }

  /** A feed over reads that start with a frame handles that frame, then feeds on. */
  lemma ResumeStep(mode: Mode, env: Env, results: seq<Option<Frame>>, i: nat,
                   session: Session, writes: seq<Write>, chunks: seq<seq<byte>>)
    requires i < |results| && results[i].Some?
    ensures
      var f := results[i].value;
      var step := Effect(mode, session, f);
      Resume(writes, chunks, Feed(mode, env, session, results[i..])) ==
        Resume(writes + ToSeq(step.write), chunks + [ChunkFor(mode, env, f)], Feed(mode, env, step.session, results[i + 1..]))
  {
    var f := results[i].value;
    var step := Effect(mode, session, f);
    assert results[i..][0] == results[i];
    assert results[i..][1..] == results[i + 1..];
    var next := Feed(mode, env, step.session, results[i + 1..]);
    assert writes + (ToSeq(step.write) + next.writes) == (writes + ToSeq(step.write)) + next.writes;
    assert chunks + ([ChunkFor(mode, env, f)] + next.chunks) == (chunks + [ChunkFor(mode, env, f)]) + next.chunks;
  }

  /** At a failed read, or past the last one, the feed yields nothing more. */
  lemma ResumeDone(mode: Mode, env: Env, results: seq<Option<Frame>>, i: nat,
                   session: Session, writes: seq<Write>, chunks: seq<seq<byte>>)
    requires i <= |results| && (i == |results| || results[i].None?)
    ensures Resume(writes, chunks, Feed(mode, env, session, results[i..])) == Output(session, writes, chunks)
  {
    assert i == |results| || results[i..][0] == results[i];
    assert writes + [] == writes && chunks + [] == chunks;
  }

  /** The generator loop as written: read, record (raw mode only), encode, yield; break on a failed read. */
  method Stream(mode: Mode, env: Env, s: Session, results: seq<Option<Frame>>) returns (out: Output)
    ensures out == Feed(mode, env, s, results)
  {
    var session := s;
    var writes: seq<Write> := [];
    var chunks: seq<seq<byte>> := [];
    var i := 0;
    assert results[0..] == results;
    while i < |results| && results[i].Some?
      invariant 0 <= i <= |results|
      invariant Feed(mode, env, s, results) == Resume(writes, chunks, Feed(mode, env, session, results[i..]))
      decreases |results| - i
    {
      var frame := results[i].value;
      var step := Effect(mode, session, frame);
      ResumeStep(mode, env, results, i, session, writes, chunks);
      session := step.session;
      writes := writes + ToSeq(step.write);
      chunks := chunks + [ChunkFor(mode, env, frame)];
      i := i + 1;
    }
    ResumeDone(mode, env, results, i, session, writes, chunks);
    out := Output(session, writes, chunks);
  }

  /** The raw feed records exactly as the capture model does for the frames it delivers. */
  lemma {:induction false} RawFeedRecords(env: Env, s: Session, results: seq<Option<Frame>>)
    ensures
      var r := Feed(Raw, env, s, results);
      Trace(r.session, r.writes) == Run(s, Reads(Delivered(results)))
    decreases |results|
  {
    if results != [] && results[0].Some? {
      var f := results[0].value;
      var frames := Delivered(results);
      assert frames == [f] + Delivered(results[1..]);
      assert Reads(frames) == [Read(f)] + Reads(Delivered(results[1..]));
      RunCons(s, Read(f), Reads(Delivered(results[1..])));
      RawFeedRecords(env, Record(s, f).session, results[1..]);
    }
  }

  /** Reads after the first failure are never consulted: the stream ends there. */
  lemma {:induction false} FeedStopsAtFailure(mode: Mode, env: Env, s: Session, results: seq<Option<Frame>>, later: seq<Option<Frame>>)
    requires FirstFailure(results) < |results|
    ensures Feed(mode, env, s, results + later) == Feed(mode, env, s, results)
    decreases |results|
  {
    if results[0].Some? {
      assert (results + later)[1..] == results[1..] + later;
      FeedStopsAtFailure(mode, env, Effect(mode, s, results[0].value).session, results[1..], later);
    } else {
      assert (results + later)[0] == results[0];
    }
  }

  /** The stream is the chunks of the delivered frames, and is a pure function of them. */
  lemma FeedChunksOfDelivered(mode: Mode, env: Env, s: Session, results: seq<Option<Frame>>)
    ensures
      var frames := Delivered(results);
      var r := Feed(mode, env, s, results);
      && |r.chunks| == |frames|
      && (forall i :: 0 <= i < |frames| ==> Unframe(r.chunks[i]) == Some(env.encode(Shown(mode, env, frames[i]))))
  {
    var frames := Delivered(results);
    var r := Feed(mode, env, s, results);
    FeedChunks(mode, env, s, results);
    forall i | 0 <= i < |frames|
      ensures Unframe(r.chunks[i]) == Some(env.encode(Shown(mode, env, frames[i])))
    {
      UnframeChunk(env.encode(Shown(mode, env, frames[i])));
    }
  }

  /** The camera fails on its fifth read: exactly four chunks, whatever the mode. */
  lemma ScenarioFifthReadFails(mode: Mode, env: Env, s: Session, results: seq<Option<Frame>>)
    requires |results| >= 5 && results[4].None?
    requires forall i :: 0 <= i < 4 ==> results[i].Some?
    ensures |Feed(mode, env, s, results).chunks| == 4
  {
    FeedChunks(mode, env, s, results);
  }

  /**
   * Without a usable, loadable trained model the door-detection feed and the
   * general feed stream the same bytes for the same reads.
   */
  lemma {:induction false} FallbackFeedsAgree(file: ModelFile, trainedLoads: bool, annotate: (string, Frame) -> Frame,
                           encode: Frame -> seq<byte>, s: Session, results: seq<Option<Frame>>)
    requires !(Usable(file) && trainedLoads)
    ensures
      var env := Env(LoadModels(file, trainedLoads), annotate, encode);
      Feed(DoorDetection, env, s, results) == Feed(RegularDetection, env, s, results)
  {
    var env := Env(LoadModels(file, trainedLoads), annotate, encode);
    var a := Feed(DoorDetection, env, s, results);
    var b := Feed(RegularDetection, env, s, results);
    FallbackSharesModel(file, trainedLoads);
    FeedChunks(DoorDetection, env, s, results);
    FeedChunks(RegularDetection, env, s, results);
    forall i | 0 <= i < |a.chunks|
      ensures a.chunks[i] == b.chunks[i]
    {
    }
  }
}
