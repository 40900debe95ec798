# CV_OpenDoor capture-and-stream core, in Dafny

This project models the logic of `app.py` in the CV_OpenDoor demo. The demo is a Flask server.
It streams a webcam as a `multipart/x-mixed-replace` response. While capture is on, it saves
labelled "door open" / "door closed" frames, and it can annotate frames with a YOLO detector.
The model covers four parts:

- **Capture session** (`capture.dfy`, module `Capture`). The four globals `capture`, `door_state`,
  `open_counter` and `closed_counter` form an immutable `Session` record.
  `StartCapture` and `StopCapture` are the two control endpoints as pure transitions.
  `Record` is the recording branch of `generate_frames`: it returns the new session and the
  `cv2.imwrite` call it makes, if any.
  `Run` threads a session through any interleaving of control requests and frames.
- **File names** (`storage.dfy`, `decimal.dfy`). `Path` builds `data/door_open/open_{n}.jpg` and
  `data/door_closed/closed_{n}.jpg`, using Python's decimal rendering of `n`. `ParsePath` reads
  such a path back, and the two round-trip lemmas make paths injective.
- **Feeds** (`camera.dfy`, `framing.dfy`, `feed.dfy`). The camera is the sequence of
  `camera.read()` results (`seq<Option<Frame>>`). `Feed` is the common shape of the three
  generators: read, record (raw feed only), annotate (detection feeds only), encode, frame, yield.
  It stops at the first failed read. `Stream` is the same loop written as a `while` loop.
  `Chunk` builds the multipart part and `Unframe` strips it.
- **Detector choice** (`detector.dfy`). This is the start-up decision between
  `trained_door_model.pt` and `yolov8n.pt`.

Collaborators the model cannot see become parameters:
- the JPEG encoder `cv2.imencode`, as `encode: Frame -> seq<byte>` in `Feed.Env`;
- the YOLO call plus `results[0].plot()`, as `annotate: (string, Frame) -> Frame` in `Feed.Env`,
  keyed by the model path;
- whether the trained model file loads, as the `trainedLoads` parameter of
  `Detector.LoadDoorModel` and `Detector.LoadModels`.

The model follows three behaviours of app.py as written:
- `start_capture` stores any URL segment as the door state. The docstring at app.py:48 names only
  "open/closed". With any other string, capture is on but no frame is saved and no counter moves
  (`Capture.Record`, `Capture.RunWhileIdle`).
- The `ret` flag of `cv2.imencode` is ignored (app.py:95, 130, 148). A chunk is yielded for every
  frame read, and the model has no encoding-failure path.
- The comment at app.py:19 says the trained model is loaded "if it exists". The code also requires
  the file to be non-empty (app.py:21). Only then is loading attempted; otherwise `yolov8n.pt` is
  loaded without trying the trained file.

## Model

| member | source | states |
|---|---|---|
| Capture.StartCapture | app.py:47-51 | capture becomes true, the door state becomes exactly the given string with no validation, and both counters are unchanged |
| Capture.StopCapture | app.py:55-58 | capture becomes false; the door state and both counters are unchanged |
| Capture.ControlTransitions | app.py:47-58 | a second start replaces the first one's label without a stop; stop is idempotent; after a stop nothing is being recorded |
| Capture.Record | app.py:85-91 | with capture off, or a door state other than "open"/"closed", nothing is written and no counter moves; otherwise that label's counter grows by exactly one, the other is unchanged, and the frame is written under the new counter value |
| Capture.RunAccounted | app.py:78-91 | for any interleaving of starts, stops and frames, each counter only grows, and the indices written per label are exactly the counter's successive new values, in order, with no gap or repeat |
| Capture.RunWithinCounters | app.py:86-91 | every file written by a run carries an index above its label's starting counter and at most the final one |
| Capture.RunSnoc | app.py:80-92 | state threads through events in order: one more event extends the trace by exactly that event's effect on the state reached so far |
| Capture.RecordUsesCurrentLabel | app.py:85-91 | after any history, the next frame is saved under the label in effect at that moment, with that label's next counter value, or not at all when not recording |
| Capture.RunWhileRecording | app.py:85-91 | while recording, N frames advance the current label's counter by N, leave everything else unchanged, and save frame i under index counter+i+1, in order |
| Capture.RunWhileIdle | app.py:85-92 | while capture is off or the door state is unrecognised, frames change nothing and write nothing |
| Capture.OpenFramesFromInitial | app.py:36-88 | from start-up, start "open" then N frames writes exactly data/door_open/open_1.jpg … open_N.jpg, in order, leaving the counters at N and 0 |
| Capture.RunIncreasing | app.py:86-91 | within each label, later files carry strictly larger indices |
| Capture.RunPathsDistinct | app.py:86-91 | no run writes the same path twice |
| Capture.SwitchWithoutStop | app.py:50-91 | starting "closed", whether capture was on or off before, makes the very next frame write closed_{closed_counter+1} |
| Capture.ScenarioOpenThree | app.py:36-88 | start "open", three frames: open_1, open_2, open_3, counters 3 and 0 |
| Capture.ScenarioSwitch | app.py:36-91 | start "open", one frame, start "closed", two frames: open_1, closed_1, closed_2 |
| Capture.ScenarioStopped | app.py:55-92 | stop, then two frames: nothing written, counters unchanged |
| Camera.FirstFailure | app.py:80-83 | the index of the first failed read (or the number of reads): every read before it succeeded, and the read at it failed |
| Camera.Delivered | app.py:80-83 | the frames a generator receives are exactly the successful reads before the first failure |
| Decimal.FromNat | app.py:88 | the rendering of a counter is a canonical decimal numeral: non-empty digits without a leading zero |
| Decimal.ToNatFromNat | app.py:88 | parsing the rendering of n gives n |
| Decimal.FromNatToNat | app.py:88 | rendering the value of a canonical numeral gives the numeral back |
| Decimal.FromNatInjective | app.py:88-91 | distinct counters render differently |
| Storage.ParsePathOfPath | app.py:88-91 | every written path parses back to its label and index |
| Storage.PathOfParsePath | app.py:88-91 | every path that parses is the path written for the parsed image |
| Storage.PathInjective | app.py:88-91 | distinct images never share a file |
| Storage.FirstPaths | app.py:88-91 | the literal directories and names: data/door_open/open_1.jpg, data/door_closed/closed_12.jpg |
| Framing.UnframeChunk | app.py:98-99 | stripping the fixed prefix and suffix of a chunk recovers its payload |
| Framing.ChunkOfUnframe | app.py:98-99 | any byte string that unframes is the chunk of its payload |
| Framing.ChunkInjective | app.py:98-99 | distinct payloads give distinct chunks |
| Framing.FramingBytes | app.py:98-99 | the prefix is exactly the bytes of the two adjacent literals `--frame\r\n` and `Content-Type: image/jpeg\r\n\r\n`, and the suffix is exactly CR LF (13, 10) |
| Detector.LoadDoorModel | app.py:20-30 | the door model is the trained path exactly when the file exists, is non-empty and loads, and yolov8n.pt otherwise; the trained file is tried first exactly when it exists and is non-empty; yolov8n.pt is loaded only on the two fallback paths, so there are two loads only when the trained file is usable but fails to load |
| Detector.LoadModels | app.py:20-33 | the general feed always uses yolov8n.pt; the door feed uses the trained path exactly when the file exists, is non-empty and loads, and is otherwise yolov8n.pt |
| Detector.FallbackSharesModel | app.py:20-33 | both feeds use the same model exactly when the trained model is missing, empty or fails to load |
| Feed.FeedChunks | app.py:76-152 | every feed yields exactly one chunk per read before the first failure, each the framed encoding of the frame (raw) or its annotation (detection feeds); the detection feeds never change the session or write a file |
| Feed.Stream | app.py:80-99 | the while loop computes the same session, files and chunks as the recursive feed |
| Feed.RawFeedRecords | app.py:76-99 | the raw feed records exactly as the capture model does for the frames it receives |
| Feed.FeedStopsAtFailure | app.py:80-83 | reads after the first failed read are never consulted |
| Feed.FeedChunksOfDelivered | app.py:94-99 | unframing the i-th chunk gives the encoding of what the mode shows for the i-th frame received |
| Feed.ScenarioFifthReadFails | app.py:80-83 | a camera that fails on its fifth read yields exactly four chunks |
| Feed.FallbackFeedsAgree | app.py:118-152 | without a usable trained model, the door-detection and general feeds stream identical bytes for identical reads |

## Left out

- Flask routing, `render_template` and the `jsonify` acknowledgements (app.py:41-59, 101-116). These are HTTP plumbing; only the state changes they trigger are modelled.
- `start_training` (app.py:61-74) and `train_door_model.py`. They launch a subprocess and relay its log lines; this is process I/O around a training library.
- `static/script.js`: browser `fetch`/`alert` wrappers with no logic.
- Camera and disk I/O. `camera.read()` is an element of the read sequence. `cv2.imwrite` is a returned `Write` record. `os.makedirs` (app.py:10-11) is left out.
- JPEG encoding and YOLO inference are opaque function parameters. They are foreign libraries, and their bytes and pixels are not specified.
- Loading `yolov8n.pt` is taken to succeed. A failure there raises at import time, outside any modelled path.
- `print` logging, including the "Captured … door image" line that is printed for every door state while capture is on (app.py:92).
- Concurrency between feeds and control endpoints on the shared globals. A run is one sequential interleaving (`Capture.Run`). The raw feed itself sees no control requests between frames; `Capture.RecordUsesCurrentLabel` covers requests that arrive between frames.
- Overwrites across restarts. The counters start at 0 in every process (app.py:36-39), so a restarted server writes `open_1.jpg` again over an earlier capture. `Storage.PathInjective` and `Capture.RunPathsDistinct` rule out overwrites only within one process lifetime.
- Client disconnect. A stream is finite here and ends only at the first failed read or the end of the read sequence.
