/**
 * The process-wide capture state (`capture`, `door_state`, `open_counter`,
 * `closed_counter`), the two control transitions, the per-frame recording
 * step of the raw feed, and traces that interleave them.
 */
module Capture {
  import opened Common
  import opened Camera
  import opened Storage

  /** The four module-level globals; `doorState` is the raw URL segment or `None`. */
  datatype Session = Session(capture: bool, doorState: Option<string>, openCounter: nat, closedCounter: nat)

  /** The values the globals start with. */
  const Initial: Session := Session(false, None, 0, 0)

  /** The counter kept for label `l`. */
  function Counter(s: Session, l: Label): nat {
    match l
    case Open => s.openCounter
    case Closed => s.closedCounter
  }

  /** The label a door-state string selects; every other string selects none. */
  function LabelOf(doorState: Option<string>): Option<Label> {
    match doorState
    case Some("open") => Some(Open)
    case Some("closed") => Some(Closed)
    case _ => None
  }

  /** Frames are being saved: capture is on and the door state names a label. */
  predicate Recording(s: Session) {
    s.capture && LabelOf(s.doorState).Some?
  }

  /** Both counters agree between `a` and `b`. */
  predicate SameCounters(a: Session, b: Session) {
    forall l :: Counter(a, l) == Counter(b, l)
  }

  /** `POST /start_capture/<state>`: any string is taken as the door state. */
  function StartCapture(s: Session, state: string): (r: Session)
    ensures r.capture && r.doorState == Some(state)
    ensures SameCounters(r, s)
  {
    s.(capture := true, doorState := Some(state))
  }

  /** `POST /stop_capture`: the door state stays in place. */
  function StopCapture(s: Session): (r: Session)
    ensures !r.capture && r.doorState == s.doorState
    ensures SameCounters(r, s)
  {
    s.(capture := false)
  }

  /** One `cv2.imwrite` call: the image's name and the frame written there. */
  datatype Write = Write(image: SavedImage, frame: Frame)

  /** The state after one step and the file written by it, if any. */
  datatype Step = Step(session: Session, write: Option<Write>)

  /** The recording branch of the raw feed, run once per frame read. */
  function Record(s: Session, frame: Frame): (r: Step)
    ensures r.session.capture == s.capture && r.session.doorState == s.doorState
    ensures !Recording(s) ==> r == Step(s, None)
    ensures Recording(s) ==>
      var l := LabelOf(s.doorState).value;
      && Counter(r.session, l) == Counter(s, l) + 1
      && Counter(r.session, Other(l)) == Counter(s, Other(l))
      && r.write == Some(Write(SavedImage(l, Counter(r.session, l)), frame))
  {
    if s.capture then
      if s.doorState == Some("open") then
        var next := s.(openCounter := s.openCounter + 1);
        Step(next, Some(Write(SavedImage(Open, next.openCounter), frame)))
      else if s.doorState == Some("closed") then
        var next := s.(closedCounter := s.closedCounter + 1);
        Step(next, Some(Write(SavedImage(Closed, next.closedCounter), frame)))
      else
        Step(s, None)
    else
      Step(s, None)
  }

  /** One thing that happens to the session: a control request or a frame the raw feed read. */
  datatype Event = Start(state: string) | Stop | Read(frame: Frame)

  /** The effect of one event. */
  function Apply(s: Session, e: Event): Step {
    match e
    case Start(state) => Step(StartCapture(s, state), None)
    case Stop => Step(StopCapture(s), None)
    case Read(f) => Record(s, f)
  }

  /** The final session and the files written, in order, by a sequence of events. */
  datatype Trace = Trace(session: Session, writes: seq<Write>)

  /** The counter values used for label `l`, in write order. */
  function Indices(writes: seq<Write>, l: Label): seq<nat> {
    if writes == [] then []
    else (if writes[0].image.door == l then [writes[0].image.index] else []) + Indices(writes[1..], l)
  }

  /** `lo, lo + 1, ..., hi - 1`. */
  function Range(lo: nat, hi: nat): (r: seq<nat>)
    requires lo <= hi
    ensures |r| == hi - lo
    decreases hi - lo
  {
    if lo == hi then [] else [lo] + Range(lo + 1, hi)
  }

  /** The i-th element of `Range(lo, hi)` is `lo + i`. */
  lemma {:induction false} RangeElements(lo: nat, hi: nat)
    requires lo <= hi
    ensures forall i :: 0 <= i < hi - lo ==> Range(lo, hi)[i] == lo + i
    decreases hi - lo
  {
    if lo < hi {
      RangeElements(lo + 1, hi);
    }
  }

  /** The effect `step` had on `s` is accounted for by the file it wrote. */
  predicate StepAccounted(s: Session, step: Step) {
    match step.write
    case None => SameCounters(step.session, s)
    case Some(w) =>
      && Counter(step.session, w.image.door) == Counter(s, w.image.door) + 1
      && Counter(step.session, Other(w.image.door)) == Counter(s, Other(w.image.door))
      && w.image.index == Counter(step.session, w.image.door)
  }

  /** No counter of `t.session` is below its value in `s`. */
  predicate CountersGrow(s: Session, t: Trace) {
    forall l :: Counter(s, l) <= Counter(t.session, l)
  }

  /** For each label, the indices written are the counter's successive new values, in order. */
  predicate IndicesFollowCounters(s: Session, t: Trace)
    requires CountersGrow(s, t)
  {
    forall l :: Indices(t.writes, l) == Range(Counter(s, l) + 1, Counter(t.session, l) + 1)
  }

  /** Each file of `t` carries a counter value above its label's value in `s` and at most its final value. */
  predicate WithinCounters(s: Session, t: Trace) {
    forall i :: 0 <= i < |t.writes| ==>
      Counter(s, t.writes[i].image.door) < t.writes[i].image.index <= Counter(t.session, t.writes[i].image.door)
  }

  /**
   * The files of `t` account for the counters from `s` to `t.session`: each
   * counter only grows, and the indices written for a label are exactly the
   * values its counter passed through, in order, with no gap and no repeat.
   */
  predicate Accounted(s: Session, t: Trace) {
    CountersGrow(s, t) && IndicesFollowCounters(s, t) && WithinCounters(s, t)
  }

  /** Every event's effect is accounted for by what it wrote. */
  lemma ApplyAccounted(s: Session, e: Event)
    ensures StepAccounted(s, Apply(s, e))
  {
  }

  /** A step never lowers a counter. */
  lemma StepGrows(s: Session, step: Step, l: Label)
    requires StepAccounted(s, step)
    ensures Counter(s, l) <= Counter(step.session, l)
  {
    if step.write.Some? && step.write.value.image.door != l {
      assert l == Other(step.write.value.image.door);
    }
  }

  /** Putting the step's file in front of `rest` extends one label's index run downwards. */
  lemma ExtendIndices(s: Session, step: Step, rest: Trace, l: Label)
    requires StepAccounted(s, step)
    requires Counter(step.session, l) <= Counter(rest.session, l)
    requires Indices(rest.writes, l) == Range(Counter(step.session, l) + 1, Counter(rest.session, l) + 1)
    ensures Counter(s, l) <= Counter(rest.session, l)
    ensures Indices(ToSeq(step.write) + rest.writes, l) == Range(Counter(s, l) + 1, Counter(rest.session, l) + 1)
  {
    StepGrows(s, step, l);
    var ws := ToSeq(step.write) + rest.writes;
    if step.write.None? {
      assert ws == rest.writes;
    } else {
      var w := step.write.value;
      assert ws == [w] + rest.writes;
      assert ws[1..] == rest.writes;
      if w.image.door == l {
        assert Indices(ws, l) == [w.image.index] + Indices(rest.writes, l);
      } else {
        assert l == Other(w.image.door);
        assert Indices(ws, l) == Indices(rest.writes, l);
      }
    }
  }

  /** Putting the step's file in front of `rest` keeps every file within the counters' range. */
  lemma ExtendWithin(s: Session, step: Step, rest: Trace)
    requires StepAccounted(s, step)
    requires CountersGrow(step.session, rest)
    requires WithinCounters(step.session, rest)
    ensures WithinCounters(s, Trace(rest.session, ToSeq(step.write) + rest.writes))
  {
    var ws := ToSeq(step.write) + rest.writes;
    forall i | 0 <= i < |ws|
      ensures Counter(s, ws[i].image.door) < ws[i].image.index <= Counter(rest.session, ws[i].image.door)
    {
      StepGrows(s, step, ws[i].image.door);
      if step.write.None? {
        assert ws[i] == rest.writes[i];
      } else if i > 0 {
        assert ws[i] == rest.writes[i - 1];
      }
    }
  }

  /** Accounting composes: a step followed by an accounted trace is accounted. */
  lemma ExtendAccounted(s: Session, step: Step, rest: Trace)
    requires StepAccounted(s, step)
    requires Accounted(step.session, rest)
    ensures Accounted(s, Trace(rest.session, ToSeq(step.write) + rest.writes))
  {
    var t := Trace(rest.session, ToSeq(step.write) + rest.writes);
    assert CountersGrow(step.session, rest) && IndicesFollowCounters(step.session, rest);
    forall l
      ensures Counter(s, l) <= Counter(t.session, l)
      ensures Indices(t.writes, l) == Range(Counter(s, l) + 1, Counter(t.session, l) + 1)
    {
      ExtendIndices(s, step, rest, l);
    }
    assert CountersGrow(s, t) && IndicesFollowCounters(s, t);
    ExtendWithin(s, step, rest);
  }

  /** Runs the events in order: the final session and every file written, in write order. */
  function Run(s: Session, events: seq<Event>): Trace
    decreases |events|
  {
    if events == [] then Trace(s, [])
    else
      var step := Apply(s, events[0]);
      var rest := Run(step.session, events[1..]);
      Trace(rest.session, ToSeq(step.write) + rest.writes)
  }

  /**
   * Whatever the interleaving of control requests and frames, the files a run
   * writes account exactly for the counter changes: per label, the indices
   * written are the counter's successive new values, in order, without gap or
   * repeat, each above the starting value and at most the final one.
   */
  lemma {:induction false} RunAccounted(s: Session, events: seq<Event>)
    ensures Accounted(s, Run(s, events))
    decreases |events|
  {
    if events != [] {
      var step := Apply(s, events[0]);
      ApplyAccounted(s, events[0]);
      RunAccounted(step.session, events[1..]);
      ExtendAccounted(s, step, Run(step.session, events[1..]));
    }
  }

  /** The read events for a sequence of frames. */
  function Reads(frames: seq<Frame>): (r: seq<Event>)
    ensures |r| == |frames|
    ensures forall i :: 0 <= i < |frames| ==> r[i] == Read(frames[i])
  {
    if frames == [] then [] else [Read(frames[0])] + Reads(frames[1..])
  }

  /**
   * Starting again switches the door state at once, without a stop in
   * between; stopping twice is stopping once; a stop keeps the door state.
   */
  lemma ControlTransitions(s: Session, a: string, b: string)
    ensures StartCapture(StartCapture(s, a), b) == StartCapture(s, b)
    ensures StopCapture(StopCapture(s)) == StopCapture(s)
    ensures StopCapture(StartCapture(s, a)).doorState == Some(a)
    ensures !Recording(StopCapture(s))
  {
  }

  /** `s` with the counter of `l` advanced by `n`. */
  function Advance(s: Session, l: Label, n: nat): Session {
    match l
    case Open => s.(openCounter := s.openCounter + n)
    case Closed => s.(closedCounter := s.closedCounter + n)
  }

  /** Running an event sequence runs its first event, then the rest from the state it leaves. */
  lemma RunCons(s: Session, e: Event, events: seq<Event>)
    ensures Run(s, [e] + events) ==
      var step := Apply(s, e);
      var rest := Run(step.session, events);
      Trace(rest.session, ToSeq(step.write) + rest.writes)
  {
    assert ([e] + events)[0] == e;
    assert ([e] + events)[1..] == events;
  }

  /** Running one more event extends the trace by exactly that event's effect. */
  lemma {:induction false} RunSnoc(s: Session, events: seq<Event>, e: Event)
    ensures Run(s, events + [e]) ==
      var before := Run(s, events);
      var step := Apply(before.session, e);
      Trace(step.session, before.writes + ToSeq(step.write))
    decreases |events|
  {
    if events == [] {
      assert events + [e] == [e] + [];
      RunCons(s, e, []);
    } else {
      var step := Apply(s, events[0]);
      assert events + [e] == [events[0]] + (events[1..] + [e]);
      assert events == [events[0]] + events[1..];
      RunCons(s, events[0], events[1..] + [e]);
      RunCons(s, events[0], events[1..]);
      RunSnoc(step.session, events[1..], e);
    }
  }

  /**
   * A frame read after any history is saved under the label in effect at that
   * moment, with the next value of that label's counter, or not at all when
   * capture is off or the door state is neither "open" nor "closed".
   */
  lemma RecordUsesCurrentLabel(s: Session, events: seq<Event>, f: Frame)
    ensures
      var before := Run(s, events);
      var after := Run(s, events + [Read(f)]);
      && (Recording(before.session) ==>
            var l := LabelOf(before.session.doorState).value;
            after.writes == before.writes + [Write(SavedImage(l, Counter(before.session, l) + 1), f)])
      && (!Recording(before.session) ==> after == before)
  {
    var before := Run(s, events);
    RunSnoc(s, events, Read(f));
    var step := Record(before.session, f);
    assert Run(s, events + [Read(f)]) == Trace(step.session, before.writes + ToSeq(step.write));
    if Recording(before.session) {
      RecordWhileRecording(before.session, f);
    } else {
      assert step == Step(before.session, None);
      assert before.writes + ToSeq(step.write) == before.writes;
    }
  }

  /** `ws` saves `frames`, one per frame and in order, under label `l` with indices `c + 1`, `c + 2`, ... */
  predicate WritesFrom(ws: seq<Write>, l: Label, c: nat, frames: seq<Frame>) {
    && |ws| == |frames|
    && forall i :: 0 <= i < |frames| ==> ws[i] == Write(SavedImage(l, c + i + 1), frames[i])
  }

  /** While recording, one frame advances the current label's counter and is saved under its new value. */
  lemma RecordWhileRecording(s: Session, f: Frame)
    requires Recording(s)
    ensures
      var l := LabelOf(s.doorState).value;
      var next := Advance(s, l, 1);
      && Record(s, f) == Step(next, Some(Write(SavedImage(l, Counter(s, l) + 1), f)))
      && Recording(next) && LabelOf(next.doorState) == Some(l)
      && Counter(next, l) == Counter(s, l) + 1
  {
  }

  /** Saving one more frame in front of a run of saves extends it downwards. */
  lemma WritesFromCons(w: Write, ws: seq<Write>, l: Label, c: nat, frames: seq<Frame>)
    requires |frames| > 0 && w == Write(SavedImage(l, c + 1), frames[0])
    requires WritesFrom(ws, l, c + 1, frames[1..])
    ensures WritesFrom([w] + ws, l, c, frames)
  {
    forall i | 0 < i < |frames|
      ensures ([w] + ws)[i] == Write(SavedImage(l, c + i + 1), frames[i])
    {
      assert ([w] + ws)[i] == ws[i - 1];
    }
  }

  /** While recording, n frames write the next n indices of the current label, one per frame. */
  lemma {:induction false} RunWhileRecording(s: Session, frames: seq<Frame>)
    requires Recording(s)
    ensures
      var l := LabelOf(s.doorState).value;
      var r := Run(s, Reads(frames));
      && r.session == Advance(s, l, |frames|)
      && WritesFrom(r.writes, l, Counter(s, l), frames)
    decreases |frames|
  {
    var l := LabelOf(s.doorState).value;
    if frames == [] {
      assert Reads(frames) == [];
      assert Advance(s, l, 0) == s;
    } else {
      var f := frames[0];
      assert Reads(frames) == [Read(f)] + Reads(frames[1..]);
      RunCons(s, Read(f), Reads(frames[1..]));
      RecordWhileRecording(s, f);
      var next := Advance(s, l, 1);
      RunWhileRecording(next, frames[1..]);
      var rest := Run(next, Reads(frames[1..]));
      assert rest.session == Advance(s, l, |frames|);
      WritesFromCons(Write(SavedImage(l, Counter(s, l) + 1), f), rest.writes, l, Counter(s, l), frames);
    }
  }

  /** While not recording, frames change nothing and write nothing, whatever the door state. */
  lemma {:induction false} RunWhileIdle(s: Session, frames: seq<Frame>)
    requires !Recording(s)
    ensures Run(s, Reads(frames)) == Trace(s, [])
    decreases |frames|
  {
    if frames != [] {
      assert Reads(frames) == [Read(frames[0])] + Reads(frames[1..]);
      RunCons(s, Read(frames[0]), Reads(frames[1..]));
      RunWhileIdle(s, frames[1..]);
    }
  }

  /** The path of the n-th open image, spelled as the source's f-string. */
  lemma OpenPath(n: nat)
    ensures Path(SavedImage(Open, n)) == "data/door_open/open_" + Decimal.FromNat(n) + ".jpg"
  {
  }

  /** From start-up, "open" then N frames writes open_1.jpg .. open_N.jpg, in order. */
  lemma OpenFramesFromInitial(frames: seq<Frame>)
    ensures
      var r := Run(Initial, [Start("open")] + Reads(frames));
      && r.session == Session(true, Some("open"), |frames|, 0)
      && |r.writes| == |frames|
      && (forall i :: 0 <= i < |frames| ==>
            && r.writes[i].frame == frames[i]
            && Path(r.writes[i].image) == "data/door_open/open_" + Decimal.FromNat(i + 1) + ".jpg")
  {
    var started := Session(true, Some("open"), 0, 0);
    assert StartCapture(Initial, "open") == started;
    assert LabelOf(started.doorState) == Some(Open);
    RunCons(Initial, Start("open"), Reads(frames));
    RunWhileRecording(started, frames);
    var r := Run(started, Reads(frames));
    assert WritesFrom(r.writes, Open, 0, frames);
    forall i | 0 <= i < |frames|
      ensures r.writes[i].frame == frames[i]
      ensures Path(r.writes[i].image) == "data/door_open/open_" + Decimal.FromNat(i + 1) + ".jpg"
    {
      assert r.writes[i] == Write(SavedImage(Open, i + 1), frames[i]);
      OpenPath(i + 1);
    }
  }

  /** Corollary of `RunAccounted`: every file's counter value lies within the run's counter range. */
  lemma RunWithinCounters(s: Session, events: seq<Event>)
    ensures WithinCounters(s, Run(s, events))
  {
    RunAccounted(s, events);
  }

  /** Within each label, later files carry strictly larger counter values. */
  predicate Increasing(ws: seq<Write>) {
    forall i, j :: 0 <= i < j < |ws| && ws[i].image.door == ws[j].image.door ==>
      ws[i].image.index < ws[j].image.index
  }

  /** A frame's counter value is strictly above those of earlier frames with the same label. */
  lemma {:induction false} RunIncreasing(s: Session, events: seq<Event>)
    ensures Increasing(Run(s, events).writes)
    decreases |events|
  {
    if events != [] {
      var step := Apply(s, events[0]);
      var rest := Run(step.session, events[1..]);
      var ws := Run(s, events).writes;
      assert ws == ToSeq(step.write) + rest.writes;
      RunIncreasing(step.session, events[1..]);
      assert Increasing(rest.writes);
      if step.write.None? {
        assert ToSeq(step.write) == [];
        assert ws == rest.writes;
      } else {
        var w := step.write.value;
        ApplyAccounted(s, events[0]);
        assert w.image.index == Counter(step.session, w.image.door);
        RunWithinCounters(step.session, events[1..]);
        forall i, j | 0 <= i < j < |ws| && ws[i].image.door == ws[j].image.door
          ensures ws[i].image.index < ws[j].image.index
        {
          assert ws[j] == rest.writes[j - 1];
          if i > 0 {
            assert ws[i] == rest.writes[i - 1];
          } else {
            assert ws[i] == w;
          }
        }
      }
    }
  }

  /** No run writes the same file twice. */
  lemma RunPathsDistinct(s: Session, events: seq<Event>)
    ensures
      var ws := Run(s, events).writes;
      forall i, j :: 0 <= i < j < |ws| ==> Path(ws[i].image) != Path(ws[j].image)
  {
    var ws := Run(s, events).writes;
    RunIncreasing(s, events);
    assert Increasing(ws);
    forall i, j | 0 <= i < j < |ws|
      ensures Path(ws[i].image) != Path(ws[j].image)
    {
      PathInjective(ws[i].image, ws[j].image);
    }
  }

  /** Starting "closed", with or without a stop before, takes effect on the very next frame. */
  lemma SwitchWithoutStop(s: Session, f: Frame)
    ensures Run(s, [Start("closed"), Read(f)]).writes == [Write(SavedImage(Closed, s.closedCounter + 1), f)]
  {
    var started := StartCapture(s, "closed");
    RunCons(s, Start("closed"), [Read(f)]);
    RunCons(started, Read(f), []);
    assert [Read(f)] == [Read(f)] + [];
  }

  /** start "open", three frames: open_1 .. open_3, counters 3 and 0. */
  lemma ScenarioOpenThree(f1: Frame, f2: Frame, f3: Frame)
    ensures Run(Initial, [Start("open"), Read(f1), Read(f2), Read(f3)]) ==
      Trace(Session(true, Some("open"), 3, 0),
            [Write(SavedImage(Open, 1), f1), Write(SavedImage(Open, 2), f2), Write(SavedImage(Open, 3), f3)])
  {
    var frames := [f1, f2, f3];
    assert Reads(frames) == [Read(f1), Read(f2), Read(f3)];
    assert [Start("open"), Read(f1), Read(f2), Read(f3)] == [Start("open")] + Reads(frames);
    RunCons(Initial, Start("open"), Reads(frames));
    RunWhileRecording(StartCapture(Initial, "open"), frames);
  }

  /** start "open", one frame, start "closed", two frames: open_1, closed_1, closed_2. */
  lemma ScenarioSwitch(f1: Frame, f2: Frame, f3: Frame)
    ensures Run(Initial, [Start("open"), Read(f1), Start("closed"), Read(f2), Read(f3)]).writes ==
      [Write(SavedImage(Open, 1), f1), Write(SavedImage(Closed, 1), f2), Write(SavedImage(Closed, 2), f3)]
  {
    var s1 := StartCapture(Initial, "open");
    var s2 := Session(true, Some("open"), 1, 0);
    var s3 := StartCapture(s2, "closed");
    var tail := Reads([f2, f3]);
    assert tail == [Read(f2), Read(f3)];
    assert [Start("open"), Read(f1), Start("closed"), Read(f2), Read(f3)]
        == [Start("open")] + ([Read(f1)] + ([Start("closed")] + tail));
    RunCons(Initial, Start("open"), [Read(f1)] + ([Start("closed")] + tail));
    RunCons(s1, Read(f1), [Start("closed")] + tail);
    RunCons(s2, Start("closed"), tail);
    RunWhileRecording(s3, [f2, f3]);
  }

  /** stop, then two frames: nothing written, nothing counted. */
  lemma ScenarioStopped(s: Session, f1: Frame, f2: Frame)
    ensures Run(s, [Stop, Read(f1), Read(f2)]) == Trace(StopCapture(s), [])
  {
    assert Reads([f1, f2]) == [Read(f1), Read(f2)];
    assert [Stop, Read(f1), Read(f2)] == [Stop] + Reads([f1, f2]);
    RunCons(s, Stop, Reads([f1, f2]));
    RunWhileIdle(StopCapture(s), [f1, f2]);
  }
}
