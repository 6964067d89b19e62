/**
 * The grey discharge pipeline end to end: frames, session, adapter queue, history (service/runtime/sensors.go,
 * observeGreyWaterDischargeEvents).
 */
module GreyPipeline {
  import opened Wrappers
  import opened Session
  import opened GarminAdapter
  import opened WaterLevels
  import opened WaterPoints

  /** One step of the running service; Pump hands the queued events to the history. */
  datatype Step = Arrive(frame: Frame) | Poll | Install | Pump | Telemetry(point: Point, observedAt: int)

  /** `recorded` are the discharge events the history has been given. */
  datatype Pipe = Pipe(frames: seq<Frame>, edges: seq<SignalEdge>, grey: seq<DischargeEvent>,
    recorded: seq<DischargeEvent>, history: seq<Op>)

  function AsOp(e: DischargeEvent): Op {
    match e.kind
    case Open => Opened(e.at)
    case Close => Closed(e.at)
  }

  function AsOps(es: seq<DischargeEvent>): seq<Op> {
    if es == [] then [] else AsOps(es[..|es| - 1]) + [AsOp(es[|es| - 1])]
  }

  function Next(p: Pipe, step: Step): Pipe {
    match step
    case Arrive(f) => p.(frames := p.frames + [f], edges := p.edges + EdgeOf(p.frames, f))
    case Poll => p.(edges := [], grey := p.grey + Discharges(p.edges))
    case Install => p.(frames := [], edges := [], grey := p.grey + Discharges(p.edges))
    case Pump => p.(grey := [], recorded := p.recorded + p.grey, history := p.history + AsOps(p.grey))
    case Telemetry(q, observedAt) => p.(history := p.history + [Sampled(q, observedAt)])
  }

  function After(steps: seq<Step>): Pipe {
    if steps == [] then Pipe([], [], [], [], [])
    else Next(After(steps[..|steps| - 1]), steps[|steps| - 1])
  }

  /** The frames received in the current session. */
  function CurrentFrames(steps: seq<Step>): seq<Frame> {
    if steps == [] then []
    else
      var last := steps[|steps| - 1];
      if last.Install? then []
      else CurrentFrames(steps[..|steps| - 1]) + (if last.Arrive? then [last.frame] else [])
  }

  /** What the frames say of the valve, judged session by session: the ground truth. */
  ghost function TrueDischarges(steps: seq<Step>): seq<DischargeEvent> {
    if steps == [] then []
    else
      var init, last := steps[..|steps| - 1], steps[|steps| - 1];
      TrueDischarges(init) + (if last.Arrive? then ValveReport(CurrentFrames(init), last.frame) else [])
  }

  /**
   * Whatever the pattern of polls, pumps and session changes: recorded, queued and waiting events are the true ones, in
   * order.
   */
  lemma {:induction false} NoEdgeLostOrDuplicated(steps: seq<Step>)
    ensures var p := After(steps);
      p.frames == CurrentFrames(steps) && p.recorded + p.grey + Discharges(p.edges) == TrueDischarges(steps)
  {
    if steps != [] {
      var init, last := steps[..|steps| - 1], steps[|steps| - 1];
      var p := After(init);
      NoEdgeLostOrDuplicated(init);
      PipeStep(p, last);
      if last.Arrive? { ValveReported(p.frames, last.frame); }
      var more := if last.Arrive? then Discharges(EdgeOf(p.frames, last.frame)) else [];
      assert TrueDischarges(steps) == TrueDischarges(init) + more;
    }
  }

  lemma PipeStep(p: Pipe, step: Step)
    ensures var q := Next(p, step);
      q.recorded + q.grey + Discharges(q.edges) ==
      (p.recorded + p.grey + Discharges(p.edges)) +
        (if step.Arrive? then Discharges(EdgeOf(p.frames, step.frame)) else [])
  {
    match step {
      case Arrive(f) =>
        DischargesAppend(p.edges, EdgeOf(p.frames, f));
        Regroup(p.recorded + p.grey, Discharges(p.edges), Discharges(EdgeOf(p.frames, f)));
      case Poll =>
        Regroup(p.recorded, p.grey, Discharges(p.edges));
      case Install =>
        Regroup(p.recorded, p.grey, Discharges(p.edges));
      case Pump =>
      case Telemetry(_, _) =>
    }
  }

  lemma Regroup(a: seq<DischargeEvent>, b: seq<DischargeEvent>, c: seq<DischargeEvent>)
    ensures (a + b) + c == a + (b + c)
  {
  }

  // ----- what the history makes of the events

  function Marks(ops: seq<Op>): seq<Op> {
    if ops == [] then []
    else Marks(ops[..|ops| - 1]) + (if ops[|ops| - 1].Sampled? then [] else [ops[|ops| - 1]])
  }

  function MarkTime(op: Op): int
    requires !op.Sampled?
  {
    match op
    case Opened(at) => at
    case Closed(at) => at
  }

  predicate AllMarks(ms: seq<Op>) { forall i :: 0 <= i < |ms| ==> !ms[i].Sampled? }

  predicate StrictlyIncreasing(ms: seq<Op>)
    requires AllMarks(ms)
  {
    forall i, j :: 0 <= i < j < |ms| ==> MarkTime(ms[i]) < MarkTime(ms[j])
  }

  /** A close that directly follows an open. */
  predicate Completes(ms: seq<Op>, i: nat) {
    0 < i < |ms| && ms[i].Closed? && ms[i - 1].Opened?
  }

  function Completions(ms: seq<Op>): seq<int> {
    if ms == [] then []
    else Completions(ms[..|ms| - 1]) + (if Completes(ms, |ms| - 1) then [ms[|ms| - 1].at] else [])
  }

  /** Equivalently: a close after some open with no recorded discharge in between. */
  lemma CompletesIff(ms: seq<Op>, i: nat)
    requires AllMarks(ms) && i < |ms| && ms[i].Closed?
    ensures Completes(ms, i) <==>
      exists j :: 0 <= j < i && ms[j].Opened? && forall k :: j < k < i ==> !Completes(ms, k)
  {
    if j :| 0 <= j < i && ms[j].Opened? && forall k :: j < k < i ==> !Completes(ms, k) {
      OpenPersists(ms, j, i - 1);
    }
  }

  /** With no completed discharge after an open, everything since is opens. */
  lemma {:induction false} OpenPersists(ms: seq<Op>, j: nat, k: nat)
    requires AllMarks(ms) && j <= k < |ms| && ms[j].Opened?
    requires forall m :: j < m <= k ==> !Completes(ms, m)
    ensures ms[k].Opened?
    decreases k - j
  {
    if j < k {
      OpenPersists(ms, j, k - 1);
      assert !Completes(ms, k);
    }
  }

  lemma {:induction false} MarksAreMarks(ops: seq<Op>)
    ensures AllMarks(Marks(ops))
  {
    if ops != [] { MarksAreMarks(ops[..|ops| - 1]); }
  }

  /** The pending open is the last mark when that is an open; empties are dated by earlier marks. */
  ghost predicate Consistent(s: State, events: seq<Event>, ms: seq<Op>) {
    && s.openAt == (if ms != [] && ms[|ms| - 1].Opened? then Some(ms[|ms| - 1].at) else None)
    && EmptyTimes(events) == Completions(ms)
  }

  lemma {:induction false} CompletionsAreMarks(ms: seq<Op>, t: int)
    requires AllMarks(ms) && t in Completions(ms)
    ensures exists i :: 0 <= i < |ms| && MarkTime(ms[i]) == t
  {
    if t in Completions(ms[..|ms| - 1]) {
      CompletionsAreMarks(ms[..|ms| - 1], t);
      var i :| 0 <= i < |ms| - 1 && MarkTime(ms[..|ms| - 1][i]) == t;
      assert ms[i] == ms[..|ms| - 1][i];
    } else {
      assert MarkTime(ms[|ms| - 1]) == t;
    }
  }

  lemma MarkStep(s: State, events: seq<Event>, ms: seq<Op>, op: Op, o: Options)
    requires AllMarks(ms) && Consistent(s, events, ms) && !op.Sampled?
    requires forall i :: 0 <= i < |ms| ==> MarkTime(ms[i]) < MarkTime(op)
    ensures Consistent(Do(s, events, op, o).0, Do(s, events, op, o).1, ms + [op])
  {
    assert (ms + [op])[..|ms + [op]| - 1] == ms;
    if op.Closed? {
      HasGreyEmptyIff(events, op.at);
      if op.at in Completions(ms) { CompletionsAreMarks(ms, op.at); }
      EmptyTimesAppend(events, [Event(op.at, WaterChart.Grey, Empty, s.greyLevel.GetOr(0.0), 0.0,
        s.greyLevel.GetOr(0.0))]);
    }
  }

  lemma SampleStep(s: State, events: seq<Event>, ms: seq<Op>, op: Op, o: Options)
    requires Consistent(s, events, ms) && op.Sampled?
    ensures Consistent(Do(s, events, op, o).0, Do(s, events, op, o).1, ms)
  {
    var admission := Admit(s, events, op.point, op.observedAt);
    if admission.Admitted? { AppliedKeepsEmpties(s, events, admission.point, admission.offline, op.observedAt, o); }
  }

  /** A telemetry sample records no grey empty and leaves an open discharge open. */
  lemma AppliedKeepsEmpties(s: State, events: seq<Event>, p: Point, offline: bool, observedAt: int, o: Options)
    ensures Applied(s, events, p, offline, observedAt, o).0.openAt == s.openAt
    ensures EmptyTimes(Applied(s, events, p, offline, observedAt, o).1) == EmptyTimes(events)
  {
    if p.freshPct.Some? {
      DetectionKeepsEmpties(events, FreshDetector(s), Obs(p.freshPct.value, observedAt, offline), o);
    }
  }

  lemma DetectionKeepsEmpties(events: seq<Event>, d: Detector, x: Obs, o: Options)
    ensures EmptyTimes(events + SettledPart(d, x, o).1 + CommittedPart(d, x, o).1) == EmptyTimes(events)
  {
    var settled, committed := SettledPart(d, x, o).1, CommittedPart(d, x, o).1;
    EmptyTimesAppend(events + settled, committed);
    EmptyTimesAppend(events, settled);
    NoFreshEmpties(settled);
    NoFreshEmpties(committed);
  }

  /** Recorded grey discharges are exactly the closes that complete an open, for marks in strictly increasing time. */
  lemma {:induction false} EmptiesAreCompletions(ops: seq<Op>, o: Options)
    requires AllMarks(Marks(ops)) && StrictlyIncreasing(Marks(ops))
    ensures Consistent(Run(ops, o).0, Run(ops, o).1, Marks(ops))
  {
    if ops != [] {
      var init, op := ops[..|ops| - 1], ops[|ops| - 1];
      var ms := Marks(init);
      assert op.Sampled? ==> Marks(ops) == ms + [] == ms;
      assert forall i :: 0 <= i < |ms| ==> ms[i] == Marks(ops)[i];
      EmptiesAreCompletions(init, o);
      if op.Sampled? {
        SampleStep(Run(init, o).0, Run(init, o).1, ms, op, o);
      } else {
        assert Marks(ops)[|ms|] == op;
        MarkStep(Run(init, o).0, Run(init, o).1, ms, op, o);
      }
    }
  }

  // ----- the two halves together

  lemma {:induction false} MarksAppend(a: seq<Op>, b: seq<Op>)
    ensures Marks(a + b) == Marks(a) + Marks(b)
  {
    if b == [] {
      assert a + b == a;
    } else {
      assert (a + b)[..|a + b| - 1] == a + b[..|b| - 1];
      MarksAppend(a, b[..|b| - 1]);
    }
  }

  lemma {:induction false} AsOpsMarks(es: seq<DischargeEvent>)
    ensures Marks(AsOps(es)) == AsOps(es) && |AsOps(es)| == |es|
    ensures forall i :: 0 <= i < |es| ==> AsOps(es)[i] == AsOp(es[i])
  {
    if es != [] {
      AsOpsMarks(es[..|es| - 1]);
      assert AsOps(es)[..|AsOps(es)| - 1] == AsOps(es[..|es| - 1]);
    }
  }

  lemma {:induction false} AsOpsAppend(a: seq<DischargeEvent>, b: seq<DischargeEvent>)
    ensures AsOps(a + b) == AsOps(a) + AsOps(b)
  {
    if b == [] {
      assert a + b == a;
    } else {
      assert (a + b)[..|a + b| - 1] == a + b[..|b| - 1];
      AsOpsAppend(a, b[..|b| - 1]);
    }
  }

  /** The history's marks are the recorded events. */
  lemma {:induction false} HistoryMarks(steps: seq<Step>)
    ensures Marks(After(steps).history) == AsOps(After(steps).recorded)
  {
    if steps != [] {
      var init, step := steps[..|steps| - 1], steps[|steps| - 1];
      HistoryMarks(init);
      var p := After(init);
      match step {
        case Pump =>
          MarksAppend(p.history, AsOps(p.grey));
          AsOpsMarks(p.grey);
          AsOpsAppend(p.recorded, p.grey);
        case Telemetry(q, observedAt) =>
          MarksAppend(p.history, [Sampled(q, observedAt)]);
          assert Marks(p.history) + [] == Marks(p.history);
        case _ =>
      }
    }
  }

  /** Received frames bear strictly increasing times. */
  predicate FramesInOrder(steps: seq<Step>) {
    forall i, j :: 0 <= i < j < |steps| && steps[i].Arrive? && steps[j].Arrive? ==>
      steps[i].frame.at < steps[j].frame.at
  }

  predicate EventsInOrder(es: seq<DischargeEvent>) {
    forall i, j :: 0 <= i < j < |es| ==> es[i].at < es[j].at
  }

  /** Some frame arrived at `t`. */
  ghost predicate ArrivedAt(steps: seq<Step>, t: int) {
    exists j :: 0 <= j < |steps| && steps[j].Arrive? && steps[j].frame.at == t
  }

  lemma {:induction false} DischargesInOrder(steps: seq<Step>)
    requires FramesInOrder(steps)
    ensures EventsInOrder(TrueDischarges(steps))
    ensures forall i :: 0 <= i < |TrueDischarges(steps)| ==> ArrivedAt(steps, TrueDischarges(steps)[i].at)
  {
    if steps != [] {
      var init, last := steps[..|steps| - 1], steps[|steps| - 1];
      FramesPrefix(steps);
      DischargesInOrder(init);
      var es := TrueDischarges(init);
      forall i | 0 <= i < |es| ensures ArrivedAt(steps, es[i].at) && (last.Arrive? ==> es[i].at < last.frame.at) {
        ArrivedBefore(steps, es[i].at);
      }
      if last.Arrive? {
        assert ArrivedAt(steps, last.frame.at) by { assert steps[|steps| - 1] == last; }
        LaterEvent(es, ValveReport(CurrentFrames(init), last.frame), last.frame.at);
      }
    }
  }

  lemma FramesPrefix(steps: seq<Step>)
    requires steps != [] && FramesInOrder(steps)
    ensures FramesInOrder(steps[..|steps| - 1])
  {
    var init := steps[..|steps| - 1];
    assert forall j :: 0 <= j < |init| ==> init[j] == steps[j];
  }

  lemma LaterEvent(es: seq<DischargeEvent>, more: seq<DischargeEvent>, at: int)
    requires EventsInOrder(es) && |more| <= 1 && (more != [] ==> more[0].at == at)
    requires forall i :: 0 <= i < |es| ==> es[i].at < at
    ensures EventsInOrder(es + more)
    ensures forall i :: 0 <= i < |es + more| ==> (i < |es| && (es + more)[i] == es[i]) || (es + more)[i].at == at
  {
  }

  lemma ArrivedBefore(steps: seq<Step>, at: int)
    requires steps != [] && FramesInOrder(steps) && ArrivedAt(steps[..|steps| - 1], at)
    ensures ArrivedAt(steps, at) && (steps[|steps| - 1].Arrive? ==> at < steps[|steps| - 1].frame.at)
  {
    var init := steps[..|steps| - 1];
    var j :| 0 <= j < |init| && init[j].Arrive? && init[j].frame.at == at;
    assert steps[j] == init[j];
  }

  /** The closes that directly follow an open. */
  function Emptied(es: seq<DischargeEvent>): seq<int> {
    if es == [] then []
    else
      var n := |es| - 1;
      Emptied(es[..n]) + (if n > 0 && es[n].kind.Close? && es[n - 1].kind.Open? then [es[n].at] else [])
  }

  lemma {:induction false} CompletionsAreEmptied(es: seq<DischargeEvent>)
    ensures Completions(AsOps(es)) == Emptied(es)
  {
    if es != [] {
      var init := es[..|es| - 1];
      CompletionsAreEmptied(init);
      AsOpsMarks(es);
      AsOpsMarks(init);
      assert AsOps(es)[..|es| - 1] == AsOps(init);
    }
  }

  /**
   * End to end, over any run with frames in strictly increasing time: the grey discharges in the history are exactly
   * the completed open-close pairs among the true valve edges handed over so far, and once everything queued has been
   * handed over those are all of them.
   */
  lemma GreyPipelineExact(steps: seq<Step>, o: Options)
    requires FramesInOrder(steps)
    ensures var p := After(steps);
      && p.recorded <= TrueDischarges(steps)
      && (p.grey == [] && p.edges == [] ==> p.recorded == TrueDischarges(steps))
      && EmptyTimes(Run(p.history, o).1) == Emptied(p.recorded)
  {
    var p := After(steps);
    RecordedAreTrue(steps);
    DischargesInOrder(steps);
    HistoryMarks(steps);
    MarksAreMarks(p.history);
    PrefixOpsInOrder(p.recorded, TrueDischarges(steps));
    EmptiesAreCompletions(p.history, o);
    CompletionsAreEmptied(p.recorded);
  }

  lemma RecordedAreTrue(steps: seq<Step>)
    ensures var p := After(steps);
      && p.recorded <= TrueDischarges(steps)
      && (p.grey == [] && p.edges == [] ==> p.recorded == TrueDischarges(steps))
  {
    var p := After(steps);
    NoEdgeLostOrDuplicated(steps);
    assert TrueDischarges(steps) == p.recorded + (p.grey + Discharges(p.edges));
  }

  lemma PrefixOpsInOrder(es: seq<DischargeEvent>, truth: seq<DischargeEvent>)
    requires es <= truth && EventsInOrder(truth)
    ensures AllMarks(AsOps(es)) && StrictlyIncreasing(AsOps(es))
  {
    AsOpsMarks(es);
    assert forall i :: 0 <= i < |es| ==> es[i] == truth[i];
  }
}
