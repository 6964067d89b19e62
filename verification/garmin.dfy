/** heating/frame.go and heating/session.go: received status frames become rising edges. */
module Session {
  import opened Wrappers
  import opened Int32

  datatype Direction = Send | Receive
  datatype WireFrame = WireFrame(messageType: int, messageCmd: int, data: seq<int>)
  datatype Frame = Frame(at: int, direction: Direction, wire: WireFrame)
  datatype SignalEdge = SignalEdge(signal: int, at: int, on: bool)
  datatype ReceivedSignal = ReceivedSignal(wire: WireFrame, at: int)

  function SignalId(f: Frame): int {
    if |f.wire.data| == 0 then -1
    else if |f.wire.data| == 1 then f.wire.data[0]
    else Word(f.wire.data[0], f.wire.data[1])
  }

  /** A frame that reports a signal's state. */
  predicate IsStatus(f: Frame) {
    f.direction.Receive? && f.wire.messageType == 16 && |f.wire.data| >= 3
  }

  predicate IsOn(f: Frame)
    requires IsStatus(f)
  {
    f.wire.data[2] % 2 == 1
  }

  /** The last reported state of a signal. */
  function LastState(frames: seq<Frame>, signal: int): Option<Frame> {
    if frames == [] then None
    else if IsStatus(frames[|frames| - 1]) && SignalId(frames[|frames| - 1]) == signal then Some(frames[|frames| - 1])
    else LastState(frames[..|frames| - 1], signal)
  }

  lemma {:induction false} LastStateIsStatus(frames: seq<Frame>, signal: int)
    ensures LastState(frames, signal).Some? ==>
      LastState(frames, signal).value in frames && IsStatus(LastState(frames, signal).value)
        && SignalId(LastState(frames, signal).value) == signal
  {
    if frames != [] { LastStateIsStatus(frames[..|frames| - 1], signal); }
  }

  /** `f` reports its signal on after a report that it was off. */
  predicate Rises(frames: seq<Frame>, f: Frame) {
    && IsStatus(f) && IsOn(f)
    && LastState(frames, SignalId(f)).Some?
    && IsStatus(LastState(frames, SignalId(f)).value) && !IsOn(LastState(frames, SignalId(f)).value)
  }

  function EdgeOf(frames: seq<Frame>, f: Frame): seq<SignalEdge> {
    if Rises(frames, f) then [SignalEdge(SignalId(f), f.at, true)] else []
  }

  /** All rising edges of a session, in order. */
  function Edges(frames: seq<Frame>): seq<SignalEdge> {
    if frames == [] then []
    else Edges(frames[..|frames| - 1]) + EdgeOf(frames[..|frames| - 1], frames[|frames| - 1])
  }

  /** The session's maps say what the last status frames say. */
  ghost predicate Remembers(frames: seq<Frame>, signals: map<int, int>, signalAt: map<int, int>, known: map<int, bool>,
          on: map<int, bool>)
  {
    && signals.Keys == signalAt.Keys == known.Keys == on.Keys
    && forall s: int ::
      var last := LastState(frames, s);
      && (s in known <==> last.Some?)
      && (last.Some? ==> IsStatus(last.value) && known[s] && on[s] == IsOn(last.value)
                         && signals[s] == last.value.wire.data[2] && signalAt[s] == last.value.at)
  }

  lemma RememberStep(frames: seq<Frame>, signals: map<int, int>, signalAt: map<int, int>, known: map<int, bool>,
          on: map<int, bool>, f: Frame)
    requires Remembers(frames, signals, signalAt, known, on)
    ensures if IsStatus(f) then
        var s := SignalId(f);
        && Remembers(frames + [f], signals[s := f.wire.data[2]], signalAt[s := f.at], known[s := true],
          on[s := IsOn(f)])
        && (Rises(frames, f) <==> s in known && known[s] && !on[s] && IsOn(f))
      else Remembers(frames + [f], signals, signalAt, known, on)
  {
    assert (frames + [f])[..|frames + [f]| - 1] == frames;
    assert forall s ::
      LastState(frames + [f], s) == if IsStatus(f) && SignalId(f) == s then Some(f) else LastState(frames, s);
  }

  lemma EdgesStep(frames: seq<Frame>, f: Frame, drained: seq<SignalEdge>, waiting: seq<SignalEdge>)
    requires drained + waiting == Edges(frames)
    ensures drained + (waiting + EdgeOf(frames, f)) == Edges(frames + [f])
  {
    assert (frames + [f])[..|frames + [f]| - 1] == frames;
    assert drained + (waiting + EdgeOf(frames, f)) == (drained + waiting) + EdgeOf(frames, f);
  }

  class Session {
    var signals: map<int, int>
    var signalAt: map<int, int>
    var signalKnown: map<int, bool>
    var signalOn: map<int, bool>
    var signalEdges: seq<SignalEdge>
    var received: map<int, ReceivedSignal>
    ghost var frames: seq<Frame>         // everything ingested
    ghost var drained: seq<SignalEdge>   // everything handed out

    ghost predicate Valid()
      reads this
    {
      && Remembers(frames, signals, signalAt, signalKnown, signalOn)
      && drained + signalEdges == Edges(frames)
    }

    constructor ()
      ensures Valid() && frames == [] && drained == [] && signalEdges == []
    {
      signals, signalAt, signalKnown, signalOn, signalEdges, received := map[], map[], map[], map[], [], map[];
      frames, drained := [], [];
    }

    method Ingest(frame: Frame)
      requires Valid()
      modifies this
      ensures Valid() && frames == old(frames) + [frame] && drained == old(drained)
      ensures signalEdges == old(signalEdges) + EdgeOf(old(frames), frame)
    {
      RememberStep(frames, signals, signalAt, signalKnown, signalOn, frame);
      EdgesStep(frames, frame, drained, signalEdges);
      if IsStatus(frame) {
        var signal := SignalId(frame);
        var on := frame.wire.data[2] % 2 != 0;
        if signal in signalKnown && signalKnown[signal] && !signalOn[signal] && on {
          signalEdges := signalEdges + [SignalEdge(signal, frame.at, on)];
        } else {
          assert signalEdges + [] == signalEdges;
        }
        signalKnown, signalOn := signalKnown[signal := true], signalOn[signal := on];
        signals, signalAt := signals[signal := frame.wire.data[2]], signalAt[signal := frame.at];
      } else {
        assert signalEdges + [] == signalEdges;
      }
      if frame.direction.Receive? && |frame.wire.data| >= 2 {
        received := received[SignalId(frame) := ReceivedSignal(frame.wire, frame.at)];
      }
      frames := frames + [frame];
    }

    method DrainReceivedSignalEdges() returns (edges: seq<SignalEdge>)
      requires Valid()
      modifies this`signalEdges, this`drained
      ensures Valid() && edges == old(signalEdges) && signalEdges == []
      ensures drained == old(drained) + edges
    {
      edges := signalEdges;
      drained := drained + signalEdges;
      signalEdges := [];
    }

    /** SignalIsOn: the state and receive time in the signal's last status frame. */
    method SignalIsOn(signal: int) returns (on: bool, known: bool, at: int)
      requires Valid()
      ensures known <==> LastState(frames, signal).Some?
      ensures known ==> IsStatus(LastState(frames, signal).value)
      ensures known ==> on == IsOn(LastState(frames, signal).value) && at == LastState(frames, signal).value.at
    {
      LastStateIsStatus(frames, signal);
      if signal !in signals { return false, false, 0; }
      return signals[signal] % 2 != 0, true, signalAt[signal];
    }
  }
}

/** service/adapters/garmin/adapter.go: edges of the grey valve signals become queued discharge events. */
module GarminAdapter {
  import opened Wrappers
  import opened Int32
  import opened Session

  datatype Kind = Open | Close
  datatype DischargeEvent = DischargeEvent(kind: Kind, at: int)

  const VALVE_OPEN := 4
  const VALVE_CLOSE := 5

  function EventOf(edge: SignalEdge): seq<DischargeEvent> {
    if !edge.on then []
    else if edge.signal == VALVE_OPEN then [DischargeEvent(Open, edge.at)]
    else if edge.signal == VALVE_CLOSE then [DischargeEvent(Close, edge.at)]
    else []
  }

  /** A received status frame of the signal, on or off by the lowest bit of its third byte. */
  predicate Reports(f: Frame, signal: int, on: bool) {
    && f.direction.Receive? && f.wire.messageType == 16 && |f.wire.data| >= 3
    && Word(f.wire.data[0], f.wire.data[1]) == signal && (f.wire.data[2] % 2 == 1) == on
  }

  /** The frame reports the signal on, and the last report of the signal before it was off. */
  ghost predicate TurnsOn(frames: seq<Frame>, f: Frame, signal: int) {
    && Reports(f, signal, true)
    && exists i: nat :: i < |frames| && LastReport(frames, signal, i) && Reports(frames[i], signal, false)
  }

  predicate LastReport(frames: seq<Frame>, signal: int, i: nat)
    requires i < |frames|
  {
    && (Reports(frames[i], signal, true) || Reports(frames[i], signal, false))
    && forall j :: i < j < |frames| ==> !Reports(frames[j], signal, true) && !Reports(frames[j], signal, false)
  }

  /** What a frame says of the grey valve: signal 4 turning on opens it, signal 5 closes it. */
  ghost function ValveReport(frames: seq<Frame>, f: Frame): seq<DischargeEvent> {
    if TurnsOn(frames, f, 4) then [DischargeEvent(Open, f.at)]
    else if TurnsOn(frames, f, 5) then [DischargeEvent(Close, f.at)]
    else []
  }

  lemma {:induction false} LastStateReports(frames: seq<Frame>, signal: int)
    ensures LastState(frames, signal).Some? <==> exists i: nat :: i < |frames| && LastReport(frames, signal, i)
    ensures forall i: nat :: i < |frames| && LastReport(frames, signal, i) ==>
      LastState(frames, signal) == Some(frames[i])
  {
    if frames != [] {
      var init, n := frames[..|frames| - 1], |frames| - 1;
      LastStateReports(init, signal);
      if IsStatus(frames[n]) && SignalId(frames[n]) == signal {
        assert LastReport(frames, signal, n);
      } else {
        forall i: nat | i < n ensures LastReport(frames, signal, i) == LastReport(init, signal, i) {
          assert forall j :: i <= j < n ==> init[j] == frames[j];
        }
        assert !LastReport(frames, signal, n);
      }
    }
  }

  lemma RisesTurnsOn(frames: seq<Frame>, f: Frame, signal: int)
    ensures Rises(frames, f) && SignalId(f) == signal <==> TurnsOn(frames, f, signal)
  {
    LastStateReports(frames, signal);
  }

  /** The events made of a frame's edge are what the frame says of the valve. */
  lemma ValveReported(frames: seq<Frame>, f: Frame)
    ensures Discharges(EdgeOf(frames, f)) == ValveReport(frames, f)
  {
    RisesTurnsOn(frames, f, 4);
    RisesTurnsOn(frames, f, 5);
    var edges := EdgeOf(frames, f);
    if edges != [] {
      assert edges[..0] == [];
      assert Discharges(edges) == [] + EventOf(edges[0]);
    }
  }

  /** The discharge events of a list of edges, in order. */
  function Discharges(edges: seq<SignalEdge>): seq<DischargeEvent> {
    if edges == [] then [] else Discharges(edges[..|edges| - 1]) + EventOf(edges[|edges| - 1])
  }

  lemma DischargesStep(edges: seq<SignalEdge>, e: SignalEdge)
    ensures Discharges(edges + [e]) == Discharges(edges) + EventOf(e)
  {
    assert (edges + [e])[..|edges + [e]| - 1] == edges;
  }

  lemma {:induction false} DischargesAppend(a: seq<SignalEdge>, b: seq<SignalEdge>)
    ensures Discharges(a + b) == Discharges(a) + Discharges(b)
  {
    if b == [] {
      assert a + b == a;
    } else {
      var init, last := b[..|b| - 1], b[|b| - 1];
      assert a + b == (a + init) + [last] && b == init + [last];
      DischargesAppend(a, init);
      DischargesStep(a + init, last);
      DischargesStep(init, last);
    }
  }

  /** Queueing freshly drained edges keeps the account straight. */
  lemma QueueStep(handedOut: seq<DischargeEvent>, queued: seq<DischargeEvent>, drained: seq<SignalEdge>,
          edges: seq<SignalEdge>)
    requires handedOut + queued == Discharges(drained)
    ensures handedOut + (queued + Discharges(edges)) == Discharges(drained + edges)
  {
    DischargesAppend(drained, edges);
    assert handedOut + (queued + Discharges(edges)) == (handedOut + queued) + Discharges(edges);
  }

  class Adapter {
    var session: Session?
    var greyEvents: seq<DischargeEvent>
    ghost var former: seq<SignalEdge>         // the edges of every replaced session
    ghost var handedOut: seq<DischargeEvent>  // every event drained to the history

    ghost function Drained(): seq<SignalEdge>
      reads this, session
    {
      former + if session == null then [] else session.drained
    }

    /** Every rising edge received so far, over all sessions. */
    ghost function Received(): seq<SignalEdge>
      reads this, session
    {
      former + if session == null then [] else Edges(session.frames)
    }

    ghost predicate Valid()
      reads this, session
    {
      (session != null ==> session.Valid()) && handedOut + greyEvents == Discharges(Drained())
    }

    /** Handed out, queued here or waiting in the session: every valve edge exactly once, in order. */
    lemma NothingLost()
      requires Valid()
      ensures handedOut + greyEvents + Discharges(if session == null then [] else session.signalEdges) ==
        Discharges(Received())
    {
      if session == null {
        assert handedOut + greyEvents + Discharges([]) == handedOut + greyEvents;
      } else {
        assert Drained() + session.signalEdges == Received();
        DischargesAppend(Drained(), session.signalEdges);
      }
    }

    constructor ()
      ensures Valid() && session == null && greyEvents == [] && handedOut == [] && former == []
    {
      session, greyEvents, former, handedOut := null, [], [], [];
    }

    method QueueGreyWaterDischargeEvents(edges: seq<SignalEdge>)
      modifies this`greyEvents
      ensures greyEvents == old(greyEvents) + Discharges(edges)
    {
      for i := 0 to |edges|
        invariant greyEvents == old(greyEvents) + Discharges(edges[..i])
      {
        assert edges[..i + 1][..i] == edges[..i];
        var edge := edges[i];
        if !edge.on { continue; }
        if edge.signal == VALVE_OPEN {
          greyEvents := greyEvents + [DischargeEvent(Open, edge.at)];
        } else if edge.signal == VALVE_CLOSE {
          greyEvents := greyEvents + [DischargeEvent(Close, edge.at)];
        }
      }
      assert edges[..|edges|] == edges;
    }

    /** Drains the session's edges into the queue, as both callers below do. */
    method DrainSession()
      requires Valid() && session != null
      modifies this`greyEvents, session
      ensures Valid() && session.frames == old(session.frames)
      ensures Received() == old(Received()) && former + session.drained == Received()
    {
      ghost var before := session.drained;
      var edges := session.DrainReceivedSignalEdges();
      assert session.drained + [] == session.drained == Edges(session.frames);
      assert former + session.drained == (former + before) + edges;
      QueueStep(handedOut, greyEvents, former + before, edges);
      QueueGreyWaterDischargeEvents(edges);
    }

    /** Installing a new session first drains the old one. */
    method InstallSession(next: Session)
      requires Valid() && next.Valid() && next.frames == [] && next.drained == [] && next != session
      modifies this, session
      ensures Valid() && session == next && handedOut == old(handedOut)
      ensures Received() == old(Received()) && Drained() == Received()
    {
      if session != null {
        DrainSession();
        former := former + session.drained;
      }
      session := next;
      assert former + [] == former;
    }

    method PollState()
      requires Valid()
      modifies this`greyEvents, session
      ensures Valid() && Received() == old(Received()) && (session != null ==> Drained() == Received())
      ensures session != null ==> session.frames == old(session.frames)
    {
      if session != null { DrainSession(); }
    }

    method DrainGreyWaterDischargeEvents() returns (events: seq<DischargeEvent>)
      requires Valid()
      modifies this`greyEvents, this`handedOut
      ensures Valid() && events == old(greyEvents) && greyEvents == [] && handedOut == old(handedOut) + events
    {
      events := greyEvents;
      handedOut := handedOut + greyEvents;
      greyEvents := [];
    }
  }
}
