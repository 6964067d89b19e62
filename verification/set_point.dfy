/**
 * heating/client.go, heating/state.go and cmd/servsim/echo.go: pressing buttons until the heater shows the wanted
 * target. Observed targets count half degrees.
 */
module SetPoint {
  import opened Wrappers
  import opened Int32
  import HT = HeatingTypes
  import Session

  // ----- frames

  const SIGNAL_POWER := 101
  const SIGNAL_BUSY := 102
  const SIGNAL_TARGET := 105
  const SIGNAL_UP := 107
  const SIGNAL_DOWN := 108
  const SIGNAL_PUMP := 119

  function SignalOf(f: Session.WireFrame): int
    requires |f.data| >= 2
  {
    Word(f.data[0], f.data[1])
  }

  /** math.Round: to the nearest integer, halves away from zero. */
  function RoundDiv(n: int, d: int): int
    requires d > 0
  {
    if n >= 0 then (2 * n + d) / (2 * d) else -((2 * (-n) + d) / (2 * d))
  }

  /** decodeTargetTemperature: thousandths of a kelvin, and to half degrees Celsius. */
  function DecodeRaw(data: seq<int>): Option<int> {
    if |data| < 8 || Word(data[0], data[1]) != SIGNAL_TARGET || data[3] != 22 then None
    else Some(ToInt32(DoubleWord(data[4], data[5], data[6], data[7])))
  }

  function ToHalf(raw: int): int { RoundDiv(raw - 273_150, 500) }

  function DecodeTarget(data: seq<int>): Option<int> {
    match DecodeRaw(data)
    case None => None
    case Some(raw) => Some(ToHalf(raw))
  }

  predicate Bytes(data: seq<int>) { forall i :: 0 <= i < |data| ==> 0 <= data[i] < 256 }

  /** The signed number in the last four of eight bytes, lowest first. */
  function WireNumber(data: seq<int>): int
    requires |data| == 8
  {
    var n := data[4] + 0x100 * data[5] + 0x1_0000 * data[6] + 0x100_0000 * data[7];
    if n < 0x8000_0000 then n else n - 0x1_0000_0000
  }

  /**
   * A target is read from the eight bytes of signal 105 with unit 22, to the nearest half degree above 273.15 kelvin.
   */
  lemma TargetReads(data: seq<int>)
    requires |data| == 8 && Bytes(data)
    ensures DecodeTarget(data).Some? <==> data[0] == 105 && data[1] == 0 && data[3] == 22
    ensures DecodeTarget(data).Some? ==>
      -250 <= WireNumber(data) - 273_150 - 500 * DecodeTarget(data).value <= 250
  {
    WordOfBytes(data[0], data[1]);
    WireNumberRead(data);
    NearestHalf(WireNumber(data));
  }

  lemma WireNumberRead(data: seq<int>)
    requires |data| == 8 && Bytes(data)
    ensures ToInt32(DoubleWord(data[4], data[5], data[6], data[7])) == WireNumber(data)
  {
    DoubleWordOfBytes(data[4], data[5], data[6], data[7]);
  }

  lemma NearestHalf(raw: int)
    ensures -250 <= raw - 273_150 - 500 * ToHalf(raw) <= 250
  {
  }

  function TargetRaw(half: int): int { ToInt32(half * 500 + 273_150) }

  /** targetFrame of the simulator. */
  function TargetFrame(half: int): Session.WireFrame {
    Session.WireFrame(16, 5, [105, 0, 0, 22] + LittleEndian(TargetRaw(half)))
  }

  predicate Encodable(half: int) { IsInt32(half * 500 + 273_150) }

  /** Decoding an encoded target gives it back, for every target whose encoding fits the wire's int32. */
  lemma TargetRoundTrip(half: int)
    requires Encodable(half)
    ensures DecodeTarget(TargetFrame(half).data) == Some(half)
  {
    LittleEndianRoundTrip(half * 500 + 273_150);
    var data := TargetFrame(half).data;
    assert data[4..] == LittleEndian(TargetRaw(half));
    WordOfBytes(105, 0);
    DoubleWordOfBytes(data[4], data[5], data[6], data[7]);
    RoundExact(half);
  }

  lemma RoundExact(half: int)
    ensures RoundDiv(half * 500, 500) == half
  {
  }

  // ----- the heater's observed state

  datatype Power = Unknown | Off | On | Transition

  function PowerOf(b: int): Power {
    if b == 0 then Off else if b == 1 then On else if b == 129 then Transition else Unknown
  }

  class HeaterState {
    var power: Power
    var busy: Option<bool>
    var pump: Option<bool>
    var target: Option<int>
    var raw: Option<int>

    /** updateState on one frame; true exactly when a field changed, be it the raw value inside one half degree. */
    method Update(f: Session.WireFrame) returns (changed: bool)
      modifies this
      ensures changed
        <==> power != old(power) || busy != old(busy) || pump != old(pump) || target != old(target) || raw != old(raw)
      ensures |f.data| < 3 ==> !changed
      ensures |f.data| >= 3 ==>
        && (if SignalOf(f) == 105 && DecodeRaw(f.data).Some?
            then raw == DecodeRaw(f.data) && target == DecodeTarget(f.data)
            else raw == old(raw) && target == old(target))
        && power == (if SignalOf(f) == 101 && f.data[2] in {0, 1, 129} then PowerOf(f.data[2]) else old(power))
        && busy == (if SignalOf(f) == 102 then Some(f.data[2] == 1) else old(busy))
        && pump == (if SignalOf(f) == 119 then Some(f.data[2] == 1) else old(pump))
    {
      changed := false;
      if |f.data| < 3 { return; }
      var signal := SignalOf(f);
      if signal == SIGNAL_POWER {
        var next := PowerOf(f.data[2]);
        if next != Unknown && power != next {
          power := next;
          changed := true;
        }
      } else if signal == SIGNAL_BUSY {
        if busy != Some(f.data[2] == 1) {
          busy := Some(f.data[2] == 1);
          changed := true;
        }
      } else if signal == SIGNAL_PUMP {
        if pump != Some(f.data[2] == 1) {
          pump := Some(f.data[2] == 1);
          changed := true;
        }
      } else if signal == SIGNAL_TARGET {
        var decoded := DecodeRaw(f.data);
        if decoded.Some? && (target.None? || raw != decoded || target.value != ToHalf(decoded.value)) {
          raw, target := decoded, Some(ToHalf(decoded.value));
          changed := true;
        }
      }
    }
  }

  // ----- the client's loop

  /** One press: whether it could be sent, and the targets observed until the wait gives up. */
  datatype Turn = Turn(sent: bool, seen: seq<Option<int>>)

  datatype Outcome =
      | Done | Refused | NoPower | NoTarget | PressFailed | TimedOut(from: int) | Overshot(to: int) | EndedAt(at: int)

  predicate Accepts(up: bool, previous: int, target: int, seen: Option<int>) {
    seen.Some? && (seen.value == target
      || if up then previous + 1 <= seen.value <= target else target <= seen.value <= previous - 1)
  }

  /** The observation is the target, or lies between it and the previous one, nearer the target by any step. */
  predicate Nears(up: bool, previous: int, target: int, seen: Option<int>) {
    && seen.Some?
    && (seen.value == target || if up then previous < seen.value < target else target < seen.value < previous)
  }

  predicate FirstNear(up: bool, previous: int, target: int, seen: seq<Option<int>>, i: nat)
    requires i < |seen|
  {
    Nears(up, previous, target, seen[i]) && forall j :: 0 <= j < i ==> !Nears(up, previous, target, seen[j])
  }

  function FirstAccepted(up: bool, previous: int, target: int, seen: seq<Option<int>>): (r: Option<int>)
    ensures r.Some? ==> Accepts(up, previous, target, r)
  {
    if seen == [] then None
    else if Accepts(up, previous, target, seen[0]) then seen[0]
    else FirstAccepted(up, previous, target, seen[1..])
  }

  method WaitFor(up: bool, previous: int, target: int, seen: seq<Option<int>>) returns (r: Option<int>)
    ensures r == FirstAccepted(up, previous, target, seen)
    ensures r.Some? ==> exists i: nat :: i < |seen| && seen[i] == r && FirstNear(up, previous, target, seen, i)
    ensures r.None? ==> forall i :: 0 <= i < |seen| ==> !Nears(up, previous, target, seen[i])
  {
    for i := 0 to |seen|
      invariant FirstAccepted(up, previous, target, seen) == FirstAccepted(up, previous, target, seen[i..])
      invariant forall j :: 0 <= j < i ==> !Nears(up, previous, target, seen[j])
    {
      if Accepts(up, previous, target, seen[i]) {
        assert FirstNear(up, previous, target, seen, i);
        return seen[i];
      }
    }
    return None;
  }

  function Abs(x: int): nat { if x < 0 then -x else x }

  /**
   * Over every behaviour of the heater: success means the observed target is the requested one, presses never exceed
   * the distance, and neither an overshoot nor a wrong end can be reported.
   */
  method SetTargetTemp(request: HT.Millidegrees, powered: bool, view: Option<int>, turns: seq<Turn>)
    returns (outcome: Outcome, presses: nat, last: Option<int>)
    ensures outcome == Refused <==> !HT.ValidTarget(request)
    ensures outcome == NoPower <==> HT.ValidTarget(request) && !powered
    ensures outcome == NoTarget <==> HT.ValidTarget(request) && powered && view.None?
    ensures outcome == Done ==> last == Some(request / 500) && request == 500 * (request / 500)
    ensures !outcome.Overshot? && !outcome.EndedAt?
    ensures view.Some? ==> presses <= Abs(request / 500 - view.value)
    ensures HT.ValidTarget(request) && powered && view.Some? ==>
      (outcome, presses, last) == Drive(view.value < request / 500, view.value, request / 500,
        Abs(request / 500 - view.value), turns)
  {
    presses, last := 0, view;
    if !HT.ValidTarget(request) { return Refused, 0, view; }
    if !powered { return NoPower, 0, view; }
    if view.None? { return NoTarget, 0, view; }
    var target := request / 500;
    WholeHalves(request, target);
    outcome, presses, last := PressUntil(view.value < target, view.value, target, turns);
  }

  lemma WholeHalves(request: int, half: int)
    requires request % 500 == 0 && half == request / 500
    ensures request == 500 * half
  {
  }

  method PressUntil(up: bool, start: int, target: int, turns: seq<Turn>)
    returns (outcome: Outcome, presses: nat, last: Option<int>)
    requires up == (start < target)
    ensures (outcome, presses, last) == Drive(up, start, target, Abs(target - start), turns)
    ensures !outcome.Overshot? && !outcome.EndedAt? && !NotStarted(outcome) && presses <= Abs(target - start)
    ensures outcome == Done ==> last == Some(target)
  {
    var remaining := if up then target - start else start - target;
    DriveSafe(up, start, target, remaining, turns);
    var current := start;
    presses, last := 0, Some(start);
    while presses < remaining
      invariant presses <= remaining && presses <= |turns| && last == Some(current)
      invariant if up then start + presses <= current <= target else target <= current <= start - presses
      invariant Drive(up, start, target, remaining, turns) ==
        Later(presses, Drive(up, current, target, remaining - presses, turns[presses..]))
    {
      if current == target { return Done, presses, last; }
      if presses >= |turns| || !turns[presses].sent { return PressFailed, presses + 1, last; }
      var seen := WaitFor(up, current, target, turns[presses].seen);
      if seen.None? { return TimedOut(current), presses + 1, last; }
      assert turns[presses..][1..] == turns[presses + 1..];
      current, last, presses := seen.value, seen, presses + 1;
      if up && current > target { return Overshot(current), presses, last; }
      if !up && current < target { return Overshot(current), presses, last; }
    }
    if current == target { return Done, presses, last; }
    return EndedAt(current), presses, last;
  }

  /** The loop from `current` with `remaining` presses left: outcome, presses made, last observation. */
  function Drive(up: bool, current: int, target: int, remaining: nat, turns: seq<Turn>): (Outcome, nat, Option<int>)
    decreases remaining
  {
    if current == target then (Done, 0, Some(current))
    else if remaining == 0 then (EndedAt(current), 0, Some(current))
    else if turns == [] || !turns[0].sent then (PressFailed, 1, Some(current))
    else
      match FirstAccepted(up, current, target, turns[0].seen)
      case None => (TimedOut(current), 1, Some(current))
      case Some(seen) =>
        if (if up then seen > target else seen < target) then (Overshot(seen), 1, Some(seen))
        else Later(1, Drive(up, seen, target, remaining - 1, turns[1..]))
  }

  predicate NotStarted(outcome: Outcome) { outcome.Refused? || outcome.NoPower? || outcome.NoTarget? }

  function Later(presses: nat, r: (Outcome, nat, Option<int>)): (Outcome, nat, Option<int>) {
    (r.0, presses + r.1, r.2)
  }

  lemma {:induction false} DriveSafe(up: bool, current: int, target: int, remaining: nat, turns: seq<Turn>)
    requires if up then current <= target <= current + remaining else current - remaining <= target <= current
    ensures var (outcome, presses, last) := Drive(up, current, target, remaining, turns);
      && !outcome.Overshot? && !outcome.EndedAt? && !NotStarted(outcome) && presses <= remaining
      && (outcome == Done ==> last == Some(target))
    decreases remaining
  {
    if current != target && remaining > 0 && turns != [] && turns[0].sent {
      var seen := FirstAccepted(up, current, target, turns[0].seen);
      if seen.Some? { DriveSafe(up, seen.value, target, remaining - 1, turns[1..]); }
    }
  }

  /** Targets observed one after another, each the first in its turn to be nearer, until the loop ends. */
  ghost predicate Path(up: bool, path: seq<int>, target: int, turns: seq<Turn>) {
    && 0 < |path| <= |turns| + 1
    && forall k: nat :: k + 1 < |path| ==> path[k] != target && Observes(up, path[k], target, turns[k], path[k + 1])
  }

  ghost predicate Observes(up: bool, previous: int, target: int, turn: Turn, next: int) {
    turn.sent
      && exists i: nat :: i < |turn.seen| && turn.seen[i] == Some(next) && FirstNear(up, previous, target, turn.seen, i)
  }

  /** In the turn after the last observation nothing nearer is seen. */
  predicate Stalls(up: bool, previous: int, target: int, turn: Turn) {
    turn.sent && forall i :: 0 <= i < |turn.seen| ==> !Nears(up, previous, target, turn.seen[i])
  }

  lemma {:induction false} FirstAcceptedNears(up: bool, previous: int, target: int, seen: seq<Option<int>>)
    ensures var r := FirstAccepted(up, previous, target, seen);
      && (r.Some? ==> exists i: nat :: i < |seen| && seen[i] == r && FirstNear(up, previous, target, seen, i))
      && (r.None? ==> forall i :: 0 <= i < |seen| ==> !Nears(up, previous, target, seen[i]))
  {
    if seen != [] {
      if Accepts(up, previous, target, seen[0]) {
        assert FirstNear(up, previous, target, seen, 0);
      } else {
        FirstAcceptedNears(up, previous, target, seen[1..]);
        if FirstAccepted(up, previous, target, seen).Some? {
          var rest := seen[1..];
          var i: nat :| i < |rest| && rest[i] == FirstAccepted(up, previous, target, seen)
            && FirstNear(up, previous, target, rest, i);
          assert forall j :: 0 < j <= i ==> seen[j] == rest[j - 1];
          assert FirstNear(up, previous, target, seen, i + 1);
        }
      }
    }
  }

  /**
   * What the loop did: it followed the targets observed, turn by turn. Done at the target; failed at a press that could
   * not be sent; timed out in a turn that showed nothing nearer.
   */
  lemma {:induction false} DriveFollows(up: bool, start: int, target: int, remaining: nat, turns: seq<Turn>)
    returns (path: seq<int>)
    requires if up then start <= target <= start + remaining else start - remaining <= target <= start
    ensures Path(up, path, target, turns) && path[0] == start
    ensures var (outcome, presses, last) := Drive(up, start, target, remaining, turns); var n := |path| - 1;
      && last == Some(path[n])
      && match outcome
         case Done => path[n] == target && presses == n
         case PressFailed => path[n] != target && presses == n + 1 && (n == |turns| || !turns[n].sent)
         case TimedOut(from) =>
           path[n] == from != target && presses == n + 1 && n < |turns| && Stalls(up, from, target, turns[n])
         case _ => false
    decreases remaining
  {
    path := [start];
    if start != target && turns != [] && turns[0].sent {
      FirstAcceptedNears(up, start, target, turns[0].seen);
      var seen := FirstAccepted(up, start, target, turns[0].seen);
      if seen.Some? {
        var rest := DriveFollows(up, seen.value, target, remaining - 1, turns[1..]);
        path := [start] + rest;
        forall k: nat | k + 1 < |path|
          ensures path[k] != target && Observes(up, path[k], target, turns[k], path[k + 1])
        {
          if k > 0 { assert Observes(up, rest[k - 1], target, turns[1..][k - 1], rest[k - 1 + 1]); }
        }
      }
    }
  }

  // ----- the simulator

  class EchoModel {
    var heatingOn: bool
    var target: Option<int>

    ghost function AsEcho(): Echo
      reads this
    {
      Echo(heatingOn, target)
    }

    constructor ()
      ensures AsEcho() == Echo(false, None)
    {
      heatingOn, target := false, None;
    }

    method Observe(f: Session.WireFrame)
      modifies this
      ensures |f.data| >= 3 && SignalOf(f) == 105 && DecodeTarget(f.data).Some? ==>
        target == DecodeTarget(f.data) && heatingOn == old(heatingOn)
      ensures |f.data| >= 3 && SignalOf(f) == 101 ==> heatingOn == (f.data[2] == 1) && target == old(target)
      ensures |f.data| < 3 ==> AsEcho() == old(AsEcho())
      ensures |f.data| >= 3 && SignalOf(f) != 101 && SignalOf(f) != 105 ==> AsEcho() == old(AsEcho())
      ensures |f.data| >= 3 && DecodeTarget(f.data).None? && SignalOf(f) != 101 ==> AsEcho() == old(AsEcho())
    {
      if |f.data| < 3 { return; }
      var signal := SignalOf(f);
      if signal == SIGNAL_POWER {
        heatingOn := f.data[2] == 1;
      } else if signal == SIGNAL_TARGET {
        var decoded := DecodeTarget(f.data);
        if decoded.Some? { target := decoded; }
      }
    }

    method OnCommand(f: Session.WireFrame) returns (out: seq<Session.WireFrame>)
      modifies this
      ensures AsEcho() == Respond(old(AsEcho()), f).0 && out == Respond(old(AsEcho()), f).1
    {
      out := [];
      if f.messageType != 17 || |f.data| < 3 { return; }
      var signal, value := SignalOf(f), f.data[2];
      if f.messageCmd == 0 {
        if signal == SIGNAL_POWER && value == 3 {
          heatingOn := true;
          out := [StateFrame(SIGNAL_POWER, 1), StateFrame(SIGNAL_BUSY, 0)];
          if target.None? {
            target := Some(SEED);
            out := out + [TargetFrame(SEED)];
          }
        } else if signal == SIGNAL_POWER && value == 5 {
          heatingOn := false;
          out := [StateFrame(SIGNAL_POWER, 0)];
        } else if (signal == 47 || signal == 48) && value == 3 {
          out := [StateFrame(signal, 1)];
        }
      } else if f.messageCmd == 1 {
        if (signal == SIGNAL_UP || signal == SIGNAL_DOWN) && value == 0 {
          if target.None? { target := Some(SEED); }
          target := Some(if signal == SIGNAL_UP then target.value + 1 else target.value - 1);
          out := [TargetFrame(target.value)];
        } else if signal == 4 || signal == 5 {
          out := [StateFrame(signal, value)];
        }
      }
    }
  }

  datatype Echo = Echo(heatingOn: bool, target: Option<int>)

  const SEED := 40

  function StateFrame(signal: int, value: int): Session.WireFrame
    requires 0 <= signal < 65_536
  {
    Session.WireFrame(16, 5, [signal % 256, signal / 256, value, 0, 0, 0, 0, 0])
  }

  function Respond(e: Echo, f: Session.WireFrame): (Echo, seq<Session.WireFrame>) {
    if f.messageType != 17 || |f.data| < 3 then (e, [])
    else
      var signal, value := SignalOf(f), f.data[2];
      if f.messageCmd == 0 && signal == SIGNAL_POWER && value == 3 then
        (Echo(true, Some(e.target.GetOr(SEED))),
         [StateFrame(SIGNAL_POWER, 1), StateFrame(SIGNAL_BUSY, 0)] + if e.target.None? then [TargetFrame(SEED)] else [])
      else if f.messageCmd == 0 && signal == SIGNAL_POWER && value == 5 then
        (e.(heatingOn := false), [StateFrame(SIGNAL_POWER, 0)])
      else if f.messageCmd == 0 && (signal == 47 || signal == 48) && value == 3 then (e, [StateFrame(signal, 1)])
      else if f.messageCmd == 1 && (signal == SIGNAL_UP || signal == SIGNAL_DOWN) && value == 0 then
        var next := e.target.GetOr(SEED) + if signal == SIGNAL_UP then 1 else -1;
        (e.(target := Some(next)), [TargetFrame(next)])
      else if f.messageCmd == 1 && (signal == 4 || signal == 5) then (e, [StateFrame(signal, value)])
      else (e, [])
  }

  predicate Tells(f: Session.WireFrame, signal: int, value: int) {
    f.messageType == 16 && f.messageCmd == 5 && f.data == [signal, 0, value, 0, 0, 0, 0, 0]
  }

  /** What the simulator does on each command it knows, in the bytes of the wire; a first target is twenty degrees. */
  lemma PowerAnswered(e: Echo)
    ensures var (on, out) := Respond(e, Session.WireFrame(17, 0, [101, 0, 3]));
      && on == Echo(true, Some(if e.target.Some? then e.target.value else 40))
      && |out| == (if e.target.Some? then 2 else 3) && Tells(out[0], 101, 1) && Tells(out[1], 102, 0)
      && (e.target.None? ==> out[2] == TargetFrame(40))
    ensures var (off, out) := Respond(e, Session.WireFrame(17, 0, [101, 0, 5]));
      off == Echo(false, e.target) && |out| == 1 && Tells(out[0], 101, 0)
  {
    WordOfBytes(101, 0);
  }

  lemma ButtonsAnswered(e: Echo, value: Byte)
    ensures var (up, out) := Respond(e, Session.WireFrame(17, 1, [107, 0, value]));
      if value != 0 then up == e && out == []
      else
        && up == Echo(e.heatingOn, Some(1 + if e.target.Some? then e.target.value else 40))
        && out == [TargetFrame(up.target.value)]
    ensures var (down, out) := Respond(e, Session.WireFrame(17, 1, [108, 0, value]));
      if value != 0 then down == e && out == []
      else
        && down == Echo(e.heatingOn, Some(-1 + if e.target.Some? then e.target.value else 40))
        && out == [TargetFrame(down.target.value)]
  {
    WordOfBytes(107, 0);
    WordOfBytes(108, 0);
  }

  /** The light switches and the valves are echoed, and nothing else is answered. */
  lemma OthersEchoed(e: Echo, f: Session.WireFrame)
    requires |f.data| >= 3 && Bytes(f.data[..2])
    requires var signal := f.data[0] + 256 * f.data[1];
      f.messageType != 17 || (f.messageCmd == 0 && signal != 101) || (f.messageCmd == 1 && signal !in {107, 108})
        || f.messageCmd !in {0, 1}
    ensures Respond(e, f).0 == e
    ensures var (signal, value, out) := (f.data[0] + 256 * f.data[1], f.data[2], Respond(e, f).1);
      if f.messageType == 17
        && ((f.messageCmd == 0 && signal in {47, 48} && value == 3) || (f.messageCmd == 1 && signal in {4, 5})) then
        |out| == 1 && Tells(out[0], signal, if f.messageCmd == 0 then 1 else value)
      else out == []
  {
    assert f.data[..2][0] == f.data[0] && f.data[..2][1] == f.data[1];
    WordOfBytes(f.data[0], f.data[1]);
  }

  /** pressButton's two frames. */
  function PressFrame(up: bool, value: int): Session.WireFrame {
    Session.WireFrame(17, 1, [if up then SIGNAL_UP else SIGNAL_DOWN, 0, value])
  }

  /** The simulator over several frames, and everything it answers. */
  function RespondAll(e: Echo, frames: seq<Session.WireFrame>): (Echo, seq<Session.WireFrame>) {
    if frames == [] then (e, [])
    else
      var (before, out) := RespondAll(e, frames[..|frames| - 1]);
      var (after, more) := Respond(before, frames[|frames| - 1]);
      (after, out + more)
  }

  function Press(e: Echo, up: bool): (Echo, seq<Session.WireFrame>) {
    RespondAll(e, [PressFrame(up, 1), PressFrame(up, 0)])
  }

  /** What the client sees after each of `n` presses: its target before, then what the answering frames decode to. */
  function EchoTurns(e: Echo, up: bool, n: nat): seq<Turn>
    requires e.target.Some?
    decreases n
  {
    if n == 0 then []
    else
      var (next, frames) := Press(e, up);
      if next.target.None? then [] else [Turn(true, [e.target] + Decoded(frames))] + EchoTurns(next, up, n - 1)
  }

  function Decoded(frames: seq<Session.WireFrame>): seq<Option<int>> {
    if frames == [] then [] else [DecodeTarget(frames[0].data)] + Decoded(frames[1..])
  }

  lemma SignalOfPress(up: bool, value: int)
    ensures SignalOf(PressFrame(up, value)) == if up then 107 else 108
  {
    WordOfBytes(if up then SIGNAL_UP else SIGNAL_DOWN, 0);
  }

  lemma RespondTwo(e: Echo, a: Session.WireFrame, b: Session.WireFrame)
    requires Respond(e, a) == (e, [])
    ensures RespondAll(e, [a, b]) == Respond(e, b)
  {
    var none: seq<Session.WireFrame> := [];
    var frames, out := [a, b], Respond(e, b).1;
    assert none + none == none && none + out == out;
    assert [a][..0] == none && RespondAll(e, none) == (e, none);
    assert RespondAll(e, [a]) == (e, none);
    assert frames[..|frames| - 1] == [a] && frames[|frames| - 1] == b;
    assert RespondAll(e, frames) == (Respond(e, b).0, out);
  }

  /** Only the release of the button is answered. */
  lemma PressAnswered(e: Echo, up: bool)
    requires e.target.Some?
    ensures var next := e.target.value + if up then 1 else -1;
      Press(e, up) == (e.(target := Some(next)), [TargetFrame(next)])
  {
    SignalOfPress(up, 1);
    SignalOfPress(up, 0);
    RespondTwo(e, PressFrame(up, 1), PressFrame(up, 0));
  }

  lemma DecodedOne(frames: seq<Session.WireFrame>, half: int)
    requires frames == [TargetFrame(half)] && Encodable(half)
    ensures Decoded(frames) == [Some(half)]
  {
    TargetRoundTrip(half);
    assert Decoded(frames[1..]) == [];
  }

  lemma PressMovesTarget(e: Echo, up: bool)
    requires e.target.Some? && Encodable(e.target.value + if up then 1 else -1)
    ensures var next := e.target.value + if up then 1 else -1;
      Press(e, up).0 == e.(target := Some(next)) && Decoded(Press(e, up).1) == [Some(next)]
  {
    var next := e.target.value + if up then 1 else -1;
    PressAnswered(e, up);
    DecodedOne(Press(e, up).1, next);
  }

  function Moved(up: bool, from: int, presses: nat): int { if up then from + presses else from - presses }

  /** Each press is answered by the next half degree. */
  function ClimbTurns(up: bool, start: int, n: nat): seq<Turn>
    decreases n
  {
    if n == 0 then []
    else [Turn(true, [Some(start), Some(Moved(up, start, 1))])] + ClimbTurns(up, Moved(up, start, 1), n - 1)
  }

  lemma {:induction false} ClimbReaches(up: bool, start: int, n: nat)
    ensures Drive(up, start, Moved(up, start, n), n, ClimbTurns(up, start, n)) == (Done, n, Some(Moved(up, start, n)))
    decreases n
  {
    if n > 0 {
      var next, target := Moved(up, start, 1), Moved(up, start, n);
      ClimbReaches(up, next, n - 1);
      var seen := [Some(start), Some(next)];
      assert seen[1..] == [Some(next)];
      assert FirstAccepted(up, start, target, seen) == Some(next);
      assert ClimbTurns(up, start, n)[1..] == ClimbTurns(up, next, n - 1);
    }
  }

  lemma BothSeen(first: Option<int>, second: Option<int>)
    ensures [first] + [second] == [first, second]
  {
  }

  lemma EchoTurnsStep(e: Echo, up: bool, n: nat, next: int)
    requires n > 0 && e.target.Some? && next == Moved(up, e.target.value, 1) && Encodable(next)
    ensures EchoTurns(e, up, n) == [Turn(true, [e.target, Some(next)])] + EchoTurns(e.(target := Some(next)), up, n - 1)
  {
    PressMovesTarget(e, up);
    BothSeen(e.target, Some(next));
  }

  lemma Between(up: bool, from: int, n: nat)
    requires n > 0 && Encodable(from) && Encodable(Moved(up, from, n))
    ensures Encodable(Moved(up, from, 1)) && Moved(up, Moved(up, from, 1), n - 1) == Moved(up, from, n)
  {
  }

  lemma {:induction false} EchoClimbs(e: Echo, up: bool, n: nat)
    requires e.target.Some? && Encodable(e.target.value) && Encodable(Moved(up, e.target.value, n))
    ensures EchoTurns(e, up, n) == ClimbTurns(up, e.target.value, n)
    decreases n
  {
    if n > 0 {
      var next := Moved(up, e.target.value, 1);
      Between(up, e.target.value, n);
      EchoClimbs(e.(target := Some(next)), up, n - 1);
      EchoTurnsStep(e, up, n, next);
    }
  }

  /** Against the simulator the loop reaches any target, one press for each half degree. */
  lemma EchoReaches(e: Echo, target: int)
    requires e.target.Some? && Encodable(e.target.value) && Encodable(target)
    ensures var up, n := e.target.value < target, Abs(target - e.target.value);
      Drive(up, e.target.value, target, n, EchoTurns(e, up, n)) == (Done, n, Some(target))
  {
    var up, n := e.target.value < target, Abs(target - e.target.value);
    assert Moved(up, e.target.value, n) == target;
    EchoClimbs(e, up, n);
    ClimbReaches(up, e.target.value, n);
  }
}
