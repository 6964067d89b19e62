/** service/runtime/mode.go and config/runtime_state.go: heating modes with boosts, saved across restarts. */
module Modes {
  import opened Wrappers
  import HT = HeatingTypes

  datatype Mode = Schedule | Off | Manual | Boost | Unsupported(name: string)

  datatype BoostState = BoostState(target: int, expiresAt: int, resumeMode: Mode, resumeTarget: Option<int>)

  datatype State = State(mode: Mode, manual: Option<int>, boost: Option<BoostState>, updatedAt: int)

  /** HeatingRuntimeState.Validate. */
  predicate Valid(s: State) {
    match s.mode
    case Schedule => s.manual.None? && s.boost.None?
    case Off => s.manual.None? && s.boost.None?
    case Manual => s.manual.Some? && HT.ValidTarget(s.manual.value) && s.boost.None?
    case Boost =>
      && s.boost.Some? && HT.ValidTarget(s.boost.value.target) && !s.boost.value.resumeMode.Boost?
      && (s.boost.value.resumeTarget.Some? ==> HT.ValidTarget(s.boost.value.resumeTarget.value))
    case Unsupported(_) => false
  }

  function Default(now: int): State { State(Schedule, None, None, now) }

  predicate Boosted(s: State) { s.mode.Boost? && s.boost.Some? }

  function Resume(s: State, now: int): State
    requires Boosted(s)
  {
    State(s.boost.value.resumeMode, s.boost.value.resumeTarget, None, now)
  }

  predicate Expired(s: State, now: int) {
    Boosted(s) && s.boost.value.expiresAt <= now
  }

  /** The mode and manual target held outside any boost. */
  datatype Held = Held(mode: Mode, target: Option<int>)

  function Base(s: State): Held {
    if Boosted(s) then Held(s.boost.value.resumeMode, s.boost.value.resumeTarget) else Held(s.mode, s.manual)
  }

  /** A boost resumes a supported mode other than boost, with a target exactly when that mode is manual. */
  predicate Resumable(s: State) {
    s.mode.Boost? ==> s.manual.None? && s.boost.Some? && Agrees(s.boost.value)
  }

  predicate Agrees(b: BoostState) {
    match b.resumeMode
    case Schedule => b.resumeTarget.None?
    case Off => b.resumeTarget.None?
    case Manual => b.resumeTarget.Some?
    case _ => false
  }

  /**
   * Validate does not by itself make a boost resumable: the resumed state is valid exactly when mode and target agree.
   */
  lemma ResumesValid(s: State, now: int)
    requires Valid(s) && Boosted(s)
    ensures Valid(Resume(s, now)) <==> Agrees(s.boost.value)
  {
  }

  // ----- the process and its file

  datatype Process = Process(file: Option<State>, memory: State, up: bool)

  /** The mode calls with the outcome of the heater commands and of the save. */
  datatype Call =
    | SetSchedule(now: int, saved: bool)
    | SetOff(now: int, applied: bool, saved: bool)
    | SetManual(target: int, now: int, applied: bool, saved: bool)
    | SetBoost(target: int, duration: int, now: int, applied: bool, saved: bool)
    | CancelBoost(now: int, applied: bool, saved: bool)
    | Reconcile(now: int, saved: bool)
    | Reload(now: int, saved: bool)

  /** setHeatingMode: heater first, then the file, then memory. */
  function Set(p: Process, s: State, applied: bool, saved: bool): Process {
    if Valid(s) && (applied || s.mode.Schedule?) && saved then p.(file := Some(s), memory := s) else p
  }

  function BoostFrom(base: Held, target: int, expiresAt: int, now: int): State {
    State(Boost, None, Some(BoostState(target, expiresAt, base.mode, base.target)), now)
  }

  /** The state boosts to the target until the instant, to fall back to what `before` fell back to or was. */
  predicate Boosts(s: State, before: State, target: int, until: int) {
    && s.boost.Some? && s.boost.value.target == target && s.boost.value.expiresAt == until
    && if before.mode.Boost? && before.boost.Some? then
         && s.boost.value.resumeMode == before.boost.value.resumeMode
         && s.boost.value.resumeTarget == before.boost.value.resumeTarget
       else s.boost.value.resumeMode == before.mode && s.boost.value.resumeTarget == before.manual
  }

  function Start(p: Process, now: int, saved: bool): Process {
    match p.file
    case None => Process(None, Default(now), true)
    case Some(s) =>
      if !Valid(s) then Process(None, State(Off, None, None, now), true)
      else if !Expired(s, now) then Process(p.file, s, true)
      else
        var resumed := Resume(s, now);
        if Valid(resumed) && saved then Process(Some(resumed), resumed, true)
        else p.(memory := Default(now), up := false)
  }

  function Do(p: Process, c: Call): Process {
    if c.Reload? then Start(p, c.now, c.saved)
    else if !p.up then p
    else match c
      case SetSchedule(now, saved) => Set(p, Default(now), true, saved)
      case SetOff(now, applied, saved) => Set(p, State(Off, None, None, now), applied, saved)
      case SetManual(target, now, applied, saved) => Set(p, State(Manual, Some(target), None, now), applied, saved)
      case SetBoost(target, duration, now, applied, saved) =>
        if duration <= 0 then p else Set(p, BoostFrom(Base(p.memory), target, now + duration, now), applied, saved)
      case CancelBoost(now, applied, saved) =>
        if Boosted(p.memory) then Set(p, Resume(p.memory, now), applied, saved) else p
      case Reconcile(now, saved) =>
        if !Expired(p.memory, now) then p
        else
          var resumed := Resume(p.memory, now);
          if Valid(resumed) && saved then p.(file := Some(resumed), memory := resumed) else p
      case Reload(_, _) => p
  }

  function Run(p: Process, calls: seq<Call>): Process
    decreases |calls|
  {
    if calls == [] then p else Run(Do(p, calls[0]), calls[1..])
  }

  function Fresh(now: int): Process { Process(None, Default(now), true) }

  predicate Inv(p: Process) {
    && Valid(p.memory) && Resumable(p.memory)
    && (match p.file
        case None => p.memory.mode.Schedule?
        case Some(s) => Valid(s) && Resumable(s) && (p.up ==> p.memory == s))
  }

  lemma CallKeepsInv(p: Process, c: Call)
    requires Inv(p)
    ensures Inv(Do(p, c))
  {
  }

  /** After any calls, failures and reloads the state is valid, equals its file, and any boost can be resumed. */
  lemma {:induction false} RunKeepsInv(p: Process, calls: seq<Call>)
    requires Inv(p)
    ensures Inv(Run(p, calls))
    decreases |calls|
  {
    if calls != [] {
      CallKeepsInv(p, calls[0]);
      RunKeepsInv(Do(p, calls[0]), calls[1..]);
    }
  }

  // ----- boosts never lose the base

  predicate BoostCall(c: Call) {
    c.SetBoost? || c.CancelBoost? || c.Reconcile? || c.Reload?
  }

  predicate BoostCalls(calls: seq<Call>) {
    forall i :: 0 <= i < |calls| ==> BoostCall(calls[i])
  }

  /** What the file, or the default without one, holds outside any boost. */
  function HeldOnDisk(p: Process): Held {
    match p.file
    case None => Held(Schedule, None)
    case Some(s) => Base(s)
  }

  lemma BoostCallKeepsBase(p: Process, c: Call)
    requires Inv(p) && BoostCall(c)
    ensures HeldOnDisk(Do(p, c)) == HeldOnDisk(p)
  {
  }

  lemma {:induction false} BoostRunKeepsBase(p: Process, calls: seq<Call>)
    requires Inv(p) && BoostCalls(calls)
    ensures HeldOnDisk(Run(p, calls)) == HeldOnDisk(p)
    decreases |calls|
  {
    if calls != [] {
      CallKeepsInv(p, calls[0]);
      BoostCallKeepsBase(p, calls[0]);
      BoostRunKeepsBase(Do(p, calls[0]), calls[1..]);
    }
  }

  /** The calls that end a boost without failing. */
  predicate Ends(p: Process, c: Call) {
    (c.CancelBoost? && c.applied && c.saved) || (c.Reconcile? && c.saved && Expired(p.memory, c.now))
  }

  /**
   * However boosts were stacked, cancelled, expired, failed or reloaded, one successful cancel or expiry restores what
   * was held before the first.
   */
  lemma StackedBoostsRestore(p: Process, calls: seq<Call>, last: Call)
    requires Inv(p) && p.up && BoostCalls(calls) && Run(p, calls).up && Ends(Run(p, calls), last)
    ensures var end := Do(Run(p, calls), last);
      end.memory.boost.None? && Held(end.memory.mode, end.memory.manual) == Base(p.memory)
  {
    RunKeepsInv(p, calls);
    BoostRunKeepsBase(p, calls);
  }

  /** A boost stays as it is until it expires, is cancelled or is replaced. */
  lemma {:induction false} BoostLasts(p: Process, calls: seq<Call>)
    requires Inv(p) && p.up && Boosted(p.memory)
    requires forall i ::
      0 <= i < |calls| ==> (calls[i].Reconcile? || calls[i].Reload?) && calls[i].now < p.memory.boost.value.expiresAt
    ensures Run(p, calls) == p
    decreases |calls|
  {
    if calls != [] {
      assert Do(p, calls[0]) == p;
      BoostLasts(p, calls[1..]);
    }
  }

  /**
   * A boost lasts exactly its duration: an expiry check or a restart before then changes nothing, and one from then on
   * puts back the mode and target held before.
   */
  lemma BoostEndsOnTime(p: Process, target: int, duration: int, now: int, later: int)
    requires Inv(p) && p.up && 0 < duration && HT.ValidTarget(target)
    ensures var boosted := Do(p, SetBoost(target, duration, now, true, true));
      var before :=
        if p.memory.mode.Boost? then Held(p.memory.boost.value.resumeMode, p.memory.boost.value.resumeTarget)
        else Held(p.memory.mode, p.memory.manual);
      && boosted.memory == State(Boost, None, Some(BoostState(target, now + duration, before.mode, before.target)), now)
      && boosted.file == Some(boosted.memory)
      && forall call :: call in {Reconcile(later, true), Reload(later, true)} ==>
           Do(boosted, call).memory ==
             if later < now + duration then boosted.memory else State(before.mode, before.target, None, later)
  {
  }

  // ----- the application

  datatype ModeError = InvalidDuration | InvalidState | ApplyFailed | SaveFailed

  class App {
    var file: Option<State>
    var memory: State
    var up: bool

    ghost function AsProcess(): Process
      reads this
    {
      Process(file, memory, up)
    }

    constructor (now: int)
      ensures AsProcess() == Fresh(now) && Inv(AsProcess())
    {
      file, memory, up := None, Default(now), true;
    }

    method SetHeatingMode(s: State, applied: bool, saved: bool) returns (r: Result<State, ModeError>)
      modifies this
      ensures AsProcess() == Set(old(AsProcess()), s, applied, saved)
      ensures r.Ok? <==> Valid(s) && (applied || s.mode.Schedule?) && saved
      ensures r.Ok? ==> r.value == s == memory && file == Some(s)
      ensures r.Err? ==> memory == old(memory) && file == old(file)
    {
      if !Valid(s) { return Err(InvalidState); }
      if !s.mode.Schedule? && !applied { return Err(ApplyFailed); }
      if !saved { return Err(SaveFailed); }
      file := Some(s);
      memory := s;
      return Ok(s);
    }

    method SetHeatingModeManual(target: int, now: int, applied: bool, saved: bool) returns (r: Result<State, ModeError>)
      requires up
      modifies this
      ensures AsProcess() == Do(old(AsProcess()), SetManual(target, now, applied, saved))
      ensures r.Ok? <==> HT.ValidTarget(target) && applied && saved
      ensures r.Ok? ==> memory == State(Manual, Some(target), None, now)
    {
      r := SetHeatingMode(State(Manual, Some(target), None, now), applied, saved);
    }

    method SetHeatingModeSchedule(now: int, saved: bool) returns (r: Result<State, ModeError>)
      requires up
      modifies this
      ensures AsProcess() == Do(old(AsProcess()), SetSchedule(now, saved))
      ensures r.Ok? <==> saved
      ensures r.Ok? ==> memory == State(Schedule, None, None, now)
    {
      r := SetHeatingMode(Default(now), true, saved);
    }

    method SetHeatingModeOff(now: int, applied: bool, saved: bool) returns (r: Result<State, ModeError>)
      requires up
      modifies this
      ensures AsProcess() == Do(old(AsProcess()), SetOff(now, applied, saved))
      ensures r.Ok? <==> applied && saved
      ensures r.Ok? ==> memory == State(Off, None, None, now)
    {
      r := SetHeatingMode(State(Off, None, None, now), applied, saved);
    }

    method SetHeatingModeBoost(target: int, duration: int, now: int, applied: bool, saved: bool)
      returns (r: Result<State, ModeError>)
      requires up
      modifies this
      ensures AsProcess() == Do(old(AsProcess()), SetBoost(target, duration, now, applied, saved))
      ensures old(Inv(AsProcess())) ==> (r.Ok? <==> 0 < duration && HT.ValidTarget(target) && applied && saved)
      ensures r.Ok? ==> memory.mode.Boost? && memory.manual.None? && memory.updatedAt == now
      ensures r.Ok? ==> Boosts(memory, old(memory), target, now + duration)
    {
      if duration <= 0 { return Err(InvalidDuration); }
      var base := Base(memory);
      r := SetHeatingMode(BoostFrom(base, target, now + duration, now), applied, saved);
    }

    method CancelHeatingModeBoost(now: int, applied: bool, saved: bool) returns (r: Result<State, ModeError>)
      requires up
      modifies this
      ensures AsProcess() == Do(old(AsProcess()), CancelBoost(now, applied, saved))
      ensures r.Ok? ==> r.value == memory && !Boosted(memory)
      ensures r.Ok? && old(memory.mode.Boost? && memory.boost.Some?) ==>
        memory == State(old(memory).boost.value.resumeMode, old(memory).boost.value.resumeTarget, None, now)
    {
      if !Boosted(memory) { return Ok(memory); }
      r := SetHeatingMode(Resume(memory, now), applied, saved);
    }

    /** The file and memory change before the heater is told, so a failed command does not keep the boost. */
    method ReconcileExpiredBoost(now: int, applied: bool, saved: bool) returns (ok: bool)
      requires up
      modifies this
      ensures AsProcess() == Do(old(AsProcess()), Reconcile(now, saved))
      ensures ok <==>
        || old(!Expired(memory, now))
        || (memory == Resume(old(memory), now) && saved && (applied || memory.mode.Schedule?))
    {
      if !Expired(memory, now) { return true; }
      var resumed := Resume(memory, now);
      if !Valid(resumed) || !saved { return false; }
      file := Some(resumed);
      memory := resumed;
      return applied || resumed.mode.Schedule?;
    }

    /** A corrupt file is set aside and heating stays off; a boost that expired meanwhile is resumed and saved. */
    method LoadRuntimeState(now: int, saved: bool) returns (ok: bool)
      modifies this
      ensures AsProcess() == Do(old(AsProcess()), Reload(now, saved)) && ok == up
    {
      if file.None? {
        memory, up := Default(now), true;
        return true;
      }
      var state := file.value;
      if !Valid(state) {
        file, memory, up := None, State(Off, None, None, now), true;
        return true;
      }
      if Expired(state, now) {
        state := Resume(state, now);
        if !Valid(state) || !saved {
          memory, up := Default(now), false;
          return false;
        }
        file := Some(state);
      }
      memory, up := state, true;
      return true;
    }
  }
}
