/**
 * service/runtime/water.go and config/water_runtime_state.go: the scheduled grey-water opening, one effect at a time,
 * with a crash possible between any two.
 */
module Valve {
  import opened Wrappers
  import opened Instants
  import opened Scheduler

  datatype Status = Pending | Open

  /** The ticket tells schedules apart; the source's record has none. */
  datatype Schedule = Schedule(ticket: nat, openAt: int, minutes: int, status: Status, openedAt: Option<int>) {
    function CloseAt(): int { openAt + minutes * MINUTE }
  }

  datatype Outcome = Missed | OpenFailed | CloseFailed | Completed

  datatype Record = Record(scheduled: Option<Schedule>, message: Option<Outcome>, completedAt: Option<int>)

  const EMPTY := Record(None, None, None)

  predicate Storable(r: Record) {
    r.scheduled.Some? ==> r.scheduled.value.openAt != ZERO_TIME && 0 < r.scheduled.value.minutes <= 1440
  }

  /**
   * What reached the valve and the record: an open command by the clock reading that allowed it, a close command, a
   * schedule's removal.
   */
  datatype Event =
      | Opened(schedule: Schedule, reading: int, ok: bool) | Closed(ticket: nat, ok: bool) | Cleared(ticket: nat)

  /** Where executeDueGreyWaterOpening stands. */
  datatype Stage =
    | Idle
    | Due(s: Schedule, now: int)
    | Marked(s: Schedule, now: int)
    | Holding(s: Schedule)
    | Finishing(s: Schedule, outcome: Outcome, at: int)
    | Down

  datatype World = World(file: Option<Record>, memory: Record, stage: Stage, tickets: nat, log: seq<Event>)

  datatype Action =
    | ScheduleOpening(openAt: int, minutes: int, saved: bool)
    | CancelOpening(saved: bool)
    | Wake(now: int, saved: bool)
    | MarkOpen(saved: bool)
    | CommandOpen(ok: bool)
    | Interrupt
    | CommandClose(ok: bool, at: int)
    | Finish(saved: bool)
    | Crash
    | Restart

  function Initial(): World { World(None, EMPTY, Idle, 0, []) }

  function Stored(file: Option<Record>): Record { file.GetOr(EMPTY) }

  /** saveAndApplyWaterRuntimeState: the file first, and memory only when that succeeds. */
  function Save(w: World, r: Record, saved: bool): World {
    if !saved || !Storable(r) then w
    else w.(file := Some(r), memory := r, log := w.log + Removal(w.memory.scheduled, r.scheduled))
  }

  function Removal(before: Option<Schedule>, after: Option<Schedule>): seq<Event> {
    if before.Some? && (after.None? || after.value.ticket != before.value.ticket) then [Cleared(before.value.ticket)]
    else []
  }

  function Without(r: Record, outcome: Outcome, at: int): Record { Record(None, Some(outcome), Some(at)) }

  function WakeUp(w: World, now: int, saved: bool): World {
    match w.memory.scheduled
    case None => w
    case Some(s) =>
      if s.status.Open? then w.(stage := Holding(s))
      else if now < s.openAt then w
      else if now > s.CloseAt() then Save(w, Without(w.memory, Missed, now), saved)
      else w.(stage := Due(s.(status := Open, openedAt := Some(now)), now))
  }

  function Step(w: World, a: Action): World {
    match (a, w.stage)
    case (Crash, _) => w.(memory := EMPTY, stage := Down)
    case (Restart, Down) => w.(memory := Stored(w.file), stage := Idle)
    case (_, Down) => w
    case (ScheduleOpening(openAt, minutes, saved), _) =>
      Save(w, Record(Some(Schedule(w.tickets, openAt, minutes, Pending, None)), None, None),
        saved).(tickets := w.tickets + 1)
    case (CancelOpening(saved), _) => Save(w, w.memory.(scheduled := None), saved)
    case (Wake(now, saved), Idle) => WakeUp(w, now, saved)
    case (MarkOpen(saved), Due(s, now)) =>
      var r := w.memory.(scheduled := Some(s));
      if saved && Storable(r) then Save(w, r, saved).(stage := Marked(s, now)) else w.(stage := Idle)
    case (CommandOpen(ok), Marked(s, now)) =>
      w.(log := w.log + [Opened(s, now, ok)], stage := if ok then Holding(s) else Finishing(s, OpenFailed, now))
    case (Interrupt, Holding(_)) => w.(stage := Idle)
    case (CommandClose(ok, at), Holding(s)) =>
      w.(log := w.log + [Closed(s.ticket, ok)], stage := Finishing(s, if ok then Completed else CloseFailed, at))
    case (Finish(saved), Finishing(_, outcome, at)) => Save(w, Without(w.memory, outcome, at), saved).(stage := Idle)
    case _ => w
  }

  function Run(w: World, actions: seq<Action>): World
    decreases |actions|
  {
    if actions == [] then w else Run(Step(w, actions[0]), actions[1..])
  }

  // ----- what a log says

  function OpenCommands(log: seq<Event>, ticket: nat): nat {
    if log == [] then 0
    else
      var last := log[|log| - 1];
      OpenCommands(log[..|log| - 1], ticket) + if last.Opened? && last.schedule.ticket == ticket then 1 else 0
  }

  /** A successful open command for the ticket has had no close command since. */
  predicate LeftOpen(log: seq<Event>, ticket: nat) {
    log != [] &&
    match log[|log| - 1]
    case Opened(s, _, ok) => (ok && s.ticket == ticket) || LeftOpen(log[..|log| - 1], ticket)
    case Closed(t, _) => t != ticket && LeftOpen(log[..|log| - 1], ticket)
    case Cleared(_) => LeftOpen(log[..|log| - 1], ticket)
  }

  /** Every open command was allowed by a reading inside its window, and no schedule was removed while left open. */
  predicate Orderly(log: seq<Event>) {
    log == [] ||
    (Orderly(log[..|log| - 1]) && Allowed(log[..|log| - 1], log[|log| - 1]))
  }

  predicate Allowed(before: seq<Event>, e: Event) {
    match e
    case Opened(s, reading, _) => s.openAt <= reading <= s.CloseAt() && s.openedAt == Some(reading)
    case Closed(_, _) => true
    case Cleared(t) => !LeftOpen(before, t)
  }

  lemma LogStep(log: seq<Event>, e: Event, ticket: nat)
    ensures OpenCommands(log + [e], ticket) == OpenCommands(log, ticket) +
      if e.Opened? && e.schedule.ticket == ticket then 1 else 0
    ensures LeftOpen(log + [e], ticket) ==
      ((e.Opened? && e.ok && e.schedule.ticket == ticket)
      || (LeftOpen(log, ticket) && !(e.Closed? && e.ticket == ticket)))
    ensures Orderly(log + [e]) == (Orderly(log) && Allowed(log, e))
  {
    assert (log + [e])[..|log|] == log;
  }

  // ----- the invariant

  predicate IsOpen(file: Option<Record>, ticket: nat) {
    var s := Stored(file).scheduled;
    s.Some? && s.value.ticket == ticket && s.value.status.Open?
  }

  ghost predicate TicketSafe(w: World, ticket: nat) {
    && OpenCommands(w.log, ticket) <= 1
    && (OpenCommands(w.log, ticket) == 0 ==> !LeftOpen(w.log, ticket))
    && (ticket >= w.tickets ==> OpenCommands(w.log, ticket) == 0)
    && (LeftOpen(w.log, ticket) ==> IsOpen(w.file, ticket))
  }

  predicate StageFits(w: World) {
    var current := Stored(w.file).scheduled;
    match w.stage
    case Idle => true
    case Down => true
    case Due(s, now) =>
      && s.status.Open? && s.openedAt == Some(now) && s.openAt <= now <= s.CloseAt()
      && current.Some? && current.value == s.(status := Pending, openedAt := current.value.openedAt)
        && current.value.status.Pending?
    case Marked(s, now) =>
      && s.status.Open? && s.openedAt == Some(now) && s.openAt <= now <= s.CloseAt()
      && current == Some(s) && OpenCommands(w.log, s.ticket) == 0
    case Holding(s) => s.status.Open? && current == Some(s)
    case Finishing(s, _, _) => s.status.Open? && current == Some(s) && !LeftOpen(w.log, s.ticket)
  }

  ghost predicate Inv(w: World) {
    && (w.stage.Down? || w.memory == Stored(w.file))
    && (var s := Stored(w.file).scheduled;
        s.Some? ==>
          s.value.ticket < w.tickets && (s.value.status.Pending? ==> OpenCommands(w.log, s.value.ticket) == 0))
    && StageFits(w) && Orderly(w.log)
    && forall ticket: nat :: TicketSafe(w, ticket)
  }

  /** Schedules are made and cancelled only between executions and while none is open. */
  predicate Disciplined(w: World, a: Action) {
    a.ScheduleOpening? || a.CancelOpening? ==>
      w.stage.Down? || (w.stage.Idle? && (w.memory.scheduled.Some? ==> w.memory.scheduled.value.status.Pending?))
  }

  predicate DisciplinedRun(w: World, actions: seq<Action>)
    decreases |actions|
  {
    actions == [] || (Disciplined(w, actions[0]) && DisciplinedRun(Step(w, actions[0]), actions[1..]))
  }

  ghost predicate AllClosed(w: World) {
    forall ticket: nat :: !LeftOpen(w.log, ticket)
  }

  lemma NotOpenAllClosed(w: World)
    requires Inv(w)
    requires w.stage.Finishing? || (Stored(w.file).scheduled.Some? ==> Stored(w.file).scheduled.value.status.Pending?)
    ensures AllClosed(w)
  {
    forall ticket: nat ensures !LeftOpen(w.log, ticket) {
      assert TicketSafe(w, ticket);
    }
  }

  /** While nothing is left open, the record may change in any way without breaking the log. */
  lemma SaveSafe(w: World, r: Record, saved: bool, ticket: nat)
    requires Inv(w) && AllClosed(w)
    ensures var next := Save(w, r, saved);
      OpenCommands(next.log, ticket) == OpenCommands(w.log, ticket) && !LeftOpen(next.log, ticket) && Orderly(next.log)
  {
    var gone := Removal(w.memory.scheduled, r.scheduled);
    if gone != [] {
      LogStep(w.log, gone[0], ticket);
    } else {
      assert w.log + gone == w.log;
    }
  }

  lemma SaveKeepsInv(w: World, r: Record, saved: bool, tickets: nat, stage: Stage)
    requires Inv(w) && AllClosed(w) && !w.stage.Down? && w.tickets <= tickets
    requires r.scheduled.Some? ==>
      r.scheduled.value.ticket < tickets && OpenCommands(w.log, r.scheduled.value.ticket) == 0
    requires stage.Idle? || (stage.Marked? && StageFits(w.(file := Some(r), stage := stage)) && saved && Storable(r))
    ensures Inv(Save(w, r, saved).(tickets := tickets, stage := stage))
  {
    var next := Save(w, r, saved).(tickets := tickets, stage := stage);
    forall ticket: nat ensures TicketSafe(next, ticket) {
      assert TicketSafe(w, ticket);
      SaveSafe(w, r, saved, ticket);
    }
    SaveSafe(w, r, saved, 0);
    if r.scheduled.Some? { SaveSafe(w, r, saved, r.scheduled.value.ticket); }
    if Stored(w.file).scheduled.Some? { SaveSafe(w, r, saved, Stored(w.file).scheduled.value.ticket); }
  }

  /** A command to the valve keeps the invariant. */
  lemma CommandKeepsInv(w: World, a: Action)
    requires Inv(w) && ((a.CommandOpen? && w.stage.Marked?) || (a.CommandClose? && w.stage.Holding?))
    ensures Inv(Step(w, a))
  {
    var next := Step(w, a);
    var e := if a.CommandOpen? then Opened(w.stage.s, w.stage.now, a.ok) else Closed(w.stage.s.ticket, a.ok);
    forall ticket: nat ensures TicketSafe(next, ticket) {
      assert TicketSafe(w, ticket);
      LogStep(w.log, e, ticket);
    }
    LogStep(w.log, e, w.stage.s.ticket);
    assert TicketSafe(w, w.stage.s.ticket);
  }

  lemma IdleKeepsInv(w: World, a: Action)
    requires Inv(w) && Disciplined(w, a) && w.stage.Idle? && (a.ScheduleOpening? || a.CancelOpening? || a.Wake?)
    ensures Inv(Step(w, a))
  {
    match a
    case ScheduleOpening(openAt, minutes, saved) =>
      NotOpenAllClosed(w);
      assert TicketSafe(w, w.tickets);
      SaveKeepsInv(w, Record(Some(Schedule(w.tickets, openAt, minutes, Pending, None)), None, None), saved,
        w.tickets + 1, Idle);
    case CancelOpening(saved) =>
      NotOpenAllClosed(w);
      SaveKeepsInv(w, w.memory.(scheduled := None), saved, w.tickets, Idle);
    case Wake(now, saved) =>
      if Step(w, a).stage.Idle? && w.memory.scheduled.Some? {
        NotOpenAllClosed(w);
        SaveKeepsInv(w, Without(w.memory, Missed, now), saved, w.tickets, Idle);
      }
      SameLogKeepsTickets(w, Step(w, a));
  }

  /** Every disciplined step keeps the invariant, whatever fails and wherever the process crashes. */
  lemma StepKeepsInv(w: World, a: Action)
    requires Inv(w) && Disciplined(w, a)
    ensures Inv(Step(w, a))
  {
    if w.stage.Idle? && (a.ScheduleOpening? || a.CancelOpening? || a.Wake?) {
      IdleKeepsInv(w, a);
    } else if (a.CommandOpen? && w.stage.Marked?) || (a.CommandClose? && w.stage.Holding?) {
      CommandKeepsInv(w, a);
    } else if a.Finish? && w.stage.Finishing? {
      NotOpenAllClosed(w);
      SaveKeepsInv(w, Without(w.memory, w.stage.outcome, w.stage.at), a.saved, w.tickets, Idle);
    } else {
      if a.MarkOpen? && w.stage.Due? && a.saved && Storable(w.memory.(scheduled := Some(w.stage.s))) {
        NotOpenAllClosed(w);
        SaveKeepsInv(w, w.memory.(scheduled := Some(w.stage.s)), a.saved, w.tickets, Marked(w.stage.s, w.stage.now));
      }
      SameLogKeepsTickets(w, Step(w, a));
    }
  }

  lemma SameLogKeepsTickets(w: World, next: World)
    requires Inv(w)
    ensures next.log == w.log && next.file == w.file && next.tickets == w.tickets ==>
      forall ticket: nat :: TicketSafe(next, ticket)
  {
    if next.log == w.log && next.file == w.file && next.tickets == w.tickets {
      forall ticket: nat ensures TicketSafe(next, ticket) { assert TicketSafe(w, ticket); }
    }
  }

  lemma InitialInv()
    ensures Inv(Initial())
  {
    forall ticket: nat ensures TicketSafe(Initial(), ticket) {
    }
  }

  lemma {:induction false} RunKeepsInv(w: World, actions: seq<Action>)
    requires Inv(w) && DisciplinedRun(w, actions)
    ensures Inv(Run(w, actions))
    decreases |actions|
  {
    if actions != [] {
      StepKeepsInv(w, actions[0]);
      RunKeepsInv(Step(w, actions[0]), actions[1..]);
    }
  }

  // ----- safety over whole runs

  /**
   * A schedule commands open at most once, only by a reading inside its window; whatever is left open is recorded so.
   */
  lemma ScheduleOpensOnce(actions: seq<Action>, ticket: nat)
    requires DisciplinedRun(Initial(), actions)
    ensures var w := Run(Initial(), actions);
      && OpenCommands(w.log, ticket) <= 1
      && Orderly(w.log)
      && (LeftOpen(w.log, ticket) ==> IsOpen(w.file, ticket))
  {
    InitialInv();
    RunKeepsInv(Initial(), actions);
    assert TicketSafe(Run(Initial(), actions), ticket);
  }

  lemma {:induction false} OrderlyAt(log: seq<Event>, i: nat)
    requires Orderly(log) && i < |log|
    ensures Allowed(log[..i], log[i])
    decreases |log|
  {
    if i < |log| - 1 {
      OrderlyAt(log[..|log| - 1], i);
      assert log[..|log| - 1][..i] == log[..i];
    }
  }

  lemma {:induction false} LeftOpenUnlessClosed(log: seq<Event>, i: nat, ticket: nat)
    requires i < |log| && log[i].Opened? && log[i].ok && log[i].schedule.ticket == ticket && !LeftOpen(log, ticket)
    ensures exists k :: i < k < |log| && log[k].Closed? && log[k].ticket == ticket
    decreases |log|
  {
    var last := |log| - 1;
    if !(log[last].Closed? && log[last].ticket == ticket) {
      LeftOpenUnlessClosed(log[..last], i, ticket);
      var k :| i < k < |log[..last]| && log[..last][k].Closed? && log[..last][k].ticket == ticket;
      assert log[k].Closed?;
    }
  }

  /** Every successful opening is followed by a close command before its schedule is removed from the record. */
  lemma ClosedBeforeCleared(actions: seq<Action>, i: nat, j: nat)
    requires DisciplinedRun(Initial(), actions) && i < j < |Run(Initial(), actions).log|
    requires var log := Run(Initial(), actions).log;
      log[i].Opened? && log[i].ok && log[j] == Cleared(log[i].schedule.ticket)
    ensures var log := Run(Initial(), actions).log;
      exists k :: i < k < j && log[k].Closed? && log[k].ticket == log[i].schedule.ticket
  {
    var log := Run(Initial(), actions).log;
    ScheduleOpensOnce(actions, 0);
    OrderlyAt(log, j);
    LeftOpenUnlessClosed(log[..j], i, log[i].schedule.ticket);
    var k :| i < k < |log[..j]| && log[..j][k].Closed? && log[..j][k].ticket == log[i].schedule.ticket;
    assert log[k].Closed?;
  }

  /** The record says open before the valve is told to open. */
  lemma MarkedBeforeOpening(actions: seq<Action>, ok: bool)
    requires DisciplinedRun(Initial(), actions)
    ensures var w := Run(Initial(), actions);
      Step(w, CommandOpen(ok)).log != w.log ==> w.stage.Marked? && IsOpen(w.file, w.stage.s.ticket)
  {
    InitialInv();
    RunKeepsInv(Initial(), actions);
  }

  /**
   * After a crash with the valve left open, restarting and waking closes it and removes the schedule, without opening
   * again.
   */
  lemma RestartCloses(w: World, ticket: nat, now: int, at: int)
    requires Inv(w) && w.stage.Down? && LeftOpen(w.log, ticket)
    ensures var end := Run(w, [Restart, Wake(now, true), CommandClose(true, at), Finish(true)]);
      && !LeftOpen(end.log, ticket) && end.memory.scheduled.None? && end.memory.message == Some(Completed)
      && OpenCommands(end.log, ticket) == OpenCommands(w.log, ticket)
  {
    assert TicketSafe(w, ticket);
    var up := Step(w, Restart);
    RunOn(w, Restart, [Wake(now, true), CommandClose(true, at), Finish(true)]);
    RunOn(up, Wake(now, true), [CommandClose(true, at), Finish(true)]);
    HeldIsClosed(Step(up, Wake(now, true)), ticket, at);
  }

  lemma HeldIsClosed(w: World, ticket: nat, at: int)
    requires w.stage.Holding? && w.memory.scheduled == Some(w.stage.s) && w.stage.s.ticket == ticket
    ensures var end := Run(w, [CommandClose(true, at), Finish(true)]);
      && !LeftOpen(end.log, ticket) && end.memory.scheduled.None? && end.memory.message == Some(Completed)
      && OpenCommands(end.log, ticket) == OpenCommands(w.log, ticket)
  {
    var closed := Step(w, CommandClose(true, at));
    LogStep(w.log, Closed(ticket, true), ticket);
    LogStep(closed.log, Cleared(ticket), ticket);
    RunOn(w, CommandClose(true, at), [Finish(true)]);
    RunOn(closed, Finish(true), []);
  }

  lemma RunOn(w: World, a: Action, rest: seq<Action>)
    ensures Run(w, [a] + rest) == Run(Step(w, a), rest)
    ensures DisciplinedRun(w, [a] + rest) == (Disciplined(w, a) && DisciplinedRun(Step(w, a), rest))
  {
    assert ([a] + rest)[1..] == rest;
  }

  // ----- what the discipline excludes

  /**
   * Cancelling while the valve is open and then crashing leaves it open with an empty record, so no restart closes it.
   */
  lemma CancelWhileOpenLeavesItOpen(at: int)
    requires at > 0
    ensures exists actions :: CancelledWhileOpen(actions)
  {
    var s := Schedule(0, at, 1, Open, Some(at));
    var scheduled := Step(Initial(), ScheduleOpening(at, 1, true));
    var due := Step(scheduled, Wake(at, true));
    var marked := Step(due, MarkOpen(true));
    var held := Step(marked, CommandOpen(true));
    var cancelled := Step(held, CancelOpening(true));
    assert held.stage == Holding(s);
    LogStep(held.log, Cleared(0), 0);
    LogStep([], Opened(s, at, true), 0);
    var actions := [ScheduleOpening(at, 1, true), Wake(at, true), MarkOpen(true), CommandOpen(true),
      CancelOpening(true), Crash];
    RunOn(Initial(), actions[0], actions[1..]);
    RunOn(scheduled, actions[1], actions[2..]);
    RunOn(due, actions[2], actions[3..]);
    RunOn(marked, actions[3], actions[4..]);
    RunOn(held, actions[4], actions[5..]);
    RunOn(cancelled, Crash, []);
    assert [actions[5]] + [] == actions[5..];
    var end := Step(cancelled, Crash);
    assert Run(Initial(), actions) == end;
    assert CancelledWhileOpen(actions);
  }

  predicate CancelledWhileOpen(actions: seq<Action>) {
    var w := Run(Initial(), actions);
    w.stage.Down? && LeftOpen(w.log, 0) && Stored(w.file).scheduled.None?
  }

  /** Whatever is left open is recorded as open, so a restart would close it. */
  ghost predicate Recorded(w: World) {
    forall ticket: nat :: LeftOpen(w.log, ticket) ==> IsOpen(w.file, ticket)
  }

  ghost predicate StaysRecorded(w: World) {
    forall actions :: DisciplinedRun(w, actions) ==> Recorded(Run(w, actions))
  }

  /**
   * Weaker than the invariant: what remains true of it when the record is rewritten during an execution with all
   * closed.
   */
  ghost predicate Contained(w: World) {
    && (w.stage.Down? || w.memory == Stored(w.file))
    && Recorded(w)
    && match w.stage
       case Idle => true
       case Down => true
       case Due(s, _) => s.status.Open? && AllClosed(w)
       case Marked(s, _) => s.status.Open? && AllClosed(w) && Stored(w.file).scheduled == Some(s)
       case Holding(s) => forall ticket: nat :: LeftOpen(w.log, ticket) ==> ticket == s.ticket
       case Finishing(_, _, _) => AllClosed(w)
  }

  lemma InvContained(w: World)
    requires Inv(w)
    ensures Contained(w)
  {
    forall ticket: nat ensures LeftOpen(w.log, ticket) ==> IsOpen(w.file, ticket) {
      assert TicketSafe(w, ticket);
    }
    if w.stage.Marked? { assert TicketSafe(w, w.stage.s.ticket); }
  }

  lemma SaveKeepsClosed(w: World, r: Record, saved: bool)
    requires AllClosed(w)
    ensures AllClosed(Save(w, r, saved))
  {
    var gone := Removal(w.memory.scheduled, r.scheduled);
    forall ticket: nat ensures !LeftOpen(Save(w, r, saved).log, ticket) {
      if gone != [] { LogStep(w.log, gone[0], ticket); } else { assert w.log + gone == w.log; }
    }
  }

  lemma CommandContained(w: World, a: Action)
    requires Contained(w) && ((a.CommandOpen? && w.stage.Marked?) || (a.CommandClose? && w.stage.Holding?))
    ensures Contained(Step(w, a))
  {
    var e := if a.CommandOpen? then Opened(w.stage.s, w.stage.now, a.ok) else Closed(w.stage.s.ticket, a.ok);
    forall ticket: nat
      ensures LeftOpen(Step(w, a).log, ticket) <==> e.Opened? && e.ok && ticket == e.schedule.ticket
    {
      LogStep(w.log, e, ticket);
    }
  }

  lemma StepContained(w: World, a: Action)
    requires Contained(w) && Disciplined(w, a)
    ensures Contained(Step(w, a))
  {
    if (a.CommandOpen? && w.stage.Marked?) || (a.CommandClose? && w.stage.Holding?) {
      CommandContained(w, a);
    } else if !w.stage.Down? {
      match a
      case ScheduleOpening(openAt, minutes, saved) =>
        SaveKeepsClosed(w, Record(Some(Schedule(w.tickets, openAt, minutes, Pending, None)), None, None), saved);
      case CancelOpening(saved) => SaveKeepsClosed(w, w.memory.(scheduled := None), saved);
      case Wake(now, saved) =>
        if AllClosed(w) { SaveKeepsClosed(w, Without(w.memory, Missed, now), saved); }
      case MarkOpen(saved) =>
        if w.stage.Due? { SaveKeepsClosed(w, w.memory.(scheduled := Some(w.stage.s)), saved); }
      case Finish(saved) =>
        if w.stage.Finishing? { SaveKeepsClosed(w, Without(w.memory, w.stage.outcome, w.stage.at), saved); }
      case _ =>
    }
  }

  lemma {:induction false} RunContained(w: World, actions: seq<Action>)
    requires Contained(w) && DisciplinedRun(w, actions)
    ensures Contained(Run(w, actions))
    decreases |actions|
  {
    if actions != [] {
      StepContained(w, actions[0]);
      RunContained(Step(w, actions[0]), actions[1..]);
    }
  }

  /** The action, a cancellation or a new schedule, reaches the file. */
  predicate Rewrites(a: Action) {
    match a
    case CancelOpening(saved) => saved
    case ScheduleOpening(openAt, minutes, saved) => saved && openAt != ZERO_TIME && 0 < minutes <= 1440
    case _ => false
  }

  lemma RewriteContained(w: World, a: Action)
    requires Inv(w) && !w.stage.Down? && (a.CancelOpening? || a.ScheduleOpening?)
    requires Rewrites(a) ==> AllClosed(w) && !w.stage.Marked?
    ensures Contained(Step(w, a))
  {
    InvContained(w);
    match a
    case ScheduleOpening(openAt, minutes, saved) =>
      if Rewrites(a) {
        SaveKeepsClosed(w, Record(Some(Schedule(w.tickets, openAt, minutes, Pending, None)), None, None), saved);
      }
    case CancelOpening(saved) =>
      if saved { SaveKeepsClosed(w, w.memory.(scheduled := None), saved); }
  }

  /** Rewriting the record with a valve left open, or about to be opened, lets a later run leave it open unrecorded. */
  lemma LeftOpenUncontained(w: World, a: Action, ticket: nat)
    requires Inv(w) && !w.stage.Down? && Rewrites(a) && LeftOpen(w.log, ticket)
    ensures !StaysRecorded(Step(w, a))
  {
    var next := Step(w, a);
    assert TicketSafe(w, ticket);
    LogStep(w.log, Cleared(ticket), ticket);
    assert !Recorded(next);
    assert DisciplinedRun(next, []) && Run(next, []) == next;
  }

  lemma MarkedOpens(w: World)
    requires w.stage.Marked? && !IsOpen(w.file, w.stage.s.ticket)
    ensures !StaysRecorded(w)
  {
    LogStep(w.log, Opened(w.stage.s, w.stage.now, true), w.stage.s.ticket);
    var after := Step(w, CommandOpen(true));
    assert !Recorded(after);
    assert Run(w, []) == w && Run(w, [CommandOpen(true)] + []) == after;
    RunOn(w, CommandOpen(true), []);
    assert DisciplinedRun(w, [CommandOpen(true)] + []);
  }

  lemma MarkedUncontained(w: World, a: Action)
    requires Inv(w) && w.stage.Marked? && Rewrites(a)
    ensures !StaysRecorded(Step(w, a))
  {
    var next := Step(w, a);
    assert next.stage == w.stage && !IsOpen(next.file, w.stage.s.ticket);
    MarkedOpens(next);
  }

  /**
   * At any point of any execution: a cancellation or new schedule that reaches the file keeps whatever is left open
   * recorded, through all later disciplined steps and crashes, exactly when nothing is left open and no open command is
   * about to go out.
   */
  lemma RewriteSafeIff(w: World, a: Action)
    requires Inv(w) && !w.stage.Down? && (a.CancelOpening? || a.ScheduleOpening?)
    ensures StaysRecorded(Step(w, a)) <==> (Rewrites(a) ==> AllClosed(w) && !w.stage.Marked?)
  {
    if Rewrites(a) && (!AllClosed(w) || w.stage.Marked?) {
      if w.stage.Marked? {
        MarkedUncontained(w, a);
      } else {
        var ticket: nat :| LeftOpen(w.log, ticket);
        LeftOpenUncontained(w, a, ticket);
      }
    } else {
      RewriteContained(w, a);
      forall actions | DisciplinedRun(Step(w, a), actions) ensures Recorded(Run(Step(w, a), actions)) {
        RunContained(Step(w, a), actions);
      }
    }
  }

  // ----- scheduling

  /** The next instant at the given local time: today's if it is still ahead, otherwise tomorrow's. */
  function NextOpening(c: Clock, now: int, timeOfDay: int): int {
    var today := c.date(c.local(now).day, timeOfDay);
    if today > now then today else c.date(c.local(today).day + 1, c.local(today).timeOfDay)
  }

  /** Where the clock is regular today and tomorrow, the opening lies ahead, today or tomorrow. */
  lemma OpeningIsAhead(c: Clock, now: int, timeOfDay: int)
    requires RegularOn(c, c.local(now).day, c.local(now).day + 1) && 0 <= timeOfDay < 86_400_000_000_000
    ensures now < NextOpening(c, now, timeOfDay)
    ensures c.local(now).day <= c.local(NextOpening(c, now, timeOfDay)).day <= c.local(now).day + 1
  {
    var lo := c.local(now).day;
    var today := c.date(lo, timeOfDay);
    assert KeepsDate(c, lo, timeOfDay);
    if today <= now {
      assert DatesInOrder(c, today, lo);
      assert KeepsDate(c, lo + 1, c.local(today).timeOfDay);
      BeforeMidnight(c, lo, lo + 1, now, NextOpening(c, now, timeOfDay));
    }
  }

  /** The civil time exists on the date and is read back. */
  predicate HasTime(c: Clock, day: int, timeOfDay: int) { c.local(c.date(day, timeOfDay)) == Local(day, timeOfDay) }

  /**
   * Where the clock runs straight through today and tomorrow, the opening is the very next instant that shows the asked
   * time of day.
   */
  lemma OpeningShowsTime(c: Clock, now: int, timeOfDay: int)
    requires StraightOn(c, c.local(now).day, c.local(now).day + 1) && 0 <= timeOfDay < 86_400_000_000_000
    requires HasTime(c, c.local(now).day, timeOfDay) && HasTime(c, c.local(now).day + 1, timeOfDay)
    ensures now < NextOpening(c, now, timeOfDay) && c.local(NextOpening(c, now, timeOfDay)).timeOfDay == timeOfDay
    ensures forall t :: now < t < NextOpening(c, now, timeOfDay) ==> c.local(t).timeOfDay != timeOfDay
  {
    var lo, at := c.local(now).day, NextOpening(c, now, timeOfDay);
    OpeningIsAhead(c, now, timeOfDay);
    assert Within(c, at, lo, lo + 1) && ReadsStraight(c, at);
    forall t | now < t < at ensures c.local(t).timeOfDay != timeOfDay {
      DatesGrow(c, lo, lo + 1, now, t);
      NoLaterDate(c, lo, lo + 2, t, at);
      assert Within(c, t, lo, lo + 1) && ReadsStraight(c, t);
      var today := c.date(lo, timeOfDay);
      assert Within(c, today, lo, lo + 1) && ReadsStraight(c, today);
    }
  }

  // ----- the application

  datatype ScheduleError = NotPositive | NotWholeMinutes | BadTime | SaveFailed

  /**
   * How the effects of one execution turn out: the saves, the valve commands, the sleep, and the clock before and after
   * it.
   */
  datatype Outcomes = Outcomes(marked: bool, didOpen: bool, held: int, slept: bool, closed: bool, after: int,
    finished: bool)

  /** The sleep before the close command, until the schedule's end. */
  function Wait(scheduled: Option<Schedule>, held: int): int {
    if scheduled.Some? then scheduled.value.CloseAt() - held else 0
  }

  /** The actions of one execution; those that do not apply at their stage change nothing. */
  function Execution(scheduled: Option<Schedule>, now: int, o: Outcomes): seq<Action> {
    [Wake(now, o.marked), MarkOpen(o.marked), CommandOpen(o.didOpen),
      if o.slept || Wait(scheduled, o.held) <= 0 then CommandClose(o.closed, o.after) else Interrupt,
      Finish(o.finished)]
  }

  /** The record and the log once an outcome is to be recorded over `r`. */
  predicate Ended(r: Record, log: seq<Event>, ticket: nat, outcome: Outcome, at: int, saved: bool, end: World) {
    if saved then end.memory == Record(None, Some(outcome), Some(at)) && end.log == log + [Cleared(ticket)]
    else end.memory == r && end.log == log
  }

  /**
   * One execution over the schedule `s`, case by case. A pending one: nothing before its time, missed after its end,
   * otherwise recorded open and then opened. An open one is closed at its end and its outcome recorded.
   */
  predicate Executed(w: World, s: Schedule, now: int, o: Outcomes, end: World) {
    var closeAt := s.openAt + s.minutes * 60_000_000_000;
    if s.status.Pending? && now < s.openAt then end.memory == w.memory && end.log == w.log
    else if s.status.Pending? && now > closeAt then Ended(w.memory, w.log, s.ticket, Missed, now, o.marked, end)
    else if s.status.Pending? && !o.marked then end.memory == w.memory && end.log == w.log
    else
      var kept := if s.status.Pending? then s.(status := Open, openedAt := Some(now)) else s;
      var record := w.memory.(scheduled := Some(kept));
      var log := w.log + if s.status.Pending? then [Opened(kept, now, o.didOpen)] else [];
      if s.status.Pending? && !o.didOpen then Ended(record, log, s.ticket, OpenFailed, now, o.finished, end)
      else if o.held < closeAt && !o.slept then end.memory == record && end.log == log
      else
        Ended(record, log + [Closed(s.ticket, o.closed)], s.ticket, if o.closed then Completed else CloseFailed,
          o.after, o.finished, end)
  }

  /** The sleep an execution asks for once the valve is open: until `minutes` after the time it was scheduled for. */
  function Sleep(scheduled: Option<Schedule>, now: int, o: Outcomes): Option<int> {
    if scheduled.None? then None
    else
      var s := scheduled.value;
      var closeAt := s.openAt + s.minutes * 60_000_000_000;
      var holds := s.status.Open? || (s.openAt <= now <= closeAt && o.marked && o.didOpen);
      if holds && o.held < closeAt then Some(closeAt - o.held) else None
  }

  /** What an execution leaves, case by case. */
  lemma ExecutionCases(w: World, now: int, o: Outcomes)
    requires w.stage.Idle? && w.memory.scheduled.Some? && Storable(w.memory)
    ensures var end := Run(w, Execution(w.memory.scheduled, now, o));
      && Executed(w, w.memory.scheduled.value, now, o, end) && end.stage.Idle?
      && end.tickets == w.tickets && (end.memory != w.memory ==> end.file == Some(end.memory))
  {
    var s := w.memory.scheduled.value;
    var acts := Execution(w.memory.scheduled, now, o);
    RunFive(w, acts[0], acts[1], acts[2], acts[3], acts[4]);
    if s.status.Open? {
      HoldingCases(w.(stage := Holding(s)), s.CloseAt() <= o.held, o);
    } else if s.openAt <= now <= s.CloseAt() && o.marked {
      OpenedCases(w, s, now, o);
    }
  }

  lemma OpenedCases(w: World, s: Schedule, now: int, o: Outcomes)
    requires w.stage.Idle? && w.memory.scheduled == Some(s) && s.status.Pending? && Storable(w.memory)
    requires s.openAt <= now <= s.CloseAt() && o.marked
    ensures var end := Run(w, Execution(w.memory.scheduled, now, o));
      && Executed(w, s, now, o, end) && end.stage.Idle? && end.tickets == w.tickets && end.file == Some(end.memory)
  {
    var acts := Execution(w.memory.scheduled, now, o);
    RunFive(w, acts[0], acts[1], acts[2], acts[3], acts[4]);
    OpeningSteps(w, s, now, o);
    var third := Step(Step(Step(w, acts[0]), acts[1]), acts[2]);
    if o.didOpen { HoldingCases(third, s.CloseAt() <= o.held, o); }
  }

  /** A due schedule is recorded open, and the valve is commanded. */
  lemma OpeningSteps(w: World, s: Schedule, now: int, o: Outcomes)
    requires w.stage.Idle? && w.memory.scheduled == Some(s) && s.status.Pending? && Storable(w.memory)
    requires s.openAt <= now <= s.CloseAt() && o.marked
    ensures var kept := s.(status := Open, openedAt := Some(now)); var record := w.memory.(scheduled := Some(kept));
      Step(Step(Step(w, Wake(now, o.marked)), MarkOpen(o.marked)), CommandOpen(o.didOpen)) ==
        World(Some(record), record, if o.didOpen then Holding(kept) else Finishing(kept, OpenFailed, now), w.tickets,
          w.log + [Opened(kept, now, o.didOpen)])
  {
    var due := s.(status := Open, openedAt := Some(now));
    assert Step(w, Wake(now, o.marked)) == w.(stage := Due(due, now));
    assert w.log + [] == w.log;
  }

  /** From the open valve on: interrupted, or closed and the outcome recorded. */
  lemma HoldingCases(w: World, past: bool, o: Outcomes)
    requires w.stage.Holding? && w.memory.scheduled == Some(w.stage.s)
    ensures var end := Step(Step(w, if o.slept || past then CommandClose(o.closed, o.after) else Interrupt),
        Finish(o.finished));
      && end.stage.Idle? && end.tickets == w.tickets && (end.file == w.file || end.file == Some(end.memory))
      && if !o.slept && !past then end.memory == w.memory && end.log == w.log && end.file == w.file
      else
        && Ended(w.memory, w.log + [Closed(w.stage.s.ticket, o.closed)], w.stage.s.ticket,
             if o.closed then Completed else CloseFailed, o.after, o.finished, end)
        && (end.file == if o.finished then Some(end.memory) else w.file)
  {
  }

  /**
   * In its window a pending schedule opens the valve: with every effect succeeding it is opened by the present reading,
   * closed and taken off the record as completed.
   */
  lemma OpensInWindow(w: World, s: Schedule, now: int, o: Outcomes)
    requires w.stage.Idle? && w.memory.scheduled == Some(s) && s.status.Pending? && Storable(w.memory)
    requires s.openAt <= now <= s.openAt + s.minutes * 60_000_000_000
    requires o.marked && o.didOpen && (o.slept || o.held >= s.openAt + s.minutes * 60_000_000_000)
    requires o.closed && o.finished
    ensures var end := Run(w, Execution(Some(s), now, o));
      && end.log == w.log + [Opened(s.(status := Open, openedAt := Some(now)), now, true), Closed(s.ticket, true),
        Cleared(s.ticket)]
      && end.memory == Record(None, Some(Completed), Some(o.after)) && end.file == Some(end.memory)
  {
    ExecutionCases(w, now, o);
  }

  /** A schedule is recorded as missed exactly when it is pending and its whole window has passed. */
  lemma MissedIff(w: World, s: Schedule, now: int, o: Outcomes)
    requires w.stage.Idle? && w.memory.scheduled == Some(s) && Storable(w.memory) && o.marked
    ensures Run(w, Execution(Some(s), now, o)).memory == Record(None, Some(Missed), Some(now)) <==>
      s.status.Pending? && now > s.openAt + s.minutes * 60_000_000_000
  {
    ExecutionCases(w, now, o);
  }

  class App {
    var file: Option<Record>
    var memory: Record
    var tickets: nat
    ghost var log: seq<Event>

    ghost function AsWorld(stage: Stage): World
      reads this
    {
      World(file, memory, stage, tickets, log)
    }

    constructor ()
      ensures AsWorld(Idle) == Initial()
    {
      file, memory, tickets, log := None, EMPTY, 0, [];
    }

    method SaveAndApply(r: Record, saved: bool, ghost stage: Stage) returns (ok: bool)
      modifies this
      ensures AsWorld(stage) == Save(old(AsWorld(stage)), r, saved) && ok == (saved && Storable(r))
    {
      if r.scheduled.Some? {
        var s := r.scheduled.value;
        if s.openAt == ZERO_TIME || s.minutes <= 0 || s.minutes > 1440 { return false; }
      }
      if !saved { return false; }
      file := Some(r);
      log := log + Removal(memory.scheduled, r.scheduled);
      memory := r;
      return true;
    }

    method ScheduleGreyWaterOpening(c: Clock, now: int, time: Option<int>, duration: int, saved: bool)
      returns (error: Option<ScheduleError>)
      modifies this
      ensures error == Some(NotPositive) <==> duration <= 0
      ensures error == Some(NotWholeMinutes) <==> duration > 0 && duration % 60_000_000_000 != 0
      ensures error == Some(BadTime) <==> duration > 0 && duration % 60_000_000_000 == 0 && time.None?
      ensures duration > 0 && duration % 60_000_000_000 == 0 && time.Some? ==>
        (error.None? <==>
          saved && duration <= 86_400_000_000_000 && NextOpening(c, now, time.value) != -62_135_596_800_000_000_000)
      ensures error.None? || error == Some(SaveFailed) ==>
        AsWorld(Idle) == Step(old(AsWorld(Idle)),
          ScheduleOpening(NextOpening(c, now, time.value), duration / 60_000_000_000, saved))
      ensures error.None? ==>
        memory.scheduled == Some(Schedule(old(tickets), NextOpening(c, now, time.value), duration / 60_000_000_000,
        Pending, None))
      ensures error.Some? ==> file == old(file) && memory == old(memory) && log == old(log)
    {
      if duration <= 0 { return Some(NotPositive); }
      var minutes := duration / 60_000_000_000;
      if minutes * 60_000_000_000 != duration { return Some(NotWholeMinutes); }
      if time.None? { return Some(BadTime); }
      var openAt := c.date(c.local(now).day, time.value);
      if openAt <= now {
        openAt := c.date(c.local(openAt).day + 1, c.local(openAt).timeOfDay);
      }
      var ok := SaveAndApply(Record(Some(Schedule(tickets, openAt, minutes, Pending, None)), None, None), saved, Idle);
      tickets := tickets + 1;
      return if ok then None else Some(SaveFailed);
    }

    method CancelGreyWaterOpening(saved: bool) returns (ok: bool)
      modifies this
      ensures AsWorld(Idle) == Step(old(AsWorld(Idle)), CancelOpening(saved)) && ok == saved
      ensures memory == if saved then old(memory).(scheduled := None) else old(memory)
      ensures file == if saved then Some(memory) else old(file)
    {
      ok := SaveAndApply(memory.(scheduled := None), saved, Idle);
    }

    /** `wait` is the sleep asked for before the valve is closed, if any. */
    method ExecuteDue(now: int, o: Outcomes) returns (wait: Option<int>)
      modifies this
      ensures AsWorld(Idle) == Run(old(AsWorld(Idle)), Execution(old(memory.scheduled), now, o))
      ensures Storable(old(memory)) ==> wait == Sleep(old(memory.scheduled), now, o)
    {
      wait := None;
      ghost var start := AsWorld(Idle);
      ghost var acts := Execution(memory.scheduled, now, o);
      RunFive(start, acts[0], acts[1], acts[2], acts[3], acts[4]);
      if memory.scheduled.None? { return; }
      var scheduled := memory.scheduled.value;
      var closeAt := scheduled.openAt + scheduled.minutes * MINUTE;
      if scheduled.status.Pending? {
        if now < scheduled.openAt { return; }
        if now > closeAt {
          var _ := SaveAndApply(Record(None, Some(Missed), Some(now)), o.marked, Idle);
          return;
        }
        scheduled := scheduled.(status := Open, openedAt := Some(now));
        ghost var due := Due(scheduled, now);
        assert AsWorld(due) == Step(start, acts[0]);
        var ok := SaveAndApply(memory.(scheduled := Some(scheduled)), o.marked, due);
        if !ok { return; }
        log := log + [Opened(scheduled, now, o.didOpen)];
        if !o.didOpen {
          var _ := SaveAndApply(Record(None, Some(OpenFailed), Some(now)), o.finished,
            Finishing(scheduled, OpenFailed, now));
          return;
        }
      }
      wait := HoldAndClose(scheduled, closeAt, o);
    }

    /** The second half of an execution: the open valve is held until `closeAt`, then closed. */
    method HoldAndClose(scheduled: Schedule, closeAt: int, o: Outcomes) returns (wait: Option<int>)
      modifies this
      ensures AsWorld(Idle) == Step(Step(old(AsWorld(Holding(scheduled))),
        if o.slept || closeAt <= o.held then CommandClose(o.closed, o.after) else Interrupt), Finish(o.finished))
      ensures wait == if o.held < closeAt then Some(closeAt - o.held) else None
    {
      wait := None;
      if closeAt - o.held > 0 {
        wait := Some(closeAt - o.held);
        if !o.slept { return; }
      }
      log := log + [Closed(scheduled.ticket, o.closed)];
      var outcome := if o.closed then Completed else CloseFailed;
      var _ := SaveAndApply(Record(None, Some(outcome), Some(o.after)), o.finished,
        Finishing(scheduled, outcome, o.after));
    }

    /** A restarted process starts from the file. */
    method Load()
      modifies this
      ensures AsWorld(Idle) == Run(old(AsWorld(Idle)), [Crash, Restart])
    {
      ghost var start := AsWorld(Idle);
      memory := file.GetOr(EMPTY);
      RunOn(start, Crash, [Restart]);
      RunOn(Step(start, Crash), Restart, []);
    }
  }

  lemma RunFive(w: World, a: Action, b: Action, c: Action, d: Action, e: Action)
    ensures Run(w, [a, b, c, d, e]) == Step(Step(Step(Step(Step(w, a), b), c), d), e)
  {
    RunOn(w, a, [b, c, d, e]);
    RunOn(Step(w, a), b, [c, d, e]);
    RunOn(Step(Step(w, a), b), c, [d, e]);
    RunOn(Step(Step(Step(w, a), b), c), d, [e]);
    RunOn(Step(Step(Step(Step(w, a), b), c), d), e, []);
  }
}
