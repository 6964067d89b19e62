/** service/notifications/alerts.go: temperature alerts with crossing and repeat delivery, and offline notices. */
module Alerts {
  import opened Wrappers
  import opened Instants

  const REPEAT_INTERVAL: int := 5 * MINUTE
  const DEBOUNCE_INTERVAL: int := 10 * MINUTE
  const OFFLINE_AFTER: int := 30 * MINUTE

  datatype Mode = Crossing | Repeat | Unset | Unsupported(name: string)

  datatype Alert = Alert(id: string, name: string, sensor: string, high: Option<Number>, low: Option<Number>,
    mode: Mode)

  // ----- validation

  /** The White_Space property of the Unicode Character Database. */
  predicate IsSpace(c: char) {
    var code := c as int;
    || 9 <= code <= 13 || code == 32 || code == 0x85 || code == 0xa0 || code == 0x1680 || 0x2000 <= code <= 0x200a
    || code == 0x2028 || code == 0x2029 || code == 0x202f || code == 0x205f || code == 0x3000
  }

  /** strings.TrimSpace leaves nothing. */
  predicate Blank(s: string) { forall i :: 0 <= i < |s| ==> IsSpace(s[i]) }

  predicate ValidAlert(a: Alert, known: set<string>) {
    && !Blank(a.id) && !Blank(a.name) && a.sensor in known
    && (a.high.Some? || a.low.Some?) && (a.high.Some? ==> a.high.value.Finite?) && (a.low.Some? ==> a.low.value.Finite?)
    && (a.high.Some? && a.low.Some? ==> a.low.value.value < a.high.value.value)
    && !a.mode.Unsupported?
  }

  predicate UniqueIds(alerts: seq<Alert>) {
    forall i, j :: 0 <= i < j < |alerts| ==> alerts[i].id != alerts[j].id
  }

  predicate ValidSettings(alerts: seq<Alert>, known: set<string>) {
    UniqueIds(alerts) && forall i :: 0 <= i < |alerts| ==> ValidAlert(alerts[i], known)
  }

  datatype Invalid =
      | NoId(at: nat) | DuplicateId(at: nat) | NoName(at: nat) | UnknownSensor(at: nat) | NoLimit(at: nat)
      | BadLimit(at: nat) | LowNotBelowHigh(at: nat) | BadMode(at: nat)

  /** Settings.Validate accepts exactly the well-formed settings. */
  method Validate(alerts: seq<Alert>, known: set<string>) returns (error: Option<Invalid>)
    ensures error.None? <==> ValidSettings(alerts, known)
    ensures error.Some? ==>
      error.value.at < |alerts| && ValidSettings(alerts[..error.value.at], known)
      && !ValidSettings(alerts[..error.value.at + 1], known)
  {
    var seen: set<string> := {};
    for i := 0 to |alerts|
      invariant forall id :: id in seen <==> exists j :: 0 <= j < i && alerts[j].id == id
      invariant ValidSettings(alerts[..i], known)
    {
      var alert := alerts[i];
      if Blank(alert.id) { return Some(NoId(i)); }
      if alert.id in seen { return Some(DuplicateId(i)); }
      seen := seen + {alert.id};
      if Blank(alert.name) { return Some(NoName(i)); }
      if alert.sensor !in known { return Some(UnknownSensor(i)); }
      if alert.high.None? && alert.low.None? { return Some(NoLimit(i)); }
      if alert.high.Some? && !alert.high.value.Finite? { return Some(BadLimit(i)); }
      if alert.low.Some? && !alert.low.value.Finite? { return Some(BadLimit(i)); }
      if alert.high.Some? && alert.low.Some? && alert.low.value.value >= alert.high.value.value {
        return Some(LowNotBelowHigh(i));
      }
      if alert.mode.Unsupported? { return Some(BadMode(i)); }
      assert alerts[..i + 1] == alerts[..i] + [alert];
    }
    assert alerts[..|alerts|] == alerts;
    return None;
  }

  // ----- one side of one alert

  datatype SideState = SideState(violated: bool, lastSent: int)

  datatype Sides = Sides(high: SideState, low: SideState, offline: SideState)

  function Quiet(): SideState { SideState(false, ZERO_TIME) }

  function NewSides(): Sides { Sides(Quiet(), Quiet(), Quiet()) }

  datatype Side = High | Low | Offline

  datatype Notification = Notification(alert: string, sensor: string, side: Side, temperature: Option<Number>,
    limit: Option<Number>, at: int)

  predicate Cooled(lastSent: int, interval: int, at: int) { lastSent + interval <= at }

  predicate ShouldSend(mode: Mode, s: SideState, at: int) {
    if s.violated then mode.Repeat? && s.lastSent != ZERO_TIME && Cooled(s.lastSent, REPEAT_INTERVAL, at)
    else s.lastSent == ZERO_TIME || Cooled(s.lastSent, DEBOUNCE_INTERVAL, at)
  }

  function SideAfter(mode: Mode, s: SideState, violated: bool, at: int): SideState {
    if !violated then s.(violated := false)
    else if ShouldSend(mode, s, at) then SideState(true, at) else s.(violated := true)
  }

  predicate Violates(side: Side, limit: Option<Number>, temperature: real) {
    limit.Some? && ((side.High? && limit.value.Below(temperature)) || (side.Low? && limit.value.Above(temperature)))
  }

  function Sends(a: Alert, side: Side, limit: Option<Number>, s: SideState, temperature: real,
          at: int): seq<Notification>
  {
    if Violates(side, limit, temperature) && ShouldSend(a.mode, s, at)
    then [Notification(a.id, a.sensor, side, Some(Finite(temperature)), limit, at)] else []
  }

  // ----- one alert on its own

  function OwnSends(a: Alert, s: Sides, temperature: real, at: int): seq<Notification> {
    Sends(a, High, a.high, s.high, temperature, at) + Sends(a, Low, a.low, s.low, temperature, at)
  }

  datatype Event = Reading(sensor: string, temperature: Number, at: int) | CheckOffline(now: int)

  datatype Machine = Machine(sides: Sides, lastSeen: Option<int>)

  predicate Heard(a: Alert, e: Event) { e.Reading? && e.sensor == a.sensor && e.temperature.Finite? }

  predicate GoesOffline(m: Machine, e: Event) {
    e.CheckOffline? && m.lastSeen.Some? && e.now - m.lastSeen.value > OFFLINE_AFTER && !m.sides.offline.violated
  }

  function ReadSides(a: Alert, s: Sides, temperature: real, at: int): Sides {
    Sides(if a.high.None? then s.high else SideAfter(a.mode, s.high, Violates(High, a.high, temperature), at),
          if a.low.None? then s.low else SideAfter(a.mode, s.low, Violates(Low, a.low, temperature), at),
          s.offline.(violated := false))
  }

  function Next(a: Alert, m: Machine, e: Event): Machine {
    if Heard(a, e) then Machine(ReadSides(a, m.sides, e.temperature.value, e.at), Some(e.at))
    else if GoesOffline(m, e) then m.(sides := m.sides.(offline := m.sides.offline.(violated := true)))
    else m
  }

  function Output(a: Alert, m: Machine, e: Event): seq<Notification> {
    if Heard(a, e) then OwnSends(a, m.sides, e.temperature.value, e.at)
    else if GoesOffline(m, e) then [Notification(a.id, a.sensor, Offline, None, None, e.now)]
    else []
  }

  function Fresh(): Machine { Machine(NewSides(), None) }

  function After(a: Alert, m: Machine, events: seq<Event>): Machine {
    if events == [] then m else Next(a, After(a, m, events[..|events| - 1]), events[|events| - 1])
  }

  function Outputs(a: Alert, m: Machine, events: seq<Event>): seq<Notification> {
    if events == [] then []
    else Outputs(a, m, events[..|events| - 1]) + Output(a, After(a, m, events[..|events| - 1]), events[|events| - 1])
  }

  // ----- the evaluator over shared maps

  datatype Memory = Memory(state: map<string, Sides>, lastSeen: map<string, int>)

  function SidesOf(state: map<string, Sides>, id: string): Sides { if id in state then state[id] else NewSides() }

  function Project(mem: Memory, a: Alert): Machine {
    Machine(SidesOf(mem.state, a.id), if a.sensor in mem.lastSeen then Some(mem.lastSeen[a.sensor]) else None)
  }

  /** A finite reading ends the offline notice of every alert on its sensor. */
  function ClearOffline(alerts: seq<Alert>, state: map<string, Sides>, sensor: string): map<string, Sides> {
    if alerts == [] then state
    else
      var a, before := alerts[|alerts| - 1], ClearOffline(alerts[..|alerts| - 1], state, sensor);
      if a.sensor == sensor && a.id in before then
        before[a.id := before[a.id].(offline := before[a.id].offline.(violated := false))]
      else before
  }

  function ReadAll(alerts: seq<Alert>, state: map<string, Sides>, sensor: string, temperature: real,
          at: int): map<string, Sides>
  {
    if alerts == [] then state
    else
      var a, before := alerts[|alerts| - 1], ReadAll(alerts[..|alerts| - 1], state, sensor, temperature, at);
      if a.sensor == sensor then
        var s := SidesOf(before, a.id);
        before[a.id := ReadSides(a, s, temperature, at).(offline := s.offline)]
      else before
  }

  function SendAll(alerts: seq<Alert>, state: map<string, Sides>, sensor: string, temperature: real,
          at: int): seq<Notification>
  {
    if alerts == [] then []
    else
      var a := alerts[|alerts| - 1];
      var before := ReadAll(alerts[..|alerts| - 1], state, sensor, temperature, at);
      SendAll(alerts[..|alerts| - 1], state, sensor, temperature, at) +
      if a.sensor == sensor then OwnSends(a, SidesOf(before, a.id), temperature, at) else []
  }

  function OfflineAll(alerts: seq<Alert>, mem: Memory, now: int): map<string, Sides> {
    if alerts == [] then mem.state
    else
      var a, before := alerts[|alerts| - 1], OfflineAll(alerts[..|alerts| - 1], mem, now);
      if GoesOffline(Project(mem.(state := before), a), CheckOffline(now)) then
        var s := SidesOf(before, a.id);
        before[a.id := s.(offline := s.offline.(violated := true))]
      else before
  }

  function NoticeAll(alerts: seq<Alert>, mem: Memory, now: int): seq<Notification> {
    if alerts == [] then []
    else
      var a, before := alerts[|alerts| - 1], OfflineAll(alerts[..|alerts| - 1], mem, now);
      NoticeAll(alerts[..|alerts| - 1], mem, now) +
      if GoesOffline(Project(mem.(state := before), a), CheckOffline(now)) then
        [Notification(a.id, a.sensor, Offline, None, None, now)]
      else []
  }

  function StepAll(alerts: seq<Alert>, mem: Memory, e: Event): Memory {
    match e
    case Reading(sensor, temperature, at) =>
      if !temperature.Finite? then mem
      else
        Memory(ReadAll(alerts, ClearOffline(alerts, mem.state, sensor), sensor, temperature.value, at),
          mem.lastSeen[sensor := at])
    case CheckOffline(now) => mem.(state := OfflineAll(alerts, mem, now))
  }

  function EmitAll(alerts: seq<Alert>, mem: Memory, e: Event): seq<Notification> {
    match e
    case Reading(sensor, temperature, at) =>
      if !temperature.Finite? then []
      else SendAll(alerts, ClearOffline(alerts, mem.state, sensor), sensor, temperature.value, at)
    case CheckOffline(now) => NoticeAll(alerts, mem, now)
  }

  function RunAll(alerts: seq<Alert>, mem: Memory, events: seq<Event>): Memory {
    if events == [] then mem else StepAll(alerts, RunAll(alerts, mem, events[..|events| - 1]), events[|events| - 1])
  }

  function TraceAll(alerts: seq<Alert>, mem: Memory, events: seq<Event>): seq<Notification> {
    if events == [] then []
    else
      TraceAll(alerts, mem, events[..|events| - 1]) +
        EmitAll(alerts, RunAll(alerts, mem, events[..|events| - 1]), events[|events| - 1])
  }

  /** The notifications of one alert. */
  function Restrict(ns: seq<Notification>, id: string): seq<Notification> {
    if ns == [] then []
    else Restrict(ns[..|ns| - 1], id) + if ns[|ns| - 1].alert == id then [ns[|ns| - 1]] else []
  }

  lemma {:induction false} RestrictAppend(xs: seq<Notification>, ys: seq<Notification>, id: string)
    ensures Restrict(xs + ys, id) == Restrict(xs, id) + Restrict(ys, id)
  {
    if ys == [] {
      assert xs + ys == xs;
    } else {
      assert (xs + ys)[..|xs + ys| - 1] == xs + ys[..|ys| - 1];
      RestrictAppend(xs, ys[..|ys| - 1], id);
    }
  }

  // ----- the evaluator is a product of single-alert machines

  predicate Other(alerts: seq<Alert>, id: string) {
    forall i :: 0 <= i < |alerts| ==> alerts[i].id != id
  }

  lemma SendLast(alerts: seq<Alert>, state: map<string, Sides>, sensor: string, temperature: real, at: int, id: string)
    requires alerts != []
    ensures var init, a := alerts[..|alerts| - 1], alerts[|alerts| - 1];
      var s := SidesOf(ReadAll(init, state, sensor, temperature, at), a.id);
      Restrict(SendAll(alerts, state, sensor, temperature, at), id) ==
        Restrict(SendAll(init, state, sensor, temperature, at), id) +
          if a.sensor == sensor && a.id == id then OwnSends(a, s, temperature, at) else []
  {
    var init, a := alerts[..|alerts| - 1], alerts[|alerts| - 1];
    var s := SidesOf(ReadAll(init, state, sensor, temperature, at), a.id);
    var own := if a.sensor == sensor then OwnSends(a, s, temperature, at) else [];
    assert SendAll(alerts, state, sensor, temperature, at) == SendAll(init, state, sensor, temperature, at) + own;
    RestrictAppend(SendAll(init, state, sensor, temperature, at), own, id);
    RestrictOwn(a, s, temperature, at, id);
  }

  lemma {:induction false} ReadingOther(alerts: seq<Alert>, state: map<string, Sides>, sensor: string,
          temperature: real, at: int, id: string)
    requires Other(alerts, id)
    ensures SidesOf(ClearOffline(alerts, state, sensor), id) == SidesOf(state, id)
    ensures SidesOf(ReadAll(alerts, state, sensor, temperature, at), id) == SidesOf(state, id)
    ensures Restrict(SendAll(alerts, state, sensor, temperature, at), id) == []
  {
    if alerts != [] {
      var init, a := alerts[..|alerts| - 1], alerts[|alerts| - 1];
      ReadingOther(init, state, sensor, temperature, at, id);
      SendLast(alerts, state, sensor, temperature, at, id);
    }
  }

  lemma RestrictOwn(a: Alert, s: Sides, temperature: real, at: int, id: string)
    ensures Restrict(OwnSends(a, s, temperature, at), id) == if a.id == id then OwnSends(a, s, temperature, at) else []
  {
    var h, l := Sends(a, High, a.high, s.high, temperature, at), Sends(a, Low, a.low, s.low, temperature, at);
    RestrictAppend(h, l, id);
    RestrictShort(h, id);
    RestrictShort(l, id);
  }

  lemma RestrictShort(ns: seq<Notification>, id: string)
    requires |ns| <= 1
    ensures Restrict(ns, id) == if ns != [] && ns[0].alert == id then ns else []
  {
    if ns != [] { assert Restrict(ns[..0], id) == []; }
  }

  lemma {:induction false} ClearOwn(alerts: seq<Alert>, state: map<string, Sides>, sensor: string, k: nat)
    requires UniqueIds(alerts) && k < |alerts|
    ensures var s := SidesOf(state, alerts[k].id);
      SidesOf(ClearOffline(alerts, state, sensor), alerts[k].id) ==
        if alerts[k].sensor == sensor then s.(offline := s.offline.(violated := false)) else s
  {
    var init := alerts[..|alerts| - 1];
    if k < |init| {
      ClearOwn(init, state, sensor, k);
    } else {
      ReadingOther(init, state, sensor, 0.0, 0, alerts[k].id);
    }
  }

  lemma {:induction false} ReadOwn(alerts: seq<Alert>, state: map<string, Sides>, sensor: string, temperature: real,
          at: int, k: nat)
    requires UniqueIds(alerts) && k < |alerts|
    ensures var a, s := alerts[k], SidesOf(state, alerts[k].id);
      && SidesOf(ReadAll(alerts, state, sensor, temperature, at), a.id) ==
        (if a.sensor == sensor then ReadSides(a, s, temperature, at).(offline := s.offline) else s)
      && Restrict(SendAll(alerts, state, sensor, temperature, at), a.id) ==
        (if a.sensor == sensor then OwnSends(a, s, temperature, at) else [])
  {
    var init := alerts[..|alerts| - 1];
    SendLast(alerts, state, sensor, temperature, at, alerts[k].id);
    if k < |init| {
      ReadOwn(init, state, sensor, temperature, at, k);
    } else {
      ReadingOther(init, state, sensor, temperature, at, alerts[k].id);
    }
  }

  lemma {:induction false} OfflineOther(alerts: seq<Alert>, mem: Memory, now: int, id: string)
    requires Other(alerts, id)
    ensures SidesOf(OfflineAll(alerts, mem, now), id) == SidesOf(mem.state, id)
    ensures Restrict(NoticeAll(alerts, mem, now), id) == []
  {
    if alerts != [] {
      OfflineOther(alerts[..|alerts| - 1], mem, now, id);
      OfflineElsewhere(alerts, mem, now, id);
    }
  }

  lemma OfflineLast(alerts: seq<Alert>, mem: Memory, now: int, id: string)
    requires alerts != []
    ensures var init, a := alerts[..|alerts| - 1], alerts[|alerts| - 1];
      var goes := GoesOffline(Project(mem.(state := OfflineAll(init, mem, now)), a), CheckOffline(now));
      Restrict(NoticeAll(alerts, mem, now), id) ==
        Restrict(NoticeAll(init, mem, now), id) +
          if goes && a.id == id then [Notification(a.id, a.sensor, Offline, None, None, now)] else []
  {
    var init, a := alerts[..|alerts| - 1], alerts[|alerts| - 1];
    var goes := GoesOffline(Project(mem.(state := OfflineAll(init, mem, now)), a), CheckOffline(now));
    var notice := if goes then [Notification(a.id, a.sensor, Offline, None, None, now)] else [];
    assert NoticeAll(alerts, mem, now) == NoticeAll(init, mem, now) + notice;
    RestrictAppend(NoticeAll(init, mem, now), notice, id);
    RestrictShort(notice, id);
  }

  /** The last alert's turn leaves the others as they were. */
  lemma OfflineElsewhere(alerts: seq<Alert>, mem: Memory, now: int, id: string)
    requires alerts != [] && alerts[|alerts| - 1].id != id
    ensures SidesOf(OfflineAll(alerts, mem, now), id) == SidesOf(OfflineAll(alerts[..|alerts| - 1], mem, now), id)
    ensures Restrict(NoticeAll(alerts, mem, now), id) == Restrict(NoticeAll(alerts[..|alerts| - 1], mem, now), id)
  {
    OfflineLast(alerts, mem, now, id);
  }

  /** The last alert's turn is a step of its machine when the others have left its sides alone. */
  lemma OfflineHere(alerts: seq<Alert>, mem: Memory, now: int)
    requires alerts != []
    requires SidesOf(OfflineAll(alerts[..|alerts| - 1], mem, now), alerts[|alerts| - 1].id) ==
      SidesOf(mem.state, alerts[|alerts| - 1].id)
    requires Restrict(NoticeAll(alerts[..|alerts| - 1], mem, now), alerts[|alerts| - 1].id) == []
    ensures var a := alerts[|alerts| - 1];
      && SidesOf(OfflineAll(alerts, mem, now), a.id) == Next(a, Project(mem, a), CheckOffline(now)).sides
      && Restrict(NoticeAll(alerts, mem, now), a.id) == Output(a, Project(mem, a), CheckOffline(now))
  {
    var a := alerts[|alerts| - 1];
    OfflineLast(alerts, mem, now, a.id);
    SameView(mem, OfflineAll(alerts[..|alerts| - 1], mem, now), a);
  }

  /** An alert's machine depends on the shared state only through its own sides. */
  lemma SameView(mem: Memory, state: map<string, Sides>, a: Alert)
    requires SidesOf(state, a.id) == SidesOf(mem.state, a.id)
    ensures Project(mem.(state := state), a) == Project(mem, a)
  {
  }

  lemma {:induction false} OfflineOwn(alerts: seq<Alert>, mem: Memory, now: int, k: nat)
    requires UniqueIds(alerts) && k < |alerts|
    ensures var a := alerts[k];
      && SidesOf(OfflineAll(alerts, mem, now), a.id) == Next(a, Project(mem, a), CheckOffline(now)).sides
      && Restrict(NoticeAll(alerts, mem, now), a.id) == Output(a, Project(mem, a), CheckOffline(now))
  {
    var init := alerts[..|alerts| - 1];
    if k < |init| {
      OfflineOwn(init, mem, now, k);
      OfflineElsewhere(alerts, mem, now, alerts[k].id);
    } else {
      OfflineOther(init, mem, now, alerts[k].id);
      OfflineHere(alerts, mem, now);
    }
  }

  /**
   * One event moves each alert's part of the shared maps as that alert's own machine moves, with the same
   * notifications.
   */
  lemma StepProduct(alerts: seq<Alert>, mem: Memory, e: Event, k: nat)
    requires UniqueIds(alerts) && k < |alerts|
    ensures Project(StepAll(alerts, mem, e), alerts[k]) == Next(alerts[k], Project(mem, alerts[k]), e)
    ensures Restrict(EmitAll(alerts, mem, e), alerts[k].id) == Output(alerts[k], Project(mem, alerts[k]), e)
  {
    match e
    case CheckOffline(now) => OfflineOwn(alerts, mem, now, k);
    case Reading(sensor, temperature, at) =>
      if temperature.Finite? {
        var cleared := ClearOffline(alerts, mem.state, sensor);
        ClearOwn(alerts, mem.state, sensor, k);
        ReadOwn(alerts, cleared, sensor, temperature.value, at, k);
      }
  }

  /** Over any run, an alert's notifications are those of its own machine. */
  lemma {:induction false} RunProduct(alerts: seq<Alert>, mem: Memory, events: seq<Event>, k: nat)
    requires UniqueIds(alerts) && k < |alerts|
    ensures Project(RunAll(alerts, mem, events), alerts[k]) == After(alerts[k], Project(mem, alerts[k]), events)
    ensures Restrict(TraceAll(alerts, mem, events), alerts[k].id) == Outputs(alerts[k], Project(mem, alerts[k]), events)
  {
    if events != [] {
      var init := events[..|events| - 1];
      RunProduct(alerts, mem, init, k);
      StepProduct(alerts, RunAll(alerts, mem, init), events[|events| - 1], k);
      RestrictAppend(TraceAll(alerts, mem, init), EmitAll(alerts, RunAll(alerts, mem, init), events[|events| - 1]),
        alerts[k].id);
    }
  }

  /** Configuring the other alerts makes no difference to one alert's notifications. */
  lemma OthersDoNotMatter(alerts: seq<Alert>, mem: Memory, events: seq<Event>, k: nat)
    requires UniqueIds(alerts) && k < |alerts|
    ensures Restrict(TraceAll(alerts, mem, events), alerts[k].id) ==
      Restrict(TraceAll([alerts[k]], mem, events), alerts[k].id)
  {
    RunProduct(alerts, mem, events, k);
    RunProduct([alerts[k]], mem, events, 0);
  }

  // ----- when one alert sends

  function SideOf(s: Sides, side: Side): SideState {
    match side
    case High => s.high
    case Low => s.low
    case Offline => s.offline
  }

  function LimitOf(a: Alert, side: Side): Option<Number> {
    match side
    case High => a.high
    case Low => a.low
    case Offline => None
  }

  /** A finite reading of the alert's sensor above its high limit, or below its low one. */
  predicate Violating(a: Alert, side: Side, e: Event) {
    && e.Reading? && e.sensor == a.sensor && e.temperature.Finite?
    && match side
       case High => a.high.Some? && Exceeds(e.temperature.value, a.high.value)
       case Low => a.low.Some? && FallsShort(e.temperature.value, a.low.value)
       case Offline => false
  }

  predicate Exceeds(x: real, limit: Number) {
    match limit
    case Finite(l) => l < x
    case NegativeInfinity => true
    case _ => false
  }

  predicate FallsShort(x: real, limit: Number) {
    match limit
    case Finite(l) => x < l
    case PositiveInfinity => true
    case _ => false
  }

  /** The notification for `side` is among what event `i` produces. */
  predicate SentAt(a: Alert, side: Side, events: seq<Event>, i: nat)
    requires i < |events|
  {
    exists n :: n in Output(a, After(a, Fresh(), events[..i]), events[i]) && n.side == side
  }

  /** The reading heard last broke the limit. */
  predicate WasViolating(a: Alert, side: Side, events: seq<Event>) {
    events != [] &&
    var last := events[|events| - 1];
    if Heard(a, last) then Violating(a, side, last) else WasViolating(a, side, events[..|events| - 1])
  }

  /** When the side was last sent. */
  function LastSent(a: Alert, side: Side, events: seq<Event>): Option<int> {
    if events == [] then None
    else if SentAt(a, side, events, |events| - 1) && events[|events| - 1].Reading? then Some(events[|events| - 1].at)
    else LastSent(a, side, events[..|events| - 1])
  }

  predicate TimesSet(events: seq<Event>) {
    forall i :: 0 <= i < |events| && events[i].Reading? ==> events[i].at != ZERO_TIME
  }

  lemma SentUnfold(a: Alert, side: Side, events: seq<Event>, i: nat)
    requires i < |events| && (side.High? || side.Low?)
    ensures SentAt(a, side, events, i) <==>
      Violating(a, side, events[i]) && ShouldSend(a.mode, SideOf(After(a, Fresh(), events[..i]).sides, side),
        events[i].at)
  {
    var m := After(a, Fresh(), events[..i]);
    var out := Output(a, m, events[i]);
    if Violating(a, side, events[i]) && ShouldSend(a.mode, SideOf(m.sides, side), events[i].at) {
      var sends := Sends(a, side, LimitOf(a, side), SideOf(m.sides, side), events[i].temperature.value, events[i].at);
      assert sends[0] in out;
    }
  }

  /**
   * The latch and its timer are what the trace says: whether the last heard reading broke the limit, and when the side
   * was last sent.
   */
  lemma {:induction false} SideFollowsTrace(a: Alert, side: Side, events: seq<Event>)
    requires LimitOf(a, side).Some? && TimesSet(events)
    ensures SideOf(After(a, Fresh(), events).sides, side) ==
      SideState(WasViolating(a, side, events), LastSent(a, side, events).GetOr(ZERO_TIME))
    ensures LastSent(a, side, events) != Some(ZERO_TIME)
  {
    if events != [] {
      SideFollowsTrace(a, side, events[..|events| - 1]);
      SentUnfold(a, side, events, |events| - 1);
    }
  }

  /**
   * Exactly when a side is sent: the reading breaks the limit, and either the one before did not and ten minutes have
   * passed since the last send, or the alert repeats and five have.
   */
  lemma SendCharacterised(a: Alert, side: Side, events: seq<Event>, i: nat)
    requires i < |events| && LimitOf(a, side).Some? && TimesSet(events)
    ensures SentAt(a, side, events, i) <==>
      && Violating(a, side, events[i])
      && var last := LastSent(a, side, events[..i]);
         if WasViolating(a, side, events[..i]) then
           a.mode.Repeat? && last.Some? && last.value + 5 * MINUTE <= events[i].at
         else last.None? || last.value + 10 * MINUTE <= events[i].at
  {
    SideFollowsTrace(a, side, events[..i]);
    SentUnfold(a, side, events, i);
  }

  function Gap(a: Alert): int { if a.mode.Repeat? then 5 * MINUTE else 10 * MINUTE }

  lemma SentAfterLast(a: Alert, side: Side, events: seq<Event>, i: nat)
    requires i < |events| && LimitOf(a, side).Some? && TimesSet(events) && SentAt(a, side, events, i)
    ensures events[i].Reading?
    ensures LastSent(a, side, events[..i]).Some? ==> LastSent(a, side, events[..i]).value + Gap(a) <= events[i].at
  {
    SendCharacterised(a, side, events, i);
  }

  lemma LastSentStep(a: Alert, side: Side, events: seq<Event>, n: nat)
    requires n < |events| && (side.High? || side.Low?)
    ensures SentAt(a, side, events, n) ==> events[n].Reading?
    ensures LastSent(a, side, events[..n + 1]) ==
      if SentAt(a, side, events, n) then Some(events[n].at) else LastSent(a, side, events[..n])
  {
    var prefix := events[..n + 1];
    assert prefix[..n] == events[..n];
    SentUnfold(a, side, events, n);
    SentUnfold(a, side, prefix, n);
  }

  /** In a log that keeps the latest of growing stamps, the latest is no earlier than any kept one. */
  lemma {:induction false} LatestCovers(sent: seq<bool>, at: seq<int>, last: seq<Option<int>>, i: nat, n: nat)
    requires |sent| == |at| && |last| == |sent| + 1
    requires forall k :: 0 <= k < |sent| ==> last[k + 1] == if sent[k] then Some(at[k]) else last[k]
    requires forall k :: 0 <= k < |sent| && sent[k] && last[k].Some? ==> last[k].value <= at[k]
    requires i < n <= |sent| && sent[i]
    ensures last[n].Some? && at[i] <= last[n].value
  {
    assert last[n - 1 + 1] == if sent[n - 1] then Some(at[n - 1]) else last[n - 1];
    if i < n - 1 { LatestCovers(sent, at, last, i, n - 1); }
  }

  lemma LastSentCovers(a: Alert, side: Side, events: seq<Event>, i: nat, n: nat)
    requires i < n <= |events| && LimitOf(a, side).Some? && TimesSet(events) && SentAt(a, side, events, i)
    ensures events[i].Reading? && LastSent(a, side, events[..n]).Some?
    ensures events[i].at <= LastSent(a, side, events[..n]).value
  {
    var sent := seq(|events|, k requires 0 <= k < |events| => SentAt(a, side, events, k));
    var at := seq(|events|, k requires 0 <= k < |events| => if events[k].Reading? then events[k].at else 0);
    var last := seq(|events| + 1, k requires 0 <= k < |events| + 1 => LastSent(a, side, events[..k]));
    forall k | 0 <= k < |sent| ensures last[k + 1] == if sent[k] then Some(at[k]) else last[k] {
      LastSentStep(a, side, events, k);
    }
    forall k | 0 <= k < |sent| && sent[k] && last[k].Some? ensures last[k].value <= at[k] {
      SentAfterLast(a, side, events, k);
    }
    LastSentStep(a, side, events, i);
    LatestCovers(sent, at, last, i, n);
  }

  /**
   * Two sends of one side are at least ten minutes apart in crossing mode and five in repeat mode, even if the clock
   * steps back.
   */
  lemma SendsAreSpaced(a: Alert, side: Side, events: seq<Event>, i: nat, j: nat)
    requires i < j < |events| && LimitOf(a, side).Some? && TimesSet(events) && SentAt(a, side, events, i)
    requires SentAt(a, side, events, j)
    ensures events[i].Reading? && events[j].Reading? && events[i].at + Gap(a) <= events[j].at
  {
    LastSentCovers(a, side, events, i, j);
    SentAfterLast(a, side, events, j);
  }

  /** In crossing mode a violation that began within ten minutes of the last send is never announced while it lasts. */
  lemma {:induction false} SuppressedCrossingStaysSilent(a: Alert, side: Side, events: seq<Event>, i: nat, j: nat)
    requires i <= j < |events| && LimitOf(a, side).Some? && TimesSet(events) && !a.mode.Repeat?
    requires !SentAt(a, side, events, i) && Heard(a, events[i])
    requires forall k :: i <= k <= j && Heard(a, events[k]) ==> Violating(a, side, events[k])
    ensures !SentAt(a, side, events, j)
    ensures WasViolating(a, side, events[..j + 1])
  {
    assert events[..j + 1][..j] == events[..j];
    if i < j {
      SuppressedCrossingStaysSilent(a, side, events, i, j - 1);
      SendCharacterised(a, side, events, j);
    }
  }

  // ----- offline notices

  lemma {:induction false} OfflineUntilHeard(a: Alert, events: seq<Event>, i: nat, n: nat)
    requires i < n <= |events| && SentAt(a, Offline, events, i)
    requires forall k :: i < k < n ==> !Heard(a, events[k])
    ensures After(a, Fresh(), events[..n]).sides.offline.violated
  {
    assert events[..n][..n - 1] == events[..n - 1];
    if i < n - 1 { OfflineUntilHeard(a, events, i, n - 1); }
  }

  /** Between two offline notices of an alert there is a finite reading of its sensor. */
  lemma OfflineNoticesSeparated(a: Alert, events: seq<Event>, i: nat, j: nat)
    requires i < j < |events| && SentAt(a, Offline, events, i) && SentAt(a, Offline, events, j)
    ensures exists k :: i < k < j && Heard(a, events[k])
  {
    if forall k :: i < k < j ==> !Heard(a, events[k]) { OfflineUntilHeard(a, events, i, j); }
  }

  /** Where the sensor was last heard. */
  function LastHeard(a: Alert, events: seq<Event>): Option<nat> {
    if events == [] then None
    else if Heard(a, events[|events| - 1]) then Some(|events| - 1)
    else LastHeard(a, events[..|events| - 1])
  }

  /** An offline notice has been given since the sensor was last heard. */
  predicate Noticed(a: Alert, events: seq<Event>) {
    events != [] && !Heard(a, events[|events| - 1])
      && (SentAt(a, Offline, events, |events| - 1) || Noticed(a, events[..|events| - 1]))
  }

  lemma {:induction false} LastHeardIsLast(a: Alert, events: seq<Event>)
    ensures LastHeard(a, events).None? ==> forall j :: 0 <= j < |events| ==> !Heard(a, events[j])
    ensures LastHeard(a, events).Some? ==> var h := LastHeard(a, events).value;
      h < |events| && Heard(a, events[h]) && forall j :: h < j < |events| ==> !Heard(a, events[j])
  {
    if events != [] {
      var init := events[..|events| - 1];
      LastHeardIsLast(a, init);
      assert forall j :: 0 <= j < |init| ==> init[j] == events[j];
    }
  }

  lemma SentInPrefix(a: Alert, side: Side, events: seq<Event>, n: nat, i: nat)
    requires i < n <= |events|
    ensures SentAt(a, side, events[..n], i) == SentAt(a, side, events, i)
  {
    assert events[..n][..i] == events[..i];
  }

  lemma {:induction false} NoticedIff(a: Alert, events: seq<Event>)
    ensures Noticed(a, events) <==>
      exists j: nat :: j < |events| && SentAt(a, Offline, events, j)
        && forall k :: j <= k < |events| ==> !Heard(a, events[k])
  {
    if events != [] {
      var n := |events| - 1;
      var init := events[..n];
      NoticedIff(a, init);
      forall j: nat | j < n ensures SentAt(a, Offline, init, j) == SentAt(a, Offline, events, j) {
        SentInPrefix(a, Offline, events, n, j);
      }
      assert forall k :: 0 <= k < n ==> init[k] == events[k];
    }
  }

  lemma SentOffline(a: Alert, events: seq<Event>, i: nat)
    requires i < |events|
    ensures SentAt(a, Offline, events, i) <==> GoesOffline(After(a, Fresh(), events[..i]), events[i])
  {
    var m := After(a, Fresh(), events[..i]);
    if GoesOffline(m, events[i]) {
      assert Output(a, m, events[i])[0].side == Offline;
    } else if Heard(a, events[i]) {
      assert forall n :: n in OwnSends(a, m.sides, events[i].temperature.value, events[i].at) ==> n.side != Offline;
    }
  }

  lemma {:induction false} OfflineFollowsTrace(a: Alert, events: seq<Event>)
    ensures var m, h := After(a, Fresh(), events), LastHeard(a, events);
      && m.lastSeen == (if h.None? then None else Some(HeardAt(events, h.value)))
      && m.sides.offline.violated == Noticed(a, events)
  {
    if events != [] {
      var init := events[..|events| - 1];
      OfflineFollowsTrace(a, init);
      LastHeardIsLast(a, init);
      SentOffline(a, events, |events| - 1);
    }
  }

  function HeardAt(events: seq<Event>, h: nat): int {
    if h < |events| && events[h].Reading? then events[h].at else 0
  }

  /**
   * Exactly when an offline notice is given: at a check more than thirty minutes after the sensor was last heard, with
   * no notice since.
   */
  lemma OfflineCharacterised(a: Alert, events: seq<Event>, i: nat)
    requires i < |events|
    ensures SentAt(a, Offline, events, i) <==> events[i].CheckOffline? && exists h: nat :: SilentSince(a, events, h, i)
  {
    var before := events[..i];
    OfflineFollowsTrace(a, before);
    LastHeardIsLast(a, before);
    SentOffline(a, events, i);
    NoticedIff(a, before);
    forall j: nat | j < i ensures SentAt(a, Offline, before, j) == SentAt(a, Offline, events, j) {
      SentInPrefix(a, Offline, events, i, j);
    }
    if SentAt(a, Offline, events, i) { assert SilentSince(a, events, LastHeard(a, before).value, i); }
  }

  /** Event `h` is the last to be heard before check `i`, over thirty minutes earlier, and no notice lies between. */
  ghost predicate SilentSince(a: Alert, events: seq<Event>, h: nat, i: nat)
    requires i < |events| && events[i].CheckOffline?
  {
    && h < i && events[h].Reading? && events[h].sensor == a.sensor && events[h].temperature.Finite?
    && events[i].now - events[h].at > 30 * MINUTE
    && (forall j :: h < j < i ==>
          !(events[j].Reading? && events[j].sensor == a.sensor && events[j].temperature.Finite?))
    && forall j: nat :: h < j < i ==> !SentAt(a, Offline, events, j)
  }

  /** An alert's output is a notification for each side that is sent, with the reading and limit it is about. */
  lemma OutputIsWhatIsSent(a: Alert, events: seq<Event>, i: nat)
    requires i < |events|
    ensures var e := events[i]; var sent := (side: Side) => SentAt(a, side, events, i);
      Output(a, After(a, Fresh(), events[..i]), e) ==
        (if sent(High) then [Notification(a.id, a.sensor, High, Some(e.temperature), a.high, e.at)] else []) +
        (if sent(Low) then [Notification(a.id, a.sensor, Low, Some(e.temperature), a.low, e.at)] else []) +
        if sent(Offline) then [Notification(a.id, a.sensor, Offline, None, None, e.now)] else []
  {
    SentUnfold(a, High, events, i);
    SentUnfold(a, Low, events, i);
    SentOffline(a, events, i);
  }

  // ----- the evaluator object

  class Evaluator {
    var alerts: seq<Alert>
    var state: map<string, Sides>
    var lastSeen: map<string, int>

    ghost function AsMemory(): Memory
      reads this
    {
      Memory(state, lastSeen)
    }

    constructor (alerts: seq<Alert>)
      ensures this.alerts == alerts && AsMemory() == Memory(map[], map[])
    {
      this.alerts, state, lastSeen := alerts, map[], map[];
    }

    /** Every alert starts afresh. */
    method Configure(alerts: seq<Alert>)
      modifies this
      ensures this.alerts == alerts && forall a :: a in alerts ==> Project(AsMemory(), a) == Fresh()
    {
      this.alerts, state, lastSeen := alerts, map[], map[];
    }

    method Evaluate(sensor: string, temperature: Number, at: int) returns (out: seq<Notification>)
      modifies this`state, this`lastSeen
      ensures AsMemory() == StepAll(alerts, old(AsMemory()), Reading(sensor, temperature, at))
      ensures out == EmitAll(alerts, old(AsMemory()), Reading(sensor, temperature, at))
    {
      if !temperature.Finite? { return []; }
      lastSeen := lastSeen[sensor := at];
      ClearNotices(sensor);
      out := ReadAlerts(sensor, temperature.value, at);
    }

    method ClearNotices(sensor: string)
      modifies this`state
      ensures state == ClearOffline(alerts, old(state), sensor)
    {
      for i := 0 to |alerts|
        invariant state == ClearOffline(alerts[..i], old(state), sensor)
      {
        assert alerts[..i + 1][..i] == alerts[..i];
        var alert := alerts[i];
        if alert.sensor == sensor && alert.id in state {
          var s := state[alert.id];
          state := state[alert.id := s.(offline := s.offline.(violated := false))];
        }
      }
      assert alerts[..|alerts|] == alerts;
    }

    method ReadAlerts(sensor: string, temperature: real, at: int) returns (out: seq<Notification>)
      modifies this`state
      ensures state == ReadAll(alerts, old(state), sensor, temperature, at)
      ensures out == SendAll(alerts, old(state), sensor, temperature, at)
    {
      out := [];
      for i := 0 to |alerts|
        invariant state == ReadAll(alerts[..i], old(state), sensor, temperature, at)
        invariant out == SendAll(alerts[..i], old(state), sensor, temperature, at)
      {
        assert alerts[..i + 1][..i] == alerts[..i];
        var alert := alerts[i];
        if alert.sensor != sensor {
          assert out + [] == out;
          continue;
        }
        var sent := EvaluateAlert(alert, temperature, at);
        out := out + sent;
      }
      assert alerts[..|alerts|] == alerts;
    }

    method EvaluateAlert(alert: Alert, temperature: real, at: int) returns (sent: seq<Notification>)
      modifies this`state
      ensures var s := SidesOf(old(state), alert.id);
        state == old(state)[alert.id := ReadSides(alert, s, temperature, at).(offline := s.offline)]
          && sent == OwnSends(alert, s, temperature, at)
    {
      var s := SidesOf(state, alert.id);
      var high, sentHigh := EvaluateSide(alert, s.high, temperature, at, High, alert.high);
      var low, sentLow := EvaluateSide(alert, s.low, temperature, at, Low, alert.low);
      state := state[alert.id := Sides(high, low, s.offline)];
      sent := sentHigh + sentLow;
    }

    method EvaluateSide(alert: Alert, before: SideState, temperature: real, at: int, side: Side, limit: Option<Number>)
      returns (after: SideState, sent: seq<Notification>)
      ensures after ==
        if limit.None? then before else SideAfter(alert.mode, before, Violates(side, limit, temperature), at)
      ensures sent == Sends(alert, side, limit, before, temperature, at)
    {
      after := before;
      if limit.None? { return after, []; }
      if !Violates(side, limit, temperature) { return before.(violated := false), []; }
      var cooled := before.lastSent == ZERO_TIME || at >= before.lastSent + DEBOUNCE_INTERVAL;
      var shouldSend := !before.violated && cooled;
      if before.violated && alert.mode.Repeat? && before.lastSent != ZERO_TIME
        && at >= before.lastSent + REPEAT_INTERVAL {
        shouldSend := true;
      }
      after := after.(violated := true);
      if !shouldSend { return after, []; }
      return after.(lastSent := at), [Notification(alert.id, alert.sensor, side, Some(Finite(temperature)), limit, at)];
    }

    method CheckSilence(now: int) returns (out: seq<Notification>)
      modifies this`state
      ensures AsMemory() == StepAll(alerts, old(AsMemory()), CheckOffline(now))
      ensures out == EmitAll(alerts, old(AsMemory()), CheckOffline(now))
    {
      out := [];
      ghost var before := AsMemory();
      for i := 0 to |alerts|
        invariant state == OfflineAll(alerts[..i], before, now)
        invariant out == NoticeAll(alerts[..i], before, now)
      {
        assert alerts[..i + 1][..i] == alerts[..i];
        var alert := alerts[i];
        if alert.sensor !in lastSeen || now - lastSeen[alert.sensor] <= OFFLINE_AFTER { continue; }
        var s := SidesOf(state, alert.id);
        if s.offline.violated { continue; }
        state := state[alert.id := s.(offline := s.offline.(violated := true))];
        out := out + [Notification(alert.id, alert.sensor, Offline, None, None, now)];
      }
      assert alerts[..|alerts|] == alerts;
    }
  }
}
