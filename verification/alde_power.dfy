/** service/notifications/alde_power.go: one warning when electric heating exceeds the shore allowance for a minute. */
module AldePower {
  import opened Instants
  import opened Wrappers

  const DELAY: int := MINUTE

  datatype Supply = Supply(known: bool, heaterOn: bool, electric: Number, shore: Number, session: nat)

  datatype Step = Step(supply: Supply, enabled: bool, now: int)

  predicate Usable(s: Supply) {
    s.known && s.electric.Finite? && s.shore.Finite? && s.shore.value >= 0.0
  }

  predicate Exceeds(s: Supply) {
    Usable(s) && s.heaterOn && s.electric.value > s.shore.value
  }


  // ----- the evaluator

  datatype Latch = Latch(since: int, sent: bool, session: nat)

  class Evaluator {
    var since: int
    var sent: bool
    var session: nat

    ghost function AsLatch(): Latch
      reads this
    {
      Latch(since, sent, session)
    }

    constructor ()
      ensures AsLatch() == Fresh()
    {
      since, sent, session := ZERO_TIME, false, 0;
    }

    method Evaluate(s: Supply, enabled: bool, now: int) returns (warning: bool)
      modifies this
      ensures AsLatch() == Next(old(AsLatch()), Step(s, enabled, now))
      ensures warning == Warns(old(AsLatch()), Step(s, enabled, now))
    {
      if !enabled {
        since, sent := ZERO_TIME, false;
        return false;
      }
      if s.session != session {
        since, session := ZERO_TIME, s.session;
      }
      if !s.known || !s.electric.Finite? || !s.shore.Finite? || s.shore.value < 0.0 {
        since := ZERO_TIME;
        return false;
      }
      if !s.heaterOn || s.electric.value <= s.shore.value {
        since, sent := ZERO_TIME, false;
        return false;
      }
      if sent { return false; }
      if since == ZERO_TIME || now < since { since := now; }
      if now - since < DELAY { return false; }
      sent := true;
      return true;
    }
  }

  function Fresh(): Latch { Latch(ZERO_TIME, false, 0) }

  /** The timer's start once a step over the allowance is taken in. */
  function Timer(l: Latch, e: Step): int {
    if e.supply.session != l.session || l.since == ZERO_TIME || e.now < l.since then e.now else l.since
  }

  predicate Warns(l: Latch, e: Step) { e.enabled && Exceeds(e.supply) && !l.sent && e.now - Timer(l, e) >= DELAY }

  function Next(l: Latch, e: Step): Latch {
    if !e.enabled then Latch(ZERO_TIME, false, l.session)
    else if !Usable(e.supply) then Latch(ZERO_TIME, l.sent, e.supply.session)
    else if !Exceeds(e.supply) then Latch(ZERO_TIME, false, e.supply.session)
    else if l.sent then Latch(if e.supply.session != l.session then ZERO_TIME else l.since, true, e.supply.session)
    else Latch(Timer(l, e), Warns(l, e), e.supply.session)
  }

  // ----- what a trace says, without the latch

  /** Enabled, the supply known, and the heater draws more than the shore allows. */
  predicate Over(e: Step) {
    && e.enabled && e.supply.known && e.supply.heaterOn
    && match (e.supply.electric, e.supply.shore)
       case (Finite(drawn), Finite(allowed)) => 0.0 <= allowed < drawn
       case _ => false
  }

  /** Disabling, or data known to be safe, ends a warning's episode. */
  predicate Rearms(e: Step) {
    !e.enabled || (e.supply.known &&
      match (e.supply.electric, e.supply.shore)
      case (Finite(drawn), Finite(allowed)) => 0.0 <= allowed && (!e.supply.heaterOn || drawn <= allowed)
      case _ => false)
  }

  function After(trace: seq<Step>): Latch {
    if trace == [] then Fresh() else Next(After(trace[..|trace| - 1]), trace[|trace| - 1])
  }

  /** The length of the unbroken run of over-allowance steps of one session that ends the trace. */
  function OverRun(trace: seq<Step>): (n: nat)
    ensures n <= |trace|
  {
    if trace == [] || !Over(trace[|trace| - 1]) then 0
    else
      var before := OverRun(trace[..|trace| - 1]);
      if before > 0 && trace[|trace| - 2].supply.session == trace[|trace| - 1].supply.session then before + 1 else 1
  }

  /** The run that ends the trace spans a minute and no warning has been given since the last rearming step. */
  predicate WarningDue(trace: seq<Step>)
    decreases |trace|, 0
  {
    trace != [] && OverRun(trace) > 0
    && trace[|trace| - 1].now - trace[|trace| - OverRun(trace)].now >= 60_000_000_000
    && !WarnedSinceRearmed(trace[..|trace| - 1])
  }

  predicate WarnedSinceRearmed(trace: seq<Step>)
    decreases |trace|, 1
  {
    trace != [] && !Rearms(trace[|trace| - 1]) && (WarningDue(trace) || WarnedSinceRearmed(trace[..|trace| - 1]))
  }

  predicate GoodClock(trace: seq<Step>) {
    (forall i :: 0 <= i < |trace| ==> trace[i].now != ZERO_TIME) && forall i, j :: 0 <= i <= j < |trace| ==>
      trace[i].now <= trace[j].now
  }

  lemma GoodClockPrefix(trace: seq<Step>)
    requires trace != [] && GoodClock(trace)
    ensures GoodClock(trace[..|trace| - 1])
  {
  }

  /** The latch holds what the trace says: whether a warning is outstanding, and when the run began while none is. */
  lemma {:induction false} LatchFollowsTrace(trace: seq<Step>)
    requires GoodClock(trace)
    ensures After(trace).sent == WarnedSinceRearmed(trace)
    ensures !After(trace).sent ==>
      After(trace).since == if OverRun(trace) == 0 then ZERO_TIME else trace[|trace| - OverRun(trace)].now
    ensures OverRun(trace) > 0 ==> After(trace).session == trace[|trace| - 1].supply.session
  {
    if trace != [] {
      var init := trace[..|trace| - 1];
      GoodClockPrefix(trace);
      LatchFollowsTrace(init);
    }
  }

  /** A warning is emitted at step `i` exactly when it is due. */
  lemma WarningCharacterised(trace: seq<Step>, i: nat)
    requires GoodClock(trace) && i < |trace|
    ensures Warns(After(trace[..i]), trace[i]) <==> WarningDue(trace[..i + 1])
  {
    var upTo := trace[..i + 1];
    assert upTo[..i] == trace[..i];
    LatchFollowsTrace(trace[..i]);
  }

  lemma {:induction false} OutstandingUntilRearmed(trace: seq<Step>, i: nat, n: nat)
    requires i < n <= |trace| && WarningDue(trace[..i + 1]) && forall k :: i < k < n ==> !Rearms(trace[k])
    ensures WarnedSinceRearmed(trace[..n])
  {
    assert trace[..n][..n - 1] == trace[..n - 1];
    if i < n - 1 { OutstandingUntilRearmed(trace, i, n - 1); }
  }

  /** Between two warnings lies a disabled or known-safe step: unknown data and new sessions never rearm. */
  lemma WarningsSeparated(trace: seq<Step>, i: nat, j: nat)
    requires i < j < |trace| && WarningDue(trace[..i + 1]) && WarningDue(trace[..j + 1])
    ensures exists k :: i < k < j && Rearms(trace[k])
  {
    assert trace[..j + 1][..j] == trace[..j];
    if forall k :: i < k < j ==> !Rearms(trace[k]) { OutstandingUntilRearmed(trace, i, j); }
  }

  /**
   * The run is unbroken and maximal: every step in it is over the allowance in one session, and the step before it is
   * not or is of another session.
   */
  lemma {:induction false} OverRunMaximal(trace: seq<Step>, i: nat)
    requires |trace| - OverRun(trace) - 1 <= i < |trace|
    ensures i > |trace| - OverRun(trace) ==> Over(trace[i]) && trace[i].supply.session == trace[i - 1].supply.session
    ensures i == |trace| - OverRun(trace) ==> Over(trace[i])
    ensures i == |trace| - OverRun(trace) - 1 ==>
      !Over(trace[i]) || (i + 1 < |trace| && trace[i].supply.session != trace[i + 1].supply.session)
  {
    if i < |trace| - 1 && OverRun(trace) > 1 { OverRunMaximal(trace[..|trace| - 1], i); }
    else if i < |trace| - 1 && OverRun(trace) == 1 && OverRun(trace[..|trace| - 1]) > 0 {
      OverRunMaximal(trace[..|trace| - 1], |trace| - 2);
    } else if OverRun(trace) == 1 && |trace| > 1 && OverRun(trace[..|trace| - 1]) == 0 {
      assert !Over(trace[..|trace| - 1][|trace| - 2]);
    }
  }
}
