/** Door actuation: drive the lock coil in one direction until a sensor
    reports the wanted state, and stop the coil on every way out.

    The coil register takes 2 (forward, locking), 1 (backward, unlocking)
    or 0 (stop); each command is a value-verified write. The wall-clock
    timeout is an optional poll budget: with `Some(n)`, the deadline has
    passed from the (n+1)-th poll that found the condition unmet onward. */
module Door {

  import opened Options
  import opened Registers
  import opened Transport
  import opened Feedback

  const Coil: Loc := Slot(CoilControl)
  const Forward: nat := 2
  const Backward: nat := 1
  const Stopped: nat := 0

  function DriveCommand(direction: nat): Event {
    WriteReg(Coil, direction)
  }

  const StopCommand: Event := WriteReg(Coil, Stopped)

  /** A coil command and its read-back, as the value-verified write issues them. */
  function DriveCheck(direction: nat): seq<Event> {
    [DriveCommand(direction), ReadReg(Coil)]
  }

  const StopCheck: seq<Event> := DriveCheck(Stopped)

  /** `n` reads of the sensor register `loc`, one per poll. */
  function SensorReads(loc: Loc, n: nat): seq<Event> {
    if n == 0 then [] else SensorReads(loc, n - 1) + [ReadReg(loc)]
  }

  /** `t` is `t0` followed by `n` reads of the sensor `loc`, then one or
      two stop commands, each with its read-back. */
  predicate PolledThenStopped(t: seq<Event>, t0: seq<Event>, loc: Loc, n: nat) {
    || t == t0 + SensorReads(loc, n) + StopCheck
    || t == t0 + SensorReads(loc, n) + StopCheck + StopCheck
  }

  /** A stop condition: the sensor register reads non-zero, or reads zero. */
  datatype Condition = SensorIs(loc: Loc, nonzero: bool) {
    predicate HoldsFor(v: nat) {
      (v != 0) == nonzero
    }
  }

  /** Locking stops once the door no longer reads unlocked. */
  const LockCondition: Condition := SensorIs(Slot(DoorUnlocked), false)

  /** Unlocking stops once the door reads unlocked. */
  const UnlockCondition: Condition := SensorIs(Slot(DoorUnlocked), true)

  /** A door sensor read: true when the register is non-zero. */
  function ReadSensor(b: Bus, loc: Loc): (s: Step<bool>)
    ensures s.bus.trace == b.trace + [ReadReg(loc)]
    ensures Writes(s.bus.trace) == Writes(b.trace)
    ensures s.bus.replies == Rest(b.replies)
    ensures s.out.Ok? <==> b.replies != [] && b.replies[0].Word?
    ensures s.out.Ok? ==> (s.out.value <==> b.replies[0].value != 0)
  {
    var r := Read(b, loc);
    WritesAfterRead(b.trace, loc);
    if r.out.Err? then Step(r.bus, Err(r.out.error)) else Step(r.bus, Ok(r.out.value != 0))
  }

  /** `is_door_open` */
  function IsDoorOpen(b: Bus): (s: Step<bool>)
    ensures s.bus.trace == b.trace + [ReadReg(Slot(DoorOpen))]
    ensures s.out.Ok? <==> b.replies != [] && b.replies[0].Word?
    ensures s.out.Ok? ==> (s.out.value <==> b.replies[0].value != 0)
  {
    ReadSensor(b, Slot(DoorOpen))
  }

  /** `is_door_unlocked` */
  function IsDoorUnlocked(b: Bus): (s: Step<bool>)
    ensures s.bus.trace == b.trace + [ReadReg(Slot(DoorUnlocked))]
    ensures s.out.Ok? <==> b.replies != [] && b.replies[0].Word?
    ensures s.out.Ok? ==> (s.out.value <==> b.replies[0].value != 0)
  {
    ReadSensor(b, Slot(DoorUnlocked))
  }

  /** The drive conditions are the unlocked sensor's reading: the lock
      drive stops on the first reply for which `is_door_unlocked` is false,
      the unlock drive on the first for which it is true, and both poll
      the register that function reads. */
  lemma DoorConditionsAreSensor(b: Bus)
    requires b.replies != [] && b.replies[0].Word?
    ensures IsDoorUnlocked(b).out.Ok?
    ensures LockCondition.HoldsFor(b.replies[0].value) <==> !IsDoorUnlocked(b).out.value
    ensures UnlockCondition.HoldsFor(b.replies[0].value) <==> IsDoorUnlocked(b).out.value
    ensures IsDoorUnlocked(b).bus == Read(b, LockCondition.loc).bus == Read(b, UnlockCondition.loc).bus
  {
  }

  /** `door_drv_fwd`: a value-verified write of the forward command. */
  function DrvFwd(b: Bus): (s: Step<()>)
    ensures s.bus.trace == b.trace + DriveCheck(Forward)
    ensures Writes(s.bus.trace) == Writes(b.trace) + [DriveCommand(Forward)]
    ensures s.out.Ok? <==> NextIs(b.replies, Forward)
  {
    WriteRegFeedback(b, Coil, Forward)
  }

  /** `door_drv_bwd`: a value-verified write of the backward command. */
  function DrvBwd(b: Bus): (s: Step<()>)
    ensures s.bus.trace == b.trace + DriveCheck(Backward)
    ensures Writes(s.bus.trace) == Writes(b.trace) + [DriveCommand(Backward)]
    ensures s.out.Ok? <==> NextIs(b.replies, Backward)
  {
    WriteRegFeedback(b, Coil, Backward)
  }

  /** Every reply in `rs` is a sensor word for which the condition fails. */
  predicate AllUnmet(c: Condition, rs: seq<Reply>) {
    forall i :: 0 <= i < |rs| ==> rs[i].Word? && !c.HoldsFor(rs[i].value)
  }

  /** The sensor replies `rs` report the condition unmet `k` times, within
      the budget, and then met. */
  predicate MetAfter(rs: seq<Reply>, c: Condition, budget: Option<nat>, k: nat) {
    && |rs| > k
    && AllUnmet(c, rs[..k])
    && rs[k].Word? && c.HoldsFor(rs[k].value)
    && (budget.Some? ==> k <= budget.value)
  }

  /** The condition is first met at one poll only. */
  lemma MetAfterUnique(rs: seq<Reply>, c: Condition, budget: Option<nat>, j: nat, k: nat)
    requires MetAfter(rs, c, budget, j) && MetAfter(rs, c, budget, k)
    ensures j == k
  {
  }

  /** A poll that found the condition unmet comes before the first met one. */
  lemma MetAfterPast(rs: seq<Reply>, c: Condition, budget: Option<nat>, p: nat, k: nat)
    requires p < |rs| && rs[p].Word? && !c.HoldsFor(rs[p].value)
    requires MetAfter(rs, c, budget, k) && p <= k
    ensures p < k
  {
  }

  /** The sensor replies `rs` report the condition unmet `k` times, within
      the budget, and then the next read fails: there is no reply, or it is
      not a register word. */
  predicate FaultsAfter(rs: seq<Reply>, c: Condition, budget: Option<nat>, k: nat) {
    && k <= |rs|
    && AllUnmet(c, rs[..k])
    && (k == |rs| || !rs[k].Word?)
    && (budget.Some? ==> k <= budget.value)
  }

  /** With a budget of n, the sensor replies report the condition unmet
      n + 1 times in a row. */
  predicate TimesOut(rs: seq<Reply>, c: Condition, budget: Option<nat>) {
    budget.Some? && |rs| > budget.value && AllUnmet(c, rs[..budget.value + 1])
  }

  /** A failed read is reached at one poll only. */
  lemma FaultsAfterUnique(rs: seq<Reply>, c: Condition, budget: Option<nat>, j: nat, k: nat)
    ensures FaultsAfter(rs, c, budget, j) && FaultsAfter(rs, c, budget, k) ==> j == k
  {
  }

  /** A poll that read a word comes before the failed read. */
  lemma FaultsAfterPast(rs: seq<Reply>, c: Condition, budget: Option<nat>, p: nat, k: nat)
    ensures p < |rs| && rs[p].Word? && FaultsAfter(rs, c, budget, k) && p <= k ==> p < k
  {
  }

  /** The three outcomes exclude each other: the condition met, a failed
      read, and the budget spent. */
  lemma OutcomesDisjoint(rs: seq<Reply>, c: Condition, budget: Option<nat>, j: nat, k: nat)
    ensures !(MetAfter(rs, c, budget, j) && FaultsAfter(rs, c, budget, k))
    ensures !(MetAfter(rs, c, budget, j) && TimesOut(rs, c, budget))
    ensures !(FaultsAfter(rs, c, budget, k) && TimesOut(rs, c, budget))
  {
  }

  /** The replies after the direction echo of a drive that succeeds: the
      sensor meets the condition after `k` unmet polls, and the device
      echoes the stop command. */
  predicate MetThenStops(rs: seq<Reply>, c: Condition, budget: Option<nat>, k: nat) {
    MetAfter(rs, c, budget, k) && NextIs(rs[k + 1..], Stopped)
  }

  /** The replies after the direction echo of a drive that runs out of
      budget: budget + 1 unmet polls, then both stop commands echoed. */
  predicate TimesOutThenStops(rs: seq<Reply>, c: Condition, budget: Option<nat>) {
    && TimesOut(rs, c, budget)
    && NextIs(rs[budget.value + 1..], Stopped)
    && NextIs(rs[budget.value + 2..], Stopped)
  }

  /** The replies after the direction echo of a drive whose sensor read
      fails after `k` unmet polls: the stop command echoed after the
      failed read. */
  predicate FaultsThenStops(rs: seq<Reply>, c: Condition, budget: Option<nat>, k: nat) {
    FaultsAfter(rs, c, budget, k) && NextIs(Rest(rs[k..]), Stopped)
  }

  /** The replies of a drive that succeeds after `k` unmet polls: the
      device echoes the direction, then the replies of `MetThenStops`. */
  predicate CompletesAfter(rs: seq<Reply>, direction: nat, c: Condition, budget: Option<nat>, k: nat) {
    NextIs(rs, direction) && MetThenStops(rs[1..], c, budget, k)
  }

  /** The replies of a drive that runs out of budget: the device echoes the
      direction, then the replies of `TimesOutThenStops`. */
  predicate TimesOutAndStops(rs: seq<Reply>, direction: nat, c: Condition, budget: Option<nat>) {
    NextIs(rs, direction) && TimesOutThenStops(rs[1..], c, budget)
  }

  /** The replies of a drive whose sensor read fails after `k` unmet polls:
      the device echoes the direction, then the replies of `FaultsThenStops`. */
  predicate FaultsAndStops(rs: seq<Reply>, direction: nat, c: Condition, budget: Option<nat>, k: nat) {
    NextIs(rs, direction) && FaultsThenStops(rs[1..], c, budget, k)
  }

  /** `door_drv_none` */
  function DrvNone(b: Bus): (s: Step<()>)
    ensures s.bus.trace == b.trace + StopCheck
    ensures Writes(s.bus.trace) == Writes(b.trace) + [StopCommand]
    ensures s.bus.replies == Rest(b.replies)
    ensures s.out.Ok? <==> NextIs(b.replies, Stopped)
    ensures s.out.Err? ==> s.out.error.TransportFault? || s.out.error.VerificationMismatch?
  {
    WriteRegFeedback(b, Coil, Stopped)
  }

  /** The handler of the drive loop: stop the coil, then raise `e`, or
      the stop's own error if the stop fails. */
  function FailSafe(b: Bus, e: Error): (s: Step<()>)
    ensures s.bus.trace == b.trace + StopCheck
    ensures Writes(s.bus.trace) == Writes(b.trace) + [StopCommand]
    ensures s.out.Err?
    ensures s.out.error == e || s.out.error.TransportFault? || s.out.error.VerificationMismatch?
    ensures NextIs(b.replies, Stopped) ==> s.out.error == e
  {
    var st := DrvNone(b);
    if st.out.Err? then st else Step(st.bus, Err(e))
  }

  /** After the drive, the coil's last command is stop. */
  predicate EndsStopped(t: seq<Event>) {
    Writes(t) != [] && Writes(t)[|Writes(t)| - 1] == StopCommand
  }

  datatype Poll = Pending | Met | TimedOut | Faulted(error: Error)

  /** What the drive does once polling ended: stop the coil on success
      (falling into the handler if the stop fails), stop and raise on
      timeout (the handler stops a second time), or stop and re-raise a
      failed sensor read. */
  function Finish(cur: Bus, poll: Poll, action: string): (s: Step<()>)
    requires !poll.Pending?
    requires poll.Faulted? ==> poll.error.TransportFault?
    ensures || Writes(s.bus.trace) == Writes(cur.trace) + [StopCommand]
            || Writes(s.bus.trace) == Writes(cur.trace) + [StopCommand, StopCommand]
    ensures s.bus.trace == cur.trace + StopCheck || s.bus.trace == cur.trace + StopCheck + StopCheck
    ensures s.out.Ok? <==> poll.Met? && NextIs(cur.replies, Stopped)
    ensures s.out.Ok? ==>
              && Writes(s.bus.trace) == Writes(cur.trace) + [StopCommand]
              && s.bus.trace == cur.trace + StopCheck
    ensures s.out.Err? && s.out.error.ActuationTimeout? ==>
              && poll.TimedOut? && s.out.error == ActuationTimeout(action)
              && Writes(s.bus.trace) == Writes(cur.trace) + [StopCommand, StopCommand]
              && s.bus.trace == cur.trace + StopCheck + StopCheck
    ensures poll.Faulted? && NextIs(cur.replies, Stopped) ==> s.bus.trace == cur.trace + StopCheck
    // a spent budget raises the timeout once both stops are accepted
    ensures poll.TimedOut? && NextIs(cur.replies, Stopped) && NextIs(Rest(cur.replies), Stopped) ==>
              s.out == Err(ActuationTimeout(action))
    // a failed sensor read is raised again once the stop is accepted
    ensures poll.Faulted? && NextIs(cur.replies, Stopped) ==> s.out == Err(poll.error)
  {
    match poll
    case Met =>
      var st := DrvNone(cur);
      if st.out.Err? then FailSafe(st.bus, st.out.error) else st
    case TimedOut =>
      var st := DrvNone(cur);
      if st.out.Err? then FailSafe(st.bus, st.out.error)
      else FailSafe(st.bus, ActuationTimeout(action))
    case Faulted(e) =>
      FailSafe(cur, e)
  }

  /** The state of the polling loop after `polls` unmet reads of the
      replies `rs`: the reads so far were unmet, the outcome agrees with
      the replies, and no earlier poll met the condition. */
  ghost predicate Polling(rs: seq<Reply>, cond: Condition, budget: Option<nat>, cur: Bus, poll: Poll, polls: nat) {
    && polls <= |rs| && AllUnmet(cond, rs[..polls])
    && (poll.Pending? ==> cur.replies == rs[polls..])
    && (poll.Met? ==> MetAfter(rs, cond, budget, polls) && cur.replies == rs[polls + 1..])
    && (budget.Some? && !poll.TimedOut? ==> polls <= budget.value)
    && (poll.TimedOut? ==>
          && TimesOut(rs, cond, budget) && polls == budget.value + 1
          && cur.replies == rs[polls..])
    && (poll.Faulted? ==>
          && FaultsAfter(rs, cond, budget, polls) && poll.error == TransportFault(cond.loc)
          && cur.replies == Rest(rs[polls..]))
    && (forall k :: MetAfter(rs, cond, budget, k) ==>
          polls <= k && (poll.Pending? || poll.Met?) && (poll.Met? ==> polls == k))
    && (forall k :: FaultsAfter(rs, cond, budget, k) ==>
          polls <= k && (poll.Pending? || poll.Faulted?) && (poll.Faulted? ==> polls == k))
    && (TimesOut(rs, cond, budget) ==> poll.Pending? || poll.TimedOut?)
  }

  /** One read of the sensor: met, faulted, or one more unmet poll, which
      times out once the budget is spent. */
  method PollOnce(rs: seq<Reply>, cond: Condition, budget: Option<nat>, cur: Bus, polls: nat)
    returns (next: Bus, poll: Poll, polls': nat)
    requires Polling(rs, cond, budget, cur, Pending, polls)
    ensures Polling(rs, cond, budget, next, poll, polls')
    ensures Writes(next.trace) == Writes(cur.trace)
    ensures next.trace == cur.trace + [ReadReg(cond.loc)]
    ensures polls' == if poll.Met? || poll.Faulted? then polls else polls + 1
    ensures |next.replies| <= |cur.replies|
    ensures poll.Pending? ==> |next.replies| < |cur.replies|
  {
    var r := Read(cur, cond.loc);
    WritesAfterRead(cur.trace, cond.loc);
    next := r.bus;
    polls' := polls;
    if r.out.Err? {
      assert FaultsAfter(rs, cond, budget, polls);
      forall k ensures !MetAfter(rs, cond, budget, k) {
        OutcomesDisjoint(rs, cond, budget, k, polls);
      }
      forall k | FaultsAfter(rs, cond, budget, k)
        ensures k == polls
      {
        FaultsAfterUnique(rs, cond, budget, polls, k);
      }
      OutcomesDisjoint(rs, cond, budget, 0, polls);
      poll := Faulted(r.out.error);
    } else if cond.HoldsFor(r.out.value) {
      assert MetAfter(rs, cond, budget, polls);
      forall k | MetAfter(rs, cond, budget, k)
        ensures k == polls
      {
        MetAfterUnique(rs, cond, budget, polls, k);
      }
      forall k ensures !FaultsAfter(rs, cond, budget, k) {
        OutcomesDisjoint(rs, cond, budget, polls, k);
      }
      OutcomesDisjoint(rs, cond, budget, polls, 0);
      poll := Met;
    } else {
      forall k | MetAfter(rs, cond, budget, k)
        ensures polls < k
      {
        MetAfterPast(rs, cond, budget, polls, k);
      }
      forall k | FaultsAfter(rs, cond, budget, k)
        ensures polls < k
      {
        FaultsAfterPast(rs, cond, budget, polls, k);
      }
      assert rs[..polls + 1] == rs[..polls] + [rs[polls]];
      assert next.replies == rs[polls + 1..];
      polls' := polls + 1;
      poll := if budget.Some? && polls' > budget.value then TimedOut else Pending;
    }
  }

  /** The polling loop of `_drv_coil_until`: read the sensor until the
      condition holds, the budget is spent, or a read fails. `polls`
      counts the reads that found the condition unmet. */
  method PollUntil(start: Bus, cond: Condition, budget: Option<nat>) returns (cur: Bus, poll: Poll, polls: nat)
    ensures !poll.Pending?
    ensures Writes(cur.trace) == Writes(start.trace)
    // every request is a read of the sensor: one per poll, and one more
    // for the poll that met the condition or failed
    ensures cur.trace == start.trace + SensorReads(cond.loc, if poll.TimedOut? then polls else polls + 1)
    ensures polls <= |start.replies| && AllUnmet(cond, start.replies[..polls])
    ensures poll.Met? ==> MetAfter(start.replies, cond, budget, polls) && cur.replies == start.replies[polls + 1..]
    ensures poll.TimedOut? ==>
              && TimesOut(start.replies, cond, budget) && polls == budget.value + 1
              && cur.replies == start.replies[polls..]
    ensures poll.Faulted? ==>
              && FaultsAfter(start.replies, cond, budget, polls) && poll.error == TransportFault(cond.loc)
              && cur.replies == Rest(start.replies[polls..])
    // the converses: the replies decide the outcome
    ensures forall k :: MetAfter(start.replies, cond, budget, k) ==> poll.Met? && polls == k
    ensures forall k :: FaultsAfter(start.replies, cond, budget, k) ==> poll.Faulted? && polls == k
    ensures TimesOut(start.replies, cond, budget) ==> poll.TimedOut?
  {
    cur := start;
    poll := Pending;
    polls := 0;
    while poll.Pending?
      invariant Writes(cur.trace) == Writes(start.trace)
      invariant cur.trace == start.trace + SensorReads(cond.loc, if poll.Pending? || poll.TimedOut? then polls else polls + 1)
      invariant Polling(start.replies, cond, budget, cur, poll, polls)
      decreases |cur.replies|, if poll.Pending? then 1 else 0
    {
      ghost var before := polls;
      cur, poll, polls := PollOnce(start.replies, cond, budget, cur, polls);
      assert SensorReads(cond.loc, before + 1) == SensorReads(cond.loc, before) + [ReadReg(cond.loc)];
    }
  }

  lemma StopsAppended(w: seq<Event>, drive: Event)
    ensures w + [drive] + [StopCommand] == w + [drive, StopCommand]
    ensures w + [drive] + [StopCommand, StopCommand] == w + [drive, StopCommand, StopCommand]
  {
  }

  /** The drive after the direction was accepted: poll the sensor, then
      stop the coil. Stated over the replies `start` holds from the first
      poll on. */
  method PollThenStop(start: Bus, cond: Condition, budget: Option<nat>, action: string)
    returns (s: Step<()>, polls: nat)
    ensures || Writes(s.bus.trace) == Writes(start.trace) + [StopCommand]
            || Writes(s.bus.trace) == Writes(start.trace) + [StopCommand, StopCommand]
    // the only reads are of the sensor, before the stops
    ensures || PolledThenStopped(s.bus.trace, start.trace, cond.loc, polls)
            || PolledThenStopped(s.bus.trace, start.trace, cond.loc, polls + 1)
    ensures s.out.Ok? ==>
              && MetThenStops(start.replies, cond, budget, polls)
              && Writes(s.bus.trace) == Writes(start.trace) + [StopCommand]
              && s.bus.trace == start.trace + SensorReads(cond.loc, polls + 1) + StopCheck
    ensures forall k :: MetThenStops(start.replies, cond, budget, k) ==> s.out.Ok? && polls == k
    ensures s.out.Err? && s.out.error.ActuationTimeout? ==>
              && TimesOut(start.replies, cond, budget) && polls == budget.value + 1
              && s.out.error == ActuationTimeout(action)
              && Writes(s.bus.trace) == Writes(start.trace) + [StopCommand, StopCommand]
              && s.bus.trace == start.trace + SensorReads(cond.loc, polls) + StopCheck + StopCheck
    ensures TimesOutThenStops(start.replies, cond, budget) ==>
              s.out == Err(ActuationTimeout(action)) && polls == budget.value + 1
    ensures forall k: nat :: FaultsThenStops(start.replies, cond, budget, k) ==>
              && s.out == Err(TransportFault(cond.loc)) && polls == k
              && s.bus.trace == start.trace + SensorReads(cond.loc, k + 1) + StopCheck
              && Writes(s.bus.trace) == Writes(start.trace) + [StopCommand]
  {
    var cur, poll;
    cur, poll, polls := PollUntil(start, cond, budget);
    s := Finish(cur, poll, action);
    if TimesOutThenStops(start.replies, cond, budget) {
      assert Rest(cur.replies) == start.replies[polls + 1..];
    }
  }

  /** `_drv_coil_until`. `polls` counts the sensor polls that found the
      condition unmet. */
  method DriveCoilUntil(b: Bus, direction: nat, cond: Condition, budget: Option<nat>, action: string)
    returns (s: Step<()>, polls: nat)
    // a rejected direction command raises, and no stop is issued
    ensures !NextIs(b.replies, direction) ==>
              && s.out.Err? && Writes(s.bus.trace) == Writes(b.trace) + [DriveCommand(direction)]
              && s == WriteRegFeedback(b, Coil, direction)
    // once the direction is accepted, every exit ends with a stop command
    ensures NextIs(b.replies, direction) ==>
              || Writes(s.bus.trace) == Writes(b.trace) + [DriveCommand(direction), StopCommand]
              || Writes(s.bus.trace) == Writes(b.trace) + [DriveCommand(direction), StopCommand, StopCommand]
    ensures NextIs(b.replies, direction) ==> EndsStopped(s.bus.trace)
    // and every read between the direction check and the stops is of the sensor
    ensures NextIs(b.replies, direction) ==>
              || PolledThenStopped(s.bus.trace, b.trace + DriveCheck(direction), cond.loc, polls)
              || PolledThenStopped(s.bus.trace, b.trace + DriveCheck(direction), cond.loc, polls + 1)
    // success: the condition was observed within the budget, one stop issued
    ensures s.out.Ok? ==>
              && CompletesAfter(b.replies, direction, cond, budget, polls)
              && Writes(s.bus.trace) == Writes(b.trace) + [DriveCommand(direction), StopCommand]
              && s.bus.trace == b.trace + DriveCheck(direction) + SensorReads(cond.loc, polls + 1) + StopCheck
    // and the converse: replies of a successful drive make it succeed
    ensures forall k :: CompletesAfter(b.replies, direction, cond, budget, k) ==> s.out.Ok? && polls == k
    // a timeout needs a budget, follows budget+1 unmet polls, and stops twice
    ensures s.out.Err? && s.out.error.ActuationTimeout? ==>
              && budget.Some? && polls == budget.value + 1
              && s.out.error == ActuationTimeout(action)
              && NextIs(b.replies, direction) && |b.replies| > polls
              && AllUnmet(cond, b.replies[1..polls + 1])
              && Writes(s.bus.trace) == Writes(b.trace) + [DriveCommand(direction), StopCommand, StopCommand]
              && s.bus.trace == b.trace + DriveCheck(direction) + SensorReads(cond.loc, polls) + StopCheck + StopCheck
    // and the converse: a spent budget, with both stops accepted, raises the timeout
    ensures TimesOutAndStops(b.replies, direction, cond, budget) ==>
              s.out == Err(ActuationTimeout(action)) && polls == budget.value + 1
    // a failed sensor read, with the stop accepted, is raised again
    ensures forall k: nat :: FaultsAndStops(b.replies, direction, cond, budget, k) ==>
              && s.out == Err(TransportFault(cond.loc)) && polls == k
              && s.bus.trace == b.trace + DriveCheck(direction) + SensorReads(cond.loc, k + 1) + StopCheck
              && Writes(s.bus.trace) == Writes(b.trace) + [DriveCommand(direction), StopCommand]
  {
    polls := 0;
    var d := WriteRegFeedback(b, Coil, direction);
    if d.out.Err? {
      return d, polls;
    }
    s, polls := PollThenStop(d.bus, cond, budget, action);
    ghost var w := Writes(b.trace);
    ghost var rs := b.replies;
    assert d.bus.replies == rs[1..];
    assert d.bus.trace == b.trace + DriveCheck(direction);
    assert Writes(d.bus.trace) == w + [DriveCommand(direction)];
    StopsAppended(w, DriveCommand(direction));
    if s.out.Err? && s.out.error.ActuationTimeout? {
      assert rs[1..][..polls] == rs[1..polls + 1];
    }
  }

  /** `door_lock_with_feedback`: drive forward until the unlocked sensor reads 0.
      This is `_drv_coil_until` with `door_drv_fwd` and `not is_door_unlocked()`. */
  method DoorLockWithFeedback(b: Bus, budget: Option<nat>) returns (s: Step<()>, polls: nat)
    // a rejected forward command is `door_drv_fwd`'s own failure; no stop follows
    ensures !NextIs(b.replies, Forward) ==> s == DrvFwd(b) && s.out.Err?
    ensures !NextIs(b.replies, Forward) ==> Writes(s.bus.trace) == Writes(b.trace) + [WriteReg(Coil, Forward)]
    // once accepted: sensor reads of DOOR_UNLOCKED only, then one or two stops
    ensures NextIs(b.replies, Forward) ==> EndsStopped(s.bus.trace)
    ensures NextIs(b.replies, Forward) ==>
              || Writes(s.bus.trace) == Writes(b.trace) + [DriveCommand(Forward), StopCommand]
              || Writes(s.bus.trace) == Writes(b.trace) + [DriveCommand(Forward), StopCommand, StopCommand]
    ensures NextIs(b.replies, Forward) ==>
              || PolledThenStopped(s.bus.trace, DrvFwd(b).bus.trace, Slot(DoorUnlocked), polls)
              || PolledThenStopped(s.bus.trace, DrvFwd(b).bus.trace, Slot(DoorUnlocked), polls + 1)
    // success: the sensor reads 0 within the budget and the stop is echoed
    ensures s.out.Ok? ==>
              && |b.replies| > polls + 1 && b.replies[polls + 1] == Word(0)
              && CompletesAfter(b.replies, Forward, LockCondition, budget, polls)
              && s.bus.trace == DrvFwd(b).bus.trace + SensorReads(Slot(DoorUnlocked), polls + 1) + StopCheck
              && Writes(s.bus.trace) == Writes(b.trace) + [DriveCommand(Forward), StopCommand]
    ensures forall k :: CompletesAfter(b.replies, Forward, LockCondition, budget, k) ==> s.out.Ok? && polls == k
    // timeout: only with a budget, after budget + 1 unmet polls, stopping twice
    ensures s.out.Err? && s.out.error.ActuationTimeout? ==>
              && s.out.error == ActuationTimeout("lock") && budget.Some? && polls == budget.value + 1
              && s.bus.trace == DrvFwd(b).bus.trace + SensorReads(Slot(DoorUnlocked), polls) + StopCheck + StopCheck
              && Writes(s.bus.trace) == Writes(b.trace) + [DriveCommand(Forward), StopCommand, StopCommand]
    ensures budget.None? ==> !(s.out.Err? && s.out.error.ActuationTimeout?)
    ensures TimesOutAndStops(b.replies, Forward, LockCondition, budget) ==>
              s.out == Err(ActuationTimeout("lock")) && polls == budget.value + 1
    // a failed sensor read, with the stop echoed, is raised again
    ensures forall k: nat :: FaultsAndStops(b.replies, Forward, LockCondition, budget, k) ==>
              && s.out == Err(TransportFault(Slot(DoorUnlocked))) && polls == k
              && s.bus.trace == DrvFwd(b).bus.trace + SensorReads(Slot(DoorUnlocked), k + 1) + StopCheck
              && Writes(s.bus.trace) == Writes(b.trace) + [DriveCommand(Forward), StopCommand]
  {
    s, polls := DriveCoilUntil(b, Forward, LockCondition, budget, "lock");
  }

  /** `door_unlock_with_feedback`: drive backward until the unlocked sensor reads non-zero.
      This is `_drv_coil_until` with `door_drv_bwd` and `is_door_unlocked()`. */
  method DoorUnlockWithFeedback(b: Bus, budget: Option<nat>) returns (s: Step<()>, polls: nat)
    // a rejected backward command is `door_drv_bwd`'s own failure; no stop follows
    ensures !NextIs(b.replies, Backward) ==> s == DrvBwd(b) && s.out.Err?
    ensures !NextIs(b.replies, Backward) ==> Writes(s.bus.trace) == Writes(b.trace) + [WriteReg(Coil, Backward)]
    // once accepted: sensor reads of DOOR_UNLOCKED only, then one or two stops
    ensures NextIs(b.replies, Backward) ==> EndsStopped(s.bus.trace)
    ensures NextIs(b.replies, Backward) ==>
              || Writes(s.bus.trace) == Writes(b.trace) + [DriveCommand(Backward), StopCommand]
              || Writes(s.bus.trace) == Writes(b.trace) + [DriveCommand(Backward), StopCommand, StopCommand]
    ensures NextIs(b.replies, Backward) ==>
              || PolledThenStopped(s.bus.trace, DrvBwd(b).bus.trace, Slot(DoorUnlocked), polls)
              || PolledThenStopped(s.bus.trace, DrvBwd(b).bus.trace, Slot(DoorUnlocked), polls + 1)
    // success: the sensor reads non-zero within the budget and the stop is echoed
    ensures s.out.Ok? ==>
              && |b.replies| > polls + 1 && b.replies[polls + 1].Word? && b.replies[polls + 1].value != 0
              && CompletesAfter(b.replies, Backward, UnlockCondition, budget, polls)
              && s.bus.trace == DrvBwd(b).bus.trace + SensorReads(Slot(DoorUnlocked), polls + 1) + StopCheck
              && Writes(s.bus.trace) == Writes(b.trace) + [DriveCommand(Backward), StopCommand]
    ensures forall k :: CompletesAfter(b.replies, Backward, UnlockCondition, budget, k) ==> s.out.Ok? && polls == k
    // timeout: only with a budget, after budget + 1 unmet polls, stopping twice
    ensures s.out.Err? && s.out.error.ActuationTimeout? ==>
              && s.out.error == ActuationTimeout("unlock") && budget.Some? && polls == budget.value + 1
              && s.bus.trace == DrvBwd(b).bus.trace + SensorReads(Slot(DoorUnlocked), polls) + StopCheck + StopCheck
              && Writes(s.bus.trace) == Writes(b.trace) + [DriveCommand(Backward), StopCommand, StopCommand]
    ensures budget.None? ==> !(s.out.Err? && s.out.error.ActuationTimeout?)
    ensures TimesOutAndStops(b.replies, Backward, UnlockCondition, budget) ==>
              s.out == Err(ActuationTimeout("unlock")) && polls == budget.value + 1
    // a failed sensor read, with the stop echoed, is raised again
    ensures forall k: nat :: FaultsAndStops(b.replies, Backward, UnlockCondition, budget, k) ==>
              && s.out == Err(TransportFault(Slot(DoorUnlocked))) && polls == k
              && s.bus.trace == DrvBwd(b).bus.trace + SensorReads(Slot(DoorUnlocked), k + 1) + StopCheck
              && Writes(s.bus.trace) == Writes(b.trace) + [DriveCommand(Backward), StopCommand]
  {
    s, polls := DriveCoilUntil(b, Backward, UnlockCondition, budget, "unlock");
  }
}
